/** Base64 as in sections 3.5 and 4 of RFC 4648, and the strict validator of attribute values. */
module Base64 {

  type Byte = b: int | 0 <= b < 0x100

  /** A UTF-16 code unit; strings of the program are sequences of these. */
  type Unit = u: int | 0 <= u < 0x1_0000

  const PAD: Unit := 61

  predicate InAlphabet(c: Unit) { 65 <= c <= 90 || 97 <= c <= 122 || 48 <= c <= 57 || c == 43 || c == 47 }

  /** Table 1 of RFC 4648: A-Z, a-z, 0-9, +, /. */
  function Char(v: int): (c: Unit)
    requires 0 <= v < 64
    ensures InAlphabet(c) && Value(c) == v
  {
    if v < 26 then 65 + v else if v < 52 then 97 + v - 26 else if v < 62 then 48 + v - 52 else if v == 62 then 43 else 47
  }

  /** The letters of the table, in its order. */
  lemma Alphabet(v: int)
    requires 0 <= v < 64
    ensures v < 26 ==> Char(v) == 'A' as int + v
    ensures 26 <= v < 52 ==> Char(v) == 'a' as int + (v - 26)
    ensures 52 <= v < 62 ==> Char(v) == '0' as int + (v - 52)
    ensures v == 62 ==> Char(v) == '+' as int
    ensures v == 63 ==> Char(v) == '/' as int
  {
  }

  function Value(c: Unit): (v: int)
    requires InAlphabet(c)
    ensures 0 <= v < 64
  {
    if c >= 97 then c - 97 + 26 else if c >= 65 then c - 65 else if c >= 48 then c - 48 + 52 else if c == 43 then 62 else 63
  }

  /** The four letters of three bytes. */
  function Letters(x: Byte, y: Byte, z: Byte): (s: seq<Unit>)
    ensures |s| == 4
  {
    [Char(x / 4), Char(x % 4 * 16 + y / 16), Char(y % 16 * 4 + z / 64), Char(z % 64)]
  }

  /** `buf.toString('base64')`: the last group is filled up with zero bits, and then with pads. */
  function Encode(b: seq<Byte>): seq<Unit> {
    if b == [] then []
    else if |b| == 1 then Letters(b[0], 0, 0)[..2] + [PAD, PAD]
    else if |b| == 2 then Letters(b[0], b[1], 0)[..3] + [PAD]
    else Letters(b[0], b[1], b[2]) + Encode(b[3..])
  }

  /** The regular expression of the validator: letters of the alphabet, at least one, then up to two pads. */
  predicate Matches(s: seq<Unit>) { exists n :: 1 <= n <= |s| && |s| - n <= 2 && PadsFrom(s, n) }

  predicate PadsFrom(s: seq<Unit>, n: int)
    requires 0 <= n <= |s|
  {
    (forall i :: 0 <= i < n ==> InAlphabet(s[i])) && (forall i :: n <= i < |s| ==> s[i] == PAD)
  }

  /** A string of whole groups that the regular expression lets through. */
  predicate Shaped(s: seq<Unit>) { s != [] && |s| % 4 == 0 && Matches(s) }

  lemma ShapedGroup(s: seq<Unit>)
    requires Shaped(s)
    ensures |s| >= 4 && InAlphabet(s[0]) && InAlphabet(s[1])
    ensures InAlphabet(s[2]) || (s[2] == PAD && s[3] == PAD && |s| == 4)
    ensures InAlphabet(s[2]) ==> InAlphabet(s[3]) || (s[3] == PAD && |s| == 4)
    ensures |s| > 4 ==> Shaped(s[4..])
  {
    var n :| 1 <= n <= |s| && |s| - n <= 2 && PadsFrom(s, n);
    if |s| > 4 {
      assert |s| >= 8;
      assert PadsFrom(s[4..], n - 4);
    }
  }

  /** `Buffer.from(s, 'base64')`: the bits behind the last whole byte are dropped. */
  function Decode(s: seq<Unit>): (b: seq<Byte>)
    requires Shaped(s)
    ensures b != []
  {
    ShapedGroup(s);
    var v0, v1 := Value(s[0]), Value(s[1]);
    if s[2] == PAD then [v0 * 4 + v1 / 16]
    else
      var v2 := Value(s[2]);
      if s[3] == PAD then [v0 * 4 + v1 / 16, v1 % 16 * 16 + v2 / 4]
      else
        var group: seq<Byte> := [v0 * 4 + v1 / 16, v1 % 16 * 16 + v2 / 4, v2 % 4 * 64 + Value(s[3])];
        if |s| == 4 then group else group + Decode(s[4..])
  }

  predicate IsCanonicalBase64(s: seq<Unit>) { Shaped(s) && Encode(Decode(s)) == s }

  // ------------------------------------------------------------------ exactly the encodings

  lemma ShapedFromGroup(g: seq<Unit>, rest: seq<Unit>)
    requires |g| == 4 && forall i :: 0 <= i < 4 ==> InAlphabet(g[i])
    requires rest == [] || Shaped(rest)
    ensures Shaped(g + rest)
  {
    var s := g + rest;
    if rest == [] {
      assert PadsFrom(s, 4);
    } else {
      var n :| 1 <= n <= |rest| && |rest| - n <= 2 && PadsFrom(rest, n);
      forall i | 4 <= i < |s| ensures s[i] == rest[i - 4] {}
      assert PadsFrom(s, 4 + n);
    }
  }

  lemma {:induction false} EncodeShaped(b: seq<Byte>)
    requires b != []
    ensures Shaped(Encode(b))
  {
    var s := Encode(b);
    if |b| == 1 {
      assert PadsFrom(s, 2);
    } else if |b| == 2 {
      assert PadsFrom(s, 3);
    } else {
      if b[3..] != [] { EncodeShaped(b[3..]); }
      ShapedFromGroup(s[..4], Encode(b[3..]));
      assert s == s[..4] + Encode(b[3..]);
    }
  }

  /** Three bytes are put together again from their four groups of six bits. */
  lemma Bits(x: Byte, y: Byte, z: Byte)
    ensures x / 4 * 4 + (x % 4 * 16 + y / 16) / 16 == x
    ensures (x % 4 * 16 + y / 16) % 16 * 16 + (y % 16 * 4 + z / 64) / 4 == y
    ensures (y % 16 * 4 + z / 64) % 4 * 64 + z % 64 == z
  {
  }

  lemma FewerBits(x: Byte, y: Byte)
    ensures x / 4 * 4 + x % 4 * 16 / 16 == x
    ensures x / 4 * 4 + (x % 4 * 16 + y / 16) / 16 == x
    ensures (x % 4 * 16 + y / 16) % 16 * 16 + y % 16 * 4 / 4 == y
  {
  }

  lemma DecodeOne(x: Byte)
    requires Shaped(Encode([x]))
    ensures Decode(Encode([x])) == [x]
  {
    FewerBits(x, 0);
    var s := Encode([x]);
    assert s[2] == PAD && Value(s[0]) == x / 4 && Value(s[1]) == x % 4 * 16;
  }

  lemma DecodeTwo(x: Byte, y: Byte)
    requires Shaped(Encode([x, y]))
    ensures Decode(Encode([x, y])) == [x, y]
  {
    FewerBits(x, y);
    var s := Encode([x, y]);
    assert s[3] == PAD && Value(s[0]) == x / 4 && Value(s[1]) == x % 4 * 16 + y / 16 && Value(s[2]) == y % 16 * 4;
  }

  lemma DecodeWhole(s: seq<Unit>, v: seq<int>)
    requires Shaped(s) && |s| >= 4 && |v| == 4 && forall i :: 0 <= i < 4 ==> InAlphabet(s[i]) && Value(s[i]) == v[i]
    requires |s| > 4 ==> Shaped(s[4..])
    ensures Decode(s) == [v[0] * 4 + v[1] / 16, v[1] % 16 * 16 + v[2] / 4, v[2] % 4 * 64 + v[3]] +
                         if |s| == 4 then [] else Decode(s[4..])
  {
    assert s[2] != PAD && s[3] != PAD;
  }

  lemma DecodeGroup(x: Byte, y: Byte, z: Byte, rest: seq<Unit>)
    requires Shaped(Letters(x, y, z) + rest) && (rest != [] ==> Shaped(rest))
    ensures Decode(Letters(x, y, z) + rest) == [x, y, z] + if rest == [] then [] else Decode(rest)
  {
    var s := Letters(x, y, z) + rest;
    Bits(x, y, z);
    assert forall i :: 0 <= i < 4 ==> s[i] == Letters(x, y, z)[i];
    assert s[4..] == rest;
    DecodeWhole(s, [x / 4, x % 4 * 16 + y / 16, y % 16 * 4 + z / 64, z % 64]);
  }

  lemma EncodeStep(b: seq<Byte>)
    requires |b| >= 3
    ensures Encode(b) == Letters(b[0], b[1], b[2]) + Encode(b[3..])
  {
  }

  /** The decoding of what lies behind the first group, put together with that group. */
  lemma Prepended(x: Byte, y: Byte, z: Byte, rest: seq<Unit>, decoded: seq<Byte>)
    requires Shaped(Letters(x, y, z) + rest) && (rest == [] ==> decoded == [])
    requires rest != [] ==> Shaped(rest) && Decode(rest) == decoded
    ensures Decode(Letters(x, y, z) + rest) == [x, y, z] + decoded
  {
    DecodeGroup(x, y, z, rest);
  }

  lemma {:induction false} DecodeEncode(b: seq<Byte>)
    requires b != []
    ensures Shaped(Encode(b)) && Decode(Encode(b)) == b
  {
    EncodeShaped(b);
    if |b| == 1 {
      DecodeOne(b[0]);
      assert b == [b[0]];
    } else if |b| == 2 {
      DecodeTwo(b[0], b[1]);
      assert b == [b[0], b[1]];
    } else {
      if b[3..] != [] { DecodeEncode(b[3..]); }
      EncodeStep(b);
      Prepended(b[0], b[1], b[2], Encode(b[3..]), b[3..]);
      assert b == [b[0], b[1], b[2]] + b[3..];
    }
  }

  /** The validator accepts exactly the encodings of non-empty byte strings, each of one byte string only. */
  lemma CanonicalIff(s: seq<Unit>)
    ensures IsCanonicalBase64(s) <==> exists b: seq<Byte> :: b != [] && s == Encode(b)
    ensures forall b: seq<Byte>, c: seq<Byte> :: b != [] && c != [] && Encode(b) == Encode(c) ==> b == c
  {
    if b: seq<Byte> :| b != [] && s == Encode(b) { DecodeEncode(b); }
    forall b: seq<Byte>, c: seq<Byte> | b != [] && c != [] && Encode(b) == Encode(c) ensures b == c {
      DecodeEncode(b);
      DecodeEncode(c);
    }
  }

  /** An encoding is longer than what it encodes. */
  lemma {:induction false} EncodeGrows(b: seq<Byte>)
    requires b != []
    ensures |Encode(b)| > |b|
  {
    if |b| > 3 { EncodeGrows(b[3..]); }
  }

  /** `s` is the string of these code units. */
  predicate IsTextOf(s: string, units: seq<Unit>) { |s| == |units| && forall i :: 0 <= i < |s| ==> s[i] as int == units[i] }

  lemma FirstLetter(b: seq<Byte>)
    requires b != []
    ensures Encode(b) != [] && Encode(b)[0] == Char(b[0] / 4)
  {
    var y := if |b| > 1 then b[1] else 0;
    var z := if |b| > 2 then b[2] else 0;
    assert Letters(b[0], y, z)[0] == Char(b[0] / 4);
  }

  /** The base64 form of what begins with a brace begins with a small e. */
  lemma EncodedBrace(b: seq<Byte>, s: string)
    requires b != [] && b[0] == 0x7B && IsTextOf(s, Encode(b))
    ensures s != "" && s[0] == 'e'
  {
    FirstLetter(b);
    assert s[0] as int == 101;
  }

  /** Without the re-encoding the validator would let through strings with stray bits: the last letter counts. */
  lemma PaddedCanonicalIff(a: int, b: int)
    requires 0 <= a < 64 && 0 <= b < 64
    ensures IsCanonicalBase64([Char(a), Char(b), PAD, PAD]) <==> b % 16 == 0
  {
    var s: seq<Unit> := [Char(a), Char(b), PAD, PAD];
    assert PadsFrom(s, 2);
    DecodePadded(s, a, b);
    assert b % 16 != 0 ==> Value(Char(b / 16 * 16)) != b;
  }

  lemma DecodePadded(s: seq<Unit>, a: int, b: int)
    requires 0 <= a < 64 && 0 <= b < 64 && s == [Char(a), Char(b), PAD, PAD] && Shaped(s)
    ensures Encode(Decode(s)) == [Char(a), Char(b / 16 * 16), PAD, PAD]
  {
    assert Value(s[0]) == a && Value(s[1]) == b;
    assert Decode(s) == [a * 4 + b / 16];
  }
}
