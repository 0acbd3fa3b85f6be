/** UTF-8 as in sections 3 and 4 of RFC 3629, and UTF-16, over sequences of Unicode scalar values. */
module Utf8 {
  import opened Blocks
  import opened Base64

  type Scalar = c: int | 0 <= c < 0xD800 || 0xE000 <= c < 0x11_0000

  function EncodeScalar(c: Scalar): (b: seq<Byte>)
    ensures 1 <= |b| <= 4
  {
    if c < 0x80 then [c]
    else if c < 0x800 then [0xC0 + c / 64, 0x80 + c % 64]
    else if c < 0x1_0000 then [0xE0 + c / 64 / 64, 0x80 + c / 64 % 64, 0x80 + c % 64]
    else [0xF0 + c / 64 / 64 / 64, 0x80 + c / 64 / 64 % 64, 0x80 + c / 64 % 64, 0x80 + c % 64]
  }

  function Encode8(cs: seq<Scalar>): seq<Byte> {
    if cs == [] then [] else EncodeScalar(cs[0]) + Encode8(cs[1..])
  }

  predicate Tail(b: Byte) { 0x80 <= b < 0xC0 }

  /** Six more bits. */
  function Append(high: int, tail: Byte): int { high * 64 + (tail - 0x80) }

  predicate Starts2(b: seq<Byte>) { |b| >= 2 && 0xC2 <= b[0] < 0xE0 && Tail(b[1]) }

  predicate Starts3(b: seq<Byte>) {
    |b| >= 3 && 0xE0 <= b[0] < 0xF0 && Tail(b[1]) && Tail(b[2]) &&
    (b[0] == 0xE0 ==> b[1] >= 0xA0) && (b[0] == 0xED ==> b[1] < 0xA0)
  }

  predicate Starts4(b: seq<Byte>) {
    |b| >= 4 && 0xF0 <= b[0] < 0xF5 && Tail(b[1]) && Tail(b[2]) && Tail(b[3]) &&
    (b[0] == 0xF0 ==> b[1] >= 0x90) && (b[0] == 0xF4 ==> b[1] < 0x90)
  }

  /** The scalar value that the bytes begin with, and its length; None if they are not well-formed there. */
  function FirstScalar(b: seq<Byte>): Option<(Scalar, nat)>
    requires b != []
  {
    if b[0] < 0x80 then Some((b[0], 1))
    else if Starts2(b) then Some((Append(b[0] - 0xC0, b[1]), 2))
    else if Starts3(b) then Some((Append(Append(b[0] - 0xE0, b[1]), b[2]), 3))
    else if Starts4(b) then Some((Append(Append(Append(b[0] - 0xF0, b[1]), b[2]), b[3]), 4))
    else None
  }

  /** A decoder that rejects whatever is not well-formed. */
  function Decode8(b: seq<Byte>): Option<seq<Scalar>>
    decreases |b|
  {
    if b == [] then Some([])
    else
      var first := FirstScalar(b);
      if first.None? then None
      else
        FirstSound(b);
        var rest := Decode8(b[first.value.1..]);
        if rest.None? then None else Some([first.value.0] + rest.value)
  }

  lemma AppendSplits(high: int, tail: Byte)
    requires high >= 0 && Tail(tail)
    ensures Append(high, tail) / 64 == high && 0x80 + Append(high, tail) % 64 == tail
  {
  }

  lemma FirstSound(b: seq<Byte>)
    requires b != []
    ensures FirstScalar(b).Some? ==>
              var (c, n) := FirstScalar(b).value; 1 <= n <= |b| && b[..n] == EncodeScalar(c)
  {
    if b[0] < 0x80 {
      assert b[..1] == [b[0]];
    } else if Starts2(b) {
      AppendSplits(b[0] - 0xC0, b[1]);
      assert b[..2] == [b[0], b[1]];
    } else if Starts3(b) {
      var q := Append(b[0] - 0xE0, b[1]);
      AppendSplits(b[0] - 0xE0, b[1]);
      AppendSplits(q, b[2]);
      assert b[..3] == [b[0], b[1], b[2]];
    } else if Starts4(b) {
      var q := Append(b[0] - 0xF0, b[1]);
      AppendSplits(b[0] - 0xF0, b[1]);
      AppendSplits(q, b[2]);
      AppendSplits(Append(q, b[2]), b[3]);
      assert b[..4] == [b[0], b[1], b[2], b[3]];
    }
  }

  lemma SplitAppends(c: nat)
    ensures Append(c / 64, 0x80 + c % 64) == c
  {
  }

  lemma FirstComplete(c: Scalar, rest: seq<Byte>)
    ensures FirstScalar(EncodeScalar(c) + rest) == Some((c, |EncodeScalar(c)|))
  {
    var e := EncodeScalar(c);
    var b := e + rest;
    assert forall i :: 0 <= i < |e| ==> b[i] == e[i];
    if c >= 0x80 {
      SplitAppends(c);
      SplitAppends(c / 64);
      SplitAppends(c / 64 / 64);
      if c < 0x800 {
        assert Starts2(b);
      } else if c < 0x1_0000 {
        assert Starts3(b);
      } else {
        assert Starts4(b);
      }
    }
  }

  lemma {:induction false} DecodeEncode8(cs: seq<Scalar>)
    ensures Decode8(Encode8(cs)) == Some(cs)
  {
    if cs != [] {
      var e, rest := EncodeScalar(cs[0]), Encode8(cs[1..]);
      FirstComplete(cs[0], rest);
      assert (e + rest)[|e|..] == rest;
      DecodeEncode8(cs[1..]);
      assert Encode8(cs) == e + rest && cs == [cs[0]] + cs[1..];
    }
  }

  lemma {:induction false} EncodeDecode8(b: seq<Byte>)
    ensures Decode8(b).Some? ==> Encode8(Decode8(b).value) == b
    decreases |b|
  {
    if b != [] && FirstScalar(b).Some? {
      FirstSound(b);
      var (c, n) := FirstScalar(b).value;
      EncodeDecode8(b[n..]);
      assert b == b[..n] + b[n..];
    }
  }

  /** The decoder accepts exactly the UTF-8 forms of scalar value sequences, and finds that sequence. */
  lemma Decode8Iff(b: seq<Byte>, cs: seq<Scalar>)
    ensures Decode8(b) == Some(cs) <==> b == Encode8(cs)
  {
    DecodeEncode8(cs);
    EncodeDecode8(b);
  }

  // ------------------------------------------------------------------ UTF-16

  function UnitsOf(c: Scalar): seq<Unit> {
    if c < 0x1_0000 then [c] else [0xD800 + (c - 0x1_0000) / 0x400, 0xDC00 + (c - 0x1_0000) % 0x400]
  }

  /** The string of a sequence of scalar values. */
  function Utf16(cs: seq<Scalar>): seq<Unit> {
    if cs == [] then [] else UnitsOf(cs[0]) + Utf16(cs[1..])
  }

  /** A text has no more code units than bytes. */
  lemma {:induction false} Utf16Shorter(cs: seq<Scalar>)
    ensures |Utf16(cs)| <= |Encode8(cs)|
  {
    if cs != [] { Utf16Shorter(cs[1..]); }
  }
}
