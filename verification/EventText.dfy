/** `tryB64ToUtf8`: attribute values that are base64 of readable text are shown as that text. */
module EventText {
  import opened Blocks
  import opened Base64
  import opened Utf8

  const BOM: Scalar := 0xFEFF

  /** `new TextDecoder('utf-8', { fatal: true })`, which drops a leading byte order mark. */
  function DecodeText(b: seq<Byte>): Option<seq<Scalar>> {
    var cs := Decode8(b);
    if cs.Some? && cs.value != [] && cs.value[0] == BOM then Some(cs.value[1..]) else cs
  }

  /** The character class of the check, unit by unit: tab, line feed, carriage return, and no other control. */
  predicate Readable(u: Unit) { u == 0x09 || u == 0x0A || u == 0x0D || 0x20 <= u <= 0x7E || 0x80 <= u }

  predicate AllReadable(s: seq<Unit>) { forall i :: 0 <= i < |s| ==> Readable(s[i]) }

  function TryB64ToUtf8(s: seq<Unit>): seq<Unit> {
    if !IsCanonicalBase64(s) then s
    else
      var text := DecodeText(Decode(s));
      if text.None? || !AllReadable(Utf16(text.value)) then s else Utf16(text.value)
  }

  predicate Printable(c: Scalar) { c == 0x09 || c == 0x0A || c == 0x0D || 0x20 <= c <= 0x7E || 0x80 <= c }

  lemma {:induction false} ReadableIff(cs: seq<Scalar>)
    ensures AllReadable(Utf16(cs)) <==> forall i :: 0 <= i < |cs| ==> Printable(cs[i])
  {
    if cs != [] {
      var head, rest := UnitsOf(cs[0]), Utf16(cs[1..]);
      ReadableIff(cs[1..]);
      assert AllReadable(head + rest) <==> AllReadable(head) && AllReadable(rest) by {
        assert forall i :: 0 <= i < |head| ==> (head + rest)[i] == head[i];
        assert forall i :: 0 <= i < |rest| ==> (head + rest)[|head| + i] == rest[i];
      }
      assert AllReadable(head) <==> Printable(cs[0]) by {
        assert cs[0] < 0x1_0000 ==> head[0] == cs[0];
      }
      assert forall i :: 0 <= i < |cs[1..]| ==> cs[1..][i] == cs[i + 1];
      assert (forall i :: 0 <= i < |cs| ==> Printable(cs[i])) <==> Printable(cs[0]) && forall i :: 0 <= i < |cs[1..]| ==> Printable(cs[1..][i]) by {
        if Printable(cs[0]) && forall i :: 0 <= i < |cs[1..]| ==> Printable(cs[1..][i]) {
          forall i | 0 <= i < |cs| ensures Printable(cs[i]) { if i > 0 { assert cs[i] == cs[1..][i - 1]; } }
        }
      }
    }
  }

  /**
   The result is the input, or a text that encodes to exactly the input: directly, or with the byte order
   mark in front that the decoder has dropped.
   */
  lemma ResultEncodesInput(s: seq<Unit>)
    ensures TryB64ToUtf8(s) == s ||
            exists cs: seq<Scalar> :: TryB64ToUtf8(s) == Utf16(cs) &&
              (s == Encode(Encode8(cs)) || s == Encode(Encode8([BOM] + cs)))
  {
    if TryB64ToUtf8(s) != s {
      var all := Decode8(Decode(s)).value;
      EncodeDecode8(Decode(s));
      assert s == Encode(Encode8(all));
      if all != [] && all[0] == BOM {
        assert all == [BOM] + all[1..];
        assert TryB64ToUtf8(s) == Utf16(all[1..]);
      } else {
        assert TryB64ToUtf8(s) == Utf16(all);
      }
    }
  }

  /** The text that is shown, if it is readable. */
  function Shown(cs: seq<Scalar>): seq<Scalar>
    requires cs != []
  {
    if cs[0] == BOM then cs[1..] else cs
  }

  lemma TryOf(s: seq<Unit>, cs: seq<Scalar>)
    requires IsCanonicalBase64(s) && Decode8(Decode(s)) == Some(cs) && cs != []
    ensures TryB64ToUtf8(s) == if AllReadable(Utf16(Shown(cs))) then Utf16(Shown(cs)) else s
  {
  }

  lemma RecoveredIfPrintable(cs: seq<Scalar>, s: seq<Unit>)
    requires cs != [] && s == Encode(Encode8(cs))
    ensures TryB64ToUtf8(s) == Utf16(cs) <==> cs[0] != BOM && forall i :: 0 <= i < |cs| ==> Printable(cs[i])
  {
    Canonical(cs);
    TryOf(s, cs);
    ReadableIff(cs);
    LongerThanText(cs);
  }

  lemma PrintableAll(cs: seq<Scalar>)
    ensures (forall i :: 0 <= i < |cs| ==> Printable(cs[i])) <==>
            forall i :: 0 <= i < |cs| ==> cs[i] != 0x7F && (cs[i] < 0x20 ==> cs[i] == 0x09 || cs[i] == 0x0A || cs[i] == 0x0D)
  {
    forall i | 0 <= i < |cs|
      ensures Printable(cs[i]) <==> cs[i] != 0x7F && (cs[i] < 0x20 ==> cs[i] == 0x09 || cs[i] == 0x0A || cs[i] == 0x0D)
    {
    }
  }

  /**
   A non-empty text is recovered from the base64 of its UTF-8 bytes if and only if it has no control
   characters besides tab and line ends and does not begin with a byte order mark.
   */
  lemma RecoveredIff(cs: seq<Scalar>)
    requires cs != []
    ensures TryB64ToUtf8(Encode(Encode8(cs))) == Utf16(cs) <==>
            && cs[0] != 0xFEFF
            && forall i :: 0 <= i < |cs| ==> cs[i] != 0x7F && (cs[i] < 0x20 ==> cs[i] == 0x09 || cs[i] == 0x0A || cs[i] == 0x0D)
  {
    RecoveredIfPrintable(cs, Encode(Encode8(cs)));
    PrintableAll(cs);
  }

  /** A text is not its own encoding, nor that of what is left without its first character. */
  lemma LongerThanText(cs: seq<Scalar>)
    requires cs != []
    ensures Encode(Encode8(cs)) != Utf16(cs) && Utf16(cs[1..]) != Utf16(cs)
  {
    Utf16Shorter(cs);
    EncodeGrows(Encode8(cs));
    assert |Utf16(cs)| == |UnitsOf(cs[0])| + |Utf16(cs[1..])|;
  }

  lemma Canonical(cs: seq<Scalar>)
    requires cs != []
    ensures Encode8(cs) != []
    ensures var s := Encode(Encode8(cs)); IsCanonicalBase64(s) && Decode8(Decode(s)) == Some(cs)
  {
    CanonicalIff(Encode(Encode8(cs)));
    DecodeEncode(Encode8(cs));
    DecodeEncode8(cs);
  }
}
