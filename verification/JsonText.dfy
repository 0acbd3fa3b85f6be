/** Which texts a JSONB column takes: the grammar of RFC 8259, sections 2 to 7. */
module JsonText {
  import opened Blocks
  import opened Parsing

  predicate IsSpace(c: char) { c == ' ' || c == '\t' || c == '\n' || c == '\r' }

  predicate IsHex(c: char) { IsDigit(c) || 'a' <= c <= 'f' || 'A' <= c <= 'F' }

  function SkipSpace(s: string): (rest: string)
    ensures |rest| <= |s| && (rest != "" ==> !IsSpace(rest[0]))
  {
    if s != "" && IsSpace(s[0]) then SkipSpace(s[1..]) else s
  }

  /** Every function below gives what is left behind the part of the grammar it is named after. */
  function Chars(s: string): (rest: Option<string>)
    ensures rest.Some? ==> |rest.value| < |s|
    decreases |s|
  {
    if s == "" || s[0] < ' ' then None
    else if s[0] == '"' then Some(s[1..])
    else if s[0] != '\\' then Chars(s[1..])
    else if |s| >= 2 && s[1] in "\"\\/bfnrt" then Chars(s[2..])
    else if |s| >= 6 && s[1] == 'u' && forall i :: 2 <= i < 6 ==> IsHex(s[i]) then Chars(s[6..])
    else None
  }

  function SomeDigits(s: string): (rest: Option<string>)
    ensures rest.Some? ==> |rest.value| < |s|
  {
    if Digits(s) > 0 then Some(s[Digits(s)..]) else None
  }

  function Whole(s: string): (rest: Option<string>)
    ensures rest.Some? ==> |rest.value| < |s|
  {
    if s != "" && s[0] == '0' then Some(s[1..]) else SomeDigits(s)
  }

  function Fraction(s: string): (rest: Option<string>)
    ensures rest.Some? ==> |rest.value| <= |s|
  {
    if s != "" && s[0] == '.' then SomeDigits(s[1..]) else Some(s)
  }

  function Exponent(s: string): (rest: Option<string>)
    ensures rest.Some? ==> |rest.value| <= |s|
  {
    if s == "" || s[0] !in "eE" then Some(s)
    else if |s| >= 2 && s[1] in "+-" then SomeDigits(s[2..])
    else SomeDigits(s[1..])
  }

  function Number(s: string): (rest: Option<string>)
    ensures rest.Some? ==> |rest.value| < |s|
  {
    var whole := Whole(if s != "" && s[0] == '-' then s[1..] else s);
    if whole.None? then None
    else
      var fraction := Fraction(whole.value);
      if fraction.None? then None else Exponent(fraction.value)
  }

  function Value(s: string): (rest: Option<string>)
    ensures rest.Some? ==> |rest.value| < |s|
    decreases |s|, 0
  {
    var t := SkipSpace(s);
    if t == "" then None
    else if t[0] == '"' then Chars(t[1..])
    else if t[0] == '[' then Items(t[1..], true)
    else if t[0] == '{' then Members(t[1..], true)
    else if "true" <= t || "null" <= t then Some(t[4..])
    else if "false" <= t then Some(t[5..])
    else Number(t)
  }

  function Items(s: string, first: bool): (rest: Option<string>)
    ensures rest.Some? ==> |rest.value| < |s|
    decreases |s|, 1
  {
    var t := SkipSpace(s);
    if first && t != "" && t[0] == ']' then Some(t[1..])
    else
      var item := Value(s);
      if item.None? then None else ItemsEnd(SkipSpace(item.value))
  }

  function ItemsEnd(s: string): (rest: Option<string>)
    ensures rest.Some? ==> |rest.value| < |s|
    decreases |s|, 0
  {
    if s != "" && s[0] == ']' then Some(s[1..])
    else if s != "" && s[0] == ',' then Items(s[1..], false)
    else None
  }

  function Members(s: string, first: bool): (rest: Option<string>)
    ensures rest.Some? ==> |rest.value| < |s|
    decreases |s|, 1
  {
    var t := SkipSpace(s);
    if first && t != "" && t[0] == '}' then Some(t[1..])
    else if t == "" || t[0] != '"' then None
    else
      var name := Chars(t[1..]);
      if name.None? then None
      else
        var colon := SkipSpace(name.value);
        if colon == "" || colon[0] != ':' then None
        else
          var member := Value(colon[1..]);
          if member.None? then None else MembersEnd(SkipSpace(member.value))
  }

  function MembersEnd(s: string): (rest: Option<string>)
    ensures rest.Some? ==> |rest.value| < |s|
    decreases |s|, 0
  {
    if s != "" && s[0] == '}' then Some(s[1..])
    else if s != "" && s[0] == ',' then Members(s[1..], false)
    else None
  }

  predicate IsJson(s: string) { Value(s).Some? && SkipSpace(Value(s).value) == "" }

  /** A string goes into a JSONB column as it is, everything else as the text that JSON.stringify makes of it. */
  predicate FitsJsonb(v: Json) { v.Text? ==> IsJson(v.text) }

  /** No JSON text begins with a letter other than those of its three words. */
  lemma WordsOnly(s: string)
    requires s != "" && IsLetter(s[0]) && IsJson(s)
    ensures s[0] in "tfn"
  {
    assert SkipSpace(s) == s;
  }
  // ------------------------------------------------------------------ what JSON.stringify writes

  /** A value without its JavaScript class; numbers are whole. */
  datatype Doc = Null | Bool(b: bool) | Int(n: int) | Str(s: string) | List(items: seq<Doc>) | Record(members: seq<Member>)

  datatype Member = Member(name: string, value: Doc)

  function Digit(n: nat): char
    requires n < 10
  {
    ('0' as int + n) as char
  }

  function Decimal(n: nat): string { if n < 10 then [Digit(n)] else Decimal(n / 10) + [Digit(n % 10)] }

  function HexDigit(n: nat): char
    requires n < 16
  {
    if n < 10 then Digit(n) else ('a' as int + (n - 10)) as char
  }

  function Escape(c: char): string {
    if c == '"' || c == '\\' then ['\\', c]
    else if c < ' ' then "\\u00" + [HexDigit(c as int / 16), HexDigit(c as int % 16)]
    else [c]
  }

  function Escaped(s: string): string { if s == "" then "" else Escape(s[0]) + Escaped(s[1..]) }

  function Quoted(s: string): string { ['"'] + Escaped(s) + ['"'] }

  function Print(v: Doc): string
    decreases v, 0
  {
    match v
    case Null => "null"
    case Bool(b) => if b then "true" else "false"
    case Int(n) => if n < 0 then "-" + Decimal(-n) else Decimal(n)
    case Str(s) => Quoted(s)
    case List(items) => "[" + PrintItems(items) + "]"
    case Record(members) => "{" + PrintMembers(members) + "}"
  }

  function PrintItems(items: seq<Doc>): string
    decreases items, 0
  {
    if items == [] then ""
    else Print(items[0]) + if |items| == 1 then "" else "," + PrintItems(items[1..])
  }

  function PrintMembers(members: seq<Member>): string
    decreases members, 0
  {
    if members == [] then ""
    else Quoted(members[0].name) + ":" + Print(members[0].value) + if |members| == 1 then "" else "," + PrintMembers(members[1..])
  }
  /** What may stand behind a value inside a list or record, or at the end. */
  predicate Stops(rest: string) { rest == "" || rest[0] == ',' || rest[0] == ']' || rest[0] == '}' }

  lemma {:induction false} DigitsSplit(a: string, rest: string)
    requires (forall i :: 0 <= i < |a| ==> IsDigit(a[i])) && (rest == "" || !IsDigit(rest[0]))
    ensures Digits(a + rest) == |a|
  {
    if a == "" {
      assert a + rest == rest;
    } else {
      DigitsSplit(a[1..], rest);
      assert (a + rest)[1..] == a[1..] + rest;
    }
  }

  lemma {:induction false} DecimalIs(n: nat)
    ensures Decimal(n) != "" && (forall i :: 0 <= i < |Decimal(n)| ==> IsDigit(Decimal(n)[i])) && (n > 0 ==> Decimal(n)[0] != '0')
  {
    if n >= 10 { DecimalIs(n / 10); }
  }

  lemma WholeDecimal(n: nat, rest: string)
    requires Stops(rest)
    ensures Whole(Decimal(n) + rest) == Some(rest)
  {
    DecimalIs(n);
    DigitsSplit(Decimal(n), rest);
    var s := Decimal(n) + rest;
    assert s[|Decimal(n)|..] == rest;
    if n == 0 { assert Decimal(n) == "0" && s[1..] == rest; } else { assert s[0] == Decimal(n)[0]; }
  }

  lemma NumberIs(s: string, rest: string)
    requires Stops(rest) && s != "" && Whole(if s[0] == '-' then s[1..] else s) == Some(rest)
    ensures Number(s) == Some(rest)
  {
  }

  lemma EscapeIsChar(c: char, tail: string)
    ensures Chars(Escape(c) + tail) == Chars(tail)
  {
    assert (Escape(c) + tail)[|Escape(c)|..] == tail;
  }

  lemma {:induction false} QuotedChars(s: string, rest: string)
    ensures Chars(Escaped(s) + ['"'] + rest) == Some(rest)
  {
    if s == "" {
      assert (Escaped(s) + ['"'] + rest)[1..] == rest;
    } else {
      var tail := Escaped(s[1..]) + ['"'] + rest;
      QuotedChars(s[1..], rest);
      EscapeIsChar(s[0], tail);
      assert Escaped(s) + ['"'] + rest == Escape(s[0]) + tail;
    }
  }

  lemma QuotedValue(s: string, rest: string)
    ensures Value(Quoted(s) + rest) == Some(rest)
  {
    QuotedChars(s, rest);
    var t := Quoted(s) + rest;
    assert t[1..] == Escaped(s) + ['"'] + rest;
    assert SkipSpace(t) == t;
  }

  lemma PrintBegins(v: Doc)
    ensures Print(v) != "" && !IsSpace(Print(v)[0]) && Print(v)[0] != ']' && Print(v)[0] != '}'
  {
    if v.Int? { DecimalIs(if v.n < 0 then -v.n else v.n); }
  }

  /** What begins with a digit or a minus is read as a number. */
  lemma NumberValue(t: string)
    requires t != "" && (IsDigit(t[0]) || t[0] == '-')
    ensures Value(t) == Number(t)
  {
    assert SkipSpace(t) == t;
    assert !("true" <= t) && !("null" <= t) && !("false" <= t);
  }

  lemma IntValue(n: int, rest: string)
    requires Stops(rest)
    ensures Value(Print(Int(n)) + rest) == Some(rest)
  {
    var t := Print(Int(n)) + rest;
    var m := if n < 0 then -n else n;
    DecimalIs(m);
    WholeDecimal(m, rest);
    assert (if t[0] == '-' then t[1..] else t) == Decimal(m) + rest;
    NumberIs(t, rest);
    NumberValue(t);
  }

  lemma WordValue(word: string, rest: string)
    requires word == "null" || word == "true" || word == "false"
    ensures Value(word + rest) == Some(rest)
  {
    var t := word + rest;
    assert SkipSpace(t) == t && word <= t && t[|word|..] == rest;
    if word == "false" { assert !("true" <= t) && !("null" <= t); }
  }

  lemma ListValue(text: string, rest: string)
    requires Items(text + ("]" + rest), true) == Some(rest)
    ensures Value("[" + text + "]" + rest) == Some(rest)
  {
    var t := "[" + text + "]" + rest;
    assert SkipSpace(t) == t && t[1..] == text + ("]" + rest);
  }

  lemma RecordValue(text: string, rest: string)
    requires Members(text + ("}" + rest), true) == Some(rest)
    ensures Value("{" + text + "}" + rest) == Some(rest)
  {
    var t := "{" + text + "}" + rest;
    assert SkipSpace(t) == t && t[1..] == text + ("}" + rest);
  }

  /** What is written for a value is read as one, up to its end. */
  lemma {:induction false} PrintedValue(v: Doc, rest: string)
    requires Stops(rest)
    ensures Value(Print(v) + rest) == Some(rest)
    decreases v, 1
  {
    match v
    case Null => WordValue("null", rest);
    case Bool(b) => WordValue(if b then "true" else "false", rest);
    case Int(n) => IntValue(n, rest);
    case Str(s) => QuotedValue(s, rest);
    case List(items) =>
      PrintedItems(items, rest, true);
      ListValue(PrintItems(items), rest);
    case Record(members) =>
      PrintedMembers(members, rest, true);
      RecordValue(PrintMembers(members), rest);
  }

  /** One item is read; what is behind it ends the list or goes on. */
  lemma ItemsStep(s: string, tail: string, first: bool)
    requires s != "" && !IsSpace(s[0]) && s[0] != ']' && Value(s) == Some(tail) && tail != "" && (tail[0] == ',' || tail[0] == ']')
    ensures Items(s, first) == if tail[0] == ']' then Some(tail[1..]) else Items(tail[1..], false)
  {
    assert SkipSpace(s) == s && SkipSpace(tail) == tail;
  }

  lemma NoItems(rest: string)
    ensures Items("" + ("]" + rest), true) == Some(rest)
  {
    var s := "" + ("]" + rest);
    assert s == "]" + rest && SkipSpace(s) == s && s[1..] == rest;
  }

  lemma LastItem(text: string, rest: string, first: bool)
    requires text != "" && !IsSpace(text[0]) && text[0] != ']' && Value(text + ("]" + rest)) == Some("]" + rest)
    ensures Items(text + ("]" + rest), first) == Some(rest)
  {
    ItemsStep(text + ("]" + rest), "]" + rest, first);
    assert ("]" + rest)[1..] == rest;
  }

  lemma OneMoreItem(text: string, more: string, rest: string, first: bool)
    requires text != "" && !IsSpace(text[0]) && text[0] != ']' && Value(text + ("," + more)) == Some("," + more)
    requires Items(more, false) == Some(rest)
    ensures Items(text + ("," + more), first) == Some(rest)
  {
    ItemsStep(text + ("," + more), "," + more, first);
    assert ("," + more)[1..] == more;
  }

  lemma Joined(first: string, more: string, rest: string)
    ensures first + "" + rest == first + rest && first + ("," + more) + rest == first + ("," + (more + rest))
  {
  }

  lemma ItemsText(items: seq<Doc>, rest: string)
    requires items != []
    ensures PrintItems(items) + rest == Print(items[0]) + if |items| == 1 then rest else "," + (PrintItems(items[1..]) + rest)
  {
    Joined(Print(items[0]), if |items| == 1 then "" else PrintItems(items[1..]), rest);
  }

  lemma {:induction false} PrintedItems(items: seq<Doc>, rest: string, first: bool)
    requires items != [] || first
    ensures Items(PrintItems(items) + ("]" + rest), first) == Some(rest)
    decreases items, 0
  {
    if items == [] {
      NoItems(rest);
    } else {
      PrintBegins(items[0]);
      ItemsText(items, "]" + rest);
      if |items| == 1 {
        PrintedValue(items[0], "]" + rest);
        LastItem(Print(items[0]), rest, first);
      } else {
        var more := PrintItems(items[1..]) + ("]" + rest);
        PrintedItems(items[1..], rest, false);
        PrintedValue(items[0], "," + more);
        OneMoreItem(Print(items[0]), more, rest, first);
      }
    }
  }

  lemma MembersStep(s: string, colon: string, tail: string, first: bool)
    requires s != "" && s[0] == '"' && Chars(s[1..]) == Some(colon) && colon != "" && colon[0] == ':'
    requires Value(colon[1..]) == Some(tail) && tail != "" && (tail[0] == ',' || tail[0] == '}')
    ensures Members(s, first) == if tail[0] == '}' then Some(tail[1..]) else Members(tail[1..], false)
  {
    assert SkipSpace(s) == s && SkipSpace(colon) == colon && SkipSpace(tail) == tail;
  }

  /** A member with what is behind it. */
  lemma PrintedMember(name: string, text: string, tail: string, first: bool)
    requires Value(text + tail) == Some(tail) && tail != "" && (tail[0] == ',' || tail[0] == '}')
    ensures Members(Quoted(name) + ":" + text + tail, first) == if tail[0] == '}' then Some(tail[1..]) else Members(tail[1..], false)
  {
    var s, colon := Quoted(name) + ":" + text + tail, ":" + (text + tail);
    assert s[1..] == Escaped(name) + ['"'] + colon;
    assert colon[1..] == text + tail;
    QuotedChars(name, colon);
    MembersStep(s, colon, tail, first);
  }

  lemma NoMembers(rest: string)
    ensures Members("" + ("}" + rest), true) == Some(rest)
  {
    var s := "" + ("}" + rest);
    assert s == "}" + rest && SkipSpace(s) == s && s[1..] == rest;
  }

  lemma LastMember(name: string, text: string, rest: string, first: bool)
    requires Value(text + ("}" + rest)) == Some("}" + rest)
    ensures Members(Quoted(name) + ":" + text + ("}" + rest), first) == Some(rest)
  {
    PrintedMember(name, text, "}" + rest, first);
    assert ("}" + rest)[1..] == rest;
  }

  lemma OneMoreMember(name: string, text: string, more: string, rest: string, first: bool)
    requires Value(text + ("," + more)) == Some("," + more) && Members(more, false) == Some(rest)
    ensures Members(Quoted(name) + ":" + text + ("," + more), first) == Some(rest)
  {
    PrintedMember(name, text, "," + more, first);
    assert ("," + more)[1..] == more;
  }

  function PrintMember(m: Member): string
    decreases m, 1
  {
    Quoted(m.name) + ":" + Print(m.value)
  }

  lemma MembersText(members: seq<Member>, rest: string)
    requires members != []
    ensures PrintMembers(members) + rest ==
            PrintMember(members[0]) + if |members| == 1 then rest else "," + (PrintMembers(members[1..]) + rest)
  {
    Joined(PrintMember(members[0]), if |members| == 1 then "" else PrintMembers(members[1..]), rest);
  }

  lemma {:induction false} PrintedMembers(members: seq<Member>, rest: string, first: bool)
    requires members != [] || first
    ensures Members(PrintMembers(members) + ("}" + rest), first) == Some(rest)
    decreases members, 0
  {
    if members == [] {
      NoMembers(rest);
    } else {
      var m := members[0];
      MembersText(members, "}" + rest);
      if |members| == 1 {
        PrintedValue(m.value, "}" + rest);
        LastMember(m.name, Print(m.value), rest, first);
      } else {
        var more := PrintMembers(members[1..]) + ("}" + rest);
        PrintedMembers(members[1..], rest, false);
        PrintedValue(m.value, "," + more);
        OneMoreMember(m.name, Print(m.value), more, rest, first);
      }
    }
  }

  /** Every value that is written as JSON goes into a JSONB column. */
  lemma PrintedIsJson(v: Doc)
    ensures IsJson(Print(v))
  {
    PrintedValue(v, "");
    assert Print(v) + "" == Print(v);
  }
}
