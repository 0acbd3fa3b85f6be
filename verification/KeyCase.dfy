/** Conversion of the keys of nested values between snake case and camel case. */
module KeyCase {

  datatype CaseMode = Snake | Camel

  datatype Entry = Entry(key: string, value: Json)

  /** A plain value; the keys of an object are in insertion order, and each occurs once. */
  datatype Json = Scalar(text: string) | Array(items: seq<Json>) | Object(entries: seq<Entry>)

  // ------------------------------------------------------------------ characters

  predicate IsUpper(c: char) { 'A' <= c <= 'Z' }

  predicate IsLower(c: char) { 'a' <= c <= 'z' }

  predicate IsDigit(c: char) { '0' <= c <= '9' }

  predicate IsAlnum(c: char) { IsUpper(c) || IsLower(c) || IsDigit(c) }

  /** `\s` of a regular expression. */
  predicate IsSpace(c: char) {
    var n := c as int;
    9 <= n <= 13 || n == 32 || n == 0xA0 || n == 0x1680 || 0x2000 <= n <= 0x200A || n == 0x2028 || n == 0x2029 || n == 0x202F
    || n == 0x205F || n == 0x3000 || n == 0xFEFF
  }

  predicate IsDash(c: char) { c == '-' || IsSpace(c) }

  predicate IsSep(c: char) { c == '_' || IsDash(c) }

  function Lower(c: char): char { if IsUpper(c) then c + ' ' else c }

  function Upper(c: char): char { if IsLower(c) then c - ' ' else c }

  // ------------------------------------------------------------------ keys

  /** `.replace(/([A-Z])/g, "_$1")` */
  function MarkUpper(k: string): string {
    if k == [] then [] else (if IsUpper(k[0]) then ['_', k[0]] else [k[0]]) + MarkUpper(k[1..])
  }

  function SkipDashes(k: string): (r: string)
    ensures |r| <= |k| && (r != [] ==> !IsDash(r[0]))
  {
    if k != [] && IsDash(k[0]) then SkipDashes(k[1..]) else k
  }

  /** `.replace(/[-\s]+/g, "_")` */
  function JoinDashes(k: string): string
    decreases |k|
  {
    if k == [] then []
    else if IsDash(k[0]) then ['_'] + JoinDashes(SkipDashes(k[1..]))
    else [k[0]] + JoinDashes(k[1..])
  }

  function LowerAll(k: string): string { seq(|k|, i requires 0 <= i < |k| => Lower(k[i])) }

  function ToSnakeKey(k: string): string { LowerAll(JoinDashes(MarkUpper(k))) }

  function SkipSeps(k: string): (r: string)
    ensures |r| <= |k| && (r != [] ==> !IsSep(r[0]))
  {
    if k != [] && IsSep(k[0]) then SkipSeps(k[1..]) else k
  }

  /** `.replace(/[_-\s]+([a-zA-Z0-9])/g, (_, c) => c.toUpperCase())` */
  function ToCamelKey(k: string): string
    decreases |k|
  {
    if k == [] then []
    else if IsSep(k[0]) then
      var rest := SkipSeps(k[1..]);
      if rest != [] && IsAlnum(rest[0]) then [Upper(rest[0])] + ToCamelKey(rest[1..]) else [k[0]] + ToCamelKey(k[1..])
    else [k[0]] + ToCamelKey(k[1..])
  }

  lemma LowerAllConcat(a: string, b: string)
    ensures LowerAll(a + b) == LowerAll(a) + LowerAll(b)
  {
  }

  lemma {:induction false} MarkUpperSkips(k: string)
    ensures SkipDashes(MarkUpper(k)) == MarkUpper(SkipDashes(k))
  {
    if k != [] && IsDash(k[0]) {
      assert MarkUpper(k)[1..] == MarkUpper(k[1..]);
      MarkUpperSkips(k[1..]);
    } else if k != [] {
      assert MarkUpper(k)[0] == k[0] || MarkUpper(k)[0] == '_';
    }
  }

  /** The three passes of the snake conversion, seen from the first character. */
  lemma SnakeStep(k: string)
    requires k != []
    ensures IsUpper(k[0]) ==> ToSnakeKey(k) == ['_', Lower(k[0])] + ToSnakeKey(k[1..])
    ensures IsDash(k[0]) ==> ToSnakeKey(k) == ['_'] + ToSnakeKey(SkipDashes(k[1..]))
    ensures !IsUpper(k[0]) && !IsDash(k[0]) ==> ToSnakeKey(k) == [k[0]] + ToSnakeKey(k[1..])
  {
    var m := MarkUpper(k);
    var rest := MarkUpper(k[1..]);
    if IsUpper(k[0]) {
      assert m[1..] == [k[0]] + rest && m[1..][1..] == rest;
      assert JoinDashes(m) == ['_', k[0]] + JoinDashes(rest);
      LowerAllConcat(['_', k[0]], JoinDashes(rest));
    } else if IsDash(k[0]) {
      assert m[1..] == rest;
      MarkUpperSkips(k[1..]);
      LowerAllConcat(['_'], JoinDashes(MarkUpper(SkipDashes(k[1..]))));
    } else {
      assert m[1..] == rest;
      LowerAllConcat([k[0]], JoinDashes(rest));
    }
  }

  // ------------------------------------------------------------------ which keys come back

  /**
   Nothing to lower, no dashes or spaces, and every underscore either marks one small letter behind it, or
   belongs to a run behind which no letter or digit comes.
   */
  predicate Restorable(k: string)
    decreases |k|
  {
    k == [] ||
    if IsUpper(k[0]) || IsDash(k[0]) then false
    else if k[0] == '_' && SkipSeps(k[1..]) != [] && IsAlnum(SkipSeps(k[1..])[0]) then IsLower(k[1]) && Restorable(k[2..])
    else Restorable(k[1..])
  }

  lemma SkipNothing(k: string)
    requires k != [] && !IsSep(k[0])
    ensures SkipSeps(k) == k
  {
  }

  lemma LowerBehindSep(k: string)
    requires k != []
    ensures IsLower(k[0]) ==> SkipSeps(k)[..1] == [k[0]]
  {
  }

  /** Camel case and back gives the same key exactly for the restorable ones. */
  lemma {:induction false} RestoredIff(k: string)
    ensures ToSnakeKey(ToCamelKey(k)) == k <==> Restorable(k)
    decreases |k|
  {
    if k != [] {
      var camel := ToCamelKey(k);
      SnakeStep(camel);
      var rest := SkipSeps(k[1..]);
      if IsSep(k[0]) && rest != [] && IsAlnum(rest[0]) {
        assert camel[1..] == ToCamelKey(rest[1..]);
        SepRestoredIff(k, rest);
      } else {
        assert camel[1..] == ToCamelKey(k[1..]);
        RestoredIff(k[1..]);
        assert k == [k[0]] + k[1..];
      }
    }
  }

  lemma {:induction false} SepRestoredIff(k: string, rest: string)
    requires k != [] && IsSep(k[0]) && rest == SkipSeps(k[1..]) && rest != [] && IsAlnum(rest[0])
    ensures ToSnakeKey(ToCamelKey(k)) == k <==> Restorable(k)
    decreases |k|, 0
  {
    var camel := ToCamelKey(k);
    SnakeStep(camel);
    assert camel[0] == Upper(rest[0]) && camel[1..] == ToCamelKey(rest[1..]);
    if IsDigit(rest[0]) {
      assert ToSnakeKey(camel)[0] == rest[0];
      assert !IsLower(k[1]) by { LowerBehindSep(k[1..]); }
    } else {
      var low := Lower(Upper(rest[0]));
      assert IsLower(low) && Lower(rest[0]) == low;
      assert ToSnakeKey(camel) == ['_', low] + ToSnakeKey(ToCamelKey(rest[1..]));
      assert |k| >= 2;
      if !IsSep(k[1]) {
        SkipNothing(k[1..]);
        assert rest[1..] == k[2..];
        RestoredIff(k[2..]);
        assert k == [k[0], k[1]] + k[2..];
      }
    }
  }

  /** Lower-case segments that start with a letter, joined by single underscores. */
  predicate CanonicalSnake(k: string) { k != [] && IsLower(k[0]) && Segments(k) }

  predicate Segments(k: string) { forall i :: 0 <= i < |k| ==> InSegment(k, i) }

  predicate InSegment(k: string, i: nat)
    requires i < |k|
  {
    IsLower(k[i]) || IsDigit(k[i]) || (k[i] == '_' && i + 1 < |k| && IsLower(k[i + 1]))
  }

  lemma SegmentsBehind(k: string, n: nat)
    requires Segments(k) && n <= |k|
    ensures Segments(k[n..])
  {
    forall i | 0 <= i < |k[n..]| ensures InSegment(k[n..], i) { assert InSegment(k, i + n); }
  }

  lemma {:induction false} SegmentsRestorable(k: string)
    requires Segments(k)
    ensures Restorable(k)
    decreases |k|
  {
    if k != [] {
      assert InSegment(k, 0);
      if k[0] == '_' {
        SkipNothing(k[1..]);
        SegmentsBehind(k, 2);
        SegmentsRestorable(k[2..]);
      } else {
        SegmentsBehind(k, 1);
        SegmentsRestorable(k[1..]);
      }
    }
  }

  lemma CanonicalKeysRestored(k: string)
    requires CanonicalSnake(k)
    ensures ToSnakeKey(ToCamelKey(k)) == k
  {
    SegmentsRestorable(k);
    RestoredIff(k);
  }

  predicate Plain(k: string) { forall i :: 0 <= i < |k| ==> !IsUpper(k[i]) && !IsDash(k[i]) }

  lemma {:induction false} SnakePlain(k: string)
    ensures Plain(ToSnakeKey(k))
    decreases |k|
  {
    if k != [] {
      SnakeStep(k);
      SnakePlain(if IsDash(k[0]) then SkipDashes(k[1..]) else k[1..]);
    }
  }

  lemma {:induction false} PlainStays(k: string)
    requires Plain(k)
    ensures ToSnakeKey(k) == k
  {
    if k != [] {
      SnakeStep(k);
      PlainStays(k[1..]);
    }
  }

  /** Snake conversion changes nothing that it has produced. */
  lemma SnakeIdempotent(k: string)
    ensures ToSnakeKey(ToSnakeKey(k)) == ToSnakeKey(k)
  {
    SnakePlain(k);
    PlainStays(ToSnakeKey(k));
  }

  // ------------------------------------------------------------------ nested values

  predicate IsAt(k: string) { k != [] && k[0] == '@' }

  /** Keys that start with "@" stay as they are. */
  function NewKey(k: string, mode: CaseMode): string {
    if IsAt(k) then k else if mode.Snake? then ToSnakeKey(k) else ToCamelKey(k)
  }

  predicate HasKey(out: seq<Entry>, k: string) { exists i :: 0 <= i < |out| && out[i].key == k }

  /** `out[k] = v`: a key that is there already keeps its place. */
  function Put(out: seq<Entry>, k: string, v: Json): seq<Entry> {
    if out == [] then [Entry(k, v)]
    else if out[0].key == k then [Entry(k, v)] + out[1..]
    else [out[0]] + Put(out[1..], k, v)
  }

  function PutAll(es: seq<Entry>): seq<Entry> {
    if es == [] then [] else Put(PutAll(es[..|es| - 1]), es[|es| - 1].key, es[|es| - 1].value)
  }

  function Convert(j: Json, mode: CaseMode): Json {
    match j
    case Scalar(_) => j
    case Array(items) => Array(seq(|items|, i requires 0 <= i < |items| => Convert(items[i], mode)))
    case Object(entries) =>
      Object(PutAll(seq(|entries|, i requires 0 <= i < |entries| => Entry(NewKey(entries[i].key, mode), Convert(entries[i].value, mode)))))
  }

  function ConvertedEntries(entries: seq<Entry>, mode: CaseMode): seq<Entry> {
    seq(|entries|, i requires 0 <= i < |entries| => Entry(NewKey(entries[i].key, mode), Convert(entries[i].value, mode)))
  }

  function ConvertedItems(items: seq<Json>, mode: CaseMode): seq<Json> {
    seq(|items|, i requires 0 <= i < |items| => Convert(items[i], mode))
  }

  lemma PutAllStep(es: seq<Entry>, i: nat)
    requires i < |es|
    ensures PutAll(es[..i + 1]) == Put(PutAll(es[..i]), es[i].key, es[i].value)
  {
    assert es[..i + 1][..i] == es[..i];
  }

  /** `deepConvertKeys`. */
  method DeepConvertKeys(j: Json, mode: CaseMode) returns (r: Json)
    ensures r == Convert(j, mode)
    decreases j
  {
    match j
    case Scalar(_) => r := j;
    case Array(items) =>
      var out: seq<Json> := [];
      for i := 0 to |items|
        invariant out == ConvertedItems(items, mode)[..i]
      {
        var x := DeepConvertKeys(items[i], mode);
        out := out + [x];
      }
      assert Convert(j, mode) == Array(ConvertedItems(items, mode));
      r := Array(out);
    case Object(entries) =>
      var out: seq<Entry> := [];
      for i := 0 to |entries|
        invariant out == PutAll(ConvertedEntries(entries, mode)[..i])
      {
        var v := DeepConvertKeys(entries[i].value, mode);
        PutAllStep(ConvertedEntries(entries, mode), i);
        out := Put(out, NewKey(entries[i].key, mode), v);
      }
      assert ConvertedEntries(entries, mode)[..|entries|] == ConvertedEntries(entries, mode);
      assert Convert(j, mode) == Object(PutAll(ConvertedEntries(entries, mode)));
      r := Object(out);
  }

  predicate DistinctKeys(es: seq<Entry>) { forall i, j :: 0 <= i < j < |es| ==> es[i].key != es[j].key }

  lemma {:induction false} PutAppends(out: seq<Entry>, k: string, v: Json)
    requires !HasKey(out, k)
    ensures Put(out, k, v) == out + [Entry(k, v)]
  {
    if out != [] {
      assert out[0].key != k;
      assert !HasKey(out[1..], k) by { assert forall i :: 0 <= i < |out[1..]| ==> out[1..][i] == out[i + 1]; }
      PutAppends(out[1..], k, v);
    }
  }

  /** Without two equal keys nothing is overwritten. */
  lemma {:induction false} NothingMerged(es: seq<Entry>)
    requires DistinctKeys(es)
    ensures PutAll(es) == es
    decreases |es|
  {
    if es != [] {
      var front, last := es[..|es| - 1], es[|es| - 1];
      NothingMerged(front);
      PutAppends(front, last.key, last.value);
      assert es == front + [last];
    }
  }

  predicate GoodKey(k: string) { IsAt(k) || Restorable(k) }

  /** Every object has distinct keys, each of them restorable or starting with "@". */
  predicate Convertible(j: Json) {
    match j
    case Scalar(_) => true
    case Array(items) => forall i :: 0 <= i < |items| ==> Convertible(items[i])
    case Object(entries) =>
      DistinctKeys(entries) && forall i :: 0 <= i < |entries| ==> GoodKey(entries[i].key) && Convertible(entries[i].value)
  }

  lemma CamelNotAt(k: string)
    requires !IsAt(k)
    ensures !IsAt(ToCamelKey(k))
  {
  }

  lemma KeyRestored(k: string)
    requires GoodKey(k)
    ensures NewKey(NewKey(k, Camel), Snake) == k
  {
    if !IsAt(k) {
      CamelNotAt(k);
      RestoredIff(k);
    }
  }

  /** No two keys of an object become one. */
  lemma CamelKeysDistinct(entries: seq<Entry>)
    requires DistinctKeys(entries) && forall i :: 0 <= i < |entries| ==> GoodKey(entries[i].key)
    ensures DistinctKeys(ConvertedEntries(entries, Camel))
  {
    var es := ConvertedEntries(entries, Camel);
    forall i, j | 0 <= i < j < |es| ensures es[i].key != es[j].key {
      KeyRestored(entries[i].key);
      KeyRestored(entries[j].key);
    }
  }

  /** Camel case and back restores every nested value, and merges no keys on the way. */
  lemma {:induction false} RoundTrip(j: Json)
    requires Convertible(j)
    ensures Convert(Convert(j, Camel), Snake) == j
    ensures j.Object? ==> |Convert(j, Camel).entries| == |j.entries|
    decreases j
  {
    match j
    case Scalar(_) =>
    case Array(items) =>
      forall i | 0 <= i < |items| ensures Convert(Convert(items[i], Camel), Snake) == items[i] { RoundTrip(items[i]); }
      var c := ConvertedItems(items, Camel);
      assert Convert(j, Camel) == Array(c);
      assert ConvertedItems(c, Snake) == items;
      assert Convert(Array(c), Snake) == Array(ConvertedItems(c, Snake));
    case Object(entries) =>
      forall i | 0 <= i < |entries| ensures Convert(Convert(entries[i].value, Camel), Snake) == entries[i].value {
        RoundTrip(entries[i].value);
      }
      EntriesRoundTrip(entries);
      assert Convert(j, Camel) == Object(PutAll(ConvertedEntries(entries, Camel)));
      var c := ConvertedEntries(entries, Camel);
      assert Convert(Object(c), Snake) == Object(PutAll(ConvertedEntries(c, Snake)));
  }

  lemma EntriesRoundTrip(entries: seq<Entry>)
    requires DistinctKeys(entries) && forall i :: 0 <= i < |entries| ==> GoodKey(entries[i].key)
    requires forall i :: 0 <= i < |entries| ==> Convert(Convert(entries[i].value, Camel), Snake) == entries[i].value
    ensures var c := ConvertedEntries(entries, Camel);
            PutAll(c) == c && ConvertedEntries(c, Snake) == entries && PutAll(entries) == entries
  {
    var c := ConvertedEntries(entries, Camel);
    CamelKeysDistinct(entries);
    NothingMerged(c);
    NothingMerged(entries);
    EntriesRestored(entries);
  }

  lemma EntriesRestored(entries: seq<Entry>)
    requires forall i :: 0 <= i < |entries| ==> GoodKey(entries[i].key)
    requires forall i :: 0 <= i < |entries| ==> Convert(Convert(entries[i].value, Camel), Snake) == entries[i].value
    ensures ConvertedEntries(ConvertedEntries(entries, Camel), Snake) == entries
  {
    var c := ConvertedEntries(entries, Camel);
    var d := ConvertedEntries(c, Snake);
    forall i | 0 <= i < |entries| ensures d[i] == entries[i] {
      KeyRestored(entries[i].key);
      assert d[i] == Entry(NewKey(c[i].key, Snake), Convert(c[i].value, Snake));
    }
  }
  // ------------------------------------------------------------------ keys at any depth

  predicate KeyOccurs(j: Json, k: string) {
    match j
    case Scalar(_) => false
    case Array(items) => exists i :: 0 <= i < |items| && KeyOccurs(items[i], k)
    case Object(entries) => exists i :: 0 <= i < |entries| && (entries[i].key == k || KeyOccurs(entries[i].value, k))
  }

  lemma {:induction false} PutIn(out: seq<Entry>, k: string, v: Json)
    ensures forall e :: e in Put(out, k, v) ==> e == Entry(k, v) || e in out
  {
    if out != [] { PutIn(out[1..], k, v); }
  }

  lemma {:induction false} PutAllIn(es: seq<Entry>)
    ensures forall e :: e in PutAll(es) ==> e in es
  {
    if es != [] {
      PutAllIn(es[..|es| - 1]);
      PutIn(PutAll(es[..|es| - 1]), es[|es| - 1].key, es[|es| - 1].value);
    }
  }

  /** Every key of the result, at whatever depth, in objects and in arrays of them, is a converted one. */
  lemma {:induction false} EveryKeyConverted(j: Json, mode: CaseMode, k: string) returns (before: string)
    requires KeyOccurs(Convert(j, mode), k)
    ensures KeyOccurs(j, before) && k == NewKey(before, mode)
    decreases j
  {
    match j
    case Scalar(_) =>
    case Array(items) =>
      assert Convert(j, mode) == Array(ConvertedItems(items, mode));
      var i :| 0 <= i < |items| && KeyOccurs(ConvertedItems(items, mode)[i], k);
      before := EveryKeyConverted(items[i], mode, k);
    case Object(entries) =>
      assert Convert(j, mode) == Object(PutAll(ConvertedEntries(entries, mode)));
      var i := ConvertedEntry(entries, mode, k);
      if k == NewKey(entries[i].key, mode) {
        before := entries[i].key;
      } else {
        before := EveryKeyConverted(entries[i].value, mode, k);
      }
  }

  lemma ConvertedEntry(entries: seq<Entry>, mode: CaseMode, k: string) returns (i: nat)
    requires KeyOccurs(Object(PutAll(ConvertedEntries(entries, mode))), k)
    ensures i < |entries| && (k == NewKey(entries[i].key, mode) || KeyOccurs(Convert(entries[i].value, mode), k))
  {
    var es := ConvertedEntries(entries, mode);
    PutAllIn(es);
    var l :| 0 <= l < |PutAll(es)| && (PutAll(es)[l].key == k || KeyOccurs(PutAll(es)[l].value, k));
    assert PutAll(es)[l] in es;
    i :| 0 <= i < |es| && es[i] == PutAll(es)[l];
  }
}
