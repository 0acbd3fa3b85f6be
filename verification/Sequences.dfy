/** Concatenation of a sequence of sequences. */
module Sequences {

  function Concat<T>(ss: seq<seq<T>>): seq<T> {
    if ss == [] then [] else ss[0] + Concat(ss[1..])
  }

  lemma {:induction false} ConcatAppend<T>(ss: seq<seq<T>>, s: seq<T>)
    ensures Concat(ss + [s]) == Concat(ss) + s
  {
    if ss == [] {
      assert ss + [s] == [s] && Concat([s]) == s + Concat<T>([]);
    } else {
      ConcatAppend(ss[1..], s);
      assert (ss + [s])[1..] == ss[1..] + [s];
    }
  }

  lemma ConcatPrefix<T>(ss: seq<seq<T>>, i: nat)
    requires i < |ss|
    ensures Concat(ss[..i + 1]) == Concat(ss[..i]) + ss[i]
  {
    assert ss[..i + 1] == ss[..i] + [ss[i]];
    ConcatAppend(ss[..i], ss[i]);
  }

  lemma {:induction false} InConcat<T>(ss: seq<seq<T>>, x: T)
    ensures x in Concat(ss) <==> exists i :: 0 <= i < |ss| && x in ss[i]
  {
    if ss != [] {
      InConcat(ss[1..], x);
      if i :| 0 <= i < |ss[1..]| && x in ss[1..][i] { assert x in ss[i + 1]; }
      if i :| 0 <= i < |ss| && x in ss[i] { if i > 0 { assert x in ss[1..][i - 1]; } }
    }
  }

  lemma {:induction false} ConcatEmpty<T>(ss: seq<seq<T>>)
    requires forall i :: 0 <= i < |ss| ==> ss[i] == []
    ensures Concat(ss) == []
  {
    if ss != [] { ConcatEmpty(ss[1..]); }
  }

  lemma {:induction false} ConcatSingle<T>(ss: seq<seq<T>>, j: nat)
    requires j < |ss| && forall i :: 0 <= i < |ss| && i != j ==> ss[i] == []
    ensures Concat(ss) == ss[j]
  {
    if j == 0 {
      ConcatEmpty(ss[1..]);
    } else {
      ConcatSingle(ss[1..], j - 1);
    }
  }

  /** The elements of `s` that satisfy `p`, in order. */
  function Where<T>(s: seq<T>, p: T -> bool): seq<T> {
    if s == [] then [] else (if p(s[0]) then [s[0]] else []) + Where(s[1..], p)
  }

  lemma {:induction false} InWhere<T>(s: seq<T>, p: T -> bool)
    ensures forall x :: x in Where(s, p) <==> x in s && p(x)
  {
    if s != [] {
      InWhere(s[1..], p);
      assert s == [s[0]] + s[1..];
    }
  }

  lemma {:induction false} WhereConcat<T>(a: seq<T>, b: seq<T>, p: T -> bool)
    ensures Where(a + b, p) == Where(a, p) + Where(b, p)
  {
    if a == [] {
      assert a + b == b;
    } else {
      var head := if p(a[0]) then [a[0]] else [];
      calc {
        Where(a + b, p);
        { assert (a + b)[0] == a[0] && (a + b)[1..] == a[1..] + b; }
        head + Where(a[1..] + b, p);
        { WhereConcat(a[1..], b, p); }
        head + (Where(a[1..], p) + Where(b, p));
        (head + Where(a[1..], p)) + Where(b, p);
        Where(a, p) + Where(b, p);
      }
    }
  }

  function WhereEach<T>(ss: seq<seq<T>>, p: T -> bool): seq<seq<T>> {
    seq(|ss|, i requires 0 <= i < |ss| => Where(ss[i], p))
  }

  lemma {:induction false} WhereConcats<T>(ss: seq<seq<T>>, p: T -> bool)
    ensures Where(Concat(ss), p) == Concat(WhereEach(ss, p))
  {
    if ss != [] {
      WhereConcats(ss[1..], p);
      WhereConcat(ss[0], Concat(ss[1..]), p);
      assert WhereEach(ss, p)[1..] == WhereEach(ss[1..], p);
    }
  }

  lemma {:induction false} WhereNone<T>(s: seq<T>, p: T -> bool)
    requires forall x :: x in s ==> !p(x)
    ensures Where(s, p) == []
  {
    if s != [] {
      assert s[0] in s;
      WhereNone(s[1..], p);
    }
  }

  /** Only the part at `j` contributes. */
  lemma WhereConcatSingle<T>(ss: seq<seq<T>>, p: T -> bool, j: nat)
    requires j < |ss| && forall i, x :: 0 <= i < |ss| && i != j && x in ss[i] ==> !p(x)
    ensures Where(Concat(ss), p) == Where(ss[j], p)
  {
    WhereConcats(ss, p);
    forall i | 0 <= i < |ss| && i != j ensures WhereEach(ss, p)[i] == [] { WhereNone(ss[i], p); }
    ConcatSingle(WhereEach(ss, p), j);
  }
}
