/** Which callers of the token bucket keep the rate: those whose takes neither overlap nor exceed the capacity. */
module RateTheorems {
  import opened Blocks
  import opened RateLimit

  /** Fewer than `k` takes wait when one begins, and none asks for more than `m` tokens. */
  predicate AtMost(r: Rate, s: Bucket, es: seq<Event>, k: nat, m: nat)
    requires Positive(r) && ValidRun(r, s, es)
    decreases |es|
  {
    es == [] || ((es[0].Begin? ==> |s.waiting| < k && es[0].n <= m) && AtMost(r, Next(r, s, es[0]), es[1..], k, m))
  }

  /** The tokens granted in [lo, hi] are at most one capacity more than the rate earns in it. */
  predicate Bounded(r: Rate, s: Bucket, es: seq<Event>, lo: int, hi: int)
    requires Positive(r) && ValidRun(r, s, es)
  {
    1000 * GrantedIn(Run(r, s, es).grants, lo, hi) <= 1000 * r.capacity + (hi - lo) * r.rps
  }

  /** Every run of callers that keep to `k` and `m` is bounded in every window. */
  ghost predicate KeepsRate(r: Rate, start: int, k: nat, m: nat)
    requires Positive(r)
  {
    forall es, lo, hi | lo <= hi && ValidRun(r, Full(r, start), es) && AtMost(r, Full(r, start), es, k, m) ::
      Bounded(r, Full(r, start), es, lo, hi)
  }

  lemma {:induction false} AtMostOne(r: Rate, s: Bucket, es: seq<Event>, m: nat)
    requires Positive(r) && ValidRun(r, s, es) && AtMost(r, s, es, 1, m) && m <= r.capacity
    ensures OneByOne(r, s, es)
    decreases |es|
  {
    if es != [] { AtMostOne(r, Next(r, s, es[0]), es[1..], m); }
  }

  /** Nobody may take, or nobody takes anything. */
  predicate AllZero(s: Bucket) {
    s.tokens >= 0 && (forall w <- s.waiting :: w.n == 0) && (forall i :: 0 <= i < |s.grants| ==> s.grants[i].n == 0)
  }

  lemma {:induction false} NothingTaken(r: Rate, s: Bucket, es: seq<Event>, k: nat, m: nat)
    requires Positive(r) && ValidRun(r, s, es) && AtMost(r, s, es, k, m) && (k == 0 || m == 0) && AllZero(s)
    ensures AllZero(Run(r, s, es))
    decreases |es|
  {
    if es != [] {
      assert AllZero(Next(r, s, es[0]));
      NothingTaken(r, Next(r, s, es[0]), es[1..], k, m);
    }
  }

  lemma {:induction false} ZeroGranted(grants: seq<Grant>, lo: int, hi: int)
    requires forall i :: 0 <= i < |grants| ==> grants[i].n == 0
    ensures GrantedIn(grants, lo, hi) == 0
  {
    if grants != [] { ZeroGranted(grants[..|grants| - 1], lo, hi); }
  }

  lemma KeepersKeep(r: Rate, start: int, k: nat, m: nat)
    requires Positive(r) && (k == 0 || m == 0 || (k == 1 && m <= r.capacity))
    ensures KeepsRate(r, start, k, m)
  {
    var s := Full(r, start);
    forall es, lo, hi | lo <= hi && ValidRun(r, s, es) && AtMost(r, s, es, k, m) ensures Bounded(r, s, es, lo, hi) {
      if k == 0 || m == 0 {
        NothingTaken(r, s, es, k, m);
        ZeroGranted(Run(r, s, es).grants, lo, hi);
        assert (hi - lo) * r.rps >= 0;
      } else {
        AtMostOne(r, s, es, m);
        Envelope(r, start, es, lo, hi);
      }
    }
  }

  // ------------------------------------------------------------------ two takes at a time

  /** What the bucket holds when a take that found it empty fires. */
  function Back(r: Rate): int
    requires Positive(r)
  {
    Min(1000 * r.capacity, Earned(r.rps, WaitMs(r, 1000)))
  }

  /** An empty bucket, and everything granted up to now. */
  predicate Drained(s: Bucket) { s.tokens == 0 && s.waiting == [] && GrantsUpTo(s) }

  predicate GrantsUpTo(s: Bucket) { forall i :: 0 <= i < |s.grants| ==> s.grants[i].at <= s.last }

  /** While the bucket has the tokens, takes of one token are granted at once, whoever waits. */
  lemma {:induction false} TakesOfOne(r: Rate, s: Bucket, count: nat)
    requires Positive(r) && s.tokens >= 1000 * count && |s.waiting| <= 1 && GrantsUpTo(s)
    ensures ValidRun(r, s, BeginMany(count, 1, s.last)) && AtMost(r, s, BeginMany(count, 1, s.last), 2, 1)
    ensures var t := Run(r, s, BeginMany(count, 1, s.last));
            && t == s.(tokens := s.tokens - 1000 * count, grants := t.grants) && GrantsUpTo(t)
            && forall lo :: lo <= s.last ==> GrantedIn(t.grants, lo, s.last) == GrantedIn(s.grants, lo, s.last) + count
    decreases count
  {
    if count > 0 {
      var t := Next(r, s, Begin(1, s.last));
      assert t.grants[..|s.grants|] == s.grants;
      TakesOfOne(r, t, count - 1);
      assert BeginMany(count, 1, s.last)[1..] == BeginMany(count - 1, 1, s.last);
    }
  }

  /** Tokens that others can take when it fires, after a first one. */
  function OthersTake(r: Rate): nat
    requires Positive(r)
  {
    Max(0, Back(r) / 1000 - 1)
  }

  /** One take waits; when its timer fires all whole tokens have just been taken by others, and it is granted. */
  function Round(r: Rate, now: int): seq<Event>
    requires Positive(r)
  {
    var fired := now + WaitMs(r, 1000);
    [Begin(1, now)] + ([Begin(1, fired)] + (BeginMany(OthersTake(r), 1, fired) + [Wake(0, fired)]))
  }

  /** At least one token is back when the timer fires. */
  lemma BackIsEnough(r: Rate)
    requires Positive(r)
    ensures Back(r) >= 1000
  {
    WaitIsTight(r, 1000);
    EarnedIs(r.rps, WaitMs(r, 1000));
  }

  lemma {:induction false} AtMostConcat(r: Rate, s: Bucket, a: seq<Event>, b: seq<Event>, k: nat, m: nat)
    requires Positive(r) && ValidRun(r, s, a) && AtMost(r, s, a, k, m)
    requires ValidRun(r, Run(r, s, a), b) && AtMost(r, Run(r, s, a), b, k, m)
    ensures ValidRun(r, s, a + b) && AtMost(r, s, a + b, k, m) && Run(r, s, a + b) == Run(r, Run(r, s, a), b)
    decreases |a|
  {
    if a == [] {
      assert a + b == b;
    } else {
      assert (a + b)[1..] == a[1..] + b;
      AtMostConcat(r, Next(r, s, a[0]), a[1..], b, k, m);
    }
  }

  lemma OneEventMore(r: Rate, s: Bucket, e: Event, es: seq<Event>, k: nat, m: nat)
    requires Positive(r) && Enabled(s, e) && (e.Begin? ==> |s.waiting| < k && e.n <= m)
    requires ValidRun(r, Next(r, s, e), es) && AtMost(r, Next(r, s, e), es, k, m)
    ensures ValidRun(r, s, [e] + es) && AtMost(r, s, [e] + es, k, m) && Run(r, s, [e] + es) == Run(r, Next(r, s, e), es)
  {
    assert ([e] + es)[1..] == es;
  }

  /** The bucket at the moment the timer fires, after the first of the takes that come before it. */
  function Fired(r: Rate, s: Bucket): Bucket
    requires Positive(r)
  {
    var fired := s.last + WaitMs(r, 1000);
    Bucket(Back(r) - 1000, fired, [Wait(1, fired)], s.grants + [Grant(1, fired)])
  }

  lemma FiredIs(r: Rate, s: Bucket)
    requires Positive(r) && Drained(s)
    ensures var t := Next(r, s, Begin(1, s.last));
            && t == s.(waiting := [Wait(1, s.last + WaitMs(r, 1000))])
            && Next(r, t, Begin(1, s.last + WaitMs(r, 1000))) == Fired(r, s)
  {
    BackIsEnough(r);
  }

  /** The waiting take gets its token from an empty bucket. */
  lemma WakeDrains(r: Rate, s: Bucket)
    requires Positive(r) && 0 <= s.tokens < 1000 && GrantsUpTo(s) && s.waiting == [Wait(1, s.last)]
    ensures Enabled(s, Wake(0, s.last))
    ensures var t := Next(r, s, Wake(0, s.last));
            && Drained(t) && t.last == s.last
            && forall lo :: lo <= s.last ==> GrantedIn(t.grants, lo, s.last) == GrantedIn(s.grants, lo, s.last) + 1
  {
    var t := Next(r, s, Wake(0, s.last));
    assert t.grants[..|s.grants|] == s.grants;
    assert t.waiting == [];
  }

  lemma FiredRuns(r: Rate, s: Bucket)
    requires Positive(r) && Drained(s)
    ensures var t := Fired(r, s);
            var es := BeginMany(OthersTake(r), 1, t.last) + [Wake(0, t.last)];
            && Back(r) >= 1000 && ValidRun(r, t, es) && AtMost(r, t, es, 2, 1)
            && var u := Run(r, t, es);
               && Drained(u) && u.last == t.last
               && forall lo :: lo <= t.last ==> GrantedIn(u.grants, lo, t.last) == GrantedIn(t.grants, lo, t.last) + Back(r) / 1000
  {
    BackIsEnough(r);
    var t := Fired(r, s);
    TakesOfOne(r, t, OthersTake(r));
    var t1 := Run(r, t, BeginMany(OthersTake(r), 1, t.last));
    WakeDrains(r, t1);
    AtMostConcat(r, t, BeginMany(OthersTake(r), 1, t.last), [Wake(0, t.last)], 2, 1);
  }

  /** A run from `s` to `t` of takes of one token, at most two of them at a time. */
  ghost predicate Leads(r: Rate, s: Bucket, es: seq<Event>, t: Bucket)
    requires Positive(r)
  {
    ValidRun(r, s, es) && AtMost(r, s, es, 2, 1) && Run(r, s, es) == t
  }

  lemma LeadsOn(r: Rate, s: Bucket, a: seq<Event>, t: Bucket, b: seq<Event>, u: Bucket)
    requires Positive(r) && Leads(r, s, a, t) && Leads(r, t, b, u)
    ensures Leads(r, s, a + b, u)
  {
    AtMostConcat(r, s, a, b, 2, 1);
  }

  /** A round takes more than what comes back in it, and leaves the bucket empty. */
  lemma RoundTakes(r: Rate, s: Bucket, lo: int) returns (u: Bucket)
    requires Positive(r) && Drained(s) && lo <= s.last + WaitMs(r, 1000)
    ensures Leads(r, s, Round(r, s.last), u) && Drained(u) && u.last == s.last + WaitMs(r, 1000)
    ensures 1000 * GrantedIn(u.grants, lo, u.last) > 1000 * GrantedIn(s.grants, lo, s.last) + Back(r)
  {
    var t := Fired(r, s);
    FiredIs(r, s);
    FiredRuns(r, s);
    var es := BeginMany(OthersTake(r), 1, t.last) + [Wake(0, t.last)];
    var t0 := Next(r, s, Begin(1, s.last));
    OneEventMore(r, t0, Begin(1, t.last), es, 2, 1);
    OneEventMore(r, s, Begin(1, s.last), [Begin(1, t.last)] + es, 2, 1);
    u := Run(r, s, Round(r, s.last));
    SameWindow(s.grants, lo, s.last, t.last);
    assert t.grants[..|s.grants|] == s.grants;
  }

  /** The run from `s` to `t` takes more than is earned in it. */
  ghost predicate Gains(r: Rate, s: Bucket, es: seq<Event>, t: Bucket, lo: int)
    requires Positive(r)
  {
    && Leads(r, s, es, t) && Drained(t) && t.last > s.last
    && 1000 * GrantedIn(t.grants, lo, t.last) > 1000 * GrantedIn(s.grants, lo, s.last) + Earned(r.rps, t.last - s.last)
  }

  ghost predicate CanGain(r: Rate, s: Bucket, lo: int)
    requires Positive(r)
  {
    exists es, t :: Gains(r, s, es, t, lo)
  }

  /** From every empty bucket on, a run can take more than is earned in it. */
  ghost predicate AlwaysGains(r: Rate)
    requires Positive(r)
  {
    forall s, lo :: Drained(s) && lo <= s.last + 1 ==> CanGain(r, s, lo)
  }

  /** Unless it overflows the bucket, a round is such a run. */
  lemma RoundsGain(r: Rate)
    requires Positive(r) && Back(r) == Earned(r.rps, WaitMs(r, 1000))
    ensures AlwaysGains(r)
  {
    forall s, lo | Drained(s) && lo <= s.last + 1 ensures CanGain(r, s, lo) {
      var t := RoundTakes(r, s, lo);
      assert Gains(r, s, Round(r, s.last), t, lo);
    }
  }

  lemma EarnedBetween(rps: nat, a: int, b: int, c: int)
    requires a <= b <= c
    ensures Earned(rps, c - a) == Earned(rps, b - a) + Earned(rps, c - b)
  {
    EarnedSum(rps, b - a, c - b);
  }

  /** Such runs add up. */
  lemma {:induction false} GainsAddUp(r: Rate, s: Bucket, n: nat, lo: int) returns (es: seq<Event>, u: Bucket)
    requires Positive(r) && AlwaysGains(r) && Drained(s) && lo <= s.last + 1
    ensures Leads(r, s, es, u) && u.last >= s.last + n
    ensures 1000 * GrantedIn(u.grants, lo, u.last) >= 1000 * GrantedIn(s.grants, lo, s.last) + Earned(r.rps, u.last - s.last) + n
    decreases n
  {
    if n == 0 {
      es, u := [], s;
    } else {
      assert CanGain(r, s, lo);
      var first, t :| Gains(r, s, first, t, lo);
      var rest;
      rest, u := GainsAddUp(r, t, n - 1, lo);
      es := first + rest;
      LeadsOn(r, s, first, t, rest, u);
      EarnedBetween(r.rps, s.last, t.last, u.last);
    }
  }

  lemma {:induction false} AtMostMore(r: Rate, s: Bucket, es: seq<Event>, k: nat, m: nat, k1: nat, m1: nat)
    requires Positive(r) && ValidRun(r, s, es) && AtMost(r, s, es, k, m) && k <= k1 && m <= m1
    ensures AtMost(r, s, es, k1, m1)
    decreases |es|
  {
    if es != [] { AtMostMore(r, Next(r, s, es[0]), es[1..], k, m, k1, m1); }
  }

  /** The full bucket, emptied by takes of one token. */
  lemma Emptying(r: Rate, start: int) returns (s: Bucket)
    requires Positive(r)
    ensures Leads(r, Full(r, start), BeginMany(r.capacity, 1, start), s) && Drained(s) && s.last == start
  {
    TakesOfOne(r, Full(r, start), r.capacity);
    s := Run(r, Full(r, start), BeginMany(r.capacity, 1, start));
  }

  lemma OverBound(r: Rate, s: Bucket, es: seq<Event>, t: Bucket, lo: int, hi: int)
    requires Positive(r) && ValidRun(r, s, es) && Run(r, s, es) == t && lo <= hi
    requires 1000 * GrantedIn(t.grants, lo, hi) >= 1000 * r.capacity + Earned(r.rps, hi + 1 - lo)
          || (lo == hi && GrantedIn(t.grants, lo, hi) > r.capacity)
    ensures !Bounded(r, s, es, lo, hi)
  {
    EarnedIs(r.rps, hi - lo);
    assert Earned(r.rps, hi + 1 - lo) == Earned(r.rps, hi - lo) + r.rps;
  }

  /** If the wait fills the whole bucket, one round breaks the bound at one instant. */
  lemma OneRoundBreaks(r: Rate, start: int) returns (es: seq<Event>, lo: int, hi: int)
    requires Positive(r) && Back(r) == 1000 * r.capacity
    ensures lo <= hi && ValidRun(r, Full(r, start), es) && AtMost(r, Full(r, start), es, 2, 1)
    ensures !Bounded(r, Full(r, start), es, lo, hi)
  {
    var s := Emptying(r, start);
    lo := start + WaitMs(r, 1000);
    hi := lo;
    var u := RoundTakes(r, s, lo);
    es := BeginMany(r.capacity, 1, start) + Round(r, start);
    LeadsOn(r, Full(r, start), BeginMany(r.capacity, 1, start), s, Round(r, start), u);
    OverBound(r, Full(r, start), es, u, lo, hi);
  }

  /** Otherwise as many rounds as the capacity has thousandths do. */
  lemma ManyRoundsBreak(r: Rate, start: int) returns (es: seq<Event>, lo: int, hi: int)
    requires Positive(r) && Back(r) == Earned(r.rps, WaitMs(r, 1000))
    ensures lo <= hi && ValidRun(r, Full(r, start), es) && AtMost(r, Full(r, start), es, 2, 1)
    ensures !Bounded(r, Full(r, start), es, lo, hi)
  {
    var n := 1000 * r.capacity;
    var s := Emptying(r, start);
    lo := start + 1;
    RoundsGain(r);
    var rest, u := GainsAddUp(r, s, n, lo);
    hi := u.last;
    es := BeginMany(r.capacity, 1, start) + rest;
    LeadsOn(r, Full(r, start), BeginMany(r.capacity, 1, start), s, rest, u);
    OverBound(r, Full(r, start), es, u, lo, hi);
  }

  lemma OverlapBreaks(r: Rate, start: int, k: nat, m: nat)
    requires Positive(r) && k >= 2 && m >= 1
    ensures !KeepsRate(r, start, k, m)
  {
    var es, lo, hi;
    if Back(r) == 1000 * r.capacity { es, lo, hi := OneRoundBreaks(r, start); } else { es, lo, hi := ManyRoundsBreak(r, start); }
    AtMostMore(r, Full(r, start), es, 2, 1, k, m);
    assert !Bounded(r, Full(r, start), es, lo, hi);
  }

  // ------------------------------------------------------------------ oversized takes

  /** One take of more than the capacity waits, and its timer fires. */
  lemma OversizedRun(r: Rate, start: int, n: nat) returns (now: int, u: Bucket)
    requires Positive(r) && n == r.capacity + 1
    ensures var s, es := Full(r, start), [Begin(n, start)] + ([Wake(0, now)] + []);
            && u.grants == [Grant(n, now)] && ValidRun(r, s, es) && AtMost(r, s, es, 1, n) && Run(r, s, es) == u
  {
    var s := Full(r, start);
    var t := Next(r, s, Begin(n, start));
    assert t.waiting == [Wait(n, start + WaitMs(r, 1000))];
    now := t.waiting[0].until;
    u := Next(r, t, Wake(0, now));
    OneEventMore(r, t, Wake(0, now), [], 1, n);
    OneEventMore(r, s, Begin(n, start), [Wake(0, now)] + [], 1, n);
  }

  /** It is granted in a window of no length. */
  lemma OversizedBreaks(r: Rate, start: int, k: nat, m: nat)
    requires Positive(r) && k >= 1 && m > r.capacity
    ensures !KeepsRate(r, start, k, m)
  {
    var n := r.capacity + 1;
    var now, u := OversizedRun(r, start, n);
    var es := [Begin(n, start)] + ([Wake(0, now)] + []);
    AtMostMore(r, Full(r, start), es, 1, n, k, m);
    assert u.grants[..0] == [];
    assert GrantedIn(u.grants, now, now) == n;
    OverBound(r, Full(r, start), es, u, now, now);
    assert !Bounded(r, Full(r, start), es, now, now);
  }

  // ------------------------------------------------------------------ the exact condition

  /**
   Callers that keep to fewer than `k` waiting takes and to `m` tokens a take keep the rate in every window of
   every run if and only if a take begins only when none waits and asks for no more than the capacity (or
   nothing is taken at all).
   */
  lemma KeepsRateIff(r: Rate, start: int, k: nat, m: nat)
    requires Positive(r)
    ensures KeepsRate(r, start, k, m) <==> k == 0 || m == 0 || (k == 1 && m <= r.capacity)
  {
    if k == 0 || m == 0 || (k == 1 && m <= r.capacity) {
      KeepersKeep(r, start, k, m);
    } else if k >= 2 {
      OverlapBreaks(r, start, k, m);
    } else {
      OversizedBreaks(r, start, k, m);
    }
  }
}
