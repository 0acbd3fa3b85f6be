/**
 The token bucket of `createTokenBucket`, in thousandths of a token and whole milliseconds, so that a rate
 of `rps` tokens a second is `rps` thousandths a millisecond and nothing is rounded but the waiting time.
 */
module RateLimit {
  import opened Blocks

  /** `capacity` in tokens; the rate is a positive integer, as the client passes it. */
  datatype Rate = Rate(rps: nat, capacity: nat)

  predicate Positive(r: Rate) { r.rps >= 1 && r.capacity >= 1 }

  datatype Wait = Wait(n: nat, until: int)
  datatype Grant = Grant(n: nat, at: int)

  datatype Bucket = Bucket(
    tokens: int,            // in thousandths
    last: int,              // time of the last refill
    waiting: seq<Wait>,     // takes suspended in their timer
    grants: seq<Grant>      // history
  )

  datatype Event = Begin(n: nat, now: int) | Wake(k: nat, now: int)

  /** `Math.max(1, Math.floor(rps * burstMultiplier))`. */
  function Capacity(rps: nat, burstMultiplier: real): (c: nat)
    ensures c >= 1 && (c > 1 ==> c as real <= rps as real * burstMultiplier)
    ensures rps as real * burstMultiplier < (c + 1) as real
  {
    Max(1, (rps as real * burstMultiplier).Floor)
  }

  function Full(r: Rate, now: int): Bucket { Bucket(1000 * r.capacity, now, [], []) }

  /** What `ms` milliseconds earn: `ms * rps`, written so that the proofs below stay linear. */
  function Earned(rps: nat, ms: nat): nat { if ms == 0 then 0 else Earned(rps, ms - 1) + rps }

  lemma {:induction false} EarnedIs(rps: nat, ms: nat)
    ensures Earned(rps, ms) == ms * rps
  {
    if ms > 0 { EarnedIs(rps, ms - 1); }
  }

  function Refill(r: Rate, s: Bucket, now: int): Bucket {
    if now - s.last > 0 then s.(tokens := Min(1000 * r.capacity, s.tokens + Earned(r.rps, now - s.last)), last := now) else s
  }

  /** `Math.ceil(deficit / refillPerMs)`, at least 1. */
  function WaitMs(r: Rate, deficit: int): int
    requires r.rps >= 1
  {
    Max(1, (deficit + r.rps - 1) / r.rps)
  }

  /** `take` up to its end, or up to its timer. */
  function BeginTake(r: Rate, s: Bucket, n: nat, now: int): Bucket
    requires Positive(r)
  {
    var s1 := Refill(r, s, now);
    if s1.tokens >= 1000 * n then s1.(tokens := s1.tokens - 1000 * n, grants := s1.grants + [Grant(n, now)])
    else s1.(waiting := s1.waiting + [Wait(n, now + WaitMs(r, 1000 * n - s1.tokens))])
  }

  /** `take` behind its timer. */
  function FinishTake(r: Rate, s: Bucket, k: nat, now: int): Bucket
    requires k < |s.waiting|
  {
    var n := s.waiting[k].n;
    var s1 := Refill(r, s, now);
    s1.(tokens := Max(0, s1.tokens - 1000 * n), waiting := s.waiting[..k] + s.waiting[k + 1..],
        grants := s1.grants + [Grant(n, now)])
  }

  /** The clock does not run backwards, and no timer fires before its time. */
  predicate Enabled(s: Bucket, e: Event) {
    e.now >= s.last && (e.Wake? ==> e.k < |s.waiting| && e.now >= s.waiting[e.k].until)
  }

  function Next(r: Rate, s: Bucket, e: Event): Bucket
    requires Positive(r) && Enabled(s, e)
  {
    match e
    case Begin(n, now) => BeginTake(r, s, n, now)
    case Wake(k, now) => FinishTake(r, s, k, now)
  }

  predicate ValidRun(r: Rate, s: Bucket, es: seq<Event>)
    requires Positive(r)
    decreases |es|
  {
    es == [] || (Enabled(s, es[0]) && ValidRun(r, Next(r, s, es[0]), es[1..]))
  }

  function Run(r: Rate, s: Bucket, es: seq<Event>): Bucket
    requires Positive(r) && ValidRun(r, s, es)
    decreases |es|
  {
    if es == [] then s else Run(r, Next(r, s, es[0]), es[1..])
  }

  /** Every take begins only after the one before has been granted, and asks for no more than the capacity. */
  predicate OneByOne(r: Rate, s: Bucket, es: seq<Event>)
    requires Positive(r) && ValidRun(r, s, es)
    decreases |es|
  {
    es == [] || ((es[0].Begin? ==> s.waiting == [] && es[0].n <= r.capacity) && OneByOne(r, Next(r, s, es[0]), es[1..]))
  }

  /** Tokens granted in the window [lo, hi]. */
  function GrantedIn(grants: seq<Grant>, lo: int, hi: int): nat {
    if grants == [] then 0
    else
      var g := grants[|grants| - 1];
      GrantedIn(grants[..|grants| - 1], lo, hi) + if lo <= g.at <= hi then g.n else 0
  }

  // ------------------------------------------------------------------ the waiting time

  lemma PositiveFactor(q: int, rps: nat)
    ensures q * rps > 0 ==> q >= 1
  {
  }

  /** The wait covers the deficit, and exceeds the time it takes to earn it by less than a millisecond. */
  lemma WaitIsTight(r: Rate, deficit: int)
    requires r.rps >= 1 && deficit > 0
    ensures (WaitMs(r, deficit) - 1) * r.rps < deficit <= WaitMs(r, deficit) * r.rps
  {
    var q := (deficit + r.rps - 1) / r.rps;
    assert deficit + r.rps - 1 == q * r.rps + (deficit + r.rps - 1) % r.rps;
    assert (q - 1) * r.rps == q * r.rps - r.rps;
    assert q * r.rps >= deficit;
    PositiveFactor(q, r.rps);
  }

  lemma {:induction false} EarnedSum(rps: nat, a: nat, b: nat)
    ensures Earned(rps, a + b) == Earned(rps, a) + Earned(rps, b)
  {
    if b > 0 { EarnedSum(rps, a, b - 1); }
  }

  lemma EarnedGrows(rps: nat, a: nat, b: nat)
    requires a <= b
    ensures Earned(rps, a) <= Earned(rps, b)
  {
    EarnedSum(rps, a, b - a);
  }

  /** Whenever its timer fires, a take that asks for no more than the capacity finds its tokens. */
  predicate Covered(r: Rate, s: Bucket, w: Wait) {
    1000 * w.n <= s.tokens + Earned(r.rps, Max(0, w.until - s.last))
  }

  lemma BeginCovers(r: Rate, s: Bucket, n: nat, now: int)
    requires Positive(r) && now >= s.last && Refill(r, s, now).tokens < 1000 * n
    ensures var t := BeginTake(r, s, n, now); t.waiting != [] && Covered(r, t, t.waiting[|t.waiting| - 1])
  {
    var deficit := 1000 * n - Refill(r, s, now).tokens;
    WaitIsTight(r, deficit);
    EarnedIs(r.rps, WaitMs(r, deficit));
  }

  /**
   The subtraction behind the timer is clipped at zero, handing out tokens the bucket does not have, if
   and only if more than the capacity was asked for.
   */
  lemma ClipsIff(r: Rate, s: Bucket, n: nat, begin: int, now: int)
    requires Positive(r) && begin >= s.last && s.tokens <= 1000 * r.capacity && Refill(r, s, begin).tokens < 1000 * n
    requires var t := BeginTake(r, s, n, begin); now >= t.waiting[|t.waiting| - 1].until
    ensures Refill(r, BeginTake(r, s, n, begin), now).tokens - 1000 * n < 0 <==> n > r.capacity
  {
    var t := BeginTake(r, s, n, begin);
    var w := t.waiting[|t.waiting| - 1];
    BeginCovers(r, s, n, begin);
    EarnedGrows(r.rps, w.until - t.last, now - t.last);
  }

  // ------------------------------------------------------------------ the envelope

  ghost predicate Inv(r: Rate, s: Bucket) {
    && 0 <= s.tokens <= 1000 * r.capacity
    && |s.waiting| <= 1
    && (forall k :: 0 <= k < |s.waiting| ==> s.waiting[k].n <= r.capacity && Covered(r, s, s.waiting[k]))
    && (forall i :: 0 <= i < |s.grants| ==> s.grants[i].at <= s.last)
  }

  /** From `lo` on, what was granted and what is left was earned, but for one capacity. */
  predicate Earns(r: Rate, s: Bucket, lo: int) {
    lo <= s.last ==> 1000 * GrantedIn(s.grants, lo, s.last) + s.tokens <= 1000 * r.capacity + Earned(r.rps, s.last - lo)
  }

  predicate Within(r: Rate, s: Bucket, lo: int, hi: int)
    requires lo <= hi
  {
    1000 * GrantedIn(s.grants, lo, hi) <= 1000 * r.capacity + Earned(r.rps, hi - lo)
  }

  lemma {:induction false} SameWindow(grants: seq<Grant>, lo: int, last: int, hi: int)
    requires last <= hi && forall i :: 0 <= i < |grants| ==> grants[i].at <= last
    ensures GrantedIn(grants, lo, hi) == GrantedIn(grants, lo, last)
    ensures lo > last ==> GrantedIn(grants, lo, hi) == 0
  {
    if grants != [] { SameWindow(grants[..|grants| - 1], lo, last, hi); }
  }

  lemma RefillKeeps(r: Rate, s: Bucket, lo: int, now: int)
    requires Positive(r) && Inv(r, s) && Earns(r, s, lo) && now >= s.last
    ensures Refill(r, s, now).last == now && 0 <= Refill(r, s, now).tokens <= 1000 * r.capacity
    ensures Earns(r, Refill(r, s, now), lo)
  {
    SameWindow(s.grants, lo, s.last, now);
    if lo <= s.last { EarnedSum(r.rps, s.last - lo, now - s.last); }
  }

  lemma OneMoreGrant(s: Bucket, n: nat, lo: int, hi: int)
    requires lo <= hi && forall i :: 0 <= i < |s.grants| ==> s.grants[i].at <= s.last
    ensures var after := GrantedIn(s.grants + [Grant(n, s.last)], lo, hi);
            after == if !(lo <= s.last <= hi) then GrantedIn(s.grants, lo, hi) else GrantedIn(s.grants, lo, s.last) + n
  {
    assert (s.grants + [Grant(n, s.last)])[..|s.grants|] == s.grants;
    if s.last <= hi { SameWindow(s.grants, lo, s.last, hi); }
  }

  lemma GrantEarns(r: Rate, s: Bucket, t: Bucket, n: nat, lo: int)
    requires Earns(r, s, lo) && forall i :: 0 <= i < |s.grants| ==> s.grants[i].at <= s.last
    requires t.tokens == s.tokens - 1000 * n && t.last == s.last && t.grants == s.grants + [Grant(n, s.last)]
    ensures Earns(r, t, lo)
  {
    if lo <= s.last {
      OneMoreGrant(s, n, lo, s.last);
      assert GrantedIn(t.grants, lo, t.last) == GrantedIn(s.grants, lo, s.last) + n;
    }
  }

  lemma GrantWithin(r: Rate, s: Bucket, t: Bucket, n: nat, lo: int, hi: int)
    requires lo <= hi && Earns(r, s, lo) && Within(r, s, lo, hi) && s.tokens >= 1000 * n
    requires forall i :: 0 <= i < |s.grants| ==> s.grants[i].at <= s.last
    requires t.grants == s.grants + [Grant(n, s.last)]
    ensures Within(r, t, lo, hi)
  {
    OneMoreGrant(s, n, lo, hi);
    if lo <= s.last <= hi { EarnedGrows(r.rps, s.last - lo, hi - lo); }
  }

  /** Granting `n` tokens that the bucket has. */
  lemma GrantKeeps(r: Rate, s: Bucket, t: Bucket, n: nat, lo: int, hi: int)
    requires lo <= hi && Earns(r, s, lo) && Within(r, s, lo, hi) && s.tokens >= 1000 * n
    requires forall i :: 0 <= i < |s.grants| ==> s.grants[i].at <= s.last
    requires t.tokens == s.tokens - 1000 * n && t.last == s.last && t.grants == s.grants + [Grant(n, s.last)]
    ensures Earns(r, t, lo) && Within(r, t, lo, hi)
  {
    GrantEarns(r, s, t, n, lo);
    GrantWithin(r, s, t, n, lo, hi);
  }

  lemma BeginKeeps(r: Rate, s: Bucket, n: nat, now: int, lo: int, hi: int)
    requires Positive(r) && Inv(r, s) && lo <= hi && Earns(r, s, lo) && Within(r, s, lo, hi)
    requires now >= s.last && s.waiting == [] && n <= r.capacity
    ensures var t := BeginTake(r, s, n, now); Inv(r, t) && Earns(r, t, lo) && Within(r, t, lo, hi)
  {
    var s1 := Refill(r, s, now);
    RefillKeeps(r, s, lo, now);
    if s1.tokens >= 1000 * n {
      GrantedKeeps(r, s1, n, lo, hi);
      assert BeginTake(r, s, n, now) == Granted(s1, n);
    } else {
      BeginCovers(r, s, n, now);
    }
  }

  lemma WakeFindsTokens(r: Rate, s: Bucket, now: int)
    requires Positive(r) && Inv(r, s) && Enabled(s, Wake(0, now))
    ensures Refill(r, s, now).tokens >= 1000 * s.waiting[0].n
  {
    assert Covered(r, s, s.waiting[0]);
    EarnedGrows(r.rps, Max(0, s.waiting[0].until - s.last), now - s.last);
  }

  /** The bucket after a take for which it had the tokens. */
  function Granted(s: Bucket, n: nat): Bucket {
    s.(tokens := s.tokens - 1000 * n, waiting := [], grants := s.grants + [Grant(n, s.last)])
  }

  lemma GrantedKeeps(r: Rate, s: Bucket, n: nat, lo: int, hi: int)
    requires lo <= hi && Earns(r, s, lo) && Within(r, s, lo, hi) && 1000 * n <= s.tokens <= 1000 * r.capacity
    requires forall i :: 0 <= i < |s.grants| ==> s.grants[i].at <= s.last
    ensures Inv(r, Granted(s, n)) && Earns(r, Granted(s, n), lo) && Within(r, Granted(s, n), lo, hi)
  {
    GrantKeeps(r, s, Granted(s, n), n, lo, hi);
  }

  lemma FinishIs(r: Rate, s: Bucket, now: int)
    requires Positive(r) && Inv(r, s) && Enabled(s, Wake(0, now))
    ensures FinishTake(r, s, 0, now) == Granted(Refill(r, s, now), s.waiting[0].n)
    ensures Refill(r, s, now).tokens >= 1000 * s.waiting[0].n
  {
    WakeFindsTokens(r, s, now);
  }

  lemma FinishKeeps(r: Rate, s: Bucket, now: int, lo: int, hi: int)
    requires Positive(r) && Inv(r, s) && lo <= hi && Earns(r, s, lo) && Within(r, s, lo, hi)
    requires Enabled(s, Wake(0, now))
    ensures var t := FinishTake(r, s, 0, now); Inv(r, t) && Earns(r, t, lo) && Within(r, t, lo, hi)
  {
    RefillKeeps(r, s, lo, now);
    FinishIs(r, s, now);
    GrantedKeeps(r, Refill(r, s, now), s.waiting[0].n, lo, hi);
  }

  lemma {:induction false} EnvelopeFrom(r: Rate, s: Bucket, es: seq<Event>, lo: int, hi: int)
    requires Positive(r) && Inv(r, s) && lo <= hi && Earns(r, s, lo) && Within(r, s, lo, hi)
    requires ValidRun(r, s, es) && OneByOne(r, s, es)
    ensures Within(r, Run(r, s, es), lo, hi)
    decreases |es|
  {
    if es != [] {
      match es[0] {
        case Begin(n, now) => BeginKeeps(r, s, n, now, lo, hi);
        case Wake(k, now) => FinishKeeps(r, s, now, lo, hi);
      }
      EnvelopeFrom(r, Next(r, s, es[0]), es[1..], lo, hi);
    }
  }

  /**
   Takes one after the other get, in every window of time, at most one capacity more than the rate
   earns in it.
   */
  lemma Envelope(r: Rate, start: int, es: seq<Event>, lo: int, hi: int)
    requires Positive(r) && lo <= hi
    requires ValidRun(r, Full(r, start), es) && OneByOne(r, Full(r, start), es)
    ensures 1000 * GrantedIn(Run(r, Full(r, start), es).grants, lo, hi) <= 1000 * r.capacity + (hi - lo) * r.rps
  {
    EnvelopeFrom(r, Full(r, start), es, lo, hi);
    EarnedIs(r.rps, hi - lo);
  }

  // ------------------------------------------------------------------ overlapping takes

  function BeginMany(count: nat, n: nat, now: int): seq<Event> { seq(count, _ => Begin(n, now)) }

  function WakeMany(count: nat, now: int): seq<Event> { seq(count, _ => Wake(0, now)) }

  lemma {:induction false} WakeAll(r: Rate, s: Bucket, now: int)
    requires Positive(r) && now >= s.last && forall k :: 0 <= k < |s.waiting| ==> s.waiting[k].n == 1 && s.waiting[k].until <= now
    ensures ValidRun(r, s, WakeMany(|s.waiting|, now))
    ensures GrantedIn(Run(r, s, WakeMany(|s.waiting|, now)).grants, now, now) == GrantedIn(s.grants, now, now) + |s.waiting|
    decreases |s.waiting|
  {
    if s.waiting != [] {
      var t := Next(r, s, Wake(0, now));
      assert t.waiting == s.waiting[1..];
      assert t.grants[..|t.grants| - 1] == s.grants;
      WakeAll(r, t, now);
      assert WakeMany(|s.waiting|, now)[1..] == WakeMany(|t.waiting|, now);
    }
  }

  lemma {:induction false} BeginAll(r: Rate, s: Bucket, count: nat)
    requires Positive(r) && s.tokens == 0
    requires forall k :: 0 <= k < |s.waiting| ==> s.waiting[k].n == 1 && s.waiting[k].until == s.last + WaitMs(r, 1000)
    ensures ValidRun(r, s, BeginMany(count, 1, s.last))
    ensures var t := Run(r, s, BeginMany(count, 1, s.last));
            && t.last == s.last && t.grants == s.grants && |t.waiting| == |s.waiting| + count
            && forall k :: 0 <= k < |t.waiting| ==> t.waiting[k].n == 1 && t.waiting[k].until == s.last + WaitMs(r, 1000)
    decreases count
  {
    if count > 0 {
      var t := Next(r, s, Begin(1, s.last));
      BeginAll(r, t, count - 1);
      assert BeginMany(count, 1, s.last)[1..] == BeginMany(count - 1, 1, s.last);
    }
  }

  lemma {:induction false} RunConcat(r: Rate, s: Bucket, a: seq<Event>, b: seq<Event>)
    requires Positive(r) && ValidRun(r, s, a) && ValidRun(r, Run(r, s, a), b)
    ensures ValidRun(r, s, a + b) && Run(r, s, a + b) == Run(r, Run(r, s, a), b)
    decreases |a|
  {
    if a == [] {
      assert a + b == b;
    } else {
      assert (a + b)[1..] == a[1..] + b;
      RunConcat(r, Next(r, s, a[0]), a[1..], b);
    }
  }

  /** One take of the whole capacity, granted at once, empties the full bucket. */
  lemma Emptied(r: Rate, start: int)
    requires Positive(r)
    ensures Enabled(Full(r, start), Begin(r.capacity, start))
    ensures Next(r, Full(r, start), Begin(r.capacity, start)) == Bucket(0, start, [], [Grant(r.capacity, start)])
  {
  }

  /**
   Takes that overlap are not bounded at all: each of them waits for its own deficit only. From the full
   bucket on, after one granted take, any number of them can be granted at one and the same instant, each
   of one token.
   */
  lemma OverlapBreaksEnvelope(r: Rate, start: int, count: nat) returns (es: seq<Event>, now: int)
    requires Positive(r)
    ensures ValidRun(r, Full(r, start), es) && now > start
    ensures forall e :: e in es && e.Begin? ==> e.n <= r.capacity
    ensures GrantedIn(Run(r, Full(r, start), es).grants, now, now) == count
  {
    var first := [Begin(r.capacity, start)];
    var s := Next(r, Full(r, start), first[0]);
    Emptied(r, start);
    now := start + WaitMs(r, 1000);
    BeginAll(r, s, count);
    var t := Run(r, s, BeginMany(count, 1, start));
    WakeAll(r, t, now);
    assert s.grants[..0] == [];
    assert GrantedIn(s.grants, now, now) == 0;
    RunConcat(r, s, BeginMany(count, 1, start), WakeMany(|t.waiting|, now));
    var rest := BeginMany(count, 1, start) + WakeMany(|t.waiting|, now);
    es := first + rest;
    assert es[1..] == rest;
  }

  // ------------------------------------------------------------------ the closures

  class TokenBucket {
    const rate: Rate
    var tokens: int
    var last: int
    ghost var waiting: seq<Wait>
    ghost var grants: seq<Grant>

    ghost function Now(): Bucket
      reads this
    {
      Bucket(tokens, last, waiting, grants)
    }

    constructor (rps: nat, burstMultiplier: real, now: int)
      ensures rate == Rate(rps, Capacity(rps, burstMultiplier)) && Now() == Full(rate, now)
    {
      rate := Rate(rps, Capacity(rps, burstMultiplier));
      tokens, last, waiting, grants := 1000 * Capacity(rps, burstMultiplier), now, [], [];
    }

    method DoRefill(now: int)
      modifies this`tokens, this`last
      ensures Now() == Refill(rate, old(Now()), now)
    {
      var elapsed := now - last;
      if elapsed > 0 {
        EarnedIs(rate.rps, elapsed);
        tokens := Min(1000 * rate.capacity, tokens + elapsed * rate.rps);
        last := now;
      }
    }

    /** The part of `take` before its timer; `wait` is None when the tokens were there. */
    method Begin(n: nat, now: int) returns (wait: Option<int>)
      requires Positive(rate)
      modifies this
      ensures Now() == BeginTake(rate, old(Now()), n, now)
      ensures wait.Some? <==> Refill(rate, old(Now()), now).tokens < 1000 * n
      ensures wait.Some? ==> waiting == old(waiting) + [Wait(n, now + wait.value)]
    {
      DoRefill(now);
      if tokens >= 1000 * n {
        tokens := tokens - 1000 * n;
        grants := grants + [Grant(n, now)];
        return None;
      }
      var deficit := 1000 * n - tokens;
      var ms := WaitMs(rate, deficit);
      waiting := waiting + [Wait(n, now + ms)];
      return Some(ms);
    }

    /** The part behind it. */
    method Finish(n: nat, now: int, ghost k: nat)
      requires k < |waiting| && waiting[k].n == n
      modifies this
      ensures Now() == FinishTake(rate, old(Now()), k, now)
    {
      DoRefill(now);
      tokens := Max(0, tokens - 1000 * n);
      grants := grants + [Grant(n, now)];
      waiting := waiting[..k] + waiting[k + 1..];
    }
  }
}
