/** What `syncRange` guarantees under every interleaving of fetches, failures, retries and writes. */
module PipelineTheorems {
  import opened Blocks
  import opened Pipeline
  import opened PipelineInvariant

  ghost predicate Reachable(c: Config, s: State) {
    exists es :: ValidRun(c, Init(c), es) && Run(c, Init(c), es) == s
  }

  lemma ReachableInv(c: Config, s: State)
    requires Reachable(c, s)
    ensures Inv(c, s)
  {
    var es :| ValidRun(c, Init(c), es) && Run(c, Init(c), es) == s;
    InitInv(c);
    RunInv(c, Init(c), es);
  }

  // ------------------------------------------------------------------ order and mutual exclusion

  /** Without any lock, overlapping flush loops never have two writes outstanding. */
  lemma MutualExclusion(c: Config, s: State, i: nat, j: nat)
    requires Reachable(c, s)
    requires i in s.phases && s.phases[i].Writing? && j in s.phases && s.phases[j].Writing?
    ensures i == j
    ensures s.phases[i].block.height == s.nextToFlush && s.nextToFlush !in s.ready
    ensures |s.written| > 0 && s.written[|s.written| - 1] == s.phases[i].block
  {
    ReachableInv(c, s);
    assert i in WriterIds(s) && j in WriterIds(s);
  }

  /** `w` lists, in ascending order, the blocks that `o` settled in [from, until), and nothing else. */
  ghost predicate Lists(o: map<int, Entry>, from: int, until: int, w: seq<Block>) {
    && (forall b :: b in w ==> from <= b.height < until && b.height in o && o[b.height] == Assembled(b))
    && (forall h :: from <= h < until && h in o && o[h].Assembled? ==> o[h].block in w)
    && (forall i, j :: 0 <= i < j < |w| ==> w[i].height < w[j].height)
  }

  lemma {:induction false} SequentialWritesList(o: map<int, Entry>, from: int, until: int)
    requires forall h :: h in o && o[h].Assembled? ==> o[h].block.height == h
    ensures Lists(o, from, until, SequentialWrites(o, from, until))
    decreases until - from
  {
    if from < until {
      SequentialWritesList(o, from, until - 1);
      var w0 := SequentialWrites(o, from, until - 1);
      var w := SequentialWrites(o, from, until);
      assert w0 <= w;
      forall b ensures b in w <==> b in w0 || (until - 1 in o && o[until - 1] == Assembled(b)) {}
      forall i, j | 0 <= i < j < |w| ensures w[i].height < w[j].height {
        assert w[i] == w0[i] && w0[i] in w0;
      }
    }
  }

  /** The heights handed to the sink, the outstanding write included, end here. */
  function Frontier(s: State): int { if Taken(s) then s.nextToFlush + 1 else s.nextToFlush }

  lemma WrittenUpToFrontier(c: Config, s: State)
    requires ReadyAhead(c, s) && OneWriter(s) && WrittenInOrder(c, s) && c.from <= s.nextToFlush
    ensures s.written == SequentialWrites(s.outcome, c.from, Frontier(s))
    ensures Lists(s.outcome, c.from, Frontier(s), s.written)
    ensures forall h :: c.from <= h < Frontier(s) ==> h in s.outcome
  {
    assert Taken(s) ==> s.outcome[s.nextToFlush].Assembled?;
    SequentialWritesList(s.outcome, c.from, Frontier(s));
  }

  /**
   In every reachable state the writes are those of the sequential loop up to the frontier:
   strictly ascending, every settled block exactly once, and no height missing but the given-up ones.
   */
  lemma RefinesSequentialLoop(c: Config, s: State)
    requires Reachable(c, s)
    ensures s.written == SequentialWrites(s.outcome, c.from, Frontier(s))
    ensures Lists(s.outcome, c.from, Frontier(s), s.written)
    ensures forall h :: c.from <= h < Frontier(s) ==> h in s.outcome
  {
    ReachableInv(c, s);
    WrittenUpToFrontier(c, s);
  }

  // ------------------------------------------------------------------ conservation

  datatype Place = Unspawned | InFlight(id: int) | Queued(index: int) | Ready | BeingWritten | Flushed

  /** Every place in which a state holds height `h`. */
  function Places(s: State, h: int): set<Place> {
    (if h >= s.nextHeight then {Unspawned} else {}) +
    (set id | id in FetchingIds(s) && id < |s.started| && s.started[id] == h :: InFlight(id)) +
    (set i: nat | 0 <= i < |s.retryQueue| && s.retryQueue[i] == h :: Queued(i)) +
    (if h in s.ready then {Ready} else {}) +
    (if (exists id :: id in s.phases && s.phases[id].Writing? && s.phases[id].block.height == h) then {BeingWritten} else {}) +
    (if h < s.nextToFlush then {Flushed} else {})
  }

  lemma PlacesOfQueued(c: Config, s: State, h: int, i: nat)
    requires Inv(c, s) && c.from <= h < s.nextHeight && i < |s.retryQueue| && s.retryQueue[i] == h
    ensures Places(s, h) == {Queued(i)}
  {
    assert h in s.retryQueue && h !in s.outcome;
    WritingNotUnsettled(c, s, h);
    NotFetched(s, h);
    var queued := set k: nat | 0 <= k < |s.retryQueue| && s.retryQueue[k] == h :: Queued(k);
    forall p | p in queued ensures p == Queued(i) {}
    assert queued == {Queued(i)} by { assert Queued(i) in queued; }
  }

  lemma NotFetched(s: State, h: int)
    requires h in s.retryQueue && forall id :: id in FetchingIds(s) && id < |s.started| ==> s.started[id] !in s.retryQueue
    ensures (set id | id in FetchingIds(s) && id < |s.started| && s.started[id] == h :: InFlight(id)) == {}
  {
  }

  lemma PlacesOfFetched(c: Config, s: State, h: int, id: nat)
    requires Inv(c, s) && id in FetchingIds(s) && id < |s.started| && s.started[id] == h && h < s.nextHeight
    ensures Places(s, h) == {InFlight(id)}
  {
    assert h !in s.retryQueue && h !in s.outcome;
    WritingNotUnsettled(c, s, h);
    forall p | p in Places(s, h) ensures p == InFlight(id) {}
    assert InFlight(id) in Places(s, h);
  }

  lemma PlacesOfUnsettled(c: Config, s: State, h: int)
    requires Inv(c, s) && c.from <= h < s.nextHeight && h !in s.outcome
    ensures exists p :: Places(s, h) == {p}
  {
    if h in s.retryQueue {
      var i: nat :| i < |s.retryQueue| && s.retryQueue[i] == h;
      PlacesOfQueued(c, s, h, i);
    } else {
      assert BeingFetched(s, h);
      var id :| id in FetchingIds(s) && id < |s.started| && s.started[id] == h;
      PlacesOfFetched(c, s, h, id);
    }
  }

  lemma WritingNotUnsettled(c: Config, s: State, h: int)
    requires Inv(c, s)
    ensures (exists id :: id in s.phases && s.phases[id].Writing? && s.phases[id].block.height == h) <==>
            (h == s.nextToFlush && h in s.outcome)
  {
    if h == s.nextToFlush && h in s.outcome {
      assert Taken(s);
      var id :| id in WriterIds(s);
      assert s.phases[id].Writing? && s.phases[id].block.height == h;
    }
    forall id | id in s.phases && s.phases[id].Writing? && s.phases[id].block.height == h
      ensures h == s.nextToFlush && h in s.outcome
    {
      assert id in WriterIds(s);
    }
  }

  lemma PlacesOfSettled(c: Config, s: State, h: int)
    requires Inv(c, s) && (h in s.outcome || h >= s.nextHeight)
    ensures Places(s, h) == {if h >= s.nextHeight then Unspawned else if h in s.ready then Ready
                             else if h < s.nextToFlush then Flushed else BeingWritten}
  {
    WritingNotUnsettled(c, s, h);
    SettledElsewhere(c, s, h);
    assert h in s.ready ==> h in s.outcome && h > s.nextToFlush;
    assert h in s.outcome && h > s.nextToFlush ==> h in s.ready;
  }

  /** Neither in flight nor queued. */
  lemma SettledElsewhere(c: Config, s: State, h: int)
    requires Bounds(c, s) && Unsettled(c, s) && (h in s.outcome || h >= s.nextHeight)
    ensures (set id | id in FetchingIds(s) && id < |s.started| && s.started[id] == h :: InFlight(id)) == {}
    ensures (set i: nat | 0 <= i < |s.retryQueue| && s.retryQueue[i] == h :: Queued(i)) == {}
  {
    assert h !in s.retryQueue;
  }

  /** No height is lost, and none is in two places. */
  lemma HeightConservation(c: Config, s: State, h: int)
    requires Reachable(c, s) && c.from <= h <= c.to
    ensures |Places(s, h)| == 1
    ensures s.inFlight == |s.phases| <= Max(0, c.concurrency)
  {
    ReachableInv(c, s);
    if h in s.outcome || h >= s.nextHeight {
      PlacesOfSettled(c, s, h);
    } else {
      PlacesOfUnsettled(c, s, h);
      var p :| Places(s, h) == {p};
    }
  }

  // ------------------------------------------------------------------ retries

  function FailsAt(s: State, e: Event, h: int): nat
    requires Enabled(s, e)
  {
    if e.FetchFail? && s.started[e.id] == h then 1 else 0
  }

  /** The failed attempts at height `h` along a run. */
  function Failures(c: Config, s: State, es: seq<Event>, h: int): nat
    requires ValidRun(c, s, es)
    decreases |es|
  {
    if es == [] then 0 else FailsAt(s, es[0], h) + Failures(c, Next(c, s, es[0]), es[1..], h)
  }

  lemma AttemptsCountFailures(c: Config, s: State, e: Event, h: int)
    requires Inv(c, s) && Enabled(s, e)
    ensures Attempts(Next(c, s, e), h) == Attempts(s, h) + FailsAt(s, e, h)
  {
    if Settling(e) {
      FlushLeavesOutside(c, s, e);
      SettlingAttempts(c, s, e, h);
    } else {
      OtherAttempts(c, s, e, h);
    }
  }

  lemma SettlingAttempts(c: Config, s: State, e: Event, h: int)
    requires Enabled(s, e) && Settling(e) && SameOutside(BeforeFlush(c, s, e), Next(c, s, e))
    ensures Attempts(Next(c, s, e), h) == Attempts(s, h) + FailsAt(s, e, h)
  {
    assert Attempts(Next(c, s, e), h) == Attempts(BeforeFlush(c, s, e), h);
  }

  lemma OtherAttempts(c: Config, s: State, e: Event, h: int)
    requires Enabled(s, e) && !Settling(e)
    ensures Attempts(Next(c, s, e), h) == Attempts(s, h) + FailsAt(s, e, h)
  {
    if e.RunImmediate? { SpawnLoopAttempts(c, s.(immediates := s.immediates - 1)); }
  }

  lemma SpawnLoopAttempts(c: Config, s: State)
    ensures SpawnLoop(c, s).attempts == s.attempts
    decreases Max(0, c.to + 1 - s.nextHeight) + |s.retryQueue|
  {
    if s.inFlight < c.concurrency && CanSpawn(c, s) { SpawnLoopAttempts(c, SpawnOne(c, s)); }
  }

  lemma {:induction false} RunAttempts(c: Config, s: State, es: seq<Event>, h: int)
    requires Inv(c, s) && ValidRun(c, s, es)
    ensures Attempts(Run(c, s, es), h) == Attempts(s, h) + Failures(c, s, es, h)
    decreases |es|
  {
    if es != [] {
      AttemptsCountFailures(c, s, es[0], h);
      NextInv(c, s, es[0]);
      RunAttempts(c, Next(c, s, es[0]), es[1..], h);
    }
  }

  lemma InitAttempts(c: Config, h: int)
    ensures Attempts(Init(c), h) == 0
  {
    SpawnLoopAttempts(c, Start(c));
  }

  /** A height is given up exactly when it has failed once more often than it may be retried. */
  lemma GivenUpIffExhausted(c: Config, es: seq<Event>, h: int)
    requires ValidRun(c, Init(c), es)
    ensures var s := Run(c, Init(c), es);
            && (h in s.outcome && s.outcome[h].GaveUp? <==> Failures(c, Init(c), es, h) == Retries(c) + 1)
            && Failures(c, Init(c), es, h) <= Retries(c) + 1
            && multiset(s.started)[h] <= Retries(c) + 1
  {
    InitInv(c);
    RunInv(c, Init(c), es);
    RunAttempts(c, Init(c), es, h);
    InitAttempts(c, h);
    var s := Run(c, Init(c), es);
    assert 0 <= Attempts(s, h) <= Retries(c) + 1;
  }

  lemma {:induction false} CountByValue(m: multiset<int>, from: int, until: int, k: nat)
    requires forall h :: h in m ==> from <= h < until
    requires forall h :: m[h] <= k
    ensures |m| <= Max(0, until - from) * k
    decreases until - from
  {
    if until <= from {
      assert m == multiset{};
    } else {
      var m' := m[until - 1 := 0];
      forall h | h in m' ensures from <= h < until - 1 { assert h in m; }
      CountByValue(m', from, until - 1, k);
      assert |m| == |m'| + m[until - 1];
      assert (until - from) * k == (until - 1 - from) * k + k;
    }
  }

  /** The most processHeight calls a range can cause. */
  function MaxCalls(c: Config): nat { Max(0, c.to - c.from + 1) * (Retries(c) + 1) }

  lemma TotalCalls(c: Config, s: State)
    requires Bounds(c, s) && Counted(c, s)
    ensures |s.started| <= MaxCalls(c)
  {
    forall h ensures multiset(s.started)[h] <= Retries(c) + 1 {
      assert 0 <= Attempts(s, h) <= Retries(c) + 1;
    }
    CountByValue(multiset(s.started), c.from, c.to + 1, Retries(c) + 1);
  }

  // ------------------------------------------------------------------ termination

  /** Falls with every event: a call that is spawned pays for all that it may still do. */
  function Rank(c: Config, s: State): int {
    |FetchingIds(s)| + 2 * |s.phases| + s.immediates + Max(c.from, c.to + 1) - s.nextToFlush - 4 * |s.started|
  }

  function Measure(c: Config, s: State): int { Rank(c, s) + 4 * MaxCalls(c) }

  lemma SpawnLoopRank(c: Config, s: State)
    requires forall id :: id in s.phases ==> id < |s.started|
    ensures Rank(c, SpawnLoop(c, s)) <= Rank(c, s)
    decreases Max(0, c.to + 1 - s.nextHeight) + |s.retryQueue|
  {
    if s.inFlight < c.concurrency && CanSpawn(c, s) {
      var t := SpawnOne(c, s);
      SpawnOneRank(c, s);
      SpawnLoopRank(c, t);
    }
  }

  lemma SpawnOneRank(c: Config, s: State)
    requires CanSpawn(c, s) && forall id :: id in s.phases ==> id < |s.started|
    ensures Rank(c, SpawnOne(c, s)) < Rank(c, s)
  {
    var t := SpawnOne(c, s);
    OneMoreId(FetchingIds(s), |s.started|, FetchingIds(t));
    OneMoreId(s.phases.Keys, |s.started|, t.phases.Keys);
    assert |t.started| == |s.started| + 1;
  }

  lemma OneMoreId(before: set<nat>, id: nat, after: set<nat>)
    requires id !in before && forall i :: i in after <==> i in before || i == id
    ensures |after| == |before| + 1
  {
    assert after == before + {id};
  }

  lemma BeforeFlushRank(c: Config, s: State, e: Event)
    requires Enabled(s, e) && Settling(e)
    ensures Rank(c, BeforeFlush(c, s, e)) < Rank(c, s)
    ensures BeforeFlush(c, s, e).phases.Keys == s.phases.Keys
  {
    var t := BeforeFlush(c, s, e);
    assert t.phases.Keys == s.phases.Keys;
    assert |t.phases.Keys| == |t.phases| && |s.phases.Keys| == |s.phases|;
    if e.WriteDone? {
      assert FetchingIds(t) == FetchingIds(s);
    } else {
      assert FetchingIds(t) == FetchingIds(s) - {e.id};
      assert e.id in FetchingIds(s);
    }
  }

  lemma FlushRank(c: Config, s: State, t: State)
    requires SameOutside(s, t)
    ensures Rank(c, t) <= Rank(c, s)
  {
    assert |t.phases.Keys| == |t.phases| && |s.phases.Keys| == |s.phases|;
  }

  lemma SettlingRank(c: Config, s: State, e: Event)
    requires Inv(c, s) && Enabled(s, e) && Settling(e)
    ensures Rank(c, Next(c, s, e)) < Rank(c, s)
  {
    BeforeFlushRank(c, s, e);
    FlushLeavesOutside(c, s, e);
    FlushRank(c, BeforeFlush(c, s, e), Next(c, s, e));
  }

  lemma NextRank(c: Config, s: State, e: Event)
    requires Inv(c, s) && Enabled(s, e)
    ensures Rank(c, Next(c, s, e)) < Rank(c, s)
  {
    match e
    case Finish(id) =>
      var t := FinishCall(c, s, id);
      assert t.phases.Keys == s.phases.Keys - {id};
      assert FetchingIds(t) == FetchingIds(s);
    case RunImmediate =>
      var t := s.(immediates := s.immediates - 1);
      assert FetchingIds(t) == FetchingIds(s);
      SpawnLoopRank(c, t);
    case _ => SettlingRank(c, s, e);
  }

  /** No run is longer than the measure of its first state: every interleaving terminates. */
  lemma {:induction false} RunsAreBounded(c: Config, s: State, es: seq<Event>)
    requires Inv(c, s) && ValidRun(c, s, es)
    ensures |es| <= Measure(c, s)
    decreases |es|
  {
    TotalCalls(c, s);
    if es != [] {
      NextRank(c, s, es[0]);
      NextInv(c, s, es[0]);
      RunsAreBounded(c, Next(c, s, es[0]), es[1..]);
    }
  }

  /** Every maximal run is finite, and each height is processed at most `Retries + 1` times in it. */
  lemma Termination(c: Config, es: seq<Event>)
    requires ValidRun(c, Init(c), es)
    ensures |es| <= Measure(c, Init(c)) <= 4 * MaxCalls(c) + Max(0, c.to + 1 - c.from)
    ensures |Run(c, Init(c), es).started| <= MaxCalls(c)
  {
    InitInv(c);
    RunsAreBounded(c, Init(c), es);
    RunInv(c, Init(c), es);
    TotalCalls(c, Run(c, Init(c), es));
    assert FetchingIds(Start(c)) == {};
    SpawnLoopRank(c, Start(c));
  }

  // ------------------------------------------------------------------ completion

  /** An event that can happen next; in a range that is not resolved there always is one. */
  lemma DeadlockFree(c: Config, s: State) returns (e: Event)
    requires Inv(c, s) && c.from <= c.to && c.concurrency >= 1 && s.resolves == 0
    ensures Enabled(s, e)
    ensures e.RunImmediate? ==> s.phases == map[] && Next(c, s, e).phases != map[]
  {
    if s.phases == map[] {
      e := RunImmediate;
      SpawnsSomething(c, s);
    } else {
      var id :| id in s.phases;
      e := match s.phases[id]
           case Fetching => FetchFail(id)
           case Writing(_) => WriteDone(id)
           case Returned => Finish(id);
    }
  }

  lemma SpawnsSomething(c: Config, s: State)
    requires Inv(c, s) && s.phases == map[] && s.immediates > 0 && CanSpawn(c, s) && c.concurrency >= 1
    ensures Next(c, s, RunImmediate).phases != map[]
  {
    TakeImmediateKeeps(c, s);
    SpawnLoopKeeps(c, s.(immediates := s.immediates - 1));
  }

  lemma AllSettled(c: Config, s: State, h: int)
    requires Covered(c, s) && s.phases == map[] && s.retryQueue == [] && c.from <= h < s.nextHeight
    ensures h in s.outcome
  {
    assert FetchingIds(s) == {};
    assert !BeingFetched(s, h);
  }

  lemma NothingLeftToFlush(c: Config, s: State)
    requires Bounds(c, s) && Covered(c, s) && ReadyAhead(c, s) && OneWriter(s) && s.nextToFlush !in s.ready
    requires s.phases == map[] && s.retryQueue == []
    ensures s.nextToFlush == s.nextHeight && s.ready == map[]
  {
    assert WriterIds(s) == {};
    if s.nextToFlush < s.nextHeight {
      AllSettled(c, s, s.nextToFlush);
    }
    forall h ensures h !in s.ready {}
  }

  ghost predicate Complete(c: Config, s: State) {
    && s.resolves == 1 && s.phases == map[] && s.ready == map[] && s.retryQueue == []
    && s.nextToFlush == c.to + 1 && s.processed == c.to - c.from + 1
    && (forall h :: c.from <= h <= c.to <==> h in s.outcome)
    && s.written == SequentialWrites(s.outcome, c.from, c.to + 1)
  }

  lemma CompleteFromInv(c: Config, s: State)
    requires Bounds(c, s) && Covered(c, s) && ReadyAhead(c, s) && OneWriter(s) && WrittenInOrder(c, s) && Live(c, s)
    requires s.nextToFlush !in s.ready && s.resolves > 0
    ensures Complete(c, s)
  {
    NothingLeftToFlush(c, s);
    assert !Taken(s);
  }

  /** When the promise has resolved, every height is flushed or given up and no write is outstanding. */
  lemma CompleteWhenResolved(c: Config, s: State)
    requires Reachable(c, s) && s.resolves > 0
    ensures Complete(c, s)
  {
    ReachableInv(c, s);
    CompleteFromInv(c, s);
  }

  /** After the promise has resolved nothing is fetched, written or resolved again. */
  lemma NothingAfterResolve(c: Config, s: State, e: Event)
    requires Inv(c, s) && s.resolves > 0 && Enabled(s, e)
    ensures Next(c, s, e) == s.(immediates := s.immediates - 1)
  {
  }

  lemma StuckWithoutWork(c: Config)
    requires c.from > c.to || c.concurrency < 1
    ensures Init(c) == Start(c) && Stuck(Init(c))
  {
    InitInv(c);
    var s := Init(c);
    forall e ensures !Enabled(s, e) {}
  }

  /**
   Every run that cannot go on has resolved the promise, if and only if the range is not empty and
   at least one height may be in flight. On an empty range (a resumed run that is already at its
   end height) nothing is ever scheduled and the promise stays pending.
   */
  lemma ResolvesIff(c: Config)
    ensures (forall es :: ValidRun(c, Init(c), es) && Stuck(Run(c, Init(c), es)) ==> Run(c, Init(c), es).resolves == 1)
            <==> c.from <= c.to && c.concurrency >= 1
  {
    if c.from <= c.to && c.concurrency >= 1 {
      forall es | ValidRun(c, Init(c), es) && Stuck(Run(c, Init(c), es)) ensures Run(c, Init(c), es).resolves == 1 {
        InitInv(c);
        RunInv(c, Init(c), es);
        var s := Run(c, Init(c), es);
        if s.resolves == 0 { var e := DeadlockFree(c, s); }
      }
    } else {
      StuckWithoutWork(c);
      var es: seq<Event> := [];
      assert ValidRun(c, Init(c), es) && Run(c, Init(c), es) == Init(c) && Init(c).resolves == 0;
    }
  }
  // ------------------------------------------------------------------ free slots

  /** The heights from `a` up to, not including, `b`. */
  function Ascent(a: int, b: int): seq<int>
    requires a <= b
  {
    seq(b - a, i requires 0 <= i < b - a => a + i)
  }

  /** There is no slot left, or no height to start. */
  predicate Filled(c: Config, s: State) { s.inFlight >= c.concurrency || (s.nextHeight > c.to && s.retryQueue == []) }

  /** What `maybeSpawn` may start: queued retries first, oldest first, then fresh heights in ascending order. */
  predicate StartsInOrder(s: State, t: State) {
    && |s.started| <= |t.started| && t.started[..|s.started|] == s.started
    && |t.retryQueue| <= |s.retryQueue| && s.nextHeight <= t.nextHeight
    && var taken := |s.retryQueue| - |t.retryQueue|;
       && t.retryQueue == s.retryQueue[taken..]
       && t.started[|s.started|..] == s.retryQueue[..taken] + Ascent(s.nextHeight, t.nextHeight)
       && (t.nextHeight > s.nextHeight ==> t.retryQueue == [])
       && t.inFlight == s.inFlight + |t.started| - |s.started|
  }

  /** `maybeSpawn` fills every free slot that it can. */
  lemma {:induction false} SpawnFills(c: Config, s: State)
    ensures Filled(c, SpawnLoop(c, s)) && (Filled(c, s) ==> SpawnLoop(c, s) == s)
    decreases Max(0, c.to + 1 - s.nextHeight) + |s.retryQueue|
  {
    if s.inFlight < c.concurrency && CanSpawn(c, s) { SpawnFills(c, SpawnOne(c, s)); }
  }

  lemma {:induction false} SpawnsInOrder(c: Config, s: State)
    ensures StartsInOrder(s, SpawnLoop(c, s))
    decreases Max(0, c.to + 1 - s.nextHeight) + |s.retryQueue|
  {
    if s.inFlight < c.concurrency && CanSpawn(c, s) {
      SpawnsInOrder(c, SpawnOne(c, s));
      if s.retryQueue != [] {
        RetryThenMore(s, SpawnOne(c, s), SpawnLoop(c, s));
      } else {
        FreshThenMore(s, SpawnOne(c, s), SpawnLoop(c, s));
      }
    } else {
      NothingStarts(s);
    }
  }

  lemma NothingStarts(s: State)
    ensures StartsInOrder(s, s)
  {
  }

  lemma {:induction false} SpawnsWithin(c: Config, s: State)
    ensures SpawnLoop(c, s).inFlight <= Max(s.inFlight, c.concurrency)
    ensures SpawnLoop(c, s).nextHeight <= Max(s.nextHeight, c.to + 1)
    decreases Max(0, c.to + 1 - s.nextHeight) + |s.retryQueue|
  {
    if s.inFlight < c.concurrency && CanSpawn(c, s) { SpawnsWithin(c, SpawnOne(c, s)); }
  }

  lemma RetryThenMore(s: State, m: State, t: State)
    requires StartsInOrder(m, t) && s.retryQueue != [] && m.inFlight == s.inFlight + 1
    requires m.retryQueue == s.retryQueue[1..] && m.nextHeight == s.nextHeight && m.started == s.started + [s.retryQueue[0]]
    ensures StartsInOrder(s, t)
  {
    var n := |m.retryQueue| - |t.retryQueue|;
    Behind(s.started, [s.retryQueue[0]], t.started);
    assert s.retryQueue[..n + 1] == [s.retryQueue[0]] + m.retryQueue[..n];
    assert s.retryQueue[n + 1..] == m.retryQueue[n..];
    assert t.started[|s.started|..] == s.retryQueue[..n + 1] + Ascent(s.nextHeight, t.nextHeight);
  }

  lemma FreshThenMore(s: State, m: State, t: State)
    requires StartsInOrder(m, t) && s.retryQueue == [] && m.inFlight == s.inFlight + 1
    requires m.retryQueue == [] && m.nextHeight == s.nextHeight + 1 && m.started == s.started + [s.nextHeight]
    ensures StartsInOrder(s, t)
  {
    Behind(s.started, [s.nextHeight], t.started);
    assert Ascent(s.nextHeight, t.nextHeight) == [s.nextHeight] + Ascent(m.nextHeight, t.nextHeight);
  }

  lemma Behind(a: seq<int>, b: seq<int>, all: seq<int>)
    requires a + b <= all
    ensures a <= all && all[..|a|] == a && all[|a|..] == b + all[|a + b|..]
  {
  }

  /** A range begins with its first heights, as many as may run at a time. */
  lemma InitStarts(c: Config)
    ensures Init(c).started == Ascent(c.from, c.from + Max(0, Min(c.concurrency, c.to - c.from + 1)))
    ensures Init(c).inFlight == |Init(c).started|
  {
    var s, t := Start(c), Init(c);
    SpawnFills(c, s);
    SpawnsInOrder(c, s);
    SpawnsWithin(c, s);
    assert t.started[|s.started|..] == t.started;
  }

  /** No slot idles: while all running calls fetch and no spawn is scheduled, all slots are filled that can be. */
  predicate NoIdleSlot(c: Config, s: State) {
    s.immediates == 0 && (forall id :: id in s.phases ==> s.phases[id].Fetching?) ==> Filled(c, s)
  }

  lemma FlushLoopKeepsBusy(s: State, id: nat)
    requires InPhase(s, id, Returned)
    ensures var t := FlushLoop(s, id); id in t.phases && !t.phases[id].Fetching?
    decreases |s.ready|
  {
    if s.nextToFlush in s.ready && s.ready[s.nextToFlush].GaveUp? {
      var s1 := s.(ready := s.ready - {s.nextToFlush});
      assert s1.ready.Keys == s.ready.Keys - {s.nextToFlush};
      FlushLoopKeepsBusy(Advance(s1), id);
    }
  }

  lemma NextNoIdleSlot(c: Config, s: State, e: Event)
    requires NoIdleSlot(c, s) && Enabled(s, e)
    ensures NoIdleSlot(c, Next(c, s, e))
  {
    match e
    case Finish(id) =>
    case RunImmediate => SpawnFills(c, s.(immediates := s.immediates - 1));
    case _ => FlushLoopKeepsBusy(BeforeFlush(c, s, e), e.id);
  }

  lemma {:induction false} NoSlotIdles(c: Config, s: State, es: seq<Event>)
    requires NoIdleSlot(c, s) && ValidRun(c, s, es)
    ensures NoIdleSlot(c, Run(c, s, es))
    decreases |es|
  {
    if es != [] {
      NextNoIdleSlot(c, s, es[0]);
      NoSlotIdles(c, Next(c, s, es[0]), es[1..]);
    }
  }

  /** In every run of a range the concurrency is used. */
  lemma ConcurrencyIsUsed(c: Config, es: seq<Event>)
    requires ValidRun(c, Init(c), es)
    ensures var s := Run(c, Init(c), es);
            s.immediates == 0 && (forall id :: id in s.phases ==> s.phases[id].Fetching?) ==>
              s.inFlight >= c.concurrency || (s.nextHeight > c.to && s.retryQueue == [])
  {
    SpawnFills(c, Start(c));
    NoSlotIdles(c, Init(c), es);
  }
}
