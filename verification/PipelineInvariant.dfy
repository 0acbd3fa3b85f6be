/** The invariant of the block pipeline, and its preservation by every event. */
module PipelineInvariant {
  import opened Blocks
  import opened Pipeline

  function FetchingIds(s: State): set<nat> { set id | id in s.phases && s.phases[id].Fetching? }

  function WriterIds(s: State): set<nat> { set id | id in s.phases && s.phases[id].Writing? }

  /** The block of `nextToFlush` has been taken out of `ready` and its write is outstanding. */
  predicate Taken(s: State) { s.nextToFlush in s.outcome && s.nextToFlush !in s.ready }

  ghost predicate Bounds(c: Config, s: State) {
    && c.from <= s.nextToFlush <= s.nextHeight <= Max(c.from, c.to + 1)
    && s.processed == s.nextToFlush - c.from
    && s.inFlight == |s.phases|
    && s.inFlight <= Max(0, c.concurrency)
    && (forall id :: id in s.phases ==> id < |s.started|)
    && (forall i :: 0 <= i < |s.started| ==> c.from <= s.started[i] < s.nextHeight)
  }

  /** A height that is being fetched or queued for a retry is not settled, and is so in one place only. */
  ghost predicate Unsettled(c: Config, s: State) {
    && (forall id :: id in FetchingIds(s) && id < |s.started| ==>
          s.started[id] !in s.retryQueue && s.started[id] !in s.outcome)
    && (forall i, j :: i in FetchingIds(s) && j in FetchingIds(s) && i < |s.started| && j < |s.started| && i != j ==>
          s.started[i] != s.started[j])
    && (forall h :: h in s.retryQueue ==> c.from <= h < s.nextHeight && h !in s.outcome)
    && (forall i, j :: 0 <= i < j < |s.retryQueue| ==> s.retryQueue[i] != s.retryQueue[j])
  }

  ghost predicate BeingFetched(s: State, h: int) {
    exists id :: id in FetchingIds(s) && id < |s.started| && s.started[id] == h
  }

  /** No spawned height is lost. */
  ghost predicate Covered(c: Config, s: State) {
    && (forall h :: h in s.outcome ==> c.from <= h < s.nextHeight)
    && (forall h :: c.from <= h < s.nextHeight ==> h in s.outcome || h in s.retryQueue || BeingFetched(s, h))
  }

  /** `ready` holds what is settled and not yet flushed. */
  ghost predicate ReadyAhead(c: Config, s: State) {
    && (forall h :: h in s.outcome && s.outcome[h].Assembled? ==> s.outcome[h].block.height == h)
    && (forall h :: h in s.ready ==> h >= s.nextToFlush && h in s.outcome && s.ready[h] == s.outcome[h])
    && (forall h :: h in s.outcome && h > s.nextToFlush ==> h in s.ready)
    && (forall h :: c.from <= h < s.nextToFlush ==> h in s.outcome)
  }

  /** At most one write is outstanding, and it is that of the block at `nextToFlush`. */
  ghost predicate OneWriter(s: State) {
    && (forall id :: id in WriterIds(s) ==> Taken(s) && s.outcome[s.nextToFlush] == Assembled(s.phases[id].block))
    && (Taken(s) ==> WriterIds(s) != {} && s.outcome[s.nextToFlush].Assembled?)
    && (forall i, j :: i in WriterIds(s) && j in WriterIds(s) ==> i == j)
  }

  /** The writes so far are those of the sequential loop, the outstanding one included. */
  ghost predicate WrittenInOrder(c: Config, s: State) {
    s.written == SequentialWrites(s.outcome, c.from, s.nextToFlush) +
                 (if Taken(s) && s.outcome[s.nextToFlush].Assembled? then [s.outcome[s.nextToFlush].block] else [])
  }

  /** How often a height was handed to processHeight, against its failures. */
  predicate Busy(c: Config, s: State, h: int) {
    c.from <= h < s.nextHeight && h !in s.retryQueue && !(h in s.outcome && s.outcome[h].GaveUp?)
  }

  ghost predicate Counted(c: Config, s: State) {
    forall h {:trigger Attempts(s, h)} ::
      && multiset(s.started)[h] == Attempts(s, h) + (if Busy(c, s, h) then 1 else 0)
      && 0 <= Attempts(s, h) <= Retries(c) + 1
      && (Attempts(s, h) == Retries(c) + 1 <==> (h in s.outcome && s.outcome[h].GaveUp?))
  }

  /** Someone is left who will go on, or the range is resolved. */
  ghost predicate Live(c: Config, s: State) {
    && s.resolves <= 1
    && (s.resolves == 1 ==> s.phases == map[] && !CanSpawn(c, s) && c.from <= c.to && c.concurrency >= 1)
    && (s.phases == map[] && s.resolves == 0 && c.from <= c.to && c.concurrency >= 1 ==> s.immediates > 0 && CanSpawn(c, s))
    && (c.from > c.to || c.concurrency < 1 ==> s == Start(c))
  }

  /** What holds while a flush loop is running. */
  ghost predicate InvMid(c: Config, s: State) {
    Bounds(c, s) && Unsettled(c, s) && Covered(c, s) && ReadyAhead(c, s) && OneWriter(s) && WrittenInOrder(c, s) && Counted(c, s)
  }

  /** What holds between two events. */
  ghost predicate Inv(c: Config, s: State) {
    InvMid(c, s) && s.nextToFlush !in s.ready && Live(c, s)
  }

  // ------------------------------------------------------------------ frames

  predicate SameBooks(s: State, t: State) {
    && t.nextHeight == s.nextHeight && t.retryQueue == s.retryQueue
    && t.attempts == s.attempts && t.started == s.started && t.outcome == s.outcome
    && FetchingIds(t) == FetchingIds(s)
  }

  lemma CountedFrame(c: Config, s: State, t: State)
    requires Counted(c, s) && SameBooks(s, t)
    ensures Counted(c, t)
  {
    forall h {:trigger Attempts(t, h)}
      ensures multiset(t.started)[h] == Attempts(t, h) + (if Busy(c, t, h) then 1 else 0)
      ensures 0 <= Attempts(t, h) <= Retries(c) + 1
      ensures Attempts(t, h) == Retries(c) + 1 <==> (h in t.outcome && t.outcome[h].GaveUp?)
    {
      assert Attempts(t, h) == Attempts(s, h);
    }
  }

  lemma PlacesFrame(c: Config, s: State, t: State)
    requires Unsettled(c, s) && Covered(c, s) && SameBooks(s, t.(attempts := s.attempts))
    ensures Unsettled(c, t) && Covered(c, t)
  {
    assert FetchingIds(t) == FetchingIds(t.(attempts := s.attempts));
    forall h | BeingFetched(s, h) ensures BeingFetched(t, h) {
      var id :| id in FetchingIds(s) && id < |s.started| && s.started[id] == h;
      assert id in FetchingIds(t) && t.started[id] == h;
    }
  }

  predicate SameWriters(s: State, t: State) {
    && (forall id :: id in t.phases && t.phases[id].Writing? ==> id in s.phases && s.phases[id] == t.phases[id])
    && (forall id :: id in s.phases && s.phases[id].Writing? ==> id in t.phases && s.phases[id] == t.phases[id])
  }

  lemma OneWriterFrame(s: State, t: State)
    requires OneWriter(s) && t.nextToFlush == s.nextToFlush && t.outcome == s.outcome && t.ready == s.ready
    requires SameWriters(s, t)
    ensures OneWriter(t)
  {
    assert WriterIds(t) == WriterIds(s);
  }

  lemma InvMidFrame(c: Config, s: State, t: State)
    requires InvMid(c, s) && SameBooks(s, t) && SameWriters(s, t) && Bounds(c, t)
    requires t.nextToFlush == s.nextToFlush && t.ready == s.ready && t.written == s.written
    ensures InvMid(c, t)
  {
    CountedFrame(c, s, t);
    PlacesFrame(c, s, t);
    OneWriterFrame(s, t);
  }

  // ------------------------------------------------------------------ spawning

  /** The height `maybeSpawn` picks: the oldest retry, else the next fresh height. */
  function Picked(s: State): int { if |s.retryQueue| > 0 then s.retryQueue[0] else s.nextHeight }

  lemma PickedIsFree(c: Config, s: State)
    requires InvMid(c, s) && CanSpawn(c, s)
    ensures c.from <= Picked(s) < SpawnOne(c, s).nextHeight
    ensures Picked(s) !in s.outcome && Picked(s) !in SpawnOne(c, s).retryQueue
    ensures !BeingFetched(s, Picked(s))
    ensures forall h :: h in s.retryQueue <==> h in SpawnOne(c, s).retryQueue || (h == Picked(s) && |s.retryQueue| > 0)
  {
    if |s.retryQueue| > 0 {
      assert s.retryQueue == [s.retryQueue[0]] + s.retryQueue[1..];
      assert s.retryQueue[0] in s.retryQueue;
    }
  }

  lemma SpawnOneKeepsBounds(c: Config, s: State)
    requires InvMid(c, s) && CanSpawn(c, s) && s.inFlight < c.concurrency
    ensures Bounds(c, SpawnOne(c, s))
  {
    PickedIsFree(c, s);
  }

  lemma SpawnOneKeepsUnsettled(c: Config, s: State)
    requires InvMid(c, s) && CanSpawn(c, s)
    ensures Unsettled(c, SpawnOne(c, s))
  {
    var t := SpawnOne(c, s);
    PickedIsFree(c, s);
    var id0 := |s.started|;
    assert FetchingIds(t) == FetchingIds(s) + {id0};
    assert forall i :: i in FetchingIds(s) ==> i < id0 && t.started[i] == s.started[i];
    assert t.started[id0] == Picked(s);
    forall id | id in FetchingIds(t) && id < |t.started|
      ensures t.started[id] !in t.retryQueue && t.started[id] !in t.outcome
    {
    }
    forall i, j | i in FetchingIds(t) && j in FetchingIds(t) && i < |t.started| && j < |t.started| && i != j
      ensures t.started[i] != t.started[j]
    {
      if i == id0 { assert BeingFetched(s, s.started[j]); }
      if j == id0 { assert BeingFetched(s, s.started[i]); }
    }
    forall h | h in t.retryQueue ensures c.from <= h < t.nextHeight && h !in t.outcome {
      assert h in s.retryQueue;
    }
  }

  lemma SpawnOneKeepsCovered(c: Config, s: State)
    requires InvMid(c, s) && CanSpawn(c, s)
    ensures Covered(c, SpawnOne(c, s))
  {
    var t := SpawnOne(c, s);
    assert FetchingIds(t) == FetchingIds(s) + {|s.started|};
    forall h | BeingFetched(s, h) ensures BeingFetched(t, h) {
      var id :| id in FetchingIds(s) && id < |s.started| && s.started[id] == h;
      assert id in FetchingIds(t) && t.started[id] == h;
    }
    var h0 := t.started[|s.started|];
    assert |s.started| in FetchingIds(t);
    assert BeingFetched(t, h0);
    if |s.retryQueue| > 0 { assert s.retryQueue == [s.retryQueue[0]] + s.retryQueue[1..]; }
  }

  lemma SpawnOneKeepsCounted(c: Config, s: State)
    requires InvMid(c, s) && CanSpawn(c, s)
    ensures Counted(c, SpawnOne(c, s))
  {
    var t := SpawnOne(c, s);
    PickedIsFree(c, s);
    forall h {:trigger Attempts(t, h)}
      ensures multiset(t.started)[h] == Attempts(t, h) + (if Busy(c, t, h) then 1 else 0)
      ensures 0 <= Attempts(t, h) <= Retries(c) + 1
      ensures Attempts(t, h) == Retries(c) + 1 <==> (h in t.outcome && t.outcome[h].GaveUp?)
    {
      assert Attempts(t, h) == Attempts(s, h);
      assert Busy(c, t, h) <==> Busy(c, s, h) || h == Picked(s);
      assert !Busy(c, s, Picked(s));
    }
  }

  lemma SpawnLoopKeeps(c: Config, s: State)
    requires InvMid(c, s)
    ensures InvMid(c, SpawnLoop(c, s))
    ensures var t := SpawnLoop(c, s);
            t.ready == s.ready && t.nextToFlush == s.nextToFlush && t.resolves == s.resolves && t.immediates == s.immediates
    ensures s.inFlight < c.concurrency && CanSpawn(c, s) ==> SpawnLoop(c, s).phases != map[]
    ensures !CanSpawn(c, s) || c.concurrency < 1 ==> SpawnLoop(c, s) == s
    decreases Max(0, c.to + 1 - s.nextHeight) + |s.retryQueue|
  {
    if s.inFlight < c.concurrency && CanSpawn(c, s) {
      var t := SpawnOne(c, s);
      SpawnOneKeepsBounds(c, s);
      SpawnOneKeepsUnsettled(c, s);
      SpawnOneKeepsCovered(c, s);
      OneWriterFrame(s, t);
      SpawnOneKeepsCounted(c, s);
      SpawnLoopKeeps(c, t);
      assert |s.started| in t.phases;
    }
  }

  // ------------------------------------------------------------------ flushing

  /** What no flush loop touches. */
  predicate SameOutside(s: State, t: State) {
    && SameBooks(s, t) && t.inFlight == s.inFlight
    && t.immediates == s.immediates && t.resolves == s.resolves && t.phases.Keys == s.phases.Keys
    && s.nextToFlush <= t.nextToFlush
  }

  lemma SkipKeepsOrder(c: Config, s: State)
    requires ReadyAhead(c, s) && OneWriter(s) && WrittenInOrder(c, s) && c.from <= s.nextToFlush
    requires s.nextToFlush in s.ready && s.ready[s.nextToFlush].GaveUp?
    ensures var t := Advance(s.(ready := s.ready - {s.nextToFlush}));
            ReadyAhead(c, t) && OneWriter(t) && WrittenInOrder(c, t)
  {
    var t := Advance(s.(ready := s.ready - {s.nextToFlush}));
    assert WriterIds(t) == WriterIds(s) == {};
    assert !Taken(t) && !Taken(s);
    assert SequentialWrites(t.outcome, c.from, t.nextToFlush) == SequentialWrites(s.outcome, c.from, s.nextToFlush) + [];
  }

  /** Passing over a skip marker. */
  lemma SkipKeeps(c: Config, s: State)
    requires InvMid(c, s) && s.nextToFlush in s.ready && s.ready[s.nextToFlush].GaveUp?
    ensures InvMid(c, Advance(s.(ready := s.ready - {s.nextToFlush})))
  {
    var t := Advance(s.(ready := s.ready - {s.nextToFlush}));
    assert FetchingIds(t) == FetchingIds(s);
    SkipKeepsOrder(c, s);
    CountedFrame(c, s, t);
    PlacesFrame(c, s, t);
  }

  /** Handing the block at `nextToFlush` to the sink. */
  lemma TakeKeeps(c: Config, s: State, id: nat)
    requires InvMid(c, s) && InPhase(s, id, Returned)
    requires s.nextToFlush in s.ready && s.ready[s.nextToFlush].Assembled?
    ensures InvMid(c, FlushLoop(s, id)) && SameOutside(s, FlushLoop(s, id))
  {
    var t := FlushLoop(s, id);
    assert t.phases.Keys == s.phases.Keys;
    assert FetchingIds(t) == FetchingIds(s);
    assert WriterIds(s) == {};
    assert WriterIds(t) == {id};
    CountedFrame(c, s, t);
    PlacesFrame(c, s, t);
  }

  lemma FlushLoopKeeps(c: Config, s: State, id: nat)
    requires InvMid(c, s) && InPhase(s, id, Returned)
    ensures InvMid(c, FlushLoop(s, id)) && FlushLoop(s, id).nextToFlush !in FlushLoop(s, id).ready
    ensures SameOutside(s, FlushLoop(s, id))
    decreases |s.ready|
  {
    if s.nextToFlush in s.ready {
      var s1 := s.(ready := s.ready - {s.nextToFlush});
      assert s1.ready.Keys == s.ready.Keys - {s.nextToFlush};
      if s.ready[s.nextToFlush].GaveUp? {
        SkipKeeps(c, s);
        assert FetchingIds(Advance(s1)) == FetchingIds(s);
        FlushLoopKeeps(c, Advance(s1), id);
      } else {
        TakeKeeps(c, s, id);
      }
    }
  }

  // ------------------------------------------------------------------ settling

  lemma FetchedHeight(c: Config, s: State, id: nat)
    requires Inv(c, s) && InPhase(s, id, Fetching)
    ensures id < |s.started| && c.from <= s.started[id] < s.nextHeight
    ensures s.started[id] !in s.outcome && s.started[id] !in s.retryQueue && s.started[id] !in s.ready
    ensures s.nextToFlush <= s.started[id]
  {
    assert id in FetchingIds(s);
  }

  lemma SettleKeepsPlaces(c: Config, s: State, id: nat, e: Entry)
    requires Inv(c, s) && InPhase(s, id, Fetching)
    ensures id < |s.started|
    ensures var t := Settle(s, id, s.started[id], e);
            Bounds(c, t) && Unsettled(c, t) && Covered(c, t)
  {
    FetchedHeight(c, s, id);
    var h0 := s.started[id];
    var t := Settle(s, id, h0, e);
    assert FetchingIds(t) == FetchingIds(s) - {id};
    assert t.phases.Keys == s.phases.Keys;
    forall h | BeingFetched(s, h) && h != h0 ensures BeingFetched(t, h) {
      var i :| i in FetchingIds(s) && i < |s.started| && s.started[i] == h;
      assert i in FetchingIds(t) && t.started[i] == h;
    }
  }

  lemma SettleKeepsOrder(c: Config, s: State, id: nat, e: Entry)
    requires Inv(c, s) && InPhase(s, id, Fetching)
    requires id < |s.started| && (e.Assembled? ==> e.block.height == s.started[id])
    ensures var t := Settle(s, id, s.started[id], e);
            ReadyAhead(c, t) && OneWriter(t) && WrittenInOrder(c, t)
  {
    FetchedHeight(c, s, id);
    var t := Settle(s, id, s.started[id], e);
    assert WriterIds(t) == WriterIds(s);
    SequentialWritesFrame(s.outcome, t.outcome, c.from, s.nextToFlush);
  }

  lemma {:induction false} SequentialWritesFrame(o1: map<int, Entry>, o2: map<int, Entry>, from: int, until: int)
    requires forall h :: from <= h < until ==> h in o1 && h in o2 && o1[h] == o2[h]
    ensures SequentialWrites(o1, from, until) == SequentialWrites(o2, from, until)
    decreases until - from
  {
    if from < until { SequentialWritesFrame(o1, o2, from, until - 1); }
  }

  lemma FetchOkKeeps(c: Config, s: State, id: nat, block: Block)
    requires Inv(c, s) && Enabled(s, FetchOk(id, block))
    ensures InvMid(c, Settle(s, id, s.started[id], Assembled(block)))
  {
    var t := Settle(s, id, s.started[id], Assembled(block));
    FetchedHeight(c, s, id);
    SettleKeepsPlaces(c, s, id, Assembled(block));
    SettleKeepsOrder(c, s, id, Assembled(block));
    forall h {:trigger Attempts(t, h)}
      ensures multiset(t.started)[h] == Attempts(t, h) + (if Busy(c, t, h) then 1 else 0)
      ensures 0 <= Attempts(t, h) <= Retries(c) + 1
      ensures Attempts(t, h) == Retries(c) + 1 <==> (h in t.outcome && t.outcome[h].GaveUp?)
    {
      assert Attempts(t, h) == Attempts(s, h);
      assert Busy(c, t, h) == Busy(c, s, h);
    }
  }

  lemma FailureCounted(c: Config, s: State, id: nat)
    requires Inv(c, s) && Enabled(s, FetchFail(id))
    ensures Counted(c, CountFailure(c, s, id, s.started[id]))
  {
    var h0 := s.started[id];
    var t := CountFailure(c, s, id, h0);
    FetchedHeight(c, s, id);
    assert Attempts(s, h0) <= Retries(c);
    forall h {:trigger Attempts(t, h)}
      ensures multiset(t.started)[h] == Attempts(t, h) + (if Busy(c, t, h) then 1 else 0)
      ensures 0 <= Attempts(t, h) <= Retries(c) + 1
      ensures Attempts(t, h) == Retries(c) + 1 <==> (h in t.outcome && t.outcome[h].GaveUp?)
    {
      assert Attempts(t, h) == if h == h0 then Attempts(s, h) + 1 else Attempts(s, h);
      assert Busy(c, t, h) == (Busy(c, s, h) && h != h0);
      assert Busy(c, s, h0);
    }
  }

  lemma RetryKeepsUnsettled(c: Config, s: State, t: State, id: nat)
    requires Unsettled(c, s) && id in FetchingIds(s) && id < |s.started| && c.from <= s.started[id] < s.nextHeight
    requires FetchingIds(t) == FetchingIds(s) - {id} && t.retryQueue == s.retryQueue + [s.started[id]]
    requires t.started == s.started && t.outcome == s.outcome && t.nextHeight == s.nextHeight
    ensures Unsettled(c, t)
  {
    assert forall h :: h in t.retryQueue <==> h in s.retryQueue || h == s.started[id];
  }

  lemma RetryKeepsCovered(c: Config, s: State, t: State, id: nat)
    requires Covered(c, s) && id in FetchingIds(s) && id < |s.started|
    requires FetchingIds(t) == FetchingIds(s) - {id} && t.retryQueue == s.retryQueue + [s.started[id]]
    requires t.started == s.started && t.outcome == s.outcome && t.nextHeight == s.nextHeight
    ensures Covered(c, t)
  {
    forall h | BeingFetched(s, h) && h != s.started[id] ensures BeingFetched(t, h) {
      var i :| i in FetchingIds(s) && i < |s.started| && s.started[i] == h;
      assert i in FetchingIds(t) && t.started[i] == h;
    }
  }

  lemma RetryKeepsPlaces(c: Config, s: State, id: nat)
    requires Inv(c, s) && Enabled(s, FetchFail(id))
    requires Attempts(s, s.started[id]) + 1 <= c.maxRetries
    ensures var t := CountFailure(c, s, id, s.started[id]);
            Bounds(c, t) && Unsettled(c, t) && Covered(c, t)
  {
    var t := CountFailure(c, s, id, s.started[id]);
    assert FetchingIds(t) == FetchingIds(s) - {id};
    assert t.phases.Keys == s.phases.Keys;
    RetryKeepsUnsettled(c, s, t, id);
    RetryKeepsCovered(c, s, t, id);
  }

  lemma FetchFailKeeps(c: Config, s: State, id: nat)
    requires Inv(c, s) && Enabled(s, FetchFail(id))
    ensures InvMid(c, CountFailure(c, s, id, s.started[id]))
  {
    var t := CountFailure(c, s, id, s.started[id]);
    FailureCounted(c, s, id);
    if Attempts(s, s.started[id]) + 1 <= c.maxRetries {
      RetryKeepsPlaces(c, s, id);
      OneWriterFrame(s, t);
    } else {
      GiveUpKeeps(c, s, id);
    }
  }

  lemma GiveUpKeeps(c: Config, s: State, id: nat)
    requires Inv(c, s) && Enabled(s, FetchFail(id)) && Attempts(s, s.started[id]) + 1 > c.maxRetries
    ensures var t := CountFailure(c, s, id, s.started[id]);
            Bounds(c, t) && Unsettled(c, t) && Covered(c, t) && ReadyAhead(c, t) && OneWriter(t) && WrittenInOrder(c, t)
  {
    var t := CountFailure(c, s, id, s.started[id]);
    SettleKeepsPlaces(c, s, id, GaveUp);
    SettleKeepsOrder(c, s, id, GaveUp);
    var u := Settle(s, id, s.started[id], GaveUp);
    assert t == u.(attempts := t.attempts);
    AttemptsFrame(c, u, t.attempts);
  }

  /** Only the retry count looks at the attempts. */
  lemma AttemptsFrame(c: Config, s: State, attempts: map<int, int>)
    requires Bounds(c, s) && Unsettled(c, s) && Covered(c, s) && ReadyAhead(c, s) && OneWriter(s) && WrittenInOrder(c, s)
    ensures var t := s.(attempts := attempts);
            Bounds(c, t) && Unsettled(c, t) && Covered(c, t) && ReadyAhead(c, t) && OneWriter(t) && WrittenInOrder(c, t)
  {
    var t := s.(attempts := attempts);
    assert FetchingIds(t) == FetchingIds(s);
    PlacesFrame(c, s, t);
    OneWriterFrame(s, t);
  }

  lemma WriteDoneKeepsOrder(c: Config, s: State, id: nat)
    requires ReadyAhead(c, s) && OneWriter(s) && WrittenInOrder(c, s) && c.from <= s.nextToFlush
    requires id in WriterIds(s)
    ensures var t := Advance(s.(phases := s.phases[id := Returned]));
            ReadyAhead(c, t) && OneWriter(t) && WrittenInOrder(c, t)
  {
    var t := Advance(s.(phases := s.phases[id := Returned]));
    assert WriterIds(s) == {id};
    assert WriterIds(t) == WriterIds(s) - {id};
    assert !Taken(t);
    assert SequentialWrites(t.outcome, c.from, t.nextToFlush) == s.written;
  }

  lemma WriteDoneKeeps(c: Config, s: State, id: nat)
    requires Inv(c, s) && Enabled(s, WriteDone(id))
    ensures InvMid(c, Advance(s.(phases := s.phases[id := Returned])))
  {
    var t := Advance(s.(phases := s.phases[id := Returned]));
    assert id in WriterIds(s);
    assert FetchingIds(t) == FetchingIds(s);
    assert t.phases.Keys == s.phases.Keys;
    WriteDoneKeepsOrder(c, s, id);
    CountedFrame(c, s, t);
    PlacesFrame(c, s, t);
  }

  // ------------------------------------------------------------------ the other events

  lemma FinishKeepsBounds(c: Config, s: State, id: nat)
    requires Bounds(c, s) && InPhase(s, id, Returned)
    ensures Bounds(c, FinishCall(c, s, id))
    ensures FetchingIds(FinishCall(c, s, id)) == FetchingIds(s)
  {
    assert FinishCall(c, s, id).phases.Keys == s.phases.Keys - {id};
  }

  lemma FinishKeepsLive(c: Config, s: State, id: nat)
    requires Bounds(c, s) && Live(c, s) && InPhase(s, id, Returned)
    ensures Live(c, FinishCall(c, s, id))
  {
    var t := FinishCall(c, s, id);
    assert t.phases.Keys == s.phases.Keys - {id};
    assert t.phases == map[] <==> |t.phases| == 0;
    assert |t.phases| == s.inFlight - 1;
  }

  lemma FinishKeeps(c: Config, s: State, id: nat)
    requires Inv(c, s) && Enabled(s, Finish(id))
    ensures Inv(c, FinishCall(c, s, id))
  {
    FinishKeepsBounds(c, s, id);
    FinishKeepsLive(c, s, id);
    InvMidFrame(c, s, FinishCall(c, s, id));
  }

  lemma TakeImmediateKeeps(c: Config, s: State)
    requires Inv(c, s) && s.immediates > 0
    ensures InvMid(c, s.(immediates := s.immediates - 1))
  {
    var t := s.(immediates := s.immediates - 1);
    assert FetchingIds(t) == FetchingIds(s);
    InvMidFrame(c, s, t);
  }

  lemma RunImmediateKeeps(c: Config, s: State)
    requires Inv(c, s) && Enabled(s, RunImmediate)
    ensures Inv(c, Next(c, s, RunImmediate))
  {
    TakeImmediateKeeps(c, s);
    SpawnLoopKeeps(c, s.(immediates := s.immediates - 1));
  }

  lemma InitInv(c: Config)
    ensures Inv(c, Init(c))
  {
    var s := Start(c);
    assert FetchingIds(s) == {} && WriterIds(s) == {};
    SpawnLoopKeeps(c, s);
  }

  predicate Settling(e: Event) { e.FetchOk? || e.FetchFail? || e.WriteDone? }

  lemma BeforeFlushKeeps(c: Config, s: State, e: Event)
    requires Inv(c, s) && Enabled(s, e) && Settling(e)
    ensures InvMid(c, BeforeFlush(c, s, e)) && InPhase(BeforeFlush(c, s, e), e.id, Returned)
  {
    match e {
      case FetchOk(id, block) => FetchOkKeeps(c, s, id, block);
      case FetchFail(id) => FetchFailKeeps(c, s, id);
      case WriteDone(id) => WriteDoneKeeps(c, s, id);
    }
  }

  /** The part of a settling event that its flush loop leaves alone. */
  lemma FlushLeavesOutside(c: Config, s: State, e: Event)
    requires Inv(c, s) && Enabled(s, e) && Settling(e)
    ensures SameOutside(BeforeFlush(c, s, e), Next(c, s, e))
  {
    BeforeFlushKeeps(c, s, e);
    FlushLoopKeeps(c, BeforeFlush(c, s, e), e.id);
  }

  lemma SettlingKeepsLive(c: Config, s: State, e: Event)
    requires Live(c, s) && Enabled(s, e) && Settling(e) && SameOutside(BeforeFlush(c, s, e), Next(c, s, e))
    ensures Live(c, Next(c, s, e))
  {
    assert e.id in BeforeFlush(c, s, e).phases;
    assert e.id in Next(c, s, e).phases.Keys;
    assert s.phases != map[];
  }

  /** Every event keeps the invariant, whatever the interleaving. */
  lemma NextInv(c: Config, s: State, e: Event)
    requires Inv(c, s) && Enabled(s, e)
    ensures Inv(c, Next(c, s, e))
  {
    match e
    case Finish(id) => FinishKeeps(c, s, id);
    case RunImmediate => RunImmediateKeeps(c, s);
    case _ =>
      BeforeFlushKeeps(c, s, e);
      FlushLoopKeeps(c, BeforeFlush(c, s, e), e.id);
      SettlingKeepsLive(c, s, e);
  }

  lemma {:induction false} RunInv(c: Config, s: State, es: seq<Event>)
    requires Inv(c, s) && ValidRun(c, s, es)
    ensures Inv(c, Run(c, s, es))
    decreases |es|
  {
    if es != [] {
      NextInv(c, s, es[0]);
      RunInv(c, Next(c, s, es[0]), es[1..]);
    }
  }
}
