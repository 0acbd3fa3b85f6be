/** What every reachable state of the whole indexer satisfies. */
module RecoveryInvariant {
  import opened Blocks
  import opened Sequences
  import opened Database
  import opened Extraction
  import opened Persistence
  import opened Sink
  import opened Pipeline
  import opened PipelineInvariant
  import opened PipelineTheorems
  import opened Recovery

  function Heights(bs: seq<Block>): set<int> { set b | b in bs :: b.height }

  function Below(s: set<int>, n: int): set<int> { set h | h in s && h < n }

  ghost predicate Ascending(bs: seq<Block>) { forall i, j :: 0 <= i < j < |bs| ==> bs[i].height < bs[j].height }

  /** Blocks and skipped heights together are exactly [from, until); the blocks ascend. */
  ghost predicate Covers(from: int, until: int, bs: seq<Block>, skips: set<int>) {
    && from <= until
    && Ascending(bs)
    && (forall h :: h in Heights(bs) || h in skips <==> from <= h < until)
    && Heights(bs) !! skips
  }

  lemma CoversNothing(from: int)
    ensures Covers(from, from, [], {})
  {
  }

  lemma HeightsConcat(a: seq<Block>, b: seq<Block>)
    ensures Heights(a + b) == Heights(a) + Heights(b)
  {
  }

  lemma CoversConcat(from: int, mid: int, until: int, a: seq<Block>, s: set<int>, b: seq<Block>, t: set<int>)
    requires Covers(from, mid, a, s) && Covers(mid, until, b, t)
    ensures Covers(from, until, a + b, s + t)
  {
    HeightsConcat(a, b);
    forall i, j | 0 <= i < j < |a + b| ensures (a + b)[i].height < (a + b)[j].height {
      if i < |a| <= j {
        assert a[i].height in Heights(a) && b[j - |a|].height in Heights(b);
      }
    }
  }

  /** Cutting behind the last block of a cover. */
  lemma CoversUpToLast(from: int, until: int, bs: seq<Block>, skips: set<int>)
    requires Covers(from, until, bs, skips) && bs != []
    ensures Covers(from, bs[|bs| - 1].height + 1, bs, Below(skips, bs[|bs| - 1].height + 1))
  {
    var last := bs[|bs| - 1];
    assert last.height in Heights(bs);
    forall h | h in Heights(bs) ensures h <= last.height {
      var b :| b in bs && b.height == h;
      var i :| 0 <= i < |bs| && bs[i] == b;
    }
  }

  lemma PipelineCovers(c: Config, s: State)
    requires Inv(c, s)
    ensures Covers(c.from, Frontier(s), s.written, Below(GivenUp(s), Frontier(s)))
  {
    WrittenUpToFrontier(c, s);
    forall h ensures h in Heights(s.written) || h in Below(GivenUp(s), Frontier(s)) <==> c.from <= h < Frontier(s) {
      if h in Heights(s.written) {
        var b :| b in s.written && b.height == h;
      }
      if c.from <= h < Frontier(s) && s.outcome[h].Assembled? {
        assert s.outcome[h].block in s.written && s.outcome[h].block.height == h;
      }
      if h in GivenUp(s) { assert h in s.outcome; }
    }
    forall h | h in Heights(s.written) ensures h !in GivenUp(s) {
      var b :| b in s.written && b.height == h;
      assert s.outcome[h] == Assembled(b);
    }
  }

  // ------------------------------------------------------------------ the invariant

  /** What is committed: the blocks from the origin to the recorded progress, but for the skipped heights. */
  ghost predicate Durable(w: World) {
    && w.db == PersistBlocks(map[], w.log)
    && w.progress == (if w.log == [] then None else Some(w.log[|w.log| - 1].height))
    && Covers(w.origin, ResumePoint(w.progress, w.origin), w.log, w.skipped)
  }

  /** The earlier ranges of a process are covered, wherever it has started. */
  ghost predicate RangesDone(r: Process) {
    && r.flushed <= |Written(r)|
    && Covers(r.start, r.cfg.from, r.earlier, r.earlierSkips)
  }

  /** A process that has resumed goes on where the committed blocks end. */
  ghost predicate Continues(w: World, r: Process) {
    && r.flushed <= |Written(r)| && w.log == r.base + Written(r)[..r.flushed]
    && Covers(w.origin, r.start, r.base, Below(w.skipped, r.start))
    && (forall h :: h in w.skipped && h >= r.start ==> h in Skips(r))
  }

  /** A process that has started at the recorded height or behind it never goes back. */
  ghost predicate Ahead(w: World, r: Process) {
    w.progress.Some? ==>
      && r.flushed <= |Written(r)|
      && if r.flushed == 0 then w.progress.value <= r.start else w.progress.value == Written(r)[r.flushed - 1].height
  }

  /** At most one sink call is outstanding, and it is that of the writing pipeline call or the runner's flush. */
  ghost predicate OneFlight(r: Process) {
    && (forall id :: id in r.flights ==> (id == RUNNER && r.p.resolves == 1) || id in WriterIds(r.p))
    && (forall id :: id in WriterIds(r.p) ==> id in r.flights)
  }

  /** The arrays of the first `n` tables are empty, the others hold the rows of the pending blocks. */
  ghost predicate FlushedUpTo(buf: Buffers, pending: seq<Block>, n: nat) {
    forall t: Table :: buf.Of(t) == if Position(t) < n then [] else BlocksTable(pending, t)
  }

  ghost predicate StageInv(db: Db, buf: Buffers, pending: seq<Block>, stage: Stage) {
    match stage
    case Connecting => HoldsBlocks(buf, pending) && pending != []
    case Preparing(maxH) => HoldsBlocks(buf, pending) && pending != [] && maxH == pending[|pending| - 1].height
    case Executing(maxH, i, work, rows) =>
      && pending != [] && maxH == pending[|pending| - 1].height && i < |ORDER|
      && FlushedUpTo(buf, pending, i)
      && rows == BlocksTable(pending, ORDER[i])
      && work == ApplyAll(db, Concat(RowsByTable(pending)[..i]))
    case Committing(maxH, work) =>
      && pending != [] && maxH == pending[|pending| - 1].height && buf == NO_ROWS
      && work == PersistBlocks(db, pending)
    case Completed => HoldsBlocks(buf, pending)
  }

  ghost predicate SinkInv(w: World, r: Process)
    requires r.flushed <= |Written(r)|
  {
    && (r.flights == map[] ==> HoldsBlocks(r.buf, Pending(r)))
    && (forall id :: id in r.flights ==> StageInv(w.db, r.buf, Pending(r), r.flights[id]))
  }

  /** What holds of every process, also of one that was told to start in the middle of what is stored. */
  ghost predicate ProcessInv(w: World, r: Process) { Inv(r.cfg, r.p) && RangesDone(r) && OneFlight(r) && SinkInv(w, r) }

  ghost predicate AnyInv(w: World) { w.process.Some? ==> ProcessInv(w, w.process.value) }

  ghost predicate AheadInv(w: World) { AnyInv(w) && (w.process.Some? ==> Ahead(w, w.process.value)) }

  ghost predicate WorldInv(w: World) { Durable(w) && AnyInv(w) && (w.process.Some? ==> Continues(w, w.process.value)) }

  // ------------------------------------------------------------------ what pipeline events do to the writes

  lemma SpawnLoopWrites(c: Config, s: State)
    ensures var t := SpawnLoop(c, s);
            && t.written == s.written && t.outcome == s.outcome && t.resolves == s.resolves
            && t.nextToFlush == s.nextToFlush && t.ready == s.ready
            && ((forall id :: id in s.phases ==> id < |s.started|) ==> WriterIds(t) == WriterIds(s))
    decreases Max(0, c.to + 1 - s.nextHeight) + |s.retryQueue|
  {
    if s.inFlight < c.concurrency && CanSpawn(c, s) {
      var t := SpawnOne(c, s);
      if forall id :: id in s.phases ==> id < |s.started| { assert WriterIds(t) == WriterIds(s); }
      SpawnLoopWrites(c, t);
    }
  }

  /** A flush loop writes nothing, or one block, and that only when no other write is outstanding. */
  ghost predicate WritesAtMostOne(s: State, t: State, id: nat) {
    || (t.written == s.written && WriterIds(t) == WriterIds(s))
    || (WriterIds(s) == {} && WriterIds(t) == {id} && t.phases[id].Writing? && t.written == s.written + [t.phases[id].block])
  }

  lemma FlushLoopWrites(c: Config, s: State, id: nat)
    requires InvMid(c, s) && InPhase(s, id, Returned)
    ensures WritesAtMostOne(s, FlushLoop(s, id), id)
    decreases |s.ready|
  {
    if s.nextToFlush in s.ready {
      var s1 := s.(ready := s.ready - {s.nextToFlush});
      assert s1.ready.Keys == s.ready.Keys - {s.nextToFlush};
      assert WriterIds(s) == {};
      if s.ready[s.nextToFlush].GaveUp? {
        SkipKeeps(c, s);
        assert WriterIds(Advance(s1)) == WriterIds(s);
        FlushLoopWrites(c, Advance(s1), id);
      } else {
        var t := FlushLoop(s, id);
        assert WriterIds(t) == {id};
      }
    }
  }

  /** The writers that a settling event leaves to its flush loop. */
  function Remaining(s: State, e: Event): set<nat>
    requires Settling(e)
  {
    if e.WriteDone? then WriterIds(s) - {e.id} else WriterIds(s)
  }

  lemma SettlingWrites(c: Config, s: State, e: Event)
    requires Inv(c, s) && Enabled(s, e) && Settling(e)
    ensures var t := Next(c, s, e);
            || (t.written == s.written && WriterIds(t) == Remaining(s, e))
            || (Remaining(s, e) == {} && WriterIds(t) == {e.id} && t.phases[e.id].Writing? &&
                t.written == s.written + [t.phases[e.id].block])
    ensures Next(c, s, e).resolves == s.resolves
  {
    BeforeFlushKeeps(c, s, e);
    FlushLeavesOutside(c, s, e);
    FlushLoopWrites(c, BeforeFlush(c, s, e), e.id);
    BeforeFlushWriters(c, s, e);
  }

  lemma BeforeFlushWriters(c: Config, s: State, e: Event)
    requires Enabled(s, e) && Settling(e)
    ensures WriterIds(BeforeFlush(c, s, e)) == Remaining(s, e) && BeforeFlush(c, s, e).written == s.written
  {
  }

  /** Give-ups are never taken back. */
  lemma GivenUpGrows(c: Config, s: State, e: Event)
    requires Inv(c, s) && Enabled(s, e)
    ensures GivenUp(s) <= GivenUp(Next(c, s, e))
  {
    if Settling(e) {
      FlushLeavesOutside(c, s, e);
      BeforeFlushGivesUp(c, s, e);
    } else if e.RunImmediate? {
      SpawnLoopWrites(c, s.(immediates := s.immediates - 1));
    }
  }

  lemma BeforeFlushGivesUp(c: Config, s: State, e: Event)
    requires Inv(c, s) && Enabled(s, e) && Settling(e)
    ensures GivenUp(s) <= GivenUp(BeforeFlush(c, s, e))
  {
    if !e.WriteDone? { FetchedHeight(c, s, e.id); }
  }

  lemma ImmediateWrites(c: Config, s: State)
    requires s.immediates > 0 && forall id :: id in s.phases ==> id < |s.started|
    ensures var t := SpawnLoop(c, s.(immediates := s.immediates - 1));
            t.written == s.written && WriterIds(t) == WriterIds(s) && t.resolves == s.resolves
  {
    var t := s.(immediates := s.immediates - 1);
    assert WriterIds(t) == WriterIds(s);
    SpawnLoopWrites(c, t);
  }

  lemma FinishWrites(c: Config, s: State, id: nat)
    requires InPhase(s, id, Returned)
    ensures var t := FinishCall(c, s, id);
            t.written == s.written && WriterIds(t) == WriterIds(s) && s.resolves <= t.resolves
  {
  }

  lemma OtherWrites(c: Config, s: State, e: Event)
    requires Inv(c, s) && Enabled(s, e) && !Settling(e)
    ensures Next(c, s, e).written == s.written && WriterIds(Next(c, s, e)) == WriterIds(s)
    ensures s.resolves <= Next(c, s, e).resolves
  {
    if e.RunImmediate? { ImmediateWrites(c, s); } else { FinishWrites(c, s, e.id); }
  }
}
