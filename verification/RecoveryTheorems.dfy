/** What the indexer guarantees over any number of process lives, each of them killed at any point. */
module RecoveryTheorems {
  import opened Blocks
  import opened Sequences
  import opened Database
  import opened Extraction
  import opened Persistence
  import opened Acceptance
  import opened Sink
  import opened Pipeline
  import opened PipelineInvariant
  import opened PipelineTheorems
  import opened Recovery
  import opened RecoveryInvariant
  import opened RecoverySteps
  import opened EventIndex

  /** The boots of a run resume unless nothing is recorded yet; each brings its own thresholds and settings. */
  lemma Reached(es: seq<WorldEvent>)
    requires ValidWorldRun(FRESH, es) && AllResume(FRESH, es)
    ensures WorldInv(WorldRun(FRESH, es))
  {
    FreshInv();
    WorldRunInv(FRESH, es);
  }

  lemma {:induction false} AnyRunInv(w: World, es: seq<WorldEvent>)
    requires AnyInv(w) && ValidWorldRun(w, es)
    ensures AnyInv(WorldRun(w, es))
    decreases |es|
  {
    if es != [] {
      AnyNextInv(w, es[0]);
      AnyRunInv(WorldNext(w, es[0]), es[1..]);
    }
  }

  // ------------------------------------------------------------------ what is committed

  lemma StoredByCover(first: int, until: int, bs: seq<Block>, skips: set<int>, h: int)
    requires Covers(first, until, bs, skips)
    ensures BlockKey(h) in PersistBlocks(map[], bs) <==> first <= h < until && h !in skips
  {
    StoredHeights(bs, h);
    if i :| 0 <= i < |bs| && bs[i].height == h { assert h in Heights(bs); }
    if h in Heights(bs) {
      var b :| b in bs && b.height == h;
      var i :| 0 <= i < |bs| && bs[i] == b;
      assert bs[i].height == h;
    }
  }

  /**
   Crash recovery. Whatever the interleaving of fetches, failures, writes and flushes, and wherever the
   processes were killed, the committed heights are those from the origin to the recorded progress, but for
   the given-up ones; the progress row never runs ahead of the data.
   */
  lemma CrashRecovery(es: seq<WorldEvent>, h: int)
    requires ValidWorldRun(FRESH, es) && AllResume(FRESH, es)
    ensures var w := WorldRun(FRESH, es);
            && (BlockKey(h) in w.db <==> w.progress.Some? && w.origin <= h <= w.progress.value && h !in w.skipped)
            && (w.progress.Some? ==> BlockKey(w.progress.value) in w.db)
            && w.db == PersistBlocks(map[], w.log) && Ascending(w.log)
  {
    Reached(es);
    var w := WorldRun(FRESH, es);
    StoredByCover(w.origin, ResumePoint(w.progress, w.origin), w.log, w.skipped, h);
    if w.log != [] { BlockStored(map[], w.log, |w.log| - 1); }
  }

  /** In every run, resuming or not, the committed database is that of the committed blocks one by one. */
  lemma StoredIsLog(es: seq<WorldEvent>)
    requires ValidWorldRun(FRESH, es)
    ensures WorldRun(FRESH, es).db == PersistBlocks(map[], WorldRun(FRESH, es).log)
  {
    StoredRunInv(FRESH, es);
  }

  /** No committed state of any run holds part of a block. */
  lemma CommittedBlocksAreWhole(es: seq<WorldEvent>, k: Key)
    requires ValidWorldRun(FRESH, es) && k in WorldRun(FRESH, es).db
    ensures var w := WorldRun(FRESH, es);
            exists i :: 0 <= i < |w.log| && BlockKey(w.log[i].height) in w.db &&
              (k == BlockKey(w.log[i].height) ||
               exists j :: 0 <= j < |w.log[i].txs| && HangsOn(k, w.log[i].height, w.log[i].txs[j].hash) &&
                           TxKey(w.log[i].height, w.log[i].txs[j].hash) in w.db)
  {
    StoredIsLog(es);
    NoPartialBlocks(WorldRun(FRESH, es).log, k);
  }

  /** In every committed state of any run, also one that indexes blocks again, the attribute index agrees with the events. */
  lemma CommittedIndexAgrees(es: seq<WorldEvent>, hash: string, m: int, e: int, key: string)
    requires ValidWorldRun(FRESH, es)
    requires SameTxs(WorldRun(FRESH, es).log) && DistinctAllLogs(WorldRun(FRESH, es).log)
    ensures Agrees(WorldRun(FRESH, es).db, hash, m, e, key)
  {
    StoredIsLog(es);
    IndexAgreement(WorldRun(FRESH, es).log, hash, m, e, key);
  }

  /**
   The row array that a flush is about to replace by an empty one holds exactly the rows that the flush
   has read and inserted: nobody pushes while a flush is suspended, so no buffered row is dropped. This needs
   no resuming: it holds for processes that start at any height.
   */
  lemma NothingPushedDuringFlush(es: seq<WorldEvent>, id: int)
    requires ValidWorldRun(FRESH, es)
    requires var w := WorldRun(FRESH, es);
             w.process.Some? && id in w.process.value.flights && w.process.value.flights[id].Executing?
    ensures var r := WorldRun(FRESH, es).process.value;
            && r.flights[id].table < |ORDER| && r.buf.Of(ORDER[r.flights[id].table]) == r.flights[id].rows
            && r.flights.Keys == {id}
  {
    AnyRunInv(FRESH, es);
    var w := WorldRun(FRESH, es);
    var r := w.process.value;
    PositionOf(r.flights[id].table);
    assert StageInv(w.db, r.buf, Pending(r), r.flights[id]);
    forall i | i in r.flights ensures i == id { OnlyFlight(r, i, id); }
  }

  /** A range that is done, with nothing left to flush, is stored to its end. */
  lemma DrainedRangeIsStored(w: World, r: Process, h: int)
    requires WorldInv(w) && w.process == Some(r)
    requires r.p.resolves == 1 && r.flights == map[] && AllEmpty(r.buf)
    ensures BlockKey(h) in w.db <==> w.origin <= h <= r.cfg.to && h !in Below(w.skipped, r.start) + Skips(r)
  {
    EmptyMeansNoBlocks(r.buf, Pending(r));
    assert Pending(r) == [];
    RangeCovered(r);
    DrainedCovers(w, r);
    StoredByCover(w.origin, r.cfg.to + 1, w.log, Below(w.skipped, r.start) + Skips(r), h);
  }

  lemma DrainedCovers(w: World, r: Process)
    requires Continues(w, r) && Pending(r) == [] && Covers(r.start, r.cfg.to + 1, Written(r), Skips(r))
    ensures Covers(w.origin, r.cfg.to + 1, w.log, Below(w.skipped, r.start) + Skips(r))
  {
    assert w.log == r.base + Written(r);
    CoversConcat(w.origin, r.start, r.cfg.to + 1, r.base, Below(w.skipped, r.start), Written(r), Skips(r));
  }

  lemma StageRefuses(db: Db, r: Process, id: int, statements: seq<seq<Row>>, b: Block)
    requires r.flushed <= |Written(r)| && id in r.flights && r.flights[id].Executing?
    requires StageInv(db, r.buf, Pending(r), r.flights[id])
    requires b in Pending(r) && !CompleteFor(b, ORDER[r.flights[id].table])
    ensures !StepEnabled(r, id, statements)
  {
    if StepEnabled(r, id, statements) {
      IncompleteRefused(r.flights[id].work, Pending(r), b, ORDER[r.flights[id].table], statements);
    }
  }

  /** The flush of this process has come to a table for which a block that it holds misses a column. */
  ghost predicate AtIncomplete(r: Process, id: int, b: Block) {
    && r.flushed <= |Written(r)| && b in Pending(r)
    && id in r.flights && r.flights[id].Executing?
    && r.flights[id].table < |ORDER| && !CompleteFor(b, ORDER[r.flights[id].table])
  }

  lemma ProcessRefuses(w: World, r: Process, id: int, statements: seq<seq<Row>>, b: Block)
    requires ProcessInv(w, r) && AtIncomplete(r, id, b)
    ensures !StepEnabled(r, id, statements)
  {
    StageRefuses(w.db, r, id, statements, b);
  }

  /** There the flush stops for good, however its rows are split into statements: only the kill is left to it. */
  lemma IncompleteBlockStopsRun(es: seq<WorldEvent>, r: Process, id: int, statements: seq<seq<Row>>, b: Block)
    requires ValidWorldRun(FRESH, es) && WorldRun(FRESH, es).process == Some(r) && AtIncomplete(r, id, b)
    ensures !WorldEnabled(WorldRun(FRESH, es), SinkStep(id, statements))
  {
    AnyRunInv(FRESH, es);
    ProcessRefuses(WorldRun(FRESH, es), r, id, statements, b);
  }

  // ------------------------------------------------------------------ progress

  lemma StepKeepsStored(w: World, e: WorldEvent)
    requires WorldEnabled(w, e)
    ensures w.log <= WorldNext(w, e).log && w.skipped <= WorldNext(w, e).skipped
    ensures w.progress.Some? ==> WorldNext(w, e).progress.Some? && WorldNext(w, e).origin == w.origin
  {
  }

  /** Along every run, whatever heights its boots are given, what is committed stays. */
  lemma {:induction false} StoredForever(w: World, es: seq<WorldEvent>)
    requires ValidWorldRun(w, es)
    ensures var w1 := WorldRun(w, es);
            && w.log <= w1.log && w.skipped <= w1.skipped
            && (w.progress.Some? ==> w1.progress.Some? && w1.origin == w.origin)
    decreases |es|
  {
    if es != [] {
      StepKeepsStored(w, es[0]);
      StoredForever(WorldNext(w, es[0]), es[1..]);
    }
  }

  /** If no boot starts below the recorded height, the recorded height only grows. */
  lemma {:induction false} ProgressNeverDecreases(w: World, es: seq<WorldEvent>)
    requires AheadInv(w) && ValidWorldRun(w, es) && AllStartAhead(w, es)
    ensures w.progress.Some? ==> WorldRun(w, es).progress.Some? && w.progress.value <= WorldRun(w, es).progress.value
    decreases |es|
  {
    if es != [] {
      AheadNextInv(w, es[0]);
      ProgressNeverDecreases(WorldNext(w, es[0]), es[1..]);
    }
  }

  /** A run whose boots resume is one of these. */
  lemma {:induction false} ResumingStartsAhead(w: World, es: seq<WorldEvent>)
    requires ValidWorldRun(w, es) && AllResume(w, es)
    ensures AllStartAhead(w, es)
    decreases |es|
  {
    if es != [] { ResumingStartsAhead(WorldNext(w, es[0]), es[1..]); }
  }

  /** In particular along every run whose boots resume. */
  lemma ResumingNeverDecreases(es: seq<WorldEvent>, rest: seq<WorldEvent>)
    requires ValidWorldRun(FRESH, es) && AllResume(FRESH, es)
    requires var w := WorldRun(FRESH, es);
             w.progress.Some? && ValidWorldRun(w, rest) && AllResume(w, rest)
    ensures var w, w1 := WorldRun(FRESH, es), WorldRun(WorldRun(FRESH, es), rest);
            w1.progress.Some? && w.progress.value <= w1.progress.value
  {
    Reached(es);
    var w := WorldRun(FRESH, es);
    ContinuesAhead(w);
    ResumingStartsAhead(w, rest);
    ProgressNeverDecreases(w, rest);
  }

  // ------------------------------------------------------------------ skipped heights

  /** The running pipeline has used up every attempt at height `h`. */
  predicate ExhaustedAt(w: World, h: int) {
    w.process.Some? && h in GivenUp(w.process.value.p) &&
    Attempts(w.process.value.p, h) == Retries(w.process.value.cfg) + 1
  }

  predicate EverExhausted(w: World, es: seq<WorldEvent>, h: int)
    requires ValidWorldRun(w, es)
    decreases |es|
  {
    ExhaustedAt(w, h) || (es != [] && EverExhausted(WorldNext(w, es[0]), es[1..], h))
  }

  predicate PassedOver(w: World, h: int) { h in w.skipped || (w.process.Some? && h in w.process.value.earlierSkips) }

  lemma PassedOnlyWhenExhausted(w: World, e: WorldEvent, h: int)
    requires AnyInv(w) && WorldEnabled(w, e) && PassedOver(WorldNext(w, e), h) && !PassedOver(w, h)
    ensures ExhaustedAt(w, h)
  {
    var r := w.process.value;
    assert h in GivenUp(r.p);
    assert Counted(r.cfg, r.p);
    assert Attempts(r.p, h) == Retries(r.cfg) + 1;
  }

  /** In every run a height is left out only if some process failed at it once more than it may retry. */
  lemma {:induction false} SkippedWasExhausted(w: World, es: seq<WorldEvent>, h: int)
    requires AnyInv(w) && ValidWorldRun(w, es)
    requires PassedOver(WorldRun(w, es), h) && !PassedOver(w, h)
    ensures EverExhausted(w, es, h)
    decreases |es|
  {
    var w1 := WorldNext(w, es[0]);
    if PassedOver(w1, h) {
      PassedOnlyWhenExhausted(w, es[0], h);
    } else {
      AnyNextInv(w, es[0]);
      SkippedWasExhausted(w1, es[1..], h);
    }
  }

  // ------------------------------------------------------------------ one chain, one database

  /** The blocks of [from, until) but for the skipped heights, in order. */
  function SequentialLog(chain: int -> Block, from: int, until: int, skips: set<int>): seq<Block>
    decreases until - from
  {
    if until <= from then []
    else SequentialLog(chain, from, until - 1, skips) + (if until - 1 in skips then [] else [chain(until - 1)])
  }

  predicate FromChain(chain: int -> Block, bs: seq<Block>) { forall b :: b in bs ==> b == chain(b.height) }

  /** A cover of blocks of one chain is its sequential log. */
  lemma {:induction false} CoverIsSequential(chain: int -> Block, from: int, until: int, bs: seq<Block>, skips: set<int>)
    requires Covers(from, until, bs, skips) && FromChain(chain, bs)
    ensures bs == SequentialLog(chain, from, until, skips)
    decreases until - from
  {
    if until == from {
      assert forall i :: 0 <= i < |bs| ==> bs[i].height in Heights(bs);
      assert bs == [];
    } else {
      var front := if until - 1 in skips then bs else bs[..|bs| - 1];
      if until - 1 in skips {
        ShorterCover(from, until, bs, skips);
      } else {
        LastOfCover(from, until, bs, skips);
        assert bs == front + [bs[|bs| - 1]];
      }
      CoverIsSequential(chain, from, until - 1, front, Below(skips, until - 1));
      SkipsBelow(chain, from, until - 1, skips);
    }
  }

  lemma ShorterCover(from: int, until: int, bs: seq<Block>, skips: set<int>)
    requires Covers(from, until, bs, skips) && from < until && until - 1 in skips
    ensures Covers(from, until - 1, bs, Below(skips, until - 1))
  {
  }

  lemma AscendingFront(bs: seq<Block>)
    requires Ascending(bs) && bs != []
    ensures var front, last := bs[..|bs| - 1], bs[|bs| - 1].height;
            && Ascending(front) && Heights(bs) == Heights(front) + {last}
            && forall h :: h in Heights(front) ==> h < last
  {
    var front, b := bs[..|bs| - 1], bs[|bs| - 1];
    assert bs == front + [b];
    HeightsConcat(front, [b]);
    assert Heights([b]) == {b.height} by { assert b in [b]; }
    forall h | h in Heights(front) ensures h < b.height {
      var x :| x in front && x.height == h;
      var i :| 0 <= i < |front| && front[i] == x;
      assert bs[i].height < bs[|bs| - 1].height;
    }
  }

  lemma LastOfCover(from: int, until: int, bs: seq<Block>, skips: set<int>)
    requires Covers(from, until, bs, skips) && from < until && until - 1 !in skips
    ensures bs != [] && bs[|bs| - 1].height == until - 1
    ensures Covers(from, until - 1, bs[..|bs| - 1], Below(skips, until - 1))
  {
    assert until - 1 in Heights(bs);
    AscendingFront(bs);
    var front := bs[..|bs| - 1];
    assert bs[|bs| - 1].height in Heights(bs);
    FrontCovers(from, until, Heights(bs), Heights(front), bs[|bs| - 1].height, skips);
  }

  lemma FrontCovers(from: int, until: int, all: set<int>, front: set<int>, last: int, skips: set<int>)
    requires from < until && until - 1 !in skips && all !! skips && all == front + {last}
    requires forall h :: h in all || h in skips <==> from <= h < until
    requires forall h :: h in front ==> h < last
    ensures last == until - 1 && front !! Below(skips, until - 1)
    ensures forall h :: h in front || h in Below(skips, until - 1) <==> from <= h < until - 1
  {
    assert last in all;
    assert until - 1 in all;
  }

  lemma {:induction false} SkipsBelow(chain: int -> Block, from: int, until: int, skips: set<int>)
    ensures SequentialLog(chain, from, until, Below(skips, until)) == SequentialLog(chain, from, until, skips)
    decreases until - from
  {
    if from < until {
      SkipsBelow(chain, from, until - 1, skips);
      SkipsBelow(chain, from, until - 1, Below(skips, until));
      assert Below(Below(skips, until), until - 1) == Below(skips, until - 1);
    }
  }

  /** Every fetch of the run delivered the block of one chain. */
  predicate FetchesFrom(chain: int -> Block, es: seq<WorldEvent>) {
    forall e :: e in es ==> e.Pipe? && e.e.FetchOk? ==> e.e.block == chain(e.e.block.height)
  }

  predicate SettledFrom(chain: int -> Block, s: State) {
    forall h :: h in s.outcome && s.outcome[h].Assembled? ==> s.outcome[h].block == chain(s.outcome[h].block.height)
  }

  ghost predicate WorldFrom(chain: int -> Block, w: World) {
    && FromChain(chain, w.log)
    && (w.process.Some? ==> FromChain(chain, w.process.value.earlier) && SettledFrom(chain, w.process.value.p))
  }

  lemma WrittenFrom(chain: int -> Block, c: Config, s: State)
    requires Inv(c, s) && SettledFrom(chain, s)
    ensures FromChain(chain, s.written)
  {
    WrittenUpToFrontier(c, s);
  }

  lemma BeforeFlushFrom(chain: int -> Block, c: Config, s: State, e: Event)
    requires Enabled(s, e) && Settling(e) && SettledFrom(chain, s)
    requires e.FetchOk? ==> e.block == chain(e.block.height)
    ensures SettledFrom(chain, BeforeFlush(c, s, e))
  {
  }

  lemma PipeFrom(chain: int -> Block, c: Config, s: State, e: Event)
    requires Inv(c, s) && Enabled(s, e) && SettledFrom(chain, s)
    requires e.FetchOk? ==> e.block == chain(e.block.height)
    ensures SettledFrom(chain, Next(c, s, e))
  {
    if Settling(e) {
      FlushLeavesOutside(c, s, e);
      BeforeFlushFrom(chain, c, s, e);
      assert Next(c, s, e).outcome == BeforeFlush(c, s, e).outcome;
    } else {
      OtherFrom(chain, c, s, e);
    }
  }

  lemma OtherFrom(chain: int -> Block, c: Config, s: State, e: Event)
    requires Enabled(s, e) && !Settling(e) && SettledFrom(chain, s)
    ensures SettledFrom(chain, Next(c, s, e))
  {
    if e.RunImmediate? { SpawnLoopWrites(c, s.(immediates := s.immediates - 1)); }
  }

  lemma InitFrom(chain: int -> Block, c: Config)
    ensures SettledFrom(chain, Init(c))
  {
    SpawnLoopWrites(c, Start(c));
  }

  lemma StepFrom(chain: int -> Block, w: World, r: Process, id: int, statements: seq<seq<Row>>)
    requires w.process == Some(r) && StepEnabled(r, id, statements) && WorldFrom(chain, w) && FromChain(chain, r.p.written)
    ensures WorldFrom(chain, SinkStepResult(w, r, id, statements))
  {
    if r.flights[id].Committing? {
      assert forall b :: b in Written(r) ==> b in r.earlier || b in r.p.written;
    } else {
      StepFrame(w, r, id, statements);
      assert SinkStepResult(w, r, id, statements).log == w.log;
    }
  }

  lemma StartRangeFrom(chain: int -> Block, r: Process, cfg: Config)
    requires FromChain(chain, r.earlier) && FromChain(chain, r.p.written)
    ensures FromChain(chain, StartRange(r, cfg).earlier) && SettledFrom(chain, StartRange(r, cfg).p)
  {
    InitFrom(chain, cfg);
  }

  lemma PipeStepFrom(chain: int -> Block, r: Process, e: Event)
    requires Enabled(r.p, e) && FromChain(chain, r.earlier) && SettledFrom(chain, Next(r.cfg, r.p, e))
    ensures FromChain(chain, PipeStep(r, e).earlier) && SettledFrom(chain, PipeStep(r, e).p)
  {
  }

  /** What a pipeline event needs of the chain. */
  lemma PipeNextFrom(chain: int -> Block, w: World, r: Process, e: Event)
    requires w.process == Some(r) && WorldEnabled(w, Pipe(e)) && WorldFrom(chain, w) && Inv(r.cfg, r.p)
    requires e.FetchOk? ==> e.block == chain(e.block.height)
    ensures WorldFrom(chain, WorldNext(w, Pipe(e)))
  {
    PipeFrom(chain, r.cfg, r.p, e);
    PipeStepFrom(chain, r, e);
    assert WorldNext(w, Pipe(e)) == w.(process := Some(PipeStep(r, e)));
  }

  lemma RangeNextFrom(chain: int -> Block, w: World, r: Process, e: WorldEvent)
    requires w.process == Some(r) && e.NextRange? && WorldEnabled(w, e) && WorldFrom(chain, w)
    requires FromChain(chain, r.p.written)
    ensures WorldFrom(chain, WorldNext(w, e))
  {
    var cfg := Config(r.cfg.to + 1, e.to, e.concurrency, e.maxRetries);
    StartRangeFrom(chain, r, cfg);
    assert WorldNext(w, e) == w.(process := Some(StartRange(r, cfg)));
  }

  lemma NextFrom(chain: int -> Block, w: World, e: WorldEvent)
    requires AnyInv(w) && WorldEnabled(w, e) && WorldFrom(chain, w)
    requires e.Pipe? && e.e.FetchOk? ==> e.e.block == chain(e.e.block.height)
    ensures WorldFrom(chain, WorldNext(w, e))
  {
    if w.process.Some? { WrittenFrom(chain, w.process.value.cfg, w.process.value.p); }
    match e
    case Boot(_, from, to, concurrency, maxRetries) => InitFrom(chain, Config(from, to, concurrency, maxRetries));
    case NextRange(_, _, _) => RangeNextFrom(chain, w, w.process.value, e);
    case Pipe(pe) => PipeNextFrom(chain, w, w.process.value, pe);
    case FinalFlush =>
    case SinkStep(id, statements) => StepFrom(chain, w, w.process.value, id, statements);
    case Kill =>
  }

  lemma {:induction false} RunFrom(chain: int -> Block, w: World, es: seq<WorldEvent>)
    requires AnyInv(w) && ValidWorldRun(w, es) && WorldFrom(chain, w) && FetchesFrom(chain, es)
    ensures WorldFrom(chain, WorldRun(w, es))
    decreases |es|
  {
    if es != [] {
      assert es[0] in es;
      assert FetchesFrom(chain, es[1..]);
      NextFrom(chain, w, es[0]);
      AnyNextInv(w, es[0]);
      RunFrom(chain, WorldNext(w, es[0]), es[1..]);
    }
  }

  /**
   Crashes leave no trace: the committed database is the one that indexing the chain block by block, once
   and in order, from the origin to the recorded height, would have left without the skipped heights.
   */
  lemma CrashesLeaveNoTrace(chain: int -> Block, es: seq<WorldEvent>)
    requires ValidWorldRun(FRESH, es) && AllResume(FRESH, es) && FetchesFrom(chain, es)
    ensures var w := WorldRun(FRESH, es);
            w.db == PersistBlocks(map[], SequentialLog(chain, w.origin, ResumePoint(w.progress, w.origin), w.skipped))
  {
    Reached(es);
    RunFrom(chain, FRESH, es);
    var w := WorldRun(FRESH, es);
    CoverIsSequential(chain, w.origin, ResumePoint(w.progress, w.origin), w.log, w.skipped);
  }
  /** The heights of [from, until) that `bs` leaves out. */
  function Missing(bs: seq<Block>, from: int, until: int): set<int> { set h | from <= h < until && h !in Heights(bs) }

  lemma {:induction false} InSequentialLog(chain: int -> Block, from: int, until: int, skips: set<int>, b: Block)
    ensures b in SequentialLog(chain, from, until, skips) <==> exists h :: from <= h < until && h !in skips && b == chain(h)
    decreases until - from
  {
    if from < until {
      InSequentialLog(chain, from, until - 1, skips, b);
      if until - 1 !in skips && b == chain(until - 1) { assert b in SequentialLog(chain, from, until, skips); }
    }
  }

  /** The committed blocks are those of the list that goes through their heights in order. */
  lemma SameAsInOrder(chain: int -> Block, bs: seq<Block>, from: int, until: int, b: Block)
    requires FromChain(chain, bs) && forall h :: h in Heights(bs) ==> from <= h < until
    ensures b in bs <==> b in SequentialLog(chain, from, until, Missing(bs, from, until))
  {
    InSequentialLog(chain, from, until, Missing(bs, from, until), b);
    if b in bs { assert b.height in Heights(bs) && b == chain(b.height); }
    if h :| from <= h < until && h !in Missing(bs, from, until) && b == chain(h) {
      var c :| c in bs && c.height == h;
      assert c == b;
    }
  }

  /** No transaction hash occurs in blocks of different heights. */
  ghost predicate HashesApart(chain: int -> Block) {
    forall g, h :: SharesHash(chain(g), chain(h)) ==> chain(g).height == chain(h).height
  }

  lemma LogIsOneChain(chain: int -> Block, bs: seq<Block>)
    requires FromChain(chain, bs) && HashesApart(chain)
    ensures OneChain(bs)
  {
    forall b, c | b in bs && c in bs && SharesHash(b, c) ensures b.height == c.height {
      assert b == chain(b.height) && c == chain(c.height);
      assert SharesHash(chain(b.height), chain(c.height));
    }
  }

  /**
   Starting over leaves no trace either: after any run, with processes told to start anywhere, below what is
   recorded or behind a gap, the committed database is the one that indexing the committed heights once and in
   order would have left.
   */
  lemma RestartsLeaveNoTrace(chain: int -> Block, es: seq<WorldEvent>, from: int, until: int)
    requires ValidWorldRun(FRESH, es) && FetchesFrom(chain, es) && HashesApart(chain)
    requires forall h :: h in Heights(WorldRun(FRESH, es).log) ==> from <= h < until
    ensures var w := WorldRun(FRESH, es);
            w.db == PersistBlocks(map[], SequentialLog(chain, from, until, Missing(w.log, from, until)))
  {
    var w := WorldRun(FRESH, es);
    StoredIsLog(es);
    RunFrom(chain, FRESH, es);
    LogIsOneChain(chain, w.log);
    var ordered := SequentialLog(chain, from, until, Missing(w.log, from, until));
    forall b ensures b in w.log <==> b in ordered { SameAsInOrder(chain, w.log, from, until, b); }
    SameBlocksSameDb(w.log, ordered);
  }
}
