/**
 What a flush achieves: in every run the committed database satisfies the constraints, and a flush of acceptable
 blocks, also the one behind a finished range, can go on to its COMMIT and then has stored every written block.
 */
module FlushTheorems {
  import opened Blocks
  import opened Sequences
  import opened Batch
  import opened Database
  import opened Extraction
  import opened Persistence
  import opened Acceptance
  import opened Sink
  import opened Pipeline
  import opened PipelineInvariant
  import opened Recovery
  import opened RecoveryInvariant
  import opened RecoverySteps
  import opened RecoveryTheorems
  import opened FlushRuns

  // ------------------------------------------------------------------ the constraints hold in every run

  ghost predicate ConsistentStage(stage: Stage) {
    (stage.Executing? ==> Consistent(stage.work)) && (stage.Committing? ==> Consistent(stage.work))
  }

  ghost predicate ConsistentFlights(r: Process) { forall id :: id in r.flights ==> ConsistentStage(r.flights[id]) }

  /** The committed database and every open transaction satisfy the constraints. */
  ghost predicate SchemaInv(w: World) { Consistent(w.db) && (w.process.Some? ==> ConsistentFlights(w.process.value)) }

  lemma PipeKeepsFlights(r: Process, e: Event)
    requires PipeEnabled(r, e) && ConsistentFlights(r)
    ensures ConsistentFlights(PipeStep(r, e))
  {
  }

  /** Accepted statements lead from a consistent database to a consistent one. */
  lemma StatementsKeep(db: Db, pending: seq<Block>, t: Table, statements: seq<seq<Row>>)
    requires Consistent(db) && Concat(statements) == FlushRows(BlocksTable(pending, t), t) && ExecStatements(db, statements).Some?
    ensures Consistent(ExecStatements(db, statements).value)
  {
    FlushedWellFormed(pending, t);
    StatementsIff(db, statements);
    StatementsApplyAll(db, statements);
    ApplyAllWellFormed(db, Concat(statements));
  }

  /** The stage that a stretch before the COMMIT ends in. */
  lemma NextStageConsistent(w: World, r: Process, id: int, statements: seq<seq<Row>>)
    requires r.flushed <= |Written(r)| && StepEnabled(r, id, statements) && !r.flights[id].Committing?
    requires StageInv(w.db, r.buf, Pending(r), r.flights[id]) && Consistent(w.db) && ConsistentStage(r.flights[id])
    ensures var t := SinkStepResult(w, r, id, statements).process;
            t.Some? && id in t.value.flights && ConsistentStage(t.value.flights[id])
  {
    if r.flights[id].Executing? {
      StatementsKeep(r.flights[id].work, Pending(r), ORDER[r.flights[id].table], statements);
    }
  }

  lemma StageKeepsSchema(w: World, r: Process, id: int, statements: seq<seq<Row>>)
    requires w.process == Some(r) && StepEnabled(r, id, statements) && !r.flights[id].Committing?
    requires ConsistentFlights(r) && Consistent(w.db)
    requires var t := SinkStepResult(w, r, id, statements).process;
             t.Some? && id in t.value.flights && ConsistentStage(t.value.flights[id])
    ensures SchemaInv(SinkStepResult(w, r, id, statements))
  {
    StepFrame(w, r, id, statements);
    StepWorld(w, r, id, statements);
  }

  lemma CommitKeepsSchema(w: World, r: Process, id: int, maxH: int, work: Db)
    requires ConsistentFlights(r) && Consistent(work)
    ensures SchemaInv(Commit(w, r, id, maxH, work))
  {
  }

  lemma StepKeepsSchema(w: World, r: Process, id: int, statements: seq<seq<Row>>)
    requires w.process == Some(r) && StepEnabled(r, id, statements) && Consistent(w.db) && ConsistentFlights(r)
    requires r.flushed <= |Written(r)| && StageInv(w.db, r.buf, Pending(r), r.flights[id])
    ensures SchemaInv(SinkStepResult(w, r, id, statements))
  {
    assert ConsistentStage(r.flights[id]);
    if r.flights[id].Committing? {
      CommitKeepsSchema(w, r, id, r.flights[id].maxH, r.flights[id].work);
    } else {
      NextStageConsistent(w, r, id, statements);
      StageKeepsSchema(w, r, id, statements);
    }
  }

  lemma SchemaNextInv(w: World, e: WorldEvent)
    requires AnyInv(w) && SchemaInv(w) && WorldEnabled(w, e)
    ensures SchemaInv(WorldNext(w, e))
  {
    match e
    case Pipe(pe) => PipeKeepsFlights(w.process.value, pe);
    case SinkStep(id, statements) =>
      var r := w.process.value;
      assert StageInv(w.db, r.buf, Pending(r), r.flights[id]);
      StepKeepsSchema(w, r, id, statements);
    case _ =>
  }

  // ------------------------------------------------------------------ the log of a process

  /** What is committed is what was when the process started, and the first blocks it has written. */
  ghost predicate LogInv(w: World) { w.process.Some? ==> LogOf(w, w.process.value) }

  ghost predicate LogOf(w: World, r: Process) { r.flushed <= |Written(r)| && w.log == r.base + Written(r)[..r.flushed] }

  lemma GrowthLog(w: World, w1: World, r: Process, t: Process)
    requires LogOf(w, r) && RecoverySteps.SameBooks(r, t) && w1.log == w.log
    ensures LogOf(w1, t)
  {
    assert Written(t)[..t.flushed] == Written(r)[..r.flushed];
  }

  lemma CommitLog(w: World, r: Process, id: int, maxH: int, work: Db)
    requires LogOf(w, r)
    ensures var w1 := Commit(w, r, id, maxH, work); LogOf(w1, w1.process.value)
  {
    CommitFrame(w, r, id, maxH, work);
    var t := Commit(w, r, id, maxH, work).process.value;
    assert w.log + Pending(r) == t.base + Written(t)[..t.flushed];
  }

  lemma BootLog(w: World, e: WorldEvent)
    requires e.Boot? && WorldEnabled(w, e)
    ensures LogInv(WorldNext(w, e))
  {
    InitWritesNothing(Config(e.from, e.to, e.concurrency, e.maxRetries));
    var r := WorldNext(w, e).process.value;
    assert Written(r) == [] && w.log == r.base + Written(r)[..0];
  }

  lemma LogNextInv(w: World, e: WorldEvent)
    requires AnyInv(w) && LogInv(w) && WorldEnabled(w, e)
    ensures LogInv(WorldNext(w, e))
  {
    if IsCommit(w, e) {
      CommitLog(w, w.process.value, e.id, w.process.value.flights[e.id].maxH, w.process.value.flights[e.id].work);
    } else if e.Boot? {
      BootLog(w, e);
    } else if !e.Kill? {
      OnlyCommitsStore(w, e);
      BooksGrow(w, e);
      GrowthLog(w, WorldNext(w, e), w.process.value, WorldNext(w, e).process.value);
    }
  }

  // ------------------------------------------------------------------ every reachable world

  ghost predicate WholeInv(w: World) { StoredInv(w) && SchemaInv(w) && LogInv(w) }

  lemma RunNextInv(w: World, e: WorldEvent)
    requires WholeInv(w) && WorldEnabled(w, e)
    ensures WholeInv(WorldNext(w, e))
  {
    StoredNextInv(w, e);
    SchemaNextInv(w, e);
    LogNextInv(w, e);
  }

  lemma {:induction false} RunKeepsInv(w: World, es: seq<WorldEvent>)
    requires WholeInv(w) && ValidWorldRun(w, es)
    ensures WholeInv(WorldRun(w, es))
    decreases |es|
  {
    if es != [] {
      RunNextInv(w, es[0]);
      RunKeepsInv(WorldNext(w, es[0]), es[1..]);
    }
  }

  lemma ReachedInv(es: seq<WorldEvent>)
    requires ValidWorldRun(FRESH, es)
    ensures WholeInv(WorldRun(FRESH, es))
  {
    RunKeepsInv(FRESH, es);
  }

  /** In every committed state of every run no two transactions of a height share their index. */
  lemma PositionsUnique(es: seq<WorldEvent>)
    requires ValidWorldRun(FRESH, es)
    ensures var db := WorldRun(FRESH, es).db;
            forall a, b :: SameHeight(a, b) && a in db && b in db && db[a].TxColumns? && At(db, b, db[a].txIndex) ==> a == b
  {
    ReachedInv(es);
  }

  // ------------------------------------------------------------------ a flush can go on to its COMMIT

  /** The flushers' own split into statements. */
  function OwnSplit(pending: seq<Block>): seq<seq<seq<Row>>> {
    seq(|ORDER|, i requires 0 <= i < |ORDER| => Slices(FlushRows(BlocksTable(pending, ORDER[i]), ORDER[i]), LimitOf(ORDER[i])))
  }

  lemma OwnSplitAccepted(db: Db, pending: seq<Block>)
    requires Consistent(db) && forall t: Table :: TableAccepted(db, pending, t)
    ensures Accepts(db, pending, OwnSplit(pending))
  {
    forall i | 0 <= i < |ORDER| ensures TableSplit(db, pending, i, OwnSplit(pending)[i]) {
      SlicesConcat(FlushRows(BlocksTable(pending, ORDER[i]), ORDER[i]), LimitOf(ORDER[i]));
      TableAcceptedIff(db, pending, i);
    }
  }

  /** The world behind the COMMIT of call `id`, in terms of what was pending. */
  lemma FlushedIs(w: World, r: Process, id: int, maxH: int)
    requires r.flushed <= |Written(r)|
    ensures var w1 := Committed(w, r, id, maxH, Pending(r));
            && w1.db == PersistBlocks(w.db, Pending(r)) && w1.progress == Some(maxH) && w1.log == w.log + Pending(r)
            && w1.process.Some? && w1.process.value.p == r.p && AllEmpty(w1.process.value.buf)
            && w1.process.value.flights == (if id == RUNNER then map[] else map[id := Completed])
            && w1.process.value.cfg == r.cfg && Written(w1.process.value) == Written(r)
  {
    assert map[id := Committing(maxH, PersistBlocks(w.db, Pending(r)))] - {id} == map[];
  }

  lemma SuffixStored(base: seq<Block>, written: seq<Block>)
    ensures forall b :: b in written ==> BlockKey(b.height) in PersistBlocks(map[], base + written)
  {
    forall b | b in written ensures BlockKey(b.height) in PersistBlocks(map[], base + written) {
      var i :| 0 <= i < |written| && written[i] == b;
      assert (base + written)[|base| + i] == b;
      BlockStored(map[], base + written, |base| + i);
    }
  }

  lemma WholeLog(w: World, r: Process)
    requires LogOf(w, r)
    ensures w.log + Pending(r) == r.base + Written(r)
  {
  }

  /** Behind the COMMIT every block that the process has written is stored. */
  lemma AllWrittenStored(w: World, r: Process, w1: World)
    requires LogOf(w, r) && w.db == PersistBlocks(map[], w.log) && w1.db == PersistBlocks(w.db, Pending(r))
    ensures forall b :: b in Written(r) ==> BlockKey(b.height) in w1.db
  {
    PersistBlocksConcat(map[], w.log, Pending(r));
    WholeLog(w, r);
    SuffixStored(r.base, Written(r));
  }

  lemma SoleFlight(w: World, r: Process, id: int, stage: Stage)
    requires w.process == Some(r) && r.flights == map[id := stage]
    ensures w == During(w, r, id, r.buf, stage)
  {
  }

  lemma OnlyThis(r: Process, id: int)
    requires Inv(r.cfg, r.p) && OneFlight(r) && id in r.flights
    ensures r.flights == map[id := r.flights[id]]
  {
    forall i | i in r.flights ensures i == id { OnlyFlight(r, i, id); }
  }

  /**
   A flush that has started, of a write or of the runner, can go on stretch by stretch to its COMMIT if the tables
   accept the pending blocks: then all that the process has written is stored, and the progress row says so.
   */
  lemma FlushCompletes(es: seq<WorldEvent>, r: Process, id: int) returns (steps: seq<WorldEvent>, w1: World)
    requires ValidWorldRun(FRESH, es) && WorldRun(FRESH, es).process == Some(r)
    requires id in r.flights && r.flights[id].Connecting? && r.flushed <= |Written(r)|
    requires forall t: Table :: TableAccepted(WorldRun(FRESH, es).db, Pending(r), t)
    ensures (forall e :: e in steps ==> e.SinkStep?) && Reaches(WorldRun(FRESH, es), steps, w1)
    ensures Pending(r) != [] && w1.progress == Some(Pending(r)[|Pending(r)| - 1].height)
    ensures forall b :: b in Written(r) ==> BlockKey(b.height) in w1.db
    ensures w1.process.Some? && w1.process.value.p == r.p && AllEmpty(w1.process.value.buf)
    ensures w1.process.value.flights == (if id == RUNNER then map[] else map[id := Completed])
  {
    var w := WorldRun(FRESH, es);
    ReachedInv(es);
    steps, w1 := FlushFrom(w, r, id);
  }

  lemma FlushFrom(w: World, r: Process, id: int) returns (steps: seq<WorldEvent>, w1: World)
    requires WholeInv(w) && w.process == Some(r) && id in r.flights && r.flights[id].Connecting?
    requires forall t: Table :: TableAccepted(w.db, Pending(r), t)
    ensures (forall e :: e in steps ==> e.SinkStep?) && Reaches(w, steps, w1)
    ensures Pending(r) != [] && w1.progress == Some(Pending(r)[|Pending(r)| - 1].height)
    ensures forall b :: b in Written(r) ==> BlockKey(b.height) in w1.db
    ensures w1.process.Some? && w1.process.value.p == r.p && AllEmpty(w1.process.value.buf)
    ensures w1.process.value.flights == (if id == RUNNER then map[] else map[id := Completed])
  {
    OnlyThis(r, id);
    SoleFlight(w, r, id, Connecting);
    assert StageInv(w.db, r.buf, Pending(r), r.flights[id]);
    PendingAscends(r);
    MaximumIsLast(r.buf, Pending(r));
    OwnSplitAccepted(w.db, Pending(r));
    steps := FlushSteps(id, OwnSplit(Pending(r)));
    w1 := Committed(w, r, id, Maximum(AllHeights(r.buf)), Pending(r));
    FlushReaches(w, r, id, r.buf, Pending(r), OwnSplit(Pending(r)));
    FlushStepsAreSteps(id, OwnSplit(Pending(r)));
    FlushedIs(w, r, id, Maximum(AllHeights(r.buf)));
    AllWrittenStored(w, r, w1);
  }

  // ------------------------------------------------------------------ behind a finished range

  lemma RunnerConnects(w: World, r: Process)
    requires WholeInv(w) && w.process == Some(r) && r.p.resolves == 1 && r.flights == map[] && Pending(r) != []
    ensures WorldEnabled(w, FinalFlush)
    ensures WorldNext(w, FinalFlush) == w.(process := Some(r.(flights := map[RUNNER := Connecting])))
  {
    EmptyMeansNoBlocks(r.buf, Pending(r));
    assert map[][RUNNER := Connecting] == map[RUNNER := Connecting];
  }

  /** The process while the runner's flush awaits its connection. */
  function Connected(r: Process): Process { r.(flights := map[RUNNER := Connecting]) }

  lemma ConnectedInv(w: World, r: Process)
    requires WholeInv(w) && w.process == Some(r) && r.p.resolves == 1 && r.flights == map[] && Pending(r) != []
    ensures WholeInv(w.(process := Some(Connected(r))))
  {
    RunnerConnects(w, r);
    RunNextInv(w, FinalFlush);
  }

  lemma ConnectedBooks(r: Process)
    ensures Written(Connected(r)) == Written(r) && Connected(r).p == r.p && Connected(r).flushed == r.flushed
    ensures r.flushed <= |Written(r)| ==> Pending(Connected(r)) == Pending(r)
  {
  }

  lemma FinalFlushFrom(w: World, r: Process) returns (steps: seq<WorldEvent>, w1: World)
    requires WholeInv(w) && w.process == Some(r) && r.p.resolves == 1 && r.flights == map[] && Pending(r) != []
    requires forall t: Table :: TableAccepted(w.db, Pending(r), t)
    ensures (forall e :: e in steps ==> e.SinkStep?) && Reaches(w.(process := Some(Connected(r))), steps, w1)
    ensures w1.progress == Some(Pending(r)[|Pending(r)| - 1].height)
    ensures forall b :: b in Written(r) ==> BlockKey(b.height) in w1.db
    ensures w1.process.Some? && w1.process.value.p == r.p && w1.process.value.flights == map[] && AllEmpty(w1.process.value.buf)
  {
    ConnectedInv(w, r);
    ConnectedBooks(r);
    steps, w1 := FlushFrom(w.(process := Some(Connected(r))), Connected(r), RUNNER);
  }

  /**
   The final flush stores what is left: behind a finished range with pending blocks that the tables accept, it
   and its stretches are a run at whose end every written block is stored, the progress row has the last height,
   and nothing is left in the buffers.
   */
  lemma FinalFlushStores(es: seq<WorldEvent>, r: Process) returns (steps: seq<WorldEvent>, w1: World)
    requires ValidWorldRun(FRESH, es) && WorldRun(FRESH, es).process == Some(r)
    requires r.p.resolves == 1 && r.flights == map[] && r.flushed <= |Written(r)| && Pending(r) != []
    requires forall t: Table :: TableAccepted(WorldRun(FRESH, es).db, Pending(r), t)
    ensures (forall e :: e in steps ==> e.SinkStep?) && Reaches(WorldRun(FRESH, es), [FinalFlush] + steps, w1)
    ensures w1.progress == Some(Pending(r)[|Pending(r)| - 1].height)
    ensures forall b :: b in Written(r) ==> BlockKey(b.height) in w1.db
    ensures w1.process.Some? && w1.process.value.p == r.p && w1.process.value.flights == map[] && AllEmpty(w1.process.value.buf)
  {
    ReachedInv(es);
    RunnerConnects(WorldRun(FRESH, es), r);
    steps, w1 := FinalFlushFrom(WorldRun(FRESH, es), r);
    OneEventMore(WorldRun(FRESH, es), FinalFlush, steps, w1);
  }

  /** In particular for new blocks that are each acceptable by themselves. */
  lemma FinalFlushOfNewBlocks(es: seq<WorldEvent>, r: Process) returns (steps: seq<WorldEvent>, w1: World)
    requires ValidWorldRun(FRESH, es) && WorldRun(FRESH, es).process == Some(r)
    requires r.p.resolves == 1 && r.flights == map[] && r.flushed <= |Written(r)| && Pending(r) != []
    requires FreshHeights(WorldRun(FRESH, es).db, Pending(r)) && forall b :: b in Pending(r) ==> DistinctHashes(b) && Acceptable(b)
    ensures (forall e :: e in steps ==> e.SinkStep?) && Reaches(WorldRun(FRESH, es), [FinalFlush] + steps, w1)
    ensures w1.progress == Some(Pending(r)[|Pending(r)| - 1].height)
    ensures forall b :: b in Written(r) ==> BlockKey(b.height) in w1.db
  {
    ReachedInv(es);
    PendingAscends(r);
    AscendingDistinct(Pending(r));
    FreshAcceptedIff(WorldRun(FRESH, es).db, Pending(r));
    steps, w1 := FinalFlushStores(es, r);
  }

  lemma AscendingDistinct(bs: seq<Block>)
    requires Ascending(bs)
    ensures DistinctHeights(bs)
  {
  }

  // ------------------------------------------------------------------ a write starts a flush when one is due

  /** A write starts a flush if and only if the pending blocks, the written one included, reach some threshold. */
  lemma WriteFlushesIff(es: seq<WorldEvent>, r: Process, e: Event)
    requires ValidWorldRun(FRESH, es) && WorldRun(FRESH, es).process == Some(r) && PipeEnabled(r, e)
    requires Settling(e) && Next(r.cfg, r.p, e).written != r.p.written && r.flushed <= |Written(PipeStep(r, e))|
    ensures var t := PipeStep(r, e);
            && t.flights.Keys == {e.id} && (t.flights[e.id].Connecting? || t.flights[e.id].Completed?)
            && (t.flights[e.id].Connecting? <==> FlushDue(Written(t)[r.flushed..], r.limits))
  {
    ReachedInv(es);
    WriteFlushes(WorldRun(FRESH, es), r, e);
  }

  lemma WriteFlushes(w: World, r: Process, e: Event)
    requires ProcessInv(w, r) && PipeEnabled(r, e) && Settling(e) && Next(r.cfg, r.p, e).written != r.p.written
    requires r.flushed <= |Written(PipeStep(r, e))|
    ensures var t := PipeStep(r, e);
            && t.flights.Keys == {e.id} && (t.flights[e.id].Connecting? || t.flights[e.id].Completed?)
            && (t.flights[e.id].Connecting? <==> FlushDue(Written(t)[r.flushed..], r.limits))
  {
    var b := TakenBlock(r, e);
    assert HoldsBlocks(r.buf, Pending(r));
    var r1 := r.(p := Next(r.cfg, r.p, e), flights := map[]);
    WriteStarted(r1, e.id, b, Pending(r));
    assert r1.earlier + r1.p.written == Written(r) + [b];
    assert (Written(r) + [b])[r.flushed..] == Pending(r) + [b];
  }

  lemma WriteStarted(r: Process, id: int, b: Block, pending: seq<Block>)
    requires HoldsBlocks(r.buf, pending) && r.flights == map[]
    ensures var t := StartWrite(r, id, b);
            && t.flights.Keys == {id} && (t.flights[id].Connecting? || t.flights[id].Completed?)
            && (t.flights[id].Connecting? <==> FlushDue(pending + [b], r.limits))
            && Written(t) == Written(r)
  {
    DueWith(r.buf, pending, b, r.limits);
  }

  lemma DueWith(buf: Buffers, pending: seq<Block>, b: Block, l: Limits)
    requires HoldsBlocks(buf, pending)
    ensures NeedFlush(buf.Push(Recovery.RowsOf(b)), l) <==> FlushDue(pending + [b], l)
  {
    BlockBuffered(buf, pending, b);
    NeedFlushIff(buf.Push(Recovery.RowsOf(b)), pending + [b], l);
  }}
