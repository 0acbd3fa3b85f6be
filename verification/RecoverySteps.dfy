/** Every event of the indexer keeps the invariant. */
module RecoverySteps {
  import opened Blocks
  import opened Sequences
  import opened Database
  import opened Extraction
  import opened Persistence
  import opened Sink
  import opened Pipeline
  import opened PipelineInvariant
  import opened PipelineTheorems
  import opened Recovery
  import opened RecoveryInvariant

  // ------------------------------------------------------------------ boots and ranges

  lemma InitWritesNothing(c: Config)
    ensures Inv(c, Init(c)) && Init(c).written == [] && WriterIds(Init(c)) == {} && GivenUp(Init(c)) == {}
  {
    InitInv(c);
    SpawnLoopWrites(c, Start(c));
    assert WriterIds(Start(c)) == {};
  }

  lemma BootKeeps(w: World, e: WorldEvent)
    requires e.Boot? && WorldEnabled(w, e)
    ensures AnyInv(WorldNext(w, e))
  {
    var cfg := Config(e.from, e.to, e.concurrency, e.maxRetries);
    InitWritesNothing(cfg);
    HoldsNothing();
    CoversNothing(e.from);
    var r := WorldNext(w, e).process.value;
    assert Written(r) == [] && Pending(r) == [];
  }

  /** When a range is done, it is covered to its end. */
  lemma RangeCovered(r: Process)
    requires Inv(r.cfg, r.p) && r.p.resolves == 1 && Covers(r.start, r.cfg.from, r.earlier, r.earlierSkips)
    ensures Covers(r.start, r.cfg.to + 1, Written(r), Skips(r))
  {
    CompleteFromInv(r.cfg, r.p);
    assert Frontier(r.p) == r.cfg.to + 1;
    PipelineCovers(r.cfg, r.p);
    assert Below(GivenUp(r.p), r.cfg.to + 1) == GivenUp(r.p);
    CoversConcat(r.start, r.cfg.from, r.cfg.to + 1, r.earlier, r.earlierSkips, r.p.written, GivenUp(r.p));
  }

  function StartRange(r: Process, cfg: Config): Process {
    r.(cfg := cfg, p := Init(cfg), earlier := Written(r), earlierSkips := Skips(r))
  }

  lemma NextRangeKeeps(w: World, r: Process, cfg: Config)
    requires ProcessInv(w, r) && r.p.resolves == 1 && r.flights == map[] && cfg.from == r.cfg.to + 1
    ensures ProcessInv(w, StartRange(r, cfg))
  {
    assert HoldsBlocks(r.buf, Pending(r));
    RangeCovered(r);
    InitWritesNothing(cfg);
    StartRangeFrame(r, cfg);
    NothingInFlight(w, StartRange(r, cfg));
  }

  lemma StartRangeFrame(r: Process, cfg: Config)
    requires Init(cfg).written == [] && GivenUp(Init(cfg)) == {}
    ensures Written(StartRange(r, cfg)) == Written(r) && Skips(StartRange(r, cfg)) == Skips(r)
    ensures r.flushed <= |Written(r)| ==> Pending(StartRange(r, cfg)) == Pending(r)
  {
  }

  lemma NothingInFlight(w: World, r: Process)
    requires r.flushed <= |Written(r)| && r.flights == map[] && HoldsBlocks(r.buf, Pending(r)) && WriterIds(r.p) == {}
    ensures SinkInv(w, r) && OneFlight(r)
  {
  }

  lemma OneInFlight(w: World, r: Process, id: int)
    requires r.flushed <= |Written(r)| && r.flights.Keys == {id}
    requires StageInv(w.db, r.buf, Pending(r), r.flights[id])
    ensures SinkInv(w, r)
  {
    assert id in r.flights;
    assert forall i :: i in r.flights ==> i == id;
  }

  lemma RangeNext(w: World, r: Process, e: WorldEvent)
    requires e.NextRange? && WorldEnabled(w, e) && w.process == Some(r)
    ensures WorldNext(w, e) ==
            w.(process := Some(StartRange(r, Config(r.cfg.to + 1, e.to, e.concurrency, e.maxRetries))))
  {
  }

  lemma RangeStep(w: World, e: WorldEvent)
    requires AnyInv(w) && e.NextRange? && WorldEnabled(w, e)
    ensures AnyInv(WorldNext(w, e))
  {
    var r := w.process.value;
    RangeNext(w, r, e);
    NextRangeKeeps(w, r, Config(r.cfg.to + 1, e.to, e.concurrency, e.maxRetries));
  }

  // ------------------------------------------------------------------ pipeline events

  /** What a pipeline event leaves of the process, and how far it may move the pipeline. */
  ghost predicate SameRest(r: Process, t: Process) {
    && t.cfg == r.cfg && t.start == r.start && t.base == r.base && t.earlier == r.earlier
    && t.earlierSkips == r.earlierSkips && t.flushed == r.flushed
    && r.p.written <= t.p.written && GivenUp(r.p) <= GivenUp(t.p)
  }

  lemma WrittenFrame(r: Process, t: Process)
    requires SameRest(r, t)
    ensures Written(t) == Written(r) + t.p.written[|r.p.written|..] && Skips(r) <= Skips(t)
    ensures r.flushed <= |Written(r)| ==>
              Written(t)[..t.flushed] == Written(r)[..r.flushed] && Pending(t) == Pending(r) + t.p.written[|r.p.written|..]
  {
  }

  lemma StillPending(r: Process, t: Process)
    requires r.flushed <= |Written(r)| && SameRest(r, t) && t.p.written == r.p.written
    ensures t.flushed <= |Written(t)| && Pending(t) == Pending(r)
  {
    WrittenFrame(r, t);
    assert t.p.written[|r.p.written|..] == [];
  }

  /** A pipeline event leaves everything but the pipeline, the buffers and the sink calls as it is. */
  lemma PipeRest(r: Process, e: Event)
    requires Inv(r.cfg, r.p) && PipeEnabled(r, e)
    ensures SameRest(r, PipeStep(r, e))
  {
    if Settling(e) { SettlingWrites(r.cfg, r.p, e); } else { OtherWrites(r.cfg, r.p, e); }
    GivenUpGrows(r.cfg, r.p, e);
  }

  lemma OtherPipeKeeps(w: World, r: Process, e: Event)
    requires ProcessInv(w, r) && PipeEnabled(r, e) && !Settling(e)
    ensures ProcessInv(w, PipeStep(r, e))
  {
    NextInv(r.cfg, r.p, e);
    OtherWrites(r.cfg, r.p, e);
    GivenUpGrows(r.cfg, r.p, e);
    StillPending(r, PipeStep(r, e));
  }

  lemma QuietPipeKeeps(w: World, r: Process, e: Event)
    requires ProcessInv(w, r) && PipeEnabled(r, e) && Settling(e)
    requires Next(r.cfg, r.p, e).written == r.p.written
    ensures ProcessInv(w, PipeStep(r, e))
  {
    NextInv(r.cfg, r.p, e);
    SettlingWrites(r.cfg, r.p, e);
    GivenUpGrows(r.cfg, r.p, e);
    StillPending(r, PipeStep(r, e));
    QuietFlights(w, r, PipeStep(r, e), e);
  }

  /** No block is taken; a write that completes leaves, the sink calls otherwise stay as they are. */
  lemma QuietFlights(w: World, r: Process, t: Process, e: Event)
    requires r.flushed <= |Written(r)| && OneFlight(r) && SinkInv(w, r) && Settling(e) && PipeEnabled(r, e)
    requires t.flushed == r.flushed && Written(t) == Written(r) && t.buf == r.buf && t.p.resolves == r.p.resolves
    requires t.flights == if e.WriteDone? then r.flights - {e.id} else r.flights
    requires WriterIds(t.p) == Remaining(r.p, e)
    ensures OneFlight(t) && SinkInv(w, t)
  {
    assert Pending(t) == Pending(r);
  }

  /** Before a block is taken no sink call is outstanding, but for the one that completes with this event. */
  lemma NothingElseInFlight(r: Process, e: Event)
    requires Inv(r.cfg, r.p) && OneFlight(r) && PipeEnabled(r, e) && Settling(e) && Remaining(r.p, e) == {}
    ensures (if e.WriteDone? then r.flights - {e.id} else r.flights) == map[]
  {
    assert e.id in r.p.phases;
    assert forall id :: id in r.flights ==> id in WriterIds(r.p);
  }

  /** `sink.write` starts while no other sink call is outstanding. */
  lemma StartWriteKeeps(w: World, r: Process, id: nat, b: Block, pending: seq<Block>)
    requires r.flushed <= |Written(r)| && Pending(r) == pending + [b] && HoldsBlocks(r.buf, pending)
    requires r.flights == map[] && WriterIds(r.p) == {id}
    ensures OneFlight(StartWrite(r, id, b)) && SinkInv(w, StartWrite(r, id, b))
  {
    var t := StartWrite(r, id, b);
    BlockBuffered(r.buf, pending, b);
    assert t.flights.Keys == {id} && Pending(t) == Pending(r);
    OneInFlight(w, t, id);
  }

  lemma TakenBlock(r: Process, e: Event) returns (b: Block)
    requires Inv(r.cfg, r.p) && OneFlight(r) && PipeEnabled(r, e) && Settling(e)
    requires Next(r.cfg, r.p, e).written != r.p.written
    ensures Next(r.cfg, r.p, e).written == r.p.written + [b] && WriterIds(Next(r.cfg, r.p, e)) == {e.id}
    ensures PipeStep(r, e) == StartWrite(r.(p := Next(r.cfg, r.p, e), flights := map[]), e.id, b)
    ensures r.flights == map[] || (e.WriteDone? && e.id in r.flights && r.flights[e.id].Completed?)
  {
    SettlingWrites(r.cfg, r.p, e);
    NothingElseInFlight(r, e);
    b := Next(r.cfg, r.p, e).written[|r.p.written|];
  }

  lemma TakingPipeKeeps(w: World, r: Process, e: Event)
    requires ProcessInv(w, r) && PipeEnabled(r, e) && Settling(e)
    requires Next(r.cfg, r.p, e).written != r.p.written
    ensures ProcessInv(w, PipeStep(r, e))
  {
    NextInv(r.cfg, r.p, e);
    GivenUpGrows(r.cfg, r.p, e);
    var b := TakenBlock(r, e);
    assert HoldsBlocks(r.buf, Pending(r));
    var r1 := r.(p := Next(r.cfg, r.p, e), flights := map[]);
    WrittenFrame(r, r1);
    assert r1.p.written[|r.p.written|..] == [b];
    StartWriteKeeps(w, r1, e.id, b, Pending(r));
    WrittenFrame(r1, PipeStep(r, e));
  }

  lemma BlockBuffered(buf: Buffers, pending: seq<Block>, b: Block)
    requires HoldsBlocks(buf, pending)
    ensures HoldsBlocks(buf.Push(RowsOf(b)), pending + [b])
  {
    forall t: Table ensures RowsOf(b).Of(t) == BlockTable(b, t) { RowsOfTable(b, t); }
    HoldsOneMoreBlock(buf, pending, RowsOf(b), b);
  }

  lemma PipeKeeps(w: World, r: Process, e: Event)
    requires ProcessInv(w, r) && PipeEnabled(r, e)
    ensures ProcessInv(w, PipeStep(r, e))
  {
    if !Settling(e) {
      OtherPipeKeeps(w, r, e);
    } else if Next(r.cfg, r.p, e).written == r.p.written {
      QuietPipeKeeps(w, r, e);
    } else {
      TakingPipeKeeps(w, r, e);
    }
  }

  // ------------------------------------------------------------------ sink events

  lemma FinalFlushKeeps(w: World, r: Process)
    requires ProcessInv(w, r) && r.p.resolves == 1 && r.flights == map[] && !AllEmpty(r.buf)
    ensures ProcessInv(w, r.(flights := r.flights[RUNNER := Connecting]))
  {
    var t := r.(flights := r.flights[RUNNER := Connecting]);
    NonEmptyMeansBlocks(r.buf, Pending(r));
    StillPending(r, t);
    assert t.flights.Keys == {RUNNER};
    OneInFlight(w, t, RUNNER);
  }

  lemma OnlyFlight(r: Process, i: int, j: int)
    requires Inv(r.cfg, r.p) && OneFlight(r) && i in r.flights && j in r.flights
    ensures i == j
  {
  }

  /** Everything this process wrote, from its first height on. */
  lemma WrittenCovers(r: Process)
    requires Inv(r.cfg, r.p) && RangesDone(r)
    ensures Covers(r.start, Frontier(r.p), Written(r), r.earlierSkips + Below(GivenUp(r.p), Frontier(r.p)))
  {
    PipelineCovers(r.cfg, r.p);
    CoversConcat(r.start, r.cfg.from, Frontier(r.p), r.earlier, r.earlierSkips, r.p.written, Below(GivenUp(r.p), Frontier(r.p)));
  }

  lemma PendingAscends(r: Process)
    requires Inv(r.cfg, r.p) && RangesDone(r)
    ensures Ascending(Pending(r))
  {
    WrittenCovers(r);
  }

  lemma NextTable(db: Db, buf: Buffers, pending: seq<Block>, maxH: int, i: nat, work: Db, rows: seq<Row>, statements: seq<seq<Row>>)
    requires i < |ORDER| && StageInv(db, buf, pending, Executing(maxH, i, work, rows))
    requires Concat(statements) == FlushRows(rows, ORDER[i]) && ExecStatements(work, statements).Some?
    ensures FlushedUpTo(buf.Clear(ORDER[i]), pending, i + 1)
    ensures ExecStatements(work, statements).value == ApplyAll(db, Concat(RowsByTable(pending)[..i + 1]))
  {
    StatementsApplyAll(work, statements);
    FlushStep(db, pending, i);
    PositionOf(i);
    forall t: Table ensures buf.Clear(ORDER[i]).Of(t) == if Position(t) < i + 1 then [] else BlocksTable(pending, t) {
      assert buf.Of(t) == if Position(t) < i then [] else BlocksTable(pending, t);
      assert Position(t) == i ==> t == ORDER[i];
    }
  }

  lemma LastTable(db: Db, buf: Buffers, pending: seq<Block>)
    requires FlushedUpTo(buf, pending, |ORDER|)
    ensures buf == NO_ROWS && ApplyAll(db, Concat(RowsByTable(pending)[..|ORDER|])) == PersistBlocks(db, pending)
  {
    forall t: Table ensures buf.Of(t) == NO_ROWS.Of(t) {}
    SameBuffers(buf, NO_ROWS);
    assert RowsByTable(pending)[..|ORDER|] == RowsByTable(pending);
    FlushIsBlockwise(db, pending);
  }

  lemma Begun(db: Db, buf: Buffers, pending: seq<Block>, maxH: int)
    requires StageInv(db, buf, pending, Preparing(maxH))
    ensures StageInv(db, buf, pending, Executing(maxH, 0, db, buf.Of(ORDER[0])))
  {
    assert RowsByTable(pending)[..0] == [];
    assert buf.Of(ORDER[0]) == BlocksTable(pending, ORDER[0]);
  }

  /** The stage behind the statements of the `i`-th table. */
  function NextStage(maxH: int, i: nat, work: Db, buf: Buffers): Stage {
    if i + 1 < |ORDER| then Executing(maxH, i + 1, work, buf.Of(ORDER[i + 1])) else Committing(maxH, work)
  }

  lemma TableDone(db: Db, buf: Buffers, pending: seq<Block>, maxH: int, i: nat, work: Db)
    requires i < |ORDER| && FlushedUpTo(buf, pending, i + 1)
    requires pending != [] && maxH == pending[|pending| - 1].height
    requires work == ApplyAll(db, Concat(RowsByTable(pending)[..i + 1]))
    ensures StageInv(db, buf, pending, NextStage(maxH, i, work, buf))
  {
    if i + 1 == |ORDER| {
      LastTable(db, buf, pending);
    } else {
      PositionOf(i + 1);
      assert buf.Of(ORDER[i + 1]) == BlocksTable(pending, ORDER[i + 1]);
    }
  }

  /** One stretch of `flushAll` before its COMMIT. */
  lemma StageKeeps(w: World, r: Process, id: int, statements: seq<seq<Row>>)
    requires r.flushed <= |Written(r)| && Ascending(Pending(r)) && StepEnabled(r, id, statements)
    requires StageInv(w.db, r.buf, Pending(r), r.flights[id]) && !r.flights[id].Committing?
    ensures var t := SinkStepResult(w, r, id, statements).process.value;
            StageInv(w.db, t.buf, Pending(r), t.flights[id])
  {
    match r.flights[id]
    case Connecting => MaximumIsLast(r.buf, Pending(r));
    case Preparing(maxH) => Begun(w.db, r.buf, Pending(r), maxH);
    case Executing(maxH, i, work, rows) =>
      TableKeeps(w.db, r.buf, Pending(r), maxH, i, work, rows, statements);
  }

  lemma TableKeeps(db: Db, buf: Buffers, pending: seq<Block>, maxH: int, i: nat, work: Db, rows: seq<Row>, statements: seq<seq<Row>>)
    requires i < |ORDER| && StageInv(db, buf, pending, Executing(maxH, i, work, rows))
    requires Concat(statements) == FlushRows(rows, ORDER[i]) && ExecStatements(work, statements).Some?
    ensures var buf1 := buf.Clear(ORDER[i]);
            StageInv(db, buf1, pending, NextStage(maxH, i, ExecStatements(work, statements).value, buf1))
  {
    NextTable(db, buf, pending, maxH, i, work, rows, statements);
    TableDone(db, buf.Clear(ORDER[i]), pending, maxH, i, ExecStatements(work, statements).value);
  }

  /** A sink step before the COMMIT changes the buffers and the stage of its own call. */
  lemma StepFrame(w: World, r: Process, id: int, statements: seq<seq<Row>>)
    requires StepEnabled(r, id, statements) && !r.flights[id].Committing?
    ensures var t := SinkStepResult(w, r, id, statements).process;
            t.Some? && id in t.value.flights && t.value == r.(buf := t.value.buf, flights := r.flights[id := t.value.flights[id]])
  {
  }

  lemma StepWorld(w: World, r: Process, id: int, statements: seq<seq<Row>>)
    requires w.process == Some(r) && StepEnabled(r, id, statements) && !r.flights[id].Committing?
    ensures var w1 := SinkStepResult(w, r, id, statements); w1.process.Some? && w1 == w.(process := w1.process)
  {
  }

  lemma StageKeepsProcess(w: World, r: Process, id: int, statements: seq<seq<Row>>)
    requires ProcessInv(w, r) && StepEnabled(r, id, statements) && !r.flights[id].Committing?
    ensures SinkStepResult(w, r, id, statements).process.Some?
    ensures ProcessInv(w, SinkStepResult(w, r, id, statements).process.value)
  {
    assert StageInv(w.db, r.buf, Pending(r), r.flights[id]);
    StepFrame(w, r, id, statements);
    PendingAscends(r);
    StageKeeps(w, r, id, statements);
    var t := SinkStepResult(w, r, id, statements).process.value;
    StageUpdate(w, r, id, t.buf, t.flights[id]);
  }

  lemma StageUpdate(w: World, r: Process, id: int, buf: Buffers, stage: Stage)
    requires Inv(r.cfg, r.p) && RangesDone(r) && OneFlight(r) && id in r.flights
    requires StageInv(w.db, buf, Pending(r), stage)
    ensures ProcessInv(w, r.(buf := buf, flights := r.flights[id := stage]))
  {
    var t := r.(buf := buf, flights := r.flights[id := stage]);
    StillPending(r, t);
    forall i | i in r.flights ensures i == id { OnlyFlight(r, i, id); }
    OneInFlight(w, t, id);
  }

  /** What a commit leaves of the process. */
  lemma CommitFrame(w: World, r: Process, id: int, maxH: int, work: Db)
    requires r.flushed <= |Written(r)|
    ensures var w1 := Commit(w, r, id, maxH, work);
            && w1.process.Some? && w1.origin == w.origin && w1.progress == Some(maxH) && w1.log == w.log + Pending(r)
            && var t := w1.process.value;
               && t.cfg == r.cfg && t.p == r.p && t.start == r.start && t.base == r.base && t.earlier == r.earlier
               && t.earlierSkips == r.earlierSkips && t.buf == r.buf && Written(t) == Written(r) && Skips(t) == Skips(r)
               && t.flushed == |Written(t)| && Pending(t) == []
  {
  }

  lemma CommitKeepsProcess(w: World, r: Process, id: int, maxH: int, work: Db)
    requires ProcessInv(w, r) && id in r.flights && r.flights[id] == Committing(maxH, work)
    ensures ProcessInv(Commit(w, r, id, maxH, work), Commit(w, r, id, maxH, work).process.value)
  {
    assert StageInv(w.db, r.buf, Pending(r), r.flights[id]);
    CommitFrame(w, r, id, maxH, work);
    CommitKeepsSink(w, r, id, maxH, work);
  }

  lemma CommitKeepsSink(w: World, r: Process, id: int, maxH: int, work: Db)
    requires Inv(r.cfg, r.p) && OneFlight(r) && id in r.flights && r.buf == NO_ROWS
    requires Commit(w, r, id, maxH, work).process.Some? && Pending(Commit(w, r, id, maxH, work).process.value) == []
    ensures var w1 := Commit(w, r, id, maxH, work); OneFlight(w1.process.value) && SinkInv(w1, w1.process.value)
  {
    HoldsNothing();
    forall i | i in r.flights ensures i == id { OnlyFlight(r, i, id); }
  }

  lemma SinkStepKeeps(w: World, id: int, statements: seq<seq<Row>>)
    requires AnyInv(w) && WorldEnabled(w, SinkStep(id, statements))
    ensures AnyInv(WorldNext(w, SinkStep(id, statements)))
  {
    var r := w.process.value;
    if r.flights[id].Committing? {
      CommitKeepsProcess(w, r, id, r.flights[id].maxH, r.flights[id].work);
    } else {
      StageKeepsProcess(w, r, id, statements);
      StepWorld(w, r, id, statements);
    }
  }

  /** Every event, kills at any point and boots at any height included, keeps what holds of every process. */
  lemma AnyNextInv(w: World, e: WorldEvent)
    requires AnyInv(w) && WorldEnabled(w, e)
    ensures AnyInv(WorldNext(w, e))
  {
    match e
    case Boot(_, _, _, _, _) => BootKeeps(w, e);
    case NextRange(_, _, _) => RangeStep(w, e);
    case Pipe(pe) => PipeKeeps(w, w.process.value, pe);
    case FinalFlush => if !AllEmpty(w.process.value.buf) { FinalFlushKeeps(w, w.process.value); }
    case SinkStep(id, statements) => SinkStepKeeps(w, id, statements);
    case Kill =>
  }

  // ------------------------------------------------------------------ what an event may change

  predicate IsCommit(w: World, e: WorldEvent)
    requires WorldEnabled(w, e)
  {
    e.SinkStep? && w.process.value.flights[e.id].Committing?
  }

  /** Only a COMMIT changes what is stored. */
  lemma OnlyCommitsStore(w: World, e: WorldEvent)
    requires WorldEnabled(w, e) && !IsCommit(w, e)
    ensures var w1 := WorldNext(w, e);
            && w1.db == w.db && w1.progress == w.progress && w1.log == w.log && w1.skipped == w.skipped
            && w1.origin == if e.Boot? && w.progress.None? then e.from else w.origin
  {
  }

  /** The books of a process: what it wrote, gave up and committed, and where it began. */
  ghost predicate SameBooks(r: Process, t: Process) {
    && t.start == r.start && t.base == r.base && t.flushed == r.flushed && Skips(r) <= Skips(t)
    && Written(r) <= Written(t)
  }

  lemma PipeSameBooks(r: Process, e: Event)
    requires Inv(r.cfg, r.p) && PipeEnabled(r, e)
    ensures SameBooks(r, PipeStep(r, e))
  {
    PipeRest(r, e);
    WrittenFrame(r, PipeStep(r, e));
  }

  lemma RangeSameBooks(w: World, r: Process, e: WorldEvent)
    requires w.process == Some(r) && e.NextRange? && WorldEnabled(w, e)
    ensures WorldNext(w, e).process.Some? && SameBooks(r, WorldNext(w, e).process.value)
  {
    var cfg := Config(r.cfg.to + 1, e.to, e.concurrency, e.maxRetries);
    RangeNext(w, r, e);
    InitWritesNothing(cfg);
    StartRangeFrame(r, cfg);
  }

  lemma StepSameBooks(w: World, r: Process, id: int, statements: seq<seq<Row>>)
    requires w.process == Some(r) && StepEnabled(r, id, statements) && !r.flights[id].Committing?
    ensures var w1 := SinkStepResult(w, r, id, statements); w1.process.Some? && SameBooks(r, w1.process.value)
  {
    StepFrame(w, r, id, statements);
  }

  /** While a process lives, its books only grow, but for a COMMIT. */
  lemma BooksGrow(w: World, e: WorldEvent)
    requires AnyInv(w) && WorldEnabled(w, e) && !IsCommit(w, e) && !e.Boot? && !e.Kill?
    ensures w.process.Some? && WorldNext(w, e).process.Some?
    ensures SameBooks(w.process.value, WorldNext(w, e).process.value)
  {
    var r := w.process.value;
    match e
    case NextRange(_, _, _) => RangeSameBooks(w, r, e);
    case Pipe(pe) => PipeSameBooks(r, pe);
    case FinalFlush =>
    case SinkStep(id, statements) => StepSameBooks(w, r, id, statements);
  }

  // ------------------------------------------------------------------ what is stored

  /** The database is that of the committed blocks, in the order of their commits, wherever processes have started. */
  ghost predicate StoredInv(w: World) { AnyInv(w) && w.db == PersistBlocks(map[], w.log) }

  lemma CommitStores(w: World, r: Process, id: int, maxH: int, work: Db)
    requires ProcessInv(w, r) && id in r.flights && r.flights[id] == Committing(maxH, work)
    requires w.db == PersistBlocks(map[], w.log)
    ensures var w1 := Commit(w, r, id, maxH, work); w1.db == PersistBlocks(map[], w1.log)
  {
    assert StageInv(w.db, r.buf, Pending(r), r.flights[id]);
    CommitFrame(w, r, id, maxH, work);
    PersistBlocksConcat(map[], w.log, Pending(r));
  }

  lemma StoredNextInv(w: World, e: WorldEvent)
    requires StoredInv(w) && WorldEnabled(w, e)
    ensures StoredInv(WorldNext(w, e))
  {
    AnyNextInv(w, e);
    if IsCommit(w, e) {
      CommitStores(w, w.process.value, e.id, w.process.value.flights[e.id].maxH, w.process.value.flights[e.id].work);
    } else {
      OnlyCommitsStore(w, e);
    }
  }

  lemma {:induction false} StoredRunInv(w: World, es: seq<WorldEvent>)
    requires StoredInv(w) && ValidWorldRun(w, es)
    ensures StoredInv(WorldRun(w, es))
    decreases |es|
  {
    if es != [] {
      StoredNextInv(w, es[0]);
      StoredRunInv(WorldNext(w, es[0]), es[1..]);
    }
  }

  // ------------------------------------------------------------------ a process that has resumed

  lemma BootContinues(w: World, e: WorldEvent)
    requires Durable(w) && e.Boot? && WorldEnabled(w, e) && Resumes(w, e)
    ensures var w1 := WorldNext(w, e); Durable(w1) && w1.process.Some? && Continues(w1, w1.process.value)
  {
    InitWritesNothing(Config(e.from, e.to, e.concurrency, e.maxRetries));
    CoversNothing(e.from);
    if w.progress.None? { OriginFree(w); }
    assert Below(w.skipped, e.from) == w.skipped;
    var r := WorldNext(w, e).process.value;
    assert Written(r) == [];
    assert w.log == r.base + Written(r)[..0];
  }

  /** While nothing is recorded, nothing is stored or skipped. */
  lemma OriginFree(w: World)
    requires Durable(w) && w.progress.None?
    ensures w.log == [] && w.skipped == {}
  {
    assert forall h :: h in w.skipped ==> w.origin <= h < w.origin;
  }

  lemma GrowthContinues(w: World, r: Process, t: Process)
    requires Continues(w, r) && SameBooks(r, t)
    ensures Continues(w, t)
  {
    assert Written(t)[..t.flushed] == Written(r)[..r.flushed];
  }

  lemma SameStoreContinues(w: World, w1: World, r: Process)
    requires Continues(w, r) && w1.log == w.log && w1.skipped == w.skipped && w1.origin == w.origin
    ensures Continues(w1, r)
  {
  }

  lemma SameStoreDurable(w: World, w1: World)
    requires Durable(w) && w1.db == w.db && w1.progress == w.progress && w1.log == w.log && w1.skipped == w.skipped
    requires w1.origin == w.origin
    ensures Durable(w1)
  {
  }

  /** Everything up to the last written height, over all process lives. */
  lemma WrittenUpToLast(w: World, r: Process, until: int, given: set<int>, maxH: int)
    requires Continues(w, r) && Covers(r.start, until, Written(r), given) && Written(r) != []
    requires maxH == Written(r)[|Written(r)| - 1].height
    ensures maxH < until
    ensures Covers(w.origin, maxH + 1, r.base + Written(r), Below(w.skipped, r.start) + Below(given, maxH + 1))
  {
    assert maxH in Heights(Written(r));
    CoversUpToLast(r.start, until, Written(r), given);
    CoversJoined(w, r, Written(r), given, maxH);
  }

  lemma CoversJoined(w: World, r: Process, all: seq<Block>, given: set<int>, maxH: int)
    requires Continues(w, r) && Covers(r.start, maxH + 1, all, Below(given, maxH + 1))
    ensures Covers(w.origin, maxH + 1, r.base + all, Below(w.skipped, r.start) + Below(given, maxH + 1))
  {
    CoversConcat(w.origin, r.start, maxH + 1, r.base, Below(w.skipped, r.start), all, Below(given, maxH + 1));
  }

  /** The skipped heights after a commit are those that the committed blocks leave out. */
  lemma CommitCovers(w: World, r: Process, maxH: int)
    requires Durable(w) && Inv(r.cfg, r.p) && RangesDone(r) && Continues(w, r)
    requires Pending(r) != [] && maxH == Pending(r)[|Pending(r)| - 1].height
    ensures Covers(w.origin, maxH + 1, w.log + Pending(r), w.skipped + (set h | h in Skips(r) && h <= maxH))
  {
    var given := r.earlierSkips + Below(GivenUp(r.p), Frontier(r.p));
    assert Written(r)[|Written(r)| - 1] == Pending(r)[|Pending(r)| - 1];
    WrittenCovers(r);
    WrittenUpToLast(w, r, Frontier(r.p), given, maxH);
    CommitCoversRest(w, r, given, maxH);
  }

  /** The pending blocks go on where the committed ones end. */
  lemma LogGrows(w: World, r: Process)
    requires Continues(w, r) && Pending(r) != []
    ensures var all := r.base + Written(r);
            all == w.log + Pending(r) && w.log < all && all[|all| - 1] == Pending(r)[|Pending(r)| - 1]
  {
    assert Written(r) == Written(r)[..r.flushed] + Pending(r);
  }

  lemma CommitCoversRest(w: World, r: Process, given: set<int>, maxH: int)
    requires Durable(w) && Continues(w, r)
    requires Pending(r) != [] && maxH == Pending(r)[|Pending(r)| - 1].height
    requires given == r.earlierSkips + Below(GivenUp(r.p), Frontier(r.p)) && maxH < Frontier(r.p)
    requires Covers(w.origin, maxH + 1, r.base + Written(r), Below(w.skipped, r.start) + Below(given, maxH + 1))
    ensures Covers(w.origin, maxH + 1, w.log + Pending(r), w.skipped + (set h | h in Skips(r) && h <= maxH))
  {
    LogGrows(w, r);
    SkippedBelowLast(w, r.base + Written(r), maxH);
    SkippedTogether(w, r, given, maxH);
  }

  lemma SkippedBelowLast(w: World, log: seq<Block>, maxH: int)
    requires Durable(w) && Ascending(log) && w.log < log && log[|log| - 1].height == maxH
    ensures forall h :: h in w.skipped ==> h < maxH
  {
    if w.log == [] {
      assert Heights(w.log) == {};
    } else {
      assert w.log[|w.log| - 1] == log[|w.log| - 1];
    }
  }

  lemma SkippedTogether(w: World, r: Process, given: set<int>, maxH: int)
    requires Continues(w, r) && given == r.earlierSkips + Below(GivenUp(r.p), Frontier(r.p))
    requires maxH < Frontier(r.p) && forall h :: h in w.skipped ==> h < maxH
    ensures Below(w.skipped, r.start) + Below(given, maxH + 1) == w.skipped + (set h | h in Skips(r) && h <= maxH)
  {
  }

  lemma CommitKeepsDurable(w: World, r: Process, id: int, maxH: int, work: Db)
    requires r.flushed <= |Written(r)| && w.db == PersistBlocks(map[], w.log) && work == PersistBlocks(w.db, Pending(r))
    requires Pending(r) != [] && maxH == Pending(r)[|Pending(r)| - 1].height
    requires Covers(w.origin, maxH + 1, w.log + Pending(r), w.skipped + (set h | h in Skips(r) && h <= maxH))
    ensures Durable(Commit(w, r, id, maxH, work))
  {
    var w1 := Commit(w, r, id, maxH, work);
    PersistBlocksConcat(map[], w.log, Pending(r));
    assert w1.log == w.log + Pending(r);
    assert w1.log[|w1.log| - 1] == Pending(r)[|Pending(r)| - 1];
  }

  lemma SkipsBehindStart(r: Process)
    requires Inv(r.cfg, r.p) && RangesDone(r)
    ensures forall h :: h in Skips(r) ==> h >= r.start
  {
    forall h | h in r.earlierSkips ensures h >= r.start {
      assert r.start <= h < r.cfg.from;
    }
  }

  lemma CommitContinues(w: World, r: Process, id: int, maxH: int, work: Db)
    requires Continues(w, r) && forall h :: h in Skips(r) ==> h >= r.start
    ensures var w1 := Commit(w, r, id, maxH, work); Continues(w1, w1.process.value)
  {
    var w1 := Commit(w, r, id, maxH, work);
    var t := w1.process.value;
    CommitFrame(w, r, id, maxH, work);
    assert w1.log == t.base + Written(t)[..t.flushed];
    SkippedBelow(w.skipped, Skips(r), r.start, maxH);
  }

  lemma SkippedBelow(skipped: set<int>, skips: set<int>, start: int, maxH: int)
    requires forall h :: h in skips ==> h >= start
    ensures Below(skipped + (set h | h in skips && h <= maxH), start) == Below(skipped, start)
  {
  }

  lemma CommitKeepsAll(w: World, id: int, maxH: int, work: Db)
    requires WorldInv(w) && w.process.Some? && id in w.process.value.flights
    requires w.process.value.flights[id] == Committing(maxH, work)
    ensures WorldInv(Commit(w, w.process.value, id, maxH, work))
  {
    var r := w.process.value;
    assert StageInv(w.db, r.buf, Pending(r), r.flights[id]);
    CommitCovers(w, r, maxH);
    CommitKeepsDurable(w, r, id, maxH, work);
    SkipsBehindStart(r);
    CommitContinues(w, r, id, maxH, work);
    CommitKeepsProcess(w, r, id, maxH, work);
  }

  lemma GrowthKeeps(w: World, e: WorldEvent)
    requires WorldInv(w) && WorldEnabled(w, e) && !IsCommit(w, e) && !e.Boot? && !e.Kill?
    ensures var w1 := WorldNext(w, e); Durable(w1) && w1.process.Some? && Continues(w1, w1.process.value)
  {
    OnlyCommitsStore(w, e);
    BooksGrow(w, e);
    var w1 := WorldNext(w, e);
    SameStoreDurable(w, w1);
    GrowthContinues(w, w.process.value, w1.process.value);
    SameStoreContinues(w, w1, w1.process.value);
  }

  /** Every event of a run whose boots resume, kills at any point included, keeps the whole invariant. */
  lemma WorldNextInv(w: World, e: WorldEvent)
    requires WorldInv(w) && WorldEnabled(w, e) && Resumes(w, e)
    ensures WorldInv(WorldNext(w, e))
  {
    if IsCommit(w, e) {
      CommitKeepsAll(w, e.id, w.process.value.flights[e.id].maxH, w.process.value.flights[e.id].work);
    } else {
      AnyNextInv(w, e);
      if e.Boot? { BootContinues(w, e); } else if !e.Kill? { GrowthKeeps(w, e); }
    }
  }

  lemma {:induction false} WorldRunInv(w: World, es: seq<WorldEvent>)
    requires WorldInv(w) && ValidWorldRun(w, es) && AllResume(w, es)
    ensures WorldInv(WorldRun(w, es))
    decreases |es|
  {
    if es != [] {
      WorldNextInv(w, es[0]);
      WorldRunInv(WorldNext(w, es[0]), es[1..]);
    }
  }

  lemma FreshInv()
    ensures WorldInv(FRESH)
  {
    CoversNothing(0);
  }

  // ------------------------------------------------------------------ a process that never goes back

  lemma CommitAhead(w: World, r: Process, id: int, maxH: int, work: Db)
    requires ProcessInv(w, r) && Ahead(w, r) && id in r.flights && r.flights[id] == Committing(maxH, work)
    ensures Ahead(Commit(w, r, id, maxH, work), Commit(w, r, id, maxH, work).process.value)
    ensures w.progress.Some? ==> w.progress.value <= maxH
  {
    assert StageInv(w.db, r.buf, Pending(r), r.flights[id]);
    CommitFrame(w, r, id, maxH, work);
    WrittenCovers(r);
    LastIsAhead(w, r, maxH, Frontier(r.p), r.earlierSkips + Below(GivenUp(r.p), Frontier(r.p)));
  }

  lemma LastIsAhead(w: World, r: Process, maxH: int, until: int, skips: set<int>)
    requires Ahead(w, r) && Covers(r.start, until, Written(r), skips)
    requires r.flushed <= |Written(r)| && Pending(r) != [] && maxH == Pending(r)[|Pending(r)| - 1].height
    ensures maxH == Written(r)[|Written(r)| - 1].height && (w.progress.Some? ==> w.progress.value <= maxH)
  {
    assert Written(r)[|Written(r)| - 1] == Pending(r)[|Pending(r)| - 1];
    assert maxH in Heights(Written(r));
  }

  lemma GrowthAhead(w: World, w1: World, r: Process, t: Process)
    requires Ahead(w, r) && SameBooks(r, t) && w1.progress == w.progress
    ensures Ahead(w1, t)
  {
  }

  /** Every event of a run whose boots start at the recorded height or behind it keeps the process ahead. */
  lemma AheadNextInv(w: World, e: WorldEvent)
    requires AheadInv(w) && WorldEnabled(w, e) && StartsAhead(w, e)
    ensures AheadInv(WorldNext(w, e))
    ensures w.progress.Some? ==> WorldNext(w, e).progress.Some? && w.progress.value <= WorldNext(w, e).progress.value
  {
    AnyNextInv(w, e);
    if IsCommit(w, e) {
      CommitAhead(w, w.process.value, e.id, w.process.value.flights[e.id].maxH, w.process.value.flights[e.id].work);
    } else {
      OnlyCommitsStore(w, e);
      if !e.Boot? && !e.Kill? {
        BooksGrow(w, e);
        GrowthAhead(w, WorldNext(w, e), w.process.value, WorldNext(w, e).process.value);
      }
    }
  }

  /** A process that has resumed never goes back. */
  lemma ContinuesAhead(w: World)
    requires WorldInv(w)
    ensures AheadInv(w)
  {
    if w.process.Some? && w.progress.Some? { LogEndsAhead(w, w.process.value); }
  }

  lemma LogEndsAhead(w: World, r: Process)
    requires Durable(w) && Continues(w, r) && w.progress.Some?
    ensures Ahead(w, r)
  {
    if r.flushed == 0 {
      assert Written(r)[..0] == [] && w.log == r.base;
      assert w.log[|w.log| - 1].height in Heights(r.base);
    } else {
      assert w.log[|w.log| - 1] == Written(r)[r.flushed - 1];
    }
  }
}
