/** Runs that take a flush through all its stages: nothing but a refused row or a kill keeps it from its COMMIT. */
module FlushRuns {
  import opened Blocks
  import opened Sequences
  import opened Batch
  import opened Database
  import opened Extraction
  import opened Persistence
  import opened Acceptance
  import opened Sink
  import opened Pipeline
  import opened PipelineInvariant
  import opened Recovery
  import opened RecoveryInvariant
  import opened RecoverySteps
  import opened RecoveryTheorems

  ghost predicate Reaches(w: World, es: seq<WorldEvent>, t: World) { ValidWorldRun(w, es) && WorldRun(w, es) == t }

  lemma OneEventMore(w: World, e: WorldEvent, es: seq<WorldEvent>, t: World)
    requires WorldEnabled(w, e) && Reaches(WorldNext(w, e), es, t)
    ensures Reaches(w, [e] + es, t)
  {
    assert ([e] + es)[0] == e && ([e] + es)[1..] == es;
  }

  lemma TwoEventsMore(w: World, d: WorldEvent, e: WorldEvent, es: seq<WorldEvent>, t: World)
    requires WorldEnabled(w, d) && WorldEnabled(WorldNext(w, d), e) && Reaches(WorldNext(WorldNext(w, d), e), es, t)
    ensures Reaches(w, [d] + ([e] + es), t)
  {
    OneEventMore(WorldNext(w, d), e, es, t);
    OneEventMore(w, d, [e] + es, t);
  }

  // ------------------------------------------------------------------ the stages of one sink call

  /** The process `r` while its only sink call is suspended in `stage`. */
  function During(w: World, r: Process, id: int, buf: Buffers, stage: Stage): World {
    w.(process := Some(r.(buf := buf, flights := map[id := stage])))
  }

  lemma StageUpdated(w: World, r: Process, id: int, buf: Buffers, stage: Stage, buf1: Buffers, stage1: Stage)
    ensures var s := During(w, r, id, buf, stage).process.value;
            During(w, r, id, buf, stage).(process := Some(s.(buf := buf1, flights := s.flights[id := stage1]))) ==
            During(w, r, id, buf1, stage1)
  {
    assert map[id := stage][id := stage1] == map[id := stage1];
  }

  lemma ConnectStep(w: World, r: Process, id: int, buf: Buffers)
    requires AllHeights(buf) != []
    ensures WorldEnabled(During(w, r, id, buf, Connecting), SinkStep(id, []))
    ensures WorldNext(During(w, r, id, buf, Connecting), SinkStep(id, [])) ==
            During(w, r, id, buf, Preparing(Maximum(AllHeights(buf))))
  {
    StageUpdated(w, r, id, buf, Connecting, buf, Preparing(Maximum(AllHeights(buf))));
  }

  lemma PrepareStep(w: World, r: Process, id: int, buf: Buffers, maxH: int)
    ensures WorldEnabled(During(w, r, id, buf, Preparing(maxH)), SinkStep(id, []))
    ensures WorldNext(During(w, r, id, buf, Preparing(maxH)), SinkStep(id, [])) ==
            During(w, r, id, buf, Executing(maxH, 0, w.db, buf.Of(ORDER[0])))
  {
    StageUpdated(w, r, id, buf, Preparing(maxH), buf, Executing(maxH, 0, w.db, buf.Of(ORDER[0])));
  }

  lemma TableStep(w: World, r: Process, id: int, buf: Buffers, maxH: int, i: nat, work: Db, statements: seq<seq<Row>>)
    requires i < |ORDER| && Concat(statements) == FlushRows(buf.Of(ORDER[i]), ORDER[i]) && ExecStatements(work, statements).Some?
    ensures var w1 := During(w, r, id, buf, Executing(maxH, i, work, buf.Of(ORDER[i])));
            var buf1 := buf.Clear(ORDER[i]);
            && WorldEnabled(w1, SinkStep(id, statements))
            && WorldNext(w1, SinkStep(id, statements)) ==
               During(w, r, id, buf1, NextStage(maxH, i, ExecStatements(work, statements).value, buf1))
  {
    var buf1 := buf.Clear(ORDER[i]);
    var stage1 := NextStage(maxH, i, ExecStatements(work, statements).value, buf1);
    StageUpdated(w, r, id, buf, Executing(maxH, i, work, buf.Of(ORDER[i])), buf1, stage1);
  }

  // ------------------------------------------------------------------ all of them

  /** For every table a split of the pending rows into statements that the open transaction accepts. */
  ghost predicate Accepts(db: Db, pending: seq<Block>, split: seq<seq<seq<Row>>>) {
    && |split| == |ORDER|
    && forall i :: 0 <= i < |ORDER| ==> TableSplit(db, pending, i, split[i])
  }

  ghost predicate TableSplit(db: Db, pending: seq<Block>, i: nat, statements: seq<seq<Row>>)
    requires i < |ORDER|
  {
    && Concat(statements) == FlushRows(BlocksTable(pending, ORDER[i]), ORDER[i])
    && ExecStatements(Partial(db, pending, i), statements).Some?
  }

  /** The statements of the tables from the `i`-th on, and the COMMIT. */
  function Tables(id: int, split: seq<seq<seq<Row>>>, i: nat): seq<WorldEvent>
    decreases |split| - i
  {
    if i >= |split| then [SinkStep(id, [])] else [SinkStep(id, split[i])] + Tables(id, split, i + 1)
  }

  /** The world behind the COMMIT. */
  function Committed(w: World, r: Process, id: int, maxH: int, pending: seq<Block>): World {
    var work := PersistBlocks(w.db, pending);
    Commit(w, r.(buf := NO_ROWS, flights := map[id := Committing(maxH, work)]), id, maxH, work)
  }

  lemma CommitStep(w: World, r: Process, id: int, maxH: int, pending: seq<Block>, split: seq<seq<seq<Row>>>)
    requires |split| == |ORDER|
    ensures Reaches(During(w, r, id, NO_ROWS, Committing(maxH, PersistBlocks(w.db, pending))), Tables(id, split, |ORDER|),
                    Committed(w, r, id, maxH, pending))
  {
    var w1 := During(w, r, id, NO_ROWS, Committing(maxH, PersistBlocks(w.db, pending)));
    assert WorldNext(w1, SinkStep(id, [])) == Committed(w, r, id, maxH, pending);
    OneEventMore(w1, SinkStep(id, []), [], Committed(w, r, id, maxH, pending));
    assert [SinkStep(id, [])] + [] == [SinkStep(id, [])];
  }

  lemma TableSplitStep(db: Db, buf: Buffers, pending: seq<Block>, i: nat, statements: seq<seq<Row>>)
    requires i < |ORDER| && FlushedUpTo(buf, pending, i) && TableSplit(db, pending, i, statements)
    ensures buf.Of(ORDER[i]) == BlocksTable(pending, ORDER[i])
    ensures FlushedUpTo(buf.Clear(ORDER[i]), pending, i + 1)
    ensures ExecStatements(Partial(db, pending, i), statements).value == Partial(db, pending, i + 1)
  {
    PositionOf(i);
    StatementsApplyAll(Partial(db, pending, i), statements);
    PartialStep(db, pending, i);
    forall t: Table ensures buf.Clear(ORDER[i]).Of(t) == if Position(t) < i + 1 then [] else BlocksTable(pending, t) {
      assert buf.Of(t) == if Position(t) < i then [] else BlocksTable(pending, t);
      assert Position(t) == i ==> t == ORDER[i];
    }
  }

  lemma NothingLeft(buf: Buffers, pending: seq<Block>)
    requires FlushedUpTo(buf, pending, |ORDER|)
    ensures buf == NO_ROWS
  {
    forall t: Table ensures buf.Of(t) == NO_ROWS.Of(t) {}
    SameBuffers(buf, NO_ROWS);
  }

  lemma TableDoneStep(w: World, r: Process, id: int, buf: Buffers, maxH: int, pending: seq<Block>, i: nat, statements: seq<seq<Row>>)
    requires i < |ORDER| && FlushedUpTo(buf, pending, i) && TableSplit(w.db, pending, i, statements)
    ensures var w1 := During(w, r, id, buf, Executing(maxH, i, Partial(w.db, pending, i), buf.Of(ORDER[i])));
            var buf1 := buf.Clear(ORDER[i]);
            && WorldEnabled(w1, SinkStep(id, statements)) && FlushedUpTo(buf1, pending, i + 1)
            && WorldNext(w1, SinkStep(id, statements)) ==
               During(w, r, id, buf1, NextStage(maxH, i, Partial(w.db, pending, i + 1), buf1))
  {
    TableSplitStep(w.db, buf, pending, i, statements);
    TableStep(w, r, id, buf, maxH, i, Partial(w.db, pending, i), statements);
  }

  /** The world in which the flushers of the first `i` tables are done. */
  function AtTable(w: World, r: Process, id: int, buf: Buffers, maxH: int, pending: seq<Block>, i: nat): World
    requires i < |ORDER|
  {
    During(w, r, id, buf, Executing(maxH, i, Partial(w.db, pending, i), buf.Of(ORDER[i])))
  }

  lemma {:induction false} TablesReach(w: World, r: Process, id: int, buf: Buffers, maxH: int, pending: seq<Block>,
                                       split: seq<seq<seq<Row>>>, i: nat, t: World)
    requires Accepts(w.db, pending, split) && i < |ORDER| && FlushedUpTo(buf, pending, i)
    requires Reaches(During(w, r, id, NO_ROWS, Committing(maxH, PersistBlocks(w.db, pending))), Tables(id, split, |ORDER|), t)
    ensures Reaches(AtTable(w, r, id, buf, maxH, pending, i), Tables(id, split, i), t)
    decreases |ORDER| - i
  {
    assert TableSplit(w.db, pending, i, split[i]);
    TableDoneStep(w, r, id, buf, maxH, pending, i, split[i]);
    var buf1 := buf.Clear(ORDER[i]);
    if i + 1 < |ORDER| {
      TablesReach(w, r, id, buf1, maxH, pending, split, i + 1, t);
    } else {
      NothingLeft(buf1, pending);
      PartialEnds(w.db, pending);
    }
    OneEventMore(AtTable(w, r, id, buf, maxH, pending, i), SinkStep(id, split[i]), Tables(id, split, i + 1), t);
  }

  /** The stretches of one flush, from the awaited connection to the COMMIT. */
  function FlushSteps(id: int, split: seq<seq<seq<Row>>>): seq<WorldEvent> {
    [SinkStep(id, [])] + ([SinkStep(id, [])] + Tables(id, split, 0))
  }

  lemma FlushReaches(w: World, r: Process, id: int, buf: Buffers, pending: seq<Block>, split: seq<seq<seq<Row>>>)
    requires HoldsBlocks(buf, pending) && AllHeights(buf) != [] && Accepts(w.db, pending, split)
    ensures Reaches(During(w, r, id, buf, Connecting), FlushSteps(id, split),
                    Committed(w, r, id, Maximum(AllHeights(buf)), pending))
  {
    var maxH := Maximum(AllHeights(buf));
    ConnectStep(w, r, id, buf);
    PrepareStep(w, r, id, buf, maxH);
    PartialEnds(w.db, pending);
    FromTheFirst(buf, pending);
    CommitStep(w, r, id, maxH, pending, split);
    TablesReach(w, r, id, buf, maxH, pending, split, 0, Committed(w, r, id, maxH, pending));
    TwoEventsMore(During(w, r, id, buf, Connecting), SinkStep(id, []), SinkStep(id, []), Tables(id, split, 0),
                  Committed(w, r, id, maxH, pending));
  }

  lemma FromTheFirst(buf: Buffers, pending: seq<Block>)
    requires HoldsBlocks(buf, pending)
    ensures FlushedUpTo(buf, pending, 0)
  {
    forall t: Table ensures buf.Of(t) == BlocksTable(pending, t) {}
  }

  lemma {:induction false} TablesAreSteps(id: int, split: seq<seq<seq<Row>>>, i: nat)
    ensures forall e :: e in Tables(id, split, i) ==> e.SinkStep?
    decreases |split| - i
  {
    if i < |split| { TablesAreSteps(id, split, i + 1); }
  }

  lemma FlushStepsAreSteps(id: int, split: seq<seq<seq<Row>>>)
    ensures forall e :: e in FlushSteps(id, split) ==> e.SinkStep?
  {
    TablesAreSteps(id, split, 0);
  }
}
