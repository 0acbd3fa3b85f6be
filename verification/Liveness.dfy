/** Pipeline and sink together: something can always happen until the range is done. */
module Liveness {
  import opened Blocks
  import opened Sequences
  import opened Batch
  import opened Database
  import opened Extraction
  import opened Persistence
  import opened Acceptance
  import opened Sink
  import opened Pipeline
  import opened PipelineInvariant
  import opened PipelineTheorems
  import opened Recovery
  import opened RecoveryInvariant
  import opened RecoverySteps
  import opened FlushTheorems

  /** In the middle of a flush the next table's own statements are accepted. */
  lemma NextTableAccepted(db: Db, buf: Buffers, pending: seq<Block>, stage: Stage) returns (statements: seq<seq<Row>>)
    requires StageInv(db, buf, pending, stage) && stage.Executing? && Consistent(db)
    requires forall t: Table :: TableAccepted(db, pending, t)
    ensures stage.table < |ORDER|
    ensures Concat(statements) == FlushRows(stage.rows, ORDER[stage.table]) && ExecStatements(stage.work, statements).Some?
  {
    var t := ORDER[stage.table];
    statements := Slices(FlushRows(BlocksTable(pending, t), t), LimitOf(t));
    SlicesConcat(FlushRows(BlocksTable(pending, t), t), LimitOf(t));
    TableAcceptedIff(db, pending, stage.table);
  }

  lemma StageGoesOn(w: World, r: Process, id: int) returns (statements: seq<seq<Row>>)
    requires r.flushed <= |Written(r)| && id in r.flights && !r.flights[id].Completed? && Ascending(Pending(r))
    requires StageInv(w.db, r.buf, Pending(r), r.flights[id]) && Consistent(w.db)
    requires forall t: Table :: TableAccepted(w.db, Pending(r), t)
    ensures StepEnabled(r, id, statements)
  {
    statements := [];
    if r.flights[id].Connecting? {
      MaximumIsLast(r.buf, Pending(r));
    } else if r.flights[id].Executing? {
      statements := NextTableAccepted(w.db, r.buf, Pending(r), r.flights[id]);
    }
  }

  /** A completed sink call lets its pipeline call go on. */
  lemma WriteGoesOn(r: Process, id: int)
    requires OneFlight(r) && r.p.resolves == 0 && id in r.flights && r.flights[id].Completed?
    ensures id >= 0 && PipeEnabled(r, WriteDone(id))
  {
    assert id in WriterIds(r.p);
  }

  lemma WithoutFlights(r: Process) returns (e: Event)
    requires Inv(r.cfg, r.p) && OneFlight(r) && r.flights == map[] && r.p.resolves == 0
    requires r.cfg.from <= r.cfg.to && r.cfg.concurrency >= 1
    ensures PipeEnabled(r, e)
  {
    e := DeadlockFree(r.cfg, r.p);
  }

  lemma SomeFlight(flights: map<int, Stage>)
    ensures flights != map[] ==> exists id :: id in flights
  {
    if forall id :: id !in flights { assert flights == map[]; }
  }

  /**
   Pipeline and sink together do not lock up: in every run, while a process has an unresolved range and the
   tables accept what is pending, a fetch can settle, a call can go on or a flush can take its next step.
   */
  lemma WorldDeadlockFree(es: seq<WorldEvent>, r: Process) returns (e: WorldEvent)
    requires ValidWorldRun(FRESH, es) && WorldRun(FRESH, es).process == Some(r) && r.flushed <= |Written(r)|
    requires r.p.resolves == 0 && r.cfg.from <= r.cfg.to && r.cfg.concurrency >= 1
    requires forall t: Table :: TableAccepted(WorldRun(FRESH, es).db, Pending(r), t)
    ensures (e.Pipe? || e.SinkStep?) && WorldEnabled(WorldRun(FRESH, es), e)
  {
    ReachedInv(es);
    e := SomethingEnabled(WorldRun(FRESH, es), r);
  }

  lemma SomethingEnabled(w: World, r: Process) returns (e: WorldEvent)
    requires WholeInv(w) && w.process == Some(r)
    requires r.p.resolves == 0 && r.cfg.from <= r.cfg.to && r.cfg.concurrency >= 1
    requires forall t: Table :: TableAccepted(w.db, Pending(r), t)
    ensures (e.Pipe? || e.SinkStep?) && WorldEnabled(w, e)
  {
    if r.flights == map[] {
      var pe := WithoutFlights(r);
      e := Pipe(pe);
    } else {
      SomeFlight(r.flights);
      var id :| id in r.flights;
      if r.flights[id].Completed? {
        WriteGoesOn(r, id);
        e := Pipe(WriteDone(id));
      } else {
        PendingAscends(r);
        assert StageInv(w.db, r.buf, Pending(r), r.flights[id]);
        var statements := StageGoesOn(w, r, id);
        e := SinkStep(id, statements);
      }
    }
  }
}
