/**
 The whole indexer over any number of process lives: the pipeline feeding the buffered sink, its
 transaction with the progress row, range after range, killed at any point and resumed.

 A failed write or flush is fail-stop, so it is a kill as well: what was not committed is lost.
 */
module Recovery {
  import opened Blocks
  import opened Sequences
  import opened Database
  import opened Extraction
  import opened Persistence
  import opened Sink
  import opened Pipeline
  import opened PipelineInvariant
  import opened PipelineTheorems

  /** Where an outstanding `sink.write` or `sink.flush` is suspended. */
  datatype Stage =
    | Connecting
    | Preparing(maxH: int)                                          // heights read, BEGIN awaited
    | Executing(maxH: int, table: nat, work: Db, rows: seq<Row>)    // statements of one table awaited
    | Committing(maxH: int, work: Db)                               // progress row and COMMIT awaited
    | Completed

  /** The volatile state of a running process, and some of its history. */
  datatype Process = Process(
    limits: Limits,
    cfg: Config,
    p: State,
    buf: Buffers,
    flights: map<int, Stage>,     // outstanding sink calls: writes by call number, the runner's flush as -1
    start: int,                   // history: first height of this process
    base: seq<Block>,             // history: the log when the process started
    earlier: seq<Block>,          // history: blocks written in earlier ranges of this process
    earlierSkips: set<int>,       // history: heights given up in earlier ranges
    flushed: nat                  // history: how many of the written blocks are committed
  )

  datatype World = World(
    db: Db,
    progress: Option<int>,
    origin: int,                  // history: where the last process that found no progress row has started
    log: seq<Block>,              // history: the committed blocks, in order
    skipped: set<int>,            // history: the given-up heights that commits have passed over
    process: Option<Process>
  )

  datatype WorldEvent =
    | Boot(limits: Limits, from: int, to: int, concurrency: int, maxRetries: int)
    | NextRange(to: int, concurrency: int, maxRetries: int)
    | Pipe(e: Event)
    | FinalFlush
    | SinkStep(id: int, statements: seq<seq<Row>>)
    | Kill

  const RUNNER: int := -1

  /** Blocks this process has handed to the sink. */
  function Written(r: Process): seq<Block> { r.earlier + r.p.written }

  /** Handed to the sink and not committed. */
  function Pending(r: Process): seq<Block>
    requires r.flushed <= |Written(r)|
  {
    Written(r)[r.flushed..]
  }

  function GivenUp(s: State): set<int> { set h | h in s.outcome && s.outcome[h].GaveUp? }

  function Skips(r: Process): set<int> { r.earlierSkips + GivenUp(r.p) }

  /** Row arrays of one block. */
  function RowsOf(b: Block): Buffers {
    Buffers(BlockTable(b, Blocks), BlockTable(b, Txs), BlockTable(b, Msgs), BlockTable(b, Events), BlockTable(b, Attrs),
            BlockTable(b, Transfers), BlockTable(b, StakeDeleg), BlockTable(b, StakeDistr), BlockTable(b, WasmExecs),
            BlockTable(b, WasmEvents))
  }

  lemma RowsOfTable(b: Block, t: Table)
    ensures RowsOf(b).Of(t) == BlockTable(b, t)
  {
    match t
    case Blocks =>
    case Txs =>
    case Msgs =>
    case Events =>
    case Attrs =>
    case Transfers =>
    case StakeDeleg =>
    case StakeDistr =>
    case WasmExecs =>
    case WasmEvents =>
  }

  /** The synchronous part of `sink.write`: push the rows, then start a flush if a threshold is reached. */
  function StartWrite(r: Process, id: int, b: Block): Process {
    var buf := r.buf.Push(RowsOf(b));
    r.(buf := buf, flights := r.flights[id := if NeedFlush(buf, r.limits) then Connecting else Completed])
  }

  /** A pipeline event; its flush loop may take one block out of `ready` and call `sink.write`. */
  function PipeStep(r: Process, e: Event): Process
    requires Enabled(r.p, e)
  {
    var p := Next(r.cfg, r.p, e);
    var r1 := r.(p := p, flights := if e.WriteDone? then r.flights - {e.id} else r.flights);
    if |p.written| > |r.p.written| && Settling(e) then StartWrite(r1, e.id, p.written[|p.written| - 1]) else r1
  }

  predicate PipeEnabled(r: Process, e: Event) {
    Enabled(r.p, e) && (e.WriteDone? ==> e.id in r.flights && r.flights[e.id].Completed?)
  }

  predicate StepEnabled(r: Process, id: int, statements: seq<seq<Row>>) {
    && id in r.flights && !r.flights[id].Completed?
    && (r.flights[id].Connecting? ==> AllHeights(r.buf) != [])
    && (r.flights[id].Executing? ==>
          && r.flights[id].table < |ORDER|
          && Concat(statements) == FlushRows(r.flights[id].rows, ORDER[r.flights[id].table])
          && ExecStatements(r.flights[id].work, statements).Some?)
  }

  /** One stretch of `flushAll` between two awaits. */
  function SinkStepResult(w: World, r: Process, id: int, statements: seq<seq<Row>>): World
    requires StepEnabled(r, id, statements)
  {
    match r.flights[id]
    case Connecting =>
      w.(process := Some(r.(flights := r.flights[id := Preparing(Maximum(AllHeights(r.buf)))])))
    case Preparing(maxH) =>
      w.(process := Some(r.(flights := r.flights[id := Executing(maxH, 0, w.db, r.buf.Of(ORDER[0]))])))
    case Executing(maxH, i, work, rows) =>
      var work' := ExecStatements(work, statements).value;
      var buf := r.buf.Clear(ORDER[i]);
      var next := if i + 1 < |ORDER| then Executing(maxH, i + 1, work', buf.Of(ORDER[i + 1])) else Committing(maxH, work');
      w.(process := Some(r.(buf := buf, flights := r.flights[id := next])))
    case Committing(maxH, work) => Commit(w, r, id, maxH, work)
    case Completed => w
  }

  /** COMMIT: the rows and the progress row become durable together. */
  function Commit(w: World, r: Process, id: int, maxH: int, work: Db): World {
    var flights := if id == RUNNER then r.flights - {id} else r.flights[id := Completed];
    World(work, Some(maxH), w.origin,
          w.log + (if r.flushed <= |Written(r)| then Pending(r) else []),
          w.skipped + (set h | h in Skips(r) && h <= maxH),
          Some(r.(flights := flights, flushed := |Written(r)|)))
  }

  predicate WorldEnabled(w: World, e: WorldEvent) {
    match e
    case Boot(_, _, _, _, _) => w.process.None?
    case NextRange(to, _, _) =>
      w.process.Some? && w.process.value.p.resolves == 1 && w.process.value.flights == map[] && to >= w.process.value.cfg.to + 1
    case Pipe(pe) => w.process.Some? && PipeEnabled(w.process.value, pe)
    case FinalFlush => w.process.Some? && w.process.value.p.resolves == 1 && w.process.value.flights == map[]
    case SinkStep(id, statements) => w.process.Some? && StepEnabled(w.process.value, id, statements)
    case Kill => true
  }

  function WorldNext(w: World, e: WorldEvent): World
    requires WorldEnabled(w, e)
  {
    match e
    case Boot(limits, from, to, concurrency, maxRetries) =>
      var cfg := Config(from, to, concurrency, maxRetries);
      w.(origin := if w.progress.None? then from else w.origin,
         process := Some(Process(limits, cfg, Init(cfg), NO_ROWS, map[], from, w.log, [], {}, 0)))
    case NextRange(to, concurrency, maxRetries) =>
      var r := w.process.value;
      var cfg := Config(r.cfg.to + 1, to, concurrency, maxRetries);
      w.(process := Some(r.(cfg := cfg, p := Init(cfg), earlier := Written(r), earlierSkips := Skips(r))))
    case Pipe(pe) => w.(process := Some(PipeStep(w.process.value, pe)))
    case FinalFlush =>
      var r := w.process.value;
      if AllEmpty(r.buf) then w else w.(process := Some(r.(flights := r.flights[RUNNER := Connecting])))
    case SinkStep(id, statements) => SinkStepResult(w, w.process.value, id, statements)
    case Kill => w.(process := None)
  }

  /** `index.ts`: the height a run starts from, given the recorded progress. */
  function StartHeight(from: Option<int>, resume: bool, firstBlock: Option<int>, earliest: int, last: Option<int>): int {
    if WantResume(from, resume) then
      if last.Some? then last.value + 1
      else if from.Some? then from.value else if firstBlock.Some? then firstBlock.value else earliest
    else from.value
  }

  predicate WantResume(from: Option<int>, resume: bool) { from.None? || from == Some(0) || resume }

  function ResumePoint(progress: Option<int>, origin: int): int { if progress.Some? then progress.value + 1 else origin }

  /** A run continues behind the recorded progress if and only if it resumes, or is told that very height. */
  lemma ContinuesIff(from: Option<int>, resume: bool, firstBlock: Option<int>, earliest: int, last: int)
    ensures StartHeight(from, resume, firstBlock, earliest, Some(last)) == ResumePoint(Some(last), 0) <==>
            WantResume(from, resume) || from == Some(last + 1)
  {
  }

  /** While nothing is recorded a run starts where it is told, else at the configured first block, else at the earliest. */
  lemma FirstStartIs(from: Option<int>, resume: bool, firstBlock: Option<int>, earliest: int)
    ensures var start := StartHeight(from, resume, firstBlock, earliest, None);
            && (from.Some? ==> start == from.value)
            && (from.None? && firstBlock.Some? ==> start == firstBlock.value)
            && (from.None? && firstBlock.None? ==> start == earliest)
  {
  }

  /** The events of `es` can happen one after the other, whatever heights the boots are given. */
  predicate ValidWorldRun(w: World, es: seq<WorldEvent>)
    decreases |es|
  {
    es == [] || (WorldEnabled(w, es[0]) && ValidWorldRun(WorldNext(w, es[0]), es[1..]))
  }

  function WorldRun(w: World, es: seq<WorldEvent>): World
    requires ValidWorldRun(w, es)
    decreases |es|
  {
    if es == [] then w else WorldRun(WorldNext(w, es[0]), es[1..])
  }

  /** A boot that finds a progress row starts behind it; with none, it may start anywhere. */
  predicate Resumes(w: World, e: WorldEvent) { e.Boot? && w.progress.Some? ==> e.from == w.progress.value + 1 }

  predicate AllResume(w: World, es: seq<WorldEvent>)
    requires ValidWorldRun(w, es)
    decreases |es|
  {
    es == [] || (Resumes(w, es[0]) && AllResume(WorldNext(w, es[0]), es[1..]))
  }

  /** A boot that finds a progress row starts at its height or behind it. */
  predicate StartsAhead(w: World, e: WorldEvent) { e.Boot? && w.progress.Some? ==> e.from >= w.progress.value }

  predicate AllStartAhead(w: World, es: seq<WorldEvent>)
    requires ValidWorldRun(w, es)
    decreases |es|
  {
    es == [] || (StartsAhead(w, es[0]) && AllStartAhead(WorldNext(w, es[0]), es[1..]))
  }

  const FRESH: World := World(map[], None, 0, [], {}, None)
}
