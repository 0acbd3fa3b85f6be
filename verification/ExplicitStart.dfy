/** A process that is told where to start, and what becomes of the recorded height. */
module ExplicitStart {
  import opened Blocks
  import opened Sequences
  import opened Database
  import opened Extraction
  import opened Persistence
  import opened Sink
  import opened Pipeline
  import opened Recovery
  import opened RecoveryInvariant
  import opened RecoverySteps
  import opened RecoveryTheorems
  import opened Acceptance
  import opened FlushRuns

  /** One process life that begins at height `f`, with any settings and any interleaving. */
  predicate OneLife(f: int, es: seq<WorldEvent>) {
    es != [] && es[0].Boot? && es[0].from == f && NoBoot(es[1..])
  }

  predicate NoBoot(es: seq<WorldEvent>) { forall e <- es :: !e.Boot? }

  lemma {:induction false} NoBootStartsAhead(w: World, es: seq<WorldEvent>)
    requires ValidWorldRun(w, es) && NoBoot(es)
    ensures AllStartAhead(w, es)
    decreases |es|
  {
    if es != [] {
      assert es[0] in es;
      NoBootStartsAhead(WorldNext(w, es[0]), es[1..]);
    }
  }

  lemma EventKeepsLimits(w: World, e: WorldEvent)
    requires WorldEnabled(w, e) && !e.Boot? && WorldNext(w, e).process.Some?
    ensures w.process.Some? && WorldNext(w, e).process.value.limits == w.process.value.limits
  {
  }

  lemma {:induction false} LimitsStay(w: World, es: seq<WorldEvent>)
    requires ValidWorldRun(w, es) && NoBoot(es) && WorldRun(w, es).process.Some?
    ensures w.process.Some? && WorldRun(w, es).process.value.limits == w.process.value.limits
    decreases |es|
  {
    if es != [] {
      assert es[0] in es;
      LimitsStay(WorldNext(w, es[0]), es[1..]);
      EventKeepsLimits(w, es[0]);
    }
  }

  /** Throughout its life a process has the thresholds that it was booted with. */
  lemma LifeKeepsItsLimits(w: World, f: int, es: seq<WorldEvent>)
    requires OneLife(f, es) && ValidWorldRun(w, es) && WorldRun(w, es).process.Some?
    ensures WorldRun(w, es).process.value.limits == es[0].limits
  {
    LimitsStay(WorldNext(w, es[0]), es[1..]);
  }

  lemma StartKeeps(w: World, last: int, f: int, es: seq<WorldEvent>)
    requires w.process.None? && w.progress == Some(last) && OneLife(f, es) && ValidWorldRun(w, es) && f >= last
    ensures ProgressAtLeast(WorldRun(w, es), last)
  {
    NoBootStartsAhead(WorldNext(w, es[0]), es[1..]);
    ProgressNeverDecreases(w, es);
  }

  predicate ProgressAtLeast(w: World, last: int) { w.progress.Some? && w.progress.value >= last }

  // ------------------------------------------------------------------ a life that records a smaller height

  const ONE_ROW: Limits := Limits(1, 1, 1, 1, 1, 1, 1, 1, 1, 1)

  /** One statement for the row of the block; the other tables have none. */
  function PlainSplit(f: int): seq<seq<seq<Row>>> {
    [[[RowOfBlock(PlainBlock(f))]], [], [], [], [], [], [], [], [], []]
  }

  /** Syncs the range [f, f]: the block is fetched and written, and its flush goes through every stage. */
  function ShortLife(f: int): seq<WorldEvent> {
    [Boot(ONE_ROW, f, f, 1, 0)] + ([Pipe(FetchOk(0, PlainBlock(f)))] + FlushSteps(0, PlainSplit(f)))
  }

  ghost predicate Records(w: World, es: seq<WorldEvent>, f: int) { ValidWorldRun(w, es) && WorldRun(w, es).progress == Some(f) }

  function Fetched(f: int): State {
    var b := PlainBlock(f);
    State(f + 1, 1, [], map[], map[], f, 0, map[0 := Writing(b)], 0, 0, [f], map[f := Assembled(b)], [b])
  }

  /** The process that has handed its only block to the sink. */
  function Writer(w: World, f: int): Process {
    Process(ONE_ROW, Config(f, f, 1, 0), Fetched(f), NO_ROWS, map[], f, w.log, [], {}, 0)
  }

  function OneBlock(f: int): Buffers { NO_ROWS.Push(RowsOf(PlainBlock(f))) }

  lemma OneBlockIs(f: int)
    ensures HoldsBlocks(OneBlock(f), [PlainBlock(f)])
    ensures OneBlock(f) == NO_ROWS.(blocks := [RowOfBlock(PlainBlock(f))])
    ensures AllHeights(OneBlock(f)) != [] && Maximum(AllHeights(OneBlock(f))) == f
  {
    var b := PlainBlock(f);
    HoldsNothing();
    BlockBuffered(NO_ROWS, [], b);
    assert [] + [b] == [b];
    MaximumIsLast(OneBlock(f), [b]);
  }

  lemma BlockStatement(db: Db, f: int)
    ensures ExecStatements(db, [[RowOfBlock(PlainBlock(f))]]).Some?
    ensures Concat([[RowOfBlock(PlainBlock(f))]]) == [RowOfBlock(PlainBlock(f))]
  {
    var rows := [RowOfBlock(PlainBlock(f))];
    assert Complete(rows[0]);
    var statements: seq<seq<Row>> := [rows];
    assert rows[1..] == [] && statements[1..] == [];
    assert InsertRows(db, rows).Some?;
  }

  /** Whatever is stored, the statement for the plain block is accepted. */
  lemma PlainAccepts(db: Db, f: int)
    ensures Accepts(db, [PlainBlock(f)], PlainSplit(f))
  {
    forall i | 0 <= i < |ORDER| ensures TableSplit(db, [PlainBlock(f)], i, PlainSplit(f)[i]) {
      BlocksTableOne(PlainBlock(f), ORDER[i]);
      if i == 0 { BlockStatement(Partial(db, [PlainBlock(f)], 0), f); }
    }
  }

  lemma InitIs(f: int)
    ensures Init(Config(f, f, 1, 0)) == State(f + 1, 1, [], map[], map[], f, 0, map[0 := Fetching], 0, 0, [f], map[], [])
  {
    var c := Config(f, f, 1, 0);
    assert SpawnLoop(c, Start(c)) == SpawnLoop(c, SpawnOne(c, Start(c)));
  }

  lemma FetchedIs(f: int)
    ensures var c := Config(f, f, 1, 0);
            Enabled(Init(c), FetchOk(0, PlainBlock(f))) && Next(c, Init(c), FetchOk(0, PlainBlock(f))) == Fetched(f)
  {
    InitIs(f);
    var s := BeforeFlush(Config(f, f, 1, 0), Init(Config(f, f, 1, 0)), FetchOk(0, PlainBlock(f)));
    assert s.ready == map[f := Assembled(PlainBlock(f))];
    assert s.ready - {f} == map[];
  }

  function Booted(w: World, f: int): World { if w.progress.None? then w.(origin := f) else w }

  /** The fetch is delivered, and the write starts a flush. */
  lemma FetchStep(w: World, f: int)
    requires w.process.None?
    ensures var w1 := WorldNext(w, Boot(ONE_ROW, f, f, 1, 0));
            && WorldEnabled(w1, Pipe(FetchOk(0, PlainBlock(f))))
            && WorldNext(w1, Pipe(FetchOk(0, PlainBlock(f)))) == During(Booted(w, f), Writer(w, f), 0, OneBlock(f), Connecting)
  {
    InitIs(f);
    FetchedIs(f);
    OneBlockIs(f);
  }

  /** The life ends with the recorded height `f`, whatever was recorded before. */
  lemma ShortLifeRecords(w: World, f: int)
    requires w.process.None?
    ensures OneLife(f, ShortLife(f)) && Records(w, ShortLife(f), f)
  {
    var w1 := Booted(w, f);
    FetchStep(w, f);
    OneBlockIs(f);
    PlainAccepts(w1.db, f);
    FlushReaches(w1, Writer(w, f), 0, OneBlock(f), [PlainBlock(f)], PlainSplit(f));
    TwoEventsMore(w, Boot(ONE_ROW, f, f, 1, 0), Pipe(FetchOk(0, PlainBlock(f))), FlushSteps(0, PlainSplit(f)),
                  Committed(w1, Writer(w, f), 0, f, [PlainBlock(f)]));
    FlushStepsAreSteps(0, PlainSplit(f));
    assert ShortLife(f)[1..] == [Pipe(FetchOk(0, PlainBlock(f)))] + FlushSteps(0, PlainSplit(f));
  }

  lemma {:induction false} RunsConcat(w: World, a: seq<WorldEvent>, b: seq<WorldEvent>)
    requires ValidWorldRun(w, a) && ValidWorldRun(WorldRun(w, a), b)
    ensures ValidWorldRun(w, a + b) && WorldRun(w, a + b) == WorldRun(WorldRun(w, a), b)
    decreases |a|
  {
    if a == [] {
      assert a + b == b;
    } else {
      RunsConcat(WorldNext(w, a[0]), a[1..], b);
      assert (a + b)[0] == a[0] && (a + b)[1..] == a[1..] + b;
    }
  }

  /** Progress goes down: from an empty database, one life records `last`, is killed, and the next one records `f`. */
  lemma ProgressFalls(last: int, f: int)
    requires f < last
    ensures Records(FRESH, ShortLife(last), last) && Records(FRESH, ShortLife(last) + ([Kill] + ShortLife(f)), f)
  {
    ShortLifeRecords(FRESH, last);
    var w := WorldRun(FRESH, ShortLife(last));
    ShortLifeRecords(WorldNext(w, Kill), f);
    OneEventMore(w, Kill, ShortLife(f), WorldRun(WorldNext(w, Kill), ShortLife(f)));
    RunsConcat(FRESH, ShortLife(last), [Kill] + ShortLife(f));
  }

  // ------------------------------------------------------------------ the exact condition

  /** No continuation of a life that starts at `f` records less than `last`. */
  ghost predicate KeepsProgress(w: World, last: int, f: int) {
    forall es :: OneLife(f, es) && ValidWorldRun(w, es) ==> ProgressAtLeast(WorldRun(w, es), last)
  }

  /**
   A process that is told to start at `f` keeps the recorded height from falling, in every continuation of
   its life, if and only if `f` is not below it.
   */
  lemma ExplicitStartIff(w: World, last: int, f: int)
    requires w.process.None? && w.progress == Some(last)
    ensures KeepsProgress(w, last, f) <==> f >= last
  {
    if f >= last {
      forall es | OneLife(f, es) && ValidWorldRun(w, es) ensures ProgressAtLeast(WorldRun(w, es), last) {
        StartKeeps(w, last, f, es);
      }
    } else {
      ShortLifeRecords(w, f);
      assert !ProgressAtLeast(WorldRun(w, ShortLife(f)), last);
    }
  }

  /** In terms of the settings: the run resumes, or `--from` is not below the recorded height. */
  lemma SettingsKeepProgressIff(w: World, last: int, from: Option<int>, resume: bool, firstBlock: Option<int>, earliest: int)
    requires w.process.None? && w.progress == Some(last)
    ensures KeepsProgress(w, last, StartHeight(from, resume, firstBlock, earliest, w.progress)) <==>
            WantResume(from, resume) || from.value >= last
  {
    ExplicitStartIff(w, last, StartHeight(from, resume, firstBlock, earliest, w.progress));
  }
}
