/**
 The ordered concurrent block pipeline of `syncRange` as a step machine.

 Code between two `await`s runs without interruption, so every event below is one
 uninterrupted stretch: a fetch that settles (followed by the flush loop up to its first
 suspended write), a write that completes (followed by the rest of that flush loop), the
 `finally` callback of a `processHeight` call, and a scheduled `maybeSpawn`.
 */
module Pipeline {
  import opened Blocks

  datatype Config = Config(from: int, to: int, concurrency: int, maxRetries: int)

  /** A value of the `ready` map: an assembled block, or the skip marker of a given-up height. */
  datatype Entry = Assembled(block: Block) | GaveUp

  /** Where a running `processHeight` call is suspended. */
  datatype Phase = Fetching | Writing(block: Block) | Returned

  datatype State = State(
    nextHeight: int,
    inFlight: int,
    retryQueue: seq<int>,
    attempts: map<int, int>,
    ready: map<int, Entry>,
    nextToFlush: int,
    processed: int,
    phases: map<nat, Phase>,     // running processHeight calls, by spawn number
    immediates: nat,             // scheduled setImmediate(maybeSpawn) callbacks
    resolves: nat,               // calls of resolve()
    started: seq<int>,           // history: the height of every processHeight call, in spawn order
    outcome: map<int, Entry>,    // history: what each settled height was settled with
    written: seq<Block>          // history: the blocks handed to sink.write, in order
  )

  datatype Event =
    | FetchOk(id: nat, block: Block)
    | FetchFail(id: nat)
    | WriteDone(id: nat)
    | Finish(id: nat)
    | RunImmediate

  /** Retries granted per height; a negative setting grants none, like zero. */
  function Retries(c: Config): nat { Max(0, c.maxRetries) }

  function Attempts(s: State, h: int): int { if h in s.attempts then s.attempts[h] else 0 }

  predicate CanSpawn(c: Config, s: State) { s.nextHeight <= c.to || |s.retryQueue| > 0 }

  /** One iteration of the `while` loop of `maybeSpawn`. */
  function SpawnOne(c: Config, s: State): State
    requires CanSpawn(c, s)
  {
    var h := if |s.retryQueue| > 0 then s.retryQueue[0] else s.nextHeight;
    s.(retryQueue := if |s.retryQueue| > 0 then s.retryQueue[1..] else s.retryQueue,
       nextHeight := if |s.retryQueue| > 0 then s.nextHeight else s.nextHeight + 1,
       inFlight := s.inFlight + 1,
       phases := s.phases[|s.started| := Fetching],
       started := s.started + [h])
  }

  /** `maybeSpawn`. */
  function SpawnLoop(c: Config, s: State): State
    decreases Max(0, c.to + 1 - s.nextHeight) + |s.retryQueue|
  {
    if s.inFlight < c.concurrency && CanSpawn(c, s) then SpawnLoop(c, SpawnOne(c, s)) else s
  }

  /** The state after `tryFlush` passes over a skip marker, or after its write has completed. */
  function Advance(s: State): State {
    s.(nextToFlush := s.nextToFlush + 1, processed := s.processed + 1)
  }

  /** The `while` loop of `tryFlush` run by call `id`, up to its first suspended write or its end. */
  function FlushLoop(s: State, id: nat): State
    decreases |s.ready|
  {
    if s.nextToFlush !in s.ready then s
    else
      var e := s.ready[s.nextToFlush];
      var s1 := s.(ready := s.ready - {s.nextToFlush});
      assert s1.ready.Keys == s.ready.Keys - {s.nextToFlush};
      assert |s1.ready.Keys| < |s.ready.Keys|;
      if e.GaveUp? then FlushLoop(Advance(s1), id)
      else s1.(phases := s1.phases[id := Writing(e.block)], written := s1.written + [e.block])
  }

  function Settle(s: State, id: nat, h: int, e: Entry): State {
    s.(ready := s.ready[h := e], outcome := s.outcome[h := e], phases := s.phases[id := Returned])
  }

  /** The `catch` block: one more attempt is counted, then the height is retried or given up. */
  function CountFailure(c: Config, s: State, id: nat, h: int): State {
    var n := Attempts(s, h) + 1;
    var s1 := s.(attempts := s.attempts[h := n]);
    if n <= c.maxRetries then s1.(retryQueue := s1.retryQueue + [h], phases := s1.phases[id := Returned])
    else Settle(s1, id, h, GaveUp)
  }

  predicate Idle(c: Config, s: State) {
    s.nextHeight > c.to && |s.retryQueue| == 0 && s.inFlight == 0
  }

  function FinishCall(c: Config, s: State, id: nat): State {
    var s1 := s.(inFlight := s.inFlight - 1, phases := s.phases - {id});
    if Idle(c, s1) then s1.(resolves := s1.resolves + 1) else s1.(immediates := s1.immediates + 1)
  }

  function Start(c: Config): State {
    State(c.from, 0, [], map[], map[], c.from, 0, map[], 0, 0, [], map[], [])
  }

  function Init(c: Config): State { SpawnLoop(c, Start(c)) }

  predicate InPhase(s: State, id: nat, p: Phase) { id in s.phases && s.phases[id] == p }

  /** A fetch delivers the block of the height it was asked for; nothing else restricts the interleaving. */
  predicate Enabled(s: State, e: Event) {
    match e
    case FetchOk(id, block) => InPhase(s, id, Fetching) && id < |s.started| && block.height == s.started[id]
    case FetchFail(id) => InPhase(s, id, Fetching) && id < |s.started|
    case WriteDone(id) => id in s.phases && s.phases[id].Writing?
    case Finish(id) => InPhase(s, id, Returned)
    case RunImmediate => s.immediates > 0
  }

  /** The state in which the flush loop of call `e.id` takes over. */
  function BeforeFlush(c: Config, s: State, e: Event): State
    requires Enabled(s, e) && (e.FetchOk? || e.FetchFail? || e.WriteDone?)
  {
    match e
    case FetchOk(id, block) => Settle(s, id, s.started[id], Assembled(block))
    case FetchFail(id) => CountFailure(c, s, id, s.started[id])
    case WriteDone(id) => Advance(s.(phases := s.phases[id := Returned]))
  }

  function Next(c: Config, s: State, e: Event): State
    requires Enabled(s, e)
  {
    match e
    case Finish(id) => FinishCall(c, s, id)
    case RunImmediate => SpawnLoop(c, s.(immediates := s.immediates - 1))
    case _ => FlushLoop(BeforeFlush(c, s, e), e.id)
  }

  /** The events of `es` can happen one after the other from `s`. */
  predicate ValidRun(c: Config, s: State, es: seq<Event>)
    decreases |es|
  {
    es == [] || (Enabled(s, es[0]) && ValidRun(c, Next(c, s, es[0]), es[1..]))
  }

  function Run(c: Config, s: State, es: seq<Event>): State
    requires ValidRun(c, s, es)
    decreases |es|
  {
    if es == [] then s else Run(c, Next(c, s, es[0]), es[1..])
  }

  ghost predicate Stuck(s: State) { forall e :: !Enabled(s, e) }

  /** The sequential loop: for h = from .. until - 1, write the block of h unless it was given up. */
  function SequentialWrites(outcome: map<int, Entry>, from: int, until: int): seq<Block>
    decreases until - from
  {
    if until <= from then []
    else SequentialWrites(outcome, from, until - 1) +
         (if until - 1 in outcome && outcome[until - 1].Assembled? then [outcome[until - 1].block] else [])
  }
}
