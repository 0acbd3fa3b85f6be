/**
 The closures of `syncRange` over their shared variables. Each handler is proved to be its event of the
 model, so whatever order the event loop calls them in, the object is in a state of some run of the model
 and everything proved of those states holds of it.
 */
module PipelineRunner {
  import opened Blocks
  import opened Pipeline
  import opened PipelineInvariant
  import opened PipelineTheorems

  /** `ready` without the entry that the flush loop takes out next. */
  function TakenOut(s: State): State { s.(ready := s.ready - {s.nextToFlush}) }

  lemma FlushLoopStep(s: State, id: nat)
    requires s.nextToFlush in s.ready
    ensures |TakenOut(s).ready| < |s.ready|
    ensures s.ready[s.nextToFlush].GaveUp? ==> FlushLoop(s, id) == FlushLoop(Advance(TakenOut(s)), id)
    ensures s.ready[s.nextToFlush].Assembled? ==>
              var b := s.ready[s.nextToFlush].block;
              FlushLoop(s, id) == TakenOut(s).(phases := s.phases[id := Writing(b)], written := s.written + [b])
  {
    assert TakenOut(s).ready.Keys == s.ready.Keys - {s.nextToFlush};
  }

  class RangeSync {
    const cfg: Config
    var nextHeight: int
    var inFlight: int
    var retryQueue: seq<int>
    var attempts: map<int, int>
    var ready: map<int, Entry>
    var nextToFlush: int
    var processed: int
    var immediates: nat
    var resolves: nat
    ghost var phases: map<nat, Phase>  // where the running processHeight calls are suspended
    ghost var started: seq<int>
    ghost var outcome: map<int, Entry>
    ghost var written: seq<Block>

    ghost function Now(): State
      reads this
    {
      State(nextHeight, inFlight, retryQueue, attempts, ready, nextToFlush, processed, phases, immediates, resolves,
            started, outcome, written)
    }

    /** Sets up the variables and calls `maybeSpawn` once. */
    constructor (cfg: Config)
      ensures this.cfg == cfg && Now() == Init(cfg)
    {
      this.cfg := cfg;
      nextHeight, inFlight, retryQueue, attempts := cfg.from, 0, [], map[];
      ready, nextToFlush, processed := map[], cfg.from, 0;
      phases, immediates, resolves := map[], 0, 0;
      started, outcome, written := [], map[], [];
      new;
      MaybeSpawn();
    }

    method MaybeSpawn()
      modifies this
      ensures Now() == SpawnLoop(cfg, old(Now()))
      ensures inFlight >= cfg.concurrency || (nextHeight > cfg.to && retryQueue == [])
      ensures StartsInOrder(old(Now()), Now())
    {
      while inFlight < cfg.concurrency && (nextHeight <= cfg.to || |retryQueue| > 0)
        invariant SpawnLoop(cfg, Now()) == SpawnLoop(cfg, old(Now()))
        decreases Max(0, cfg.to + 1 - nextHeight) + |retryQueue|
      {
        ghost var before := Now();
        var h;
        if |retryQueue| > 0 {
          h, retryQueue := retryQueue[0], retryQueue[1..];
        } else {
          h, nextHeight := nextHeight, nextHeight + 1;
        }
        inFlight := inFlight + 1;
        phases := phases[|started| := Fetching];
        started := started + [h];
        assert Now() == SpawnOne(cfg, before);
      }
      SpawnsInOrder(cfg, old(Now()));
    }

    /** `ready.get` and `ready.delete`: the entry is gone before anything is awaited. */
    method TakeNext() returns (obj: Entry)
      requires nextToFlush in ready
      modifies this`ready
      ensures Now() == TakenOut(old(Now())) && obj == old(ready[nextToFlush])
    {
      obj := ready[nextToFlush];
      ready := ready - {nextToFlush};
    }

    method CountFlushed()
      modifies this`nextToFlush, this`processed
      ensures Now() == Advance(old(Now()))
    {
      nextToFlush := nextToFlush + 1;
      processed := processed + 1;
    }

    /** Call `id` suspends in `sink.write`. */
    ghost method HandToSink(id: nat, block: Block)
      modifies this`phases, this`written
      ensures Now() == old(Now()).(phases := old(phases)[id := Writing(block)], written := old(written) + [block])
    {
      phases := phases[id := Writing(block)];
      written := written + [block];
    }

    /** The loop of `tryFlush`, run by call `id` until it suspends in a write or ends. */
    method TryFlush(ghost id: nat)
      modifies this
      ensures Now() == FlushLoop(old(Now()), id)
    {
      ghost var goal := FlushLoop(Now(), id);
      while nextToFlush in ready
        invariant FlushLoop(Now(), id) == goal
        decreases |Now().ready|
      {
        FlushLoopStep(Now(), id);
        var obj := TakeNext();
        if obj.Assembled? {
          HandToSink(id, obj.block);
          return;
        }
        CountFlushed();
      }
    }

    /** The awaited fetch, decode and assembly of call `id` succeeded. */
    method OnFetched(ghost id: nat, h: int, block: Block)
      requires Enabled(Now(), FetchOk(id, block)) && started[id] == h
      modifies this
      ensures Now() == Next(cfg, old(Now()), FetchOk(id, block))
    {
      ready := ready[h := Assembled(block)];
      outcome := outcome[h := Assembled(block)];
      phases := phases[id := Returned];
      TryFlush(id);
    }

    /** The awaited fetch, decode or assembly of call `id` failed or timed out. */
    method OnFailed(ghost id: nat, h: int)
      requires Enabled(Now(), FetchFail(id)) && started[id] == h
      modifies this
      ensures Now() == Next(cfg, old(Now()), FetchFail(id))
    {
      var n := (if h in attempts then attempts[h] else 0) + 1;
      attempts := attempts[h := n];
      if n <= cfg.maxRetries {
        retryQueue := retryQueue + [h];
      } else {
        ready := ready[h := GaveUp];
        outcome := outcome[h := GaveUp];
      }
      phases := phases[id := Returned];
      TryFlush(id);
    }

    /** The `sink.write` that call `id` was waiting for has completed. */
    method OnWritten(ghost id: nat)
      requires Enabled(Now(), WriteDone(id))
      modifies this
      ensures Now() == Next(cfg, old(Now()), WriteDone(id))
    {
      phases := phases[id := Returned];
      CountFlushed();
      TryFlush(id);
    }

    /** The `finally` callback of call `id`. */
    method OnFinished(ghost id: nat)
      requires Enabled(Now(), Finish(id))
      modifies this
      ensures Now() == Next(cfg, old(Now()), Finish(id))
    {
      phases := phases - {id};
      inFlight := inFlight - 1;
      if nextHeight > cfg.to && |retryQueue| == 0 && inFlight == 0 {
        resolves := resolves + 1;
      } else {
        immediates := immediates + 1;
      }
    }

    method OnImmediate()
      requires Enabled(Now(), RunImmediate)
      modifies this
      ensures Now() == Next(cfg, old(Now()), RunImmediate)
    {
      immediates := immediates - 1;
      MaybeSpawn();
    }
  }
}
