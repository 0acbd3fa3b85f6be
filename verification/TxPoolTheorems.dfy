/** What the decode pool guarantees in every run, and what it loses when a worker fails. */
module TxPoolTheorems {
  import opened Blocks
  import opened TxPool

  // ------------------------------------------------------------------ the invariant

  /** Worker `w` has a job whose submission still waits. */
  predicate Running(s: Pool, w: nat) {
    w < |s.inbox| && s.inbox[w] != [] && s.inbox[w][0].id in s.pending
  }

  /** Ready, but neither idle nor running: no callback will ever put it back into the queue. */
  predicate Lost(s: Pool, w: nat) { w < |s.readyFlags| && s.readyFlags[w] && w !in s.idle && !Running(s, w) }

  predicate QueueInv(s: Pool) {
    && Shaped(s)
    && (forall i, j :: 0 <= i < j < |s.idle| ==> s.idle[i] != s.idle[j])
    && (forall w :: 0 <= w < |s.inbox| ==> |s.inbox[w]| <= 1)
    && (forall w :: w in s.idle ==> w < |s.inbox| && s.inbox[w] == [] && s.readyFlags[w])
    && (forall w :: 0 <= w < |s.inbox| && s.inbox[w] != [] ==> s.readyFlags[w])
  }

  /** The job `m` is that of its submission. */
  predicate Genuine(s: Pool, m: Message) {
    m.submission < |s.inputs| && m.text == s.inputs[m.submission] && (m.id in s.pending ==> s.pending[m.id] == m.submission)
  }

  predicate HeldBy(s: Pool, id: int, w: nat) { w < |s.inbox| && s.inbox[w] != [] && s.inbox[w][0].id == id }

  ghost predicate JobsInv(s: Pool) {
    && (forall w :: 0 <= w < |s.inbox| && s.inbox[w] != [] ==> Genuine(s, s.inbox[w][0]))
    && (forall v, w :: 0 <= v < |s.inbox| && 0 <= w < |s.inbox| && v != w && s.inbox[v] != [] && s.inbox[w] != [] ==>
          s.inbox[v][0].id != s.inbox[w][0].id)
    && (forall id :: id in s.pending ==> exists w :: HeldBy(s, id, w))
  }

  /** A submission waits for a worker, or for a reply, or is settled, and only one of these. */
  ghost predicate PromisesInv(s: Pool) {
    && (forall i, j :: i in s.pending && j in s.pending && i != j ==> s.pending[i] != s.pending[j])
    && (forall n :: n in s.waiting ==> n < |s.inputs| && n !in s.settled)
    && (forall id :: id in s.pending ==> s.pending[id] < |s.inputs| && s.pending[id] !in s.waiting && s.pending[id] !in s.settled)
    && (forall n :: n in s.settled ==> n < |s.inputs|)
    && (forall n :: 0 <= n < |s.inputs| ==> n in s.waiting || n in Pending(s) || n in s.settled)
  }

  predicate AnswersInv(decode: string -> Decoding, s: Pool) {
    forall n :: n in s.settled && s.settled[n].Answered? ==> n < |s.inputs| && s.settled[n].decoding == decode(s.inputs[n])
  }

  ghost predicate Inv(decode: string -> Decoding, s: Pool) {
    QueueInv(s) && JobsInv(s) && PromisesInv(s) && AnswersInv(decode, s)
  }

  // ------------------------------------------------------------------ its preservation

  lemma JobsFrame(s: Pool, t: Pool)
    requires JobsInv(s) && t.inbox == s.inbox && t.pending == s.pending && s.inputs <= t.inputs
    ensures JobsInv(t)
  {
    forall id | id in t.pending ensures exists w :: HeldBy(t, id, w) {
      var w :| HeldBy(s, id, w);
      assert HeldBy(t, id, w);
    }
  }

  lemma PromisesFrame(s: Pool, t: Pool)
    requires PromisesInv(s) && t.pending == s.pending && t.waiting == s.waiting && t.settled == s.settled && t.inputs == s.inputs
    ensures PromisesInv(t)
  {
    assert Pending(t) == Pending(s);
  }

  lemma SubmitKeepsPromises(s: Pool, text: string)
    requires PromisesInv(s)
    ensures PromisesInv(s.(inputs := s.inputs + [text], waiting := s.waiting + {|s.inputs|}))
  {
    var t := s.(inputs := s.inputs + [text], waiting := s.waiting + {|s.inputs|});
    assert Pending(t) == Pending(s);
  }

  lemma SubmitKeeps(decode: string -> Decoding, s: Pool, text: string)
    requires Inv(decode, s)
    ensures Inv(decode, Next(decode, s, Submit(text)))
  {
    JobsFrame(s, Next(decode, s, Submit(text)));
    SubmitKeepsPromises(s, text);
  }

  lemma MarkReadyKeepsQueue(s: Pool, w: nat)
    requires QueueInv(s) && w < |s.readyFlags|
    ensures QueueInv(MarkReady(s, w))
  {
    if !s.readyFlags[w] { assert w !in s.idle; }
  }

  lemma MarkReadyKeeps(decode: string -> Decoding, s: Pool, w: nat)
    requires Inv(decode, s) && w < |s.readyFlags|
    ensures Inv(decode, MarkReady(s, w))
  {
    MarkReadyKeepsQueue(s, w);
    JobsFrame(s, MarkReady(s, w));
    PromisesFrame(s, MarkReady(s, w));
  }

  lemma PostKeepsQueue(s: Pool, n: nat, id: int)
    requires QueueInv(s) && Enabled(s, Dispatch(n, id))
    ensures QueueInv(Post(s, n, id))
  {
    assert s.idle == [s.idle[0]] + s.idle[1..];
  }

  lemma PostKeepsJobs(s: Pool, n: nat, id: int)
    requires QueueInv(s) && JobsInv(s) && Enabled(s, Dispatch(n, id))
    ensures JobsInv(Post(s, n, id))
  {
    var t := Post(s, n, id);
    assert s.idle[0] in s.idle;
    assert s.inbox[s.idle[0]] + [Message(id, n, s.inputs[n])] == [Message(id, n, s.inputs[n])];
    assert t.inbox == s.inbox[s.idle[0] := [Message(id, n, s.inputs[n])]];
    forall w | 0 <= w < |s.inbox| && s.inbox[w] != [] ensures s.inbox[w][0].id != id {}
    PostedJobs(s, t, s.idle[0], Message(id, n, s.inputs[n]));
    PostKeepsHolders(s, n, id);
  }

  /** The messages of the workers after `m` has been posted to `w0`. */
  lemma PostedJobs(s: Pool, t: Pool, w0: nat, m: Message)
    requires w0 < |s.inbox| && t.inbox == s.inbox[w0 := [m]] && t.pending == s.pending[m.id := m.submission]
    requires t.inputs == s.inputs && m.submission < |s.inputs| && m.text == s.inputs[m.submission]
    requires forall w :: 0 <= w < |s.inbox| && s.inbox[w] != [] ==> Genuine(s, s.inbox[w][0]) && s.inbox[w][0].id != m.id
    requires forall v, w :: 0 <= v < |s.inbox| && 0 <= w < |s.inbox| && v != w && s.inbox[v] != [] && s.inbox[w] != [] ==>
               s.inbox[v][0].id != s.inbox[w][0].id
    ensures forall w :: 0 <= w < |t.inbox| && t.inbox[w] != [] ==> Genuine(t, t.inbox[w][0])
    ensures forall v, w :: 0 <= v < |t.inbox| && 0 <= w < |t.inbox| && v != w && t.inbox[v] != [] && t.inbox[w] != [] ==>
              t.inbox[v][0].id != t.inbox[w][0].id
  {
  }

  lemma PostKeepsHolders(s: Pool, n: nat, id: int)
    requires QueueInv(s) && Enabled(s, Dispatch(n, id)) && forall i :: i in s.pending ==> exists w :: HeldBy(s, i, w)
    ensures forall i :: i in Post(s, n, id).pending ==> exists w :: HeldBy(Post(s, n, id), i, w)
  {
    var t := Post(s, n, id);
    assert s.idle[0] in s.idle;
    assert HeldBy(t, id, s.idle[0]);
    forall i | i in t.pending && i != id ensures exists w :: HeldBy(t, i, w) {
      var w :| HeldBy(s, i, w);
      assert HeldBy(t, i, w);
    }
  }

  lemma PostKeepsPromises(s: Pool, n: nat, id: int)
    requires PromisesInv(s) && Enabled(s, Dispatch(n, id))
    ensures PromisesInv(Post(s, n, id))
  {
    var t := Post(s, n, id);
    assert t.pending[id] == n;
    forall m | m in Pending(s) ensures m in Pending(t) {
      var i :| i in s.pending && s.pending[i] == m;
      assert t.pending[i] == m;
    }
  }

  lemma ReplyKeepsQueue(decode: string -> Decoding, s: Pool, w: nat)
    requires QueueInv(s) && Enabled(s, Reply(w))
    ensures QueueInv(HandleReply(decode, s, w))
  {
    assert w !in s.idle;
  }

  lemma ReplyKeepsJobs(decode: string -> Decoding, s: Pool, w: nat)
    requires QueueInv(s) && JobsInv(s) && Enabled(s, Reply(w))
    ensures JobsInv(HandleReply(decode, s, w))
  {
    var t := HandleReply(decode, s, w);
    forall i | i in t.pending ensures exists v :: HeldBy(t, i, v) {
      var v :| HeldBy(s, i, v);
      assert HeldBy(t, i, v);
    }
  }

  lemma ReplyKeepsPromises(decode: string -> Decoding, s: Pool, w: nat)
    requires PromisesInv(s) && Enabled(s, Reply(w))
    ensures PromisesInv(HandleReply(decode, s, w))
  {
    var t := HandleReply(decode, s, w);
    forall m | m in Pending(s) ensures m in Pending(t) || m in t.settled {
      var i :| i in s.pending && s.pending[i] == m;
      assert i in t.pending ==> t.pending[i] == m;
    }
  }

  lemma ErrorKeeps(decode: string -> Decoding, s: Pool, w: nat)
    requires Inv(decode, s) && w < |s.alive| && |s.alive| == |s.readyFlags|
    ensures Inv(decode, RejectAll(MarkReady(s, w).(alive := s.alive[w := false])))
  {
    MarkReadyKeeps(decode, s, w);
    DeathKeeps(decode, MarkReady(s, w), s.alive[w := false]);
    RejectAllKeeps(decode, MarkReady(s, w).(alive := s.alive[w := false]));
  }

  lemma DeathKeeps(decode: string -> Decoding, s: Pool, alive: seq<bool>)
    requires Inv(decode, s) && |alive| == |s.alive|
    ensures Inv(decode, s.(alive := alive))
  {
    JobsFrame(s, s.(alive := alive));
    PromisesFrame(s, s.(alive := alive));
  }

  lemma RejectAllKeeps(decode: string -> Decoding, s: Pool)
    requires QueueInv(s) && JobsInv(s) && PromisesInv(s) && AnswersInv(decode, s)
    ensures Inv(decode, RejectAll(s))
  {
    RejectAllKeepsJobs(s);
    assert Pending(RejectAll(s)) == {};
  }

  lemma RejectAllKeepsJobs(s: Pool)
    requires JobsInv(s)
    ensures JobsInv(RejectAll(s))
  {
  }

  /** Every event keeps the invariant: replies, timeouts and worker errors in any order. */
  lemma NextInv(decode: string -> Decoding, s: Pool, e: Event)
    requires Inv(decode, s) && Enabled(s, e)
    ensures Inv(decode, Next(decode, s, e))
  {
    match e
    case Submit(text) => SubmitKeeps(decode, s, text);
    case Dispatch(n, id) =>
      PostKeepsQueue(s, n, id);
      PostKeepsJobs(s, n, id);
      PostKeepsPromises(s, n, id);
    case Ready(w) => MarkReadyKeeps(decode, s, w);
    case InitTimeout(w) => MarkReadyKeeps(decode, s, w);
    case Reply(w) =>
      ReplyKeepsQueue(decode, s, w);
      ReplyKeepsJobs(decode, s, w);
      ReplyKeepsPromises(decode, s, w);
    case WorkerError(w) => ErrorKeeps(decode, s, w);
  }

  lemma {:induction false} RunInv(decode: string -> Decoding, s: Pool, es: seq<Event>)
    requires Inv(decode, s) && ValidRun(decode, s, es)
    ensures Inv(decode, Run(decode, s, es))
    decreases |es|
  {
    if es != [] {
      NextInv(decode, s, es[0]);
      RunInv(decode, Next(decode, s, es[0]), es[1..]);
    }
  }

  lemma Reached(decode: string -> Decoding, size: nat, es: seq<Event>)
    requires ValidRun(decode, Init(size), es)
    ensures Inv(decode, Run(decode, Init(size), es))
  {
    RunInv(decode, Init(size), es);
  }

  // ------------------------------------------------------------------ safety

  /** How many resolve or reject calls an event makes on the promise of submission `n`. */
  function Settles(s: Pool, e: Event, n: nat): nat
    requires Enabled(s, e)
  {
    match e
    case Reply(w) => if s.inbox[w][0].id in s.pending && s.pending[s.inbox[w][0].id] == n then 1 else 0
    case WorkerError(w) => |set id | id in s.pending && s.pending[id] == n|
    case _ => 0
  }

  function TotalSettles(decode: string -> Decoding, s: Pool, es: seq<Event>, n: nat): nat
    requires ValidRun(decode, s, es)
    decreases |es|
  {
    if es == [] then 0 else Settles(s, es[0], n) + TotalSettles(decode, Next(decode, s, es[0]), es[1..], n)
  }

  function SettledCount(s: Pool, n: nat): nat { if n in s.settled then 1 else 0 }

  lemma SettlesOnce(decode: string -> Decoding, s: Pool, e: Event, n: nat)
    requires Inv(decode, s) && Enabled(s, e)
    ensures Settles(s, e, n) + SettledCount(s, n) == SettledCount(Next(decode, s, e), n)
  {
    if e.WorkerError? {
      var ids := set id | id in s.pending && s.pending[id] == n;
      var s1 := MarkReady(s, e.worker).(alive := s.alive[e.worker := false]);
      assert Pending(s1) == Pending(s);
      if n in Pending(s) {
        var id :| id in s.pending && s.pending[id] == n;
        forall i | i in ids ensures i == id { assert i in s.pending && s.pending[i] == s.pending[id]; }
        assert ids == {id};
      } else {
        assert ids == {} by { assert forall id :: id in s.pending ==> s.pending[id] in Pending(s); }
      }
    }
  }

  lemma {:induction false} TotalSettlesCount(decode: string -> Decoding, s: Pool, es: seq<Event>, n: nat)
    requires Inv(decode, s) && ValidRun(decode, s, es)
    ensures TotalSettles(decode, s, es, n) + SettledCount(s, n) == SettledCount(Run(decode, s, es), n)
    decreases |es|
  {
    if es != [] {
      SettlesOnce(decode, s, es[0], n);
      NextInv(decode, s, es[0]);
      TotalSettlesCount(decode, Next(decode, s, es[0]), es[1..], n);
    }
  }

  /**
   Safety of the pool in every run, with init timeouts and worker errors: the idle queue has no duplicates,
   no worker is idle and running, none has two jobs, no promise is settled twice, and an answer is the
   decoding of the submission's own text.
   */
  lemma PoolSafety(decode: string -> Decoding, size: nat, es: seq<Event>, n: nat)
    requires ValidRun(decode, Init(size), es)
    ensures var s := Run(decode, Init(size), es);
            && (forall i, j :: 0 <= i < j < |s.idle| ==> s.idle[i] != s.idle[j])
            && (forall w :: w in s.idle ==> w < |s.inbox| && s.inbox[w] == [])
            && (forall w :: 0 <= w < |s.inbox| ==> |s.inbox[w]| <= 1)
            && TotalSettles(decode, Init(size), es, n) <= 1
            && (TotalSettles(decode, Init(size), es, n) == 1 <==> n in s.settled)
            && (n in s.settled && s.settled[n].Answered? ==> n < |s.inputs| && s.settled[n].decoding == decode(s.inputs[n]))
  {
    Reached(decode, size, es);
    TotalSettlesCount(decode, Init(size), es, n);
  }

  // ------------------------------------------------------------------ lost workers

  lemma LostStep(decode: string -> Decoding, s: Pool, e: Event, w: nat)
    requires Inv(decode, s) && Enabled(s, e)
    ensures Lost(Next(decode, s, e), w) <==> Lost(s, w) || (e.WorkerError? && Running(s, w))
  {
    match e
    case Dispatch(n, id) =>
      assert s.idle == [s.idle[0]] + s.idle[1..];
      assert s.idle[0] in s.idle;
    case Reply(v) =>
      var t := Next(decode, s, e);
      assert v !in s.idle;
      if w != v && w < |s.inbox| { assert t.inbox[w] == s.inbox[w]; }
    case WorkerError(v) =>
    case _ =>
  }

  predicate HitsBusy(s: Pool, e: Event) { e.WorkerError? && exists w :: 0 <= w < |s.inbox| && Running(s, w) }

  predicate NoBusyHit(decode: string -> Decoding, s: Pool, es: seq<Event>)
    requires ValidRun(decode, s, es)
    decreases |es|
  {
    es == [] || (!HitsBusy(s, es[0]) && NoBusyHit(decode, Next(decode, s, es[0]), es[1..]))
  }

  ghost predicate NoneLost(s: Pool) { forall w: nat :: !Lost(s, w) }

  lemma {:induction false} LostStays(decode: string -> Decoding, s: Pool, es: seq<Event>, w: nat)
    requires Inv(decode, s) && ValidRun(decode, s, es) && Lost(s, w)
    ensures Lost(Run(decode, s, es), w)
    decreases |es|
  {
    if es != [] {
      LostStep(decode, s, es[0], w);
      NextInv(decode, s, es[0]);
      LostStays(decode, Next(decode, s, es[0]), es[1..], w);
    }
  }

  lemma {:induction false} NoneLostIff(decode: string -> Decoding, s: Pool, es: seq<Event>)
    requires Inv(decode, s) && ValidRun(decode, s, es) && NoneLost(s)
    ensures NoneLost(Run(decode, s, es)) <==> NoBusyHit(decode, s, es)
    decreases |es|
  {
    if es != [] {
      var t := Next(decode, s, es[0]);
      NextInv(decode, s, es[0]);
      if HitsBusy(s, es[0]) {
        var w :| 0 <= w < |s.inbox| && Running(s, w);
        LostStep(decode, s, es[0], w);
        LostStays(decode, t, es[1..], w);
      } else {
        forall w: nat ensures !Lost(t, w) { LostStep(decode, s, es[0], w); }
        NoneLostIff(decode, t, es[1..]);
      }
    }
  }

  /**
   Idle and running workers together are all the ready ones exactly in the runs in which no worker error
   came while some worker was running. Otherwise every worker that was running then, the failed one or
   not, has left the queue for good.
   */
  lemma ConservationIff(decode: string -> Decoding, size: nat, es: seq<Event>)
    requires ValidRun(decode, Init(size), es)
    ensures NoneLost(Run(decode, Init(size), es)) <==> NoBusyHit(decode, Init(size), es)
  {
    NoneLostIff(decode, Init(size), es);
  }

  /** One worker, ready and with one job. */
  function OneJob(text: string, id: int): Pool {
    Pool([], map[id := 0], [true], [[Message(id, 0, text)]], [true], [text], {}, map[])
  }

  function OneWaiting(text: string): Pool { Pool([0], map[], [true], [[]], [true], [text], {0}, map[]) }

  lemma OneDispatch(decode: string -> Decoding, text: string, id: int)
    ensures Enabled(OneWaiting(text), Dispatch(0, id)) && Next(decode, OneWaiting(text), Dispatch(0, id)) == OneJob(text, id)
  {
    var t := Post(OneWaiting(text), 0, id);
    assert t.idle == [] && t.waiting == {} && t.pending == map[id := 0];
    var none: seq<Message> := [];
    assert none + [Message(id, 0, text)] == [Message(id, 0, text)];
    assert t.inbox == [[Message(id, 0, text)]];
  }

  lemma OneJobReached(decode: string -> Decoding, text: string, id: int)
    ensures var es := [Ready(0), Submit(text), Dispatch(0, id)];
            ValidRun(decode, Init(1), es) && Run(decode, Init(1), es) == OneJob(text, id)
  {
    var s0 := Init(1);
    var s1 := Pool([0], map[], [true], [[]], [true], [], {}, map[]);
    assert Next(decode, s0, Ready(0)) == s1;
    var s2 := OneWaiting(text);
    assert Next(decode, s1, Submit(text)) == s2;
    OneDispatch(decode, text, id);
    OneRun(decode, s0, Ready(0), [Submit(text), Dispatch(0, id)]);
    OneRun(decode, s1, Submit(text), [Dispatch(0, id)]);
    OneRun(decode, s2, Dispatch(0, id), []);
  }

  /** A run that loses a worker: it becomes ready, gets a job, and fails. It is not idle, and nobody waits for it. */
  lemma ErrorLosesWorker(decode: string -> Decoding, text: string, id: int)
    ensures var es := [Ready(0), Submit(text), Dispatch(0, id)] + [WorkerError(0)];
            && ValidRun(decode, Init(1), es)
            && var s := Run(decode, Init(1), es);
               Lost(s, 0) && s.readyFlags[0] && s.idle == [] && s.settled == map[0 := WorkerFailed]
  {
    OneJobReached(decode, text, id);
    var s := OneJob(text, id);
    assert Pending(s.(alive := s.alive[0 := false])) == {0} by { assert s.pending[id] == 0; }
    OneRun(decode, s, WorkerError(0), []);
    RunConcat(decode, Init(1), [Ready(0), Submit(text), Dispatch(0, id)], [WorkerError(0)]);
  }

  lemma {:induction false} RunConcat(decode: string -> Decoding, s: Pool, a: seq<Event>, b: seq<Event>)
    requires ValidRun(decode, s, a) && ValidRun(decode, Run(decode, s, a), b)
    ensures ValidRun(decode, s, a + b) && Run(decode, s, a + b) == Run(decode, Run(decode, s, a), b)
    decreases |a|
  {
    if a == [] {
      assert a + b == b;
    } else {
      assert (a + b)[1..] == a[1..] + b;
      RunConcat(decode, Next(decode, s, a[0]), a[1..], b);
    }
  }

  lemma OneRun(decode: string -> Decoding, s: Pool, e: Event, rest: seq<Event>)
    requires Enabled(s, e)
    ensures ValidRun(decode, s, [e] + rest) <==> ValidRun(decode, Next(decode, s, e), rest)
    ensures ValidRun(decode, s, [e] + rest) ==> Run(decode, s, [e] + rest) == Run(decode, Next(decode, s, e), rest)
  {
    assert ([e] + rest)[1..] == rest;
  }

  // ------------------------------------------------------------------ error-free runs

  predicate ErrorFree(es: seq<Event>) { forall e :: e in es ==> !e.WorkerError? }

  predicate AllAnswered(s: Pool) {
    && (forall w :: 0 <= w < |s.alive| ==> s.alive[w])
    && (forall n :: n in s.settled ==> s.settled[n].Answered?)
  }

  lemma {:induction false} ErrorFreeRun(decode: string -> Decoding, s: Pool, es: seq<Event>)
    requires ValidRun(decode, s, es) && ErrorFree(es) && AllAnswered(s)
    ensures AllAnswered(Run(decode, s, es)) && NoBusyHit(decode, s, es)
    decreases |es|
  {
    if es != [] {
      assert es[0] in es;
      assert ErrorFree(es[1..]);
      ErrorFreeRun(decode, Next(decode, s, es[0]), es[1..]);
    }
  }

  /**
   In a run without worker errors every ready worker is idle or running but not both, and a submission
   that is settled has been answered with the decoding of its own text.
   */
  lemma ErrorFreeRunsAreCorrect(decode: string -> Decoding, size: nat, es: seq<Event>)
    requires ValidRun(decode, Init(size), es) && ErrorFree(es)
    ensures var s := Run(decode, Init(size), es);
            && (forall w :: 0 <= w < |s.readyFlags| && s.readyFlags[w] ==> (w in s.idle) != Running(s, w))
            && (forall n :: n in s.settled ==> n < |s.inputs| && s.settled[n] == Answered(decode(s.inputs[n])))
  {
    Reached(decode, size, es);
    ErrorFreeRun(decode, Init(size), es);
    ConservationIff(decode, size, es);
    var s := Run(decode, Init(size), es);
    forall w | 0 <= w < |s.readyFlags| && s.readyFlags[w] ensures (w in s.idle) != Running(s, w) {
      assert !Lost(s, w);
    }
  }

  /** `Promise.all(txs.map(submit))` once every promise has been fulfilled. */
  function Collected(s: Pool, first: nat, count: nat): seq<string>
    requires forall n :: first <= n < first + count ==> n in s.settled && s.settled[n].Answered? && s.settled[n].decoding.Decoded?
  {
    seq(count, i requires 0 <= i < count => s.settled[first + i].decoding.value)
  }

  /** Whatever the order of completion, the collected decodings are those of a sequential loop. */
  lemma ParallelEqualsSequential(decode: string -> Decoding, size: nat, es: seq<Event>, first: nat, txs: seq<string>)
    requires ValidRun(decode, Init(size), es)
    requires var s := Run(decode, Init(size), es);
             && first + |txs| <= |s.inputs| && s.inputs[first..first + |txs|] == txs
             && forall n :: first <= n < first + |txs| ==> n in s.settled && s.settled[n].Answered? && s.settled[n].decoding.Decoded?
    ensures forall i :: 0 <= i < |txs| ==> decode(txs[i]).Decoded?
    ensures Collected(Run(decode, Init(size), es), first, |txs|) ==
            seq(|txs|, i requires 0 <= i < |txs| && decode(txs[i]).Decoded? => decode(txs[i]).value)
  {
    Reached(decode, size, es);
    var s := Run(decode, Init(size), es);
    forall i | 0 <= i < |txs| ensures s.settled[first + i].decoding == decode(txs[i]) {
      assert s.inputs[first..first + |txs|][i] == s.inputs[first + i];
    }
  }

  /** Without worker errors the pool never stalls: a job can always be answered, or a submission posted. */
  lemma NoStall(decode: string -> Decoding, size: nat, es: seq<Event>, id: int) returns (e: Event)
    requires ValidRun(decode, Init(size), es) && ErrorFree(es) && size > 0
    requires var s := Run(decode, Init(size), es);
             AllReady(s) && Fresh(s, id) && exists n :: 0 <= n < |s.inputs| && n !in s.settled
    ensures Enabled(Run(decode, Init(size), es), e) && (e.Reply? || (e.Dispatch? && e.id == id))
  {
    Reached(decode, size, es);
    ErrorFreeRun(decode, Init(size), es);
    ErrorFreeRunsAreCorrect(decode, size, es);
    RunSize(decode, Init(size), es);
    var s := Run(decode, Init(size), es);
    if s.pending != map[] {
      SomeJob(s.pending);
      var i :| i in s.pending;
      var w :| HeldBy(s, i, w);
      e := Reply(w);
    } else {
      assert s.readyFlags[0] && !Running(s, 0) && 0 in s.idle;
      var n :| 0 <= n < |s.inputs| && n !in s.settled;
      assert Pending(s) == {};
      e := Dispatch(n, id);
    }
  }

  lemma {:induction false} RunSize(decode: string -> Decoding, s: Pool, es: seq<Event>)
    requires ValidRun(decode, s, es)
    ensures |Run(decode, s, es).inbox| == |s.inbox|
    decreases |es|
  {
    if es != [] { RunSize(decode, Next(decode, s, es[0]), es[1..]); }
  }

  /** Replies and dispatches bring every submission closer to its answer. */
  lemma WorkLeftDecreases(decode: string -> Decoding, s: Pool, e: Event)
    requires Inv(decode, s) && Enabled(s, e)
    requires e.Dispatch? || (e.Reply? && s.inbox[e.worker][0].id in s.pending)
    ensures 2 * |Next(decode, s, e).waiting| + |Next(decode, s, e).pending| < 2 * |s.waiting| + |s.pending|
  {
    var t := Next(decode, s, e);
    if e.Dispatch? {
      assert t.waiting == s.waiting - {e.submission};
      assert t.pending.Keys == s.pending.Keys + {e.id};
      assert |t.pending.Keys| == |s.pending.Keys| + 1;
      assert |t.waiting| == |s.waiting| - 1;
    } else {
      assert t.pending.Keys == s.pending.Keys - {s.inbox[e.worker][0].id};
      assert |t.pending.Keys| == |s.pending.Keys| - 1;
    }
  }
  // ------------------------------------------------------------------ workers that are late

  /** A worker that has not reported in time is put to work like one that has; once it is, nothing more happens. */
  lemma LateWorkerIsIdle(decode: string -> Decoding, s: Pool, w: nat)
    requires Enabled(s, InitTimeout(w)) && w < |s.readyFlags|
    ensures var t := Next(decode, s, InitTimeout(w));
            if s.readyFlags[w] then t == s
            else t.idle == s.idle + [w] && t.readyFlags[w] && t.pending == s.pending && t.waiting == s.waiting && t.settled == s.settled
  {
  }
}
