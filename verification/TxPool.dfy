/**
 The pool of decode workers of `createTxDecodePool` as a step machine. Every event is one callback of the
 main thread; what a worker has been sent and has not been answered for waits in its inbox.
 */
module TxPool {
  import opened Blocks

  /** What decoding a transaction gives. */
  datatype Decoding = Decoded(value: string) | Failed(error: string)

  /** How the promise of a submission was settled. */
  datatype Outcome = Answered(decoding: Decoding) | WorkerFailed

  datatype Message = Message(id: int, submission: nat, text: string)

  datatype Pool = Pool(
    idle: seq<nat>,
    pending: map<int, nat>,         // job id to submission
    readyFlags: seq<bool>,
    inbox: seq<seq<Message>>,       // decode messages a worker has not answered
    alive: seq<bool>,               // false once a worker has raised 'error': it will not answer any more
    inputs: seq<string>,            // the texts of all submissions so far
    waiting: set<nat>,              // submissions that wait for the workers to be ready, or for an idle one
    settled: map<nat, Outcome>
  )

  datatype Event =
    | Submit(text: string)
    | Dispatch(submission: nat, id: int)
    | Ready(worker: nat)
    | InitTimeout(worker: nat)
    | Reply(worker: nat)
    | WorkerError(worker: nat)

  function Init(size: nat): Pool {
    Pool([], map[], seq(size, _ => false), seq(size, _ => []), seq(size, _ => true), [], {}, map[])
  }

  /** The ids of messages that workers still hold. */
  predicate InAnInbox(s: Pool, id: int) { exists w, k :: 0 <= w < |s.inbox| && 0 <= k < |s.inbox[w]| && s.inbox[w][k].id == id }

  /** Ids are drawn at random; a fresh one is that of no outstanding job. */
  predicate Fresh(s: Pool, id: int) { id !in s.pending && !InAnInbox(s, id) }

  predicate AllReady(s: Pool) { forall w :: 0 <= w < |s.readyFlags| ==> s.readyFlags[w] }

  predicate Shaped(s: Pool) {
    |s.readyFlags| == |s.inbox| == |s.alive| && (forall i :: 0 <= i < |s.idle| ==> s.idle[i] < |s.inbox|)
  }

  predicate Enabled(s: Pool, e: Event) {
    && Shaped(s)
    && match e
       case Submit(_) => true
       case Dispatch(n, id) => n in s.waiting && n < |s.inputs| && AllReady(s) && s.idle != [] && Fresh(s, id)
       case Ready(w) => w < |s.alive| && s.alive[w]
       case InitTimeout(w) => w < |s.readyFlags| && !s.readyFlags[w]
       case Reply(w) => w < |s.alive| && s.alive[w] && s.inbox[w] != []
       case WorkerError(w) => w < |s.alive| && s.alive[w]
  }

  /** The first 'ready', timeout or error of a worker puts it into the idle queue; later ones do nothing. */
  function MarkReady(s: Pool, w: nat): Pool
    requires w < |s.readyFlags|
  {
    if s.readyFlags[w] then s else s.(readyFlags := s.readyFlags[w := true], idle := s.idle + [w])
  }

  /** The submissions that wait for a reply. */
  function Pending(s: Pool): set<nat> { set id | id in s.pending :: s.pending[id] }

  function RejectAll(s: Pool): Pool {
    s.(pending := map[], settled := s.settled + map n | n in Pending(s) :: WorkerFailed)
  }

  /** The reply to the oldest message of worker `w` arrives. A reply nobody waits for is dropped. */
  function HandleReply(decode: string -> Decoding, s: Pool, w: nat): Pool
    requires w < |s.inbox| && s.inbox[w] != []
  {
    var m := s.inbox[w][0];
    var s1 := s.(inbox := s.inbox[w := s.inbox[w][1..]]);
    if m.id !in s.pending then s1
    else s1.(pending := s.pending - {m.id}, idle := s.idle + [w],
             settled := s.settled[s.pending[m.id] := Answered(decode(m.text))])
  }

  function Post(s: Pool, n: nat, id: int): Pool
    requires s.idle != [] && s.idle[0] < |s.inbox| && n < |s.inputs|
  {
    var w := s.idle[0];
    s.(idle := s.idle[1..], pending := s.pending[id := n], waiting := s.waiting - {n},
       inbox := s.inbox[w := s.inbox[w] + [Message(id, n, s.inputs[n])]])
  }

  function Next(decode: string -> Decoding, s: Pool, e: Event): Pool
    requires Enabled(s, e)
  {
    match e
    case Submit(text) => s.(inputs := s.inputs + [text], waiting := s.waiting + {|s.inputs|})
    case Dispatch(n, id) => Post(s, n, id)
    case Ready(w) => MarkReady(s, w)
    case InitTimeout(w) => MarkReady(s, w)
    case Reply(w) => HandleReply(decode, s, w)
    case WorkerError(w) => RejectAll(MarkReady(s, w).(alive := s.alive[w := false]))
  }

  predicate ValidRun(decode: string -> Decoding, s: Pool, es: seq<Event>)
    decreases |es|
  {
    es == [] || (Enabled(s, es[0]) && ValidRun(decode, Next(decode, s, es[0]), es[1..]))
  }

  function Run(decode: string -> Decoding, s: Pool, es: seq<Event>): Pool
    requires ValidRun(decode, s, es)
    decreases |es|
  {
    if es == [] then s else Run(decode, Next(decode, s, es[0]), es[1..])
  }

  lemma SomeJob(pending: map<int, nat>)
    ensures pending != map[] ==> exists id :: id in pending
  {
    if forall id :: id !in pending { assert pending == map[]; }
  }

  // ------------------------------------------------------------------ the worker

  /** What a worker posts back. */
  datatype ReplyMessage = WorkerOk(id: int, decoded: string) | WorkerErr(id: int, error: string)

  function AnswerOf(r: ReplyMessage): Decoding { if r.WorkerOk? then Decoded(r.decoded) else Failed(r.error) }

  /** `onDecode` of the worker: one reply for each message, under the id of the message. */
  method OnDecode(decode: string -> Decoding, m: Message) returns (reply: ReplyMessage)
    ensures reply.id == m.id && AnswerOf(reply) == decode(m.text)
  {
    match decode(m.text)
    case Decoded(value) => reply := WorkerOk(m.id, value);
    case Failed(error) => reply := WorkerErr(m.id, error);
  }

  // ------------------------------------------------------------------ the handlers

  class TxDecodePool {
    const decode: string -> Decoding
    var idle: seq<nat>
    var pending: map<int, nat>
    var readyFlags: seq<bool>
    ghost var inbox: seq<seq<Message>>
    ghost var alive: seq<bool>
    ghost var inputs: seq<string>
    ghost var waiting: set<nat>
    ghost var settled: map<nat, Outcome>

    ghost function Now(): Pool
      reads this
    {
      Pool(idle, pending, readyFlags, inbox, alive, inputs, waiting, settled)
    }

    constructor (size: nat, decode: string -> Decoding)
      ensures this.decode == decode && Now() == Init(size)
    {
      this.decode := decode;
      idle, pending, readyFlags := [], map[], seq(size, _ => false);
      inbox, alive, inputs, waiting, settled := seq(size, _ => []), seq(size, _ => true), [], {}, map[];
    }

    method BecomeReady(w: nat)
      requires w < |readyFlags|
      modifies this`readyFlags, this`idle
      ensures Now() == MarkReady(old(Now()), w)
    {
      if !readyFlags[w] {
        readyFlags := readyFlags[w := true];
        idle := idle + [w];
      }
    }

    /** `submit` is called; it will look for a worker once all are ready. */
    ghost method OnSubmit(text: string)
      requires Shaped(Now())
      modifies this`inputs, this`waiting
      ensures Now() == Next(decode, old(Now()), Submit(text))
    {
      inputs, waiting := inputs + [text], waiting + {|inputs|};
    }

    /** The rest of `submit`, from `idle.shift()` on. */
    method OnWorkerIdle(n: nat, id: int) returns (w: nat)
      requires Enabled(Now(), Dispatch(n, id))
      modifies this
      ensures Now() == Next(decode, old(Now()), Dispatch(n, id)) && old(idle) == [w] + idle
    {
      w := idle[0];
      idle := idle[1..];
      pending := pending[id := n];
      inbox := inbox[w := inbox[w] + [Message(id, n, inputs[n])]];
      waiting := waiting - {n};
    }

    method OnReady(w: nat)
      requires Enabled(Now(), Ready(w))
      modifies this`readyFlags, this`idle
      ensures Now() == Next(decode, old(Now()), Ready(w))
    {
      BecomeReady(w);
    }

    method OnInitTimeout(w: nat)
      requires Enabled(Now(), InitTimeout(w))
      modifies this`readyFlags, this`idle
      ensures Now() == Next(decode, old(Now()), InitTimeout(w))
    {
      BecomeReady(w);
    }

    /** The message that `OnDecode` of worker `w` has posted for its oldest job. */
    method OnReply(w: nat, reply: ReplyMessage)
      requires Enabled(Now(), Reply(w)) && reply.id == inbox[w][0].id && AnswerOf(reply) == decode(inbox[w][0].text)
      modifies this
      ensures Now() == Next(decode, old(Now()), Reply(w))
    {
      inbox := inbox[w := inbox[w][1..]];
      if reply.id !in pending { return; }
      var n := pending[reply.id];
      pending := pending - {reply.id};
      idle := idle + [w];
      settled := settled[n := Answered(AnswerOf(reply))];
    }

    /** The loop that rejects whatever is pending, of whichever worker. */
    method RejectPending()
      modifies this`pending, this`settled
      ensures Now() == RejectAll(old(Now()))
    {
      while pending != map[]
        invariant pending.Keys <= old(pending).Keys && forall id :: id in pending ==> pending[id] == old(pending)[id]
        invariant forall n :: n in settled <==>
                    n in old(settled) || exists id :: id in old(pending).Keys - pending.Keys && old(pending)[id] == n
        invariant forall n :: n in settled ==>
                    settled[n] == if (exists id :: id in old(pending).Keys - pending.Keys && old(pending)[id] == n)
                                  then WorkerFailed else old(settled)[n]
        decreases |pending.Keys|
      {
        SomeJob(pending);
        var id :| id in pending;
        ghost var n := pending[id];
        ghost var done := old(pending).Keys - pending.Keys;
        settled := settled[n := WorkerFailed];
        pending := pending - {id};
        assert old(pending).Keys - pending.Keys == done + {id};
      }
      RejectedIsAll(old(Now()), settled);
    }

    method OnError(w: nat)
      requires Enabled(Now(), WorkerError(w))
      modifies this
      ensures Now() == Next(decode, old(Now()), WorkerError(w))
    {
      alive := alive[w := false];
      BecomeReady(w);
      RejectPending();
    }
  }

  lemma RejectedIsAll(s: Pool, settled: map<nat, Outcome>)
    requires forall n :: n in settled <==> n in s.settled || exists id :: id in s.pending && s.pending[id] == n
    requires forall n :: n in settled ==>
               settled[n] == if (exists id :: id in s.pending && s.pending[id] == n) then WorkerFailed else s.settled[n]
    ensures settled == RejectAll(s).settled
  {
    forall n ensures n in Pending(s) <==> exists id :: id in s.pending && s.pending[id] == n {}
  }
}
