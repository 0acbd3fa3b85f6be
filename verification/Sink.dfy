/** `PostgresSink`: row buffers, thresholds, and the transaction that empties them. */
module Sink {
  import opened Blocks
  import opened Sequences
  import opened Batch
  import opened Database
  import opened Derivation
  import opened Extraction
  import opened Persistence
  import opened Acceptance

  /** `batchSizes`. */
  datatype Limits = Limits(blocks: int, txs: int, msgs: int, events: int, attrs: int, transfers: int,
                           stakeDeleg: int, stakeDistr: int, wasmExecs: int, wasmEvents: int)
  {
    function Of(t: Table): int {
      match t
      case Blocks => blocks
      case Txs => txs
      case Msgs => msgs
      case Events => events
      case Attrs => attrs
      case Transfers => transfers
      case StakeDeleg => stakeDeleg
      case StakeDistr => stakeDistr
      case WasmExecs => wasmExecs
      case WasmEvents => wasmEvents
    }
  }

  predicate NeedFlush(b: Buffers, l: Limits) {
    || |b.blocks| >= l.blocks || |b.txs| >= l.txs || |b.msgs| >= l.msgs || |b.events| >= l.events
    || |b.attrs| >= l.attrs || |b.transfers| >= l.transfers || |b.stakeDeleg| >= l.stakeDeleg
    || |b.stakeDistr| >= l.stakeDistr || |b.wasmExecs| >= l.wasmExecs || |b.wasmEvents| >= l.wasmEvents
  }

  predicate AllEmpty(b: Buffers) { b == NO_ROWS }

  // ------------------------------------------------------------------ heights

  predicate HasHeight(r: Row) { !r.key.EventKey? && !r.key.AttrKey? }

  function HeightsOf(rows: seq<Row>): seq<int> {
    if rows == [] then [] else (if HasHeight(rows[0]) then [rows[0].key.height] else []) + HeightsOf(rows[1..])
  }

  /** The heights in all buffers; event and attribute rows repeat the height of their transaction. */
  function AllHeights(b: Buffers): seq<int> {
    Concat(seq(|ORDER|, i requires 0 <= i < |ORDER| => HeightsOf(b.Of(ORDER[i]))))
  }

  function Maximum(hs: seq<int>): int
    requires hs != []
  {
    if |hs| == 1 then hs[0] else var m := Maximum(hs[1..]); if hs[0] < m then m else hs[0]
  }

  lemma {:induction false} MaximumIs(hs: seq<int>)
    requires hs != []
    ensures Maximum(hs) in hs && forall h :: h in hs ==> h <= Maximum(hs)
  {
    assert hs == [hs[0]] + hs[1..];
    if |hs| > 1 { MaximumIs(hs[1..]); }
  }

  lemma {:induction false} InHeightsOf(rows: seq<Row>, h: int)
    ensures h in HeightsOf(rows) <==> exists r :: r in rows && HasHeight(r) && r.key.height == h
  {
    if rows != [] {
      InHeightsOf(rows[1..], h);
      assert rows == [rows[0]] + rows[1..];
    }
  }

  ghost predicate HoldsBlocks(b: Buffers, bs: seq<Block>) { forall t: Table :: b.Of(t) == BlocksTable(bs, t) }

  /** The buffered heights are those of the buffered blocks. */
  lemma HeightsAreBlocks(b: Buffers, bs: seq<Block>, h: int)
    requires HoldsBlocks(b, bs)
    ensures h in AllHeights(b) <==> exists i :: 0 <= i < |bs| && bs[i].height == h
  {
    var parts := seq(|ORDER|, i requires 0 <= i < |ORDER| => HeightsOf(b.Of(ORDER[i])));
    InConcat(parts, h);
    if i :| 0 <= i < |bs| && bs[i].height == h {
      var r := RowOfBlock(bs[i]);
      InBlocksTable(bs, Blocks, r);
      InHeightsOf(b.Of(Blocks), h);
      assert b.Of(Blocks) == BlocksTable(bs, Blocks);
      assert h in parts[Position(Blocks)];
    }
    if j :| 0 <= j < |ORDER| && h in parts[j] {
      InHeightsOf(b.Of(ORDER[j]), h);
      var r :| r in b.Of(ORDER[j]) && HasHeight(r) && r.key.height == h;
      InBlocksTable(bs, ORDER[j], r);
      var i :| 0 <= i < |bs| && r in BlockTable(bs[i], ORDER[j]);
      BlockTableOrigin(bs[i], ORDER[j], r);
    }
  }

  /** A flush is due when the buffered blocks have, for some table, at least as many rows as its threshold. */
  ghost predicate FlushDue(bs: seq<Block>, l: Limits) { exists t: Table :: |BlocksTable(bs, t)| >= l.Of(t) }

  lemma ReachedThreshold(b: Buffers, l: Limits)
    requires NeedFlush(b, l)
    ensures exists t: Table :: |b.Of(t)| >= l.Of(t)
  {
    var t :=
      if |b.blocks| >= l.blocks then Blocks
      else if |b.txs| >= l.txs then Txs
      else if |b.msgs| >= l.msgs then Msgs
      else if |b.events| >= l.events then Events
      else if |b.attrs| >= l.attrs then Attrs
      else if |b.transfers| >= l.transfers then Transfers
      else if |b.stakeDeleg| >= l.stakeDeleg then StakeDeleg
      else if |b.stakeDistr| >= l.stakeDistr then StakeDistr
      else if |b.wasmExecs| >= l.wasmExecs then WasmExecs
      else WasmEvents;
    assert |b.Of(t)| >= l.Of(t);
  }

  lemma BelowThresholds(b: Buffers, l: Limits, t: Table)
    requires !NeedFlush(b, l)
    ensures |b.Of(t)| < l.Of(t)
  {
    match t
    case Blocks =>
    case Txs =>
    case Msgs =>
    case Events =>
    case Attrs =>
    case Transfers =>
    case StakeDeleg =>
    case StakeDistr =>
    case WasmExecs =>
    case WasmEvents =>
  }

  lemma NeedFlushIff(b: Buffers, bs: seq<Block>, l: Limits)
    requires HoldsBlocks(b, bs)
    ensures NeedFlush(b, l) <==> FlushDue(bs, l)
  {
    if NeedFlush(b, l) {
      ReachedThreshold(b, l);
      var t: Table :| |b.Of(t)| >= l.Of(t);
      assert |BlocksTable(bs, t)| >= l.Of(t);
    } else {
      forall t: Table ensures |BlocksTable(bs, t)| < l.Of(t) {
        BelowThresholds(b, l, t);
        assert b.Of(t) == BlocksTable(bs, t);
      }
    }
  }

  predicate IsHighest(bs: seq<Block>, h: int) { (exists b <- bs :: b.height == h) && forall b <- bs :: b.height <= h }

  /** The progress recorded with a flush is the greatest height of the buffered blocks. */
  lemma MaximumIsHighest(b: Buffers, bs: seq<Block>)
    requires HoldsBlocks(b, bs) && bs != []
    ensures AllHeights(b) != [] && IsHighest(bs, Maximum(AllHeights(b)))
  {
    HeightsAreBlocks(b, bs, bs[0].height);
    MaximumIs(AllHeights(b));
    HeightsAreBlocks(b, bs, Maximum(AllHeights(b)));
    var i :| 0 <= i < |bs| && bs[i].height == Maximum(AllHeights(b));
    assert bs[i] in bs;
    forall x | x in bs ensures x.height <= Maximum(AllHeights(b)) {
      var j :| 0 <= j < |bs| && bs[j] == x;
      HeightsAreBlocks(b, bs, x.height);
    }
  }

  /** For ascending blocks that is the last one. */
  lemma MaximumIsLast(b: Buffers, bs: seq<Block>)
    requires HoldsBlocks(b, bs) && bs != []
    requires forall i, j :: 0 <= i < j < |bs| ==> bs[i].height < bs[j].height
    ensures AllHeights(b) != [] && Maximum(AllHeights(b)) == bs[|bs| - 1].height
  {
    var last := bs[|bs| - 1].height;
    HeightsAreBlocks(b, bs, last);
    MaximumIs(AllHeights(b));
    HeightsAreBlocks(b, bs, Maximum(AllHeights(b)));
  }

  lemma HoldsNothing()
    ensures HoldsBlocks(NO_ROWS, [])
  {
    forall t: Table ensures NO_ROWS.Of(t) == BlocksTable([], t) { assert RowsByBlock([], t) == []; }
  }

  lemma EmptyMeansNoBlocks(b: Buffers, bs: seq<Block>)
    requires HoldsBlocks(b, bs)
    ensures b.blocks == [] <==> bs == []
  {
    assert b.Of(Blocks) == BlocksTable(bs, Blocks);
    if bs == [] {
      assert RowsByBlock(bs, Blocks) == [];
    } else {
      InBlocksTable(bs, Blocks, RowOfBlock(bs[0]));
    }
  }

  lemma HoldsOneMoreBlock(b: Buffers, bs: seq<Block>, rows: Buffers, block: Block)
    requires HoldsBlocks(b, bs) && forall t: Table {:trigger rows.Of(t)} :: rows.Of(t) == BlockTable(block, t)
    ensures HoldsBlocks(b.Push(rows), bs + [block])
  {
    forall t: Table ensures b.Push(rows).Of(t) == BlocksTable(bs + [block], t) {
      BlocksTableAppend(bs, block, t);
      assert b.Of(t) == BlocksTable(bs, t);
    }
  }

  // ------------------------------------------------------------------ where a flush stops

  /** Step `i` fails: the connection breaks there, or the statements of that table are rejected. */
  ghost predicate FailsAt(db: Db, bs: seq<Block>, fault: nat, i: nat) {
    i == fault || (i < |ORDER| && !TableAccepted(db, bs, ORDER[i]))
  }

  /**
   The first step from `i` on that fails; |ORDER| is the progress row and the COMMIT. `fault` is the step at
   which the connection breaks, if it is one of these.
   */
  ghost function FirstFailure(db: Db, bs: seq<Block>, fault: nat, i: nat): Option<nat>
    requires i <= |ORDER| + 1
    decreases |ORDER| + 1 - i
  {
    if i > |ORDER| then None else if FailsAt(db, bs, fault, i) then Some(i) else FirstFailure(db, bs, fault, i + 1)
  }

  /** None of the steps from `i` up to, not including, `j` fails. */
  ghost predicate Passed(db: Db, bs: seq<Block>, fault: nat, i: nat, j: nat) {
    forall k: nat :: i <= k < j ==> !FailsAt(db, bs, fault, k)
  }

  lemma {:induction false} FirstFailureIs(db: Db, bs: seq<Block>, fault: nat, i: nat)
    requires i <= |ORDER| + 1
    ensures var f := FirstFailure(db, bs, fault, i);
            && (f.None? ==> Passed(db, bs, fault, i, |ORDER| + 1))
            && (f.Some? ==> i <= f.value <= |ORDER| && FailsAt(db, bs, fault, f.value) && Passed(db, bs, fault, i, f.value))
    decreases |ORDER| + 1 - i
  {
    if i <= |ORDER| && !FailsAt(db, bs, fault, i) {
      FirstFailureIs(db, bs, fault, i + 1);
      PassedOneMore(db, bs, fault, i);
    }
  }

  lemma PassedOneMore(db: Db, bs: seq<Block>, fault: nat, i: nat)
    requires !FailsAt(db, bs, fault, i)
    ensures forall j :: Passed(db, bs, fault, i + 1, j) ==> Passed(db, bs, fault, i, j)
  {
  }

  /** A flush succeeds if and only if the connection holds and the blocks are accepted. */
  lemma SucceedsIff(db: Db, bs: seq<Block>, fault: nat)
    ensures FirstFailure(db, bs, fault, 0).None? <==> fault > |ORDER| && forall t: Table :: TableAccepted(db, bs, t)
  {
    FirstFailureIs(db, bs, fault, 0);
    if FirstFailure(db, bs, fault, 0).None? {
      assert fault <= |ORDER| ==> FailsAt(db, bs, fault, fault);
      forall t: Table ensures TableAccepted(db, bs, t) { assert !FailsAt(db, bs, fault, Position(t)); }
    }
  }

  /** A flush of new blocks succeeds if and only if the connection holds and each block is acceptable by itself. */
  lemma FreshFlushSucceedsIff(db: Db, bs: seq<Block>, fault: nat)
    requires Consistent(db) && FreshHeights(db, bs) && DistinctHeights(bs) && forall b :: b in bs ==> DistinctHashes(b)
    ensures FirstFailure(db, bs, fault, 0).None? <==> fault > |ORDER| && forall b :: b in bs ==> Acceptable(b)
  {
    SucceedsIff(db, bs, fault);
    FreshAcceptedIff(db, bs);
  }

  /** If the blocks are accepted, a flush stops exactly where the connection breaks. */
  lemma {:induction false} StopsAtFault(db: Db, bs: seq<Block>, fault: nat, i: nat)
    requires (forall t: Table :: TableAccepted(db, bs, t)) && i <= fault && i <= |ORDER| + 1
    ensures FirstFailure(db, bs, fault, i) == if fault <= |ORDER| then Some(fault) else None
    decreases |ORDER| + 1 - i
  {
    if i <= |ORDER| && i < fault { StopsAtFault(db, bs, fault, i + 1); }
  }

  // ------------------------------------------------------------------ the sink

  class PostgresSink {
    const limits: Limits
    var buf: Buffers
    var committed: Db
    var progress: Option<int>

    constructor (limits: Limits, db: Db, progress: Option<int>)
      ensures this.limits == limits && buf == NO_ROWS && committed == db && this.progress == progress
    {
      this.limits, buf, committed, this.progress := limits, NO_ROWS, db, progress;
    }

    /** One flusher: filter, split, execute. */
    method FlushTable(work: Db, rows: seq<Row>, t: Table) returns (result: Option<Db>)
      requires Consistent(work) && AllWellFormed(FlushRows(rows, t))
      ensures result == ExecStatements(work, Slices(FlushRows(rows, t), LimitOf(t)))
      ensures result.Some? <==>
                && AllDistinct(Slices(FlushRows(rows, t), LimitOf(t))) && AllComplete(FlushRows(rows, t))
                && UniquePositions(ApplyAll(work, FlushRows(rows, t)))
      ensures result.Some? ==> result.value == ApplyAll(work, FlushRows(rows, t))
    {
      var kept := FlushRows(rows, t);
      var (width, maxRows, maxParams) := Shape(t);
      var statements := ExecBatchedInsert(kept, width, maxRows, maxParams);
      result := Some(work);
      var i := 0;
      while i < |statements| && result.Some?
        invariant 0 <= i <= |statements|
        invariant result.Some? ==> ExecStatements(result.value, statements[i..]) == ExecStatements(work, statements)
        invariant result.None? ==> ExecStatements(work, statements).None?
      {
        assert statements[i..][0] == statements[i] && statements[i..][1..] == statements[i + 1..];
        result := ExecStatement(result.value, statements[i]);
        i := i + 1;
      }
      SlicesConcat(kept, LimitOf(t));
      StatementsApplyAll(work, statements);
      StatementsIff(work, statements);
    }

    /**
     `flushAll`. `fault` is the step at which the connection breaks: a table, the first one together with
     everything before it (connecting, partition creation, BEGIN), |ORDER| for the progress row and the
     COMMIT, more for none. `failed` is the step at which the flush stops.

     It stops at the first step that fails. If there is none, the database is the one that inserting the
     buffered blocks one by one gives, in one transaction with the progress row. Otherwise database and
     progress are untouched, and the buffers survive if and only if core.blocks was the failing table: the
     arrays of the tables before it are empty.
     */
    method FlushAll(ghost pending: seq<Block>, fault: nat) returns (failed: Option<nat>)
      requires HoldsBlocks(buf, pending) && Consistent(committed)
      modifies this`buf, this`committed, this`progress
      ensures pending != [] ==> failed == FirstFailure(old(committed), pending, fault, 0)
      ensures pending == [] ==> failed.None?
      ensures failed.None? ==>
                && committed == PersistBlocks(old(committed), pending) && HoldsBlocks(buf, [])
                && (pending == [] ==> progress == old(progress))
                && (pending != [] ==> AllHeights(old(buf)) != [] && progress == Some(Maximum(AllHeights(old(buf)))))
      ensures failed.Some? ==>
                && committed == old(committed) && progress == old(progress) && ClearedUpTo(buf, old(buf), failed.value)
                && (buf == old(buf) <==> fault == 0 || !TableAccepted(old(committed), pending, Blocks))
      ensures Consistent(committed)
    {
      HoldsNothing();
      if AllEmpty(buf) {
        EmptyMeansNoBlocks(buf, pending);
        return None;
      }
      EmptyMeansNoBlocks(buf, pending);
      NonEmptyMeansBlocks(buf, pending);
      HeightsAreBlocks(buf, pending, pending[0].height);
      var maxH := MaxOf(AllHeights(buf));
      var work;
      failed, work := FlushTables(pending, fault);
      if failed.None? && fault == |ORDER| { failed := Some(|ORDER|); }
      FailureFound(committed, pending, fault, failed);
      if failed.None? {
        AllCleared(buf, old(buf));
        PartialEnds(committed, pending);
        TxsPassed(committed, pending, fault);
        PartialConsistent(committed, pending, |ORDER|);
        committed, progress := work, Some(maxH);
      } else {
        BuffersIntactIff(committed, pending, fault, buf, old(buf));
      }
    }

    /** The flushers one after the other, in the open transaction, up to the first table that fails. */
    method FlushTables(ghost pending: seq<Block>, fault: nat) returns (failed: Option<nat>, work: Db)
      requires HoldsBlocks(buf, pending) && Consistent(committed)
      modifies this`buf
      ensures failed.None? ==>
                && Passed(committed, pending, fault, 0, |ORDER|)
                && work == Partial(committed, pending, |ORDER|) && ClearedUpTo(buf, old(buf), |ORDER|)
      ensures failed.Some? ==>
                && failed.value < |ORDER| && ClearedUpTo(buf, old(buf), failed.value)
                && FailsAt(committed, pending, fault, failed.value) && Passed(committed, pending, fault, 0, failed.value)
    {
      work := committed;
      ghost var start := buf;
      PartialEnds(committed, pending);
      var i := 0;
      while i < |ORDER|
        invariant 0 <= i <= |ORDER| && start == old(buf)
        invariant work == Partial(committed, pending, i)
        invariant ClearedUpTo(buf, start, i) && Passed(committed, pending, fault, 0, i)
      {
        if fault == i { return Some(i), work; }
        var result := FlushTurn(work, pending, fault, start, i);
        if result.None? { return Some(i), work; }
        work := result.value;
        ClearStep(buf, start, i);
        buf := buf.Clear(ORDER[i]);
        i := i + 1;
      }
      return None, work;
    }

    /** The flusher of the `i`-th table. */
    method FlushTurn(work: Db, ghost pending: seq<Block>, ghost fault: nat, ghost start: Buffers, i: nat) returns (result: Option<Db>)
      requires HoldsBlocks(start, pending) && Consistent(committed) && i < |ORDER| && i != fault
      requires ClearedUpTo(buf, start, i) && Passed(committed, pending, fault, 0, i) && work == Partial(committed, pending, i)
      ensures result.None? ==> FailsAt(committed, pending, fault, i)
      ensures result.Some? ==> Passed(committed, pending, fault, 0, i + 1) && result.value == Partial(committed, pending, i + 1)
    {
      TableTurn(committed, pending, fault, start, buf, i);
      result := FlushTable(work, buf.Of(ORDER[i]), ORDER[i]);
      PartialStep(committed, pending, i);
    }

    /** `persistBlockBuffered`: a flush follows if and only if the block reaches some threshold. */
    method PersistBlockBuffered(b: Block, ghost pending: seq<Block>, fault: nat) returns (failed: Option<nat>, flushed: bool)
      requires HoldsBlocks(buf, pending) && Consistent(committed)
      modifies this`buf, this`committed, this`progress
      ensures flushed <==> FlushDue(pending + [b], limits)
      ensures !flushed ==> failed.None? && HoldsBlocks(buf, pending + [b]) && committed == old(committed) && progress == old(progress)
      ensures flushed ==> failed == FirstFailure(old(committed), pending + [b], fault, 0)
      ensures flushed && failed.None? ==>
                && committed == PersistBlocks(old(committed), pending + [b]) && HoldsBlocks(buf, [])
                && progress.Some? && IsHighest(pending + [b], progress.value)
                && ((forall x <- pending :: x.height < b.height) ==> progress == Some(b.height))
      ensures failed.Some? ==> committed == old(committed) && progress == old(progress)
      ensures Consistent(committed)
    {
      var rows := ExtractRows(b);
      HoldsOneMoreBlock(buf, pending, rows, b);
      buf := buf.Push(rows);
      NeedFlushIff(buf, pending + [b], limits);
      failed, flushed := None, NeedFlush(buf, limits);
      if flushed {
        MaximumIsHighest(buf, pending + [b]);
        failed := FlushAll(pending + [b], fault);
      }
    }

    /**
     `persistBlockAtomic`: one block in a transaction of its own. It inserts delegation rows unfiltered,
     and it never writes the progress row.
     */
    method PersistBlockAtomic(b: Block) returns (ok: bool)
      requires Consistent(committed)
      modifies this`committed
      ensures ok <==>
                && (forall t: Table :: CompleteFor(b, t)) && DelegationsComplete(b) && DistinctHashes(b)
                && UniquePositions(PersistBlock(old(committed), b))
      ensures ok ==> committed == ApplyAll(old(committed), Concat(UnfilteredByTable(b)))
      ensures ok && (forall r :: r in BlockTable(b, StakeDeleg) ==> Kept(r)) ==> committed == PersistBlock(old(committed), b)
      ensures !ok ==> committed == old(committed)
      ensures Consistent(committed)
    {
      var rows := ExtractRows(b);
      var result := ExecTables(committed, rows, b);
      AtomicAcceptedIff(committed, b);
      ok := result.Some?;
      if ok {
        if forall r :: r in BlockTable(b, StakeDeleg) ==> Kept(r) { UnfilteredIsAll(b); }
        committed := result.value;
      }
    }
  }

  /** The INSERTs of one block, one statement a table. */
  method ExecTables(db: Db, rows: Buffers, ghost b: Block) returns (result: Option<Db>)
    requires forall t: Table {:trigger rows.Of(t)} :: rows.Of(t) == BlockTable(b, t)
    ensures result == ExecStatements(db, UnfilteredByTable(b))
  {
    ghost var all := UnfilteredByTable(b);
    var work := db;
    var i := 0;
    while i < |ORDER|
      invariant 0 <= i <= |ORDER|
      invariant ExecStatements(work, all[i..]) == ExecStatements(db, all)
    {
      assert all[i..][0] == rows.Of(ORDER[i]) && all[i..][1..] == all[i + 1..];
      var statement := ExecStatement(work, rows.Of(ORDER[i]));
      if statement.None? { return None; }
      work := statement.value;
      i := i + 1;
    }
    return Some(work);
  }

  function UnfilteredByTable(b: Block): seq<seq<Row>> {
    seq(|ORDER|, i requires 0 <= i < |ORDER| => BlockTable(b, ORDER[i]))
  }

  lemma {:induction false} WhereAll<T>(s: seq<T>, p: T -> bool)
    requires forall x :: x in s ==> p(x)
    ensures Where(s, p) == s
  {
    if s != [] { WhereAll(s[1..], p); }
  }

  lemma UnfilteredIsAll(b: Block)
    requires forall r :: r in BlockTable(b, StakeDeleg) ==> Kept(r)
    ensures Concat(UnfilteredByTable(b)) == AllRows([b])
  {
    WhereAll(BlockTable(b, StakeDeleg), Kept);
    forall i | 0 <= i < |ORDER| ensures UnfilteredByTable(b)[i] == RowsByTable([b])[i] { BlocksTableOne(b, ORDER[i]); }
    assert UnfilteredByTable(b) == RowsByTable([b]);
  }

  /** The arrays of the first `n` tables have been emptied, the others are as they were. */
  ghost predicate ClearedUpTo(b: Buffers, start: Buffers, n: nat) {
    forall t: Table :: b.Of(t) == if Position(t) < n then [] else start.Of(t)
  }

  lemma NotYetCleared(b: Buffers, start: Buffers, i: nat)
    requires i < |ORDER| && ClearedUpTo(b, start, i)
    ensures b.Of(ORDER[i]) == start.Of(ORDER[i])
  {
    PositionOf(i);
  }

  lemma ClearStep(b: Buffers, start: Buffers, i: nat)
    requires i < |ORDER| && ClearedUpTo(b, start, i)
    ensures ClearedUpTo(b.Clear(ORDER[i]), start, i + 1)
  {
    PositionOf(i);
    forall t: Table ensures b.Clear(ORDER[i]).Of(t) == if Position(t) < i + 1 then [] else start.Of(t) {
      assert b.Of(t) == if Position(t) < i then [] else start.Of(t);
      assert Position(t) == i ==> t == ORDER[i];
    }
  }

  lemma AllCleared(b: Buffers, start: Buffers)
    requires ClearedUpTo(b, start, |ORDER|)
    ensures b == NO_ROWS && HoldsBlocks(b, [])
  {
    SameBuffers(b, NO_ROWS);
    HoldsNothing();
  }

  lemma FailureFound(db: Db, bs: seq<Block>, fault: nat, failed: Option<nat>)
    requires failed.Some? ==> failed.value <= |ORDER| && FailsAt(db, bs, fault, failed.value) && Passed(db, bs, fault, 0, failed.value)
    requires failed.None? ==> Passed(db, bs, fault, 0, |ORDER|) && fault != |ORDER|
    ensures failed == FirstFailure(db, bs, fault, 0)
  {
    FirstFailureIs(db, bs, fault, 0);
    assert !FailsAt(db, bs, |ORDER| + 1, |ORDER|);
  }

  lemma TxsPassed(db: Db, bs: seq<Block>, fault: nat)
    requires Passed(db, bs, fault, 0, |ORDER|)
    ensures TableAccepted(db, bs, Txs)
  {
    assert !FailsAt(db, bs, fault, 1);
  }

  /**
   The promise that the buffers stay intact when the transaction fails holds exactly if core.blocks is where
   it fails, by the connection or by a block that table refuses: every later failure finds the block buffer
   emptied already.
   */
  lemma BuffersIntactIff(db: Db, bs: seq<Block>, fault: nat, b: Buffers, start: Buffers)
    requires HoldsBlocks(start, bs) && bs != [] && FirstFailure(db, bs, fault, 0).Some?
    requires ClearedUpTo(b, start, FirstFailure(db, bs, fault, 0).value)
    ensures b == start <==> fault == 0 || !TableAccepted(db, bs, Blocks)
  {
    EmptyMeansNoBlocks(start, bs);
    if FailsAt(db, bs, fault, 0) {
      SameBuffers(b, start);
    } else {
      FirstFailureIs(db, bs, fault, 1);
      ClearedBehindFirst(b, start, FirstFailure(db, bs, fault, 0).value);
    }
  }

  lemma ClearedBehindFirst(b: Buffers, start: Buffers, n: nat)
    requires ClearedUpTo(b, start, n) && n >= 1 && start.blocks != []
    ensures b != start
  {
    assert b.Of(Blocks) == [] && start.Of(Blocks) != [];
  }

  /** A block with everything that the constraints ask for, and no transactions. */
  function PlainBlock(h: int): Block { Block(h, Some("hash"), Some("time"), Some("proposer"), "", []) }

  lemma PlainAccepted(db: Db, h: int)
    requires Consistent(db) && FreshHeights(db, [PlainBlock(h)])
    ensures forall t: Table :: TableAccepted(db, [PlainBlock(h)], t)
  {
    var b := PlainBlock(h);
    forall t: Table ensures CompleteFor(b, t) {}
    assert Acceptable(b);
    FreshAcceptedIff(db, [b]);
  }

  /** The promise broken: one buffered block, the connection breaks in the second table, and the block is gone. */
  lemma BuffersLost(b: Buffers, start: Buffers)
    requires HoldsBlocks(start, [PlainBlock(1)])
    ensures FirstFailure(map[], [PlainBlock(1)], 1, 0) == Some(1)
    ensures ClearedUpTo(b, start, 1) ==> b.blocks == [] && start.blocks == [RowOfBlock(PlainBlock(1))]
  {
    PlainAccepted(map[], 1);
    StopsAtFault(map[], [PlainBlock(1)], 1, 0);
    BlocksTableOne(PlainBlock(1), Blocks);
    assert start.Of(Blocks) == BlocksTable([PlainBlock(1)], Blocks);
    if ClearedUpTo(b, start, 1) { assert b.Of(Blocks) == []; }
  }

  /** The block at height 1 carries no commit signatures: its flush stops at core.blocks, whatever else is buffered. */
  lemma FirstBlockStopsFlush(db: Db, bs: seq<Block>, b: Block, fault: nat)
    requires b in bs && b.proposer == ProposerOf([])
    ensures FirstFailure(db, bs, fault, 0) == Some(0)
  {
    FirstBlockRejected(db, bs, b);
  }

  /** However the rows of a table are split into statements, a block that misses a column is refused. */
  lemma IncompleteRefused(db: Db, bs: seq<Block>, b: Block, t: Table, statements: seq<seq<Row>>)
    requires b in bs && !CompleteFor(b, t) && Concat(statements) == FlushRows(BlocksTable(bs, t), t)
    ensures ExecStatements(db, statements).None?
  {
    StatementsComplete(db, statements);
    BlocksCompleteIff(bs, t);
  }

  /** One more table in the open transaction. */
  lemma FlushStep(db: Db, bs: seq<Block>, i: nat)
    requires i < |ORDER|
    ensures ApplyAll(ApplyAll(db, Concat(RowsByTable(bs)[..i])), FlushRows(BlocksTable(bs, ORDER[i]), ORDER[i])) ==
            ApplyAll(db, Concat(RowsByTable(bs)[..i + 1]))
  {
    ConcatPrefix(RowsByTable(bs), i);
    ApplyAllConcat(db, Concat(RowsByTable(bs)[..i]), RowsByTable(bs)[i]);
  }

  lemma SameBuffers(a: Buffers, b: Buffers)
    requires forall t: Table :: a.Of(t) == b.Of(t)
    ensures a == b
  {
    assert a.blocks == a.Of(Blocks) && a.txs == a.Of(Txs) && a.msgs == a.Of(Msgs) && a.events == a.Of(Events);
    assert a.attrs == a.Of(Attrs) && a.transfers == a.Of(Transfers) && a.stakeDeleg == a.Of(StakeDeleg);
    assert a.stakeDistr == a.Of(StakeDistr) && a.wasmExecs == a.Of(WasmExecs) && a.wasmEvents == a.Of(WasmEvents);
  }

  lemma NonEmptyMeansBlocks(b: Buffers, bs: seq<Block>)
    requires HoldsBlocks(b, bs) && b != NO_ROWS
    ensures bs != []
  {
    if bs == [] {
      forall t: Table ensures b.Of(t) == [] { assert RowsByBlock(bs, t) == []; }
      SameBuffers(b, NO_ROWS);
    }
  }

  /** What the flusher of the `i`-th table finds. */
  lemma TableTurn(db: Db, bs: seq<Block>, fault: nat, start: Buffers, b: Buffers, i: nat)
    requires HoldsBlocks(start, bs) && Consistent(db) && i < |ORDER| && ClearedUpTo(b, start, i) && i != fault
    requires Passed(db, bs, fault, 0, i)
    ensures b.Of(ORDER[i]) == BlocksTable(bs, ORDER[i])
    ensures Consistent(Partial(db, bs, i)) && AllWellFormed(FlushRows(b.Of(ORDER[i]), ORDER[i]))
    ensures ExecStatements(Partial(db, bs, i), Slices(FlushRows(b.Of(ORDER[i]), ORDER[i]), LimitOf(ORDER[i]))).Some? <==>
            !FailsAt(db, bs, fault, i)
  {
    NotYetCleared(b, start, i);
    assert start.Of(ORDER[i]) == BlocksTable(bs, ORDER[i]);
    TurnIff(db, bs, fault, i);
    FlushedWellFormed(bs, ORDER[i]);
  }

  lemma TurnIff(db: Db, bs: seq<Block>, fault: nat, i: nat)
    requires Consistent(db) && i < |ORDER| && i != fault && Passed(db, bs, fault, 0, i)
    ensures Consistent(Partial(db, bs, i))
    ensures var t := ORDER[i];
            ExecStatements(Partial(db, bs, i), Slices(FlushRows(BlocksTable(bs, t), t), LimitOf(t))).Some? <==>
            !FailsAt(db, bs, fault, i)
  {
    if i >= 2 { assert !FailsAt(db, bs, fault, 1); }
    PartialConsistent(db, bs, i);
    TableAcceptedIff(db, bs, i);
  }

  // ------------------------------------------------------------------ one block at a time

  /** Without the filter the delegation rows have to be complete by themselves. */
  predicate DelegationsComplete(b: Block) { forall tx <- b.txs :: ItemsComplete(Derive(tx), StakeDeleg) }

  lemma DelegationRowsIff(b: Block)
    ensures AllComplete(BlockTable(b, StakeDeleg)) <==> DelegationsComplete(b)
  {
    if AllComplete(BlockTable(b, StakeDeleg)) { RowsGiveDelegations(b); }
    if DelegationsComplete(b) { DelegationsGiveRows(b); }
  }

  lemma TxDelegationsIff(b: Block, tx: Tx)
    ensures AllComplete(TxTable(b.height, b.time, tx, StakeDeleg)) <==> ItemsComplete(Derive(tx), StakeDeleg)
  {
    ItemsCompleteIff(b.height, tx.hash, Derive(tx), StakeDeleg);
  }

  lemma RowsGiveDelegations(b: Block)
    requires AllComplete(BlockTable(b, StakeDeleg))
    ensures DelegationsComplete(b)
  {
    forall tx | tx in b.txs ensures ItemsComplete(Derive(tx), StakeDeleg) {
      forall r | r in TxTable(b.height, b.time, tx, StakeDeleg) ensures Complete(r) { InRowsByTx(b, StakeDeleg, r); }
      TxDelegationsIff(b, tx);
    }
  }

  lemma DelegationsGiveRows(b: Block)
    requires DelegationsComplete(b)
    ensures AllComplete(BlockTable(b, StakeDeleg))
  {
    forall tx | tx in b.txs ensures AllComplete(TxTable(b.height, b.time, tx, StakeDeleg)) { TxDelegationsIff(b, tx); }
    forall r | r in BlockTable(b, StakeDeleg) ensures Complete(r) { InRowsByTx(b, StakeDeleg, r); }
  }

  lemma TableCompleteIff(b: Block, t: Table)
    ensures AllComplete(BlockTable(b, t)) <==> if t.StakeDeleg? then DelegationsComplete(b) else CompleteFor(b, t)
  {
    if t.StakeDeleg? { DelegationRowsIff(b); } else { CompleteIff(b, t); }
  }

  lemma AllUnfilteredComplete(b: Block)
    ensures AllComplete(Concat(UnfilteredByTable(b))) <==> (forall t: Table :: CompleteFor(b, t)) && DelegationsComplete(b)
  {
    var ss := UnfilteredByTable(b);
    if AllComplete(Concat(ss)) {
      forall t: Table ensures AllComplete(BlockTable(b, t)) {
        forall r | r in BlockTable(b, t) ensures Complete(r) {
          assert r in ss[Position(t)];
          InConcat(ss, r);
        }
      }
      forall t: Table ensures CompleteFor(b, t) { TableCompleteIff(b, t); }
      TableCompleteIff(b, StakeDeleg);
    }
    if (forall t: Table :: CompleteFor(b, t)) && DelegationsComplete(b) {
      forall r | r in Concat(ss) ensures Complete(r) {
        InConcat(ss, r);
        var i :| 0 <= i < |ss| && r in ss[i];
        TableCompleteIff(b, ORDER[i]);
      }
    }
  }

  lemma TxHashesIff(b: Block)
    ensures DistinctTxKeys(BlockTable(b, Txs)) <==> DistinctHashes(b)
  {
    var rows := BlockTable(b, Txs);
    TxRowsAre(b.height, b.time, b.txs);
    if DistinctTxKeys(rows) {
      forall i, j | 0 <= i < j < |b.txs| ensures b.txs[i].hash != b.txs[j].hash { assert rows[i].key != rows[j].key; }
    }
    if DistinctHashes(b) { TxKeysOfBlock(b); }
  }

  lemma {:induction false} TxRowsAre(h: int, time: Option<string>, txs: seq<Tx>)
    ensures |Concat(RowsByTx(h, time, txs, Txs))| == |txs|
    ensures forall i :: 0 <= i < |txs| ==> Concat(RowsByTx(h, time, txs, Txs))[i] == RowOfTx(h, time, txs[i])
  {
    if txs != [] {
      TxRowsAre(h, time, txs[1..]);
      assert RowsByTx(h, time, txs, Txs)[1..] == RowsByTx(h, time, txs[1..], Txs);
    }
  }

  lemma NoTxRows(b: Block, i: nat)
    requires i < |ORDER| && i != 1
    ensures DistinctTxKeys(BlockTable(b, ORDER[i]))
  {
    var rows := BlockTable(b, ORDER[i]);
    forall j | 0 <= j < |rows| ensures !rows[j].key.TxKey? { BlockTableOrigin(b, ORDER[i], rows[j]); }
  }

  lemma UnfilteredDistinctIff(b: Block)
    ensures AllDistinct(UnfilteredByTable(b)) <==> DistinctHashes(b)
  {
    var ss := UnfilteredByTable(b);
    TxHashesIff(b);
    assert ss[1] in ss;
    forall s: seq<Row> | s in ss && s != ss[1] ensures DistinctTxKeys(s) {
      var i :| 0 <= i < |ss| && ss[i] == s;
      NoTxRows(b, i);
    }
  }

  /** Filtered or not, the transactions are the same. */
  lemma UnfilteredTxRows(b: Block, k: Key)
    requires k.TxKey?
    ensures RowsAt(Concat(UnfilteredByTable(b)), k) == RowsAt(AllRows([b]), k)
  {
    var ss := UnfilteredByTable(b);
    forall i, r | 0 <= i < |ss| && i != 1 && r in ss[i] ensures !AtKey(k)(r) {
      BlockTableOrigin(b, ORDER[i], r);
      PositionOf(i);
    }
    WhereConcatSingle(ss, AtKey(k), 1);
    RowsAtAll([b], k);
    BlocksTableOne(b, Txs);
  }

  lemma UnfilteredWellFormed(b: Block)
    ensures AllWellFormed(Concat(UnfilteredByTable(b)))
  {
    var ss := UnfilteredByTable(b);
    forall r | r in Concat(ss) ensures WellFormedRow(r) {
      InConcat(ss, r);
      var i :| 0 <= i < |ss| && r in ss[i];
      BlockTableOrigin(b, ORDER[i], r);
    }
  }

  /** The transaction of one block goes through if and only if the block satisfies every constraint by itself. */
  lemma AtomicAcceptedIff(db: Db, b: Block)
    requires Consistent(db)
    ensures var result := ExecStatements(db, UnfilteredByTable(b));
            && (result.Some? <==>
                && (forall t: Table :: CompleteFor(b, t)) && DelegationsComplete(b) && DistinctHashes(b)
                && UniquePositions(PersistBlock(db, b)))
            && (result.Some? ==> result.value == ApplyAll(db, Concat(UnfilteredByTable(b))) && Consistent(result.value))
  {
    var ss := UnfilteredByTable(b);
    UnfilteredWellFormed(b);
    StatementsIff(db, ss);
    StatementsApplyAll(db, ss);
    UnfilteredDistinctIff(b);
    AllUnfilteredComplete(b);
    forall k: Key | k.TxKey? ensures RowsAt(Concat(ss), k) == RowsAt(AllRows([b]), k) { UnfilteredTxRows(b, k); }
    SamePositionsAfter(db, Concat(ss), AllRows([b]));
    ApplyAllWellFormed(db, Concat(ss));
  }

  /** `Math.max(...heights)`. */
  method MaxOf(hs: seq<int>) returns (m: int)
    requires hs != []
    ensures m == Maximum(hs)
  {
    m := hs[|hs| - 1];
    var i := |hs| - 1;
    while i > 0
      invariant 0 <= i < |hs| && m == Maximum(hs[i..])
    {
      i := i - 1;
      if hs[i] >= m { m := hs[i]; }
      assert hs[i..][1..] == hs[i + 1..];
    }
    assert hs[0..] == hs;
  }
}
