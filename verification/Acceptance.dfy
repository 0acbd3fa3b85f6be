/** When the database accepts the rows of a flush, in terms of the blocks they stem from. */
module Acceptance {
  import opened Blocks
  import opened Sequences
  import opened Base64
  import opened Batch
  import opened Database
  import opened Derivation
  import opened Extraction
  import opened JsonText
  import opened Persistence

  /** Columns, rows and parameters per statement, as each flusher passes them to execBatchedInsert. */
  function Shape(t: Table): (s: (nat, int, int))
    ensures 1 <= s.0 <= s.2 && s.1 >= 1
  {
    match t
    case Blocks => (10, 5000, 30000)
    case Txs => (12, 1000, 20000)
    case Msgs => (6, 500, 12000)
    case Events => (5, 10000, 20000)
    case Attrs => (5, 10000, 30000)
    case Transfers => (7, 5000, 30000)
    case StakeDeleg => (10, 5000, 30000)
    case StakeDistr => (9, 5000, 30000)
    case WasmExecs => (10, 5000, 30000)
    case WasmEvents => (6, 5000, 30000)
  }

  /** Rows per statement of each flusher. */
  function LimitOf(t: Table): (n: nat)
    ensures n >= 1 && n == RowLimit(Shape(t).0, Shape(t).1, Shape(t).2)
    ensures t.Txs? ==> n == 1000
  {
    WithinParams(0, Shape(t).0, Shape(t).2);
    RowLimit(Shape(t).0, Shape(t).1, Shape(t).2)
  }

  // ------------------------------------------------------------------ complete blocks

  /** The items of a derived table satisfy their constraints. */
  predicate ItemsComplete(items: seq<Derived>, t: Table) { forall d <- items :: ItemTable(d, t) ==> CompleteItem(d) }

  predicate ItemTable(d: Derived, t: Table) {
    match d
    case Transfer(_, _, _, _, _) => t.Transfers?
    case Delegation(_, _, _, _, _, _, _, _) => t.StakeDeleg?
    case Distribution(_, _, _, _, _, _, _) => t.StakeDistr?
    case WasmExec(_, _, _, _, _, _, _, _) => t.WasmExecs?
    case WasmEvent(_, _, _, _) => t.WasmEvents?
  }

  /** The fields of a transaction that the constraints of table `t` need; delegation rows are filtered before. */
  predicate TxCompleteFor(time: Option<string>, tx: Tx, t: Table) {
    match t
    case Txs => time.Some?
    case Msgs => forall m <- tx.msgs :: m.Some?
    case Transfers => ItemsComplete(Derive(tx), t)
    case WasmExecs => ItemsComplete(Derive(tx), t)
    case _ => true
  }

  /** The fields of a block that the constraints of table `t` need. */
  predicate CompleteFor(b: Block, t: Table) {
    if t.Blocks? then b.blockHash.Some? && b.time.Some? && b.proposer.Some?
    else forall tx <- b.txs :: TxCompleteFor(b.time, tx, t)
  }

  lemma InRowsByTx(b: Block, t: Table, r: Row)
    requires !t.Blocks?
    ensures r in BlockTable(b, t) <==> exists tx :: tx in b.txs && r in TxTable(b.height, b.time, tx, t)
  {
    var ss := RowsByTx(b.height, b.time, b.txs, t);
    InConcat(ss, r);
    if r in BlockTable(b, t) {
      var i :| 0 <= i < |ss| && r in ss[i];
      assert b.txs[i] in b.txs;
    }
    if tx :| tx in b.txs && r in TxTable(b.height, b.time, tx, t) {
      var i :| 0 <= i < |b.txs| && b.txs[i] == tx;
      assert r in ss[i];
    }
  }

  lemma InDerivedTable(h: int, hash: string, items: seq<Derived>, t: Table, r: Row)
    ensures r in Concat(DerivedByItem(h, hash, items, t)) <==>
            exists d :: d in items && r == DerivedRow(h, hash, d) && TableOfKey(r.key) == t
  {
    var ss := DerivedByItem(h, hash, items, t);
    InConcat(ss, r);
    if r in Concat(ss) {
      var i :| 0 <= i < |ss| && r in ss[i];
      assert items[i] in items && r == DerivedRow(h, hash, items[i]);
    }
    if d :| d in items && r == DerivedRow(h, hash, d) && TableOfKey(r.key) == t {
      var i :| 0 <= i < |items| && items[i] == d;
      assert r in ss[i];
    }
  }

  lemma CompleteItems(h: int, hash: string, items: seq<Derived>, t: Table)
    requires AllComplete(Concat(DerivedByItem(h, hash, items, t)))
    ensures ItemsComplete(items, t)
  {
    forall d | d in items && ItemTable(d, t) ensures CompleteItem(d) {
      InDerivedTable(h, hash, items, t, DerivedRow(h, hash, d));
      assert Complete(DerivedRow(h, hash, d));
    }
  }

  lemma CompleteItemRows(h: int, hash: string, items: seq<Derived>, t: Table)
    requires ItemsComplete(items, t)
    ensures AllComplete(Concat(DerivedByItem(h, hash, items, t)))
  {
    forall r | r in Concat(DerivedByItem(h, hash, items, t)) ensures Complete(r) {
      InDerivedTable(h, hash, items, t, r);
      var d :| d in items && r == DerivedRow(h, hash, d) && TableOfKey(r.key) == t;
      assert ItemTable(d, t);
    }
  }

  lemma ItemsCompleteIff(h: int, hash: string, items: seq<Derived>, t: Table)
    ensures AllComplete(Concat(DerivedByItem(h, hash, items, t))) <==> ItemsComplete(items, t)
  {
    if AllComplete(Concat(DerivedByItem(h, hash, items, t))) { CompleteItems(h, hash, items, t); }
    if ItemsComplete(items, t) { CompleteItemRows(h, hash, items, t); }
  }

  lemma MsgsCompleteIff(h: int, hash: string, msgs: seq<Option<Msg>>)
    ensures AllComplete(MsgRows(h, hash, msgs)) <==> forall m :: m in msgs ==> m.Some?
  {
    var rows := MsgRows(h, hash, msgs);
    forall i | 0 <= i < |msgs| ensures Complete(rows[i]) <==> msgs[i].Some? {}
    if AllComplete(rows) {
      forall i | 0 <= i < |msgs| ensures msgs[i].Some? { assert rows[i] in rows; }
    }
  }

  lemma TxCompleteIff(h: int, time: Option<string>, tx: Tx, t: Table)
    requires !t.Blocks? && !t.StakeDeleg?
    ensures AllComplete(TxTable(h, time, tx, t)) <==> TxCompleteFor(time, tx, t)
  {
    match t
    case Txs => assert RowOfTx(h, time, tx) in TxTable(h, time, tx, t);
    case Msgs => MsgsCompleteIff(h, tx.hash, tx.msgs);
    case Events =>
      forall r | r in TxTable(h, time, tx, t) ensures Complete(r) { EventRowOrigin(tx.hash, tx.logs, r); }
    case Attrs =>
      forall r | r in TxTable(h, time, tx, t) ensures Complete(r) { AttrRowOrigin(tx.hash, tx.logs, r); }
    case _ => ItemsCompleteIff(h, tx.hash, Derive(tx), t);
  }

  /** The rows of a block that are flushed into table `t` are complete if and only if the block is, for that table. */
  lemma CompleteIff(b: Block, t: Table)
    ensures AllComplete(FlushRows(BlockTable(b, t), t)) <==> CompleteFor(b, t)
  {
    if t.Blocks? {
      assert RowOfBlock(b) in BlockTable(b, t);
    } else if t.StakeDeleg? {
      KeptComplete(b);
    } else {
      UnfilteredCompleteIff(b, t);
    }
  }

  lemma UnfilteredCompleteIff(b: Block, t: Table)
    requires !t.Blocks? && !t.StakeDeleg?
    ensures AllComplete(BlockTable(b, t)) <==> CompleteFor(b, t)
  {
    if AllComplete(BlockTable(b, t)) {
      forall tx | tx in b.txs ensures TxCompleteFor(b.time, tx, t) {
        forall r | r in TxTable(b.height, b.time, tx, t) ensures Complete(r) { InRowsByTx(b, t, r); }
        TxCompleteIff(b.height, b.time, tx, t);
      }
    }
    if CompleteFor(b, t) {
      forall r | r in BlockTable(b, t) ensures Complete(r) {
        InRowsByTx(b, t, r);
        var tx :| tx in b.txs && r in TxTable(b.height, b.time, tx, t);
        TxCompleteIff(b.height, b.time, tx, t);
      }
    }
  }

  /** The filter of the delegation flusher leaves complete rows only. */
  lemma KeptComplete(b: Block)
    ensures AllComplete(FlushRows(BlockTable(b, StakeDeleg), StakeDeleg))
  {
    forall r | r in FlushRows(BlockTable(b, StakeDeleg), StakeDeleg) ensures Complete(r) {
      InFlushRows(BlockTable(b, StakeDeleg), StakeDeleg, r);
      BlockTableOrigin(b, StakeDeleg, r);
    }
  }

  lemma {:induction false} BlocksCompleteIff(bs: seq<Block>, t: Table)
    ensures AllComplete(FlushRows(BlocksTable(bs, t), t)) <==> forall b :: b in bs ==> CompleteFor(b, t)
    decreases |bs|
  {
    if bs == [] {
      assert RowsByBlock(bs, t) == [];
    } else {
      var front, b := bs[..|bs| - 1], bs[|bs| - 1];
      assert bs == front + [b];
      BlocksCompleteIff(front, t);
      BlocksTableAppend(front, b, t);
      FlushRowsConcat(BlocksTable(front, t), BlockTable(b, t), t);
      AllConcat(FlushRows(BlocksTable(front, t), t), FlushRows(BlockTable(b, t), t));
      CompleteIff(b, t);
    }
  }

  // ------------------------------------------------------------------ transactions of one statement

  predicate OtherTx(a: Row, b: Row) { a.key.TxKey? ==> a.key != b.key }

  /** The same transaction twice in one statement of at most a thousand rows. */
  ghost predicate RepeatsTx(bs: seq<Block>) {
    var rows := BlocksTable(bs, Txs);
    exists i, j :: 0 <= i < j < |rows| && i / 1000 == j / 1000 && rows[i].key == rows[j].key
  }

  lemma DistinctSlicesIff(rows: seq<Row>, limit: nat)
    requires limit >= 1
    ensures AllDistinct(Slices(rows, limit)) <==>
            forall i, j :: 0 <= i < j < |rows| && i / limit == j / limit ==> OtherTx(rows[i], rows[j])
  {
    SameSliceIff(rows, limit, OtherTx);
    forall s: seq<Row> | s in Slices(rows, limit) ensures DistinctTxKeys(s) <==> PairwiseOther(s) { PairwiseOtherIff(s); }
    assert InEverySlice(rows, limit, OtherTx) <==> forall s: seq<Row> :: s in Slices(rows, limit) ==> PairwiseOther(s);
  }

  predicate PairwiseOther(s: seq<Row>) { forall i, j :: 0 <= i < j < |s| ==> OtherTx(s[i], s[j]) }

  lemma PairwiseOtherIff(s: seq<Row>)
    ensures DistinctTxKeys(s) <==> PairwiseOther(s)
  {
    if PairwiseOther(s) {
      forall i, j | 0 <= i < j < |s| && s[i].key.TxKey? ensures s[i].key != s[j].key { assert OtherTx(s[i], s[j]); }
    }
  }

  lemma FlushedRow(bs: seq<Block>, t: Table, r: Row)
    requires r in FlushRows(BlocksTable(bs, t), t)
    ensures TableOfKey(r.key) == t && WellFormedRow(r)
  {
    InFlushRows(BlocksTable(bs, t), t, r);
    InBlocksTable(bs, t, r);
    var i :| 0 <= i < |bs| && r in BlockTable(bs[i], t);
    BlockTableOrigin(bs[i], t, r);
  }

  /** Only the statements of core.transactions can name a row twice. */
  lemma SlicesAcceptedIff(bs: seq<Block>, t: Table)
    ensures AllDistinct(Slices(FlushRows(BlocksTable(bs, t), t), LimitOf(t))) <==> (t.Txs? ==> !RepeatsTx(bs))
  {
    var rows := FlushRows(BlocksTable(bs, t), t);
    DistinctSlicesIff(rows, LimitOf(t));
    forall i | 0 <= i < |rows| ensures rows[i].key.TxKey? <==> t.Txs? { FlushedRow(bs, t, rows[i]); }
    if t.Txs? {
      if !AllDistinct(Slices(rows, LimitOf(t))) {
        var i, j :| 0 <= i < j < |rows| && i / 1000 == j / 1000 && !OtherTx(rows[i], rows[j]);
        assert rows[i].key == rows[j].key;
      }
      if RepeatsTx(bs) {
        var i, j :| 0 <= i < j < |rows| && i / 1000 == j / 1000 && rows[i].key == rows[j].key;
        assert !OtherTx(rows[i], rows[j]);
      }
    } else {
      forall i, j | 0 <= i < j < |rows| && i / LimitOf(t) == j / LimitOf(t) ensures OtherTx(rows[i], rows[j]) {}
    }
  }

  // ------------------------------------------------------------------ positions

  /** Two sequences of rows that agree on the transactions leave the same positions. */
  lemma SamePositionsAfter(db: Db, a: seq<Row>, b: seq<Row>)
    requires forall k: Key :: k.TxKey? ==> RowsAt(a, k) == RowsAt(b, k)
    ensures UniquePositions(ApplyAll(db, a)) <==> UniquePositions(ApplyAll(db, b))
  {
    SamePositionsOneWay(db, a, b);
    SamePositionsOneWay(db, b, a);
  }

  lemma SamePositionsOneWay(db: Db, a: seq<Row>, b: seq<Row>)
    requires forall k: Key :: k.TxKey? ==> RowsAt(a, k) == RowsAt(b, k)
    ensures UniquePositions(ApplyAll(db, a)) ==> UniquePositions(ApplyAll(db, b))
  {
    var x, y := ApplyAll(db, a), ApplyAll(db, b);
    forall k: Key | k.TxKey? ensures Lookup(x, k) == Lookup(y, k) {
      LookupApplyAll(db, a, k);
      LookupApplyAll(db, b, k);
    }
    if UniquePositions(x) {
      forall k, l | SameHeight(k, l) && k in y && l in y && y[k].TxColumns? && At(y, l, y[k].txIndex) ensures k == l {
        assert Lookup(x, k) == Lookup(y, k) && Lookup(x, l) == Lookup(y, l);
        assert At(x, l, x[k].txIndex);
      }
    }
  }

  lemma NoTxBefore(bs: seq<Block>, n: nat, k: Key)
    requires n <= 1 && k.TxKey?
    ensures RowsAt(Concat(RowsByTable(bs)[..n]), k) == []
  {
    var ss := RowsByTable(bs)[..n];
    forall r | r in Concat(ss) ensures !AtKey(k)(r) {
      InConcat(ss, r);
      var i :| 0 <= i < n && r in ss[i];
      NoTxOutside(bs, i, k, r);
    }
    WhereNone(Concat(ss), AtKey(k));
  }

  lemma AllTxsBehind(bs: seq<Block>, n: nat, k: Key)
    requires 2 <= n <= |ORDER| && k.TxKey?
    ensures RowsAt(Concat(RowsByTable(bs)[..n]), k) == RowsAt(AllRows(bs), k)
  {
    var ss := RowsByTable(bs)[..n];
    forall i, r | 0 <= i < n && i != 1 && r in ss[i] ensures !AtKey(k)(r) { NoTxOutside(bs, i, k, r); }
    WhereConcatSingle(ss, AtKey(k), 1);
    SecondIsTxs(bs);
    RowsAtAll(bs, k);
  }

  lemma SecondIsTxs(bs: seq<Block>)
    ensures RowsByTable(bs)[1] == FlushRows(BlocksTable(bs, Txs), Txs)
  {
  }

  lemma NoTxOutside(bs: seq<Block>, i: nat, k: Key, r: Row)
    requires i < |ORDER| && i != 1 && k.TxKey? && r in RowsByTable(bs)[i]
    ensures r.key != k
  {
    FlushedKeyTable(bs, i, r);
    PositionOf(i);
  }

  lemma PrefixPositions(db: Db, bs: seq<Block>, n: nat)
    requires n <= |ORDER|
    ensures UniquePositions(ApplyAll(db, Concat(RowsByTable(bs)[..n]))) <==>
            if n <= 1 then UniquePositions(db) else UniquePositions(PersistBlocks(db, bs))
  {
    var prefix := Concat(RowsByTable(bs)[..n]);
    FlushIsBlockwise(db, bs);
    if n <= 1 {
      forall k: Key | k.TxKey? ensures RowsAt(prefix, k) == RowsAt([], k) { NoTxBefore(bs, n, k); }
      SamePositionsAfter(db, prefix, []);
    } else {
      forall k: Key | k.TxKey? ensures RowsAt(prefix, k) == RowsAt(AllRows(bs), k) { AllTxsBehind(bs, n, k); }
      SamePositionsAfter(db, prefix, AllRows(bs));
    }
  }

  // ------------------------------------------------------------------ tables

  /** The flush of `bs` into `db` gets past table `t`. */
  ghost predicate TableAccepted(db: Db, bs: seq<Block>, t: Table) {
    && (forall b :: b in bs ==> CompleteFor(b, t))
    && (t.Txs? ==> !RepeatsTx(bs) && UniquePositions(PersistBlocks(db, bs)))
  }

  /** The database with the rows of the first `i` tables. */
  function Partial(db: Db, bs: seq<Block>, i: nat): Db
    requires i <= |ORDER|
  {
    ApplyAll(db, Concat(RowsByTable(bs)[..i]))
  }

  lemma PartialConsistent(db: Db, bs: seq<Block>, i: nat)
    requires Consistent(db) && i <= |ORDER| && (i >= 2 ==> TableAccepted(db, bs, Txs))
    ensures Consistent(Partial(db, bs, i))
  {
    PrefixPositions(db, bs, i);
    forall r | r in Concat(RowsByTable(bs)[..i]) ensures WellFormedRow(r) {
      InConcat(RowsByTable(bs)[..i], r);
      var j :| 0 <= j < i && r in RowsByTable(bs)[..i][j];
      FlushedRow(bs, ORDER[j], r);
    }
    ApplyAllWellFormed(db, Concat(RowsByTable(bs)[..i]));
  }

  lemma SlicedStatementsIff(db: Db, rows: seq<Row>, limit: nat)
    requires Consistent(db) && AllWellFormed(rows) && limit >= 1
    ensures ExecStatements(db, Slices(rows, limit)).Some? <==>
            AllDistinct(Slices(rows, limit)) && AllComplete(rows) && UniquePositions(ApplyAll(db, rows))
  {
    SlicesConcat(rows, limit);
    StatementsIff(db, Slices(rows, limit));
  }

  lemma PositionsAfter(db: Db, bs: seq<Block>, i: nat)
    requires Consistent(db) && i < |ORDER| && (i >= 2 ==> TableAccepted(db, bs, Txs))
    ensures UniquePositions(Partial(db, bs, i + 1)) <==> (i == 1 ==> UniquePositions(PersistBlocks(db, bs)))
  {
    PrefixPositions(db, bs, i + 1);
  }

  lemma FlushedWellFormed(bs: seq<Block>, t: Table)
    ensures AllWellFormed(FlushRows(BlocksTable(bs, t), t))
  {
    forall r | r in FlushRows(BlocksTable(bs, t), t) ensures WellFormedRow(r) { FlushedRow(bs, t, r); }
  }

  /** In the open transaction the statements of the `i`-th table are accepted if and only if the blocks allow it. */
  lemma TableAcceptedIff(db: Db, bs: seq<Block>, i: nat)
    requires Consistent(db) && i < |ORDER| && (i >= 2 ==> TableAccepted(db, bs, Txs))
    ensures var t := ORDER[i];
            ExecStatements(Partial(db, bs, i), Slices(FlushRows(BlocksTable(bs, t), t), LimitOf(t))).Some? <==>
            TableAccepted(db, bs, t)
  {
    var t := ORDER[i];
    PartialConsistent(db, bs, i);
    FlushedWellFormed(bs, t);
    SlicedStatementsIff(Partial(db, bs, i), FlushRows(BlocksTable(bs, t), t), LimitOf(t));
    SlicesAcceptedIff(bs, t);
    BlocksCompleteIff(bs, t);
    PartialStep(db, bs, i);
    PositionsAfter(db, bs, i);
    assert t.Txs? <==> i == 1;
  }

  lemma PartialStep(db: Db, bs: seq<Block>, i: nat)
    requires i < |ORDER|
    ensures ApplyAll(Partial(db, bs, i), FlushRows(BlocksTable(bs, ORDER[i]), ORDER[i])) == Partial(db, bs, i + 1)
  {
    ConcatPrefix(RowsByTable(bs), i);
    ApplyAllConcat(db, Concat(RowsByTable(bs)[..i]), RowsByTable(bs)[i]);
  }

  lemma PartialEnds(db: Db, bs: seq<Block>)
    ensures Partial(db, bs, 0) == db && Partial(db, bs, |ORDER|) == PersistBlocks(db, bs)
  {
    assert RowsByTable(bs)[..0] == [];
    assert RowsByTable(bs)[..|ORDER|] == RowsByTable(bs);
    FlushIsBlockwise(db, bs);
  }

  // ------------------------------------------------------------------ fresh blocks

  predicate DistinctHashes(b: Block) { forall i, j :: 0 <= i < j < |b.txs| ==> b.txs[i].hash != b.txs[j].hash }

  predicate DistinctIndexes(b: Block) { forall i, j :: 0 <= i < j < |b.txs| ==> b.txs[i].index != b.txs[j].index }

  ghost predicate DistinctHeights(bs: seq<Block>) { forall i, j :: 0 <= i < j < |bs| ==> bs[i].height != bs[j].height }

  /** No transaction of these heights is stored. */
  predicate FreshHeights(db: Db, bs: seq<Block>) { forall k <- db.Keys :: k.TxKey? ==> forall b <- bs :: b.height != k.height }

  lemma {:induction false} DistinctConcat(ss: seq<seq<Row>>)
    requires forall i :: 0 <= i < |ss| ==> DistinctTxKeys(ss[i])
    requires forall i, j, x: Row, y: Row :: 0 <= i < j < |ss| && x in ss[i] && y in ss[j] && x.key.TxKey? ==> x.key != y.key
    ensures DistinctTxKeys(Concat(ss))
  {
    if ss != [] {
      var rest := ss[1..];
      forall i, j, x: Row, y: Row | 0 <= i < j < |rest| && x in rest[i] && y in rest[j] && x.key.TxKey? ensures x.key != y.key {
        assert x in ss[i + 1] && y in ss[j + 1];
      }
      DistinctConcat(rest);
      var all := Concat(ss);
      forall i, j | 0 <= i < j < |all| && all[i].key.TxKey? ensures all[i].key != all[j].key {
        if i < |ss[0]| <= j {
          assert all[j] == Concat(rest)[j - |ss[0]|];
          InConcat(rest, all[j]);
          var k :| 0 <= k < |rest| && all[j] in rest[k];
          assert all[i] in ss[0] && all[j] in ss[k + 1];
        } else if |ss[0]| <= i {
          assert all[i] == Concat(rest)[i - |ss[0]|] && all[j] == Concat(rest)[j - |ss[0]|];
        }
      }
    }
  }

  lemma TxKeysOfBlock(b: Block)
    requires DistinctHashes(b)
    ensures DistinctTxKeys(BlockTable(b, Txs))
  {
    DistinctConcat(RowsByTx(b.height, b.time, b.txs, Txs));
  }

  /** Blocks of different heights, each with different transaction hashes, never make a DO UPDATE collide. */
  lemma TxKeysDistinct(bs: seq<Block>)
    requires DistinctHeights(bs) && forall b :: b in bs ==> DistinctHashes(b)
    ensures DistinctTxKeys(BlocksTable(bs, Txs)) && !RepeatsTx(bs)
  {
    var ss := RowsByBlock(bs, Txs);
    forall i | 0 <= i < |ss| ensures DistinctTxKeys(ss[i]) { TxKeysOfBlock(bs[i]); }
    forall i, j, x: Row, y: Row | 0 <= i < j < |ss| && x in ss[i] && y in ss[j] && x.key.TxKey? ensures x.key != y.key {
      BlockTableOrigin(bs[i], Txs, x);
      BlockTableOrigin(bs[j], Txs, y);
    }
    DistinctConcat(ss);
    var rows := BlocksTable(bs, Txs);
    forall i | 0 <= i < |rows| ensures rows[i].key.TxKey? { FlushedRow(bs, Txs, rows[i]); }
  }

  lemma {:induction false} PositionOrigin(db: Db, rows: seq<Row>, k: Key, index: int)
    requires At(ApplyAll(db, rows), k, index)
    ensures At(db, k, index) || exists r :: r in rows && r.key == k && r.cols.TxColumns? && r.cols.txIndex == index
    decreases |rows|
  {
    if rows != [] {
      PositionOrigin(Apply(db, rows[0]), rows[1..], k, index);
      assert rows == [rows[0]] + rows[1..];
    }
  }

  lemma TxRow(bs: seq<Block>, r: Row) returns (i: nat, j: nat)
    requires r in AllRows(bs) && r.key.TxKey?
    ensures i < |bs| && j < |bs[i].txs| && r == RowOfTx(bs[i].height, bs[i].time, bs[i].txs[j])
  {
    var t;
    i, t := FromAllRows(bs, r);
    BlockTableOrigin(bs[i], t, r);
    InRowsByTx(bs[i], Txs, r);
    var tx :| tx in bs[i].txs && r in TxTable(bs[i].height, bs[i].time, tx, Txs);
    j :| 0 <= j < |bs[i].txs| && bs[i].txs[j] == tx;
  }

  /** A position that a flush of fresh blocks has added is that of a transaction. */
  lemma AddedPosition(db: Db, bs: seq<Block>, k: Key, index: int) returns (i: nat, j: nat)
    requires k.TxKey? && k !in db && At(PersistBlocks(db, bs), k, index)
    ensures i < |bs| && j < |bs[i].txs| && k == TxKey(bs[i].height, bs[i].txs[j].hash) && index == bs[i].txs[j].index
  {
    FlushIsBlockwise(db, bs);
    PositionOrigin(db, AllRows(bs), k, index);
    var r :| r in AllRows(bs) && r.key == k && r.cols.TxColumns? && r.cols.txIndex == index;
    i, j := TxRow(bs, r);
  }

  /** The transaction that a fresh height and a hash stand for. */
  lemma SameTx(bs: seq<Block>, i: nat, j: nat, i2: nat, j2: nat)
    requires DistinctHeights(bs) && (forall b :: b in bs ==> DistinctHashes(b))
    requires i < |bs| && j < |bs[i].txs| && i2 < |bs| && j2 < |bs[i2].txs|
    requires bs[i].height == bs[i2].height && bs[i].txs[j].hash == bs[i2].txs[j2].hash
    ensures i == i2 && j == j2
  {
    assert bs[i] in bs;
  }

  /** Every transaction of fresh blocks is stored at its own index. */
  lemma FreshPosition(db: Db, bs: seq<Block>, i: nat, j: nat)
    requires WellFormed(db) && FreshHeights(db, bs) && DistinctHeights(bs) && (forall b :: b in bs ==> DistinctHashes(b))
    requires i < |bs| && j < |bs[i].txs|
    ensures At(PersistBlocks(db, bs), TxKey(bs[i].height, bs[i].txs[j].hash), bs[i].txs[j].index)
  {
    var k := TxKey(bs[i].height, bs[i].txs[j].hash);
    var after := PersistBlocks(db, bs);
    TxStored(db, bs, i, j);
    PersistBlocksWellFormed(db, bs);
    assert WellFormedRow(Row(k, after[k]));
    assert bs[i] in bs && k !in db;
    var i2, j2 := AddedPosition(db, bs, k, after[k].txIndex);
    SameTx(bs, i, j, i2, j2);
  }

  /** Fresh blocks keep the positions unique if and only if the transactions of each have indexes of their own. */
  lemma FreshPositionsIff(db: Db, bs: seq<Block>)
    requires Consistent(db) && FreshHeights(db, bs) && DistinctHeights(bs) && forall b :: b in bs ==> DistinctHashes(b)
    ensures UniquePositions(PersistBlocks(db, bs)) <==> forall b :: b in bs ==> DistinctIndexes(b)
  {
    var after := PersistBlocks(db, bs);
    if UniquePositions(after) {
      forall b, j, l | b in bs && 0 <= j < l < |b.txs| ensures b.txs[j].index != b.txs[l].index {
        var i :| 0 <= i < |bs| && bs[i] == b;
        FreshPosition(db, bs, i, j);
        FreshPosition(db, bs, i, l);
        assert SameHeight(TxKey(b.height, b.txs[j].hash), TxKey(b.height, b.txs[l].hash));
      }
    }
    if forall b :: b in bs ==> DistinctIndexes(b) {
      FlushIsBlockwise(db, bs);
      PositionsStay(db, AllRows(bs));
      forall x, y | SameHeight(x, y) && x in after && y in after && after[x].TxColumns? && At(after, y, after[x].txIndex) ensures x == y {
        FreshPairUnique(db, bs, x, y);
      }
    }
  }

  lemma HeightsApart(db: Db, bs: seq<Block>)
    requires FreshHeights(db, bs)
    ensures forall k, i :: k in db && k.TxKey? && 0 <= i < |bs| ==> bs[i].height != k.height
  {
    forall k, i | k in db && k.TxKey? && 0 <= i < |bs| ensures bs[i].height != k.height { assert bs[i] in bs; }
  }

  lemma FreshPairUnique(db: Db, bs: seq<Block>, x: Key, y: Key)
    requires Consistent(db) && FreshHeights(db, bs) && DistinctHeights(bs) && forall b :: b in bs ==> DistinctIndexes(b)
    requires SamePositions(db, PersistBlocks(db, bs))
    requires var after := PersistBlocks(db, bs);
             SameHeight(x, y) && x in after && y in after && after[x].TxColumns? && At(after, y, after[x].txIndex)
    ensures x == y
  {
    var after := PersistBlocks(db, bs);
    HeightsApart(db, bs);
    if x in db && y in db {
      assert WellFormedRow(Row(x, db[x])) && WellFormedRow(Row(y, db[y]));
      assert At(after, x, db[x].txIndex) && At(after, y, db[y].txIndex);
    } else if x in db {
      var i, j := AddedPosition(db, bs, y, after[x].txIndex);
    } else if y in db {
      var i, j := AddedPosition(db, bs, x, after[x].txIndex);
    } else {
      var i, j := AddedPosition(db, bs, x, after[x].txIndex);
      var i2, j2 := AddedPosition(db, bs, y, after[x].txIndex);
      assert bs[i] in bs;
    }
  }

  /** What the constraints ask of one block. */
  ghost predicate Acceptable(b: Block) { DistinctIndexes(b) && forall t: Table :: CompleteFor(b, t) }

  /**
   A flush of blocks of new heights, each with different transaction hashes, meets no violated constraint
   if and only if every one of the blocks is acceptable by itself.
   */
  lemma FreshAcceptedIff(db: Db, bs: seq<Block>)
    requires Consistent(db) && FreshHeights(db, bs) && DistinctHeights(bs) && forall b :: b in bs ==> DistinctHashes(b)
    ensures (forall t: Table :: TableAccepted(db, bs, t)) <==> forall b :: b in bs ==> Acceptable(b)
  {
    TxKeysDistinct(bs);
    FreshPositionsIff(db, bs);
    if forall t: Table :: TableAccepted(db, bs, t) {
      assert TableAccepted(db, bs, Txs);
      forall b, t: Table | b in bs ensures CompleteFor(b, t) { assert TableAccepted(db, bs, t); }
    }
  }

  // ------------------------------------------------------------------ the first block of a chain

  /** `last_commit.signatures[0].validator_address ?? null` */
  function ProposerOf(signatures: seq<Option<string>>): Option<string> { if signatures == [] then None else signatures[0] }

  /** A block without commit signatures, as the block at height 1 is: nobody has signed a block before it. */
  lemma FirstBlockRejected(db: Db, bs: seq<Block>, b: Block)
    requires b in bs && b.proposer == ProposerOf([])
    ensures !TableAccepted(db, bs, Blocks) && !Acceptable(b)
  {
    assert !CompleteFor(b, Blocks);
  }
  // ------------------------------------------------------------------ contract calls

  lemma ExecDerived(tx: Tx, i: nat, d: Derived)
    requires i < |tx.msgs| && ExecOf(tx, i) == [d]
    ensures d in Derive(tx)
  {
    assert d in ExecsByMsg(tx)[i];
    InConcat(ExecsByMsg(tx), d);
  }

  /** A block with a contract call whose `msg` is a string that is no JSON text is refused by wasm.executions. */
  lemma CallRefused(db: Db, bs: seq<Block>, b: Block, tx: Tx, i: nat, text: string)
    requires b in bs && tx in b.txs && i < |tx.msgs| && tx.msgs[i].Some? && tx.msgs[i].value.typeUrl == EXECUTE
    requires tx.msgs[i].value.Get("msg") == Some(Text(text)) && !IsJson(text)
    ensures !TableAccepted(db, bs, WasmExecs) && !Acceptable(b)
  {
    var d := ExecOf(tx, i)[0];
    ExecDerived(tx, i, d);
    assert ItemTable(d, WasmExecs) && !CompleteItem(d);
    assert !CompleteFor(b, WasmExecs);
  }

  /**
   The decoder leaves the bytes of `msg` as base64 text, and the flusher takes a string for JSON. So no block
   with a call that is a JSON object gets past wasm.executions.
   */
  lemma EncodedCallRefused(db: Db, bs: seq<Block>, b: Block, tx: Tx, i: nat, text: string, bytes: seq<Byte>)
    requires b in bs && tx in b.txs && i < |tx.msgs| && tx.msgs[i].Some? && tx.msgs[i].value.typeUrl == EXECUTE
    requires tx.msgs[i].value.Get("msg") == Some(Text(text)) && IsTextOf(text, Encode(bytes)) && bytes != [] && bytes[0] == 0x7B
    ensures !TableAccepted(db, bs, WasmExecs) && !Acceptable(b)
  {
    EncodedBrace(bytes, text);
    if IsJson(text) { WordsOnly(text); }
    CallRefused(db, bs, b, tx, i, text);
  }
}
