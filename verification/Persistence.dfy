/**
 Flushing buffered blocks table by table against inserting them block by block: the two leave the same
 database.
 */
module Persistence {
  import opened Blocks
  import opened Database
  import opened Sequences
  import opened Derivation
  import opened Extraction

  /** The order in which `flushAll` empties the buffers. */
  const ORDER: seq<Table> :=
    [Blocks, Txs, Msgs, Events, Attrs, Transfers, StakeDeleg, StakeDistr, WasmExecs, WasmEvents]

  function Position(t: Table): (i: nat)
    ensures i < |ORDER| && ORDER[i] == t
  {
    match t
    case Blocks => 0
    case Txs => 1
    case Msgs => 2
    case Events => 3
    case Attrs => 4
    case Transfers => 5
    case StakeDeleg => 6
    case StakeDistr => 7
    case WasmExecs => 8
    case WasmEvents => 9
  }

  lemma PositionOf(i: nat)
    requires i < |ORDER|
    ensures Position(ORDER[i]) == i
  {
  }

  /** The filter of the delegation flusher; rows of other tables always pass. */
  predicate Kept(r: Row) {
    r.cols.DerivedColumns? && r.cols.item.Delegation? ==>
      && Truthy(r.cols.item.delegator) && Truthy(r.cols.item.coinDenom) && Truthy(r.cols.item.coinAmount)
      && r.cols.item.eventType != ""
  }

  function FlushRows(rows: seq<Row>, t: Table): seq<Row> { if t.StakeDeleg? then Where(rows, Kept) else rows }

  function RowsByBlock(bs: seq<Block>, t: Table): seq<seq<Row>> {
    seq(|bs|, i requires 0 <= i < |bs| => BlockTable(bs[i], t))
  }

  /** The rows of table `t` that a sequence of blocks contributes. */
  function BlocksTable(bs: seq<Block>, t: Table): seq<Row> { Concat(RowsByBlock(bs, t)) }

  /** What a flush of `bs` inserts, table after table. */
  function RowsByTable(bs: seq<Block>): seq<seq<Row>> {
    seq(|ORDER|, i requires 0 <= i < |ORDER| => FlushRows(BlocksTable(bs, ORDER[i]), ORDER[i]))
  }

  function AllRows(bs: seq<Block>): seq<Row> { Concat(RowsByTable(bs)) }

  /** One block on its own, all its tables. */
  function PersistBlock(db: Db, b: Block): Db { ApplyAll(db, AllRows([b])) }

  /** Block after block. */
  function PersistBlocks(db: Db, bs: seq<Block>): Db {
    if bs == [] then db else PersistBlock(PersistBlocks(db, bs[..|bs| - 1]), bs[|bs| - 1])
  }

  // ------------------------------------------------------------------ from table order to block order

  lemma BlocksTableAppend(bs: seq<Block>, b: Block, t: Table)
    ensures BlocksTable(bs + [b], t) == BlocksTable(bs, t) + BlockTable(b, t)
  {
    assert RowsByBlock(bs + [b], t) == RowsByBlock(bs, t) + [BlockTable(b, t)];
    ConcatAppend(RowsByBlock(bs, t), BlockTable(b, t));
  }

  lemma BlocksTableOne(b: Block, t: Table)
    ensures BlocksTable([b], t) == BlockTable(b, t)
  {
    BlocksTableAppend([], b, t);
    assert [] + [b] == [b];
    assert RowsByBlock([], t) == [];
  }

  lemma InBlocksTable(bs: seq<Block>, t: Table, r: Row)
    ensures r in BlocksTable(bs, t) <==> exists i :: 0 <= i < |bs| && r in BlockTable(bs[i], t)
  {
    InConcat(RowsByBlock(bs, t), r);
    if i :| 0 <= i < |bs| && r in BlockTable(bs[i], t) { assert r in RowsByBlock(bs, t)[i]; }
  }

  lemma InFlushRows(rows: seq<Row>, t: Table, r: Row)
    ensures r in FlushRows(rows, t) <==> r in rows && (t.StakeDeleg? ==> Kept(r))
  {
    InWhere(rows, Kept);
  }

  lemma FlushedKeyTable(bs: seq<Block>, i: nat, r: Row)
    requires i < |ORDER| && r in RowsByTable(bs)[i]
    ensures TableOfKey(r.key) == ORDER[i]
  {
    InFlushRows(BlocksTable(bs, ORDER[i]), ORDER[i], r);
    InBlocksTable(bs, ORDER[i], r);
    var j :| 0 <= j < |bs| && r in BlockTable(bs[j], ORDER[i]);
    BlockTableOrigin(bs[j], ORDER[i], r);
  }

  /** In table order, the rows with key `k` are those of the one table `k` belongs to. */
  lemma RowsAtAll(bs: seq<Block>, k: Key)
    ensures RowsAt(AllRows(bs), k) == RowsAt(FlushRows(BlocksTable(bs, TableOfKey(k)), TableOfKey(k)), k)
  {
    var j := Position(TableOfKey(k));
    forall i, r | 0 <= i < |ORDER| && i != j && r in RowsByTable(bs)[i] ensures !AtKey(k)(r) {
      FlushedKeyTable(bs, i, r);
      PositionOf(i);
    }
    WhereConcatSingle(RowsByTable(bs), AtKey(k), j);
  }

  lemma FlushRowsConcat(a: seq<Row>, b: seq<Row>, t: Table)
    ensures FlushRows(a + b, t) == FlushRows(a, t) + FlushRows(b, t)
  {
    WhereConcat(a, b, Kept);
  }

  lemma RowsAtAppend(bs: seq<Block>, b: Block, k: Key)
    ensures RowsAt(AllRows(bs + [b]), k) == RowsAt(AllRows(bs) + AllRows([b]), k)
  {
    var t := TableOfKey(k);
    RowsAtAll(bs + [b], k);
    RowsAtAll(bs, k);
    RowsAtAll([b], k);
    BlocksTableAppend(bs, b, t);
    BlocksTableOne(b, t);
    FlushRowsConcat(BlocksTable(bs, t), BlockTable(b, t), t);
    WhereConcat(FlushRows(BlocksTable(bs, t), t), FlushRows(BlockTable(b, t), t), AtKey(k));
    WhereConcat(AllRows(bs), AllRows([b]), AtKey(k));
  }

  lemma NoRows()
    ensures AllRows([]) == []
  {
    forall i | 0 <= i < |ORDER| ensures RowsByTable([])[i] == [] {
      assert RowsByBlock([], ORDER[i]) == [];
    }
    ConcatEmpty(RowsByTable([]));
  }

  /** Emptying the buffers table by table leaves what inserting the blocks one by one would have left. */
  lemma {:induction false} FlushIsBlockwise(db: Db, bs: seq<Block>)
    ensures ApplyAll(db, AllRows(bs)) == PersistBlocks(db, bs)
    decreases |bs|
  {
    if bs == [] {
      NoRows();
    } else {
      var front, b := bs[..|bs| - 1], bs[|bs| - 1];
      assert front + [b] == bs;
      FlushIsBlockwise(db, front);
      ApplyAllConcat(db, AllRows(front), AllRows([b]));
      forall k ensures RowsAt(AllRows(bs), k) == RowsAt(AllRows(front) + AllRows([b]), k) {
        RowsAtAppend(front, b, k);
      }
      ApplyAllByKey(db, AllRows(bs), AllRows(front) + AllRows([b]));
    }
  }

  lemma {:induction false} PersistBlocksConcat(db: Db, a: seq<Block>, b: seq<Block>)
    ensures PersistBlocks(db, a + b) == PersistBlocks(PersistBlocks(db, a), b)
    decreases |b|
  {
    if b == [] {
      assert a + b == a;
    } else {
      assert (a + b)[..|a + b| - 1] == a + b[..|b| - 1];
      PersistBlocksConcat(db, a, b[..|b| - 1]);
    }
  }

  // ------------------------------------------------------------------ what a database state holds

  lemma FromAllRows(bs: seq<Block>, r: Row) returns (i: nat, t: Table)
    requires r in AllRows(bs)
    ensures i < |bs| && r in BlockTable(bs[i], t) && (t.StakeDeleg? ==> Kept(r))
  {
    InConcat(RowsByTable(bs), r);
    var j :| 0 <= j < |ORDER| && r in RowsByTable(bs)[j];
    t := ORDER[j];
    InFlushRows(BlocksTable(bs, t), t, r);
    InBlocksTable(bs, t, r);
    i :| 0 <= i < |bs| && r in BlockTable(bs[i], t);
  }

  lemma IntoAllRows(bs: seq<Block>, i: nat, t: Table, r: Row)
    requires i < |bs| && r in BlockTable(bs[i], t) && (t.StakeDeleg? ==> Kept(r))
    ensures r in AllRows(bs)
  {
    InBlocksTable(bs, t, r);
    InFlushRows(BlocksTable(bs, t), t, r);
    assert r in RowsByTable(bs)[Position(t)];
    InConcat(RowsByTable(bs), r);
  }

  /** A key is stored exactly if it was before, or some block contributes a row for it. */
  lemma StoredKeys(db: Db, bs: seq<Block>, k: Key)
    ensures k in PersistBlocks(db, bs) <==> k in db || exists r :: r in AllRows(bs) && r.key == k
  {
    FlushIsBlockwise(db, bs);
    ApplyAllKeys(db, AllRows(bs), k);
  }

  lemma BlockStored(db: Db, bs: seq<Block>, i: nat)
    requires i < |bs|
    ensures BlockKey(bs[i].height) in PersistBlocks(db, bs)
  {
    var r := RowOfBlock(bs[i]);
    IntoAllRows(bs, i, Blocks, r);
    StoredKeys(db, bs, r.key);
  }

  lemma TxStored(db: Db, bs: seq<Block>, i: nat, j: nat)
    requires i < |bs| && j < |bs[i].txs|
    ensures TxKey(bs[i].height, bs[i].txs[j].hash) in PersistBlocks(db, bs)
  {
    var b := bs[i];
    var r := RowOfTx(b.height, b.time, b.txs[j]);
    assert r in RowsByTx(b.height, b.time, b.txs, Txs)[j];
    InConcat(RowsByTx(b.height, b.time, b.txs, Txs), r);
    IntoAllRows(bs, i, Txs, r);
    StoredKeys(db, bs, r.key);
  }

  /** The key of a row that hangs on the transaction `hash` at height `h`. */
  predicate HangsOn(k: Key, h: int, hash: string) {
    !k.BlockKey? && k.txHash == hash && (!k.EventKey? && !k.AttrKey? ==> k.height == h)
  }

  /**
   No database state that a flush commits holds part of a block: whatever is stored stems from a block
   whose own row, and whose transaction row for it, are stored too.
   */
  lemma NoPartialBlocks(bs: seq<Block>, k: Key)
    requires k in PersistBlocks(map[], bs)
    ensures exists i :: 0 <= i < |bs| && BlockKey(bs[i].height) in PersistBlocks(map[], bs) &&
              (k == BlockKey(bs[i].height) ||
               exists j :: 0 <= j < |bs[i].txs| && HangsOn(k, bs[i].height, bs[i].txs[j].hash) &&
                           TxKey(bs[i].height, bs[i].txs[j].hash) in PersistBlocks(map[], bs))
  {
    StoredKeys(map[], bs, k);
    var r :| r in AllRows(bs) && r.key == k;
    var i, t := FromAllRows(bs, r);
    BlockStored(map[], bs, i);
    BlockTableOrigin(bs[i], t, r);
    if !t.Blocks? {
      var j :| 0 <= j < |bs[i].txs| && Belongs(r, bs[i].height, bs[i].txs[j].hash);
      TxStored(map[], bs, i, j);
      assert HangsOn(k, bs[i].height, bs[i].txs[j].hash);
    }
  }

  /** The block heights in the database are exactly those of the persisted blocks. */
  lemma StoredHeights(bs: seq<Block>, h: int)
    ensures BlockKey(h) in PersistBlocks(map[], bs) <==> exists i :: 0 <= i < |bs| && bs[i].height == h
  {
    if BlockKey(h) in PersistBlocks(map[], bs) {
      StoredKeys(map[], bs, BlockKey(h));
      var r :| r in AllRows(bs) && r.key == BlockKey(h);
      var i, t := FromAllRows(bs, r);
      BlockTableOrigin(bs[i], t, r);
    }
    if i :| 0 <= i < |bs| && bs[i].height == h { BlockStored(map[], bs, i); }
  }

  lemma {:induction false} PersistBlocksWellFormed(db: Db, bs: seq<Block>)
    requires WellFormed(db)
    ensures WellFormed(PersistBlocks(db, bs))
  {
    FlushIsBlockwise(db, bs);
    forall r | r in AllRows(bs) ensures WellFormedRow(r) { ExtractedWellFormed(bs, r); }
    ApplyAllWellFormed(db, AllRows(bs));
  }

  lemma ExtractedWellFormed(bs: seq<Block>, r: Row)
    requires r in AllRows(bs)
    ensures WellFormedRow(r)
  {
    var i, t := FromAllRows(bs, r);
    BlockTableOrigin(bs[i], t, r);
  }

  /** Blocks that are stored already can be indexed again: the database stays as it is. */
  lemma ReindexingChangesNothing(db: Db, bs: seq<Block>)
    requires WellFormed(db)
    ensures PersistBlocks(PersistBlocks(db, bs), bs) == PersistBlocks(db, bs)
  {
    FlushIsBlockwise(db, bs);
    FlushIsBlockwise(PersistBlocks(db, bs), bs);
    forall r | r in AllRows(bs) ensures WellFormedRow(r) { ExtractedWellFormed(bs, r); }
    ReapplyingChangesNothing(db, AllRows(bs));
  }
  // ------------------------------------------------------------------ indexing blocks more than once

  /** Blocks of one height are one block, and no transaction hash occurs at two heights. */
  predicate OneChain(bs: seq<Block>) {
    && (forall b, c :: b in bs && c in bs && b.height == c.height ==> b == c)
    && (forall b, c :: b in bs && c in bs && SharesHash(b, c) ==> b.height == c.height)
  }

  predicate SharesHash(b: Block, c: Block) {
    exists i, j :: 0 <= i < |b.txs| && 0 <= j < |c.txs| && b.txs[i].hash == c.txs[j].hash
  }

  /** What one block has for a key. */
  function Share(b: Block, k: Key): seq<Row> { RowsAt(AllRows([b]), k) }

  lemma ShareRow(b: Block, k: Key) returns (r: Row)
    requires Share(b, k) != []
    ensures r.key == k && (k.BlockKey? ==> k.height == b.height)
    ensures !k.BlockKey? ==> exists i :: 0 <= i < |b.txs| && Belongs(r, b.height, b.txs[i].hash)
  {
    r := Share(b, k)[0];
    assert r in Share(b, k);
    InWhere(AllRows([b]), AtKey(k));
    var i, t := FromAllRows([b], r);
    BlockTableOrigin(b, t, r);
  }

  /** No key belongs to two blocks. */
  lemma OneOwner(bs: seq<Block>, b: Block, c: Block, k: Key)
    requires OneChain(bs) && b in bs && c in bs && Share(b, k) != [] && Share(c, k) != []
    ensures b == c
  {
    var x := ShareRow(b, k);
    var y := ShareRow(c, k);
    if !k.BlockKey? {
      var i :| 0 <= i < |b.txs| && Belongs(x, b.height, b.txs[i].hash);
      var j :| 0 <= j < |c.txs| && Belongs(y, c.height, c.txs[j].hash);
      assert b.txs[i].hash == c.txs[j].hash;
      assert SharesHash(b, c);
    }
  }

  lemma {:induction false} MergeAllConcat(current: Option<Columns>, a: seq<Row>, b: seq<Row>)
    ensures MergeAll(current, a + b) == MergeAll(MergeAll(current, a), b)
    decreases |a|
  {
    if a == [] {
      assert a + b == b;
    } else {
      assert (a + b)[1..] == a[1..] + b;
      MergeAllConcat(Some(Merge(current, a[0].cols)), a[1..], b);
    }
  }

  lemma ShareTwice(b: Block, k: Key)
    ensures MergeAll(MergeAll(None, Share(b, k)), Share(b, k)) == MergeAll(None, Share(b, k))
  {
    InWhere(AllRows([b]), AtKey(k));
    forall i | 0 <= i < |Share(b, k)| ensures Share(b, k)[i].key == k && WellFormedRow(Share(b, k)[i]) {
      assert Share(b, k)[i] in Share(b, k);
      ExtractedWellFormed([b], Share(b, k)[i]);
    }
    MergeTwice(None, Share(b, k), k);
  }

  /** Under a key of block `b` its rows are stored, however often and wherever the block is among the indexed ones. */
  lemma {:induction false} MergedShares(bs: seq<Block>, b: Block, k: Key)
    requires forall c :: c in bs && c != b ==> Share(c, k) == []
    ensures MergeAll(None, RowsAt(AllRows(bs), k)) == if b in bs then MergeAll(None, Share(b, k)) else None
    decreases |bs|
  {
    if bs == [] {
      NoRows();
    } else {
      var front, last := bs[..|bs| - 1], bs[|bs| - 1];
      assert bs == front + [last];
      MergedShares(front, b, k);
      RowsAtAppend(front, last, k);
      WhereConcat(AllRows(front), AllRows([last]), AtKey(k));
      MergeAllConcat(None, RowsAt(AllRows(front), k), Share(last, k));
      ShareTwice(b, k);
    }
  }

  lemma StoredUnder(bs: seq<Block>, k: Key)
    ensures Lookup(PersistBlocks(map[], bs), k) == MergeAll(None, RowsAt(AllRows(bs), k))
  {
    FlushIsBlockwise(map[], bs);
    LookupApplyAll(map[], AllRows(bs), k);
  }

  /**
   Order and repetition do not matter: two lists of blocks of one chain leave the same database if they hold
   the same blocks.
   */
  lemma SameBlocksSameDb(a: seq<Block>, b: seq<Block>)
    requires OneChain(a) && forall x :: x in a <==> x in b
    ensures PersistBlocks(map[], a) == PersistBlocks(map[], b)
  {
    forall k ensures Lookup(PersistBlocks(map[], a), k) == Lookup(PersistBlocks(map[], b), k) {
      StoredUnder(a, k);
      StoredUnder(b, k);
      SameMerged(a, b, k);
    }
    DbEqual(PersistBlocks(map[], a), PersistBlocks(map[], b));
  }

  lemma OwnerOf(bs: seq<Block>, k: Key) returns (b: Block)
    requires OneChain(bs)
    ensures forall c :: c in bs && c != b ==> Share(c, k) == []
  {
    if x :| x in bs && Share(x, k) != [] {
      b := x;
      forall c | c in bs && c != b ensures Share(c, k) == [] { if Share(c, k) != [] { OneOwner(bs, b, c, k); } }
    } else {
      b := if bs != [] then bs[0] else Block(0, None, None, None, "", []);
    }
  }

  lemma SameMerged(a: seq<Block>, b: seq<Block>, k: Key)
    requires OneChain(a) && forall x :: x in a <==> x in b
    ensures MergeAll(None, RowsAt(AllRows(a), k)) == MergeAll(None, RowsAt(AllRows(b), k))
  {
    var owner := OwnerOf(a, k);
    MergedShares(a, owner, k);
    MergedShares(b, owner, k);
  }
}
