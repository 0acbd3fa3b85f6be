/** The tables the sink fills, as one map from primary keys to rows, and what an INSERT does to them. */
module Database {
  import opened Blocks
  import opened JsonText
  import opened Sequences

  datatype Table = Blocks | Txs | Msgs | Events | Attrs | Transfers | StakeDeleg | StakeDistr | WasmExecs | WasmEvents

  /** The conflict columns of each table. */
  datatype Key =
    | BlockKey(height: int)
    | TxKey(height: int, txHash: string)
    | MsgKey(height: int, txHash: string, msgIndex: int)
    | EventKey(txHash: string, msgIndex: int, eventIndex: int)
    | AttrKey(txHash: string, msgIndex: int, eventIndex: int, key: string)
    | TransferKey(height: int, txHash: string, msgIndex: int, fromAddr: string, toAddr: string, denom: string)
    | DelegKey(height: int, txHash: string, msgIndex: int)
    | DistrKey(height: int, txHash: string, msgIndex: int)
    | ExecKey(height: int, txHash: string, msgIndex: int)
    | WasmEventKey(height: int, txHash: string, msgIndex: int, eventType: string)

  /** The other columns. */
  datatype Columns =
    | BlockColumns(blockHash: Option<string>, blockTime: Option<string>, proposer: Option<string>, header: string, txCount: int)
    | TxColumns(txIndex: int, txTime: Option<string>, code: int, gasUsed: Option<int>, logSummary: Option<string>, body: string)
    | MsgColumns(value: Option<Msg>, signer: Option<Json>)
    | EventColumns(eventType: string, attributes: seq<Attr>)
    | AttrColumns(attrValue: Option<string>)
    | DerivedColumns(item: Derived)

  datatype Row = Row(key: Key, cols: Columns)

  function DerivedKey(h: int, hash: string, d: Derived): Key {
    match d
    case Transfer(m, f, to, dn, _) => TransferKey(h, hash, m, f, to, dn)
    case Delegation(m, _, _, _, _, _, _, _) => DelegKey(h, hash, m)
    case Distribution(m, _, _, _, _, _, _) => DistrKey(h, hash, m)
    case WasmExec(m, _, _, _, _, _, _, _) => ExecKey(h, hash, m)
    case WasmEvent(m, ty, _, _) => WasmEventKey(h, hash, m, ty)
  }

  function TableOfKey(k: Key): Table {
    match k
    case BlockKey(_) => Blocks
    case TxKey(_, _) => Txs
    case MsgKey(_, _, _) => Msgs
    case EventKey(_, _, _) => Events
    case AttrKey(_, _, _, _) => Attrs
    case TransferKey(_, _, _, _, _, _) => Transfers
    case DelegKey(_, _, _) => StakeDeleg
    case DistrKey(_, _, _) => StakeDistr
    case ExecKey(_, _, _) => WasmExecs
    case WasmEventKey(_, _, _, _) => WasmEvents
  }


  type Db = map<Key, Columns>

  // ------------------------------------------------------------------ one row after the other

  function Lookup(db: Db, k: Key): Option<Columns> { if k in db then Some(db[k]) else None }

  /**
   ON CONFLICT: the transactions table updates gas_used and log_summary, every other table keeps
   the row it has.
   */
  function Merge(current: Option<Columns>, c: Columns): Columns {
    if current.None? then c
    else if c.TxColumns? && current.value.TxColumns?
    then current.value.(gasUsed := c.gasUsed, logSummary := c.logSummary)
    else current.value
  }

  function Apply(db: Db, r: Row): Db { db[r.key := Merge(Lookup(db, r.key), r.cols)] }

  function ApplyAll(db: Db, rows: seq<Row>): Db
    decreases |rows|
  {
    if rows == [] then db else ApplyAll(Apply(db, rows[0]), rows[1..])
  }

  function AtKey(k: Key): Row -> bool { (r: Row) => r.key == k }

  /** The rows of `rows` that concern key `k`, in order. */
  function RowsAt(rows: seq<Row>, k: Key): seq<Row> { Where(rows, AtKey(k)) }

  function MergeAll(current: Option<Columns>, rows: seq<Row>): Option<Columns>
    decreases |rows|
  {
    if rows == [] then current else MergeAll(Some(Merge(current, rows[0].cols)), rows[1..])
  }

  /** What is stored under a key depends on the rows with that key alone, in their order. */
  lemma {:induction false} LookupApplyAll(db: Db, rows: seq<Row>, k: Key)
    ensures Lookup(ApplyAll(db, rows), k) == MergeAll(Lookup(db, k), RowsAt(rows, k))
    decreases |rows|
  {
    if rows != [] {
      LookupApplyAll(Apply(db, rows[0]), rows[1..], k);
      if rows[0].key == k {
        assert RowsAt(rows, k) == [rows[0]] + RowsAt(rows[1..], k);
        assert RowsAt(rows, k)[1..] == RowsAt(rows[1..], k);
      } else {
        assert RowsAt(rows, k) == RowsAt(rows[1..], k);
      }
    }
  }

  lemma DbEqual(a: Db, b: Db)
    requires forall k :: Lookup(a, k) == Lookup(b, k)
    ensures a == b
  {
    forall k ensures (k in a <==> k in b) && (k in a ==> a[k] == b[k]) {
      assert Lookup(a, k) == Lookup(b, k);
    }
  }

  /** Rows may be applied in any order that keeps, for every key, the order of its own rows. */
  lemma ApplyAllByKey(db: Db, r1: seq<Row>, r2: seq<Row>)
    requires forall k :: RowsAt(r1, k) == RowsAt(r2, k)
    ensures ApplyAll(db, r1) == ApplyAll(db, r2)
  {
    forall k ensures Lookup(ApplyAll(db, r1), k) == Lookup(ApplyAll(db, r2), k) {
      LookupApplyAll(db, r1, k);
      LookupApplyAll(db, r2, k);
      assert RowsAt(r1, k) == RowsAt(r2, k);
    }
    DbEqual(ApplyAll(db, r1), ApplyAll(db, r2));
  }

  lemma {:induction false} ApplyAllConcat(db: Db, a: seq<Row>, b: seq<Row>)
    ensures ApplyAll(db, a + b) == ApplyAll(ApplyAll(db, a), b)
    decreases |a|
  {
    if a == [] {
      assert a + b == b;
    } else {
      assert (a + b)[1..] == a[1..] + b;
      ApplyAllConcat(Apply(db, a[0]), a[1..], b);
    }
  }

  /** Exactly the keys of the applied rows are added; nothing is ever removed. */
  lemma {:induction false} ApplyAllKeys(db: Db, rows: seq<Row>, k: Key)
    ensures k in ApplyAll(db, rows) <==> k in db || exists r :: r in rows && r.key == k
    decreases |rows|
  {
    if rows != [] {
      ApplyAllKeys(Apply(db, rows[0]), rows[1..], k);
      assert rows == [rows[0]] + rows[1..];
    }
  }

  // ------------------------------------------------------------------ applying the same rows again

  lemma {:induction false} MergeOnto(current: Columns, rows: seq<Row>)
    requires forall i :: 0 <= i < |rows| ==> rows[i].cols.TxColumns? == current.TxColumns?
    requires rows != []
    ensures var last := rows[|rows| - 1].cols;
            MergeAll(Some(current), rows) ==
              Some(if last.TxColumns? then current.(gasUsed := last.gasUsed, logSummary := last.logSummary) else current)
    decreases |rows|
  {
    if |rows| > 1 {
      assert rows[1..][|rows[1..]| - 1] == rows[|rows| - 1];
      MergeOnto(Merge(Some(current), rows[0].cols), rows[1..]);
    } else {
      assert rows[1..] == [];
    }
  }

  /** Where nothing is updated the stored row stays. */
  lemma {:induction false} FirstKept(current: Columns, rows: seq<Row>)
    requires !current.TxColumns?
    ensures MergeAll(Some(current), rows) == Some(current)
    decreases |rows|
  {
    if rows != [] { FirstKept(current, rows[1..]); }
  }

  /**
   What is stored under a key after rows for it: the first of them, but for the gas and the log of a
   transaction, which are those of the last.
   */
  lemma FirstRowButLastGas(db: Db, rows: seq<Row>, k: Key)
    requires k !in db && RowsAt(rows, k) != [] && forall r :: r in rows ==> WellFormedRow(r)
    ensures var first, last := RowsAt(rows, k)[0].cols, RowsAt(rows, k)[|RowsAt(rows, k)| - 1].cols;
            && k in ApplyAll(db, rows)
            && (!k.TxKey? ==> ApplyAll(db, rows)[k] == first)
            && (k.TxKey? ==>
                  first.TxColumns? && last.TxColumns? &&
                  ApplyAll(db, rows)[k] ==
                    TxColumns(first.txIndex, first.txTime, first.code, last.gasUsed, last.logSummary, first.body))
  {
    var at := RowsAt(rows, k);
    LookupApplyAll(db, rows, k);
    InWhere(rows, AtKey(k));
    forall i | 0 <= i < |at| ensures at[i].key == k && at[i] in rows { assert at[i] in at; }
    MergeOnto(at[0].cols, at);
    assert MergeAll(None, at) == MergeAll(Some(at[0].cols), at[1..]);
    if |at| > 1 { MergeOnto(at[0].cols, at[1..]); }
  }

  /** Rows and stored columns have the shape of the table their key belongs to. */
  predicate WellFormedRow(r: Row) {
    && (r.cols.TxColumns? <==> r.key.TxKey?)
    && (r.cols.DerivedColumns? && r.cols.item.Delegation? <==> r.key.DelegKey?)
  }

  predicate WellFormed(db: Db) { forall k :: k in db ==> WellFormedRow(Row(k, db[k])) }

  lemma {:induction false} ApplyAllWellFormed(db: Db, rows: seq<Row>)
    requires WellFormed(db) && forall r :: r in rows ==> WellFormedRow(r)
    ensures WellFormed(ApplyAll(db, rows))
    decreases |rows|
  {
    if rows != [] {
      assert rows[0] in rows;
      ApplyAllWellFormed(Apply(db, rows[0]), rows[1..]);
    }
  }

  lemma MergeTwice(current: Option<Columns>, rows: seq<Row>, k: Key)
    requires forall i :: 0 <= i < |rows| ==> rows[i].key == k && WellFormedRow(rows[i])
    requires current.Some? ==> WellFormedRow(Row(k, current.value))
    ensures MergeAll(MergeAll(current, rows), rows) == MergeAll(current, rows)
  {
    if rows != [] {
      var first := if current.Some? then current.value else rows[0].cols;
      assert first.TxColumns? == k.TxKey?;
      assert MergeAll(current, rows) == MergeAll(Some(first), rows);
      MergeOnto(first, rows);
      MergeOnto(MergeAll(current, rows).value, rows);
    }
  }

  /** Indexing rows that are already stored changes nothing, in the DO UPDATE table as in the others. */
  lemma ReapplyingChangesNothing(db: Db, rows: seq<Row>)
    requires WellFormed(db) && forall r :: r in rows ==> WellFormedRow(r)
    ensures ApplyAll(ApplyAll(db, rows), rows) == ApplyAll(db, rows)
  {
    var once := ApplyAll(db, rows);
    forall k ensures Lookup(ApplyAll(once, rows), k) == Lookup(once, k) {
      LookupApplyAll(db, rows, k);
      LookupApplyAll(once, rows, k);
      InWhere(rows, AtKey(k));
      forall i | 0 <= i < |RowsAt(rows, k)|
        ensures RowsAt(rows, k)[i].key == k && WellFormedRow(RowsAt(rows, k)[i])
      {
        assert RowsAt(rows, k)[i] in RowsAt(rows, k);
      }
      MergeTwice(Lookup(db, k), RowsAt(rows, k), k);
    }
    DbEqual(ApplyAll(once, rows), once);
  }

  // ------------------------------------------------------------------ constraints

  /** `chk_transfer_addr_len` */
  predicate AddressLength(s: string) { 10 <= |s| <= 128 }

  /**
   The constraints that an extracted row can break: NOT NULL, CHECK, and JSON text in the JSONB columns that
   take a string as it is.
   */
  predicate Complete(r: Row) {
    match r.cols
    case BlockColumns(hash, time, proposer, _, _) => hash.Some? && time.Some? && proposer.Some?
    case TxColumns(_, time, _, _, _, _) => time.Some?
    case MsgColumns(value, _) => value.Some?
    case EventColumns(_, _) => true
    case AttrColumns(_) => true
    case DerivedColumns(item) => CompleteItem(item)
  }

  predicate CompleteItem(d: Derived) {
    match d
    case Transfer(_, sender, recipient, _, _) => AddressLength(sender) && AddressLength(recipient)
    case Delegation(_, _, delegator, _, _, denom, amount, _) => delegator.Some? && denom.Some? && amount.Some?
    case Distribution(_, _, _, _, _, _, _) => true
    case WasmExec(_, contract, _, funds, call, _, _, _) =>
      contract.Some? && call.Some? && FitsJsonb(call.value) && (funds.Some? ==> FitsJsonb(funds.value))
    case WasmEvent(_, _, _, _) => true
  }

  /** Two keys of transactions of one block. */
  predicate SameHeight(a: Key, b: Key) { a.TxKey? && b.TxKey? && a.height == b.height }

  predicate At(db: Db, k: Key, index: int) { k in db && db[k].TxColumns? && db[k].txIndex == index }

  /** The unique index uq_txs_height_pos: one transaction for each height and index. */
  ghost predicate UniquePositions(db: Db) {
    forall a, b :: SameHeight(a, b) && a in db && b in db && db[a].TxColumns? && At(db, b, db[a].txIndex) ==> a == b
  }

  /** What the committed database satisfies. */
  ghost predicate Consistent(db: Db) { WellFormed(db) && UniquePositions(db) }

  /** A row whose key is stored becomes an update, which leaves the index alone; a new one needs a free position. */
  predicate PositionFree(db: Db, r: Row) {
    r.key.TxKey? && r.cols.TxColumns? && r.key !in db ==> forall k <- db.Keys :: SameHeight(k, r.key) ==> !At(db, k, r.cols.txIndex)
  }

  predicate SamePositions(a: Db, b: Db) { forall k :: k in a && a[k].TxColumns? ==> At(b, k, a[k].txIndex) }

  /** Stored positions never change and never go. */
  lemma {:induction false} PositionsStay(db: Db, rows: seq<Row>)
    ensures SamePositions(db, ApplyAll(db, rows))
    decreases |rows|
  {
    if rows != [] {
      var next := Apply(db, rows[0]);
      PositionsStay(next, rows[1..]);
      forall k | k in db && db[k].TxColumns? ensures At(ApplyAll(db, rows), k, db[k].txIndex) {
        assert At(next, k, db[k].txIndex);
      }
    }
  }

  lemma UniqueBefore(db: Db, rows: seq<Row>)
    requires UniquePositions(ApplyAll(db, rows))
    ensures UniquePositions(db)
  {
    PositionsStay(db, rows);
    var after := ApplyAll(db, rows);
    forall a, b | SameHeight(a, b) && a in db && b in db && db[a].TxColumns? && At(db, b, db[a].txIndex) ensures a == b {
      assert At(after, a, db[a].txIndex) && At(after, b, db[b].txIndex);
    }
  }

  lemma ApplyUniqueIff(db: Db, r: Row)
    requires Consistent(db) && WellFormedRow(r)
    ensures UniquePositions(Apply(db, r)) <==> PositionFree(db, r)
  {
    var after := Apply(db, r);
    if r.key.TxKey? && r.key !in db {
      assert At(after, r.key, r.cols.txIndex);
      forall k | k in db && SameHeight(k, r.key) && At(db, k, r.cols.txIndex) ensures !UniquePositions(after) {
        assert SameHeight(r.key, k) && At(after, k, after[r.key].txIndex);
      }
    } else {
      assert forall k: Key, i: int :: k.TxKey? ==> (At(after, k, i) <==> At(db, k, i));
    }
  }

  lemma ApplyWellFormed(db: Db, r: Row)
    requires WellFormed(db) && WellFormedRow(r)
    ensures WellFormed(Apply(db, r))
  {
  }

  // ------------------------------------------------------------------ statements

  predicate DistinctTxKeys(rows: seq<Row>) {
    forall i, j :: 0 <= i < j < |rows| && rows[i].key.TxKey? ==> rows[i].key != rows[j].key
  }

  /** The rows one by one; a broken constraint ends it. */
  function InsertRows(db: Db, rows: seq<Row>): Option<Db>
    decreases |rows|
  {
    if rows == [] then Some(db)
    else if Complete(rows[0]) && PositionFree(db, rows[0]) then InsertRows(Apply(db, rows[0]), rows[1..])
    else None
  }

  /** One multi-row INSERT. A DO UPDATE may not touch a row a second time. */
  function ExecStatement(db: Db, rows: seq<Row>): Option<Db> {
    if DistinctTxKeys(rows) then InsertRows(db, rows) else None
  }

  function ExecStatements(db: Db, statements: seq<seq<Row>>): Option<Db>
    decreases |statements|
  {
    if statements == [] then Some(db)
    else
      var first := ExecStatement(db, statements[0]);
      if first.None? then None else ExecStatements(first.value, statements[1..])
  }

  lemma {:induction false} InsertRowsApplyAll(db: Db, rows: seq<Row>)
    ensures InsertRows(db, rows).Some? ==> InsertRows(db, rows).value == ApplyAll(db, rows)
    decreases |rows|
  {
    if rows != [] && Complete(rows[0]) && PositionFree(db, rows[0]) { InsertRowsApplyAll(Apply(db, rows[0]), rows[1..]); }
  }

  /** However the rows are split into statements, statements that succeed have applied them in order. */
  lemma {:induction false} StatementsApplyAll(db: Db, statements: seq<seq<Row>>)
    ensures ExecStatements(db, statements).Some? ==>
              ExecStatements(db, statements).value == ApplyAll(db, Concat(statements))
    decreases |statements|
  {
    if statements != [] && ExecStatement(db, statements[0]).Some? {
      InsertRowsApplyAll(db, statements[0]);
      StatementsApplyAll(ApplyAll(db, statements[0]), statements[1..]);
      ApplyAllConcat(db, statements[0], Concat(statements[1..]));
    }
  }

  predicate AllComplete(rows: seq<Row>) { forall r <- rows :: Complete(r) }

  predicate AllWellFormed(rows: seq<Row>) { forall r <- rows :: WellFormedRow(r) }

  lemma AllSplit(rows: seq<Row>)
    requires rows != []
    ensures AllComplete(rows) <==> Complete(rows[0]) && AllComplete(rows[1..])
    ensures AllWellFormed(rows) <==> WellFormedRow(rows[0]) && AllWellFormed(rows[1..])
  {
    assert rows == [rows[0]] + rows[1..];
  }

  /** Rows go in if and only if each is complete and in the end no two transactions share a position. */
  lemma {:induction false} InsertRowsIff(db: Db, rows: seq<Row>)
    requires Consistent(db) && AllWellFormed(rows)
    ensures InsertRows(db, rows).Some? <==> AllComplete(rows) && UniquePositions(ApplyAll(db, rows))
    decreases |rows|
  {
    if rows != [] {
      var next := Apply(db, rows[0]);
      AllSplit(rows);
      ApplyUniqueIff(db, rows[0]);
      ApplyWellFormed(db, rows[0]);
      if PositionFree(db, rows[0]) {
        InsertRowsIff(next, rows[1..]);
      } else if UniquePositions(ApplyAll(db, rows)) {
        UniqueBefore(next, rows[1..]);
      }
    }
  }

  predicate AllDistinct(statements: seq<seq<Row>>) { forall s <- statements :: DistinctTxKeys(s) }

  lemma AllConcat(a: seq<Row>, b: seq<Row>)
    ensures AllComplete(a + b) <==> AllComplete(a) && AllComplete(b)
    ensures AllWellFormed(a + b) <==> AllWellFormed(a) && AllWellFormed(b)
  {
    assert forall r :: r in a + b <==> r in a || r in b;
  }

  lemma {:induction false} InsertedComplete(db: Db, rows: seq<Row>)
    ensures InsertRows(db, rows).Some? ==> AllComplete(rows)
    decreases |rows|
  {
    if rows != [] && InsertRows(db, rows).Some? {
      AllSplit(rows);
      InsertedComplete(Apply(db, rows[0]), rows[1..]);
    }
  }

  /** No statements, in whatever database, take an incomplete row. */
  lemma {:induction false} StatementsComplete(db: Db, statements: seq<seq<Row>>)
    ensures ExecStatements(db, statements).Some? ==> AllComplete(Concat(statements))
    decreases |statements|
  {
    if statements != [] && ExecStatements(db, statements).Some? {
      InsertedComplete(db, statements[0]);
      StatementsComplete(ExecStatement(db, statements[0]).value, statements[1..]);
      AllConcat(statements[0], Concat(statements[1..]));
    }
  }

  /**
   Statements are accepted if and only if none names a transaction twice, every row is complete, and in
   the end no two transactions share a position.
   */
  lemma {:induction false} StatementsIff(db: Db, statements: seq<seq<Row>>)
    requires Consistent(db) && AllWellFormed(Concat(statements))
    ensures ExecStatements(db, statements).Some? <==>
            AllDistinct(statements) && AllComplete(Concat(statements)) && UniquePositions(ApplyAll(db, Concat(statements)))
    decreases |statements|
  {
    if statements != [] {
      var first, rest := statements[0], statements[1..];
      var next := ApplyAll(db, first);
      AllConcat(first, Concat(rest));
      InsertRowsIff(db, first);
      InsertRowsApplyAll(db, first);
      ApplyAllConcat(db, first, Concat(rest));
      ApplyAllWellFormed(db, first);
      assert AllDistinct(statements) <==> DistinctTxKeys(first) && AllDistinct(rest) by { assert statements == [first] + rest; }
      if UniquePositions(next) {
        StatementsIff(next, rest);
      } else if UniquePositions(ApplyAll(next, Concat(rest))) {
        UniqueBefore(next, Concat(rest));
      }
    }
  }
}
