/** What the tables hold of a block, read back from the fields of its transactions, messages and events. */
module ReadBack {
  import opened Blocks
  import opened Sequences
  import opened Database
  import opened Derivation
  import opened Extraction
  import opened Parsing
  import opened Persistence

  // ------------------------------------------------------------------ narrowing down to one block and transaction

  /** `b` is the only block of its height, indexed once or more. */
  predicate Only(bs: seq<Block>, b: Block) { b in bs && forall c <- bs :: c.height == b.height ==> c == b }

  /** No other transaction of the block has the hash of its `j`-th one. */
  predicate OnlyTx(b: Block, j: nat) {
    j < |b.txs| && forall i :: 0 <= i < |b.txs| && b.txs[i].hash == b.txs[j].hash ==> i == j
  }

  predicate HeightKey(k: Key) { !k.EventKey? && !k.AttrKey? }

  lemma StoredOfBlock(bs: seq<Block>, b: Block, k: Key)
    requires Only(bs, b) && HeightKey(k) && k.height == b.height
    ensures Lookup(PersistBlocks(map[], bs), k) ==
            MergeAll(None, RowsAt(FlushRows(BlockTable(b, TableOfKey(k)), TableOfKey(k)), k))
  {
    forall c | c in bs && c != b ensures Share(c, k) == [] {
      if Share(c, k) != [] { var r := ShareRow(c, k); }
    }
    StoredUnder(bs, k);
    MergedShares(bs, b, k);
    RowsAtAll([b], k);
    BlocksTableOne(b, TableOfKey(k));
  }

  lemma {:induction false} WhereTwice<T>(s: seq<T>, p: T -> bool, q: T -> bool)
    ensures Where(Where(s, p), q) == Where(Where(s, q), p)
  {
    if s != [] {
      WhereTwice(s[1..], p, q);
      WhereConcat(if p(s[0]) then [s[0]] else [], Where(s[1..], p), q);
      WhereConcat(if q(s[0]) then [s[0]] else [], Where(s[1..], q), p);
    }
  }

  lemma WithinTx(b: Block, j: nat, k: Key)
    requires OnlyTx(b, j) && HeightKey(k) && !k.BlockKey? && k.txHash == b.txs[j].hash
    ensures RowsAt(BlockTable(b, TableOfKey(k)), k) == RowsAt(TxTable(b.height, b.time, b.txs[j], TableOfKey(k)), k)
  {
    var t := TableOfKey(k);
    forall i, r | 0 <= i < |b.txs| && i != j && r in RowsByTx(b.height, b.time, b.txs, t)[i] ensures !AtKey(k)(r) {
      TxTableOrigin(b.height, b.time, b.txs[i], t, r);
    }
    WhereConcatSingle(RowsByTx(b.height, b.time, b.txs, t), AtKey(k), j);
  }

  /** The rows that decide what is stored under a key of the transaction. */
  function TxRowsAt(b: Block, tx: Tx, k: Key): seq<Row> { RowsAt(TxTable(b.height, b.time, tx, TableOfKey(k)), k) }

  lemma StoredOfTx(bs: seq<Block>, b: Block, j: nat, k: Key)
    requires Only(bs, b) && OnlyTx(b, j) && HeightKey(k) && !k.BlockKey? && k.height == b.height && k.txHash == b.txs[j].hash
    ensures Lookup(PersistBlocks(map[], bs), k) ==
            MergeAll(None, if k.DelegKey? then Where(TxRowsAt(b, b.txs[j], k), Kept) else TxRowsAt(b, b.txs[j], k))
  {
    StoredOfBlock(bs, b, k);
    WithinTx(b, j, k);
    WhereTwice(BlockTable(b, TableOfKey(k)), Kept, AtKey(k));
  }

  lemma {:induction false} SingleAt(rows: seq<Row>, i: nat, k: Key)
    requires i < |rows| && forall l :: 0 <= l < |rows| ==> (rows[l].key == k <==> l == i)
    ensures RowsAt(rows, k) == [rows[i]]
  {
    if i == 0 {
      WhereNone(rows[1..], AtKey(k));
    } else {
      SingleAt(rows[1..], i - 1, k);
    }
  }

  lemma Inserted(r: Row)
    ensures MergeAll(None, [r]) == Some(r.cols)
  {
    assert [r][1..] == [];
  }

  // ------------------------------------------------------------------ core.blocks, core.transactions, core.messages

  lemma BlockReadBack(bs: seq<Block>, b: Block)
    requires Only(bs, b)
    ensures var db := PersistBlocks(map[], bs);
            BlockKey(b.height) in db &&
            db[BlockKey(b.height)] == BlockColumns(b.blockHash, b.time, b.proposer, b.header, |b.txs|)
  {
    StoredOfBlock(bs, b, BlockKey(b.height));
    SingleAt(BlockTable(b, Blocks), 0, BlockKey(b.height));
    Inserted(BlockTable(b, Blocks)[0]);
  }

  lemma TxReadBack(bs: seq<Block>, b: Block, j: nat)
    requires Only(bs, b) && OnlyTx(b, j)
    ensures var db, tx := PersistBlocks(map[], bs), b.txs[j];
            TxKey(b.height, tx.hash) in db &&
            db[TxKey(b.height, tx.hash)] == TxColumns(tx.index, b.time, tx.code, tx.gasUsed, tx.logSummary, tx.body)
  {
    var k := TxKey(b.height, b.txs[j].hash);
    StoredOfTx(bs, b, j, k);
    SingleAt(TxTable(b.height, b.time, b.txs[j], Txs), 0, k);
    Inserted(TxTable(b.height, b.time, b.txs[j], Txs)[0]);
  }

  /** The first of these fields that the message has. */
  predicate FirstPresent(m: Msg, names: seq<string>, value: Option<Json>) {
    (exists i :: 0 <= i < |names| && IsFirstPresent(m, names, i) && value == Some(m.fields[names[i]]))
    || (value.None? && forall i :: 0 <= i < |names| ==> names[i] !in m.fields)
  }

  predicate IsFirstPresent(m: Msg, names: seq<string>, i: nat)
    requires i < |names|
  {
    names[i] in m.fields && forall l :: 0 <= l < i ==> names[l] !in m.fields
  }

  lemma MsgReadBack(bs: seq<Block>, b: Block, j: nat, i: nat)
    requires Only(bs, b) && OnlyTx(b, j) && i < |b.txs[j].msgs|
    ensures var db, k, msg := PersistBlocks(map[], bs), MsgKey(b.height, b.txs[j].hash, i), b.txs[j].msgs[i];
            && k in db && db[k].MsgColumns? && db[k].value == msg
            && (msg.None? ==> db[k].signer.None?)
            && (msg.Some? ==> FirstPresent(msg.value, ["signer", "from_address", "delegator_address"], db[k].signer))
  {
    var k := MsgKey(b.height, b.txs[j].hash, i);
    var rows := TxTable(b.height, b.time, b.txs[j], Msgs);
    StoredOfTx(bs, b, j, k);
    SingleAt(rows, i, k);
    Inserted(rows[i]);
    var msg := b.txs[j].msgs[i];
    if msg.Some? { SignerIsFirst(msg.value, rows[i].cols.signer); }
  }

  lemma SignerIsFirst(m: Msg, signer: Option<Json>)
    requires signer == SignerOf(Some(m))
    ensures FirstPresent(m, ["signer", "from_address", "delegator_address"], signer)
  {
    var names := ["signer", "from_address", "delegator_address"];
    if "signer" in m.fields {
      assert IsFirstPresent(m, names, 0);
    } else if "from_address" in m.fields {
      assert IsFirstPresent(m, names, 1);
    } else if "delegator_address" in m.fields {
      assert IsFirstPresent(m, names, 2);
    }
  }

  // ------------------------------------------------------------------ derived tables: the first item decides

  /** The first of these items that satisfies `p`. */
  function First(items: seq<Derived>, p: Derived -> bool): Option<Derived> {
    if items == [] then None else if p(items[0]) then Some(items[0]) else First(items[1..], p)
  }

  lemma {:induction false} FirstIs(items: seq<Derived>, p: Derived -> bool)
    ensures First(items, p).None? <==> forall d :: d in items ==> !p(d)
    ensures First(items, p).Some? ==> First(items, p).value in items && p(First(items, p).value)
  {
    if items != [] { FirstIs(items[1..], p); }
  }

  lemma {:induction false} FirstConcat(a: seq<Derived>, b: seq<Derived>, p: Derived -> bool)
    ensures First(a + b, p) == if First(a, p).Some? then First(a, p) else First(b, p)
  {
    if a == [] {
      assert a + b == b;
    } else {
      assert (a + b)[1..] == a[1..] + b;
      FirstConcat(a[1..], b, p);
    }
  }

  /** If the parts before the `j`-th have no such item, the first one is that of the `j`-th part, if it has one. */
  lemma {:induction false} FirstOfParts(ss: seq<seq<Derived>>, p: Derived -> bool, j: nat)
    requires j < |ss| && forall i :: 0 <= i < j ==> First(ss[i], p).None?
    requires First(ss[j], p).Some? || forall i :: j < i < |ss| ==> First(ss[i], p).None?
    ensures First(Concat(ss), p) == First(ss[j], p)
  {
    FirstConcat(ss[0], Concat(ss[1..]), p);
    if j > 0 {
      FirstOfParts(ss[1..], p, j - 1);
    } else if First(ss[0], p).None? {
      FirstOfNone(ss[1..], p);
    }
  }

  lemma {:induction false} FirstOfNone(ss: seq<seq<Derived>>, p: Derived -> bool)
    requires forall i :: 0 <= i < |ss| ==> First(ss[i], p).None?
    ensures First(Concat(ss), p).None?
  {
    if ss != [] {
      FirstConcat(ss[0], Concat(ss[1..]), p);
      FirstOfNone(ss[1..], p);
    }
  }

  function ColumnsOf(d: Option<Derived>): Option<Columns> { if d.Some? then Some(DerivedColumns(d.value)) else None }

  /** The items for a key, and those that pass the filter of the delegation flusher. */
  function ForKey(h: int, hash: string, k: Key): Derived -> bool { d => DerivedKey(h, hash, d) == k }

  function Passing(h: int, hash: string, k: Key): Derived -> bool {
    d => DerivedKey(h, hash, d) == k && Kept(DerivedRow(h, hash, d))
  }

  /** The rows of the items for a key. */
  function RowsFor(h: int, hash: string, items: seq<Derived>, k: Key): seq<Row> {
    if items == [] then []
    else (if DerivedKey(h, hash, items[0]) == k then [DerivedRow(h, hash, items[0])] else []) + RowsFor(h, hash, items[1..], k)
  }

  lemma {:induction false} RowsForItems(h: int, hash: string, items: seq<Derived>, k: Key)
    ensures RowsAt(Concat(DerivedByItem(h, hash, items, TableOfKey(k))), k) == RowsFor(h, hash, items, k)
  {
    var t := TableOfKey(k);
    if items != [] {
      var rest := Concat(DerivedByItem(h, hash, items[1..], t));
      assert DerivedByItem(h, hash, items, t)[1..] == DerivedByItem(h, hash, items[1..], t);
      var head := if TableOfKey(DerivedKey(h, hash, items[0])) == t then [DerivedRow(h, hash, items[0])] else [];
      WhereConcat(head, rest, AtKey(k));
      RowsForItems(h, hash, items[1..], k);
      assert RowsAt(head, k) == if DerivedKey(h, hash, items[0]) == k then [DerivedRow(h, hash, items[0])] else [];
    }
  }

  lemma MergedHead(r: Row, rest: seq<Row>)
    requires !r.cols.TxColumns?
    ensures MergeAll(None, [r] + rest) == Some(r.cols)
  {
    assert ([r] + rest)[1..] == rest;
    FirstKept(r.cols, rest);
  }

  lemma {:induction false} FirstMerged(h: int, hash: string, items: seq<Derived>, k: Key)
    ensures MergeAll(None, RowsFor(h, hash, items, k)) == ColumnsOf(First(items, ForKey(h, hash, k)))
  {
    if items != [] {
      var rest := RowsFor(h, hash, items[1..], k);
      FirstMerged(h, hash, items[1..], k);
      if DerivedKey(h, hash, items[0]) == k { MergedHead(DerivedRow(h, hash, items[0]), rest); } else { assert [] + rest == rest; }
    }
  }

  lemma {:induction false} FirstKeptMerged(h: int, hash: string, items: seq<Derived>, k: Key)
    ensures MergeAll(None, Where(RowsFor(h, hash, items, k), Kept)) == ColumnsOf(First(items, Passing(h, hash, k)))
  {
    if items != [] {
      var r, rest := DerivedRow(h, hash, items[0]), RowsFor(h, hash, items[1..], k);
      FirstKeptMerged(h, hash, items[1..], k);
      if DerivedKey(h, hash, items[0]) == k {
        WhereConcat([r], rest, Kept);
        assert Where([r], Kept) == if Kept(r) then [r] else [];
        if Kept(r) { MergedHead(r, Where(rest, Kept)); } else { assert [] + Where(rest, Kept) == Where(rest, Kept); }
      } else {
        assert [] + rest == rest;
      }
    }
  }

  predicate DerivedTableKey(k: Key) { HeightKey(k) && !k.BlockKey? && !k.TxKey? && !k.MsgKey? }

  lemma TableOfItems(h: int, time: Option<string>, tx: Tx, t: Table)
    requires t !in [Blocks, Txs, Msgs, Events, Attrs]
    ensures TxTable(h, time, tx, t) == Concat(DerivedByItem(h, tx.hash, Derive(tx), t))
  {
  }

  lemma DerivedTableOf(k: Key)
    requires DerivedTableKey(k)
    ensures TableOfKey(k) !in [Blocks, Txs, Msgs, Events, Attrs]
  {
  }

  lemma TxRowsAreItems(b: Block, tx: Tx, k: Key)
    requires DerivedTableKey(k)
    ensures TxRowsAt(b, tx, k) == RowsFor(b.height, tx.hash, Derive(tx), k)
  {
    DerivedTableOf(k);
    TableOfItems(b.height, b.time, tx, TableOfKey(k));
    RowsForItems(b.height, tx.hash, Derive(tx), k);
  }

  /** The key of a derived table that belongs to the transaction. */
  predicate KeyOf(b: Block, j: nat, k: Key)
    requires j < |b.txs|
  {
    DerivedTableKey(k) && k.height == b.height && k.txHash == b.txs[j].hash
  }

  /** Under a key of a derived table the first item for it is stored. */
  lemma ItemStored(bs: seq<Block>, b: Block, j: nat, k: Key)
    requires Only(bs, b) && OnlyTx(b, j) && KeyOf(b, j, k) && !k.DelegKey?
    ensures Lookup(PersistBlocks(map[], bs), k) == ColumnsOf(First(Derive(b.txs[j]), ForKey(b.height, b.txs[j].hash, k)))
  {
    StoredOfTx(bs, b, j, k);
    TxRowsAreItems(b, b.txs[j], k);
    FirstMerged(b.height, b.txs[j].hash, Derive(b.txs[j]), k);
  }

  /** Of delegations the first one that passes the filter. */
  lemma DelegationItemStored(bs: seq<Block>, b: Block, j: nat, k: Key)
    requires Only(bs, b) && OnlyTx(b, j) && KeyOf(b, j, k) && k.DelegKey?
    ensures Lookup(PersistBlocks(map[], bs), k) == ColumnsOf(First(Derive(b.txs[j]), Passing(b.height, b.txs[j].hash, k)))
  {
    StoredOfTx(bs, b, j, k);
    TxRowsAreItems(b, b.txs[j], k);
    FirstKeptMerged(b.height, b.txs[j].hash, Derive(b.txs[j]), k);
  }

  // ------------------------------------------------------------------ from items to messages and events

  ghost predicate OfMessage(p: Derived -> bool, i: int) { forall d :: p(d) ==> d.WasmExec? && d.msgIndex == i }

  ghost predicate OfEvents(p: Derived -> bool, m: int) { forall d :: p(d) ==> !d.WasmExec? && d.msgIndex == m }

  lemma EventItems(tx: Tx, m: int, ev: TxEvent)
    ensures forall d :: d in DeriveEvent(tx, m, ev) ==> !d.WasmExec? && d.msgIndex == m
  {
    var t, g, s, v := TransferOf(m, ev), DelegationOf(tx, m, ev), DistributionOf(m, ev), WasmEventOf(m, ev);
    assert DeriveEvent(tx, m, ev) == t + g + s + v;
    assert forall d :: d in t + g + s + v <==> d in t || d in g || d in s || d in v;
  }

  lemma LogItems(tx: Tx, log: Log)
    ensures forall d :: d in Concat(DerivedByEvent(tx, log)) ==> !d.WasmExec? && d.msgIndex == log.msgIndex
  {
    forall d | d in Concat(DerivedByEvent(tx, log)) ensures !d.WasmExec? && d.msgIndex == log.msgIndex {
      InConcat(DerivedByEvent(tx, log), d);
      var e :| 0 <= e < |log.events| && d in DerivedByEvent(tx, log)[e];
      EventItems(tx, log.msgIndex, log.events[e]);
    }
  }

  lemma NoneIn(items: seq<Derived>, p: Derived -> bool)
    requires forall d :: d in items ==> !p(d)
    ensures First(items, p).None?
  {
    FirstIs(items, p);
  }

  /** The items of calls are those of the one message. */
  lemma FirstOfMessage(tx: Tx, i: nat, p: Derived -> bool)
    requires i < |tx.msgs| && OfMessage(p, i)
    ensures First(Derive(tx), p) == First(ExecOf(tx, i), p)
  {
    var execs, logs := ExecsByMsg(tx), DerivedByLog(tx);
    forall l | 0 <= l < |execs| && l != i ensures First(execs[l], p).None? { NoneIn(execs[l], p); }
    forall l | 0 <= l < |logs| ensures First(logs[l], p).None? {
      LogItems(tx, tx.logs[l]);
      NoneIn(logs[l], p);
    }
    FirstOfParts(execs, p, i);
    FirstOfNone(logs, p);
    FirstConcat(Concat(execs), Concat(logs), p);
  }

  /** The items of events under a message index are those of the one log with that index. */
  lemma FirstOfLog(tx: Tx, l: nat, p: Derived -> bool)
    requires DistinctLogs(tx.logs) && l < |tx.logs| && OfEvents(p, tx.logs[l].msgIndex)
    ensures First(Derive(tx), p) == First(Concat(DerivedByEvent(tx, tx.logs[l])), p)
  {
    var execs, logs := ExecsByMsg(tx), DerivedByLog(tx);
    forall i | 0 <= i < |execs| ensures First(execs[i], p).None? { NoneIn(execs[i], p); }
    forall i | 0 <= i < |logs| && i != l ensures First(logs[i], p).None? {
      LogItems(tx, tx.logs[i]);
      NoneIn(logs[i], p);
    }
    FirstOfNone(execs, p);
    FirstOfParts(logs, p, l);
    FirstConcat(Concat(execs), Concat(logs), p);
  }

  /** The first event of the log that gives such an item decides. */
  lemma FirstOfEvents(tx: Tx, l: nat, e: nat, p: Derived -> bool)
    requires DistinctLogs(tx.logs) && l < |tx.logs| && OfEvents(p, tx.logs[l].msgIndex) && e < |tx.logs[l].events|
    requires First(DeriveEvent(tx, tx.logs[l].msgIndex, tx.logs[l].events[e]), p).Some?
    requires forall i :: 0 <= i < e ==> First(DeriveEvent(tx, tx.logs[l].msgIndex, tx.logs[l].events[i]), p).None?
    ensures First(Derive(tx), p) == First(DeriveEvent(tx, tx.logs[l].msgIndex, tx.logs[l].events[e]), p)
  {
    FirstOfLog(tx, l, p);
    FirstOfParts(DerivedByEvent(tx, tx.logs[l]), p, e);
  }

  lemma NoEvent(tx: Tx, m: int, p: Derived -> bool)
    requires OfEvents(p, m)
    requires forall l, e :: 0 <= l < |tx.logs| && 0 <= e < |tx.logs[l].events| && tx.logs[l].msgIndex == m ==>
               First(DeriveEvent(tx, m, tx.logs[l].events[e]), p).None?
    ensures First(Derive(tx), p).None?
  {
    var execs, logs := ExecsByMsg(tx), DerivedByLog(tx);
    forall i | 0 <= i < |execs| ensures First(execs[i], p).None? { NoneIn(execs[i], p); }
    forall l | 0 <= l < |logs| ensures First(logs[l], p).None? {
      if tx.logs[l].msgIndex == m {
        FirstOfNone(DerivedByEvent(tx, tx.logs[l]), p);
      } else {
        LogItems(tx, tx.logs[l]);
        NoneIn(logs[l], p);
      }
    }
    FirstOfNone(execs, p);
    FirstOfNone(logs, p);
    FirstConcat(Concat(execs), Concat(logs), p);
  }

  /** An event gives items of four kinds, at most one of each. */
  lemma FirstOfKinds(tx: Tx, m: int, ev: TxEvent, p: Derived -> bool)
    ensures var t, g, d := First(TransferOf(m, ev), p), First(DelegationOf(tx, m, ev), p), First(DistributionOf(m, ev), p);
            First(DeriveEvent(tx, m, ev), p) ==
              if t.Some? then t else if g.Some? then g else if d.Some? then d else First(WasmEventOf(m, ev), p)
  {
    FirstConcat(TransferOf(m, ev) + DelegationOf(tx, m, ev) + DistributionOf(m, ev), WasmEventOf(m, ev), p);
    FirstConcat(TransferOf(m, ev) + DelegationOf(tx, m, ev), DistributionOf(m, ev), p);
    FirstConcat(TransferOf(m, ev), DelegationOf(tx, m, ev), p);
  }

  // ------------------------------------------------------------------ wasm.executions

  /** A field, or the field of the other name where the first is missing. */
  function FieldOr(m: Msg, name: string, other: string): Option<Json> {
    if name in m.fields then Some(m.fields[name]) else if other in m.fields then Some(m.fields[other]) else None
  }

  function Field(m: Msg, name: string): Option<Json> { if name in m.fields then Some(m.fields[name]) else None }

  /** A row for every contract call, and for no other message. */
  lemma ExecutionReadBack(bs: seq<Block>, b: Block, j: nat, i: nat)
    requires Only(bs, b) && OnlyTx(b, j) && i < |b.txs[j].msgs|
    ensures var db, tx := PersistBlocks(map[], bs), b.txs[j];
            var k, msg := ExecKey(b.height, tx.hash, i), tx.msgs[i];
            if msg.Some? && msg.value.typeUrl == "/cosmwasm.wasm.v1.MsgExecuteContract" then
              k in db &&
              db[k] == DerivedColumns(WasmExec(i, FieldOr(msg.value, "contract", "contract_address"), Field(msg.value, "sender"),
                                               Field(msg.value, "funds"), Field(msg.value, "msg"), tx.code == 0,
                                               if tx.code == 0 then None else tx.logSummary, tx.gasUsed))
            else k !in db
  {
    var tx := b.txs[j];
    var p := ForKey(b.height, tx.hash, ExecKey(b.height, tx.hash, i));
    ItemStored(bs, b, j, ExecKey(b.height, tx.hash, i));
    FirstOfMessage(tx, i, p);
  }

  // ------------------------------------------------------------------ the first event of a message

  /** The first event of a log that gives an item for the key is stored. */
  lemma FirstEventStored(bs: seq<Block>, b: Block, j: nat, l: nat, e: nat, k: Key, p: Derived -> bool)
    requires Only(bs, b) && OnlyTx(b, j) && DistinctLogs(b.txs[j].logs) && l < |b.txs[j].logs| && e < |b.txs[j].logs[l].events|
    requires KeyOf(b, j, k) && p == (if k.DelegKey? then Passing(b.height, b.txs[j].hash, k) else ForKey(b.height, b.txs[j].hash, k))
    requires OfEvents(p, b.txs[j].logs[l].msgIndex)
    requires var tx, log := b.txs[j], b.txs[j].logs[l];
             && First(DeriveEvent(tx, log.msgIndex, log.events[e]), p).Some?
             && forall i :: 0 <= i < e ==> First(DeriveEvent(tx, log.msgIndex, log.events[i]), p).None?
    ensures var db, tx, log := PersistBlocks(map[], bs), b.txs[j], b.txs[j].logs[l];
            k in db && db[k] == DerivedColumns(First(DeriveEvent(tx, log.msgIndex, log.events[e]), p).value)
  {
    if k.DelegKey? { DelegationItemStored(bs, b, j, k); } else { ItemStored(bs, b, j, k); }
    FirstOfEvents(b.txs[j], l, e, p);
  }

  // ------------------------------------------------------------------ stake.distribution_events

  predicate IsDistribution(ev: TxEvent) {
    ev.eventType == "withdraw_rewards" || ev.eventType == "withdraw_commission" || ev.eventType == "set_withdraw_address"
  }

  /** Denomination and amount are those of the text, or missing where it is no coin. */
  ghost predicate CoinOfText(text: Option<string>, denom: Option<string>, amount: Option<string>) {
    && (denom.Some? <==> amount.Some?)
    && (amount.Some? ==> text == Some(amount.value + denom.value) && IsAmount(amount.value) && IsDenom(denom.value))
    && (amount.None? ==> forall a, d :: IsAmount(a) && IsDenom(d) ==> text != Some(a + d))
  }

  lemma ParsedCoin(text: Option<string>)
    ensures var coin := ParseCoin(OrElse(text, "")); CoinOfText(text, DenomOf(coin), AmountOf(coin))
  {
    var s := OrElse(text, "");
    var coin := ParseCoin(s);
    if coin.Some? { CoinIff(s, coin.value); }
    if coin.None? {
      forall a, d | IsAmount(a) && IsDenom(d) ensures text != Some(a + d) { CoinIff(s, Coin(a, d)); }
    }
  }

  function AttrOr(attrs: seq<Attr>, name: string, other: string): Option<string> {
    if FindAttr(attrs, name).Some? then FindAttr(attrs, name) else FindAttr(attrs, other)
  }

  /** What the row of a distribution event holds. */
  ghost predicate DistributionRow(d: Derived, m: int, ev: TxEvent) {
    && d.Distribution? && d.msgIndex == m && d.eventType == ev.eventType
    && d.recipient == FindAttr(ev.attrs, "delegator")
    && d.validator == AttrOr(ev.attrs, "validator", "validator_address")
    && d.withdrawAddress == AttrOr(ev.attrs, "withdraw_address", "withdraw_address_old")
    && CoinOfText(FindAttr(ev.attrs, "amount"), d.coinDenom, d.coinAmount)
  }

  lemma OnlyDistributions(tx: Tx, m: int, ev: TxEvent, p: Derived -> bool)
    requires forall d :: p(d) ==> d.Distribution?
    ensures First(DeriveEvent(tx, m, ev), p) == First(DistributionOf(m, ev), p)
  {
    FirstOfKinds(tx, m, ev, p);
    NoneIn(TransferOf(m, ev), p);
    NoneIn(DelegationOf(tx, m, ev), p);
    NoneIn(WasmEventOf(m, ev), p);
  }

  lemma DistributionItem(tx: Tx, h: int, m: int, ev: TxEvent)
    ensures var d := First(DeriveEvent(tx, m, ev), ForKey(h, tx.hash, DistrKey(h, tx.hash, m)));
            (d.Some? <==> IsDistribution(ev)) && (d.Some? ==> DistributionRow(d.value, m, ev))
  {
    OnlyDistributions(tx, m, ev, ForKey(h, tx.hash, DistrKey(h, tx.hash, m)));
    ParsedCoin(FindAttr(ev.attrs, "amount"));
  }

  /** The first distribution event of a message is stored. */
  lemma DistributionReadBack(bs: seq<Block>, b: Block, j: nat, l: nat, e: nat)
    requires Only(bs, b) && OnlyTx(b, j) && DistinctLogs(b.txs[j].logs) && l < |b.txs[j].logs| && e < |b.txs[j].logs[l].events|
    requires var log := b.txs[j].logs[l];
             IsDistribution(log.events[e]) && forall i :: 0 <= i < e ==> !IsDistribution(log.events[i])
    ensures var db, log := PersistBlocks(map[], bs), b.txs[j].logs[l];
            var k := DistrKey(b.height, b.txs[j].hash, log.msgIndex);
            k in db && db[k].DerivedColumns? && DistributionRow(db[k].item, log.msgIndex, log.events[e])
  {
    var tx := b.txs[j];
    var m := tx.logs[l].msgIndex;
    var p := ForKey(b.height, tx.hash, DistrKey(b.height, tx.hash, m));
    forall i | 0 <= i <= e ensures First(DeriveEvent(tx, m, tx.logs[l].events[i]), p).Some? <==> i == e {
      DistributionItem(tx, b.height, m, tx.logs[l].events[i]);
    }
    DistributionItem(tx, b.height, m, tx.logs[l].events[e]);
    FirstEventStored(bs, b, j, l, e, DistrKey(b.height, tx.hash, m), p);
  }

  /** Without one, nothing is. */
  lemma NoDistribution(bs: seq<Block>, b: Block, j: nat, m: int)
    requires Only(bs, b) && OnlyTx(b, j)
    requires forall l, e :: 0 <= l < |b.txs[j].logs| && 0 <= e < |b.txs[j].logs[l].events| && b.txs[j].logs[l].msgIndex == m ==>
               !IsDistribution(b.txs[j].logs[l].events[e])
    ensures DistrKey(b.height, b.txs[j].hash, m) !in PersistBlocks(map[], bs)
  {
    var tx := b.txs[j];
    var p := ForKey(b.height, tx.hash, DistrKey(b.height, tx.hash, m));
    ItemStored(bs, b, j, DistrKey(b.height, tx.hash, m));
    forall l, e | 0 <= l < |tx.logs| && 0 <= e < |tx.logs[l].events| && tx.logs[l].msgIndex == m
      ensures First(DeriveEvent(tx, m, tx.logs[l].events[e]), p).None?
    {
      DistributionItem(tx, b.height, m, tx.logs[l].events[e]);
    }
    NoEvent(tx, m, p);
  }
  // ------------------------------------------------------------------ wasm.events

  function ContractOf(ev: TxEvent): Option<string> { AttrOr(ev.attrs, "_contract_address", "contract_address") }

  predicate IsWasm(ev: TxEvent) { ev.eventType == "wasm" && ContractOf(ev).Some? && ContractOf(ev).value != "" }

  lemma OnlyWasmEvents(tx: Tx, m: int, ev: TxEvent, p: Derived -> bool)
    requires forall d :: p(d) ==> d.WasmEvent?
    ensures First(DeriveEvent(tx, m, ev), p) == First(WasmEventOf(m, ev), p)
  {
    FirstOfKinds(tx, m, ev, p);
    NoneIn(TransferOf(m, ev), p);
    NoneIn(DelegationOf(tx, m, ev), p);
    NoneIn(DistributionOf(m, ev), p);
  }

  lemma WasmItem(tx: Tx, h: int, m: int, ev: TxEvent)
    ensures var d := First(DeriveEvent(tx, m, ev), ForKey(h, tx.hash, WasmEventKey(h, tx.hash, m, "wasm")));
            d == if IsWasm(ev) then Some(WasmEvent(m, "wasm", ContractOf(ev).value, ev.attrs)) else None
  {
    OnlyWasmEvents(tx, m, ev, ForKey(h, tx.hash, WasmEventKey(h, tx.hash, m, "wasm")));
  }

  /** The first event of a message that a contract has emitted is stored, with all its attributes. */
  lemma WasmReadBack(bs: seq<Block>, b: Block, j: nat, l: nat, e: nat)
    requires Only(bs, b) && OnlyTx(b, j) && DistinctLogs(b.txs[j].logs) && l < |b.txs[j].logs| && e < |b.txs[j].logs[l].events|
    requires var log := b.txs[j].logs[l];
             IsWasm(log.events[e]) && forall i :: 0 <= i < e ==> !IsWasm(log.events[i])
    ensures var db, log := PersistBlocks(map[], bs), b.txs[j].logs[l];
            var k := WasmEventKey(b.height, b.txs[j].hash, log.msgIndex, "wasm");
            && k in db
            && db[k] == DerivedColumns(WasmEvent(log.msgIndex, "wasm", ContractOf(log.events[e]).value, log.events[e].attrs))
  {
    var tx := b.txs[j];
    var m := tx.logs[l].msgIndex;
    var k := WasmEventKey(b.height, tx.hash, m, "wasm");
    forall i | 0 <= i <= e { WasmItem(tx, b.height, m, tx.logs[l].events[i]); }
    FirstEventStored(bs, b, j, l, e, k, ForKey(b.height, tx.hash, k));
  }

  // ------------------------------------------------------------------ bank.transfers

  /** The event says that `from` has sent `amount` of `denom` to `to`. */
  predicate Sends(ev: TxEvent, from: string, to: string, denom: string, amount: string) {
    && ev.eventType == "transfer" && from != "" && to != "" && IsAmount(amount) && IsDenom(denom)
    && FindAttr(ev.attrs, "sender") == Some(from) && FindAttr(ev.attrs, "recipient") == Some(to)
    && FindAttr(ev.attrs, "amount") == Some(amount + denom)
  }

  ghost predicate SendsSome(ev: TxEvent, from: string, to: string, denom: string) {
    exists amount :: Sends(ev, from, to, denom, amount)
  }

  lemma OnlyTransfers(tx: Tx, m: int, ev: TxEvent, p: Derived -> bool)
    requires forall d :: p(d) ==> d.Transfer?
    ensures First(DeriveEvent(tx, m, ev), p) == First(TransferOf(m, ev), p)
  {
    FirstOfKinds(tx, m, ev, p);
    NoneIn(DelegationOf(tx, m, ev), p);
    NoneIn(DistributionOf(m, ev), p);
    NoneIn(WasmEventOf(m, ev), p);
  }

  lemma TransferItem(tx: Tx, h: int, m: int, ev: TxEvent, from: string, to: string, denom: string)
    ensures var d := First(DeriveEvent(tx, m, ev), ForKey(h, tx.hash, TransferKey(h, tx.hash, m, from, to, denom)));
            && (d.Some? <==> SendsSome(ev, from, to, denom))
            && (d.Some? ==> d.value.Transfer? && Sends(ev, from, to, denom, d.value.amount) &&
                            d.value == Transfer(m, from, to, denom, d.value.amount))
  {
    var p := ForKey(h, tx.hash, TransferKey(h, tx.hash, m, from, to, denom));
    OnlyTransfers(tx, m, ev, p);
    FirstIs(TransferOf(m, ev), p);
    var d := First(TransferOf(m, ev), p);
    if d.Some? {
      TransferIff(m, ev, from, to, denom, d.value.amount);
      assert Sends(ev, from, to, denom, d.value.amount);
    } else {
      forall amount ensures !Sends(ev, from, to, denom, amount) {
        TransferIff(m, ev, from, to, denom, amount);
        assert p(Transfer(m, from, to, denom, amount));
      }
    }
  }

  /** Of the transfers of one message between the same accounts in one denomination the first is stored. */
  lemma TransferReadBack(bs: seq<Block>, b: Block, j: nat, l: nat, e: nat, from: string, to: string, denom: string, amount: string)
    requires Only(bs, b) && OnlyTx(b, j) && DistinctLogs(b.txs[j].logs) && l < |b.txs[j].logs| && e < |b.txs[j].logs[l].events|
    requires var log := b.txs[j].logs[l];
             Sends(log.events[e], from, to, denom, amount) && forall i :: 0 <= i < e ==> !SendsSome(log.events[i], from, to, denom)
    ensures var db, m := PersistBlocks(map[], bs), b.txs[j].logs[l].msgIndex;
            var k := TransferKey(b.height, b.txs[j].hash, m, from, to, denom);
            k in db && db[k] == DerivedColumns(Transfer(m, from, to, denom, amount))
  {
    var tx := b.txs[j];
    var m := tx.logs[l].msgIndex;
    var k := TransferKey(b.height, tx.hash, m, from, to, denom);
    forall i | 0 <= i <= e { TransferItem(tx, b.height, m, tx.logs[l].events[i], from, to, denom); }
    FirstEventStored(bs, b, j, l, e, k, ForKey(b.height, tx.hash, k));
    var d := First(DeriveEvent(tx, m, tx.logs[l].events[e]), ForKey(b.height, tx.hash, k)).value;
    SameAmount(d.amount, amount, denom);
  }

  lemma SameAmount(a: string, b: string, denom: string)
    requires a + denom == b + denom
    ensures a == b
  {
    assert |a| == |b|;
    assert (a + denom)[..|a|] == (b + denom)[..|b|];
  }

  // ------------------------------------------------------------------ stake.delegation_events

  /** The four fields that the table and its flusher ask for. */
  predicate Full(d: Derived) {
    && d.Delegation? && d.eventType != ""
    && d.delegator.Some? && d.delegator.value != ""
    && d.coinDenom.Some? && d.coinDenom.value != ""
    && d.coinAmount.Some? && d.coinAmount.value != ""
  }

  lemma PassingIsFull(h: int, hash: string, m: int, d: Derived)
    ensures Passing(h, hash, DelegKey(h, hash, m))(d) <==> Full(d) && d.msgIndex == m
  {
  }

  /** A delegation with all four fields is never lost: its message has a row, whatever else is indexed. */
  lemma FullDelegationStored(bs: seq<Block>, i: nat, j: nat, d: Derived)
    requires i < |bs| && j < |bs[i].txs| && d in Derive(bs[i].txs[j]) && Full(d)
    ensures DelegKey(bs[i].height, bs[i].txs[j].hash, d.msgIndex) in PersistBlocks(map[], bs)
  {
    var b, tx := bs[i], bs[i].txs[j];
    var r := DerivedRow(b.height, tx.hash, d);
    var items := Derive(tx);
    var n :| 0 <= n < |items| && items[n] == d;
    assert r in DerivedByItem(b.height, tx.hash, items, StakeDeleg)[n];
    InConcat(DerivedByItem(b.height, tx.hash, items, StakeDeleg), r);
    assert r in RowsByTx(b.height, b.time, b.txs, StakeDeleg)[j];
    InConcat(RowsByTx(b.height, b.time, b.txs, StakeDeleg), r);
    IntoAllRows(bs, i, StakeDeleg, r);
    StoredKeys(map[], bs, r.key);
  }

  /** What is stored is the first such item of the message. */
  lemma DelegationReadBack(bs: seq<Block>, b: Block, j: nat, n: nat)
    requires Only(bs, b) && OnlyTx(b, j) && n < |Derive(b.txs[j])|
    requires var items := Derive(b.txs[j]);
             Full(items[n]) && forall i :: 0 <= i < n ==> !(Full(items[i]) && items[i].msgIndex == items[n].msgIndex)
    ensures var db, d := PersistBlocks(map[], bs), Derive(b.txs[j])[n];
            var k := DelegKey(b.height, b.txs[j].hash, d.msgIndex);
            k in db && db[k] == DerivedColumns(d)
  {
    var items := Derive(b.txs[j]);
    var k := DelegKey(b.height, b.txs[j].hash, items[n].msgIndex);
    forall i | 0 <= i <= n { PassingIsFull(b.height, b.txs[j].hash, items[n].msgIndex, items[i]); }
    DelegationItemStored(bs, b, j, k);
    FirstAt(items, Passing(b.height, b.txs[j].hash, k), n);
  }

  lemma {:induction false} FirstAt(items: seq<Derived>, p: Derived -> bool, n: nat)
    requires n < |items| && p(items[n]) && forall i :: 0 <= i < n ==> !p(items[i])
    ensures First(items, p) == Some(items[n])
  {
    if n > 0 { FirstAt(items[1..], p, n - 1); }
  }

  /** Without one, nothing is. */
  lemma NoDelegation(bs: seq<Block>, b: Block, j: nat, m: int)
    requires Only(bs, b) && OnlyTx(b, j) && forall d :: d in Derive(b.txs[j]) && Full(d) ==> d.msgIndex != m
    ensures DelegKey(b.height, b.txs[j].hash, m) !in PersistBlocks(map[], bs)
  {
    var k := DelegKey(b.height, b.txs[j].hash, m);
    forall d | d in Derive(b.txs[j]) ensures !Passing(b.height, b.txs[j].hash, k)(d) {
      PassingIsFull(b.height, b.txs[j].hash, m, d);
    }
    NoneIn(Derive(b.txs[j]), Passing(b.height, b.txs[j].hash, k));
    DelegationItemStored(bs, b, j, k);
  }

  predicate IsDelegation(ev: TxEvent) {
    ev.eventType == "delegate" || ev.eventType == "redelegate" || ev.eventType == "unbond" || ev.eventType == "complete_unbonding"
  }

  /** A text, or none where it is empty. */
  function NonEmpty(s: Option<string>): Option<string> { if s.Some? && s.value != "" then s else None }

  /** The row of a delegation event that names delegator and amount. */
  predicate DelegationRow(d: Derived, m: int, ev: TxEvent, delegator: string, denom: string, amount: string) {
    && d.Delegation? && d.msgIndex == m && d.eventType == ev.eventType
    && d.delegator == Some(delegator) && d.coinDenom == Some(denom) && d.coinAmount == Some(amount)
    && d.completionTime == NonEmpty(FindAttr(ev.attrs, "completion_time"))
    && (NonEmpty(FindAttr(ev.attrs, "source_validator")).Some? ==> d.source == FindAttr(ev.attrs, "source_validator"))
    && (NonEmpty(FindAttr(ev.attrs, "destination_validator")).Some? ==> d.target == FindAttr(ev.attrs, "destination_validator"))
  }

  lemma NamedDelegation(tx: Tx, h: int, m: int, ev: TxEvent, delegator: string, denom: string, amount: string)
    requires IsDelegation(ev) && FindAttr(ev.attrs, "delegator") == Some(delegator) && delegator != ""
    requires AttrOr(ev.attrs, "amount", "completion_amount") == Some(amount + denom) && IsAmount(amount) && IsDenom(denom)
    ensures var d := First(DeriveEvent(tx, m, ev), Passing(h, tx.hash, DelegKey(h, tx.hash, m)));
            d.Some? && DelegationRow(d.value, m, ev, delegator, denom, amount)
  {
    var p := Passing(h, tx.hash, DelegKey(h, tx.hash, m));
    var d := DelegationOf(tx, m, ev)[0];
    FirstOfKinds(tx, m, ev, p);
    NoneIn(TransferOf(m, ev), p);
    CoinIff(amount + denom, Coin(amount, denom));
    EventComesFirst(tx, m, ev);
    PassingIsFull(h, tx.hash, m, d);
  }

  lemma OtherEvents(tx: Tx, h: int, m: int, ev: TxEvent)
    requires !IsDelegation(ev)
    ensures First(DeriveEvent(tx, m, ev), Passing(h, tx.hash, DelegKey(h, tx.hash, m))).None?
  {
    var p := Passing(h, tx.hash, DelegKey(h, tx.hash, m));
    FirstOfKinds(tx, m, ev, p);
    NoneIn(TransferOf(m, ev), p);
    NoneIn(DistributionOf(m, ev), p);
    NoneIn(WasmEventOf(m, ev), p);
  }

  /** The first delegation event of a message, of whichever of the four types, is stored if it names delegator and amount. */
  lemma DelegationEventReadBack(bs: seq<Block>, b: Block, j: nat, l: nat, e: nat, delegator: string, denom: string, amount: string)
    requires Only(bs, b) && OnlyTx(b, j) && DistinctLogs(b.txs[j].logs) && l < |b.txs[j].logs| && e < |b.txs[j].logs[l].events|
    requires var log := b.txs[j].logs[l];
             && IsDelegation(log.events[e]) && (forall i :: 0 <= i < e ==> !IsDelegation(log.events[i]))
             && FindAttr(log.events[e].attrs, "delegator") == Some(delegator) && delegator != ""
             && AttrOr(log.events[e].attrs, "amount", "completion_amount") == Some(amount + denom)
             && IsAmount(amount) && IsDenom(denom)
    ensures var db, log := PersistBlocks(map[], bs), b.txs[j].logs[l];
            var k := DelegKey(b.height, b.txs[j].hash, log.msgIndex);
            k in db && db[k].DerivedColumns? && DelegationRow(db[k].item, log.msgIndex, log.events[e], delegator, denom, amount)
  {
    var tx := b.txs[j];
    var m := tx.logs[l].msgIndex;
    var k := DelegKey(b.height, tx.hash, m);
    forall i | 0 <= i < e { OtherEvents(tx, b.height, m, tx.logs[l].events[i]); }
    NamedDelegation(tx, b.height, m, tx.logs[l].events[e], delegator, denom, amount);
    FirstEventStored(bs, b, j, l, e, k, Passing(b.height, tx.hash, k));
  }}
