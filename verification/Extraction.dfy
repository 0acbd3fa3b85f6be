/** `extractRows`: from an assembled block to the rows of every table. */
module Extraction {
  import opened Blocks
  import opened Database
  import opened Derivation
  import opened Parsing
  import opened Sequences

  /** `m?.signer ?? m?.from_address ?? m?.delegator_address ?? null` */
  function SignerOf(m: Option<Msg>): Option<Json> {
    if m.None? then None else Else(Else(m.value.Get("signer"), m.value.Get("from_address")), m.value.Get("delegator_address"))
  }

  function MsgRows(h: int, hash: string, msgs: seq<Option<Msg>>): seq<Row> {
    seq(|msgs|, i requires 0 <= i < |msgs| => Row(MsgKey(h, hash, i), MsgColumns(msgs[i], SignerOf(msgs[i]))))
  }

  function AttrRowsOfEvent(hash: string, m: int, ei: int, attrs: seq<Attr>): seq<Row> {
    seq(|attrs|, i requires 0 <= i < |attrs| => Row(AttrKey(hash, m, ei, attrs[i].key), AttrColumns(attrs[i].value)))
  }

  function EventRowsOfLog(hash: string, log: Log): seq<Row> {
    seq(|log.events|, i requires 0 <= i < |log.events| =>
      Row(EventKey(hash, log.msgIndex, i), EventColumns(log.events[i].eventType, log.events[i].attrs)))
  }

  function AttrsByEvent(hash: string, log: Log): seq<seq<Row>> {
    seq(|log.events|, i requires 0 <= i < |log.events| => AttrRowsOfEvent(hash, log.msgIndex, i, log.events[i].attrs))
  }

  function EventsByLog(hash: string, logs: seq<Log>): seq<seq<Row>> {
    seq(|logs|, i requires 0 <= i < |logs| => EventRowsOfLog(hash, logs[i]))
  }

  function AttrsByLog(hash: string, logs: seq<Log>): seq<seq<Row>> {
    seq(|logs|, i requires 0 <= i < |logs| => Concat(AttrsByEvent(hash, logs[i])))
  }

  function DerivedByItem(h: int, hash: string, items: seq<Derived>, t: Table): seq<seq<Row>> {
    seq(|items|, i requires 0 <= i < |items| =>
      if TableOfKey(DerivedKey(h, hash, items[i])) == t then [DerivedRow(h, hash, items[i])] else [])
  }

  function DerivedRow(h: int, hash: string, d: Derived): Row { Row(DerivedKey(h, hash, d), DerivedColumns(d)) }

  function RowOfTx(h: int, time: Option<string>, tx: Tx): Row {
    Row(TxKey(h, tx.hash), TxColumns(tx.index, time, tx.code, tx.gasUsed, tx.logSummary, tx.body))
  }

  /** The rows of table `t` that one transaction contributes. */
  function TxTable(h: int, time: Option<string>, tx: Tx, t: Table): seq<Row> {
    match t
    case Blocks => []
    case Txs => [RowOfTx(h, time, tx)]
    case Msgs => MsgRows(h, tx.hash, tx.msgs)
    case Events => Concat(EventsByLog(tx.hash, tx.logs))
    case Attrs => Concat(AttrsByLog(tx.hash, tx.logs))
    case _ => Concat(DerivedByItem(h, tx.hash, Derive(tx), t))
  }

  function RowsByTx(h: int, time: Option<string>, txs: seq<Tx>, t: Table): seq<seq<Row>> {
    seq(|txs|, i requires 0 <= i < |txs| => TxTable(h, time, txs[i], t))
  }

  function RowOfBlock(b: Block): Row {
    Row(BlockKey(b.height), BlockColumns(b.blockHash, b.time, b.proposer, b.header, |b.txs|))
  }

  /** The rows of table `t` that a block contributes, in the order in which the loops push them. */
  function BlockTable(b: Block, t: Table): seq<Row> {
    if t.Blocks? then [RowOfBlock(b)] else Concat(RowsByTx(b.height, b.time, b.txs, t))
  }

  /** The row arrays of the sink. */
  datatype Buffers = Buffers(blocks: seq<Row>, txs: seq<Row>, msgs: seq<Row>, events: seq<Row>, attrs: seq<Row>,
                             transfers: seq<Row>, stakeDeleg: seq<Row>, stakeDistr: seq<Row>,
                             wasmExecs: seq<Row>, wasmEvents: seq<Row>)
  {
    function Of(t: Table): seq<Row> {
      match t
      case Blocks => blocks
      case Txs => txs
      case Msgs => msgs
      case Events => events
      case Attrs => attrs
      case Transfers => transfers
      case StakeDeleg => stakeDeleg
      case StakeDistr => stakeDistr
      case WasmExecs => wasmExecs
      case WasmEvents => wasmEvents
    }

    /** `push(...)` of every array. */
    function Push(r: Buffers): (b: Buffers)
      ensures forall t: Table {:trigger b.Of(t)} :: b.Of(t) == Of(t) + r.Of(t)
    {
      Buffers(blocks + r.blocks, txs + r.txs, msgs + r.msgs, events + r.events, attrs + r.attrs,
              transfers + r.transfers, stakeDeleg + r.stakeDeleg, stakeDistr + r.stakeDistr,
              wasmExecs + r.wasmExecs, wasmEvents + r.wasmEvents)
    }

    /** The array of table `t` replaced by an empty one. */
    function Clear(t: Table): (b: Buffers)
      ensures forall u: Table {:trigger b.Of(u)} :: b.Of(u) == if u == t then [] else Of(u)
    {
      match t
      case Blocks => this.(blocks := [])
      case Txs => this.(txs := [])
      case Msgs => this.(msgs := [])
      case Events => this.(events := [])
      case Attrs => this.(attrs := [])
      case Transfers => this.(transfers := [])
      case StakeDeleg => this.(stakeDeleg := [])
      case StakeDistr => this.(stakeDistr := [])
      case WasmExecs => this.(wasmExecs := [])
      case WasmEvents => this.(wasmEvents := [])
    }
  }

  const NO_ROWS := Buffers([], [], [], [], [], [], [], [], [], [])

  // ------------------------------------------------------------------ the nested loops

  /** The loops over the logs and events of one transaction. */
  method ExtractLogs(tx: Tx) returns (evRows: seq<Row>, attrRows: seq<Row>, derived: seq<Derived>)
    ensures evRows == Concat(EventsByLog(tx.hash, tx.logs))
    ensures attrRows == Concat(AttrsByLog(tx.hash, tx.logs))
    ensures derived == Concat(DerivedByLog(tx))
  {
    evRows, attrRows, derived := [], [], [];
    for i := 0 to |tx.logs|
      invariant evRows == Concat(EventsByLog(tx.hash, tx.logs)[..i]) && attrRows == Concat(AttrsByLog(tx.hash, tx.logs)[..i])
      invariant derived == Concat(DerivedByLog(tx)[..i])
    {
      var logEvs, logAttrs, logDerived := ExtractLog(tx, tx.logs[i]);
      evRows, attrRows, derived := evRows + logEvs, attrRows + logAttrs, derived + logDerived;
      ConcatPrefix(EventsByLog(tx.hash, tx.logs), i);
      ConcatPrefix(AttrsByLog(tx.hash, tx.logs), i);
      ConcatPrefix(DerivedByLog(tx), i);
    }
    assert EventsByLog(tx.hash, tx.logs)[..|tx.logs|] == EventsByLog(tx.hash, tx.logs);
    assert AttrsByLog(tx.hash, tx.logs)[..|tx.logs|] == AttrsByLog(tx.hash, tx.logs);
    assert DerivedByLog(tx)[..|tx.logs|] == DerivedByLog(tx);
  }

  method ExtractLog(tx: Tx, log: Log) returns (evRows: seq<Row>, attrRows: seq<Row>, derived: seq<Derived>)
    ensures evRows == EventRowsOfLog(tx.hash, log)
    ensures attrRows == Concat(AttrsByEvent(tx.hash, log))
    ensures derived == Concat(DerivedByEvent(tx, log))
  {
    evRows, attrRows, derived := [], [], [];
    for ei := 0 to |log.events|
      invariant evRows == EventRowsOfLog(tx.hash, log)[..ei]
      invariant attrRows == Concat(AttrsByEvent(tx.hash, log)[..ei])
      invariant derived == Concat(DerivedByEvent(tx, log)[..ei])
    {
      var ev := log.events[ei];
      evRows := evRows + [Row(EventKey(tx.hash, log.msgIndex, ei), EventColumns(ev.eventType, ev.attrs))];
      derived := derived + DeriveEvent(tx, log.msgIndex, ev);
      var fanOut := FanOut(tx.hash, log.msgIndex, ei, ev.attrs);
      attrRows := attrRows + fanOut;
      ConcatPrefix(AttrsByEvent(tx.hash, log), ei);
      ConcatPrefix(DerivedByEvent(tx, log), ei);
    }
    assert AttrsByEvent(tx.hash, log)[..|log.events|] == AttrsByEvent(tx.hash, log);
    assert DerivedByEvent(tx, log)[..|log.events|] == DerivedByEvent(tx, log);
  }

  /** The loop over the attributes of one event. */
  method FanOut(hash: string, m: int, ei: int, attrs: seq<Attr>) returns (rows: seq<Row>)
    ensures rows == AttrRowsOfEvent(hash, m, ei, attrs)
  {
    rows := [];
    for k := 0 to |attrs|
      invariant rows == AttrRowsOfEvent(hash, m, ei, attrs)[..k]
    {
      rows := rows + [Row(AttrKey(hash, m, ei, attrs[k].key), AttrColumns(attrs[k].value))];
    }
  }

  /** The two loops over the messages. */
  method ExtractMsgs(h: int, tx: Tx) returns (msgRows: seq<Row>, execs: seq<Derived>)
    ensures msgRows == MsgRows(h, tx.hash, tx.msgs)
    ensures execs == Concat(ExecsByMsg(tx))
  {
    msgRows, execs := [], [];
    for i := 0 to |tx.msgs|
      invariant msgRows == MsgRows(h, tx.hash, tx.msgs)[..i]
    {
      msgRows := msgRows + [Row(MsgKey(h, tx.hash, i), MsgColumns(tx.msgs[i], SignerOf(tx.msgs[i])))];
    }
    for i := 0 to |tx.msgs|
      invariant execs == Concat(ExecsByMsg(tx)[..i])
    {
      execs := execs + ExecOf(tx, i);
      ConcatPrefix(ExecsByMsg(tx), i);
    }
    assert ExecsByMsg(tx)[..|tx.msgs|] == ExecsByMsg(tx);
  }

  /** The rows of one derived table. */
  method ExtractDerived(h: int, hash: string, items: seq<Derived>, t: Table) returns (rows: seq<Row>)
    ensures rows == Concat(DerivedByItem(h, hash, items, t))
  {
    rows := [];
    for i := 0 to |items|
      invariant rows == Concat(DerivedByItem(h, hash, items, t)[..i])
    {
      var r := DerivedRow(h, hash, items[i]);
      if TableOfKey(r.key) == t { rows := rows + [r]; }
      ConcatPrefix(DerivedByItem(h, hash, items, t), i);
    }
    assert DerivedByItem(h, hash, items, t)[..|items|] == DerivedByItem(h, hash, items, t);
  }

  /** The body of the loop over the transactions. */
  method ExtractTx(h: int, time: Option<string>, tx: Tx) returns (rows: Buffers)
    ensures forall t: Table {:trigger rows.Of(t)} :: rows.Of(t) == TxTable(h, time, tx, t)
  {
    var msgRows, execs := ExtractMsgs(h, tx);
    var evRows, attrRows, fromEvents := ExtractLogs(tx);
    var items := execs + fromEvents;
    var transfers := ExtractDerived(h, tx.hash, items, Transfers);
    var stakeDeleg := ExtractDerived(h, tx.hash, items, StakeDeleg);
    var stakeDistr := ExtractDerived(h, tx.hash, items, StakeDistr);
    var wasmExecs := ExtractDerived(h, tx.hash, items, WasmExecs);
    var wasmEvents := ExtractDerived(h, tx.hash, items, WasmEvents);
    rows := Buffers([], [RowOfTx(h, time, tx)], msgRows, evRows, attrRows,
                    transfers, stakeDeleg, stakeDistr, wasmExecs, wasmEvents);
    assert items == Derive(tx);
    forall t: Table ensures rows.Of(t) == TxTable(h, time, tx, t) {
      match t
      case Blocks =>
      case Txs =>
      case Msgs =>
      case Events =>
      case Attrs =>
      case Transfers =>
      case StakeDeleg =>
      case StakeDistr =>
      case WasmExecs =>
      case WasmEvents =>
    }
  }

  /** The arrays hold the rows of the first `i` transactions. */
  ghost predicate Holds(rows: Buffers, h: int, time: Option<string>, txs: seq<Tx>, i: nat)
    requires i <= |txs|
  {
    forall t: Table :: rows.Of(t) == Concat(RowsByTx(h, time, txs, t)[..i])
  }

  lemma HoldsOneMore(rows: Buffers, txRows: Buffers, h: int, time: Option<string>, txs: seq<Tx>, i: nat)
    requires i < |txs| && Holds(rows, h, time, txs, i)
    requires forall t: Table {:trigger txRows.Of(t)} :: txRows.Of(t) == TxTable(h, time, txs[i], t)
    ensures Holds(rows.Push(txRows), h, time, txs, i + 1)
  {
    forall t: Table ensures rows.Push(txRows).Of(t) == Concat(RowsByTx(h, time, txs, t)[..i + 1]) {
      ConcatPrefix(RowsByTx(h, time, txs, t), i);
      assert rows.Of(t) == Concat(RowsByTx(h, time, txs, t)[..i]);
      assert txRows.Of(t) == RowsByTx(h, time, txs, t)[i];
    }
  }

  /** The loop over the transactions. */
  method ExtractTxs(h: int, time: Option<string>, txs: seq<Tx>) returns (rows: Buffers)
    ensures Holds(rows, h, time, txs, |txs|)
  {
    rows := NO_ROWS;
    for i := 0 to |txs|
      invariant Holds(rows, h, time, txs, i)
    {
      var txRows := ExtractTx(h, time, txs[i]);
      HoldsOneMore(rows, txRows, h, time, txs, i);
      rows := rows.Push(txRows);
    }
  }

  method ExtractRows(b: Block) returns (rows: Buffers)
    ensures forall t: Table {:trigger rows.Of(t)} :: rows.Of(t) == BlockTable(b, t)
  {
    var txsRows := ExtractTxs(b.height, b.time, b.txs);
    rows := txsRows.(blocks := [RowOfBlock(b)]);
    forall t: Table ensures rows.Of(t) == BlockTable(b, t) {
      assert RowsByTx(b.height, b.time, b.txs, t)[..|b.txs|] == RowsByTx(b.height, b.time, b.txs, t);
      if !t.Blocks? { assert rows.Of(t) == txsRows.Of(t); }
    }
  }

  // ------------------------------------------------------------------ rows keep to their table and transaction

  /** Rows of a transaction carry its hash, and its block's height where their table has one. */
  predicate Belongs(r: Row, h: int, hash: string) {
    !r.key.BlockKey? && r.key.txHash == hash && (!r.key.EventKey? && !r.key.AttrKey? ==> r.key.height == h)
  }

  lemma EventRowOrigin(hash: string, logs: seq<Log>, r: Row)
    requires r in Concat(EventsByLog(hash, logs))
    ensures r.key.EventKey? && r.key.txHash == hash && r.cols.EventColumns?
  {
    InConcat(EventsByLog(hash, logs), r);
  }

  lemma AttrRowOriginInLog(hash: string, log: Log, r: Row)
    requires r in Concat(AttrsByEvent(hash, log))
    ensures r.key.AttrKey? && r.key.txHash == hash && r.key.msgIndex == log.msgIndex && r.cols.AttrColumns?
  {
    InConcat(AttrsByEvent(hash, log), r);
  }

  lemma AttrRowOrigin(hash: string, logs: seq<Log>, r: Row)
    requires r in Concat(AttrsByLog(hash, logs))
    ensures r.key.AttrKey? && r.key.txHash == hash && r.cols.AttrColumns?
  {
    InConcat(AttrsByLog(hash, logs), r);
    var i :| 0 <= i < |logs| && r in AttrsByLog(hash, logs)[i];
    AttrRowOriginInLog(hash, logs[i], r);
  }

  lemma DerivedRowOrigin(h: int, hash: string, items: seq<Derived>, t: Table, r: Row)
    requires r in Concat(DerivedByItem(h, hash, items, t))
    ensures TableOfKey(r.key) == t && Belongs(r, h, hash) && WellFormedRow(r)
  {
    InConcat(DerivedByItem(h, hash, items, t), r);
    var i :| 0 <= i < |items| && r in DerivedByItem(h, hash, items, t)[i];
    assert r == DerivedRow(h, hash, items[i]);
  }

  lemma TxTableOrigin(h: int, time: Option<string>, tx: Tx, t: Table, r: Row)
    requires r in TxTable(h, time, tx, t)
    ensures TableOfKey(r.key) == t && Belongs(r, h, tx.hash) && WellFormedRow(r)
  {
    match t
    case Blocks =>
    case Txs =>
    case Msgs =>
    case Events => EventRowOrigin(tx.hash, tx.logs, r);
    case Attrs => AttrRowOrigin(tx.hash, tx.logs, r);
    case _ => DerivedRowOrigin(h, tx.hash, Derive(tx), t, r);
  }

  /** An extracted row goes to its own table, and but for the block's row it hangs on a transaction. */
  lemma BlockTableOrigin(b: Block, t: Table, r: Row)
    requires r in BlockTable(b, t)
    ensures TableOfKey(r.key) == t && WellFormedRow(r)
    ensures t.Blocks? ==> r == RowOfBlock(b)
    ensures !t.Blocks? ==> exists i :: 0 <= i < |b.txs| && Belongs(r, b.height, b.txs[i].hash)
  {
    if !t.Blocks? {
      InConcat(RowsByTx(b.height, b.time, b.txs, t), r);
      var i :| 0 <= i < |b.txs| && r in TxTable(b.height, b.time, b.txs[i], t);
      TxTableOrigin(b.height, b.time, b.txs[i], t, r);
    }
  }
}
