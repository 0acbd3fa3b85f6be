/**
 The two event tables: core.events, from which every event list can be read back, and core.event_attrs, the
 index over its attributes, which agrees with it.
 */
module EventIndex {
  import opened Blocks
  import opened Sequences
  import opened Database
  import opened Extraction
  import opened Parsing
  import opened Persistence

  // ------------------------------------------------------------------ attributes

  /** Of several attributes with one key the first is stored, whose value is the one `findAttr` gives. */
  lemma {:induction false} FirstAttrWins(hash: string, m: int, e: int, attrs: seq<Attr>, key: string)
    ensures MergeAll(None, RowsAt(AttrRowsOfEvent(hash, m, e, attrs), AttrKey(hash, m, e, key))) ==
            if Occurs(attrs, key) then Some(AttrColumns(FindAttr(attrs, key))) else None
    decreases |attrs|
  {
    var rows := AttrRowsOfEvent(hash, m, e, attrs);
    var k := AttrKey(hash, m, e, key);
    if attrs != [] {
      assert rows[1..] == AttrRowsOfEvent(hash, m, e, attrs[1..]);
      FirstAttrWins(hash, m, e, attrs[1..], key);
      assert rows[0].key == AttrKey(hash, m, e, attrs[0].key);
      if attrs[0].key == key {
        assert RowsAt(rows, k) == [rows[0]] + RowsAt(rows[1..], k);
        FirstKept(rows[0].cols, RowsAt(rows, k)[1..]);
      } else {
        assert RowsAt(rows, k) == RowsAt(rows[1..], k);
        assert Occurs(attrs, key) <==> Occurs(attrs[1..], key) by {
          if i :| 0 <= i < |attrs| && attrs[i].key == key { assert attrs[1..][i - 1].key == key; }
        }
      }
    }
  }

  // ------------------------------------------------------------------ narrowing down to one transaction

  /** Transactions with the same hash are the same; blocks that are indexed again repeat theirs. */
  predicate SameTxs(bs: seq<Block>) {
    forall i, j, i2, j2 | 0 <= i < |bs| && 0 <= j < |bs[i].txs| && 0 <= i2 < |bs| && 0 <= j2 < |bs[i2].txs| ::
      bs[i].txs[j].hash == bs[i2].txs[j2].hash ==> bs[i].txs[j] == bs[i2].txs[j2]
  }

  predicate DistinctAllLogs(bs: seq<Block>) {
    forall i, j :: 0 <= i < |bs| && 0 <= j < |bs[i].txs| ==> DistinctLogs(bs[i].txs[j].logs)
  }

  /** The logs of the blocks are those that the pipeline builds from raw logs and transaction-level events. */
  predicate Assembled(bs: seq<Block>, raw: Tx -> Option<seq<RawEntry>>, txLevel: Tx -> seq<TxEvent>) {
    forall i, j :: 0 <= i < |bs| && 0 <= j < |bs[i].txs| ==>
      bs[i].txs[j].logs == PickLogs(AssembledTx(raw(bs[i].txs[j]), txLevel(bs[i].txs[j])))
  }

  /** Assembled blocks have distinct log indexes if and only if the raw logs of every transaction tell them apart. */
  lemma AssembledDistinctIff(bs: seq<Block>, raw: Tx -> Option<seq<RawEntry>>, txLevel: Tx -> seq<TxEvent>)
    requires Assembled(bs, raw, txLevel)
    ensures DistinctAllLogs(bs) <==>
            forall i, j :: 0 <= i < |bs| && 0 <= j < |bs[i].txs| ==> IndexesApart(raw(bs[i].txs[j]), txLevel(bs[i].txs[j]))
  {
    forall i, j | 0 <= i < |bs| && 0 <= j < |bs[i].txs|
      ensures DistinctLogs(bs[i].txs[j].logs) <==> IndexesApart(raw(bs[i].txs[j]), txLevel(bs[i].txs[j]))
    {
      PipelineLogsDistinctIff(raw(bs[i].txs[j]), txLevel(bs[i].txs[j]));
    }
  }

  predicate IsEventKey(k: Key) { k.EventKey? || k.AttrKey? }

  /** The rows that a transaction has for a key of an event table, wherever the transaction stands. */
  function CopyOf(tx: Tx, k: Key): seq<Row>
    requires IsEventKey(k)
  {
    RowsAt(if k.EventKey? then Concat(EventsByLog(tx.hash, tx.logs)) else Concat(AttrsByLog(tx.hash, tx.logs)), k)
  }

  lemma CopyOfTx(h: int, time: Option<string>, tx: Tx, k: Key)
    requires IsEventKey(k)
    ensures RowsAt(TxTable(h, time, tx, TableOfKey(k)), k) == CopyOf(tx, k)
    ensures tx.hash != k.txHash ==> CopyOf(tx, k) == []
    ensures forall r :: r in CopyOf(tx, k) ==> !r.cols.TxColumns?
  {
    var rows := TxTable(h, time, tx, TableOfKey(k));
    InWhere(rows, AtKey(k));
    forall r | r in rows ensures Belongs(r, h, tx.hash) && !r.cols.TxColumns? {
      TxTableOrigin(h, time, tx, TableOfKey(k), r);
    }
    if tx.hash != k.txHash { WhereNone(rows, AtKey(k)); }
  }

  /** Copies of the same rows, or the like: what counts is the first row. */
  predicate BeginsLike(rows: seq<Row>, copy: seq<Row>) { rows == [] || (copy != [] && rows[0] == copy[0]) }

  lemma {:induction false} ConcatBeginsLike(ss: seq<seq<Row>>, copy: seq<Row>)
    requires forall i :: 0 <= i < |ss| ==> BeginsLike(ss[i], copy)
    ensures BeginsLike(Concat(ss), copy)
    ensures forall i :: 0 <= i < |ss| && ss[i] != [] ==> Concat(ss) != []
  {
    if ss != [] {
      ConcatBeginsLike(ss[1..], copy);
      forall i | 0 <= i < |ss| && ss[i] != [] ensures Concat(ss) != [] {
        if i > 0 { assert ss[i] == ss[1..][i - 1]; }
      }
    }
  }

  /** The rows of the transactions of a block: copies of those of `tx`. */
  lemma WithinBlock(b: Block, tx: Tx, k: Key)
    requires IsEventKey(k) && k.txHash == tx.hash && forall y :: y in b.txs && y.hash == tx.hash ==> y == tx
    ensures BeginsLike(RowsAt(BlockTable(b, TableOfKey(k)), k), CopyOf(tx, k))
    ensures tx in b.txs && CopyOf(tx, k) != [] ==> RowsAt(BlockTable(b, TableOfKey(k)), k) != []
  {
    var ss := RowsByTx(b.height, b.time, b.txs, TableOfKey(k));
    var parts := WhereEach(ss, AtKey(k));
    WhereConcats(ss, AtKey(k));
    forall i | 0 <= i < |ss| ensures parts[i] == CopyOf(b.txs[i], k) && BeginsLike(parts[i], CopyOf(tx, k)) {
      CopyOfTx(b.height, b.time, b.txs[i], k);
      assert b.txs[i] in b.txs;
    }
    ConcatBeginsLike(parts, CopyOf(tx, k));
    if tx in b.txs && CopyOf(tx, k) != [] {
      var i :| 0 <= i < |b.txs| && b.txs[i] == tx;
      assert parts[i] != [];
    }
  }

  /** The rows of all blocks: again copies of those of `tx`. */
  lemma WithinBlocks(bs: seq<Block>, i: nat, tx: Tx, k: Key)
    requires IsEventKey(k) && k.txHash == tx.hash && i < |bs| && tx in bs[i].txs
    requires forall b, y :: b in bs && y in b.txs && y.hash == tx.hash ==> y == tx
    ensures var rows := RowsAt(BlocksTable(bs, TableOfKey(k)), k);
            BeginsLike(rows, CopyOf(tx, k)) && (CopyOf(tx, k) != [] ==> rows != [])
  {
    var ss := RowsByBlock(bs, TableOfKey(k));
    var parts := WhereEach(ss, AtKey(k));
    WhereConcats(ss, AtKey(k));
    forall l | 0 <= l < |ss|
      ensures BeginsLike(parts[l], CopyOf(tx, k))
      ensures l == i && CopyOf(tx, k) != [] ==> parts[l] != []
    {
      assert bs[l] in bs;
      WithinBlock(bs[l], tx, k);
    }
    ConcatBeginsLike(parts, CopyOf(tx, k));
    assert CopyOf(tx, k) != [] ==> parts[i] != [];
  }

  /** Where nothing is updated, the first row decides. */
  lemma MergeLike(rows: seq<Row>, copy: seq<Row>)
    requires BeginsLike(rows, copy) && (copy != [] ==> rows != []) && forall r :: r in copy ==> !r.cols.TxColumns?
    ensures MergeAll(None, rows) == MergeAll(None, copy)
  {
    if copy != [] {
      assert copy[0] in copy;
      FirstKept(rows[0].cols, rows[1..]);
      FirstKept(copy[0].cols, copy[1..]);
    }
  }

  /** What is stored under a key of an event table is up to the transaction with its hash. */
  lemma StoredOfTx(bs: seq<Block>, i: nat, j: nat, k: Key)
    requires SameTxs(bs) && i < |bs| && j < |bs[i].txs| && IsEventKey(k) && k.txHash == bs[i].txs[j].hash
    ensures Lookup(PersistBlocks(map[], bs), k) == MergeAll(None, CopyOf(bs[i].txs[j], k))
  {
    var tx := bs[i].txs[j];
    StoredUnder(bs, k);
    RowsAtTable(bs, k);
    SameAsFirst(bs, i, j);
    WithinBlocks(bs, i, tx, k);
    CopyOfTx(0, None, tx, k);
    MergeLike(RowsAt(BlocksTable(bs, TableOfKey(k)), k), CopyOf(tx, k));
  }

  lemma SameAsFirst(bs: seq<Block>, i: nat, j: nat)
    requires SameTxs(bs) && i < |bs| && j < |bs[i].txs|
    ensures forall b, y :: b in bs && y in b.txs && y.hash == bs[i].txs[j].hash ==> y == bs[i].txs[j]
  {
    forall b, y | b in bs && y in b.txs && y.hash == bs[i].txs[j].hash ensures y == bs[i].txs[j] {
      var i2 :| 0 <= i2 < |bs| && bs[i2] == b;
      var j2 :| 0 <= j2 < |b.txs| && b.txs[j2] == y;
      assert bs[i2].txs[j2].hash == bs[i].txs[j].hash;
    }
  }

  lemma RowsAtTable(bs: seq<Block>, k: Key)
    requires !k.DelegKey?
    ensures RowsAt(AllRows(bs), k) == RowsAt(BlocksTable(bs, TableOfKey(k)), k)
  {
    RowsAtAll(bs, k);
    assert !TableOfKey(k).StakeDeleg?;
  }

  // ------------------------------------------------------------------ narrowing down to one log and event

  lemma EventsWithinLog(hash: string, logs: seq<Log>, l: nat, k: Key)
    requires l < |logs| && DistinctLogs(logs) && k.EventKey? && k.msgIndex == logs[l].msgIndex
    ensures RowsAt(Concat(EventsByLog(hash, logs)), k) == RowsAt(EventRowsOfLog(hash, logs[l]), k)
  {
    WhereConcatSingle(EventsByLog(hash, logs), AtKey(k), l);
  }

  lemma AttrsWithinLog(hash: string, logs: seq<Log>, l: nat, k: Key)
    requires l < |logs| && DistinctLogs(logs) && k.AttrKey? && k.msgIndex == logs[l].msgIndex
    ensures RowsAt(Concat(AttrsByLog(hash, logs)), k) == RowsAt(Concat(AttrsByEvent(hash, logs[l])), k)
  {
    forall l2, r | 0 <= l2 < |logs| && l2 != l && r in AttrsByLog(hash, logs)[l2] ensures !AtKey(k)(r) {
      AttrRowOriginInLog(hash, logs[l2], r);
    }
    WhereConcatSingle(AttrsByLog(hash, logs), AtKey(k), l);
  }

  lemma AttrsWithinEvent(hash: string, log: Log, e: nat, key: string)
    requires e < |log.events|
    ensures var k := AttrKey(hash, log.msgIndex, e, key);
            RowsAt(Concat(AttrsByEvent(hash, log)), k) == RowsAt(AttrRowsOfEvent(hash, log.msgIndex, e, log.events[e].attrs), k)
  {
    WhereConcatSingle(AttrsByEvent(hash, log), AtKey(AttrKey(hash, log.msgIndex, e, key)), e);
  }

  lemma {:induction false} OneRowAt(rows: seq<Row>, e: nat, k: Key)
    requires e < |rows| && forall i :: 0 <= i < |rows| ==> (rows[i].key == k <==> i == e)
    ensures RowsAt(rows, k) == [rows[e]]
  {
    if e == 0 {
      WhereNone(rows[1..], AtKey(k));
    } else {
      OneRowAt(rows[1..], e - 1, k);
    }
  }

  lemma NoRowsAt(rows: seq<Row>, k: Key)
    requires forall r :: r in rows ==> r.key != k
    ensures RowsAt(rows, k) == []
  {
    WhereNone(rows, AtKey(k));
  }

  // ------------------------------------------------------------------ core.events

  /** The event that index `e` of the log `m` of a transaction denotes. */
  function EventAt(logs: seq<Log>, m: int, e: int): Option<TxEvent> {
    if logs == [] then None
    else if logs[0].msgIndex == m then if 0 <= e < |logs[0].events| then Some(logs[0].events[e]) else None
    else EventAt(logs[1..], m, e)
  }

  lemma {:induction false} EventAtIs(logs: seq<Log>, m: int, e: int) returns (l: nat)
    requires DistinctLogs(logs)
    ensures l <= |logs| && (l < |logs| ==> logs[l].msgIndex == m)
    ensures l == |logs| ==> EventAt(logs, m, e) == None && forall i :: 0 <= i < |logs| ==> logs[i].msgIndex != m
    ensures l < |logs| ==> EventAt(logs, m, e) == if 0 <= e < |logs[l].events| then Some(logs[l].events[e]) else None
  {
    if logs == [] || logs[0].msgIndex == m {
      l := 0;
    } else {
      l := EventAtIs(logs[1..], m, e);
      l := l + 1;
    }
  }

  function ColumnsOfEvent(ev: Option<TxEvent>): Option<Columns> {
    if ev.None? then None else Some(EventColumns(ev.value.eventType, ev.value.attrs))
  }

  lemma EventOfTx(hash: string, logs: seq<Log>, m: int, e: int)
    requires DistinctLogs(logs)
    ensures MergeAll(None, RowsAt(Concat(EventsByLog(hash, logs)), EventKey(hash, m, e))) == ColumnsOfEvent(EventAt(logs, m, e))
  {
    var k := EventKey(hash, m, e);
    var l := EventAtIs(logs, m, e);
    if l < |logs| {
      EventsWithinLog(hash, logs, l, k);
      if 0 <= e < |logs[l].events| {
        OneRowAt(EventRowsOfLog(hash, logs[l]), e, k);
      } else {
        NoRowsAt(EventRowsOfLog(hash, logs[l]), k);
      }
    } else {
      forall r | r in Concat(EventsByLog(hash, logs)) ensures r.key != k { InConcat(EventsByLog(hash, logs), r); }
      NoRowsAt(Concat(EventsByLog(hash, logs)), k);
    }
  }

  /** core.events holds exactly the events of the transaction's logs, each under its own key. */
  lemma EventsStored(bs: seq<Block>, i: nat, j: nat, m: int, e: int)
    requires SameTxs(bs) && DistinctAllLogs(bs) && i < |bs| && j < |bs[i].txs|
    ensures var tx := bs[i].txs[j];
            Lookup(PersistBlocks(map[], bs), EventKey(tx.hash, m, e)) == ColumnsOfEvent(EventAt(tx.logs, m, e))
  {
    StoredOfTx(bs, i, j, EventKey(bs[i].txs[j].hash, m, e));
    EventOfTx(bs[i].txs[j].hash, bs[i].txs[j].logs, m, e);
  }

  predicate HasEventRow(db: Db, hash: string, m: int, e: int) {
    EventKey(hash, m, e) in db && db[EventKey(hash, m, e)].EventColumns?
  }

  function EventOfRow(db: Db, hash: string, m: int, e: int): TxEvent
    requires HasEventRow(db, hash, m, e)
  {
    TxEvent(db[EventKey(hash, m, e)].eventType, db[EventKey(hash, m, e)].attributes)
  }

  /** SELECT of the events of one transaction and message, in the order of event_index, up to the first gap. */
  function ReadEvents(db: Db, hash: string, m: int, count: nat): seq<TxEvent>
    requires forall e :: 0 <= e < count ==> HasEventRow(db, hash, m, e)
  {
    seq(count, e requires 0 <= e < count && HasEventRow(db, hash, m, e) => EventOfRow(db, hash, m, e))
  }

  /** Nothing is lost: reading a log's events back gives its event list, and there are no rows besides. */
  lemma EventsReadBack(bs: seq<Block>, i: nat, j: nat, l: nat)
    requires SameTxs(bs) && DistinctAllLogs(bs) && i < |bs| && j < |bs[i].txs| && l < |bs[i].txs[j].logs|
    ensures var db, hash, log := PersistBlocks(map[], bs), bs[i].txs[j].hash, bs[i].txs[j].logs[l];
            && (forall e :: EventKey(hash, log.msgIndex, e) in db <==> 0 <= e < |log.events|)
            && (forall e :: 0 <= e < |log.events| ==> HasEventRow(db, hash, log.msgIndex, e))
            && ReadEvents(db, hash, log.msgIndex, |log.events|) == log.events
  {
    var db, tx := PersistBlocks(map[], bs), bs[i].txs[j];
    var log := tx.logs[l];
    forall e
      ensures EventKey(tx.hash, log.msgIndex, e) in db <==> 0 <= e < |log.events|
      ensures 0 <= e < |log.events| ==>
                db[EventKey(tx.hash, log.msgIndex, e)] == EventColumns(log.events[e].eventType, log.events[e].attrs)
    {
      EventsStored(bs, i, j, log.msgIndex, e);
      var l2 := EventAtIs(tx.logs, log.msgIndex, e);
      assert l2 == l;
    }
    assert ReadEvents(db, tx.hash, log.msgIndex, |log.events|) == log.events;
  }

  /**
   Reading core.events of an assembled block back gives, for every entry of the raw log of a transaction, its
   events, and the events of the transaction itself under -1.
   */
  lemma RawLogReadBack(bs: seq<Block>, i: nat, j: nat, raw: seq<RawEntry>, txLevel: seq<TxEvent>, n: nat)
    requires SameTxs(bs) && DistinctAllLogs(bs) && i < |bs| && j < |bs[i].txs|
    requires bs[i].txs[j].logs == PickLogs(AssembledTx(Some(raw), txLevel)) && (n < |raw| || (n == |raw| && txLevel != []))
    ensures var db, hash := PersistBlocks(map[], bs), bs[i].txs[j].hash;
            var m := if n == |raw| then -1
                     else if raw[n].msgIndex.Some? then raw[n].msgIndex.value
                     else if raw[n].msgIdx.Some? then raw[n].msgIdx.value else 0;
            var events := if n == |raw| then txLevel else if raw[n].events.Some? then raw[n].events.value else [];
            && (forall e :: EventKey(hash, m, e) in db <==> 0 <= e < |events|)
            && (forall e :: 0 <= e < |events| ==>
                  db[EventKey(hash, m, e)] == EventColumns(events[e].eventType, events[e].attrs))
  {
    AssembledLogsAre(raw, txLevel);
    EventsReadBack(bs, i, j, n);
    var db, tx := PersistBlocks(map[], bs), bs[i].txs[j];
    var log := tx.logs[n];
    forall e | 0 <= e < |log.events|
      ensures EventKey(tx.hash, log.msgIndex, e) in db
      ensures db[EventKey(tx.hash, log.msgIndex, e)] == EventColumns(log.events[e].eventType, log.events[e].attrs)
    {
      assert HasEventRow(db, tx.hash, log.msgIndex, e);
      assert ReadEvents(db, tx.hash, log.msgIndex, |log.events|)[e] == log.events[e];
    }
  }

  // ------------------------------------------------------------------ core.event_attrs

  function AttrOfEvent(ev: Option<TxEvent>, key: string): Option<Columns> {
    if ev.Some? && Occurs(ev.value.attrs, key) then Some(AttrColumns(FindAttr(ev.value.attrs, key))) else None
  }

  lemma AttrOfTx(hash: string, logs: seq<Log>, m: int, e: int, key: string)
    requires DistinctLogs(logs)
    ensures MergeAll(None, RowsAt(Concat(AttrsByLog(hash, logs)), AttrKey(hash, m, e, key))) == AttrOfEvent(EventAt(logs, m, e), key)
  {
    var k := AttrKey(hash, m, e, key);
    var l := EventAtIs(logs, m, e);
    if l < |logs| {
      AttrsWithinLog(hash, logs, l, k);
      if 0 <= e < |logs[l].events| {
        AttrsWithinEvent(hash, logs[l], e, key);
        FirstAttrWins(hash, m, e, logs[l].events[e].attrs, key);
      } else {
        forall r | r in Concat(AttrsByEvent(hash, logs[l])) ensures r.key != k { InConcat(AttrsByEvent(hash, logs[l]), r); }
        NoRowsAt(Concat(AttrsByEvent(hash, logs[l])), k);
      }
    } else {
      forall r | r in Concat(AttrsByLog(hash, logs)) ensures r.key != k {
        InConcat(AttrsByLog(hash, logs), r);
        var l2 :| 0 <= l2 < |logs| && r in AttrsByLog(hash, logs)[l2];
        AttrRowOriginInLog(hash, logs[l2], r);
      }
      NoRowsAt(Concat(AttrsByLog(hash, logs)), k);
    }
  }

  lemma AttrsStored(bs: seq<Block>, i: nat, j: nat, m: int, e: int, key: string)
    requires SameTxs(bs) && DistinctAllLogs(bs) && i < |bs| && j < |bs[i].txs|
    ensures var tx := bs[i].txs[j];
            Lookup(PersistBlocks(map[], bs), AttrKey(tx.hash, m, e, key)) == AttrOfEvent(EventAt(tx.logs, m, e), key)
  {
    StoredOfTx(bs, i, j, AttrKey(bs[i].txs[j].hash, m, e, key));
    AttrOfTx(bs[i].txs[j].hash, bs[i].txs[j].logs, m, e, key);
  }

  lemma UnknownHash(bs: seq<Block>, k: Key)
    requires IsEventKey(k) && forall i, j :: 0 <= i < |bs| && 0 <= j < |bs[i].txs| ==> bs[i].txs[j].hash != k.txHash
    ensures k !in PersistBlocks(map[], bs)
  {
    StoredKeys(map[], bs, k);
    forall r | r in AllRows(bs) ensures r.key != k {
      var i, t := FromAllRows(bs, r);
      BlockTableOrigin(bs[i], t, r);
    }
  }

  /** The index agrees with the events at one key: same presence, and the value that `findAttr` gives. */
  ghost predicate Agrees(db: Db, hash: string, m: int, e: int, key: string) {
    var ek, ak := EventKey(hash, m, e), AttrKey(hash, m, e, key);
    && (ek in db ==> db[ek].EventColumns?)
    && (ak in db <==> ek in db && Occurs(db[ek].attributes, key))
    && (ak in db ==> db[ak] == AttrColumns(FindAttr(db[ek].attributes, key)))
  }

  /** However rows were split over flushes and statements, the index agrees with the stored events everywhere. */
  lemma IndexAgreement(bs: seq<Block>, hash: string, m: int, e: int, key: string)
    requires SameTxs(bs) && DistinctAllLogs(bs)
    ensures Agrees(PersistBlocks(map[], bs), hash, m, e, key)
  {
    if i, j :| 0 <= i < |bs| && 0 <= j < |bs[i].txs| && bs[i].txs[j].hash == hash {
      EventsStored(bs, i, j, m, e);
      AttrsStored(bs, i, j, m, e, key);
    } else {
      UnknownHash(bs, EventKey(hash, m, e));
      UnknownHash(bs, AttrKey(hash, m, e, key));
    }
  }
}
