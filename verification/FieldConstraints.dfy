/** What the constraints of the derived tables ask of the messages and events of a block. */
module FieldConstraints {
  import opened Blocks
  import opened Sequences
  import opened Acceptance
  import opened Database
  import opened Derivation
  import opened Extraction
  import opened JsonText
  import opened Parsing
  import opened ReadBack

  lemma TransferHasLog(tx: Tx, d: Derived) returns (l: nat)
    requires d.Transfer? && d in Derive(tx)
    ensures l < |tx.logs| && d in Concat(DerivedByEvent(tx, tx.logs[l]))
  {
    var execs, logs := ExecsByMsg(tx), DerivedByLog(tx);
    InConcat(execs, d);
    InConcat(logs, d);
    l :| 0 <= l < |logs| && d in logs[l];
  }

  lemma TransferOfEvent(tx: Tx, m: int, ev: TxEvent, d: Derived)
    requires d.Transfer? && d in DeriveEvent(tx, m, ev)
    ensures d in TransferOf(m, ev)
  {
  }

  lemma TransferHasEvent(tx: Tx, d: Derived) returns (l: nat, e: nat)
    requires d.Transfer? && d in Derive(tx)
    ensures l < |tx.logs| && e < |tx.logs[l].events| && d in TransferOf(tx.logs[l].msgIndex, tx.logs[l].events[e])
  {
    l := TransferHasLog(tx, d);
    var parts := DerivedByEvent(tx, tx.logs[l]);
    InConcat(parts, d);
    e :| 0 <= e < |parts| && d in parts[e];
    TransferOfEvent(tx, tx.logs[l].msgIndex, tx.logs[l].events[e], d);
  }

  lemma EventHasTransfer(tx: Tx, d: Derived, l: nat, e: nat)
    requires l < |tx.logs| && e < |tx.logs[l].events| && d in TransferOf(tx.logs[l].msgIndex, tx.logs[l].events[e])
    ensures d in Derive(tx)
  {
    var parts := DerivedByEvent(tx, tx.logs[l]);
    assert d in parts[e];
    InConcat(parts, d);
    assert d in DerivedByLog(tx)[l];
    InConcat(DerivedByLog(tx), d);
  }

  /** Both addresses of every transfer have ten to 128 characters. */
  ghost predicate AddressesFit(tx: Tx) {
    forall l, e, from, to, denom, amount ::
      0 <= l < |tx.logs| && 0 <= e < |tx.logs[l].events| && Sends(tx.logs[l].events[e], from, to, denom, amount) ==>
        10 <= |from| <= 128 && 10 <= |to| <= 128
  }

  lemma TransfersFitIff(tx: Tx)
    ensures ItemsComplete(Derive(tx), Transfers) <==> AddressesFit(tx)
  {
    if AddressesFit(tx) {
      forall d | d in Derive(tx) && d.Transfer? ensures CompleteItem(d) {
        var l, e := TransferHasEvent(tx, d);
        TransferIff(tx.logs[l].msgIndex, tx.logs[l].events[e], d.fromAddr, d.toAddr, d.denom, d.amount);
        assert Sends(tx.logs[l].events[e], d.fromAddr, d.toAddr, d.denom, d.amount);
      }
    }
    if ItemsComplete(Derive(tx), Transfers) {
      forall l, e, from, to, denom, amount
        | 0 <= l < |tx.logs| && 0 <= e < |tx.logs[l].events| && Sends(tx.logs[l].events[e], from, to, denom, amount)
        ensures 10 <= |from| <= 128 && 10 <= |to| <= 128
      {
        var d := Transfer(tx.logs[l].msgIndex, from, to, denom, amount);
        TransferIff(tx.logs[l].msgIndex, tx.logs[l].events[e], from, to, denom, amount);
        EventHasTransfer(tx, d, l, e);
        assert CompleteItem(d);
      }
    }
  }

  /** bank.transfers accepts a block if and only if the addresses of all its transfers have ten to 128 characters. */
  lemma TransfersAcceptedIff(b: Block)
    ensures CompleteFor(b, Transfers) <==> forall tx :: tx in b.txs ==> AddressesFit(tx)
  {
    forall tx | tx in b.txs ensures TxCompleteFor(b.time, tx, Transfers) <==> AddressesFit(tx) { TransfersFitIff(tx); }
  }

  lemma CallsDerived(tx: Tx, d: Derived)
    requires d.WasmExec?
    ensures d in Derive(tx) <==> exists i :: 0 <= i < |tx.msgs| && d in ExecOf(tx, i)
  {
    var execs, logs := ExecsByMsg(tx), DerivedByLog(tx);
    InConcat(execs, d);
    InConcat(logs, d);
    forall l | 0 <= l < |logs| ensures d !in logs[l] { LogItems(tx, tx.logs[l]); }
    if i :| 0 <= i < |tx.msgs| && d in ExecOf(tx, i) { assert d in execs[i]; }
  }

  /** A field is JSON text, if it is a text. */
  predicate TextIsJson(m: Msg, name: string) { name in m.fields && m.fields[name].Text? ==> IsJson(m.fields[name].text) }

  /** Every contract call names its contract, has a message, and its texts for JSONB columns are JSON. */
  predicate CallsFit(tx: Tx) {
    forall i :: 0 <= i < |tx.msgs| && tx.msgs[i].Some? && tx.msgs[i].value.typeUrl == "/cosmwasm.wasm.v1.MsgExecuteContract" ==>
      var m := tx.msgs[i].value;
      && ("contract" in m.fields || "contract_address" in m.fields) && "msg" in m.fields
      && TextIsJson(m, "msg") && TextIsJson(m, "funds")
  }

  lemma CallsFitIff(tx: Tx)
    ensures ItemsComplete(Derive(tx), WasmExecs) <==> CallsFit(tx)
  {
    if CallsFit(tx) {
      forall d | d in Derive(tx) && d.WasmExec? ensures CompleteItem(d) {
        CallsDerived(tx, d);
        var i :| 0 <= i < |tx.msgs| && d in ExecOf(tx, i);
      }
    }
    if ItemsComplete(Derive(tx), WasmExecs) {
      forall i | 0 <= i < |tx.msgs| && tx.msgs[i].Some? && tx.msgs[i].value.typeUrl == "/cosmwasm.wasm.v1.MsgExecuteContract"
        ensures var m := tx.msgs[i].value;
                && ("contract" in m.fields || "contract_address" in m.fields) && "msg" in m.fields
                && TextIsJson(m, "msg") && TextIsJson(m, "funds")
      {
        var d := ExecOf(tx, i)[0];
        CallsDerived(tx, d);
        assert CompleteItem(d);
      }
    }
  }

  /** wasm.executions accepts a block if and only if all its contract calls are of that kind. */
  lemma CallsAcceptedIff(b: Block)
    ensures CompleteFor(b, WasmExecs) <==> forall tx :: tx in b.txs ==> CallsFit(tx)
  {
    forall tx | tx in b.txs ensures TxCompleteFor(b.time, tx, WasmExecs) <==> CallsFit(tx) { CallsFitIff(tx); }
  }
}
