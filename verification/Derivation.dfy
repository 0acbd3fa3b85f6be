/** The rows that `extractRows` derives from single messages and events of a transaction. */
module Derivation {
  import opened Blocks
  import opened Parsing
  import opened Sequences

  predicate Truthy(s: Option<string>) { s.Some? && s.value != "" }

  // ------------------------------------------------------------------ messages

  function GetText(m: Msg, name: string): Option<string> {
    if m.Get(name).Some? && m.Get(name).value.Text? then Some(m.Get(name).value.text) else None
  }

  /** The fields that `collectSignersFromMessages` looks at, in its order. */
  const SIGNER_FIELDS: seq<string> := ["signer", "from_address", "delegator_address", "validator_address", "authority",
                                       "admin", "granter", "grantee", "sender", "creator"]

  function FirstSignerIn(m: Msg, names: seq<string>): Option<string> {
    if names == [] then None
    else if GetText(m, names[0]).Some? && |GetText(m, names[0]).value| >= 10 then GetText(m, names[0])
    else FirstSignerIn(m, names[1..])
  }

  function FirstCollected(msgs: seq<Option<Msg>>): Option<string> {
    if msgs == [] then None
    else
      var s := if msgs[0].Some? then FirstSignerIn(msgs[0].value, SIGNER_FIELDS) else None;
      if s.Some? then s else FirstCollected(msgs[1..])
  }

  function FirstSigner(tx: Tx): Option<string> {
    if tx.signers.Some? && tx.signers.value != [] then Some(tx.signers.value[0]) else FirstCollected(tx.msgs)
  }

  const EXECUTE := "/cosmwasm.wasm.v1.MsgExecuteContract"

  /** The row of wasm.executions of message `i`. */
  function ExecOf(tx: Tx, i: nat): seq<Derived>
    requires i < |tx.msgs|
  {
    if tx.msgs[i].None? || tx.msgs[i].value.typeUrl != EXECUTE then []
    else
      var m := tx.msgs[i].value;
      [WasmExec(i, Else(m.Get("contract"), m.Get("contract_address")), m.Get("sender"), m.Get("funds"), m.Get("msg"),
                tx.code == 0, if tx.code == 0 then None else tx.logSummary, tx.gasUsed)]
  }

  // ------------------------------------------------------------------ events

  /** Transfers name a sender, a recipient and one coin; what does not is left out. */
  function TransferOf(m: int, ev: TxEvent): seq<Derived> {
    var sender, recipient := FindAttr(ev.attrs, "sender"), FindAttr(ev.attrs, "recipient");
    var coin := ParseCoin(OrElse(FindAttr(ev.attrs, "amount"), ""));
    if ev.eventType == "transfer" && Truthy(sender) && Truthy(recipient) && coin.Some?
    then [Transfer(m, sender.value, recipient.value, coin.value.denom, coin.value.amount)] else []
  }

  const DELEGATION_EVENTS: seq<string> := ["delegate", "redelegate", "unbond", "complete_unbonding"]

  predicate Includes(s: string, part: string) { exists i :: 0 <= i <= |s| && part <= s[i..] }

  /** `if (!a && typeof text === 'string') a = text` */
  function Filled(a: Option<string>, text: Option<string>): Option<string> { if !Truthy(a) && text.Some? then text else a }

  /** What a delegation event says of itself, and what its message adds. */
  datatype Stake = Stake(delegator: Option<string>, validator: Option<string>, source: Option<string>, target: Option<string>,
                         coin: Option<Coin>)

  function FromEvent(attrs: seq<Attr>): Stake {
    Stake(FindAttr(attrs, "delegator"), FindAttr(attrs, "validator"), FindAttr(attrs, "source_validator"),
          FindAttr(attrs, "destination_validator"),
          ParseCoin(OrElse(Else(FindAttr(attrs, "amount"), FindAttr(attrs, "completion_amount")), "")))
  }

  function CoinOfFields(j: Json): Option<Coin> {
    if j.Fields? && "amount" in j.fields && "denom" in j.fields && j.fields["amount"].Text? && j.fields["denom"].Text?
    then Some(Coin(j.fields["amount"].text, j.fields["denom"].text)) else None
  }

  /** The amount of a message: one coin, or a list of which the first is taken. */
  function CoinOfMsg(amount: Option<Json>): Option<Coin> {
    if amount.None? then None
    else if amount.value.Items? && amount.value.items != [] then CoinOfFields(amount.value.items[0])
    else CoinOfFields(amount.value)
  }

  predicate Sparse(s: Stake) { !Truthy(s.delegator) || !Truthy(s.source) || !Truthy(s.target) || s.coin.None? }

  /** The fallbacks from the message that the event belongs to; a null message has no fields. */
  function WithMessage(s: Stake, msg: Option<Msg>): Stake {
    var m := if msg.Some? then msg.value else Msg("", map[]);
    var delegator := Filled(s.delegator, GetText(m, "delegator_address"));
    var coin := if s.coin.Some? then s.coin else CoinOfMsg(m.Get("amount"));
    if Includes(m.typeUrl, "MsgBeginRedelegate") then
      Stake(delegator, s.validator, Filled(s.source, GetText(m, "source_validator_address")),
            Filled(s.target, GetText(m, "destination_validator_address")), coin)
    else if Includes(m.typeUrl, "MsgDelegate") || Includes(m.typeUrl, "MsgUndelegate") then
      var validator := Filled(s.validator, GetText(m, "validator_address"));
      Stake(delegator, validator, s.source, if Truthy(s.target) then s.target else Else(validator, s.target), coin)
    else Stake(delegator, s.validator, s.source, s.target, coin)
  }

  function StakeOf(tx: Tx, m: int, attrs: seq<Attr>): Stake {
    var s := FromEvent(attrs);
    if Sparse(s) && 0 <= m < |tx.msgs| then WithMessage(s, tx.msgs[m]) else s
  }

  function DenomOf(c: Option<Coin>): Option<string> { if c.Some? then Some(c.value.denom) else None }

  function AmountOf(c: Option<Coin>): Option<string> { if c.Some? then Some(c.value.amount) else None }

  function DelegationOf(tx: Tx, m: int, ev: TxEvent): seq<Derived> {
    if ev.eventType !in DELEGATION_EVENTS then []
    else
      var s := StakeOf(tx, m, ev.attrs);
      var time := FindAttr(ev.attrs, "completion_time");
      [Delegation(m, ev.eventType, Else(s.delegator, FirstSigner(tx)), s.source, Else(s.target, s.validator),
                  DenomOf(s.coin), AmountOf(s.coin), if Truthy(time) then time else None)]
  }

  const DISTRIBUTION_EVENTS: seq<string> := ["withdraw_rewards", "withdraw_commission", "set_withdraw_address"]

  function DistributionOf(m: int, ev: TxEvent): seq<Derived> {
    if ev.eventType !in DISTRIBUTION_EVENTS then []
    else
      var coin := ParseCoin(OrElse(FindAttr(ev.attrs, "amount"), ""));
      [Distribution(m, ev.eventType, FindAttr(ev.attrs, "delegator"),
                    Else(FindAttr(ev.attrs, "validator"), FindAttr(ev.attrs, "validator_address")), DenomOf(coin), AmountOf(coin),
                    Else(FindAttr(ev.attrs, "withdraw_address"), FindAttr(ev.attrs, "withdraw_address_old")))]
  }

  function WasmEventOf(m: int, ev: TxEvent): seq<Derived> {
    var contract := Else(FindAttr(ev.attrs, "_contract_address"), FindAttr(ev.attrs, "contract_address"));
    if ev.eventType == "wasm" && Truthy(contract) then [WasmEvent(m, ev.eventType, contract.value, ev.attrs)] else []
  }

  function DeriveEvent(tx: Tx, m: int, ev: TxEvent): seq<Derived> {
    TransferOf(m, ev) + DelegationOf(tx, m, ev) + DistributionOf(m, ev) + WasmEventOf(m, ev)
  }

  function ExecsByMsg(tx: Tx): seq<seq<Derived>> { seq(|tx.msgs|, i requires 0 <= i < |tx.msgs| => ExecOf(tx, i)) }

  function DerivedByEvent(tx: Tx, log: Log): seq<seq<Derived>> {
    seq(|log.events|, i requires 0 <= i < |log.events| => DeriveEvent(tx, log.msgIndex, log.events[i]))
  }

  function DerivedByLog(tx: Tx): seq<seq<Derived>> {
    seq(|tx.logs|, i requires 0 <= i < |tx.logs| => Concat(DerivedByEvent(tx, tx.logs[i])))
  }

  /** All derived rows of a transaction: those of its messages, then those of its events. */
  function Derive(tx: Tx): seq<Derived> { Concat(ExecsByMsg(tx)) + Concat(DerivedByLog(tx)) }

  // ------------------------------------------------------------------ what the derived rows mean

  /** An event yields a transfer row exactly if it is a transfer whose amount is written as amount and denomination. */
  lemma TransferIff(m: int, ev: TxEvent, sender: string, recipient: string, denom: string, amount: string)
    ensures Transfer(m, sender, recipient, denom, amount) in TransferOf(m, ev) <==>
            && ev.eventType == "transfer" && sender != "" && recipient != ""
            && FindAttr(ev.attrs, "sender") == Some(sender) && FindAttr(ev.attrs, "recipient") == Some(recipient)
            && FindAttr(ev.attrs, "amount") == Some(amount + denom) && IsAmount(amount) && IsDenom(denom)
  {
    var text := OrElse(FindAttr(ev.attrs, "amount"), "");
    CoinIff(text, Coin(amount, denom));
  }

  /** What the event says is taken. */
  lemma EventComesFirst(tx: Tx, m: int, ev: TxEvent)
    requires ev.eventType in DELEGATION_EVENTS
    ensures |DelegationOf(tx, m, ev)| == 1
    ensures var d, s := DelegationOf(tx, m, ev)[0], FromEvent(ev.attrs);
            && (Truthy(s.delegator) ==> d.delegator == s.delegator)
            && (Truthy(s.source) ==> d.source == s.source)
            && (Truthy(s.target) ==> d.target == s.target)
            && (s.coin.Some? ==> d.coinDenom == Some(s.coin.value.denom) && d.coinAmount == Some(s.coin.value.amount))
  {
  }

  /** The message of index `m` has text `value` in one of these fields. */
  predicate MessageSays(tx: Tx, m: int, names: set<string>, value: Option<string>) {
    && 0 <= m < |tx.msgs| && tx.msgs[m].Some?
    && exists name <- names :: GetText(tx.msgs[m].value, name) == value
  }

  lemma ValidatorsFromMessage(tx: Tx, m: int, attrs: seq<Attr>)
    ensures var t, s := StakeOf(tx, m, attrs), FromEvent(attrs);
            && (s.source.None? && t.source.Some? ==> MessageSays(tx, m, {"source_validator_address"}, t.source))
            && (s.target.None? && s.validator.None? && Else(t.target, t.validator).Some? ==>
                  MessageSays(tx, m, {"destination_validator_address", "validator_address"}, Else(t.target, t.validator)))
  {
  }

  lemma CoinFromMessage(tx: Tx, m: int, attrs: seq<Attr>)
    ensures var t, s := StakeOf(tx, m, attrs), FromEvent(attrs);
            s.coin.None? && t.coin.Some? ==>
              0 <= m < |tx.msgs| && tx.msgs[m].Some? && CoinOfMsg(tx.msgs[m].value.Get("amount")) == t.coin
  {
  }

  /**
   What the event does not say comes from the event's own message, or is missing; a delegator that is named
   by neither is the first signer.
   */
  lemma MessageFillsIn(tx: Tx, m: int, ev: TxEvent)
    requires ev.eventType in DELEGATION_EVENTS
    ensures var d, s := DelegationOf(tx, m, ev)[0], FromEvent(ev.attrs);
            && (s.delegator.None? && d.delegator.Some? ==>
                  MessageSays(tx, m, {"delegator_address"}, d.delegator) || d.delegator == FirstSigner(tx))
            && (s.source.None? && d.source.Some? ==> MessageSays(tx, m, {"source_validator_address"}, d.source))
            && (s.target.None? && s.validator.None? && d.target.Some? ==>
                  MessageSays(tx, m, {"destination_validator_address", "validator_address"}, d.target))
            && (s.coin.None? && d.coinAmount.Some? ==>
                  && 0 <= m < |tx.msgs| && tx.msgs[m].Some? && d.coinDenom.Some?
                  && CoinOfMsg(tx.msgs[m].value.Get("amount")) == Some(Coin(d.coinAmount.value, d.coinDenom.value)))
  {
    ValidatorsFromMessage(tx, m, ev.attrs);
    CoinFromMessage(tx, m, ev.attrs);
  }
  predicate Missing(attrs: seq<Attr>, name: string) { FindAttr(attrs, name) == None || FindAttr(attrs, name) == Some("") }

  predicate HasText(m: Msg, name: string, text: string) { name in m.fields && m.fields[name] == Text(text) }

  /** The coin of a message: one object, or the first of a list. */
  predicate HasCoin(m: Msg, c: Coin) {
    "amount" in m.fields &&
    var j := m.fields["amount"];
    CoinObject(j, c) || (j.Items? && j.items != [] && CoinObject(j.items[0], c))
  }

  predicate CoinObject(j: Json, c: Coin) {
    j.Fields? && "amount" in j.fields && "denom" in j.fields && j.fields["amount"] == Text(c.amount) && j.fields["denom"] == Text(c.denom)
  }

  /** An event without delegator or coin gets those of its own message, if that has them. */
  lemma MessageIsUsed(tx: Tx, m: int, ev: TxEvent, text: string, c: Coin)
    requires ev.eventType in DELEGATION_EVENTS && 0 <= m < |tx.msgs| && tx.msgs[m].Some?
    ensures var d, msg := DelegationOf(tx, m, ev)[0], tx.msgs[m].value;
            && (Missing(ev.attrs, "delegator") && HasText(msg, "delegator_address", text) ==> d.delegator == Some(text))
            && (FromEvent(ev.attrs).coin.None? && HasCoin(msg, c) ==> d.coinAmount == Some(c.amount) && d.coinDenom == Some(c.denom))
  {
  }

  /** A redelegation without validators gets those of its message, other delegations its validator as target. */
  lemma MessageValidators(tx: Tx, m: int, ev: TxEvent, text: string)
    requires ev.eventType in DELEGATION_EVENTS && 0 <= m < |tx.msgs| && tx.msgs[m].Some?
    ensures var d, msg := DelegationOf(tx, m, ev)[0], tx.msgs[m].value;
            if Includes(msg.typeUrl, "MsgBeginRedelegate") then
              && (Missing(ev.attrs, "source_validator") && HasText(msg, "source_validator_address", text) ==> d.source == Some(text))
              && (Missing(ev.attrs, "destination_validator") && HasText(msg, "destination_validator_address", text) ==>
                    d.target == Some(text))
            else if Includes(msg.typeUrl, "MsgDelegate") || Includes(msg.typeUrl, "MsgUndelegate") then
              Missing(ev.attrs, "destination_validator") && Missing(ev.attrs, "validator") && HasText(msg, "validator_address", text) ==>
                d.target == Some(text)
            else true
  {
  }

  /** One of these fields has a text of at least ten characters. */
  predicate Signs(m: Msg, names: seq<string>, i: nat, s: string) { i < |names| && HasText(m, names[i], s) && |s| >= 10 }

  predicate NobodySigns(m: Msg, names: seq<string>) {
    forall name <- names :: name in m.fields && m.fields[name].Text? ==> |m.fields[name].text| < 10
  }

  /** `s` is what the first of these fields with such a text has. */
  predicate SignerOfMsg(m: Msg, names: seq<string>, s: string) {
    exists i :: 0 <= i < |names| && Signs(m, names, i, s) && NobodySigns(m, names[..i])
  }

  lemma {:induction false} FirstSignerInIs(m: Msg, names: seq<string>)
    ensures FirstSignerIn(m, names).None? <==> NobodySigns(m, names)
    ensures FirstSignerIn(m, names).Some? ==> SignerOfMsg(m, names, FirstSignerIn(m, names).value)
  {
    if names != [] {
      FirstSignerInIs(m, names[1..]);
      assert names == [names[0]] + names[1..];
      var s := FirstSignerIn(m, names);
      if GetText(m, names[0]).Some? && |GetText(m, names[0]).value| >= 10 {
        assert Signs(m, names, 0, s.value);
      } else if s.Some? {
        var i :| 0 <= i < |names[1..]| && Signs(m, names[1..], i, s.value) && NobodySigns(m, names[1..][..i]);
        assert names[..i + 1] == [names[0]] + names[1..][..i];
        assert Signs(m, names, i + 1, s.value);
      }
    }
  }

  lemma {:induction false} FirstCollectedIs(msgs: seq<Option<Msg>>)
    ensures var s := FirstCollected(msgs);
            && (s.None? ==> forall m :: m in msgs && m.Some? ==> NobodySigns(m.value, SIGNER_FIELDS))
            && (s.Some? ==> exists i :: 0 <= i < |msgs| && msgs[i].Some? && SignerOfMsg(msgs[i].value, SIGNER_FIELDS, s.value) &&
                              forall l :: 0 <= l < i && msgs[l].Some? ==> NobodySigns(msgs[l].value, SIGNER_FIELDS))
  {
    if msgs != [] {
      FirstCollectedIs(msgs[1..]);
      assert forall i :: 0 < i < |msgs| ==> msgs[i] == msgs[1..][i - 1];
      if msgs[0].Some? { FirstSignerInIs(msgs[0].value, SIGNER_FIELDS); }
      var s := FirstCollected(msgs);
      if s.Some? && !(msgs[0].Some? && FirstSignerIn(msgs[0].value, SIGNER_FIELDS).Some?) {
        var rest := msgs[1..];
        var i :| 0 <= i < |rest| && rest[i].Some? && SignerOfMsg(rest[i].value, SIGNER_FIELDS, s.value) &&
                 forall l :: 0 <= l < i && rest[l].Some? ==> NobodySigns(rest[l].value, SIGNER_FIELDS);
        assert msgs[i + 1].Some? && SignerOfMsg(msgs[i + 1].value, SIGNER_FIELDS, s.value);
      }
    }
  }

  /**
   The first signer is the first of the transaction's own list, or else what the first message with a signer
   has in the first of the known fields.
   */
  lemma FirstSignerIs(tx: Tx)
    ensures tx.signers.Some? && tx.signers.value != [] ==> FirstSigner(tx) == Some(tx.signers.value[0])
    ensures var names := ["signer", "from_address", "delegator_address", "validator_address", "authority", "admin", "granter",
                          "grantee", "sender", "creator"];
            var s := FirstSigner(tx);
            tx.signers.None? || tx.signers.value == [] ==>
              && (s.None? ==> forall m :: m in tx.msgs && m.Some? ==> NobodySigns(m.value, names))
              && (s.Some? ==> exists i :: 0 <= i < |tx.msgs| && tx.msgs[i].Some? && SignerOfMsg(tx.msgs[i].value, names, s.value) &&
                                forall l :: 0 <= l < i && tx.msgs[l].Some? ==> NobodySigns(tx.msgs[l].value, names))
  {
    FirstCollectedIs(tx.msgs);
  }
  /** A delegation without a target has its validator as target, unless its message is a redelegation. */
  lemma ValidatorIsTarget(tx: Tx, m: int, ev: TxEvent, validator: string)
    requires ev.eventType in DELEGATION_EVENTS && FindAttr(ev.attrs, "destination_validator").None?
    requires FindAttr(ev.attrs, "validator") == Some(validator) && validator != ""
    requires 0 <= m < |tx.msgs| && tx.msgs[m].Some? ==> !Includes(tx.msgs[m].value.typeUrl, "MsgBeginRedelegate")
    ensures DelegationOf(tx, m, ev)[0].target == Some(validator)
  {
    if 0 <= m < |tx.msgs| && tx.msgs[m].None? { NothingIncluded("MsgBeginRedelegate"); }
  }

  lemma NothingIncluded(part: string)
    requires part != ""
    ensures !Includes("", part)
  {
  }
}
