/** `parsing.ts` and `parse.ts`: attributes, coins, and the logs of a transaction. */
module Parsing {
  import opened Blocks

  // ------------------------------------------------------------------ attributes

  /** `findAttr`: the value of the first pair with this key. */
  function FindAttr(attrs: seq<Attr>, key: string): Option<string> {
    if attrs == [] then None else if attrs[0].key == key then attrs[0].value else FindAttr(attrs[1..], key)
  }

  predicate Occurs(attrs: seq<Attr>, key: string) { exists i :: 0 <= i < |attrs| && attrs[i].key == key }

  // ------------------------------------------------------------------ coins

  datatype Coin = Coin(amount: string, denom: string)

  predicate IsDigit(c: char) { '0' <= c <= '9' }

  predicate IsLetter(c: char) { 'a' <= c <= 'z' || 'A' <= c <= 'Z' }

  /** `\d+` */
  predicate IsAmount(s: string) { s != [] && forall i :: 0 <= i < |s| ==> IsDigit(s[i]) }

  predicate IsDenomChar(c: char) { IsLetter(c) || IsDigit(c) || c in "_/:-" }

  /** `[a-zA-Z/][\w/:-]*` */
  predicate IsDenom(s: string) { s != [] && (IsLetter(s[0]) || s[0] == '/') && forall i :: 0 <= i < |s| ==> IsDenomChar(s[i]) }

  /** Length of the run of digits that `s` begins with. */
  function Digits(s: string): (n: nat)
    ensures n <= |s| && (forall i :: 0 <= i < n ==> IsDigit(s[i])) && (n < |s| ==> !IsDigit(s[n]))
  {
    if s != [] && IsDigit(s[0]) then 1 + Digits(s[1..]) else 0
  }

  /** `parseCoin`: the digits are taken greedily, and a denomination never starts with one. */
  function ParseCoin(s: string): Option<Coin> {
    var n := Digits(s);
    if n > 0 && IsDenom(s[n..]) then Some(Coin(s[..n], s[n..])) else None
  }

  lemma CoinIff(s: string, c: Coin)
    ensures ParseCoin(s) == Some(c) <==> s == c.amount + c.denom && IsAmount(c.amount) && IsDenom(c.denom)
  {
    var n := Digits(s);
    if s == c.amount + c.denom && IsAmount(c.amount) && IsDenom(c.denom) {
      assert forall i :: 0 <= i < |c.amount| ==> s[i] == c.amount[i];
      assert s[|c.amount|] == c.denom[0];
      assert n == |c.amount|;
    }
    assert s == s[..n] + s[n..];
  }

  /** A text is a coin if and only if it is digits followed by a denomination, in one way only. */
  lemma ParseCoinIff(s: string, c: Coin)
    ensures ParseCoin(s) == Some(c) <==>
            && s == c.amount + c.denom && c.amount != "" && c.denom != ""
            && (forall i :: 0 <= i < |c.amount| ==> '0' <= c.amount[i] <= '9')
            && ('a' <= c.denom[0] <= 'z' || 'A' <= c.denom[0] <= 'Z' || c.denom[0] == '/')
            && forall i :: 0 <= i < |c.denom| ==>
                 || 'a' <= c.denom[i] <= 'z' || 'A' <= c.denom[i] <= 'Z' || '0' <= c.denom[i] <= '9'
                 || c.denom[i] == '_' || c.denom[i] == '/' || c.denom[i] == ':' || c.denom[i] == '-'
  {
    CoinIff(s, c);
    forall i | 0 <= i < |c.denom|
      ensures IsDenomChar(c.denom[i]) <==>
                || 'a' <= c.denom[i] <= 'z' || 'A' <= c.denom[i] <= 'Z' || '0' <= c.denom[i] <= '9'
                || c.denom[i] == '_' || c.denom[i] == '/' || c.denom[i] == ':' || c.denom[i] == '-'
    {
    }
  }

  // ------------------------------------------------------------------ logs

  /** An entry of the parsed `raw_log`; an index that is no finite number stands here as 0, which it becomes. */
  datatype RawEntry = RawEntry(msgIndex: Option<int>, msgIdx: Option<int>, events: Option<seq<TxEvent>>)

  /** A log in `tx_response.logs`: its index is null for the transaction-level events. */
  datatype CombinedLog = CombinedLog(msgIndex: Option<int>, events: Option<seq<TxEvent>>)

  function Else<T>(a: Option<T>, b: Option<T>): Option<T> { if a.Some? then a else b }

  function OrElse<T>(a: Option<T>, b: T): T { if a.Some? then a.value else b }

  /** `entry?.msg_index ?? entry?.msgIndex ?? 0` */
  function EntryIndex(e: RawEntry): int { OrElse(Else(e.msgIndex, e.msgIdx), 0) }

  /** `parseRawLogToStructured` behind JSON.parse; None is a text that is no JSON array. */
  function Structured(raw: Option<seq<RawEntry>>): seq<CombinedLog> {
    if raw.None? then []
    else
      seq(|raw.value|, i requires 0 <= i < |raw.value| =>
        CombinedLog(Some(EntryIndex(raw.value[i])), Some(OrElse(raw.value[i].events, []))))
  }

  /** `buildCombinedLogs`: the logs of the messages, and behind them the transaction-level events if there are any. */
  method BuildCombinedLogs(raw: Option<seq<RawEntry>>, txLevel: seq<TxEvent>) returns (combined: seq<CombinedLog>)
    ensures combined == Combined(raw, txLevel)
  {
    combined := Structured(raw);
    if |txLevel| > 0 { combined := combined + [CombinedLog(None, Some(txLevel))]; }
  }

  function Combined(raw: Option<seq<RawEntry>>, txLevel: seq<TxEvent>): seq<CombinedLog> {
    Structured(raw) + if txLevel == [] then [] else [CombinedLog(None, Some(txLevel))]
  }

  /** The places of a transaction in which `pickLogs` looks for logs and events. */
  datatype RawTx = RawTx(logsNormalized: Option<seq<Log>>, responseLogs: Option<seq<CombinedLog>>,
                         eventsNormalized: Option<seq<TxEvent>>, events: Option<seq<TxEvent>>)

  function LogOf(l: CombinedLog): Log { Log(OrElse(l.msgIndex, -1), OrElse(l.events, [])) }

  function LogsOf(ls: seq<CombinedLog>): seq<Log> { seq(|ls|, i requires 0 <= i < |ls| => LogOf(ls[i])) }

  function PickLogs(tx: RawTx): seq<Log> {
    if tx.logsNormalized.Some? then tx.logsNormalized.value
    else if tx.responseLogs.Some? then LogsOf(tx.responseLogs.value)
    else if tx.eventsNormalized.Some? then [Log(-1, tx.eventsNormalized.value)]
    else if tx.events.Some? then [Log(-1, tx.events.value)]
    else []
  }

  /** What `assembleTxObjects` puts into a transaction: combined logs, and nothing in the other places. */
  function AssembledTx(raw: Option<seq<RawEntry>>, txLevel: seq<TxEvent>): RawTx {
    RawTx(None, Some(Combined(raw, txLevel)), None, None)
  }

  predicate DistinctLogs(logs: seq<Log>) { forall i, j :: 0 <= i < j < |logs| ==> logs[i].msgIndex != logs[j].msgIndex }

  predicate DistinctEntries(raw: seq<RawEntry>) {
    forall i, j :: 0 <= i < j < |raw| ==> EntryIndex(raw[i]) != EntryIndex(raw[j])
  }

  predicate UsesIndex(raw: seq<RawEntry>, m: int) { exists i :: 0 <= i < |raw| && EntryIndex(raw[i]) == m }

  /** The entries of a raw log tell their indexes apart, and none has -1 beside events of the transaction itself. */
  predicate IndexesApart(raw: Option<seq<RawEntry>>, txLevel: seq<TxEvent>) {
    raw.Some? ==> DistinctEntries(raw.value) && (txLevel != [] ==> !UsesIndex(raw.value, -1))
  }

  /**
   The logs that the pipeline stores for a transaction are told apart by their index if and only if no two
   entries of its raw log have the same one, a missing one counting as 0, and none has -1 beside events of
   the transaction itself.
   */
  lemma PipelineLogsDistinctIff(raw: Option<seq<RawEntry>>, txLevel: seq<TxEvent>)
    ensures DistinctLogs(PickLogs(AssembledTx(raw, txLevel))) <==> IndexesApart(raw, txLevel)
  {
    var logs := PickLogs(AssembledTx(raw, txLevel));
    if raw.Some? {
      var n := |raw.value|;
      assert forall i :: 0 <= i < n ==> logs[i].msgIndex == EntryIndex(raw.value[i]);
      if txLevel != [] {
        assert logs[n].msgIndex == -1;
        if UsesIndex(raw.value, -1) {
          var i :| 0 <= i < n && EntryIndex(raw.value[i]) == -1;
          assert logs[i].msgIndex == logs[n].msgIndex;
        }
      }
      if DistinctLogs(logs) {
        forall i, j | 0 <= i < j < n ensures EntryIndex(raw.value[i]) != EntryIndex(raw.value[j]) {
          assert logs[i].msgIndex != logs[j].msgIndex;
        }
      }
    }
  }
  /**
   What the pipeline stores of a transaction: for every entry of its raw log a log with the events of that
   entry under its index, and behind them the events of the transaction itself under -1, if there are any.
   */
  lemma AssembledLogsAre(raw: seq<RawEntry>, txLevel: seq<TxEvent>)
    ensures var logs := PickLogs(AssembledTx(Some(raw), txLevel));
            && |logs| == (if txLevel == [] then |raw| else |raw| + 1)
            && (forall i :: 0 <= i < |raw| ==>
                  && logs[i].events == (if raw[i].events.Some? then raw[i].events.value else [])
                  && logs[i].msgIndex == (if raw[i].msgIndex.Some? then raw[i].msgIndex.value
                                          else if raw[i].msgIdx.Some? then raw[i].msgIdx.value else 0))
            && (txLevel != [] ==> logs[|raw|] == Log(-1, txLevel))
  {
  }

  /** Without a readable raw log only the events of the transaction itself are left. */
  lemma UnreadableLogs(txLevel: seq<TxEvent>)
    ensures PickLogs(AssembledTx(None, txLevel)) == if txLevel == [] then [] else [Log(-1, txLevel)]
  {
    var logs := PickLogs(AssembledTx(None, txLevel));
    assert |logs| == if txLevel == [] then 0 else 1;
  }
}
