/** Values shared by the pipeline and the sink: assembled blocks and their parts. */
module Blocks {

  datatype Option<+T> = None | Some(value: T)

  function Min(a: int, b: int): int { if a < b then a else b }

  function Max(a: int, b: int): int { if a < b then b else a }

  /** One `{ key, value }` pair of an event, as `attrsToPairs` leaves it. */
  datatype Attr = Attr(key: string, value: Option<string>)

  datatype TxEvent = TxEvent(eventType: string, attrs: seq<Attr>)

  /** One normalized log of a transaction; `msgIndex` is -1 for transaction-level events. */
  datatype Log = Log(msgIndex: int, events: seq<TxEvent>)

  /** A field of a message; a missing field and a null one are the same, `image` for numbers, booleans and bytes. */
  datatype Json = Text(text: string) | Items(items: seq<Json>) | Fields(fields: map<string, Json>) | Other(image: string)

  /** A decoded message: its type URL, and its fields. */
  datatype Msg = Msg(typeUrl: string, fields: map<string, Json>)
  {
    function Get(name: string): Option<Json> { if name in fields then Some(fields[name]) else None }
  }

  /** A row that is derived from one message or event of a transaction. */
  datatype Derived =
    | Transfer(msgIndex: int, fromAddr: string, toAddr: string, denom: string, amount: string)
    | Delegation(msgIndex: int, eventType: string, delegator: Option<string>, source: Option<string>, target: Option<string>,
                 coinDenom: Option<string>, coinAmount: Option<string>, completionTime: Option<string>)
    | Distribution(msgIndex: int, eventType: string, recipient: Option<string>, validator: Option<string>,
                   coinDenom: Option<string>, coinAmount: Option<string>, withdrawAddress: Option<string>)
    | WasmExec(msgIndex: int, execContract: Option<Json>, caller: Option<Json>, funds: Option<Json>, call: Option<Json>,
               success: bool, error: Option<string>, gasUsed: Option<int>)
    | WasmEvent(msgIndex: int, eventType: string, eventContract: string, attrs: seq<Attr>)

  /** `body` stands for the transaction columns that are copied unchanged; a null message is None. */
  datatype Tx = Tx(hash: string, index: int, code: int, gasUsed: Option<int>, logSummary: Option<string>, body: string,
                   signers: Option<seq<string>>, msgs: seq<Option<Msg>>, logs: seq<Log>)

  /** An assembled block; `header` stands for the block columns that are copied unchanged and may be null. */
  datatype Block = Block(height: int, blockHash: Option<string>, time: Option<string>, proposer: Option<string>,
                         header: string, txs: seq<Tx>)
}
