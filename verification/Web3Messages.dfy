/**
 * What travels between the data iframe and the main window while the iframe
 * borrows the main window's wallet.
 */
module Web3Messages {
  import opened Prelude

  /** The body of a JSON-RPC response object, or an answer of any other shape. */
  datatype Body = Accounts(addresses: seq<string>) | Network(number: int) | Other(text: string)

  /** A JavaScript value as the two ends tell values apart. */
  datatype Value =
    | Undefined
    | Falsy(text: string)              // null, false, 0, ""
    | Primitive(text: string)          // any other value without properties
    | Object(id: int, body: Body)      // a response object with its own id
  {
    predicate Truthy() {
      Primitive? || Object?
    }
  }

  const NULL: Value := Falsy("null")

  datatype Params = Array(items: seq<string>) | NotArray
  datatype Call = Call(rpc: string, params: Params)

  /** The data iframe's emitter passes on well-formed calls only. */
  predicate WellFormed(call: Call) {
    call.rpc != "" && call.params.Array?
  }

  datatype WalletInfo = WalletInfo(noWallet: bool, notEnabled: bool, isMetamask: bool)

  /** A callback is named by whoever passed it to sendAsync. */
  datatype Callback = Callback(tag: nat)

  /** What a callback was called with. */
  datatype Outcome = NoWalletError | NotEnabledError | Answer(error: Value, result: Value)
  datatype Firing = Firing(callback: Callback, outcome: Outcome)

  /**
   * Everything that is under way between the two windows. The first two go to the
   * main window, the last two come from it; the middle two are suspended there.
   */
  datatype Packet =
    | ReadyWeb3
    | Request(id: nat, call: Call)
    | Enabling
    | AtWallet(id: nat, call: Call)
    | Info(info: Option<WalletInfo>)
    | Reply(id: nat, error: Option<Value>, result: Option<Value>)

  /** The error and the result that a reply's properties are read as. */
  function ErrorIn(error: Option<Value>): Value {
    if error.None? || error.value.Undefined? then NULL else error.value
  }

  function ResultIn(result: Option<Value>): Value {
    if result.None? then Undefined else result.value
  }
}
