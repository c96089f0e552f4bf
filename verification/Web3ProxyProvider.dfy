/** The iframe's half of the wallet proxy: paywall/src/providers/Web3ProxyProvider.js. */
module ProxyProvider {
  import opened Prelude
  import opened Web3Messages

  /**
   * The provider's fields, with two histories: the callbacks called so far, and the
   * callbacks that were taken out of the table by a handler that then threw.
   */
  datatype State = State(
    waiting: bool, noWallet: bool, notEnabled: bool, isMetamask: bool,
    id: nat, requests: map<nat, Callback>,
    fired: seq<Firing>, orphaned: seq<Callback>)

  const START := State(true, true, false, false, 0, map[], [], [])

  function OnWalletInfo(p: State, info: Option<WalletInfo>): State {
    if info.None? then p
    else p.(isMetamask := info.value.isMetamask, noWallet := info.value.noWallet,
            notEnabled := info.value.notEnabled, waiting := false)
  }

  /** A response object gets the id that ethers expects; any other value stays as it is. */
  function Relabel(result: Value): Value {
    if result.Object? then result.(id := 42) else result
  }

  function OnWeb3(p: State, id: nat, error: Option<Value>, result: Option<Value>): State {
    if (error.None? && result.None?) || id !in p.requests then p
    else
      var rest := p.(requests := p.requests - {id});
      var value := ResultIn(result);
      // writing the id of a value that holds no properties throws, and the callback is gone
      if value.Primitive? then rest.(orphaned := p.orphaned + [p.requests[id]])
      else rest.(fired := p.fired + [Firing(p.requests[id], Answer(ErrorIn(error), Relabel(value)))])
  }

  /** sendAsync up to its await: a fresh id. */
  function Issue(p: State): State {
    p.(id := p.id + 1)
  }

  /** sendAsync after its await: refuse, or register and post. */
  function Resume(p: State, id: nat, call: Call, callback: Callback): (State, seq<Packet>) {
    if p.noWallet then (p.(fired := p.fired + [Firing(callback, NoWalletError)]), [])
    else if p.notEnabled then (p.(fired := p.fired + [Firing(callback, NotEnabledError)]), [])
    else (p.(requests := p.requests[id := callback]), [Request(id, call)])
  }

  class Web3ProxyProvider {
    var waiting: bool
    var noWallet: bool
    var notEnabled: bool
    var isMetamask: bool
    var id: nat
    var requests: map<nat, Callback>
    var posted: seq<Packet>
    var fired: seq<Firing>
    ghost var orphaned: seq<Callback>

    ghost function Now(): State
      reads this
    {
      State(waiting, noWallet, notEnabled, isMetamask, id, requests, fired, orphaned)
    }

    constructor ()
      ensures Now() == START
      ensures posted == [ReadyWeb3]
    {
      waiting := true;
      notEnabled, isMetamask := false, false;
      id := 0;
      requests := map[];
      noWallet := true;
      posted := [ReadyWeb3];
      fired, orphaned := [], [];
    }

    method HandleWalletInfo(walletInfo: Option<WalletInfo>)
      modifies this
      ensures Now() == OnWalletInfo(old(Now()), walletInfo)
      ensures posted == old(posted)
    {
      if walletInfo.None? {
        return;
      }
      isMetamask := walletInfo.value.isMetamask;
      noWallet := walletInfo.value.noWallet;
      notEnabled := walletInfo.value.notEnabled;
      waiting := false;
    }

    /** The handler of a wallet result; threw tells that it ended in a TypeError. */
    method HandleWeb3(replyId: nat, error: Option<Value>, result: Option<Value>) returns (threw: bool)
      modifies this
      ensures Now() == OnWeb3(old(Now()), replyId, error, result)
      ensures threw ==> fired == old(fired) && requests == old(requests) - {replyId}
      ensures !threw && (error.Some? || result.Some?) && replyId in old(requests) ==>
        |fired| == |old(fired)| + 1 && fired[|fired| - 1].callback == old(requests)[replyId]
      ensures posted == old(posted)
    {
      threw := false;
      if error.None? && result.None? {
        return;
      }
      if replyId !in requests {
        return;
      }
      var callback := requests[replyId];
      requests := requests - {replyId};
      var value := ResultIn(result);
      if value.Truthy() {
        if value.Primitive? {
          orphaned := orphaned + [callback];
          return true;
        }
        value := value.(id := 42);
      }
      fired := fired + [Firing(callback, Answer(ErrorIn(error), value))];
    }

    method SendAsync() returns (ticket: nat)
      modifies this`id
      ensures Now() == Issue(old(Now())) && ticket == old(id) + 1
    {
      id := id + 1;
      ticket := id;
    }

    method ResumeSendAsync(ticket: nat, call: Call, callback: Callback)
      requires !waiting
      modifies this
      ensures Now() == Resume(old(Now()), ticket, call, callback).0
      ensures posted == old(posted) + Resume(old(Now()), ticket, call, callback).1
    {
      if noWallet {
        fired := fired + [Firing(callback, NoWalletError)];
        return;
      }
      if notEnabled {
        fired := fired + [Firing(callback, NotEnabledError)];
        return;
      }
      requests := requests[ticket := callback];
      posted := posted + [Request(ticket, call)];
    }
  }
}
