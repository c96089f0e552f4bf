/** The main window's half of the wallet proxy: paywall/src/unlock.js/Wallet.ts. */
module WalletProxy {
  import opened Prelude
  import opened Web3Messages

  datatype State = State(
    hasWallet: bool, isMetamask: bool, useUserAccounts: bool, hasWeb3: bool,
    userAccountAddress: Option<string>, userAccountNetwork: int)

  /** The constructor followed by init. */
  function Start(hasWallet: bool, isMetamask: bool, unlockUserAccounts: bool, network: int): State {
    var useUserAccounts := !hasWallet && unlockUserAccounts;
    State(hasWallet, hasWallet && isMetamask, useUserAccounts, useUserAccounts, None, network)
  }

  function OnReady(w: State): (State, seq<Packet>) {
    if w.useUserAccounts then (w, [Info(Some(WalletInfo(false, false, false)))])
    else if !w.hasWallet then (w.(hasWeb3 := false), [Info(Some(WalletInfo(true, false, false)))])
    else (w.(hasWeb3 := true), [Enabling])
  }

  /** The rest of the ready handler, once the user has answered the wallet's prompt. */
  function OnEnabled(w: State, declined: bool): seq<Packet> {
    [Info(Some(WalletInfo(false, declined, w.isMetamask)))]
  }

  /** What the user-accounts wallet knows about a method. */
  function UserAccountsReply(w: State, id: nat, rpc: string): Packet {
    if rpc == "eth_accounts" then
      var addresses := if w.userAccountAddress.Some? && w.userAccountAddress.value != ""
                       then [w.userAccountAddress.value] else [];
      Reply(id, None, Some(Object(id, Accounts(addresses))))
    else if rpc == "net_version" then
      Reply(id, None, Some(Object(id, Network(w.userAccountNetwork))))
    else
      Reply(id, Some(Primitive("\"" + rpc + "\" is not supported")), None)
  }

  function OnWeb3(w: State, id: nat, call: Call): Packet {
    if w.useUserAccounts then UserAccountsReply(w, id, call.rpc)
    else if !w.hasWeb3 then Reply(id, Some(Primitive("No web3 wallet is available")), None)
    else AtWallet(id, call)
  }

  /** The callback that the crypto wallet calls with its answer. */
  function OnAnswer(id: nat, error: Value, result: Value): Packet {
    if error.Truthy() then Reply(id, Some(error), None) else Reply(id, None, Some(result))
  }

  class Wallet {
    const hasWallet: bool
    const isMetamask: bool
    const useUserAccounts: bool
    var hasWeb3: bool
    var userAccountAddress: Option<string>
    var userAccountNetwork: int
    var sent: seq<Packet>

    ghost function Now(): State
      reads this
    {
      State(hasWallet, isMetamask, useUserAccounts, hasWeb3, userAccountAddress, userAccountNetwork)
    }

    constructor (hasWallet: bool, isMetamask: bool, unlockUserAccounts: bool, network: int)
      ensures Now() == Start(hasWallet, isMetamask, unlockUserAccounts, network) && sent == []
    {
      this.hasWallet := hasWallet;
      this.isMetamask := hasWallet && isMetamask;
      this.useUserAccounts := !hasWallet && unlockUserAccounts;
      userAccountAddress, userAccountNetwork := None, network;
      hasWeb3 := false;
      sent := [];
      new;
      if useUserAccounts && !hasWallet {
        hasWeb3 := true;
      }
    }

    method UpdateAccount(account: Option<string>)
      modifies this`userAccountAddress
      ensures Now() == old(Now()).(userAccountAddress := account)
    {
      userAccountAddress := account;
    }

    method UpdateNetwork(network: int)
      modifies this`userAccountNetwork
      ensures Now() == old(Now()).(userAccountNetwork := network)
    {
      userAccountNetwork := network;
    }

    method HandleReady()
      modifies this`hasWeb3, this`sent
      ensures Now() == OnReady(old(Now())).0 && sent == old(sent) + OnReady(old(Now())).1
    {
      if useUserAccounts {
        sent := sent + [Info(Some(WalletInfo(false, false, false)))];
        return;
      }
      if !hasWallet {
        hasWeb3 := false;
        sent := sent + [Info(Some(WalletInfo(true, false, false)))];
        return;
      }
      hasWeb3 := true;
      sent := sent + [Enabling];
    }

    method ResumeReady(declined: bool)
      modifies this`sent
      ensures sent == old(sent) + OnEnabled(Now(), declined)
    {
      if declined {
        sent := sent + [Info(Some(WalletInfo(false, true, isMetamask)))];
        return;
      }
      sent := sent + [Info(Some(WalletInfo(false, false, isMetamask)))];
    }

    method HandleWeb3(id: nat, call: Call)
      modifies this`sent
      ensures sent == old(sent) + [OnWeb3(Now(), id, call)]
    {
      if useUserAccounts {
        if call.rpc == "eth_accounts" {
          if userAccountAddress.Some? && userAccountAddress.value != "" {
            PostResult(id, Accounts([userAccountAddress.value]));
          } else {
            PostResult(id, Accounts([]));
          }
        } else if call.rpc == "net_version" {
          PostResult(id, Network(userAccountNetwork));
        } else {
          sent := sent + [Reply(id, Some(Primitive("\"" + call.rpc + "\" is not supported")), None)];
        }
      } else if !hasWeb3 {
        sent := sent + [Reply(id, Some(Primitive("No web3 wallet is available")), None)];
      } else {
        sent := sent + [AtWallet(id, call)];
      }
    }

    method HandleAnswer(id: nat, error: Value, result: Value)
      modifies this`sent
      ensures sent == old(sent) + [OnAnswer(id, error, result)]
    {
      if error.Truthy() {
        sent := sent + [Reply(id, Some(error), None)];
      } else {
        sent := sent + [Reply(id, None, Some(result))];
      }
    }

    method PostResult(id: nat, result: Body)
      modifies this`sent
      ensures sent == old(sent) + [Reply(id, None, Some(Object(id, result)))]
    {
      sent := sent + [Reply(id, None, Some(Object(id, result)))];
    }
  }
}
