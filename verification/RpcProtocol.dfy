/**
 * The wallet proxy as a protocol of two windows. An event is one turn of either
 * window's event loop: a call, the resumption of a suspended call, or the arrival of
 * one of the packets under way, in any order. Faulty events repeat or lose a packet.
 */
module RpcProtocol {
  import opened Prelude
  import opened Web3Messages
  import P = ProxyProvider
  import W = WalletProxy

  /** An answer that a wallet gave to a call. */
  datatype Record = Record(id: nat, call: Call, error: Value, result: Value)

  datatype System = System(
    provider: P.State,
    wallet: W.State,
    net: seq<Packet>,
    suspended: map<nat, Call>,
    // histories: every call made, every answer a wallet gave, every call the emitter dropped,
    // and whether the user declined each time the wallet asked to be enabled
    calls: map<nat, Call>,
    computed: set<Record>,
    discarded: set<nat>,
    declines: set<bool>)

  datatype Event =
    | Issue(call: Call)
    | Resume(id: nat)
    | Arrive(i: nat, declined: bool, error: Value, result: Value)
    | AccountChanged(account: Option<string>)
    | NetworkChanged(network: int)
    | Repeat(i: nat)
    | Lose(i: nat)

  predicate Faulty(e: Event) {
    e.Repeat? || e.Lose?
  }

  /** Events of the protocol itself, as opposed to those of the page and the user's account. */
  predicate Internal(e: Event) {
    e.Resume? || e.Arrive?
  }

  function Start(hasWallet: bool, isMetamask: bool, unlockUserAccounts: bool, network: int): System {
    System(P.START, W.Start(hasWallet, isMetamask, unlockUserAccounts, network), [ReadyWeb3],
           map[], map[], {}, {}, {})
  }

  predicate Enabled(s: System, e: Event) {
    match e
    case Resume(id) => !s.provider.waiting && id in s.suspended
    case Arrive(i, _, _, _) => i < |s.net|
    case Repeat(i) => i < |s.net|
    case Lose(i) => i < |s.net|
    case _ => true
  }

  /** The system after packet m, already taken out of s.net, has arrived. */
  function Receive(s: System, m: Packet, declined: bool, error: Value, result: Value): System {
    match m
    case ReadyWeb3 =>
      var (w, out) := W.OnReady(s.wallet);
      s.(wallet := w, net := s.net + out)
    case Enabling =>
      s.(net := s.net + W.OnEnabled(s.wallet, declined), declines := s.declines + {declined})
    case Info(info) =>
      s.(provider := P.OnWalletInfo(s.provider, info))
    case Request(id, call) =>
      if !WellFormed(call) then s.(discarded := s.discarded + {id})
      else
        var out := W.OnWeb3(s.wallet, id, call);
        s.(net := s.net + [out],
           computed := if s.wallet.useUserAccounts && out.Reply?
                       then s.computed + {Record(id, call, ErrorIn(out.error), ResultIn(out.result))} else s.computed)
    case AtWallet(id, call) =>
      var out := W.OnAnswer(id, error, result);
      s.(net := s.net + [out], computed := s.computed + {Record(id, call, ErrorIn(out.error), ResultIn(out.result))})
    case Reply(id, err, res) =>
      s.(provider := P.OnWeb3(s.provider, id, err, res))
  }

  function Apply(s: System, e: Event): System
    requires Enabled(s, e)
  {
    match e
    case Issue(call) =>
      var p := P.Issue(s.provider);
      s.(provider := p, suspended := s.suspended[p.id := call], calls := s.calls[p.id := call])
    case Resume(id) =>
      var (p, out) := P.Resume(s.provider, id, s.suspended[id], Callback(id));
      s.(provider := p, net := s.net + out, suspended := s.suspended - {id})
    case Arrive(i, declined, error, result) =>
      Receive(s.(net := Without(s.net, i)), s.net[i], declined, error, result)
    case AccountChanged(account) => s.(wallet := s.wallet.(userAccountAddress := account))
    case NetworkChanged(network) => s.(wallet := s.wallet.(userAccountNetwork := network))
    case Repeat(i) => s.(net := s.net + [s.net[i]])
    case Lose(i) => s.(net := Without(s.net, i))
  }

  ghost predicate IsRun(s: System, es: seq<Event>)
    decreases |es|
  {
    es == [] || (Enabled(s, es[0]) && IsRun(Apply(s, es[0]), es[1..]))
  }

  ghost function After(s: System, es: seq<Event>): System
    requires IsRun(s, es)
    decreases |es|
  {
    if es == [] then s else After(Apply(s, es[0]), es[1..])
  }

  // ---------------------------------------------------------------- safety, faults included

  predicate Fired(s: System, id: nat) {
    exists k :: 0 <= k < |s.provider.fired| && s.provider.fired[k].callback.tag == id
  }

  predicate Orphaned(s: System, id: nat) {
    Callback(id) in s.provider.orphaned
  }

  /** The main window has a crypto wallet, or stands in for one with user accounts. */
  predicate Equipped(w: W.State) {
    w.hasWallet || w.useUserAccounts
  }

  /** What holds of each packet under way. */
  ghost predicate PacketOk(s: System, m: Packet) {
    match m
    case ReadyWeb3 => true
    case Enabling => s.wallet.hasWeb3 && !s.wallet.useUserAccounts
    case Info(info) =>
      && info.Some? && info.value.isMetamask == s.wallet.isMetamask
      && (info.value.noWallet <==> !Equipped(s.wallet)) && (!info.value.noWallet ==> s.wallet.hasWeb3)
      && (s.wallet.hasWallet ==> info.value.notEnabled in s.declines)
      && (info.value.notEnabled ==> s.wallet.hasWallet)
    case Request(id, call) => id in s.calls && s.calls[id] == call && id !in s.suspended && s.wallet.hasWeb3
    case AtWallet(id, call) =>
      && id in s.calls && s.calls[id] == call && id !in s.suspended && WellFormed(call)
      && s.wallet.hasWeb3 && !s.wallet.useUserAccounts
    case Reply(id, error, result) =>
      && id in s.calls && id !in s.suspended && (error.Some? || result.Some?)
      && Record(id, s.calls[id], ErrorIn(error), ResultIn(result)) in s.computed
  }

  /** What a recorded answer looks like to the caller: a response object's id becomes 42. */
  function Delivered(r: Record): Outcome {
    Answer(r.error, if r.result.Object? then Object(42, r.result.body) else r.result)
  }

  /**
   * A firing reports that there is no wallet, or that the user declined to enable it, or an
   * answer that a wallet gave to this very call - a crypto wallet only after the user agreed.
   */
  ghost predicate FiringOk(s: System, f: Firing) {
    var id := f.callback.tag;
    && id in s.calls
    && (f.outcome.NoWalletError? <==> !Equipped(s.wallet))
    && (f.outcome.NotEnabledError? ==> s.wallet.hasWallet && true in s.declines)
    && (f.outcome.Answer? ==>
          && (s.wallet.hasWallet ==> false in s.declines)
          && exists r :: r in s.computed && r.id == id && r.call == s.calls[id] && !r.result.Primitive?
                         && f.outcome == Delivered(r))
  }

  ghost predicate RecordOk(s: System, r: Record) {
    && r.id in s.calls && r.id !in s.suspended && r.call == s.calls[r.id] && WellFormed(r.call)
    && s.wallet.hasWeb3
    && (s.wallet.useUserAccounts ==> UserAccountsAnswer(r))
  }

  /** The user-accounts wallet lists at most one account, names the network, and refuses the rest. */
  predicate UserAccountsAnswer(r: Record) {
    match r.call.rpc
    case "eth_accounts" =>
      r.error == NULL && r.result.Object? && r.result.body.Accounts? && |r.result.body.addresses| <= 1
    case "net_version" => r.error == NULL && r.result.Object? && r.result.body.Network?
    case _ => r.error.Primitive? && r.result == Undefined
  }

  /** What the provider has been told about the wallet. */
  ghost predicate FlagsOk(s: System) {
    && (s.provider.noWallet <==> !Equipped(s.wallet))
    && (!s.provider.noWallet ==> s.wallet.hasWeb3)
    && s.provider.isMetamask == s.wallet.isMetamask
    && (s.wallet.hasWallet ==> s.provider.notEnabled in s.declines)
    && (s.provider.notEnabled ==> s.wallet.hasWallet)
  }

  ghost predicate IdsOk(s: System) {
    && (forall id :: id in s.calls <==> 1 <= id <= s.provider.id)
    && s.suspended.Keys <= s.calls.Keys
    && (forall id :: id in s.suspended ==> s.suspended[id] == s.calls[id])
    && s.provider.requests.Keys <= s.calls.Keys
    && s.provider.requests.Keys !! s.suspended.Keys
    && (forall id :: id in s.provider.requests ==> s.provider.requests[id] == Callback(id))
    && (s.wallet.useUserAccounts ==> !s.wallet.hasWallet && s.wallet.hasWeb3)
    && (s.wallet.hasWeb3 ==> s.wallet.hasWallet || s.wallet.useUserAccounts)
    && (s.wallet.isMetamask ==> s.wallet.hasWallet)
    && (!s.provider.waiting ==> FlagsOk(s))
    && (s.provider.requests != map[] ==> s.wallet.hasWeb3 && (s.wallet.hasWallet ==> false in s.declines))
    && s.discarded <= s.calls.Keys
    && (forall id :: id in s.discarded ==> !WellFormed(s.calls[id]))
  }

  /** A callback of a call that waits for nothing any more. */
  ghost predicate Closed(s: System, c: Callback) {
    c.tag in s.calls && c.tag !in s.provider.requests && c.tag !in s.suspended
  }

  ghost predicate LogOk(s: System) {
    var p := s.provider;
    && (forall k :: 0 <= k < |p.fired| ==> Closed(s, p.fired[k].callback))
    && (forall j, k :: 0 <= j < k < |p.fired| ==> p.fired[j].callback != p.fired[k].callback)
    && (forall c :: c in p.orphaned ==> Closed(s, c))
    && (forall k :: 0 <= k < |p.fired| ==> p.fired[k].callback !in p.orphaned)
    && (forall j, k :: 0 <= j < k < |p.orphaned| ==> p.orphaned[j] != p.orphaned[k])
  }

  ghost predicate NetOk(s: System) {
    forall m :: m in s.net ==> PacketOk(s, m)
  }

  ghost predicate HistoryOk(s: System) {
    && (forall k :: 0 <= k < |s.provider.fired| ==> FiringOk(s, s.provider.fired[k]))
    && (forall r :: r in s.computed ==> RecordOk(s, r))
    && (forall c :: c in s.provider.orphaned ==> OrphanOk(s, c.tag))
  }

  ghost predicate Inv(s: System) {
    IdsOk(s) && LogOk(s) && NetOk(s) && HistoryOk(s)
  }

  /** A callback is lost only over an answer that is a bare primitive. */
  ghost predicate OrphanOk(s: System, id: nat) {
    exists r :: r in s.computed && r.id == id && r.result.Primitive?
  }

  /** t may follow s: histories have grown, and no call was suspended again. */
  ghost predicate Later(s: System, t: System) {
    && s.calls.Keys <= t.calls.Keys
    && (forall id :: id in s.calls ==> t.calls[id] == s.calls[id] && (id !in s.suspended ==> id !in t.suspended))
    && s.computed <= t.computed
    && s.declines <= t.declines
    && (s.wallet.hasWeb3 ==> t.wallet.hasWeb3)
    && s.wallet.useUserAccounts == t.wallet.useUserAccounts
    && s.wallet.hasWallet == t.wallet.hasWallet && s.wallet.isMetamask == t.wallet.isMetamask
  }

  lemma NetLater(s: System, t: System)
    requires NetOk(s) && Later(s, t)
    ensures forall m :: m in s.net ==> PacketOk(t, m)
  {
  }

  lemma HistoryLater(s: System, t: System)
    requires HistoryOk(s) && Later(s, t)
    ensures forall k :: 0 <= k < |s.provider.fired| ==> FiringOk(t, s.provider.fired[k])
    ensures forall r :: r in s.computed ==> RecordOk(t, r)
    ensures forall c :: c in s.provider.orphaned ==> OrphanOk(t, c.tag)
  {
    forall k | 0 <= k < |s.provider.fired|
      ensures FiringOk(t, s.provider.fired[k])
    {
      assert FiringOk(s, s.provider.fired[k]);
    }
  }

  lemma StartInv(hasWallet: bool, isMetamask: bool, unlockUserAccounts: bool, network: int)
    ensures Inv(Start(hasWallet, isMetamask, unlockUserAccounts, network))
  {
  }

  /** Arrivals at the main window leave the provider alone. */
  lemma MainWindowKeepsInv(s: System, m: Packet, declined: bool, error: Value, result: Value)
    requires Inv(s) && PacketOk(s, m) && (m.ReadyWeb3? || m.Enabling? || m.AtWallet?)
    ensures Inv(Receive(s, m, declined, error, result))
  {
    var t := Receive(s, m, declined, error, result);
    assert Later(s, t);
    NetLater(s, t);
    HistoryLater(s, t);
  }

  lemma RequestKeepsInv(s: System, m: Packet, declined: bool, error: Value, result: Value)
    requires Inv(s) && PacketOk(s, m) && m.Request?
    ensures Inv(Receive(s, m, declined, error, result))
  {
    var t := Receive(s, m, declined, error, result);
    assert Later(s, t);
    NetLater(s, t);
    HistoryLater(s, t);
  }

  lemma InfoKeepsInv(s: System, info: Option<WalletInfo>)
    requires Inv(s) && PacketOk(s, Info(info))
    ensures Inv(s.(provider := P.OnWalletInfo(s.provider, info)))
  {
    var t := s.(provider := P.OnWalletInfo(s.provider, info));
    assert Later(s, t);
    NetLater(s, t);
    HistoryLater(s, t);
  }

  /** Closing a call that was still open keeps the two logs free of repetitions. */
  lemma LogGrows(s: System, t: System, c: Callback, outcome: Outcome)
    requires LogOk(s) && t.calls == s.calls
    requires t.provider.requests.Keys <= s.provider.requests.Keys && t.suspended.Keys <= s.suspended.Keys
    requires c.tag in s.provider.requests || c.tag in s.suspended
    requires Closed(t, c)
    requires
      || (t.provider.fired == s.provider.fired + [Firing(c, outcome)] && t.provider.orphaned == s.provider.orphaned)
      || (t.provider.orphaned == s.provider.orphaned + [c] && t.provider.fired == s.provider.fired)
    ensures LogOk(t)
  {
    assert !Closed(s, c);
    forall k | 0 <= k < |t.provider.fired|
      ensures Closed(t, t.provider.fired[k].callback) && t.provider.fired[k].callback !in t.provider.orphaned
    {
      if k < |s.provider.fired| {
        assert Closed(s, s.provider.fired[k].callback);
      }
    }
  }

  /** A reply closes its call with one entry in one of the logs. */
  lemma ReplyLogs(p: P.State, r: Record, error: Option<Value>, result: Option<Value>)
    requires r.id in p.requests && p.requests[r.id] == Callback(r.id) && (error.Some? || result.Some?)
    requires r.error == ErrorIn(error) && r.result == ResultIn(result)
    ensures P.OnWeb3(p, r.id, error, result) ==
      if r.result.Primitive? then p.(requests := p.requests - {r.id}, orphaned := p.orphaned + [Callback(r.id)])
      else p.(requests := p.requests - {r.id}, fired := p.fired + [Firing(Callback(r.id), Delivered(r))])
  {
  }

  lemma ReplyKeepsInv(s: System, id: nat, error: Option<Value>, result: Option<Value>)
    requires Inv(s) && PacketOk(s, Reply(id, error, result))
    ensures Inv(s.(provider := P.OnWeb3(s.provider, id, error, result)))
  {
    hide FiringOk, RecordOk, OrphanOk;
    var t := s.(provider := P.OnWeb3(s.provider, id, error, result));
    if id in s.provider.requests {
      ReplyIsLogged(s, t, Record(id, s.calls[id], ErrorIn(error), ResultIn(result)), error, result);
    }
  }

  lemma ReplyIsLogged(s: System, t: System, r: Record, error: Option<Value>, result: Option<Value>)
    requires Inv(s) && PacketOk(s, Reply(r.id, error, result)) && r.id in s.provider.requests
    requires t == s.(provider := P.OnWeb3(s.provider, r.id, error, result))
    requires r == Record(r.id, s.calls[r.id], ErrorIn(error), ResultIn(result))
    ensures Inv(t)
  {
    hide P.OnWeb3, FiringOk, RecordOk, OrphanOk;
    ReplyLogs(s.provider, r, error, result);
    assert Later(s, t);
    NetLater(s, t);
    HistoryLater(s, t);
    assert IdsOk(t);
    LogGrows(s, t, Callback(r.id), Delivered(r));
    assert HistoryOk(t) by { AnswerOk(s, t, r); }
  }

  /** The entry that a reply adds to the provider's logs is accounted for by its record. */
  lemma AnswerOk(s: System, t: System, r: Record)
    requires HistoryOk(s) && Later(s, t) && t.computed == s.computed
    requires r in t.computed && r.id in t.calls && r.call == t.calls[r.id]
    requires Equipped(t.wallet) && (t.wallet.hasWallet ==> false in t.declines)
    requires r.result.Primitive? ==>
      t.provider.orphaned == s.provider.orphaned + [Callback(r.id)] && t.provider.fired == s.provider.fired
    requires !r.result.Primitive? ==>
      && t.provider.orphaned == s.provider.orphaned
      && t.provider.fired == s.provider.fired + [Firing(Callback(r.id), Delivered(r))]
    ensures HistoryOk(t)
  {
    HistoryLater(s, t);
    if r.result.Primitive? {
      assert OrphanOk(t, r.id);
    } else {
      assert FiringOk(t, Firing(Callback(r.id), Delivered(r)));
    }
  }

  lemma ResumeKeepsInv(s: System, id: nat)
    requires Inv(s) && Enabled(s, Resume(id))
    ensures Inv(Apply(s, Resume(id)))
  {
    var t := Apply(s, Resume(id));
    assert Later(s, t);
    NetLater(s, t);
    HistoryLater(s, t);
    assert IdsOk(t);
    if s.provider.noWallet {
      LogGrows(s, t, Callback(id), NoWalletError);
    } else if s.provider.notEnabled {
      LogGrows(s, t, Callback(id), NotEnabledError);
    } else {
      assert forall c :: Closed(s, c) ==> Closed(t, c);
    }
  }

  lemma IssueKeepsInv(s: System, call: Call)
    requires Inv(s)
    ensures Inv(Apply(s, Issue(call)))
  {
    var t := Apply(s, Issue(call));
    assert Later(s, t);
    NetLater(s, t);
    HistoryLater(s, t);
  }

  lemma TakePacket(s: System, i: nat)
    requires Inv(s) && i < |s.net|
    ensures Inv(s.(net := Without(s.net, i))) && PacketOk(s.(net := Without(s.net, i)), s.net[i])
  {
    var t := s.(net := Without(s.net, i));
    assert s.net[i] in s.net;
    assert Later(s, t);
    NetLater(s, t);
    HistoryLater(s, t);
  }

  lemma ArriveKeepsInv(s: System, e: Event)
    requires Inv(s) && e.Arrive? && Enabled(s, e)
    ensures Inv(Apply(s, e))
  {
    hide IdsOk, LogOk, NetOk, HistoryOk, PacketOk;
    var before, m := s.(net := Without(s.net, e.i)), s.net[e.i];
    TakePacket(s, e.i);
    match m
    case Info(info) => InfoKeepsInv(before, info);
    case Reply(id, err, res) => ReplyKeepsInv(before, id, err, res);
    case Request(_, _) => RequestKeepsInv(before, m, e.declined, e.error, e.result);
    case _ => MainWindowKeepsInv(before, m, e.declined, e.error, e.result);
  }

  /** Changes of the user's account, and packets that are lost or repeated. */
  lemma OutsideKeepsInv(s: System, e: Event)
    requires Inv(s) && Enabled(s, e) && (e.AccountChanged? || e.NetworkChanged? || Faulty(e))
    ensures Inv(Apply(s, e))
  {
    var t := Apply(s, e);
    assert Later(s, t);
    NetLater(s, t);
    HistoryLater(s, t);
  }

  lemma {:induction false} KeepsInv(s: System, e: Event)
    requires Inv(s) && Enabled(s, e)
    ensures Inv(Apply(s, e))
  {
    hide Inv;
    match e
    case Arrive(_, _, _, _) => ArriveKeepsInv(s, e);
    case Resume(id) => ResumeKeepsInv(s, id);
    case Issue(call) => IssueKeepsInv(s, call);
    case _ => OutsideKeepsInv(s, e);
  }

  lemma {:induction false} RunKeepsInv(s: System, es: seq<Event>)
    requires Inv(s) && IsRun(s, es)
    ensures Inv(After(s, es))
    decreases |es|
  {
    if es != [] {
      KeepsInv(s, es[0]);
      RunKeepsInv(Apply(s, es[0]), es[1..]);
    }
  }

  ghost predicate Reachable(s: System) {
    exists hasWallet, isMetamask, unlockUserAccounts, network, es ::
      var s0 := Start(hasWallet, isMetamask, unlockUserAccounts, network);
      IsRun(s0, es) && s == After(s0, es)
  }

  /**
   * In every interleaving, with packets repeated, lost and reordered: a callback is
   * called at most once, and an answer it gets is one a wallet gave to that same call,
   * with only the answer's own id overwritten. Errors tell the truth about the wallet.
   */
  lemma CallbacksFireOnceWithTheirOwnAnswer(s: System)
    requires Reachable(s)
    ensures forall j, k :: 0 <= j < k < |s.provider.fired| ==>
      s.provider.fired[j].callback.tag != s.provider.fired[k].callback.tag
    ensures forall k :: 0 <= k < |s.provider.fired| ==> FiringOk(s, s.provider.fired[k])
    ensures forall r :: r in s.computed && s.wallet.useUserAccounts ==> UserAccountsAnswer(r)
  {
    ReachableInv(s);
    forall j, k | 0 <= j < k < |s.provider.fired|
      ensures s.provider.fired[j].callback.tag != s.provider.fired[k].callback.tag
    {
      assert s.provider.fired[j].callback != s.provider.fired[k].callback;
    }
  }

  lemma ReachableInv(s: System)
    requires Reachable(s)
    ensures Inv(s)
  {
    var hasWallet, isMetamask, unlockUserAccounts, network, es :|
      var s0 := Start(hasWallet, isMetamask, unlockUserAccounts, network);
      IsRun(s0, es) && s == After(s0, es);
    StartInv(hasWallet, isMetamask, unlockUserAccounts, network);
    RunKeepsInv(Start(hasWallet, isMetamask, unlockUserAccounts, network), es);
  }

  /**
   * A request under way finds a wallet at the main window: the native proxy hands every
   * well-formed one to the crypto wallet and never answers that there is no wallet.
   */
  lemma RequestsFindAWallet(s: System, m: Packet)
    requires Reachable(s) && m in s.net && m.Request?
    ensures s.wallet.hasWeb3
    ensures !s.wallet.useUserAccounts ==>
      s.wallet.hasWallet && W.OnWeb3(s.wallet, m.id, m.call) == AtWallet(m.id, m.call)
  {
    ReachableInv(s);
    assert PacketOk(s, m);
  }

  /** The account that the user-accounts wallet lists, if it has one. */
  function Listed(w: W.State): seq<string> {
    if w.userAccountAddress.Some? && w.userAccountAddress.value != "" then [w.userAccountAddress.value] else []
  }

  ghost predicate AnswersWith(t: System, id: nat, call: Call, result: Value) {
    Record(id, call, NULL, result) in t.computed && Reply(id, None, Some(result)) in t.net
  }

  /** The user-accounts wallet answers at once, with the account and network of that moment. */
  lemma UserAccountsAnswerAtOnce(s: System, e: Event)
    requires Reachable(s) && s.wallet.useUserAccounts && e.Arrive? && Enabled(s, e)
    requires s.net[e.i].Request? && WellFormed(s.net[e.i].call)
    ensures var t, id, call := Apply(s, e), s.net[e.i].id, s.net[e.i].call;
      && id in s.calls && s.calls[id] == call
      && (call.rpc == "eth_accounts" ==> AnswersWith(t, id, call, Object(id, Accounts(Listed(s.wallet)))))
      && (call.rpc == "net_version" ==> AnswersWith(t, id, call, Object(id, Network(s.wallet.userAccountNetwork))))
      && (call.rpc !in {"eth_accounts", "net_version"} ==>
            Reply(id, Some(Primitive("\"" + call.rpc + "\" is not supported")), None) in t.net)
  {
    ReachableInv(s);
    var t, m := Apply(s, e), s.net[e.i];
    assert m in s.net && PacketOk(s, m);
    var out := W.UserAccountsReply(s.wallet, m.id, m.call.rpc);
    assert t.net[|t.net| - 1] == out && out in t.net;
  }

  // ---------------------------------------------------------------- the main window's settings

  /** The network announced last, or the one at the start. */
  ghost predicate NetworkIs(es: seq<Event>, start: int, network: int) {
    || (network == start && forall e :: e in es ==> !e.NetworkChanged?)
    || exists i ::
         && 0 <= i < |es| && es[i] == NetworkChanged(network)
         && forall j :: i < j < |es| ==> !es[j].NetworkChanged?
  }

  ghost predicate AccountIs(es: seq<Event>, start: Option<string>, account: Option<string>) {
    || (account == start && forall e :: e in es ==> !e.AccountChanged?)
    || exists i ::
         && 0 <= i < |es| && es[i] == AccountChanged(account)
         && forall j :: i < j < |es| ==> !es[j].AccountChanged?
  }

  lemma NetworkStep(e: Event, es: seq<Event>, before: int, start: int, network: int)
    requires NetworkIs(es, start, network)
    requires start == if e.NetworkChanged? then e.network else before
    ensures NetworkIs([e] + es, before, network)
  {
    var all := [e] + es;
    if i :| 0 <= i < |es| && es[i] == NetworkChanged(network) && forall j :: i < j < |es| ==> !es[j].NetworkChanged? {
      assert all[i + 1] == NetworkChanged(network);
      assert forall j :: i + 1 < j < |all| ==> all[j] == es[j - 1];
    } else if e.NetworkChanged? {
      assert all[0] == NetworkChanged(network);
      assert forall j :: 0 < j < |all| ==> all[j] == es[j - 1] && all[j] in es;
    }
  }

  lemma AccountStep(e: Event, es: seq<Event>, before: Option<string>, start: Option<string>, account: Option<string>)
    requires AccountIs(es, start, account)
    requires start == if e.AccountChanged? then e.account else before
    ensures AccountIs([e] + es, before, account)
  {
    var all := [e] + es;
    if i :| 0 <= i < |es| && es[i] == AccountChanged(account) && (forall j :: i < j < |es| ==> !es[j].AccountChanged?) {
      assert all[i + 1] == AccountChanged(account);
      assert forall j :: i + 1 < j < |all| ==> all[j] == es[j - 1];
    } else if e.AccountChanged? {
      assert all[0] == AccountChanged(account);
      assert forall j :: 0 < j < |all| ==> all[j] == es[j - 1] && all[j] in es;
    }
  }

  lemma SettingsStep(s: System, e: Event)
    requires Enabled(s, e)
    ensures var w, v := s.wallet, Apply(s, e).wallet;
      && v.hasWallet == w.hasWallet && v.isMetamask == w.isMetamask && v.useUserAccounts == w.useUserAccounts
      && v.userAccountNetwork == (if e.NetworkChanged? then e.network else w.userAccountNetwork)
      && v.userAccountAddress == (if e.AccountChanged? then e.account else w.userAccountAddress)
  {
  }

  lemma {:induction false} SettingsRun(s: System, es: seq<Event>)
    requires IsRun(s, es)
    ensures var w, v := s.wallet, After(s, es).wallet;
      && v.hasWallet == w.hasWallet && v.isMetamask == w.isMetamask && v.useUserAccounts == w.useUserAccounts
      && NetworkIs(es, w.userAccountNetwork, v.userAccountNetwork)
      && AccountIs(es, w.userAccountAddress, v.userAccountAddress)
    decreases |es|
  {
    hide Apply, NetworkIs, AccountIs;
    if es == [] {
      NothingAnnounced(s.wallet);
    } else {
      var t, v := Apply(s, es[0]), After(s, es).wallet;
      SettingsStep(s, es[0]);
      SettingsRun(t, es[1..]);
      NetworkStep(es[0], es[1..], s.wallet.userAccountNetwork, t.wallet.userAccountNetwork, v.userAccountNetwork);
      AccountStep(es[0], es[1..], s.wallet.userAccountAddress, t.wallet.userAccountAddress, v.userAccountAddress);
      assert es == [es[0]] + es[1..];
    }
  }

  lemma NothingAnnounced(w: W.State)
    ensures NetworkIs([], w.userAccountNetwork, w.userAccountNetwork)
    ensures AccountIs([], w.userAccountAddress, w.userAccountAddress)
  {
  }

  /**
   * In every run the main window keeps its crypto wallet; it uses user accounts exactly if
   * it has none and was asked to, with the account and network that were announced last.
   */
  lemma WalletIsAsConfigured(hasWallet: bool, isMetamask: bool, unlockUserAccounts: bool, network: int, es: seq<Event>)
    requires IsRun(Start(hasWallet, isMetamask, unlockUserAccounts, network), es)
    ensures var w := After(Start(hasWallet, isMetamask, unlockUserAccounts, network), es).wallet;
      && w.hasWallet == hasWallet && (w.isMetamask <==> hasWallet && isMetamask)
      && (w.useUserAccounts <==> !hasWallet && unlockUserAccounts)
      && NetworkIs(es, network, w.userAccountNetwork) && AccountIs(es, None, w.userAccountAddress)
  {
    SettingsRun(Start(hasWallet, isMetamask, unlockUserAccounts, network), es);
  }

  /** A call is refused for lack of a wallet exactly if there is none and user accounts were not asked for. */
  lemma RefusedExactlyWithoutWallet(hasWallet: bool, isMetamask: bool, unlockUserAccounts: bool, network: int,
                                    es: seq<Event>, k: nat)
    requires IsRun(Start(hasWallet, isMetamask, unlockUserAccounts, network), es)
    requires k < |After(Start(hasWallet, isMetamask, unlockUserAccounts, network), es).provider.fired|
    ensures var s := After(Start(hasWallet, isMetamask, unlockUserAccounts, network), es);
      s.provider.fired[k].outcome.NoWalletError? <==> !hasWallet && !unlockUserAccounts
  {
    var s := After(Start(hasWallet, isMetamask, unlockUserAccounts, network), es);
    WalletIsAsConfigured(hasWallet, isMetamask, unlockUserAccounts, network, es);
    CallbacksFireOnceWithTheirOwnAnswer(s);
    assert FiringOk(s, s.provider.fired[k]);
  }

  /** A request that arrives is dropped exactly if it is malformed; otherwise one packet takes its place. */
  lemma RequestsAreDroppedExactly(s: System, e: Event)
    requires e.Arrive? && Enabled(s, e) && s.net[e.i].Request?
    ensures var t, m, rest := Apply(s, e), s.net[e.i], Without(s.net, e.i);
      && (t.net == rest <==> m.call.rpc == "" || m.call.params.NotArray?)
      && (t.net != rest ==>
            && |t.net| == |rest| + 1 && t.net[..|rest|] == rest
            && (t.net[|rest|] == AtWallet(m.id, m.call) <==> !s.wallet.useUserAccounts && s.wallet.hasWeb3)
            && (t.net[|rest|] == Reply(m.id, Some(Primitive("No web3 wallet is available")), None) <==>
                  !s.wallet.useUserAccounts && !s.wallet.hasWeb3))
  {
    var t, m, rest := Apply(s, e), s.net[e.i], Without(s.net, e.i);
    if WellFormed(m.call) {
      assert t.net == rest + [W.OnWeb3(s.wallet, m.id, m.call)];
      assert t.net[..|rest|] == rest && t.net[|rest|] == W.OnWeb3(s.wallet, m.id, m.call);
      UnsupportedIsOther(m.call.rpc);
    }
  }

  lemma UnsupportedIsOther(rpc: string)
    ensures "\"" + rpc + "\" is not supported" != "No web3 wallet is available"
  {
    assert ("\"" + rpc + "\" is not supported")[0] == '"';
    assert "No web3 wallet is available"[0] == 'N';
  }

  /** What a wallet description does: it ends the wait and is believed; anything else does nothing. */
  lemma DescriptionsAreBelieved(p: P.State, info: Option<WalletInfo>)
    ensures var q := P.OnWalletInfo(p, info);
      && q.id == p.id && q.requests == p.requests && q.fired == p.fired && q.orphaned == p.orphaned
      && (info.None? ==> q == p)
      && (info.Some? ==> !q.waiting && WalletInfo(q.noWallet, q.notEnabled, q.isMetamask) == info.value)
  {
  }

  /** What a reply does: without a call of its id, or without content, nothing. */
  lemma RepliesAreTaken(p: P.State, id: nat, error: Option<Value>, result: Option<Value>)
    ensures var q := P.OnWeb3(p, id, error, result);
      if id !in p.requests || (error.None? && result.None?) then q == p
      else
        && q.requests == p.requests - {id}
        && (if result.Some? && result.value.Primitive?
            then q.orphaned == p.orphaned + [p.requests[id]] && q.fired == p.fired
            else
              && q.orphaned == p.orphaned && |q.fired| == |p.fired| + 1 && q.fired[..|p.fired|] == p.fired
              && var f := q.fired[|p.fired|];
              && f.callback == p.requests[id] && f.outcome.Answer?
              && (f.outcome.error == NULL <==> error in {None, Some(Undefined), Some(NULL)})
              && (error.Some? && !error.value.Undefined? ==> f.outcome.error == error.value)
              && (f.outcome.result == Undefined <==> result in {None, Some(Undefined)})
              && (result.Some? && !result.value.Object? ==> f.outcome.result == result.value)
              && (result.Some? && result.value.Object? ==> f.outcome.result == Object(42, result.value.body)))
  {
  }
}
