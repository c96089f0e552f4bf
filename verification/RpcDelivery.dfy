/** What the wallet proxy achieves over channels that neither lose nor repeat packets. */
module RpcDelivery {
  import opened Prelude
  import opened Web3Messages
  import opened RpcProtocol
  import P = ProxyProvider
  import W = WalletProxy

  // ---------------------------------------------------------------- counting packets

  function Sum(net: seq<Packet>, f: Packet -> nat): nat {
    if net == [] then 0 else f(net[0]) + Sum(net[1..], f)
  }

  lemma {:induction false} SumConcat(a: seq<Packet>, b: seq<Packet>, f: Packet -> nat)
    ensures Sum(a + b, f) == Sum(a, f) + Sum(b, f)
  {
    if a == [] {
      assert a + b == b;
    } else {
      assert (a + b)[1..] == a[1..] + b;
      SumConcat(a[1..], b, f);
    }
  }

  lemma {:induction false} SumWithout(net: seq<Packet>, i: nat, f: Packet -> nat)
    requires i < |net|
    ensures Sum(net, f) == f(net[i]) + Sum(Without(net, i), f)
  {
    if i == 0 {
      assert Without(net, 0) == net[1..];
    } else {
      SumWithout(net[1..], i - 1, f);
      assert Without(net, i) == [net[0]] + Without(net[1..], i - 1);
      assert Without(net, i)[1..] == Without(net[1..], i - 1);
    }
  }

  /** Counts the packets that stand for call id. */
  function TokenOf(id: nat): Packet -> nat {
    (m: Packet) => if (m.Request? || m.AtWallet? || m.Reply?) && m.id == id then 1 else 0
  }

  /** Counts the packets that stand for the handshake. */
  function Handshake(): Packet -> nat {
    (m: Packet) => if m.ReadyWeb3? || m.Enabling? || m.Info? then 1 else 0
  }

  /** How many more times a packet will be handled at most. */
  function Weight(): Packet -> nat {
    (m: Packet) => match m
      case ReadyWeb3 => 3
      case Enabling => 2
      case Info(_) => 1
      case Request(_, _) => 3
      case AtWallet(_, _) => 2
      case Reply(_, _, _) => 1
  }

  // ---------------------------------------------------------------- termination

  function Measure(s: System): nat {
    Sum(s.net, Weight()) + 4 * |s.suspended|
  }

  function Internals(es: seq<Event>): nat {
    if es == [] then 0 else (if Internal(es[0]) then 1 else 0) + Internals(es[1..])
  }

  /** The packet that the handler of m sends, if any. */
  function Sent(s: System, m: Packet, declined: bool, error: Value, result: Value): (out: seq<Packet>)
    ensures Receive(s, m, declined, error, result).net == s.net + out
    ensures |out| <= 1
  {
    match m
    case ReadyWeb3 => W.OnReady(s.wallet).1
    case Enabling => W.OnEnabled(s.wallet, declined)
    case Info(_) => []
    case Request(id, call) => if WellFormed(call) then [W.OnWeb3(s.wallet, id, call)] else []
    case AtWallet(id, call) => [W.OnAnswer(id, error, result)]
    case Reply(_, _, _) => []
  }

  lemma SumSent(s: System, m: Packet, declined: bool, error: Value, result: Value, f: Packet -> nat)
    ensures var out := Sent(s, m, declined, error, result);
      && Sum(Receive(s, m, declined, error, result).net, f) == Sum(s.net, f) + Sum(out, f)
      && Sum(out, f) == if out == [] then 0 else f(out[0])
  {
    SumConcat(s.net, Sent(s, m, declined, error, result), f);
  }

  lemma ArriveDecreases(s: System, m: Packet, declined: bool, error: Value, result: Value)
    ensures Measure(Receive(s, m, declined, error, result)) < Measure(s) + Weight()(m)
    ensures Receive(s, m, declined, error, result).suspended == s.suspended
  {
    SumSent(s, m, declined, error, result, Weight());
  }

  lemma ResumeDecreases(s: System, id: nat)
    requires Enabled(s, Resume(id))
    ensures Measure(Apply(s, Resume(id))) < Measure(s)
  {
    var out := P.Resume(s.provider, id, s.suspended[id], Callback(id)).1;
    assert s.suspended.Keys == (s.suspended - {id}).Keys + {id};
    SumConcat(s.net, out, Weight());
  }

  lemma {:induction false} MeasureDecreases(s: System, e: Event)
    requires Enabled(s, e) && Internal(e)
    ensures Measure(Apply(s, e)) < Measure(s)
  {
    if e.Resume? {
      ResumeDecreases(s, e.id);
    } else {
      SumWithout(s.net, e.i, Weight());
      ArriveDecreases(s.(net := Without(s.net, e.i)), s.net[e.i], e.declined, e.error, e.result);
    }
  }

  /** Once the page makes no more calls, the protocol takes at most Measure further steps. */
  lemma {:induction false} RunsAreShort(s: System, es: seq<Event>)
    requires IsRun(s, es)
    requires forall e :: e in es ==> !e.Issue? && !e.Repeat?
    ensures Internals(es) + Measure(After(s, es)) <= Measure(s)
    decreases |es|
  {
    if es != [] {
      var t := Apply(s, es[0]);
      if Internal(es[0]) {
        MeasureDecreases(s, es[0]);
      } else if es[0].Lose? {
        SumWithout(s.net, es[0].i, Weight());
      }
      RunsAreShort(t, es[1..]);
    }
  }

  // ---------------------------------------------------------------- conservation

  ghost predicate Accepting(p: P.State) {
    !p.waiting && !p.noWallet && !p.notEnabled
  }

  /** The handshake has exactly one packet under way until the provider hears back. */
  ghost predicate HandshakeOk(s: System) {
    Sum(s.net, Handshake()) == if s.provider.waiting then 1 else 0
  }

  /** Exactly one packet stands for each call in the table that the emitter let through. */
  ghost predicate TokensOk(s: System) {
    forall id: nat :: Sum(s.net, TokenOf(id)) == if id in s.provider.requests && id !in s.discarded then 1 else 0
  }

  /** Calls are refused while the wallet is missing or disabled, and answered otherwise. */
  ghost predicate OutcomeOk(p: P.State, f: Firing) {
    !p.waiting && (f.outcome.Answer? <==> Accepting(p))
  }

  ghost predicate PhasesOk(s: System) {
    var p := s.provider;
    && (p.requests != map[] || p.orphaned != [] ==> Accepting(p))
    && (forall k :: 0 <= k < |p.fired| ==> OutcomeOk(p, p.fired[k]))
    && s.discarded <= p.requests.Keys
    && (forall id :: id in s.calls ==> id in s.suspended || id in p.requests || Fired(s, id) || Orphaned(s, id))
  }

  /** Until the wallet answers a call there is no record of it, and afterwards one. */
  ghost predicate RecordsOk(s: System) {
    && (forall r, q :: r in s.computed && q in s.computed && r.id == q.id ==> r == q)
    && (forall m, r :: m in s.net && r in s.computed && (m.Request? || m.AtWallet?) ==> m.id != r.id)
  }

  /** The user is asked at most once, and the answer is what the provider hears. */
  ghost predicate PromptOk(s: System) {
    && (forall m :: m in s.net ==> PromptStage(s, m))
    && (!s.provider.waiting ==> s.declines == if s.wallet.hasWallet then {s.provider.notEnabled} else {})
  }

  ghost predicate PromptStage(s: System, m: Packet) {
    && (m.ReadyWeb3? || m.Enabling? ==> s.declines == {})
    && (m.Info? && m.info.Some? ==> s.declines == if s.wallet.hasWallet then {m.info.value.notEnabled} else {})
  }

  ghost predicate Conserved(s: System) {
    Inv(s) && HandshakeOk(s) && PromptOk(s) && TokensOk(s) && PhasesOk(s) && RecordsOk(s)
  }

  lemma {:induction false} SumAtLeast(net: seq<Packet>, m: Packet, f: Packet -> nat)
    requires m in net
    ensures f(m) <= Sum(net, f)
  {
    if net[0] != m {
      SumAtLeast(net[1..], m, f);
    }
  }

  /** A packet under way stands for a call that is in the table, undropped. */
  lemma PacketIsToken(s: System, m: Packet)
    requires Conserved(s) && m in s.net
    ensures m.ReadyWeb3? || m.Enabling? || m.Info? ==> s.provider.waiting
    ensures m.Request? || m.AtWallet? || m.Reply? ==> m.id in s.provider.requests && m.id !in s.discarded
  {
    SumAtLeast(s.net, m, Handshake());
    if m.Request? || m.AtWallet? || m.Reply? {
      SumAtLeast(s.net, m, TokenOf(m.id));
    }
  }

  /** The token count of one call after a packet has arrived. */
  lemma ArriveCounts(s: System, e: Event, f: Packet -> nat)
    requires e.Arrive? && Enabled(s, e)
    ensures var m := s.net[e.i];
      var out := Sent(s.(net := Without(s.net, e.i)), m, e.declined, e.error, e.result);
      Sum(Apply(s, e).net, f) == Sum(s.net, f) - f(m) + if out == [] then 0 else f(out[0])
  {
    SumWithout(s.net, e.i, f);
    SumSent(s.(net := Without(s.net, e.i)), s.net[e.i], e.declined, e.error, e.result, f);
  }

  lemma ArriveHandshake(s: System, e: Event)
    requires Conserved(s) && e.Arrive? && Enabled(s, e)
    ensures HandshakeOk(Apply(s, e))
  {
    hide Sum, TokensOk, RecordsOk, PhasesOk, PromptOk, LogOk, HistoryOk, IdsOk;
    assert s.net[e.i] in s.net;
    PacketIsToken(s, s.net[e.i]);
    assert PacketOk(s, s.net[e.i]);
    ArriveCounts(s, e, Handshake());
  }

  predicate OfHandshake(m: Packet) {
    m.ReadyWeb3? || m.Enabling? || m.Info?
  }

  /** The handshake is with one packet only. */
  lemma HandshakeIsAlone(s: System, i: nat, q: Packet)
    requires Conserved(s) && i < |s.net| && q in Without(s.net, i) && OfHandshake(s.net[i])
    ensures !OfHandshake(q)
  {
    SumWithout(s.net, i, Handshake());
    SumAtLeast(Without(s.net, i), q, Handshake());
  }

  lemma ArrivePrompt(s: System, e: Event)
    requires Conserved(s) && e.Arrive? && Enabled(s, e)
    ensures PromptOk(Apply(s, e))
  {
    hide Sum, TokensOk, RecordsOk, PhasesOk, LogOk, HistoryOk;
    var before, m, t := s.(net := Without(s.net, e.i)), s.net[e.i], Apply(s, e);
    var out := Sent(before, m, e.declined, e.error, e.result);
    assert m in s.net;
    PacketIsToken(s, m);
    assert PacketOk(s, m) && PromptStage(s, m);
    assert t.net == before.net + out;
    forall q | q in before.net
      ensures PromptStage(t, q)
    {
      assert PromptStage(s, q);
      if OfHandshake(m) {
        HandshakeIsAlone(s, e.i, q);
      }
    }
    assert out != [] ==> PromptStage(t, out[0]);
  }

  lemma ReplyClosesCall(p: P.State, id: nat, error: Option<Value>, result: Option<Value>)
    requires id in p.requests && (error.Some? || result.Some?)
    ensures P.OnWeb3(p, id, error, result).requests == p.requests - {id}
  {
  }

  lemma ArriveToken(s: System, e: Event, id: nat)
    requires Conserved(s) && e.Arrive? && Enabled(s, e)
    ensures var t := Apply(s, e);
      Sum(t.net, TokenOf(id)) == if id in t.provider.requests && id !in t.discarded then 1 else 0
  {
    hide Sum;
    var m := s.net[e.i];
    assert m in s.net;
    PacketIsToken(s, m);
    assert PacketOk(s, m);
    ArriveCounts(s, e, TokenOf(id));
    assert Sum(s.net, TokenOf(id)) == if id in s.provider.requests && id !in s.discarded then 1 else 0;
    if m.Reply? {
      ReplyClosesCall(s.provider, m.id, m.error, m.result);
    }
  }

  /** A call is with one packet only, so taking that packet leaves none for it. */
  lemma TakenIsAlone(s: System, i: nat, q: Packet)
    requires Conserved(s) && i < |s.net| && q in Without(s.net, i)
    requires q.Request? || q.AtWallet?
    requires s.net[i].Request? || s.net[i].AtWallet? || s.net[i].Reply?
    ensures q.id != s.net[i].id
  {
    SumWithout(s.net, i, TokenOf(s.net[i].id));
    SumAtLeast(Without(s.net, i), q, TokenOf(s.net[i].id));
  }

  /** A packet moves on without an answer: it may only become a packet of the same call. */
  lemma RecordsKept(s: System, i: nat, t: System, out: seq<Packet>)
    requires Conserved(s) && i < |s.net| && t.net == Without(s.net, i) + out && t.computed == s.computed
    requires forall q :: q in out && (q.Request? || q.AtWallet?) ==> s.net[i].Request? && q.id == s.net[i].id
    ensures RecordsOk(t)
  {
    assert s.net[i] in s.net;
    forall q, r | q in t.net && r in t.computed && (q.Request? || q.AtWallet?)
      ensures q.id != r.id
    {
      assert q in s.net || q in out;
    }
  }

  /** A packet is answered: its record is the first of its call, and no request is left. */
  lemma RecordsAdded(s: System, i: nat, t: System, out: seq<Packet>, r: Record)
    requires Conserved(s) && i < |s.net| && t.net == Without(s.net, i) + out && t.computed == s.computed + {r}
    requires (s.net[i].Request? || s.net[i].AtWallet?) && r.id == s.net[i].id
    requires forall q :: q in out ==> q.Reply?
    ensures RecordsOk(t)
  {
    assert s.net[i] in s.net;
    forall q | q in t.net && (q.Request? || q.AtWallet?)
      ensures q in s.net && q.id != r.id
    {
      assert q in Without(s.net, i);
      TakenIsAlone(s, i, q);
    }
  }

  lemma ArriveRecords(s: System, e: Event)
    requires Conserved(s) && e.Arrive? && Enabled(s, e)
    ensures RecordsOk(Apply(s, e))
  {
    hide Sum, TokensOk, PhasesOk, PromptOk, LogOk, HistoryOk;
    var before, m, t := s.(net := Without(s.net, e.i)), s.net[e.i], Apply(s, e);
    var out := Sent(before, m, e.declined, e.error, e.result);
    assert t.net == before.net + out;
    if t.computed == s.computed {
      RecordsKept(s, e.i, t, out);
    } else {
      var r := Record(m.id, m.call, ErrorIn(out[0].error), ResultIn(out[0].result));
      RecordsAdded(s, e.i, t, out, r);
    }
  }

  /** A log entry for call id, which leaves the table or the suspended calls, accounts for it. */
  lemma PhasesGrow(s: System, t: System, id: nat)
    requires PhasesOk(s) && t.calls == s.calls
    requires s.suspended.Keys - {id} <= t.suspended.Keys
    requires s.provider.requests.Keys - {id} <= t.provider.requests.Keys
    requires s.provider.fired <= t.provider.fired && s.provider.orphaned <= t.provider.orphaned
    requires id in t.provider.requests || Fired(t, id) || Orphaned(t, id)
    ensures forall c :: c in t.calls ==>
      c in t.suspended || c in t.provider.requests || Fired(t, c) || Orphaned(t, c)
  {
    forall c | c in s.calls
      ensures c in t.suspended || c in t.provider.requests || Fired(t, c) || Orphaned(t, c)
    {
      if Fired(s, c) {
        var k :| 0 <= k < |s.provider.fired| && s.provider.fired[k].callback.tag == c;
        assert t.provider.fired[k].callback.tag == c;
      }
    }
  }

  lemma ReplyPhases(s: System, id: nat, error: Option<Value>, result: Option<Value>)
    requires Inv(s) && PhasesOk(s) && PacketOk(s, Reply(id, error, result))
    requires id in s.provider.requests && id !in s.discarded
    ensures PhasesOk(s.(provider := P.OnWeb3(s.provider, id, error, result)))
  {
    hide P.OnWeb3, LogOk, HistoryOk, NetOk;
    var p, q := s.provider, P.OnWeb3(s.provider, id, error, result);
    var t := s.(provider := q);
    assert p.requests[id] == Callback(id);
    ReplyLogs(p, Record(id, s.calls[id], ErrorIn(error), ResultIn(result)), error, result);
    if ResultIn(result).Primitive? {
      assert q.orphaned[|p.orphaned|] == Callback(id);
    } else {
      assert q.fired[|p.fired|].callback.tag == id;
    }
    PhasesGrow(s, t, id);
    assert Accepting(p);
    forall k | 0 <= k < |q.fired|
      ensures OutcomeOk(q, q.fired[k])
    {
      assert k < |p.fired| ==> OutcomeOk(p, p.fired[k]);
    }
  }

  /** An arrival that leaves the logs, the table and the suspended calls alone. */
  lemma PhasesKept(s: System, t: System)
    requires PhasesOk(s) && t.calls == s.calls && t.suspended == s.suspended
    requires t.provider.requests == s.provider.requests && t.discarded <= t.provider.requests.Keys
    requires t.provider.fired == s.provider.fired && t.provider.orphaned == s.provider.orphaned
    requires
      || (s.provider.fired == [] && s.provider.orphaned == [] && s.provider.requests == map[])
      || (t.provider.waiting == s.provider.waiting && t.provider.noWallet == s.provider.noWallet
          && t.provider.notEnabled == s.provider.notEnabled)
    ensures PhasesOk(t)
  {
    assert forall id :: Fired(t, id) == Fired(s, id);
    forall k | 0 <= k < |t.provider.fired|
      ensures OutcomeOk(t.provider, t.provider.fired[k])
    {
      assert OutcomeOk(s.provider, s.provider.fired[k]);
    }
  }

  /** Until the provider hears back nothing was registered, called or lost. */
  lemma WaitingIsEmpty(s: System)
    requires Conserved(s) && s.provider.waiting
    ensures s.provider.fired == [] && s.provider.orphaned == [] && s.provider.requests == map[]
  {
    hide Sum, TokensOk, RecordsOk, PromptOk, IdsOk, LogOk, NetOk, HistoryOk;
    assert s.provider.fired != [] ==> OutcomeOk(s.provider, s.provider.fired[0]);
  }

  lemma ArrivePhases(s: System, e: Event)
    requires Conserved(s) && e.Arrive? && Enabled(s, e)
    ensures PhasesOk(Apply(s, e))
  {
    hide Sum, TokensOk, RecordsOk, PromptOk, LogOk, HistoryOk, Fired, Orphaned;
    hide W.UserAccountsReply, W.OnWeb3, W.OnReady, W.OnEnabled, W.OnAnswer;
    var before, m, t := s.(net := Without(s.net, e.i)), s.net[e.i], Apply(s, e);
    assert m in s.net;
    PacketIsToken(s, m);
    TakePacket(s, e.i);
    if m.Info? {
      WaitingIsEmpty(s);
    }
    PhasesKept(s, before);
    if m.Reply? {
      ReplyPhases(before, m.id, m.error, m.result);
    } else {
      PhasesKept(before, t);
    }
  }

  lemma IssueConserves(s: System, e: Event)
    requires Conserved(s) && (e.Issue? || e.AccountChanged? || e.NetworkChanged?)
    ensures Conserved(Apply(s, e))
  {
    hide Sum, IdsOk, LogOk, NetOk, HistoryOk;
    var t := Apply(s, e);
    KeepsInv(s, e);
    assert forall id :: Fired(t, id) == Fired(s, id);
    forall m, r | m in t.net && r in t.computed && (m.Request? || m.AtWallet?)
      ensures m.id != r.id
    {
    }
  }

  lemma ResumeToken(s: System, id: nat, other: nat)
    requires Conserved(s) && Enabled(s, Resume(id))
    ensures var t := Apply(s, Resume(id));
      && Sum(t.net, TokenOf(other)) == (if other in t.provider.requests && other !in t.discarded then 1 else 0)
      && Sum(t.net, Handshake()) == Sum(s.net, Handshake())
  {
    var out := P.Resume(s.provider, id, s.suspended[id], Callback(id)).1;
    SumConcat(s.net, out, TokenOf(other));
    SumConcat(s.net, out, Handshake());
    assert Sum(s.net, TokenOf(other)) == if other in s.provider.requests && other !in s.discarded then 1 else 0;
  }

  lemma ResumePhases(s: System, id: nat)
    requires Conserved(s) && Enabled(s, Resume(id))
    ensures PhasesOk(Apply(s, Resume(id)))
  {
    var p, t := s.provider, Apply(s, Resume(id));
    var q := t.provider;
    if id !in q.requests {
      assert q.fired[|p.fired|].callback.tag == id;
    }
    PhasesGrow(s, t, id);
    forall k | 0 <= k < |q.fired|
      ensures OutcomeOk(q, q.fired[k])
    {
      assert k < |p.fired| ==> OutcomeOk(p, p.fired[k]);
    }
  }

  lemma ResumeRecords(s: System, id: nat)
    requires Conserved(s) && Enabled(s, Resume(id))
    ensures RecordsOk(Apply(s, Resume(id)))
  {
    var t := Apply(s, Resume(id));
    forall m, r | m in t.net && r in t.computed && (m.Request? || m.AtWallet?)
      ensures m.id != r.id
    {
      assert RecordOk(s, r);
      assert m in s.net || m == Request(id, s.suspended[id]);
    }
  }

  lemma ResumeConserves(s: System, id: nat)
    requires Conserved(s) && Enabled(s, Resume(id))
    ensures Conserved(Apply(s, Resume(id)))
  {
    KeepsInv(s, Resume(id));
    ResumePhases(s, id);
    ResumeRecords(s, id);
    forall other: nat {
      ResumeToken(s, id, other);
    }
    ResumeToken(s, id, id);
  }

  lemma {:induction false} KeepsConserved(s: System, e: Event)
    requires Conserved(s) && Enabled(s, e) && !Faulty(e)
    ensures Conserved(Apply(s, e))
  {
    match e
    case Arrive(_, _, _, _) =>
      KeepsInv(s, e);
      ArriveHandshake(s, e);
      ArrivePrompt(s, e);
      forall id: nat {
        ArriveToken(s, e, id);
      }
      ArriveRecords(s, e);
      ArrivePhases(s, e);
    case Resume(id) => ResumeConserves(s, id);
    case _ => IssueConserves(s, e);
  }

  lemma StartConserved(hasWallet: bool, isMetamask: bool, unlockUserAccounts: bool, network: int)
    ensures Conserved(Start(hasWallet, isMetamask, unlockUserAccounts, network))
  {
    StartInv(hasWallet, isMetamask, unlockUserAccounts, network);
  }

  lemma {:induction false} RunConserved(s: System, es: seq<Event>)
    requires Conserved(s) && IsRun(s, es) && forall e :: e in es ==> !Faulty(e)
    ensures Conserved(After(s, es))
    decreases |es|
  {
    if es != [] {
      KeepsConserved(s, es[0]);
      RunConserved(Apply(s, es[0]), es[1..]);
    }
  }

  ghost predicate LosslesslyReachable(s: System) {
    exists hasWallet, isMetamask, unlockUserAccounts, network, es ::
      var s0 := Start(hasWallet, isMetamask, unlockUserAccounts, network);
      IsRun(s0, es) && (forall e :: e in es ==> !Faulty(e)) && s == After(s0, es)
  }

  lemma ReachableConserved(s: System)
    requires LosslesslyReachable(s)
    ensures Conserved(s)
  {
    var hasWallet, isMetamask, unlockUserAccounts, network, es :|
      var s0 := Start(hasWallet, isMetamask, unlockUserAccounts, network);
      IsRun(s0, es) && (forall e :: e in es ==> !Faulty(e)) && s == After(s0, es);
    StartConserved(hasWallet, isMetamask, unlockUserAccounts, network);
    RunConserved(Start(hasWallet, isMetamask, unlockUserAccounts, network), es);
  }

  // ---------------------------------------------------------------- the two results

  ghost predicate Refused(s: System, id: nat) {
    exists k :: 0 <= k < |s.provider.fired|
      && s.provider.fired[k].callback.tag == id && !s.provider.fired[k].outcome.Answer?
  }

  ghost predicate Answered(s: System, id: nat) {
    exists k :: 0 <= k < |s.provider.fired|
      && s.provider.fired[k].callback.tag == id && s.provider.fired[k].outcome.Answer?
  }

  function One(b: bool): nat {
    if b then 1 else 0
  }

  /**
   * Each id issued is in exactly one of five places, and a call in the table has exactly
   * one packet under way - none if it was malformed and the emitter dropped it.
   */
  lemma CallsAreConserved(s: System, id: nat)
    requires LosslesslyReachable(s)
    ensures id in s.calls <==> 1 <= id <= s.provider.id
    ensures One(id in s.suspended) + One(id in s.provider.requests) + One(Refused(s, id)) + One(Answered(s, id))
         + One(Orphaned(s, id)) == One(id in s.calls)
    ensures id in s.provider.requests ==>
      Sum(s.net, TokenOf(id)) == One(id !in s.discarded) && (WellFormed(s.calls[id]) ==> id !in s.discarded)
    ensures id !in s.provider.requests ==> Sum(s.net, TokenOf(id)) == 0
  {
    ReachableConserved(s);
    var fired := s.provider.fired;
    if Fired(s, id) {
      var k :| 0 <= k < |fired| && fired[k].callback.tag == id;
      assert Closed(s, fired[k].callback);
      assert Refused(s, id) || Answered(s, id);
      forall j | 0 <= j < |fired| && fired[j].callback.tag == id
        ensures j == k
      {
        assert fired[j].callback == fired[k].callback;
      }
      assert Callback(id) == fired[k].callback;
    } else {
      assert !Refused(s, id) && !Answered(s, id);
      assert Orphaned(s, id) ==> Closed(s, Callback(id));
    }
  }

  /** The wallet's answer to the call was a bare primitive instead of a response object. */
  ghost predicate BareAnswer(s: System, id: nat) {
    exists r :: r in s.computed && r.id == id && r.result.Primitive?
  }

  /** No event of the protocol itself is possible any more. */
  ghost predicate AtRest(s: System) {
    forall e :: Internal(e) ==> !Enabled(s, e)
  }

  /** Packets under way and resumable calls are never stuck. */
  lemma WorkCanGoOn(s: System)
    requires s.net != [] || (!s.provider.waiting && s.suspended != map[])
    ensures !AtRest(s)
  {
    if s.net != [] {
      assert Internal(Arrive(0, false, NULL, NULL)) && Enabled(s, Arrive(0, false, NULL, NULL));
    } else {
      var id :| id in s.suspended;
      assert Internal(Resume(id)) && Enabled(s, Resume(id));
    }
  }

  lemma RestIsEmpty(s: System)
    requires Conserved(s) && AtRest(s)
    ensures s.net == [] && !s.provider.waiting && s.suspended == map[]
  {
    assert HandshakeOk(s);
    if s.net != [] || (!s.provider.waiting && s.suspended != map[]) {
      WorkCanGoOn(s);
    }
  }

  lemma AnsweredAtRest(s: System, id: nat)
    requires LosslesslyReachable(s) && AtRest(s) && id in s.calls
    ensures Fired(s, id) <==>
      !Equipped(s.wallet) || true in s.declines || (WellFormed(s.calls[id]) && !BareAnswer(s, id))
  {
    ReachableConserved(s);
    RestIsEmpty(s);
    CallsAreConserved(s, id);
    var fired := s.provider.fired;
    if Fired(s, id) && Accepting(s.provider) {
      var k :| 0 <= k < |fired| && fired[k].callback.tag == id;
      assert OutcomeOk(s.provider, fired[k]) && FiringOk(s, fired[k]);
      var r :| r in s.computed && r.id == id && !r.result.Primitive?;
      assert RecordOk(s, r);
      assert forall q :: q in s.computed && q.id == id ==> q == r;
    } else if !Fired(s, id) && Accepting(s.provider) {
      if Orphaned(s, id) {
        assert OrphanOk(s, id);
      }
    }
  }

  /**
   * When the protocol comes to rest, a callback has been called exactly if there is neither
   * a crypto wallet nor a wish for user accounts, or the user declined, or the call has a
   * method name and an array of parameters and was not answered with a bare primitive.
   */
  lemma CallsAreAnswered(hasWallet: bool, isMetamask: bool, unlockUserAccounts: bool, network: int, es: seq<Event>,
                         id: nat)
    requires IsRun(Start(hasWallet, isMetamask, unlockUserAccounts, network), es)
    requires forall e :: e in es ==> !Faulty(e)
    requires var s := After(Start(hasWallet, isMetamask, unlockUserAccounts, network), es);
      AtRest(s) && id in s.calls
    ensures var s := After(Start(hasWallet, isMetamask, unlockUserAccounts, network), es);
      Fired(s, id) <==>
        || (!hasWallet && !unlockUserAccounts)
        || true in s.declines
        || (s.calls[id].rpc != "" && s.calls[id].params.Array? && !BareAnswer(s, id))
  {
    var s := After(Start(hasWallet, isMetamask, unlockUserAccounts, network), es);
    assert LosslesslyReachable(s);
    WalletIsAsConfigured(hasWallet, isMetamask, unlockUserAccounts, network, es);
    AnsweredAtRest(s, id);
  }

  /**
   * There and back: what the crypto wallet answers to a call, once the reply has arrived, is
   * what that call's own callback is called with - the error if there is one, and otherwise
   * the result as the provider relabels it. A bare primitive is lost on the way.
   */
  lemma AnswersComeHome(s: System, e: Event)
    requires LosslesslyReachable(s) && e.Arrive? && Enabled(s, e) && s.net[e.i].AtWallet?
    ensures var t := Apply(s, e);
      var id, last := s.net[e.i].id, Arrive(|t.net| - 1, false, NULL, NULL);
      var outcome := if e.error.Truthy() then Answer(e.error, Undefined) else Answer(NULL, P.Relabel(e.result));
      && id in s.provider.requests && Enabled(t, last)
      && Apply(t, last).net == Without(s.net, e.i)
      && Apply(t, last).provider.requests == s.provider.requests - {id}
      && Apply(t, last).provider.fired == s.provider.fired +
           if !e.error.Truthy() && e.result.Primitive? then [] else [Firing(Callback(id), outcome)]
  {
    hide Sum, HandshakeOk, PromptOk, TokensOk, PhasesOk, RecordsOk, LogOk, HistoryOk, P.OnWeb3;
    ReachableConserved(s);
    assert s.net[e.i] in s.net;
    PacketIsToken(s, s.net[e.i]);
    var id, out := s.net[e.i].id, W.OnAnswer(s.net[e.i].id, e.error, e.result);
    var t := Apply(s, e);
    assert t.net == Without(s.net, e.i) + [out];
    assert Without(t.net, |t.net| - 1) == Without(s.net, e.i);
    assert s.provider.requests[id] == Callback(id);
    ReplyLogs(s.provider, Record(id, s.net[e.i].call, ErrorIn(out.error), ResultIn(out.result)), out.error, out.result);
  }

  // ---------------------------------------------------------------- calls without an answer

  lemma {:induction false} RunLonger(s: System, es: seq<Event>, e: Event)
    requires IsRun(s, es) && Enabled(After(s, es), e)
    ensures IsRun(s, es + [e]) && After(s, es + [e]) == Apply(After(s, es), e)
    decreases |es|
  {
    var fs := es + [e];
    if es == [] {
      assert fs[1..] == [];
    } else {
      assert fs[1..] == es[1..] + [e];
      RunLonger(Apply(s, es[0]), es[1..], e);
    }
  }

  lemma ReachesNext(s: System, e: Event) returns (t: System)
    requires LosslesslyReachable(s) && Enabled(s, e) && !Faulty(e)
    ensures LosslesslyReachable(t) && t == Apply(s, e)
  {
    hide Apply, Enabled, Start, IsRun, After;
    t := Apply(s, e);
    var hasWallet, isMetamask, unlockUserAccounts, network, es :|
      var s0 := Start(hasWallet, isMetamask, unlockUserAccounts, network);
      IsRun(s0, es) && (forall e :: e in es ==> !Faulty(e)) && s == After(s0, es);
    RunLonger(Start(hasWallet, isMetamask, unlockUserAccounts, network), es, e);
  }

  lemma StartIsReachable(hasWallet: bool, isMetamask: bool, unlockUserAccounts: bool, network: int)
    ensures LosslesslyReachable(Start(hasWallet, isMetamask, unlockUserAccounts, network))
  {
    var none: seq<Event> := [];
    var s0 := Start(hasWallet, isMetamask, unlockUserAccounts, network);
    assert IsRun(s0, none) && After(s0, none) == s0;
  }

  /** A crypto wallet that the user has enabled, and a call on the way to it. */
  ghost predicate Calling(s: System, call: Call) {
    && s.provider == P.START.(waiting := false, noWallet := false, id := 1, requests := map[1 := Callback(1)])
    && s.wallet.hasWallet && s.wallet.hasWeb3 && !s.wallet.useUserAccounts && s.declines == {false}
    && s.net == [Request(1, call)] && s.suspended == map[] && s.calls == map[1 := call] && s.computed == {}
  }

  lemma CanCall(call: Call) returns (s: System)
    ensures LosslesslyReachable(s) && Calling(s, call)
  {
    hide LosslesslyReachable;
    s := Start(true, false, false, 1);
    StartIsReachable(true, false, false, 1);
    s := ReachesNext(s, Arrive(0, false, NULL, NULL));
    assert s.net == [Enabling];
    s := ReachesNext(s, Arrive(0, false, NULL, NULL));
    assert s.net == [Info(Some(WalletInfo(false, false, false)))];
    s := ReachesNext(s, Arrive(0, false, NULL, NULL));
    assert s.net == [];
    s := ReachesNext(s, Issue(call));
    s := ReachesNext(s, Resume(1));
  }

  /** The call was made, an enabled wallet is there, nothing is left to do, and there is no answer. */
  ghost predicate Unanswered(s: System, call: Call) {
    && LosslesslyReachable(s) && AtRest(s) && s.calls == map[1 := call]
    && Equipped(s.wallet) && s.declines == {false} && !Fired(s, 1)
  }

  /** Any malformed call can end so, with its callback in the table for good. */
  lemma MalformedCallsHang(call: Call) returns (s: System)
    requires call.rpc == "" || call.params.NotArray?
    ensures Unanswered(s, call) && 1 in s.provider.requests
  {
    hide LosslesslyReachable;
    s := CanCall(call);
    s := ReachesNext(s, Arrive(0, false, NULL, NULL));
    assert s.net == [];
  }

  /** Any other call can, if the wallet answers with a bare primitive; then its callback is gone. */
  lemma BareAnswersAreLost(call: Call, text: string) returns (s: System)
    requires call.rpc != "" && call.params.Array?
    ensures Unanswered(s, call) && Orphaned(s, 1) && BareAnswer(s, 1)
  {
    hide LosslesslyReachable;
    s := CanCall(call);
    s := ReachesNext(s, Arrive(0, false, NULL, NULL));
    assert s.net == [AtWallet(1, call)];
    s := ReachesNext(s, Arrive(0, false, NULL, Primitive(text)));
    assert s.net == [Reply(1, None, Some(Primitive(text)))];
    assert Record(1, call, NULL, Primitive(text)) in s.computed;
    s := ReachesNext(s, Arrive(0, false, NULL, NULL));
    assert s.net == [];
  }
}
