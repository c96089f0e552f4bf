/** Which contract version an address has: contractAbiVersion of unlock-js/src/unlockService.js. */
module AbiVersions {
  import opened Prelude

  datatype Abi = V0 | V01 | V02 | V10 | V11

  /** The two ways in which a version is looked up on the chain. */
  datatype Lookup = UnlockVersion | LockVersion

  function AbiOf(version: int): Abi {
    if version == 1 then V01 else if version == 2 then V02 else if version == 3 then V10
    else if version == 4 then V11 else V0
  }

  /** A call of contractAbiVersion. */
  datatype Call = Call(address: string, lookup: Lookup)

  /** What the chain answers, for addresses in lower case. */
  type Chain = (string, Lookup) -> int

  /** What a call would return if nothing were memoised. */
  function Uncached(chain: Chain, call: Call): Abi {
    AbiOf(chain(Lower(call.address), call.lookup))
  }

  datatype Result = Result(call: Call, abi: Abi)

  /** The memo table, the lookups under way, those made so far, and the calls that returned. */
  datatype State = State(
    versionForAddress: map<string, int>, pending: seq<Call>, queried: seq<string>, results: seq<Result>)

  const EMPTY := State(map[], [], [], [])

  datatype Event = Begin(call: Call) | Finish(i: nat)

  predicate Enabled(s: State, e: Event) {
    e.Finish? ==> e.i < |s.pending|
  }

  /** The call up to the await: answered from the table, or looked up. */
  function Begun(s: State, call: Call): State {
    var address := Lower(call.address);
    if address in s.versionForAddress then
      s.(results := s.results + [Result(call, AbiOf(s.versionForAddress[address]))])
    else s.(pending := s.pending + [call], queried := s.queried + [address])
  }

  /** The rest of a call that looked the version up. */
  function Finished(s: State, call: Call, version: int): State {
    s.(versionForAddress := s.versionForAddress[Lower(call.address) := version],
       results := s.results + [Result(call, AbiOf(version))])
  }

  function Apply(chain: Chain, s: State, e: Event): State
    requires Enabled(s, e)
  {
    match e
    case Begin(call) => Begun(s, call)
    case Finish(i) =>
      var call := s.pending[i];
      Finished(s.(pending := Without(s.pending, i)), call, chain(Lower(call.address), call.lookup))
  }

  class UnlockService {
    var versionForAddress: map<string, int>
    var pending: seq<Call>
    var queried: seq<string>
    var results: seq<Result>

    ghost function Now(): State
      reads this
    {
      State(versionForAddress, pending, queried, results)
    }

    constructor ()
      ensures Now() == EMPTY
    {
      versionForAddress, pending, queried, results := map[], [], [], [];
    }

    method AbiForVersion(version: int) returns (abi: Abi)
      ensures abi == AbiOf(version)
    {
      if 1 == version {
        return V01;
      }
      if 2 == version {
        return V02;
      }
      if 3 == version {
        return V10;
      }
      if 4 == version {
        return V11;
      }
      return V0;
    }

    method ContractAbiVersion(call: Call)
      modifies this
      ensures Now() == Begun(old(Now()), call)
    {
      var contractAddress := Lower(call.address);
      if contractAddress in versionForAddress {
        var abi := AbiForVersion(versionForAddress[contractAddress]);
        results := results + [Result(call, abi)];
      } else {
        queried := queried + [contractAddress];
        pending := pending + [call];
      }
    }

    method ResumeContractAbiVersion(i: nat, version: int)
      requires i < |pending|
      modifies this
      ensures Now() == Finished(old(Now()).(pending := Without(old(pending), i)), old(pending)[i], version)
    {
      var call := pending[i];
      pending := Without(pending, i);
      versionForAddress := versionForAddress[Lower(call.address) := version];
      var abi := AbiForVersion(version);
      results := results + [Result(call, abi)];
    }
  }

  /** How many interfaces are older. */
  function Age(abi: Abi): nat {
    match abi
    case V0 => 0
    case V01 => 1
    case V02 => 2
    case V10 => 3
    case V11 => 4
  }

  /** Known version numbers are in the order of their interfaces, and unknown ones mean the oldest. */
  lemma VersionsAreInOrder(a: int, b: int)
    ensures 1 <= a < b <= 4 ==> Age(AbiOf(a)) < Age(AbiOf(b))
    ensures Age(AbiOf(a)) > 0 <==> 1 <= a <= 4
  {
  }

  // ---------------------------------------------------------------- overlapping calls

  ghost predicate IsRun(chain: Chain, s: State, es: seq<Event>)
    decreases |es|
  {
    es == [] || (Enabled(s, es[0]) && IsRun(chain, Apply(chain, s, es[0]), es[1..]))
  }

  ghost function After(chain: Chain, s: State, es: seq<Event>): State
    requires IsRun(chain, s, es)
    decreases |es|
  {
    if es == [] then s else After(chain, Apply(chain, s, es[0]), es[1..])
  }

  /** Calls for one address, in any letter case, agree on the version whichever way they look it up. */
  ghost predicate Agree(chain: Chain, calls: set<Call>) {
    forall a, b :: a in calls && b in calls && SameButCase(a.address, b.address) ==>
      Uncached(chain, a) == Uncached(chain, b)
  }

  ghost predicate CallsFrom(calls: set<Call>, es: seq<Event>) {
    forall e :: e in es && e.Begin? ==> e.call in calls
  }

  /** In every interleaving of the calls, each one returns what it would without the table. */
  ghost predicate Transparent(chain: Chain, calls: set<Call>) {
    forall es | CallsFrom(calls, es) && IsRun(chain, EMPTY, es) ::
      forall r :: r in After(chain, EMPTY, es).results ==> r.abi == Uncached(chain, r.call)
  }

  ghost predicate Faithful(chain: Chain, calls: set<Call>, s: State) {
    && (forall c :: c in s.pending ==> c in calls)
    && (forall a :: a in s.versionForAddress ==>
          exists c :: c in calls && Lower(c.address) == a && AbiOf(s.versionForAddress[a]) == Uncached(chain, c))
    && (forall r :: r in s.results ==> r.abi == Uncached(chain, r.call))
  }

  lemma {:induction false} StepStaysFaithful(chain: Chain, calls: set<Call>, s: State, e: Event)
    requires Agree(chain, calls) && Faithful(chain, calls, s) && Enabled(s, e)
    requires e.Begin? ==> e.call in calls
    ensures Faithful(chain, calls, Apply(chain, s, e))
  {
    var t := Apply(chain, s, e);
    match e
    case Begin(call) =>
      var a := Lower(call.address);
      if a in s.versionForAddress {
        var c :| c in calls && Lower(c.address) == a && AbiOf(s.versionForAddress[a]) == Uncached(chain, c);
        LowerFoldsCase(c.address, call.address);
        assert Uncached(chain, c) == Uncached(chain, call);
      }
    case Finish(i) =>
      var call := s.pending[i];
      assert call in s.pending;
      forall a | a in t.versionForAddress
        ensures exists c :: c in calls && Lower(c.address) == a && AbiOf(t.versionForAddress[a]) == Uncached(chain, c)
      {
        if a == Lower(call.address) {
          assert AbiOf(t.versionForAddress[a]) == Uncached(chain, call);
        } else {
          assert a in s.versionForAddress;
        }
      }
  }

  lemma {:induction false} RunStaysFaithful(chain: Chain, calls: set<Call>, s: State, es: seq<Event>)
    requires Agree(chain, calls) && Faithful(chain, calls, s) && CallsFrom(calls, es) && IsRun(chain, s, es)
    ensures Faithful(chain, calls, After(chain, s, es))
    decreases |es|
  {
    if es != [] {
      StepStaysFaithful(chain, calls, s, es[0]);
      RunStaysFaithful(chain, calls, Apply(chain, s, es[0]), es[1..]);
    }
  }

  lemma Prepend(chain: Chain, s: State, e: Event, es: seq<Event>)
    requires Enabled(s, e) && IsRun(chain, Apply(chain, s, e), es)
    ensures IsRun(chain, s, [e] + es) && After(chain, s, [e] + es) == After(chain, Apply(chain, s, e), es)
  {
    assert ([e] + es)[1..] == es;
  }

  /** After one call has filled the table, the other is answered with the wrong version. */
  lemma DisagreementShows(chain: Chain, a: Call, b: Call)
    requires SameButCase(a.address, b.address) && Uncached(chain, a) != Uncached(chain, b)
    ensures !Transparent(chain, {a, b})
  {
    LowerFoldsCase(a.address, b.address);
    var s1 := Apply(chain, EMPTY, Begin(a));
    var s2 := Apply(chain, s1, Finish(0));
    var s3 := Apply(chain, s2, Begin(b));
    Prepend(chain, s2, Begin(b), []);
    Prepend(chain, s1, Finish(0), [Begin(b)] + []);
    Prepend(chain, EMPTY, Begin(a), [Finish(0)] + ([Begin(b)] + []));
    var es := [Begin(a)] + ([Finish(0)] + ([Begin(b)] + []));
    assert After(chain, EMPTY, es) == s3;
    assert s3.results[1] == Result(b, Uncached(chain, a)) && s3.results[1] in s3.results;
    assert CallsFrom({a, b}, es);
  }

  /**
   * The memo table is invisible in every interleaving of overlapping calls, for every
   * letter case, if and only if calls for one address agree however they look it up: the
   * table is indexed by the address alone.
   */
  lemma TransparentExactlyWhenAgreed(chain: Chain, calls: set<Call>)
    ensures Transparent(chain, calls) <==> Agree(chain, calls)
  {
    if Agree(chain, calls) {
      forall es | CallsFrom(calls, es) && IsRun(chain, EMPTY, es)
        ensures forall r :: r in After(chain, EMPTY, es).results ==> r.abi == Uncached(chain, r.call)
      {
        RunStaysFaithful(chain, calls, EMPTY, es);
      }
    } else {
      var a, b :| a in calls && b in calls && SameButCase(a.address, b.address)
        && Uncached(chain, a) != Uncached(chain, b);
      DisagreementShows(chain, a, b);
      var es :| CallsFrom({a, b}, es) && IsRun(chain, EMPTY, es)
        && exists r :: r in After(chain, EMPTY, es).results && r.abi != Uncached(chain, r.call);
      assert CallsFrom(calls, es);
    }
  }

  /** How the tracker of a transaction looks up the version of the contract it was sent to. */
  function CallFor(unlockAddress: string, to: string): Call {
    Call(to, if to == unlockAddress then UnlockVersion else LockVersion)
  }

  /**
   * Addresses are compared as they are written, but memoised in lower case: the Unlock
   * address written in another case is looked up as a lock and can spoil the table.
   */
  lemma OtherCaseCanSpoil(chain: Chain, unlockAddress: string, to: string)
    requires to != unlockAddress && SameButCase(to, unlockAddress)
    ensures Transparent(chain, {CallFor(unlockAddress, to), CallFor(unlockAddress, unlockAddress)}) <==>
      AbiOf(chain(Lower(unlockAddress), LockVersion)) == AbiOf(chain(Lower(unlockAddress), UnlockVersion))
  {
    var a, b := CallFor(unlockAddress, to), CallFor(unlockAddress, unlockAddress);
    LowerFoldsCase(to, unlockAddress);
    LowerFoldsCase(unlockAddress, to);
    TransparentExactlyWhenAgreed(chain, {a, b});
    assert Agree(chain, {a, b}) <==> Uncached(chain, a) == Uncached(chain, b);
  }

  // ---------------------------------------------------------------- one call after the other

  /** Each call begins when the previous one has returned. */
  function InTurn(chain: Chain, s: State, calls: seq<Call>): State
    requires s.pending == []
    decreases |calls|
  {
    if calls == [] then s
    else
      var begun := Begun(s, calls[0]);
      var done := if begun.pending == [] then begun else Apply(chain, begun, Finish(0));
      InTurn(chain, done, calls[1..])
  }

  /** Queries are made once, for the addresses that are then in the table. */
  ghost predicate QueriedOnce(s: State) {
    && (forall a :: a in s.queried <==> a in s.versionForAddress)
    && (forall i, j :: 0 <= i < j < |s.queried| ==> s.queried[i] != s.queried[j])
  }

  lemma {:induction false} TurnsQueryOnce(chain: Chain, s: State, calls: seq<Call>)
    requires s.pending == [] && QueriedOnce(s)
    ensures var t := InTurn(chain, s, calls);
      && QueriedOnce(t) && |t.results| == |s.results| + |calls|
      && (forall a :: a in t.queried <==> a in s.queried || exists c :: c in calls && Lower(c.address) == a)
    decreases |calls|
  {
    if calls != [] {
      var begun := Begun(s, calls[0]);
      var address := Lower(calls[0].address);
      var next := if begun.pending == [] then begun else Apply(chain, begun, Finish(0));
      assert begun.pending != [] ==> begun.pending == [calls[0]];
      assert forall a :: a in next.queried <==> a in s.queried || a == address;
      TurnsQueryOnce(chain, next, calls[1..]);
      assert forall c :: c in calls <==> c == calls[0] || c in calls[1..];
    }
  }

  /**
   * Calls that do not overlap query each address exactly once, in whatever letter case it
   * is written, and every call returns.
   */
  lemma CallsInTurnQueryOnce(chain: Chain, calls: seq<Call>)
    ensures var t := InTurn(chain, EMPTY, calls);
      && |t.results| == |calls|
      && (forall i, j :: 0 <= i < j < |t.queried| ==> !SameButCase(t.queried[i], t.queried[j]))
      && (forall c :: c in calls ==> exists a :: a in t.queried && SameButCase(c.address, a))
      && (forall a :: a in t.queried ==> exists c :: c in calls && SameButCase(c.address, a))
  {
    hide Lower, SameButCase;
    TurnsQueryOnce(chain, EMPTY, calls);
    var t := InTurn(chain, EMPTY, calls);
    forall a, b {
      LowerFoldsCase(a, b);
    }
    forall c | c in calls
      ensures Lower(c.address) in t.queried && SameButCase(c.address, Lower(c.address))
    {
    }
    forall i | 0 <= i < |t.queried|
      ensures Lower(t.queried[i]) == t.queried[i]
    {
      assert t.queried[i] in t.queried;
      var c :| c in calls && Lower(c.address) == t.queried[i];
      LowerIdempotent(c.address);
    }
  }
}
