/** The data iframe's snapshot of the chain and its verdict: paywall/src/data-iframe/Mailbox.ts. */
module Mailbox {
  import opened Prelude
  import opened MainWindow

  /** A lock with the status of the user's key; only its address and that status decide. */
  datatype Lock = Lock(keyStatus: string, details: string)

  /** An object indexed by address, in the order in which its properties were added. */
  type Locks = seq<(string, Lock)>

  datatype Data = Data(
    locks: Locks, account: Option<string>, balance: string, network: int, keys: string, transactions: string)

  datatype Posted =
    | UpdateAccount(account: Option<string>)
    | UpdateAccountBalance(balance: string)
    | UpdateNetwork(network: int)
    | UpdateLocks(locks: Locks)
    | UpdateKeys(keys: string)
    | UpdateTransactions(transactions: string)
    | PostUnlocked(addresses: seq<string>)
    | PostLocked
    | PostError(message: string)

  /** The statuses under which a lock is open to its key's owner. */
  predicate Opens(status: string) {
    status in ["valid", "pending", "submitted", "confirming"]
  }

  /** The addresses of open locks, in the order of the snapshot. */
  function UnlockedAddresses(locks: Locks): seq<string> {
    if locks == [] then []
    else (if Opens(locks[0].1.keyStatus) then [locks[0].0] else []) + UnlockedAddresses(locks[1..])
  }

  lemma NextAddress(addresses: seq<string>, locks: Locks)
    requires locks != []
    ensures addresses + UnlockedAddresses(locks) ==
      (if Opens(locks[0].1.keyStatus) then addresses + [locks[0].0] else addresses) + UnlockedAddresses(locks[1..])
  {
    var rest := UnlockedAddresses(locks[1..]);
    hide Opens;
    if Opens(locks[0].1.keyStatus) {
      Regroup(addresses, [locks[0].0], rest);
    } else {
      assert [] + rest == rest;
    }
  }

  /** The message with the verdict on a snapshot, if it has one. */
  function VerdictMessage(locks: Locks): seq<Posted> {
    var unlocked := UnlockedAddresses(locks);
    if unlocked != [] then [PostUnlocked(unlocked)] else if locks != [] then [PostLocked] else []
  }

  /** The snapshot that is kept when a new one arrives. */
  function Kept(held: Data, data: Data): Data {
    if |data.locks| < |held.locks| then held else data
  }

  /** What is posted for a new snapshot besides the verdict. */
  function Details(kept: Data, data: Data): seq<Posted> {
    [UpdateAccount(kept.account), UpdateAccountBalance(kept.balance), UpdateNetwork(kept.network),
     UpdateLocks(kept.locks), UpdateKeys(data.keys), UpdateTransactions(data.transactions)]
  }

  /** Everything posted for a new snapshot: keys and transactions are the new ones in any case. */
  function Announced(held: Data, data: Data): seq<Posted> {
    Details(Kept(held, data), data) + VerdictMessage(Kept(held, data).locks)
  }

  /** The reply to a request for one kind of update. */
  function Updates(held: Data, request: string): seq<Posted> {
    VerdictMessage(held.locks) +
    match request
    case "locks" => [UpdateLocks(held.locks)]
    case "account" => [UpdateAccount(held.account)]
    case "balance" => [UpdateAccountBalance(held.balance)]
    case "network" => [UpdateNetwork(held.network)]
    case _ => [PostError("Unknown update requested: \"" + request + "\"")]
  }

  class Mailbox {
    var blockchainData: Data
    var posted: seq<Posted>

    constructor (cache: Data)
      ensures blockchainData == cache && posted == []
    {
      blockchainData, posted := cache, [];
    }

    method GetUnlockedLockAddresses() returns (addresses: seq<string>)
      ensures addresses == UnlockedAddresses(blockchainData.locks)
    {
      addresses := [];
      var locks := blockchainData.locks;
      var i := 0;
      while i < |locks|
        invariant 0 <= i <= |locks|
        invariant addresses + UnlockedAddresses(locks[i..]) == UnlockedAddresses(locks)
      {
        NextAddress(addresses, locks[i..]);
        assert locks[i..][1..] == locks[i + 1..];
        if Opens(locks[i].1.keyStatus) {
          addresses := addresses + [locks[i].0];
        }
        i := i + 1;
      }
    }

    method GetDataToSend(newData: Data) returns (dataToSend: Data)
      modifies this`blockchainData
      ensures blockchainData == dataToSend == Kept(old(blockchainData), newData)
    {
      var oldChainData := blockchainData;
      blockchainData := newData;
      var cachedLocksSize, newLocksSize := |oldChainData.locks|, |newData.locks|;
      if newLocksSize < cachedLocksSize {
        blockchainData := oldChainData;
      }
      dataToSend := if newLocksSize >= cachedLocksSize then newData else oldChainData;
    }

    method PostVerdict(locks: Locks)
      requires locks == blockchainData.locks
      modifies this`posted
      ensures posted == old(posted) + VerdictMessage(blockchainData.locks)
    {
      var unlockedLocks := GetUnlockedLockAddresses();
      if unlockedLocks != [] {
        posted := posted + [PostUnlocked(unlockedLocks)];
      } else if locks != [] {
        posted := posted + [PostLocked];
      }
    }

    method EmitChanges(newData: Data)
      modifies this
      ensures blockchainData == Kept(old(blockchainData), newData)
      ensures posted == old(posted) + Announced(old(blockchainData), newData)
    {
      var dataToSend := GetDataToSend(newData);
      posted := posted + [UpdateAccount(dataToSend.account)];
      posted := posted + [UpdateAccountBalance(dataToSend.balance)];
      posted := posted + [UpdateNetwork(dataToSend.network)];
      posted := posted + [UpdateLocks(dataToSend.locks)];
      posted := posted + [UpdateKeys(newData.keys)];
      posted := posted + [UpdateTransactions(newData.transactions)];
      PostVerdict(dataToSend.locks);
    }

    method SendUpdates(request: string)
      modifies this`posted
      ensures posted == old(posted) + Updates(blockchainData, request)
    {
      PostVerdict(blockchainData.locks);
      match request {
        case "locks" => posted := posted + [UpdateLocks(blockchainData.locks)];
        case "account" => posted := posted + [UpdateAccount(blockchainData.account)];
        case "balance" => posted := posted + [UpdateAccountBalance(blockchainData.balance)];
        case "network" => posted := posted + [UpdateNetwork(blockchainData.network)];
        case _ => posted := posted + [PostError("Unknown update requested: \"" + request + "\"")];
      }
    }
  }

  // ---------------------------------------------------------------- the held snapshot

  function Held(cache: Data, snapshots: seq<Data>): Data {
    if snapshots == [] then cache
    else Kept(Held(cache, snapshots[..|snapshots| - 1]), snapshots[|snapshots| - 1])
  }

  /** The starting cache followed by the snapshots. */
  function All(cache: Data, snapshots: seq<Data>): seq<Data> {
    [cache] + snapshots
  }

  /** Of all the snapshots so far, number i has no fewer locks than any, and is the last such. */
  ghost predicate LatestLargest(all: seq<Data>, i: nat) {
    && i < |all|
    && (forall j :: 0 <= j < |all| ==> |all[j].locks| <= |all[i].locks|)
    && (forall j :: i < j < |all| ==> |all[j].locks| < |all[i].locks|)
  }

  /** The held snapshot is the latest of those with the most locks, the cache among them. */
  lemma {:induction false} HeldIsLatestLargest(cache: Data, snapshots: seq<Data>) returns (i: nat)
    ensures LatestLargest(All(cache, snapshots), i) && All(cache, snapshots)[i] == Held(cache, snapshots)
  {
    if snapshots == [] {
      return 0;
    }
    var last := |snapshots| - 1;
    var before := All(cache, snapshots[..last]);
    i := HeldIsLatestLargest(cache, snapshots[..last]);
    assert All(cache, snapshots) == before + [snapshots[last]];
    if |snapshots[last].locks| >= |before[i].locks| {
      i := |snapshots|;
    }
  }

  /** There is only one such snapshot. */
  lemma LatestLargestIsUnique(all: seq<Data>, i: nat, j: nat)
    requires LatestLargest(all, i) && LatestLargest(all, j)
    ensures i == j
  {
    assert |all[i].locks| <= |all[j].locks| && |all[j].locks| <= |all[i].locks|;
  }

  // ---------------------------------------------------------------- the verdict

  lemma {:induction false} UnlockedAddressesAre(locks: Locks)
    ensures forall a :: a in UnlockedAddresses(locks) <==>
      exists i :: 0 <= i < |locks| && locks[i].0 == a && Opens(locks[i].1.keyStatus)
    decreases |locks|
  {
    if locks != [] {
      UnlockedAddressesAre(locks[1..]);
      assert forall i :: 0 < i < |locks| ==> locks[i] == locks[1..][i - 1];
      forall a
        ensures a in UnlockedAddresses(locks) <==>
          exists i :: 0 <= i < |locks| && locks[i].0 == a && Opens(locks[i].1.keyStatus)
      {
        if a in UnlockedAddresses(locks[1..]) {
          var i :| 0 <= i < |locks[1..]| && locks[1..][i].0 == a && Opens(locks[1..][i].1.keyStatus);
          assert locks[i + 1].0 == a;
        }
      }
    }
  }

  /** The statuses that a key can have. */
  const STATUSES := {"none", "confirming", "confirmed", "expired", "valid", "submitted", "pending", "failed"}

  /** A lock is closed to those without a key, with one that expired, or whose purchase failed. */
  lemma OpenUnlessClosed(status: string)
    ensures status in STATUSES - {"confirmed"} ==> (Opens(status) <==> status !in {"none", "expired", "failed"})
    ensures Opens(status) ==> status in STATUSES - {"confirmed"}
  {
  }

  /** The verdict a message carries, if it carries one. */
  function VerdictIn(m: Posted): seq<Verdict> {
    match m
    case PostUnlocked(_) => [Unlocked]
    case PostLocked => [Locked]
    case _ => []
  }

  function Carried(posted: seq<Posted>): seq<Verdict> {
    if posted == [] then [] else VerdictIn(posted[0]) + Carried(posted[1..])
  }

  ghost predicate AnyOpen(locks: Locks) {
    exists i :: 0 <= i < |locks| && Opens(locks[i].1.keyStatus)
  }

  /** The verdict on a snapshot: unlocked if some lock is open, none without locks. */
  ghost function VerdictOn(locks: Locks): seq<Verdict> {
    if AnyOpen(locks) then [Unlocked] else if locks != [] then [Locked] else []
  }

  lemma {:induction false} CarriedConcat(a: seq<Posted>, b: seq<Posted>)
    ensures Carried(a + b) == Carried(a) + Carried(b)
  {
    if a == [] {
      assert a + b == b;
    } else {
      assert (a + b)[1..] == a[1..] + b;
      CarriedConcat(a[1..], b);
    }
  }

  lemma VerdictMessageCarries(locks: Locks)
    ensures Carried(VerdictMessage(locks)) == VerdictOn(locks)
    ensures forall m :: m in VerdictMessage(locks) ==> m.PostUnlocked? || m.PostLocked?
    ensures forall m :: m in VerdictMessage(locks) && m.PostUnlocked? ==>
      forall a :: a in m.addresses <==>
        exists i :: 0 <= i < |locks| && locks[i].0 == a && Opens(locks[i].1.keyStatus)
  {
    UnlockedAddressesAre(locks);
    var unlocked := UnlockedAddresses(locks);
    if AnyOpen(locks) {
      var i :| 0 <= i < |locks| && Opens(locks[i].1.keyStatus);
      assert locks[i].0 in unlocked;
    }
    if unlocked != [] {
      assert unlocked[0] in unlocked;
    }
  }

  /** Posted values are those of the held snapshot, except keys and transactions. */
  predicate TellsOf(m: Posted, kept: Data, data: Data) {
    match m
    case UpdateAccount(account) => account == kept.account
    case UpdateAccountBalance(balance) => balance == kept.balance
    case UpdateNetwork(network) => network == kept.network
    case UpdateLocks(locks) => locks == kept.locks
    case UpdateKeys(keys) => keys == data.keys
    case UpdateTransactions(transactions) => transactions == data.transactions
    case PostUnlocked(addresses) => addresses == UnlockedAddresses(kept.locks)
    case PostLocked => UnlockedAddresses(kept.locks) == [] && kept.locks != []
    case PostError(_) => false
  }

  lemma DetailsAreNoVerdicts(kept: Data, data: Data)
    ensures Carried(Details(kept, data)) == []
    ensures UpdateLocks(kept.locks) in Details(kept, data)
    ensures forall m :: m in Details(kept, data) ==> TellsOf(m, kept, data)
  {
    assert Details(kept, data)[3] == UpdateLocks(kept.locks);
    NoVerdict(Details(kept, data));
  }

  /** A new snapshot is answered with the held snapshot's locks and verdict, and no other. */
  lemma AnnouncedCarryTheHeldVerdict(held: Data, data: Data)
    ensures var kept := Kept(held, data);
      && Carried(Announced(held, data)) == VerdictOn(kept.locks)
      && UpdateLocks(kept.locks) in Announced(held, data)
      && forall m :: m in Announced(held, data) ==> TellsOf(m, kept, data)
  {
    hide Details, Carried, VerdictOn;
    var kept := Kept(held, data);
    DetailsAreNoVerdicts(kept, data);
    CarriedConcat(Details(kept, data), VerdictMessage(kept.locks));
    VerdictMessageCarries(kept.locks);
  }

  /** Each part of the snapshot is posted once, before a verdict. */
  lemma AnnouncedInFull(held: Data, data: Data)
    ensures var posted, kept := Announced(held, data), if |data.locks| >= |held.locks| then data else held;
      && 6 <= |posted| <= 7
      && posted[0] == UpdateAccount(kept.account) && posted[1] == UpdateAccountBalance(kept.balance)
      && posted[2] == UpdateNetwork(kept.network) && posted[3] == UpdateLocks(kept.locks)
      && posted[4] == UpdateKeys(data.keys) && posted[5] == UpdateTransactions(data.transactions)
      && Carried(posted[6..]) == VerdictOn(kept.locks)
  {
    VerdictMessageCarries(Kept(held, data).locks);
    assert Announced(held, data)[6..] == VerdictMessage(Kept(held, data).locks);
  }

  /** All that is posted is the held snapshot's, its keys and transactions too. */
  ghost predicate Consistent(held: Data, data: Data) {
    forall m :: m in Announced(held, data) ==> TellsOf(m, Kept(held, data), Kept(held, data))
  }

  /**
   * What is posted for a new snapshot is of one snapshot if and only if the new one has not
   * fewer locks, or brings the same keys and transactions.
   */
  lemma AnnouncedAreOfOneSnapshotExactly(held: Data, data: Data)
    ensures Consistent(held, data) <==>
      |data.locks| >= |held.locks| || (data.keys == held.keys && data.transactions == held.transactions)
  {
    hide UnlockedAddresses;
    var kept := Kept(held, data);
    assert Announced(held, data)[4] == UpdateKeys(data.keys);
    assert Announced(held, data)[5] == UpdateTransactions(data.transactions);
    assert UpdateKeys(data.keys) in Announced(held, data);
    assert UpdateTransactions(data.transactions) in Announced(held, data);
    assert forall m :: m in Announced(held, data) ==> m in Details(kept, data) || m in VerdictMessage(kept.locks);
  }

  /** While locks are still loading, the cached lock goes out with the new keys. */
  lemma NewKeysWithOldLocks() returns (held: Data, data: Data)
    ensures UpdateLocks(held.locks) in Announced(held, data) && UpdateKeys(data.keys) in Announced(held, data)
    ensures held.keys != data.keys && !Consistent(held, data)
  {
    held := Data([("0x1", Lock("valid", ""))], None, "0", 1, "cached", "");
    data := Data([], None, "0", 1, "new", "");
    AnnouncedAreOfOneSnapshotExactly(held, data);
    assert Announced(held, data)[3] == UpdateLocks(held.locks) && Announced(held, data)[4] == UpdateKeys(data.keys);
  }

  lemma {:induction false} NoVerdict(posted: seq<Posted>)
    requires forall m :: m in posted ==> !m.PostUnlocked? && !m.PostLocked?
    ensures Carried(posted) == []
  {
    if posted != [] {
      assert posted[0] in posted;
      NoVerdict(posted[1..]);
    }
  }

  /** A request is answered with the held value it asks for, after the verdict, or with an error. */
  lemma UpdatesAnswerTheRequest(held: Data, request: string)
    ensures var replies := Updates(held, request);
      && replies != []
      && Carried(replies[..|replies| - 1]) == VerdictOn(held.locks)
      && (request == "locks" <==> replies[|replies| - 1] == UpdateLocks(held.locks))
      && (request == "account" <==> replies[|replies| - 1] == UpdateAccount(held.account))
      && (request == "balance" <==> replies[|replies| - 1] == UpdateAccountBalance(held.balance))
      && (request == "network" <==> replies[|replies| - 1] == UpdateNetwork(held.network))
      && (request !in {"locks", "account", "balance", "network"} ==>
            replies[|replies| - 1] == PostError("Unknown update requested: \"" + request + "\""))
  {
    var replies := Updates(held, request);
    VerdictMessageCarries(held.locks);
    assert replies[..|replies| - 1] == VerdictMessage(held.locks);
  }

  lemma UpdatesCarryTheHeldVerdict(held: Data, request: string)
    ensures Carried(Updates(held, request)) == VerdictOn(held.locks)
  {
    var reply := Updates(held, request)[|VerdictMessage(held.locks)|..];
    assert Updates(held, request) == VerdictMessage(held.locks) + reply;
    NoVerdict(reply);
    CarriedConcat(VerdictMessage(held.locks), reply);
    VerdictMessageCarries(held.locks);
  }
}
