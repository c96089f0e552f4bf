/**
 * How lock.updated events reach the store: the handler of
 * paywall/src/middlewares/web3Middleware.js and paywall/src/reducers/locksReducer.js.
 */
module LockUpdates {
  import opened Prelude

  datatype Attribute = Number(n: int) | Text(text: string) | Null

  /**
   * A lock, or an update of one: its address and asOf when those properties are
   * present, and every other property by name.
   */
  datatype Lock = Lock(address: Option<string>, asOf: Option<int>, rest: map<string, Attribute>)

  type Locks = map<string, Lock>

  /** The spread {...lock, ...update}. */
  function Merge(lock: Lock, update: Lock): Lock {
    Lock(if update.address.Some? then update.address else lock.address,
         if update.asOf.Some? then update.asOf else lock.asOf,
         lock.rest + update.rest)
  }

  /** The guard of both reducer branches: a truthy address other than the action's. */
  predicate WrongAddress(address: string, update: Lock) {
    update.address.Some? && update.address.value != "" && update.address.value != address
  }

  datatype Action =
    | SetProvider
    | SetNetwork
    | AddLock(address: string, lock: Lock)
    | UpdateLock(address: string, update: Lock)
    | DeleteLock(address: string)
    | DeleteTransaction(lockOf: Option<string>)

  function Reduce(state: Locks, action: Action): Locks {
    match action
    case SetProvider => map[]
    case SetNetwork => map[]
    case AddLock(address, lock) =>
      if WrongAddress(address, lock) || address in state then state
      else state[address := Merge(Lock(Some(address), None, map[]), lock)]
    case UpdateLock(address, update) =>
      if WrongAddress(address, update) || address !in state then state
      else state[address := Merge(state[address], update)]
    case DeleteLock(address) => state - {address}
    case DeleteTransaction(lockOf) => if lockOf.Some? && lockOf.value != "" then state - {lockOf.value} else state
  }

  /** lock.asOf is missing or zero, or is less than update.asOf as JavaScript compares them. */
  predicate Fresher(lock: Lock, update: Lock) {
    || lock.asOf.None? || lock.asOf.value == 0
    || (update.asOf.Some? && lock.asOf.value < update.asOf.value)
  }

  /** The action that a lock.updated event for address leads to, under the stored lock's address. */
  function ActionFor(state: Locks, address: string, update: Lock): Option<Action> {
    if address !in state then Some(AddLock(address, update))
    else if Fresher(state[address], update) then Some(UpdateLock(StoredAddress(state[address]), update))
    else None
  }

  /** A property name that is missing reads as the string "undefined". */
  function StoredAddress(lock: Lock): string {
    if lock.address.Some? then lock.address.value else "undefined"
  }

  /** The store after a lock.updated event for address. */
  function Updated(state: Locks, address: string, update: Lock): Locks {
    var action := ActionFor(state, address, update);
    if action.None? then state else Reduce(state, action.value)
  }

  /** With an account, the middleware then reads the lock that the action was about. */
  predicate Throws(state: Locks, address: string, update: Lock, signedIn: bool) {
    var action := ActionFor(state, address, update);
    signedIn && action.Some? && action.value.address !in Updated(state, address, update)
  }

  /** A state object, as other code may hold a reference to it. */
  class LocksObject {
    var entries: Locks

    constructor (entries: Locks)
      ensures this.entries == entries
    {
      this.entries := entries;
    }
  }

  /**
   * The reducer on state objects: it returns the object it was given or a new one, and
   * only deleting a lock also changes the old object.
   */
  method LocksReducer(state: LocksObject, action: Action) returns (next: LocksObject)
    modifies state
    ensures next.entries == Reduce(old(state.entries), action)
    ensures next == state || fresh(next)
    ensures state.entries == if action.DeleteLock? then old(state.entries) - {action.address} else old(state.entries)
    ensures action.AddLock? && action.address in old(state.entries) ==> next == state
    ensures action.UpdateLock? && action.address !in old(state.entries) ==> next == state
  {
    match action {
      case SetProvider => next := new LocksObject(map[]);
      case SetNetwork => next := new LocksObject(map[]);
      case AddLock(address, lock) =>
        if WrongAddress(address, lock) || address in state.entries {
          return state;
        }
        next := new LocksObject(state.entries[address := Merge(Lock(Some(address), None, map[]), lock)]);
      case UpdateLock(address, update) =>
        if WrongAddress(address, update) || address !in state.entries {
          return state;
        }
        next := new LocksObject(state.entries[address := Merge(state.entries[address], update)]);
      case DeleteLock(address) =>
        state.entries := state.entries - {address};
        next := new LocksObject(state.entries);
      case DeleteTransaction(lockOf) =>
        if lockOf.None? || lockOf.value == "" {
          return state;
        }
        next := new LocksObject(state.entries - {lockOf.value});
    }
  }

  /** The part of the redux store that holds locks, and the middleware's handler on it. */
  class LockStore {
    var locks: LocksObject

    constructor ()
      ensures locks.entries == map[] && fresh(locks)
    {
      locks := new LocksObject(map[]);
    }

    method OnLockUpdated(address: string, update: Lock, signedIn: bool) returns (threw: bool)
      modifies this, locks
      ensures locks.entries == Updated(old(locks.entries), address, update)
      ensures threw == Throws(old(locks.entries), address, update, signedIn)
      ensures old(locks).entries == old(locks.entries)
      ensures locks == old(locks) || fresh(locks)
    {
      if address in locks.entries {
        var lock := locks.entries[address];
        if Fresher(lock, update) {
          locks := LocksReducer(locks, UpdateLock(StoredAddress(lock), update));
          return signedIn && StoredAddress(lock) !in locks.entries;
        }
        return false;
      } else {
        locks := LocksReducer(locks, AddLock(address, update));
        return signedIn && address !in locks.entries;
      }
    }
  }

  // ---------------------------------------------------------------- every event

  /** Each lock is stored under its own address. */
  ghost predicate OwnAddresses(state: Locks) {
    forall a :: a in state ==> state[a].address == Some(a)
  }

  /** An event that names its lock by no address, or by the right one. */
  predicate NamesItself(address: string, update: Lock) {
    update.address.None? || update.address.value == address
  }

  /** asOf as the handler reads it: a missing value counts as zero. */
  function AsOf(lock: Lock): int {
    if lock.asOf.Some? then lock.asOf.value else 0
  }

  ghost predicate Dated(state: Locks) {
    forall a :: a in state ==> 0 <= AsOf(state[a])
  }

  /**
   * Partial or full, in any order: an event changes no lock but its own, keeps it under
   * its address, never lowers its asOf, and never removes one of its properties. One that
   * is no fresher than the stored lock changes nothing; a fresher one sets its properties.
   */
  lemma UpdatesOnlyAdvance(state: Locks, address: string, update: Lock)
    requires OwnAddresses(state) && Dated(state)
    requires NamesItself(address, update) && 0 <= AsOf(update)
    ensures var after := Updated(state, address, update);
      && OwnAddresses(after) && Dated(after)
      && after.Keys == state.Keys + {address}
      && (forall a :: a in state && a != address ==> after[a] == state[a])
      && (address in state ==>
            && AsOf(state[address]) <= AsOf(after[address])
            && state[address].rest.Keys <= after[address].rest.Keys)
    ensures address in state && 0 < AsOf(state[address]) && AsOf(update) <= AsOf(state[address]) ==>
      Updated(state, address, update) == state
    ensures address !in state || AsOf(state[address]) == 0 || AsOf(state[address]) < AsOf(update) ==>
      var after := Updated(state, address, update)[address];
      && AsOf(after) == AsOf(update)
      && (forall k :: k in update.rest ==> k in after.rest && after.rest[k] == update.rest[k])
      && (forall k :: k in after.rest && k !in update.rest ==>
            address in state && k in state[address].rest && after.rest[k] == state[address].rest[k])
  {
  }

  /**
   * The handler throws exactly when an account is signed in and it addresses a lock that is
   * not stored then: a fresher event for a lock that is stored under another address than
   * it names, or the event of a new lock that names another one.
   */
  lemma HandlerThrowsExactlyFor(state: Locks, address: string, update: Lock, signedIn: bool)
    ensures Throws(state, address, update, signedIn) <==>
      signedIn && if address in state
                  then Fresher(state[address], update) && StoredAddress(state[address]) !in state
                  else update.address.Some? && update.address.value !in {"", address}
    ensures OwnAddresses(state) ==>
      (Throws(state, address, update, signedIn) <==>
         signedIn && address !in state && update.address.Some? && update.address.value !in {"", address})
  {
  }

  /** A property is the one that an update brings, or else the one before. */
  predicate Brings<T(==)>(update: Option<T>, before: Option<T>, after: Option<T>) {
    (update.Some? ==> after == update) && (update.None? ==> after == before)
  }

  /** Adding and updating reach one lock, property by property, if the action names no other address. */
  lemma ActionsReachOneLock(state: Locks, address: string, lock: Lock)
    ensures var named := lock.address in {None, Some(""), Some(address)};
      && (named && address !in state ==>
            var added := Lock(if lock.address.Some? then lock.address else Some(address), lock.asOf, lock.rest);
            Reduce(state, AddLock(address, lock)) == state[address := added])
      && (named && address in state ==>
            var after := Reduce(state, UpdateLock(address, lock));
            && after == state[address := after[address]]
            && Brings(lock.address, state[address].address, after[address].address)
            && Brings(lock.asOf, state[address].asOf, after[address].asOf)
            && after[address].rest.Keys == state[address].rest.Keys + lock.rest.Keys
            && forall k :: k in after[address].rest ==>
                 after[address].rest[k] == if k in lock.rest then lock.rest[k] else state[address].rest[k])
      && (!named || address in state ==> Reduce(state, AddLock(address, lock)) == state)
      && (!named || address !in state ==> Reduce(state, UpdateLock(address, lock)) == state)
  {
    assert map[] + lock.rest == lock.rest;
    if address in state {
      assert Merge(state[address], lock).rest.Keys == state[address].rest.Keys + lock.rest.Keys;
    }
  }

  /** What the other actions leave: they only forget locks, and adding and updating never trade places. */
  lemma ActionsForgetOnly(state: Locks, action: Action, a: string)
    requires action.AddLock? ==> action.address in state
    requires action.UpdateLock? ==> action.address !in state
    ensures a in Reduce(state, action) ==> a in state && Reduce(state, action)[a] == state[a]
    ensures a in state && a !in Reduce(state, action) <==>
      a in state && match action
                    case SetProvider => true
                    case SetNetwork => true
                    case DeleteLock(address) => a == address
                    case DeleteTransaction(lockOf) => lockOf == Some(a) && a != ""
                    case _ => false
  {
  }

  /** Some event for the address changes the lock that is stored under it. */
  ghost predicate Updatable(state: Locks, address: string)
    requires address in state
  {
    exists update: Lock :: Changes(state, address, update)
  }

  ghost predicate Changes(state: Locks, address: string, update: Lock)
    requires address in state
  {
    var after := Updated(state, address, update);
    address in after && after[address] != state[address]
  }

  /** The handler addresses its update by what the stored lock says, so that has to be right. */
  lemma OnlyOwnAddressesAreUpdatable(state: Locks, address: string)
    requires address in state
    ensures Updatable(state, address) <==>
      state[address].address == Some(address) || (state[address].address.None? && address == "undefined")
  {
    var lock := state[address];
    if StoredAddress(lock) == address {
      var newer := Lock(None, Some(1 + if AsOf(lock) < 0 then 0 else AsOf(lock)), map[]);
      assert Changes(state, address, newer);
    }
  }

  /**
   * A new lock is stored if and only if its event names no other address, and can be updated
   * from then on if and only if the event does not name the empty one either.
   */
  lemma NewLocksAreUpdatable(state: Locks, address: string, first: Lock)
    requires address !in state
    ensures var stored := Updated(state, address, first);
      && (address in stored <==> first.address in {None, Some(""), Some(address)})
      && (address in stored ==> (Updatable(stored, address) <==> NamesItself(address, first)))
  {
    var stored := Updated(state, address, first);
    if address in stored {
      OnlyOwnAddressesAreUpdatable(stored, address);
    }
  }

  // ---------------------------------------------------------------- delivery orders

  /** The store after a sequence of events for one address. */
  function Deliver(state: Locks, address: string, events: seq<Lock>): Locks
    decreases |events|
  {
    if events == [] then state else Deliver(Updated(state, address, events[0]), address, events[1..])
  }

  /** An event that names its own lock and carries a positive block number. */
  predicate Numbered(address: string, e: Lock) {
    NamesItself(address, e) && e.asOf.Some? && 0 < e.asOf.value
  }

  /** Events that carry distinct positive block numbers and name their own lock. */
  ghost predicate Distinct(address: string, events: seq<Lock>) {
    && (forall i :: 0 <= i < |events| ==> Numbered(address, events[i]))
    && (forall i, j :: 0 <= i < j < |events| ==> events[i].asOf != events[j].asOf)
  }

  ghost predicate Latest(events: seq<Lock>, e: Lock) {
    e in events && forall x :: x in events ==> AsOf(x) <= AsOf(e)
  }

  /** The properties stored for the address so far. */
  function Base(state: Locks, address: string): map<string, Attribute> {
    if address in state then state[address].rest else map[]
  }

  /** The block number stored for the address so far; zero if there is none. */
  function Date(state: Locks, address: string): int {
    if address in state then AsOf(state[address]) else 0
  }

  /** Any property that e sets and the latest event does not is stored already, with the same value. */
  ghost predicate AddsNothing(base: map<string, Attribute>, e: Lock, latest: Lock) {
    forall k :: k in e.rest && k !in latest.rest ==> k in base && base[k] == e.rest[k]
  }

  /** So does any event that the handler may take to be fresher than the stored lock. */
  ghost predicate Covered(state: Locks, address: string, events: seq<Lock>, latest: Lock) {
    forall e :: e in events && AsOf(e) > Date(state, address) ==> AddsNothing(Base(state, address), e, latest)
  }

  /** The stored lock with the latest event alone merged into it, if that is fresher. */
  function With(state: Locks, address: string, latest: Lock): Locks {
    if AsOf(latest) <= Date(state, address) then state
    else state[address := Lock(Some(address), latest.asOf, Base(state, address) + latest.rest)]
  }

  /** The lock, if it is stored, names its own address. */
  predicate Own(state: Locks, address: string) {
    address in state ==> state[address].address == Some(address)
  }

  /** All delivery orders of the events end alike. */
  ghost predicate Converges(state: Locks, address: string, events: seq<Lock>) {
    forall p, q :: Permutation(p, events) && Permutation(q, events) ==>
      Deliver(state, address, p) == Deliver(state, address, q)
  }

  /** An event is merged if it is fresher, and ignored otherwise. */
  lemma UpdatedIs(state: Locks, address: string, e: Lock)
    requires Own(state, address) && Numbered(address, e)
    ensures Updated(state, address, e) == With(state, address, e)
    ensures Own(With(state, address, e), address) && Date(state, address) <= Date(With(state, address, e), address)
  {
  }

  /** What an older event adds is overwritten by the latest, or was there before. */
  lemma OlderAddsNothing(state: Locks, address: string, e: Lock, latest: Lock)
    requires AsOf(e) < AsOf(latest)
    requires AsOf(e) > Date(state, address) ==> AddsNothing(Base(state, address), e, latest)
    ensures With(With(state, address, e), address, latest) == With(state, address, latest)
  {
    if AsOf(e) > Date(state, address) {
      assert Base(state, address) + e.rest + latest.rest == Base(state, address) + latest.rest;
    }
  }

  /** Whatever the base, what adds nothing to it still adds nothing once another such event is merged. */
  lemma StillAddsNothing(state: Locks, address: string, e: Lock, other: Lock, latest: Lock)
    requires AsOf(other) > Date(state, address) ==> AddsNothing(Base(state, address), other, latest)
    requires AsOf(e) > Date(state, address) ==> AddsNothing(Base(state, address), e, latest)
    ensures AsOf(other) > Date(With(state, address, e), address) ==>
      AddsNothing(Base(With(state, address, e), address), other, latest)
  {
  }

  /** Nothing changes once the latest event is stored. */
  lemma {:induction false} LatestSettles(state: Locks, address: string, events: seq<Lock>)
    requires Own(state, address)
    requires forall e :: e in events ==> Numbered(address, e) && AsOf(e) <= Date(state, address)
    ensures Deliver(state, address, events) == state
    decreases |events|
  {
    if events != [] {
      UpdatedIs(state, address, events[0]);
      LatestSettles(state, address, events[1..]);
    }
  }

  /** Covered events end as if only the latest one had been delivered. */
  lemma {:induction false} DeliverLatest(state: Locks, address: string, events: seq<Lock>, latest: Lock)
    requires Own(state, address) && latest in events && Covered(state, address, events, latest)
    requires forall e :: e in events ==> Numbered(address, e) && (e == latest || AsOf(e) < AsOf(latest))
    ensures Deliver(state, address, events) == With(state, address, latest)
    decreases |events|
  {
    hide Updated, AddsNothing;
    var e, next := events[0], With(state, address, events[0]);
    UpdatedIs(state, address, e);
    if e == latest {
      LatestSettles(next, address, events[1..]);
    } else {
      forall other | other in events[1..] && AsOf(other) > Date(next, address)
        ensures AddsNothing(Base(next, address), other, latest)
      {
        StillAddsNothing(state, address, e, other, latest);
      }
      DeliverLatest(next, address, events[1..], latest);
      OlderAddsNothing(state, address, e, latest);
    }
  }

  /** Moving one event to the front is a permutation. */
  lemma ToFront(events: seq<Lock>, e: Lock) returns (rest: seq<Lock>)
    requires e in events
    ensures Permutation([e] + rest, events)
  {
    var i :| 0 <= i < |events| && events[i] == e;
    rest := Without(events, i);
    assert events == events[..i] + [e] + events[i + 1..];
  }

  /** Of events with distinct block numbers, the latest one is later than any other. */
  lemma LatestIsLater(address: string, events: seq<Lock>, latest: Lock)
    requires Distinct(address, events) && Latest(events, latest)
    ensures forall e :: e in events ==> Numbered(address, e) && (e == latest || AsOf(e) < AsOf(latest))
  {
    forall e | e in events
      ensures Numbered(address, e) && (e == latest || AsOf(e) < AsOf(latest))
    {
      var j :| 0 <= j < |events| && events[j] == e;
      var k :| 0 <= k < |events| && events[k] == latest;
      assert j < k || j == k || k < j;
    }
  }

  lemma CoveredEvents(state: Locks, address: string, events: seq<Lock>, latest: Lock, p: seq<Lock>)
    requires Own(state, address) && Distinct(address, events) && Latest(events, latest)
    requires Covered(state, address, events, latest) && Permutation(p, events)
    ensures Deliver(state, address, p) == With(state, address, latest)
  {
    hide With, AddsNothing;
    PermutationMembers(p, events);
    LatestIsLater(address, events, latest);
    DeliverLatest(state, address, p, latest);
  }

  /** Two events, and then others that are no fresher than either. */
  lemma TwoFirst(state: Locks, address: string, a: Lock, b: Lock, rest: seq<Lock>)
    requires Own(state, address) && Numbered(address, a) && Numbered(address, b)
    requires forall e :: e in rest ==> Numbered(address, e) && (AsOf(e) <= AsOf(a) || AsOf(e) <= AsOf(b))
    ensures Deliver(state, address, [a, b] + rest) == With(With(state, address, a), address, b)
  {
    hide Updated;
    var events := [a, b] + rest;
    assert events[1..] == [b] + rest && events[1..][1..] == rest;
    UpdatedIs(state, address, a);
    UpdatedIs(With(state, address, a), address, b);
    LatestSettles(With(With(state, address, a), address, b), address, rest);
  }

  lemma Swapped(a: Lock, b: Lock, rest: seq<Lock>)
    ensures multiset([a, b] + rest) == multiset{a} + multiset([b] + rest)
    ensures multiset([b, a] + rest) == multiset{a} + multiset([b] + rest)
  {
    assert [a, b] + rest == [a] + ([b] + rest);
    assert multiset([b, a]) == multiset{a} + multiset([b]);
  }

  /** Two different events in front, in either order, and the others after them. */
  lemma BothToFront(events: seq<Lock>, a: Lock, b: Lock) returns (rest: seq<Lock>)
    requires a in events && b in events && a != b
    ensures Permutation([a, b] + rest, events) && Permutation([b, a] + rest, events)
  {
    var others := ToFront(events, a);
    PermutationMembers([a] + others, events);
    rest := ToFront(others, b);
    Swapped(a, b, rest);
    assert multiset([a] + others) == multiset{a} + multiset(others);
  }

  /** A fresh event that adds something shows if it comes before the latest, and not if it comes after. */
  lemma UncoveredEvents(state: Locks, address: string, events: seq<Lock>, latest: Lock, e: Lock)
    requires Own(state, address) && Distinct(address, events) && Latest(events, latest)
    requires e in events && AsOf(e) > Date(state, address) && !AddsNothing(Base(state, address), e, latest)
    ensures !Converges(state, address, events)
  {
    hide Deliver;
    LatestIsLater(address, events, latest);
    var rest := BothToFront(events, e, latest);
    PermutationMembers([e, latest] + rest, events);
    TwoFirst(state, address, e, latest, rest);
    TwoFirst(state, address, latest, e, rest);
    var k :| k in e.rest && k !in latest.rest && !(k in Base(state, address) && Base(state, address)[k] == e.rest[k]);
    var p, q := Deliver(state, address, [e, latest] + rest), Deliver(state, address, [latest, e] + rest);
    assert k in p[address].rest && p[address].rest[k] == e.rest[k];
    assert p != q;
  }

  /**
   * For any store: delivery orders agree if and only if every event that is fresher than the
   * stored lock sets no property which the latest event lacks, or only to the value that is
   * stored. Then they all end as if the latest event alone had been delivered.
   */
  lemma OrdersAgreeExactlyWhenCovered(state: Locks, address: string, events: seq<Lock>, latest: Lock)
    requires Own(state, address) && Distinct(address, events) && Latest(events, latest)
    ensures Converges(state, address, events) <==> Covered(state, address, events, latest)
    ensures Covered(state, address, events, latest) ==>
      forall p :: Permutation(p, events) ==> Deliver(state, address, p) == With(state, address, latest)
  {
    hide AddsNothing, With, Deliver;
    if Covered(state, address, events, latest) {
      forall p | Permutation(p, events)
        ensures Deliver(state, address, p) == With(state, address, latest)
      {
        CoveredEvents(state, address, events, latest, p);
      }
    } else {
      var e :| e in events && AsOf(e) > Date(state, address) && !AddsNothing(Base(state, address), e, latest);
      UncoveredEvents(state, address, events, latest, e);
    }
  }

  /** For a lock that is not stored yet: the latest event sets every property that any of them sets. */
  lemma NewLocksAgreeExactly(state: Locks, address: string, events: seq<Lock>, latest: Lock)
    requires address !in state && Distinct(address, events) && Latest(events, latest)
    ensures Converges(state, address, events) <==> forall e :: e in events ==> e.rest.Keys <= latest.rest.Keys
  {
    OrdersAgreeExactlyWhenCovered(state, address, events, latest);
    LatestIsLater(address, events, latest);
    forall e | e in events
      ensures AddsNothing(Base(state, address), e, latest) <==> e.rest.Keys <= latest.rest.Keys
    {
    }
  }

  /**
   * Full events, which all set the same properties, are the case the handler is written for:
   * whatever is stored, they converge to the one with the highest asOf.
   */
  lemma FullEventsConverge(state: Locks, address: string, events: seq<Lock>, latest: Lock, properties: set<string>)
    requires Own(state, address) && Distinct(address, events) && Latest(events, latest)
    requires forall e :: e in events ==> e.rest.Keys == properties
    ensures Converges(state, address, events)
    ensures forall p :: Permutation(p, events) ==> Deliver(state, address, p) == With(state, address, latest)
  {
    hide With, Deliver;
    assert forall e, k :: e in events && k in e.rest ==> k in latest.rest.Keys;
    OrdersAgreeExactlyWhenCovered(state, address, events, latest);
  }

  /** A sale and a later change of a stored lock's price: if the change arrives first, the sale is lost. */
  lemma FullUpdateCanBeLost(address: string) returns (state: Locks, full: Lock, change: Lock)
    ensures OwnAddresses(state) && address in state && Distinct(address, [full, change])
    ensures full.rest.Keys == state[address].rest.Keys && change.rest.Keys == {"keyPrice"}
    ensures !Converges(state, address, [full, change])
  {
    var stored := Lock(Some(address), Some(1), map["keyPrice" := Text("5"), "outstandingKeys" := Attribute.Number(1)]);
    state := map[address := stored];
    full := Lock(None, Some(2), map["keyPrice" := Text("5"), "outstandingKeys" := Attribute.Number(2)]);
    change := Lock(None, Some(3), map["keyPrice" := Text("6")]);
    OrdersAgreeExactlyWhenCovered(state, address, [full, change], change);
    assert full in [full, change] && "outstandingKeys" in full.rest;
    assert !AddsNothing(Base(state, address), full, change);
  }

  /**
   * A lock's creation sets its transaction, and the lock's own data, read later, does not:
   * if the data arrives first the transaction is lost, unless it is stored already.
   */
  lemma CreationConvergesExactly(state: Locks, address: string, created: Lock, data: Lock)
    requires Own(state, address) && Numbered(address, created) && Numbered(address, data)
    requires Date(state, address) < AsOf(created) < AsOf(data)
    requires created.rest.Keys == {"transaction"} && "transaction" !in data.rest
    ensures Converges(state, address, [created, data]) <==>
      "transaction" in Base(state, address) && Base(state, address)["transaction"] == created.rest["transaction"]
  {
    assert "transaction" in created.rest;
    assert Latest([created, data], data);
    OrdersAgreeExactlyWhenCovered(state, address, [created, data], data);
    assert AddsNothing(Base(state, address), data, data);
    assert created in [created, data];
    assert AddsNothing(Base(state, address), created, data) <==>
      "transaction" in Base(state, address) && Base(state, address)["transaction"] == created.rest["transaction"];
  }
}
