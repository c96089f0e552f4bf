/**
 * Transactions and keys in the redux store: paywall/src/reducers/transactionsReducer.js,
 * paywall/src/reducers/keysReducer.js, and what paywall/src/middlewares/web3Middleware.js
 * does with them.
 */
module KeyStore {
  import opened Prelude

  datatype TxStatus = Submitted | Pending | Mined | Failed

  /** A transaction, or an update of one: the properties that are present. */
  datatype Tx = Tx(
    hash: Option<string>, status: Option<TxStatus>, confirmations: Option<int>, blockNumber: Option<int>,
    from: Option<string>, to: Option<string>, key: Option<string>, others: map<string, string>)

  const NOTHING := Tx(None, None, None, None, None, None, None, map[])

  /** A key, or an update of one. */
  datatype Key = Key(
    id: Option<string>, lock: Option<string>, owner: Option<string>, expiration: Option<int>,
    transactions: Option<map<string, Tx>>)

  datatype Store = Store(transactions: map<string, Tx>, keys: map<string, Key>)

  function Or<T>(update: Option<T>, value: Option<T>): Option<T> {
    if update.Some? then update else value
  }

  /** The spread {...tx, ...update}. */
  function MergeTx(tx: Tx, update: Tx): Tx {
    Tx(Or(update.hash, tx.hash), Or(update.status, tx.status), Or(update.confirmations, tx.confirmations),
       Or(update.blockNumber, tx.blockNumber), Or(update.from, tx.from), Or(update.to, tx.to),
       Or(update.key, tx.key), tx.others + update.others)
  }

  function MergeKey(key: Key, update: Key): Key {
    Key(Or(update.id, key.id), Or(update.lock, key.lock), Or(update.owner, key.owner),
        Or(update.expiration, key.expiration), Or(update.transactions, key.transactions))
  }

  datatype Action =
    | SetProvider
    | SetNetwork
    | SetAccount
    | NewTransaction(hash: string, tx: Tx)
    | AddTransaction(hash: string, tx: Tx)
    | UpdateTransaction(hash: string, update: Tx)
    | DeleteTransaction(hash: string)
    | PurchaseKey(key: Key)
    | AddKey(id: string, key: Key)
    | UpdateKey(id: string, keyUpdate: Key)

  predicate Truthy(s: Option<string>) {
    s.Some? && s.value != ""
  }

  function ReduceTransactions(txs: map<string, Tx>, action: Action): map<string, Tx> {
    match action
    case SetProvider => map[]
    case SetNetwork => map[]
    case SetAccount => map[]
    case NewTransaction(hash, tx) => txs[hash := tx.(hash := Some(hash))]
    case AddTransaction(hash, tx) => txs[hash := tx.(hash := Some(hash))]
    case UpdateTransaction(hash, update) =>
      if (Truthy(update.hash) && update.hash != Some(hash)) || hash !in txs then txs
      else txs[hash := MergeTx(txs[hash], update)]
    case DeleteTransaction(hash) => txs - {hash}
    case _ => txs
  }

  function KeyId(lock: string, owner: string): string {
    lock + "-" + owner
  }

  function Show(s: Option<string>): string {
    if s.Some? then s.value else ""
  }

  function ReduceKeys(keys: map<string, Key>, action: Action): map<string, Key> {
    match action
    case SetProvider => map[]
    case SetNetwork => map[]
    case SetAccount => map[]
    case PurchaseKey(key) =>
      var id := if Truthy(key.id) then key.id.value else KeyId(Show(key.lock), Show(key.owner));
      if id in keys then keys else keys[id := key.(id := Some(id))]
    case AddKey(id, key) =>
      if (Truthy(key.id) && key.id != Some(id)) || id in keys then keys
      else keys[id := key.(id := Some(id))]
    case UpdateKey(id, update) =>
      if (Truthy(update.id) && update.id != Some(id)) || id !in keys then keys
      else keys[id := MergeKey(keys[id], update)]
    case _ => keys
  }

  function Reduce(store: Store, action: Action): Store {
    Store(ReduceTransactions(store.transactions, action), ReduceKeys(store.keys, action))
  }

  /** The lock in the page's address and the account that is signed in. */
  datatype Page = Page(lock: string, account: string)

  function PageKey(page: Page): string {
    KeyId(page.lock, page.account)
  }

  predicate FromPage(tx: Tx, page: Page) {
    tx.to == Some(page.lock) && tx.from == Some(page.account)
  }

  predicate ForPage(tx: Tx, page: Page) {
    FromPage(tx, page) || tx.key == Some(PageKey(page))
  }

  /** The update of a key that gets a copy of the transaction. */
  function Copying(key: Key, hash: string, tx: Tx): Key {
    var copies := if key.transactions.Some? then key.transactions.value else map[];
    key.(transactions := Some(copies[hash := tx]))
  }

  /** The key that is made for a transaction whose key is not in the store yet. */
  function FreshKey(page: Page, hash: string, tx: Tx): Key {
    Key(Some(PageKey(page)), Some(page.lock), Some(page.account), Some(0), Some(map[hash := tx]))
  }

  /** The action passes the reducers, then the middleware copies purchases into the page's key. */
  function Dispatched(store: Store, page: Page, action: Action): Store
    requires !Throws(store, page, action)
  {
    var next := Reduce(store, action);
    var id := PageKey(page);
    if action.NewTransaction? && FromPage(action.tx, page) then
      Reduce(next, UpdateKey(id, Copying(next.keys[id], action.hash, action.tx.(hash := Some(action.hash)))))
    else if action.UpdateTransaction? && ForPage(next.transactions[action.hash], page) then
      var tx := next.transactions[action.hash];
      if id in next.keys then Reduce(next, UpdateKey(id, Copying(next.keys[id], action.hash, tx)))
      else Reduce(next, AddKey(id, FreshKey(page, action.hash, tx)))
    else next
  }

  /** The middleware reads a property of undefined. */
  predicate Throws(store: Store, page: Page, action: Action) {
    || (action.NewTransaction? && FromPage(action.tx, page) && PageKey(page) !in store.keys)
    || (action.UpdateTransaction? && action.hash !in store.transactions)
  }

  /** The store after an action, whether or not the middleware then threw. */
  function Handled(store: Store, page: Page, action: Action): Store {
    if Throws(store, page, action) then Reduce(store, action) else Dispatched(store, page, action)
  }

  /** The handler of transaction.updated. */
  function UpdateFor(store: Store, hash: string, update: Tx): Action {
    UpdateTransaction(hash, MergeTx(if hash in store.transactions then store.transactions[hash] else NOTHING, update))
  }

  /** The handler of key.updated. */
  function KeyUpdateFor(store: Store, id: string, update: Key): Action {
    if id in store.keys then UpdateKey(id, update) else AddKey(id, update)
  }

  /**
   * The store with its middleware. The reducers run before the middleware looks at the
   * result, so an action that makes the middleware throw has already been reduced.
   */
  class Redux {
    var store: Store
    const page: Page

    constructor (page: Page)
      ensures this.page == page && store == Store(map[], map[])
    {
      this.page := page;
      store := Store(map[], map[]);
    }

    method Dispatch(action: Action) returns (threw: bool)
      modifies this
      ensures threw == Throws(old(store), page, action)
      ensures store == Handled(old(store), page, action)
    {
      store := Reduce(store, action);
      var id := PageKey(page);
      if action.NewTransaction? && FromPage(action.tx, page) {
        if id !in store.keys {
          return true;
        }
        var update := Copying(store.keys[id], action.hash, action.tx.(hash := Some(action.hash)));
        store := Reduce(store, UpdateKey(id, update));
      }
      if action.UpdateTransaction? {
        if action.hash !in store.transactions {
          return true;
        }
        var existing := store.transactions[action.hash];
        if ForPage(existing, page) {
          if id in store.keys {
            store := Reduce(store, UpdateKey(id, Copying(store.keys[id], action.hash, existing)));
          } else {
            store := Reduce(store, AddKey(id, FreshKey(page, action.hash, existing)));
          }
        }
      }
      return false;
    }

    method OnTransactionUpdated(hash: string, update: Tx) returns (threw: bool)
      modifies this
      ensures threw <==> hash !in old(store).transactions
      ensures threw ==> store == old(store)
      ensures !threw ==> store == Dispatched(old(store), page, UpdateFor(old(store), hash, update))
    {
      threw := Dispatch(UpdateFor(store, hash, update));
    }

    method OnKeyUpdated(id: string, update: Key)
      modifies this
      ensures store == Reduce(old(store), KeyUpdateFor(old(store), id, update))
      ensures update.id.None? || update.id.value in {"", id} ==> KeyIsUpdated(old(store), store, id, update)
    {
      KeyUpdatesReachTheStore(store, id, update);
      var _ := Dispatch(KeyUpdateFor(store, id, update));
    }
  }

  // ---------------------------------------------------------------- what an update brings

  /** A property is the one that an update brings, or else the one before. */
  ghost predicate Brings<T>(update: Option<T>, before: Option<T>, after: Option<T>) {
    (update.Some? ==> after == update) && (update.None? ==> after == before)
  }

  /** One key has what the update brings, and keeps the rest; nothing else has changed. */
  ghost predicate KeyIsUpdated(before: Store, after: Store, id: string, update: Key) {
    && after.transactions == before.transactions
    && after.keys.Keys == before.keys.Keys + {id}
    && (forall k :: k in before.keys && k != id ==> after.keys[k] == before.keys[k])
    && Brings(update.lock, if id in before.keys then before.keys[id].lock else None, after.keys[id].lock)
    && Brings(update.owner, if id in before.keys then before.keys[id].owner else None, after.keys[id].owner)
    && Brings(update.expiration, if id in before.keys then before.keys[id].expiration else None,
              after.keys[id].expiration)
    && Brings(update.transactions, if id in before.keys then before.keys[id].transactions else None,
              after.keys[id].transactions)
    && (id !in before.keys ==> after.keys[id].id == Some(id))
  }

  /** A key.updated event that names no other key: known or not, the key is in the store with what it brings. */
  lemma KeyUpdatesReachTheStore(store: Store, id: string, update: Key)
    ensures var after := Reduce(store, KeyUpdateFor(store, id, update));
      if update.id.None? || update.id.value in {"", id} then KeyIsUpdated(store, after, id, update)
      else after == store
  {
  }

  /** A transaction has what the update brings, and keeps the rest. */
  ghost predicate TxIsUpdated(before: Tx, after: Tx, update: Tx) {
    && Brings(update.hash, before.hash, after.hash) && Brings(update.status, before.status, after.status)
    && Brings(update.confirmations, before.confirmations, after.confirmations)
    && Brings(update.blockNumber, before.blockNumber, after.blockNumber)
    && Brings(update.from, before.from, after.from) && Brings(update.to, before.to, after.to)
    && Brings(update.key, before.key, after.key)
    && after.others.Keys == before.others.Keys + update.others.Keys
    && (forall p :: p in after.others ==>
          after.others[p] == if p in update.others then update.others[p] else before.others[p])
  }

  /** Only the page's key has changed: it holds the transaction as well. */
  ghost predicate KeyShows(before: map<string, Key>, after: map<string, Key>, id: string, hash: string, tx: Tx)
    requires id in before
  {
    && after.Keys == before.Keys
    && (forall k :: k in before && k != id ==> after[k] == before[k])
    && after[id].lock == before[id].lock && after[id].owner == before[id].owner
    && after[id].expiration == before[id].expiration
    && after[id].transactions.Some? && hash in after[id].transactions.value
    && after[id].transactions.value[hash] == tx
    && after[id].transactions.value - {hash} ==
         (if before[id].transactions.Some? then before[id].transactions.value else map[]) - {hash}
  }

  /** Sent by the page's account to its lock, or named as a transaction of the page's key. */
  ghost predicate OfThePage(tx: Tx, page: Page) {
    || (tx.to == Some(page.lock) && tx.from == Some(page.account))
    || tx.key == Some(page.lock + "-" + page.account)
  }

  /**
   * A transaction.updated event: one transaction has what the update brings, and if it is
   * one of the page's, the page's key holds it, which is made for it if it is missing.
   */
  lemma TransactionUpdatesReachTheStore(store: Store, page: Page, hash: string, update: Tx)
    requires OwnNames(store) && hash in store.transactions && update.hash.None?
    ensures var after, id := Dispatched(store, page, UpdateFor(store, hash, update)), page.lock + "-" + page.account;
      && after.transactions.Keys == store.transactions.Keys
      && (forall h :: h in store.transactions && h != hash ==> after.transactions[h] == store.transactions[h])
      && TxIsUpdated(store.transactions[hash], after.transactions[hash], update)
      && (!OfThePage(after.transactions[hash], page) ==> after.keys == store.keys)
      && (OfThePage(after.transactions[hash], page) ==>
            if id in store.keys then KeyShows(store.keys, after.keys, id, hash, after.transactions[hash])
            else after.keys == store.keys[id :=
              Key(Some(id), Some(page.lock), Some(page.account), Some(0), Some(map[hash := after.transactions[hash]]))])
  {
    UpdateReachesTheKey(store, page, hash, update);
    assert PageKey(page) == page.lock + "-" + page.account;
  }

  /** A new transaction replaces what was stored under its hash; the page's purchase shows in its key. */
  lemma NewTransactionsReachTheStore(store: Store, page: Page, action: Action)
    requires action.NewTransaction? || action.AddTransaction?
    requires OwnNames(store) && page.lock + "-" + page.account in store.keys
    ensures !Throws(store, page, action)
    ensures var after, id := Dispatched(store, page, action), page.lock + "-" + page.account;
      && after.transactions.Keys == store.transactions.Keys + {action.hash}
      && after.transactions[action.hash] == action.tx.(hash := Some(action.hash))
      && (forall h :: h in store.transactions && h != action.hash ==> after.transactions[h] == store.transactions[h])
      && if action.NewTransaction? && action.tx.to == Some(page.lock) && action.tx.from == Some(page.account)
         then KeyShows(store.keys, after.keys, id, action.hash, after.transactions[action.hash])
         else after.keys == store.keys
  {
    assert PageKey(page) == page.lock + "-" + page.account;
  }

  /**
   * The middleware throws for an update of an unknown transaction, which then changes
   * nothing, and for a purchase without its key, which is stored all the same.
   */
  lemma ThrowsExactlyFor(store: Store, page: Page, action: Action)
    ensures Throws(store, page, action) <==>
      || (action.UpdateTransaction? && action.hash !in store.transactions)
      || (action.NewTransaction? && action.tx.to == Some(page.lock) && action.tx.from == Some(page.account)
          && page.lock + "-" + page.account !in store.keys)
    ensures Throws(store, page, action) && action.UpdateTransaction? ==> Handled(store, page, action) == store
    ensures Throws(store, page, action) && action.NewTransaction? ==>
      Handled(store, page, action) == store.(transactions :=
        store.transactions[action.hash := action.tx.(hash := Some(action.hash))])
    ensures !Throws(store, page, action) ==> Handled(store, page, action) == Dispatched(store, page, action)
  {
  }

  /** The remaining actions: resets forget, deleting forgets one transaction, buying adds a key that is missing. */
  lemma OtherActions(store: Store, page: Page, action: Action)
    requires action.SetProvider? || action.SetNetwork? || action.SetAccount? || action.DeleteTransaction?
          || action.PurchaseKey?
    ensures !Throws(store, page, action)
    ensures var after := Dispatched(store, page, action);
      && (action.DeleteTransaction? ==>
            && after.keys == store.keys && after.transactions.Keys == store.transactions.Keys - {action.hash}
            && forall h :: h in after.transactions ==> after.transactions[h] == store.transactions[h])
      && (action.PurchaseKey? ==>
            && after.transactions == store.transactions
            && BuysKey(store.keys, after.keys, action.key))
      && (!action.DeleteTransaction? && !action.PurchaseKey? ==> |after.transactions| == 0 && |after.keys| == 0)
  {
  }

  /** The key bought is stored under its id, or else under its lock and owner, unless one is there already. */
  ghost predicate BuysKey(before: map<string, Key>, after: map<string, Key>, key: Key) {
    var named := key.id.Some? && key.id.value != "";
    exists id ::
      && (named ==> id == key.id.value)
      && (!named ==> id == (if key.lock.Some? then key.lock.value else "") + "-"
                         + (if key.owner.Some? then key.owner.value else ""))
      && if id in before then after == before else after == before[id := key.(id := Some(id))]
  }

  // ---------------------------------------------------------------- what every action keeps

  /** Transactions and keys are stored under their own hash and id. */
  ghost predicate OwnNames(store: Store) {
    && (forall h :: h in store.transactions ==> store.transactions[h].hash == Some(h))
    && (forall k :: k in store.keys ==> store.keys[k].id == Some(k))
  }

  lemma ReducersKeepNames(store: Store, action: Action)
    requires OwnNames(store)
    requires action.UpdateTransaction? ==> action.update.hash.None? || action.update.hash.value != ""
    requires action.UpdateKey? ==> action.keyUpdate.id.None? || action.keyUpdate.id.value != ""
    ensures OwnNames(Reduce(store, action))
  {
  }

  lemma ActionsKeepNames(store: Store, page: Page, action: Action)
    requires OwnNames(store) && !Throws(store, page, action)
    requires action.UpdateTransaction? ==> action.update.hash.None? || action.update.hash.value != ""
    requires action.UpdateKey? ==> action.keyUpdate.id.None? || action.keyUpdate.id.value != ""
    ensures OwnNames(Dispatched(store, page, action))
  {
    var next, id := Reduce(store, action), PageKey(page);
    ReducersKeepNames(store, action);
    if action.NewTransaction? && FromPage(action.tx, page) {
      var tx := action.tx.(hash := Some(action.hash));
      ReducersKeepNames(next, UpdateKey(id, Copying(next.keys[id], action.hash, tx)));
    } else if action.UpdateTransaction? && ForPage(next.transactions[action.hash], page) {
      var tx := next.transactions[action.hash];
      if id in next.keys {
        ReducersKeepNames(next, UpdateKey(id, Copying(next.keys[id], action.hash, tx)));
      } else {
        ReducersKeepNames(next, AddKey(id, FreshKey(page, action.hash, tx)));
      }
    }
  }

  /**
   * Only a change of provider, network or account removes a key; buying or adding a key
   * that exists changes nothing, and any other action touches one key at most.
   */
  lemma KeysSurvive(store: Store, page: Page, action: Action, id: string)
    requires !Throws(store, page, action) && id in store.keys
    requires !action.SetProvider? && !action.SetNetwork? && !action.SetAccount?
    ensures var after := Dispatched(store, page, action);
      && id in after.keys
      && (action.PurchaseKey? || action.AddKey? ==> after.keys[id] == store.keys[id])
      && (after.keys[id] != store.keys[id] ==>
            id == if action.UpdateKey? then action.id else PageKey(page))
  {
  }

  /**
   * An update of one transaction changes no other, and if the transaction is for the
   * page's key, that key's copy becomes the stored transaction and nothing else of the
   * key changes.
   */
  lemma UpdateReachesTheKey(store: Store, page: Page, hash: string, update: Tx)
    requires OwnNames(store) && hash in store.transactions && update.hash.None?
    ensures var after, tx, id := Dispatched(store, page, UpdateFor(store, hash, update)),
                                 MergeTx(store.transactions[hash], update), PageKey(page);
      && after.transactions == store.transactions[hash := tx]
      && after.keys == if !ForPage(tx, page) then store.keys
                       else store.keys[id := if id in store.keys then Copying(store.keys[id], hash, tx)
                                             else FreshKey(page, hash, tx)]
  {
    var tx := store.transactions[hash];
    assert MergeTx(tx, MergeTx(tx, update)) == MergeTx(tx, update);
  }
}
