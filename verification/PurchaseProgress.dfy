/**
 * What the page shows of a successful key purchase while its transaction is tracked: the
 * polls of TransactionTracking feed the store of KeyStore, and KeyStatus reads it.
 */
module PurchaseProgress {
  import opened Prelude
  import opened KeyStore
  import opened KeyStatus
  import opened TransactionTracking

  /**
   * A purchase is tracked from block start on; its key's expiration is known and fixed, and
   * keyId is the key that the contract's inputs and logs name.
   */
  datatype Purchase = Purchase(setup: Setup, start: nat, expiration: int, keyId: string)

  /** The purchase was sent by the page's account to its lock, or is for the page's key. */
  predicate Belongs(c: Purchase, tx: Tx) {
    var page := c.setup.page;
    FromPage(tx, page) || (tx.key == Some(PageKey(page)) && c.keyId == PageKey(page))
  }

  /** An update that leaves sender and receiver alone and names no other key. */
  predicate Harmless(c: Purchase, update: Tx) {
    update.hash.None? && update.from.None? && update.to.None? && (update.key.None? || update.key.value == c.keyId)
  }

  /** The key's transactions, without the purchase itself. */
  function Others(c: Purchase, store: Store): map<string, Tx>
    requires PageKey(c.setup.page) in store.keys
  {
    var txs := store.keys[PageKey(c.setup.page)].transactions;
    (if txs.Some? then txs.value else map[]) - {c.setup.hash}
  }

  predicate Earlier(tx: Tx, block: int) {
    tx.blockNumber.Some? && tx.blockNumber.value <= block
  }

  /** The page's key is in the store with its expiration. */
  ghost predicate KeyReady(c: Purchase, store: Store) {
    var id := PageKey(c.setup.page);
    && OwnNames(store) && c.setup.hash != "" && c.start < UNMINED
    && id in store.keys && store.keys[id].expiration == Some(c.expiration)
  }

  /** The key's other transactions were mined by the time the purchase was made. */
  ghost predicate Newest(c: Purchase, store: Store)
    requires KeyReady(c, store)
  {
    forall h :: h in Others(c, store) ==> Earlier(Others(c, store)[h], c.start)
  }

  ghost predicate PurchaseIn(c: Purchase, store: Store) {
    KeyReady(c, store) && c.setup.hash in store.transactions
  }

  function StoredTx(c: Purchase, store: Store): Tx
    requires c.setup.hash in store.transactions
  {
    store.transactions[c.setup.hash]
  }

  /** The page's key holds the stored purchase. */
  ghost predicate Shown(c: Purchase, store: Store)
    requires PurchaseIn(c, store)
  {
    var txs := store.keys[PageKey(c.setup.page)].transactions;
    txs.Some? && c.setup.hash in txs.value && txs.value[c.setup.hash] == StoredTx(c, store)
  }

  /** Some update has told what the chain knows of the purchase, and it is one of the page's. */
  predicate Told(c: Purchase, tx: Tx) {
    tx.blockNumber.Some? && Belongs(c, tx)
  }

  /** What the stored purchase says after reads of the given height and chain state. */
  predicate Tells(tx: Tx, height: nat, seen: Seen) {
    match seen
    case Unknown => Untold(tx) || (tx.status == Some(Submitted) && Unconfirmed(tx))
    case Pooled => tx.status == Some(Pending) && Unconfirmed(tx)
    case InBlock(block) =>
      tx.status == Some(Mined) && tx.confirmations == Some(Max(height - block, 0)) && tx.blockNumber == Some(block)
  }

  predicate Untold(tx: Tx) {
    tx.status in {None, Some(Submitted)} && tx.confirmations.None? && tx.blockNumber.None?
  }

  predicate Unconfirmed(tx: Tx) {
    tx.confirmations == Some(0) && tx.blockNumber == Some(UNMINED)
  }

  // ---------------------------------------------------------------- the invariant

  function LastRead(w: World): (nat, Seen) {
    if w.readings == [] then (0, Unknown)
    else (w.readings[|w.readings| - 1].height, w.readings[|w.readings| - 1].seen)
  }

  /** The chain state b may be read after a: it is the same or a later stage. */
  predicate Follows(a: Seen, b: Seen) {
    Stage(a) <= Stage(b) && (a.InBlock? ==> a == b)
  }

  ghost predicate ChainOk(c: Purchase, w: World) {
    && c.start <= w.height
    && (w.tx.InBlock? ==> c.start < w.tx.block <= w.height)
    && LastRead(w).0 <= w.height && Follows(LastRead(w).1, w.tx)
  }

  /** A poll under way has read nothing older than the polls before it. */
  ghost predicate PollOk(w: World, p: Poll) {
    && (p.height.Some? ==> LastRead(w).0 <= p.height.value <= w.height)
    && (p.seen.Some? ==> Follows(LastRead(w).1, p.seen.value) && Follows(p.seen.value, w.tx))
  }

  ghost predicate StoreOk(c: Purchase, w: World) {
    && PurchaseIn(c, w.store)
    && Tells(StoredTx(c, w.store), LastRead(w).0, LastRead(w).1)
    && (Told(c, StoredTx(c, w.store)) ==> Shown(c, w.store))
  }

  ghost predicate Tracked(c: Purchase, w: World) {
    && w.timers + |w.polls| <= 1
    && ChainOk(c, w) && StoreOk(c, w)
    && (forall i :: 0 <= i < |w.polls| ==> PollOk(w, w.polls[i]))
  }

  // ---------------------------------------------------------------- where runs begin

  /** The wallet's new transaction: submitted, with neither confirmations nor a block number. */
  predicate FromWallet(tx: Tx) {
    tx.status == Some(Submitted) && tx.confirmations.None? && tx.blockNumber.None? && tx.key.None?
  }

  /** A transaction that is known by its hash and network only. */
  predicate FromAddress(tx: Tx) {
    tx == NOTHING.(hash := tx.hash, others := tx.others) && "input" !in tx.others
  }

  /** The page starts to track the purchase: the wallet has sent it, or its hash was found. */
  predicate Begins(c: Purchase, e: Event) {
    && e.Start? && Starts(e.action) && e.action.hash == c.setup.hash
    && if e.action.NewTransaction? then FromWallet(e.action.tx) else FromAddress(e.action.tx)
  }

  /** Trackers were started, if any, and nothing was read yet. */
  ghost predicate Unread(c: Purchase, w: World) {
    && w.timers == 0 && w.readings == [] && w.receipts == 0 && w.started == |w.polls|
    && (forall i :: 0 <= i < |w.polls| ==> w.polls[i].height.None? && w.polls[i].seen.None?)
    && ChainOk(c, w) && KeyReady(c, w.store)
    && (w.polls != [] ==> StoreOk(c, w))
  }

  /** The key shows the purchase as the wallet has sent it. */
  ghost predicate Submitting(c: Purchase, store: Store) {
    && PurchaseIn(c, store) && Shown(c, store) && Belongs(c, StoredTx(c, store))
    && StoredTx(c, store).status == Some(Submitted) && StoredTx(c, store).blockNumber.None?
  }

  /** The page stores the purchase; if its own account buys from its lock, the key shows it at once. */
  lemma BeginningStores(c: Purchase, store: Store, action: Action)
    requires KeyReady(c, store) && Begins(c, Start(action))
    ensures var after := Handled(store, c.setup.page, action);
      && PurchaseIn(c, after) && StoredTx(c, after) == action.tx.(hash := Some(c.setup.hash))
      && Others(c, after) == Others(c, store)
      && (action.NewTransaction? && FromPage(action.tx, c.setup.page) ==> Submitting(c, after))
  {
    var id, after := PageKey(c.setup.page), Handled(store, c.setup.page, action);
    var tx := action.tx.(hash := Some(c.setup.hash));
    if action.NewTransaction? && FromPage(action.tx, c.setup.page) {
      assert after.keys[id] == Copying(store.keys[id], c.setup.hash, tx);
    }
    assert Others(c, after) == Others(c, store);
  }

  /** Starting a tracker from either action establishes what the results below start from. */
  lemma NewPurchaseIsTracked(c: Purchase, w: World, e: Event)
    requires Unread(c, w) && Begins(c, e)
    ensures Enabled(c.setup, w, e)
    ensures var v := Apply(c.setup, w, e);
      && Unread(c, v) && |v.polls| == |w.polls| + 1
      && (w.polls == [] ==> Tracked(c, v))
      && (e.action.NewTransaction? && FromPage(e.action.tx, c.setup.page) ==> Submitting(c, v.store))
  {
    hide Handled, KeyReady, Shown;
    BeginningStores(c, w.store, e.action);
  }

  lemma {:induction false} StartsAreUnread(c: Purchase, w: World, starts: seq<Event>)
    requires Unread(c, w) && forall e :: e in starts ==> Begins(c, e)
    ensures IsRun(c.setup, w, starts)
    ensures Unread(c, After(c.setup, w, starts)) && |After(c.setup, w, starts).polls| == |w.polls| + |starts|
    decreases |starts|
  {
    if starts != [] {
      NewPurchaseIsTracked(c, w, starts[0]);
      StartsAreUnread(c, Apply(c.setup, w, starts[0]), starts[1..]);
    }
  }

  // ---------------------------------------------------------------- forward only

  function StatusRank(status: Option<TxStatus>): nat {
    match status
    case None => 0
    case Some(Submitted) => 1
    case Some(Pending) => 2
    case Some(Mined) => 3
    case Some(Failed) => 4
  }

  function KeyRank(status: Status): nat {
    match status
    case NoStatus => 0
    case Of(s) => StatusRank(Some(s))
    case Confirming => 3
    case Valid => 4
    case Expired => 5
  }

  function Confirmations(tx: Tx): int {
    if tx.confirmations.Some? then tx.confirmations.value else 0
  }

  /** The stored purchase moves forward or stays. */
  predicate TxForward(a: Tx, b: Tx) {
    StatusRank(a.status) <= StatusRank(b.status) && 0 <= Confirmations(a) <= Confirmations(b)
  }

  /** Whatever is reported of the page's key, first in v and then in w, moves forward or stays. */
  ghost predicate KeyForward(c: Purchase, v: World, w: World)
    requires PurchaseIn(c, v.store) && PurchaseIn(c, w.store)
  {
    var id, required := PageKey(c.setup.page), c.setup.required;
    forall x, y ::
      Reports(v.store.keys[id], v.nowMs, required, x) && Reports(w.store.keys[id], w.nowMs, required, y) ==>
        KeyRank(x) <= KeyRank(y)
  }

  /** From v to w, the stored purchase moves forward; so does its key, told of it as its newest transaction. */
  ghost predicate Forward(c: Purchase, v: World, w: World)
    requires PurchaseIn(c, v.store) && PurchaseIn(c, w.store)
  {
    && TxForward(StoredTx(c, v.store), StoredTx(c, w.store))
    && (Told(c, StoredTx(c, v.store)) && Newest(c, v.store) ==> KeyForward(c, v, w))
  }

  /** What changes of the store by updates of the purchase leave in place. */
  ghost predicate Keeps(c: Purchase, before: Store, after: Store)
    requires PurchaseIn(c, before) && PurchaseIn(c, after)
  {
    var a, b := StoredTx(c, before), StoredTx(c, after);
    && (a.status.Some? ==> b.status.Some?) && (a.blockNumber.Some? ==> b.blockNumber.Some?)
    && (Belongs(c, a) ==> Belongs(c, b) && (Shown(c, before) ==> Shown(c, after)))
    && Others(c, after) == Others(c, before)
  }

  /** Updates keep the purchase, and show it if it is one of the page's. */
  lemma UpdateKeepsPurchase(c: Purchase, store: Store, update: Tx)
    requires PurchaseIn(c, store) && Harmless(c, update)
    ensures var after := Stored(store, c.setup.page, c.setup.hash, Some(update));
      && PurchaseIn(c, after) && StoredTx(c, after) == MergeTx(StoredTx(c, store), update)
      && Keeps(c, store, after)
      && (Belongs(c, StoredTx(c, after)) ==> Shown(c, after))
  {
    UpdateReachesTheKey(store, c.setup.page, c.setup.hash, update);
    var after := Stored(store, c.setup.page, c.setup.hash, Some(update));
    assert Others(c, after) == Others(c, store);
  }

  /** The newest transaction of a key decides its status, once its block number is told. */
  lemma StatusIsThePurchases(c: Purchase, store: Store, nowMs: int, status: Status)
    requires PurchaseIn(c, store) && Newest(c, store) && Shown(c, store)
    requires StoredTx(c, store).blockNumber.Some? && c.start < StoredTx(c, store).blockNumber.value
    ensures var key := store.keys[PageKey(c.setup.page)];
      Reports(key, nowMs, c.setup.required, status) <==>
      status == Decision(StoredTx(c, store), key, nowMs, c.setup.required)
  {
    var txs := store.keys[PageKey(c.setup.page)].transactions.value;
    assert forall g :: g in txs && g != c.setup.hash ==> g in Others(c, store);
    assert AllNumbered(txs);
    assert forall g :: g in txs && g != c.setup.hash ==> Newer(txs[c.setup.hash], txs[g]);
    assert MayLead(txs, c.setup.hash);
  }

  /** What a told purchase says comes from the last reads. */
  lemma ToldStatus(c: Purchase, w: World, status: Status)
    requires ChainOk(c, w) && StoreOk(c, w) && Told(c, StoredTx(c, w.store)) && Newest(c, w.store)
    ensures var key := w.store.keys[PageKey(c.setup.page)];
      Reports(key, w.nowMs, c.setup.required, status) <==>
      status == Decision(StoredTx(c, w.store), key, w.nowMs, c.setup.required)
  {
    hide Reports, Shown, Others;
    StatusIsThePurchases(c, w.store, w.nowMs, status);
  }

  lemma StaysNewest(c: Purchase, before: Store, after: Store)
    requires PurchaseIn(c, before) && PurchaseIn(c, after) && Keeps(c, before, after)
    ensures Newest(c, before) ==> Newest(c, after)
  {
  }

  /** Later reads of the same purchase never take its status back. */
  lemma LaterReadsMoveForward(c: Purchase, v: World, w: World)
    requires ChainOk(c, v) && ChainOk(c, w) && StoreOk(c, v) && StoreOk(c, w)
    requires LastRead(v).0 <= LastRead(w).0 && Follows(LastRead(v).1, LastRead(w).1) && v.nowMs <= w.nowMs
    requires Keeps(c, v.store, w.store)
    ensures Forward(c, v, w)
  {
    hide Reports, Shown, Others, Newest;
    var id := PageKey(c.setup.page);
    if Told(c, StoredTx(c, v.store)) && Newest(c, v.store) {
      StaysNewest(c, v.store, w.store);
      forall x, y | Reports(v.store.keys[id], v.nowMs, c.setup.required, x)
                 && Reports(w.store.keys[id], w.nowMs, c.setup.required, y)
        ensures KeyRank(x) <= KeyRank(y)
      {
        ToldStatus(c, v, x);
        ToldStatus(c, w, y);
      }
    }
  }

  lemma {:induction false} StoredKeepsPurchase(c: Purchase, store: Store, update: Option<Tx>)
    requires PurchaseIn(c, store)
    requires update.Some? ==> Harmless(c, update.value)
    ensures var after := Stored(store, c.setup.page, c.setup.hash, update);
      && PurchaseIn(c, after) && Keeps(c, store, after)
      && (update.None? ==> after == store)
      && (update.Some? ==>
            && StoredTx(c, after) == MergeTx(StoredTx(c, store), update.value)
            && (Belongs(c, StoredTx(c, after)) ==> Shown(c, after)))
  {
    if update.Some? {
      UpdateKeepsPurchase(c, store, update.value);
    }
  }

  /** A poll that ends: the store now tells what this poll has read. */
  lemma CompleteTells(c: Purchase, w: World, r: Reading, kind: string, input: Option<Tx>)
    requires StoreOk(c, w) && LastRead(w).0 <= r.height && Follows(LastRead(w).1, r.seen)
    requires input.Some? ==> Plain(input.value) && Harmless(c, input.value)
    ensures var v := Completed(c.setup, w, r, kind, input); StoreOk(c, v) && Keeps(c, w.store, v.store)
  {
    hide Dispatched, Reduce, Shown, Others, KeyReady;
    var v := Completed(c.setup, w, r, kind, input);
    var update := Emitted(r, kind);
    var store := Stored(w.store, c.setup.page, c.setup.hash, update);
    StoredKeepsPurchase(c, w.store, update);
    StoredKeepsPurchase(c, store, input);
    assert LastRead(v) == (r.height, r.seen);
  }

  lemma {:induction false} KeyLoadedKeepsPurchase(c: Purchase, w: World)
    requires PurchaseIn(c, w.store)
    ensures var v := Apply(c.setup, w, KeyLoaded(c.expiration));
      && PurchaseIn(c, v.store) && StoredTx(c, v.store) == StoredTx(c, w.store)
      && v.store.keys[PageKey(c.setup.page)].transactions == w.store.keys[PageKey(c.setup.page)].transactions
      && Keeps(c, w.store, v.store)
  {
    assert Others(c, Apply(c.setup, w, KeyLoaded(c.expiration)).store) == Others(c, w.store);
  }

  /** Loading the key makes it ready, whatever expiration was stored, and also if it was missing. */
  lemma LoadingReadiesTheKey(c: Purchase, w: World, expiration: int)
    requires OwnNames(w.store) && c.setup.hash != "" && c.start < UNMINED
    ensures var id, v := PageKey(c.setup.page), Apply(c.setup, w, KeyLoaded(expiration));
      && KeyReady(c.(expiration := expiration), v.store)
      && v.store.keys[id].lock == Some(c.setup.page.lock) && v.store.keys[id].owner == Some(c.setup.page.account)
      && v.store.transactions == w.store.transactions
      && (id in w.store.keys ==> v.store.keys[id].transactions == w.store.keys[id].transactions)
      && (id !in w.store.keys ==> v.store.keys[id].transactions.None?)
  {
    var id, page := PageKey(c.setup.page), c.setup.page;
    var update := Key(None, Some(page.lock), Some(page.account), Some(expiration), None);
    KeyUpdatesReachTheStore(w.store, id, update);
    ReducersKeepNames(w.store, KeyUpdateFor(w.store, id, update));
  }

  /** An event while the purchase succeeds, its expiration stays fixed and tracking is not started again. */
  ghost predicate Quiet(c: Purchase, e: Event) {
    && !e.Start?
    && (e.KeyLoaded? ==> e.expiration == c.expiration)
    && (e.ReceiptArrives? ==> Plain(e.update) && Harmless(c, e.update))
    && (e.Complete? && e.input.Some? ==> Harmless(c, e.input.value))
  }

  /** The events that change the store. */
  lemma StoreStep(c: Purchase, w: World, e: Event)
    requires Tracked(c, w) && Enabled(c.setup, w, e) && Quiet(c, e)
    requires e.ReceiptArrives? || e.KeyLoaded?
    ensures var v := Apply(c.setup, w, e); StoreOk(c, v) && Keeps(c, w.store, v.store)
  {
    if e.ReceiptArrives? {
      hide Dispatched, Reduce, Shown, Others, KeyReady;
      UpdateKeepsPurchase(c, w.store, e.update);
    } else {
      hide Dispatched, Reduce;
      KeyLoadedKeepsPurchase(c, w);
    }
  }

  /** What an event keeps, and how the last reads and the clock move. */
  ghost predicate Advances(c: Purchase, w: World, v: World)
    requires Tracked(c, w)
  {
    && Tracked(c, v)
    && LastRead(w).0 <= LastRead(v).0 && Follows(LastRead(w).1, LastRead(v).1) && w.nowMs <= v.nowMs
    && Keeps(c, w.store, v.store)
  }

  lemma CompleteAdvances(c: Purchase, w: World, e: Event)
    requires Tracked(c, w) && Enabled(c.setup, w, e) && e.Complete? && Quiet(c, e)
    ensures Advances(c, w, Apply(c.setup, w, e))
  {
    hide Dispatched, Reduce, Shown, Others, KeyReady;
    var v := Apply(c.setup, w, e);
    assert PollOk(w, w.polls[e.i]);
    CompleteTells(c, w.(polls := Without(w.polls, e.i)), ReadingOf(w.polls[e.i]), e.kind, e.input);
    assert LastRead(v) == (w.polls[e.i].height.value, w.polls[e.i].seen.value);
    assert v.polls == [];
  }

  lemma PollAdvances(c: Purchase, w: World, e: Event)
    requires Tracked(c, w) && Enabled(c.setup, w, e) && (e.ReadHeight? || e.ReadTx? || e.TimerFires?)
    ensures Advances(c, w, Apply(c.setup, w, e))
  {
    hide Shown, Others, KeyReady;
    var v := Apply(c.setup, w, e);
    assert LastRead(v) == LastRead(w);
    forall i | 0 <= i < |v.polls|
      ensures PollOk(v, v.polls[i])
    {
      assert i < |w.polls| ==> PollOk(w, w.polls[i]);
    }
  }

  lemma StoreAdvances(c: Purchase, w: World, e: Event)
    requires Tracked(c, w) && Enabled(c.setup, w, e) && Quiet(c, e) && (e.ReceiptArrives? || e.KeyLoaded?)
    ensures Advances(c, w, Apply(c.setup, w, e))
  {
    hide Dispatched, Reduce, Shown, Others, KeyReady;
    var v := Apply(c.setup, w, e);
    StoreStep(c, w, e);
    assert LastRead(v) == LastRead(w) && v.polls == w.polls;
    assert forall i :: 0 <= i < |w.polls| ==> PollOk(w, w.polls[i]);
  }

  lemma ChainAdvances(c: Purchase, w: World, e: Event)
    requires Tracked(c, w) && Enabled(c.setup, w, e) && Quiet(c, e)
    requires e.BlockMined? || e.TxPooled? || e.TxMined? || e.ClockTicks?
    ensures Advances(c, w, Apply(c.setup, w, e))
  {
    hide Shown, Others, KeyReady;
    var v := Apply(c.setup, w, e);
    assert LastRead(v) == LastRead(w) && v.polls == w.polls;
    forall i | 0 <= i < |v.polls|
      ensures PollOk(v, v.polls[i])
    {
      assert PollOk(w, w.polls[i]);
    }
  }

  lemma {:induction false} TrackedStep(c: Purchase, w: World, e: Event)
    requires Tracked(c, w) && Enabled(c.setup, w, e) && Quiet(c, e)
    ensures Advances(c, w, Apply(c.setup, w, e))
  {
    if e.Complete? {
      CompleteAdvances(c, w, e);
    } else if e.ReadHeight? || e.ReadTx? || e.TimerFires? {
      PollAdvances(c, w, e);
    } else if e.ReceiptArrives? || e.KeyLoaded? {
      StoreAdvances(c, w, e);
    } else {
      ChainAdvances(c, w, e);
    }
  }

  lemma {:induction false} TrackedRun(c: Purchase, w: World, es: seq<Event>)
    requires Tracked(c, w) && IsRun(c.setup, w, es) && forall e :: e in es ==> Quiet(c, e)
    ensures Advances(c, w, After(c.setup, w, es))
    decreases |es|
  {
    hide Shown, Others, KeyReady;
    if es != [] {
      TrackedStep(c, w, es[0]);
      TrackedRun(c, Apply(c.setup, w, es[0]), es[1..]);
    }
  }

  /**
   * While one tracker follows a successful purchase and its key's expiration is fixed: the
   * stored status never goes back, confirmations never decrease, and from the first update on
   * a key whose newest transaction it is only moves through submitted, pending, confirming,
   * valid, expired.
   */
  lemma PurchasesOnlyMoveForward(c: Purchase, w: World, es: seq<Event>)
    requires Tracked(c, w) && IsRun(c.setup, w, es) && forall e :: e in es ==> Quiet(c, e)
    ensures Tracked(c, After(c.setup, w, es)) && Forward(c, w, After(c.setup, w, es))
  {
    TrackedRun(c, w, es);
    LaterReadsMoveForward(c, w, After(c.setup, w, es));
  }

  /**
   * What the page shows of a told purchase is true of the chain: pending means the node
   * knows it, and valid or expired that it really has the required number of blocks on top.
   */
  lemma ShownStatusIsTrue(c: Purchase, w: World, status: Status)
    requires Tracked(c, w) && Told(c, StoredTx(c, w.store)) && Newest(c, w.store)
    requires Reports(w.store.keys[PageKey(c.setup.page)], w.nowMs, c.setup.required, status)
    ensures status in {Of(Submitted), Of(Pending), Confirming, Valid, Expired}
    ensures status == Of(Pending) ==> !w.tx.Unknown?
    ensures status in {Confirming, Valid, Expired} ==> w.tx.InBlock?
    ensures status in {Valid, Expired} && 0 < c.setup.required ==> w.height - w.tx.block >= c.setup.required
    ensures status in {Valid, Expired} ==> (status == Expired <==> c.expiration * 1000 < w.nowMs)
  {
    hide Reports, Shown, Others;
    ToldStatus(c, w, status);
  }

  /** Once the last poll has settled, the key is valid until it expires. */
  lemma SettledMeansValid(c: Purchase, w: World, status: Status)
    requires Tracked(c, w) && w.readings != [] && Settled(w.readings[|w.readings| - 1], c.setup.required)
    requires Belongs(c, StoredTx(c, w.store)) && Newest(c, w.store)
    requires Reports(w.store.keys[PageKey(c.setup.page)], w.nowMs, c.setup.required, status)
    ensures status == if c.expiration * 1000 < w.nowMs then Expired else Valid
  {
    hide Reports, Shown, Others;
    ToldStatus(c, w, status);
  }

  // ---------------------------------------------------------------- building runs

  /** One more event at the end of a run. */
  lemma {:induction false} Then(s: Setup, w: World, es: seq<Event>, v: World, e: Event)
    returns (fs: seq<Event>, u: World)
    requires IsRun(s, w, es) && After(s, w, es) == v && Enabled(s, v, e)
    ensures fs == es + [e] && u == Apply(s, v, e)
    ensures IsRun(s, w, fs) && After(s, w, fs) == u
    decreases |es|
  {
    fs, u := es + [e], Apply(s, v, e);
    if es == [] {
      assert fs[1..] == [];
    } else {
      assert fs[1..] == es[1..] + [e];
      var _, _ := Then(s, Apply(s, w, es[0]), es[1..], v, e);
    }
  }

  /** Poll i does both of its reads. */
  lemma ReadBoth(s: Setup, w: World, es: seq<Event>, v: World, i: nat) returns (fs: seq<Event>, u: World)
    requires IsRun(s, w, es) && After(s, w, es) == v
    requires i < |v.polls| && v.polls[i].height.None? && v.polls[i].seen.None?
    ensures fs == es + [ReadHeight(i), ReadTx(i)]
    ensures u == v.(polls := v.polls[i := Poll(Some(v.height), Some(v.tx), v.polls[i].defaults)])
    ensures IsRun(s, w, fs) && After(s, w, fs) == u
  {
    fs, u := Then(s, w, es, v, ReadHeight(i));
    fs, u := Then(s, w, fs, u, ReadTx(i));
  }

  // ---------------------------------------------------------------- before the first update

  /**
   * While the purchase has no block number the sort may leave any order, so the key is
   * reported as submitted, or as any one of its other transactions decides.
   */
  lemma RivalsAreReported(c: Purchase, store: Store, nowMs: int, status: Status)
    requires Submitting(c, store)
    ensures var key := store.keys[PageKey(c.setup.page)];
      Reports(key, nowMs, c.setup.required, status) <==>
        status == Of(Submitted)
        || exists h :: h in Others(c, store) && status == Decision(Others(c, store)[h], key, nowMs, c.setup.required)
  {
    var key := store.keys[PageKey(c.setup.page)];
    var txs, others := key.transactions.value, Others(c, store);
    assert forall h :: h in txs <==> h == c.setup.hash || h in others;
    assert forall h :: h in others ==> others[h] == txs[h];
    assert forall h :: h in txs ==> MayLead(txs, h);
  }

  ghost predicate KeyAlwaysForward(c: Purchase, w: World) {
    forall es, fs |
      && IsRun(c.setup, w, es) && IsRun(c.setup, After(c.setup, w, es), fs)
      && (forall e :: e in es + fs ==> Quiet(c, e)) ::
      var u, v := After(c.setup, w, es), After(c.setup, After(c.setup, w, es), fs);
      PurchaseIn(c, u.store) && PurchaseIn(c, v.store) && KeyForward(c, u, v)
  }

  ghost predicate RivalsAreSubmitted(c: Purchase, store: Store)
    requires PurchaseIn(c, store)
  {
    forall h :: h in Others(c, store) ==> Others(c, store)[h].status == Some(Submitted)
  }

  /** The key shows the purchase, and nothing else than submitted can be reported before it is told. */
  ghost predicate Unrivalled(c: Purchase, w: World) {
    && Tracked(c, w) && Newest(c, w.store) && Shown(c, w.store) && Belongs(c, StoredTx(c, w.store))
    && StoredTx(c, w.store).status.Some? && RivalsAreSubmitted(c, w.store)
  }

  lemma StaysUnrivalled(c: Purchase, w: World, es: seq<Event>)
    requires Unrivalled(c, w) && IsRun(c.setup, w, es) && forall e :: e in es ==> Quiet(c, e)
    ensures Unrivalled(c, After(c.setup, w, es))
  {
    hide Shown, Others, KeyReady, Belongs, RivalsAreSubmitted, Newest;
    TrackedRun(c, w, es);
    StaysNewest(c, w.store, After(c.setup, w, es).store);
    SameRivals(c, w.store, After(c.setup, w, es).store);
  }

  lemma SubmittedKeyForward(c: Purchase, w: World, es: seq<Event>, fs: seq<Event>)
    requires Unrivalled(c, w) && IsRun(c.setup, w, es) && IsRun(c.setup, After(c.setup, w, es), fs)
    requires forall e :: e in es + fs ==> Quiet(c, e)
    ensures var u, v := After(c.setup, w, es), After(c.setup, After(c.setup, w, es), fs);
      PurchaseIn(c, u.store) && PurchaseIn(c, v.store) && KeyForward(c, u, v)
  {
    hide KeyForward, Shown, Others, KeyReady, Belongs, RivalsAreSubmitted;
    var u := After(c.setup, w, es);
    StaysUnrivalled(c, w, es);
    StaysUnrivalled(c, u, fs);
    PurchasesOnlyMoveForward(c, u, fs);
    if !Told(c, StoredTx(c, u.store)) {
      UntoldKeyForward(c, u, After(c.setup, u, fs));
    }
  }

  lemma NothingBelowSubmitted(c: Purchase, w: World, status: Status)
    requires Unrivalled(c, w)
    requires Reports(w.store.keys[PageKey(c.setup.page)], w.nowMs, c.setup.required, status)
    ensures KeyRank(status) >= 1
    ensures !Told(c, StoredTx(c, w.store)) ==> status == Of(Submitted)
  {
    if Told(c, StoredTx(c, w.store)) {
      ToldStatus(c, w, status);
    } else {
      RivalsAreReported(c, w.store, w.nowMs, status);
    }
  }

  lemma UntoldKeyForward(c: Purchase, u: World, v: World)
    requires Unrivalled(c, u) && Unrivalled(c, v) && !Told(c, StoredTx(c, u.store))
    ensures KeyForward(c, u, v)
  {
    hide Reports, Shown, Others, Belongs, RivalsAreSubmitted;
    var id := PageKey(c.setup.page);
    forall x, y | Reports(u.store.keys[id], u.nowMs, c.setup.required, x)
               && Reports(v.store.keys[id], v.nowMs, c.setup.required, y)
      ensures KeyRank(x) <= KeyRank(y)
    {
      NothingBelowSubmitted(c, u, x);
      NothingBelowSubmitted(c, v, y);
    }
  }

  lemma SameRivals(c: Purchase, before: Store, after: Store)
    requires PurchaseIn(c, before) && PurchaseIn(c, after) && Others(c, before) == Others(c, after)
    ensures RivalsAreSubmitted(c, before) ==> RivalsAreSubmitted(c, after)
  {
  }

  /** Another transaction's status can be reported before or after the purchase's. */
  lemma RivalGoesBack(c: Purchase, w: World, h: string)
    requires Tracked(c, w) && Submitting(c, w.store)
    requires h in Others(c, w.store) && Others(c, w.store)[h].status != Some(Submitted)
    ensures !KeyAlwaysForward(c, w)
  {
    hide Reports, Shown;
    var key := w.store.keys[PageKey(c.setup.page)];
    var status := Decision(Others(c, w.store)[h], key, w.nowMs, c.setup.required);
    RivalsAreReported(c, w.store, w.nowMs, status);
    RivalsAreReported(c, w.store, w.nowMs, Of(Submitted));
    assert KeyRank(status) != KeyRank(Of(Submitted));
    assert !KeyForward(c, w, w);
    var none: seq<Event> := [];
    assert IsRun(c.setup, w, none) && After(c.setup, w, none) == w && none + none == none;
  }

  /**
   * From the moment the wallet has sent the purchase, its key's status only moves forward if
   * and only if none of the key's other transactions has another status. A first purchase has
   * no others; a renewal has an old purchase.
   */
  lemma KeyForwardExactlyWithoutRivals(c: Purchase, w: World)
    requires Tracked(c, w) && Submitting(c, w.store) && Newest(c, w.store)
    ensures KeyAlwaysForward(c, w) <==> RivalsAreSubmitted(c, w.store)
  {
    if RivalsAreSubmitted(c, w.store) {
      forall es, fs | IsRun(c.setup, w, es) && IsRun(c.setup, After(c.setup, w, es), fs)
        && (forall e :: e in es + fs ==> Quiet(c, e))
        ensures var u, v := After(c.setup, w, es), After(c.setup, After(c.setup, w, es), fs);
          PurchaseIn(c, u.store) && PurchaseIn(c, v.store) && KeyForward(c, u, v)
      {
        SubmittedKeyForward(c, w, es, fs);
      }
    } else {
      var h :| h in Others(c, w.store) && Others(c, w.store)[h].status != Some(Submitted);
      RivalGoesBack(c, w, h);
    }
  }

  /** A renewal: the key has expired when the wallet sends a new purchase, and either is reported. */
  lemma RenewalIsAmbiguous() returns (c: Purchase, store: Store, action: Action, nowMs: int)
    ensures KeyReady(c, store) && Begins(c, Start(action)) && FromPage(action.tx, c.setup.page)
    ensures var key := Handled(store, c.setup.page, action).keys[PageKey(c.setup.page)];
      && Reports(key, nowMs, c.setup.required, Expired)
      && Reports(key, nowMs, c.setup.required, Of(Submitted))
  {
    var page := Page("lock", "account");
    var id := PageKey(page);
    c := Purchase(Setup("new", page, 12), 200, 1, id);
    var earlier := NOTHING.(hash := Some("old"), status := Some(Mined), confirmations := Some(100),
                            blockNumber := Some(100));
    store := Store(map["old" := earlier],
                   map[id := Key(Some(id), Some("lock"), Some("account"), Some(1), Some(map["old" := earlier]))]);
    action := NewTransaction("new", NOTHING.(status := Some(Submitted), to := Some("lock"), from := Some("account")));
    nowMs := 5000;
    assert Others(c, store) == map["old" := earlier];
    BeginningStores(c, store, action);
    var after := Handled(store, page, action);
    assert "old" in Others(c, after);
    RivalsAreReported(c, after, nowMs, Expired);
    RivalsAreReported(c, after, nowMs, Of(Submitted));
  }

  // ---------------------------------------------------------------- with another purchase unmined

  /** Block numbers are safe integers. */
  ghost predicate SafeBlocks(c: Purchase, store: Store)
    requires PurchaseIn(c, store)
  {
    forall h :: h in Others(c, store) && Others(c, store)[h].blockNumber.Some? ==>
      Others(c, store)[h].blockNumber.value <= UNMINED
  }

  /** A latest one of the key's other transactions. */
  ghost predicate Rival(c: Purchase, store: Store, h: string)
    requires PurchaseIn(c, store)
  {
    h in Others(c, store) && forall g :: g in Others(c, store) ==> !Newer(Others(c, store)[g], Others(c, store)[h])
  }

  /** Above any transaction that is not mined yet there is a rival that is not either. */
  lemma {:induction false} UnminedRival(c: Purchase, store: Store, g: string) returns (h: string)
    requires PurchaseIn(c, store) && SafeBlocks(c, store)
    requires g in Others(c, store) && !Earlier(Others(c, store)[g], c.start)
    ensures Rival(c, store, h) && !Earlier(Others(c, store)[h], c.start)
    decreases UNMINED - if Others(c, store)[g].blockNumber.Some? then Others(c, store)[g].blockNumber.value else UNMINED
  {
    var others := Others(c, store);
    if f :| f in others && Newer(others[f], others[g]) {
      h := UnminedRival(c, store, f);
    } else {
      h := g;
    }
  }

  /** The purchase has just been dispatched, in the current block, and one tracker was started. */
  ghost predicate JustSent(c: Purchase, w: World) {
    && Unread(c, w) && |w.polls| == 1 && Submitting(c, w.store)
    && c.start == w.height && !w.tx.InBlock? && SafeBlocks(c, w.store)
  }

  /** Poll 0 reads, and ends. */
  lemma PollOnce(c: Purchase, w: World, es: seq<Event>, v: World) returns (fs: seq<Event>, u: World)
    requires IsRun(c.setup, w, es) && After(c.setup, w, es) == v && forall e :: e in es ==> Quiet(c, e)
    requires |v.polls| == 1 && v.polls[0].height.None? && v.polls[0].seen.None?
    requires c.setup.hash in v.store.transactions
    ensures IsRun(c.setup, w, fs) && After(c.setup, w, fs) == u && forall e :: e in fs ==> Quiet(c, e)
    ensures LastRead(u) == (v.height, v.tx) && u.height == v.height && u.tx == v.tx && u.polls == []
    ensures !v.tx.InBlock? ==> u.timers == v.timers + 1
  {
    hide Stored;
    fs, u := ReadBoth(c.setup, w, es, v, 0);
    fs, u := Then(c.setup, w, fs, u, Complete(0, "", None));
  }

  /** The purchase is seen pending, and then in the next block. */
  lemma SeenPendingThenMined(c: Purchase, w: World) returns (es: seq<Event>, u: World, fs: seq<Event>, v: World)
    requires JustSent(c, w)
    ensures IsRun(c.setup, w, es) && After(c.setup, w, es) == u && IsRun(c.setup, u, fs) && After(c.setup, u, fs) == v
    ensures forall e :: e in es + fs ==> Quiet(c, e)
    ensures LastRead(u).1 == Pooled && LastRead(v).1 == InBlock(c.start + 1)
  {
    hide Shown, Others, KeyReady, SafeBlocks, Belongs;
    es, u := Then(c.setup, w, [], w, if w.tx.Unknown? then TxPooled else ClockTicks(0));
    es, u := PollOnce(c, w, es, u);
    TrackedRun(c, w, es);
    fs, v := Then(c.setup, u, [], u, TimerFires);
    fs, v := Then(c.setup, u, fs, v, TxMined);
    fs, v := PollOnce(c, u, fs, v);
  }

  lemma StaysSafe(c: Purchase, before: Store, after: Store)
    requires PurchaseIn(c, before) && PurchaseIn(c, after) && Keeps(c, before, after)
    ensures SafeBlocks(c, before) ==> SafeBlocks(c, after)
  {
  }

  lemma StaysRival(c: Purchase, before: Store, after: Store, h: string)
    requires PurchaseIn(c, before) && PurchaseIn(c, after) && Keeps(c, before, after)
    ensures Rival(c, before, h) ==> Rival(c, after, h)
  {
  }

  /** Then a rival that is still unmined hides it again. */
  lemma UnminedRivalGoesBack(c: Purchase, w: World, h: string)
    requires JustSent(c, w) && Rival(c, w.store, h)
    requires !Earlier(Others(c, w.store)[h], c.start) && Others(c, w.store)[h].status == Some(Submitted)
    ensures !KeyAlwaysForward(c, w)
  {
    hide KeyForward, Shown, KeyReady, Belongs, Reports, SafeBlocks, ChainOk;
    var es, u, fs, v := SeenPendingThenMined(c, w);
    TrackedRun(c, w, es);
    TrackedRun(c, u, fs);
    StaysSafe(c, w.store, u.store);
    StaysRival(c, w.store, v.store, h);
    PendingIsReported(c, u);
    RivalIsReported(c, v, h);
    GoesBack(c, u, v, Of(Pending), Of(Submitted));
  }

  lemma GoesBack(c: Purchase, v: World, w: World, x: Status, y: Status)
    requires PurchaseIn(c, v.store) && PurchaseIn(c, w.store)
    requires Reports(v.store.keys[PageKey(c.setup.page)], v.nowMs, c.setup.required, x)
    requires Reports(w.store.keys[PageKey(c.setup.page)], w.nowMs, c.setup.required, y)
    requires KeyRank(y) < KeyRank(x)
    ensures !KeyForward(c, v, w)
  {
    hide Reports;
  }

  lemma PendingIsReported(c: Purchase, u: World)
    requires Tracked(c, u) && LastRead(u).1 == Pooled && Belongs(c, StoredTx(c, u.store)) && SafeBlocks(c, u.store)
    ensures Reports(u.store.keys[PageKey(c.setup.page)], u.nowMs, c.setup.required, Of(Pending))
  {
    var txs := u.store.keys[PageKey(c.setup.page)].transactions.value;
    assert forall g :: g in txs && g != c.setup.hash ==> g in Others(c, u.store);
    assert MayLead(txs, c.setup.hash);
  }

  lemma RivalIsReported(c: Purchase, v: World, h: string)
    requires Tracked(c, v) && LastRead(v).1 == InBlock(c.start + 1) && Belongs(c, StoredTx(c, v.store))
    requires Rival(c, v.store, h) && !Earlier(Others(c, v.store)[h], c.start)
    requires Others(c, v.store)[h].status == Some(Submitted)
    ensures Reports(v.store.keys[PageKey(c.setup.page)], v.nowMs, c.setup.required, Of(Submitted))
  {
    var key := v.store.keys[PageKey(c.setup.page)];
    var txs := key.transactions.value;
    assert h in txs && txs[h] == Others(c, v.store)[h];
    assert forall g :: g in txs && g != c.setup.hash ==> g in Others(c, v.store);
    assert MayLead(txs, h);
    assert Decision(txs[h], key, v.nowMs, c.setup.required) == Of(Submitted);
  }

  /**
   * From the dispatch on, the key's status only moves forward if and only if its other
   * transactions were mined by then and none of them has another status. So it does for a
   * first purchase, and not for a renewal or for a second purchase on its way.
   */
  lemma KeyForwardExactlyForFirstPurchases(c: Purchase, w: World)
    requires JustSent(c, w)
    ensures KeyAlwaysForward(c, w) <==> Newest(c, w.store) && RivalsAreSubmitted(c, w.store)
  {
    hide KeyAlwaysForward, Shown, Belongs;
    assert Tracked(c, w);
    if !RivalsAreSubmitted(c, w.store) {
      var h :| h in Others(c, w.store) && Others(c, w.store)[h].status != Some(Submitted);
      RivalGoesBack(c, w, h);
    } else if !Newest(c, w.store) {
      var g :| g in Others(c, w.store) && !Earlier(Others(c, w.store)[g], c.start);
      var h := UnminedRival(c, w.store, g);
      UnminedRivalGoesBack(c, w, h);
    } else {
      KeyForwardExactlyWithoutRivals(c, w);
    }
  }

  // ---------------------------------------------------------------- with several trackers

  ghost predicate AlwaysForward(c: Purchase, w: World) {
    forall es, fs |
      && IsRun(c.setup, w, es) && IsRun(c.setup, After(c.setup, w, es), fs)
      && (forall e :: e in es + fs ==> Quiet(c, e)) ::
      var u, v := After(c.setup, w, es), After(c.setup, After(c.setup, w, es), fs);
      PurchaseIn(c, u.store) && PurchaseIn(c, v.store) && Forward(c, u, v)
  }

  /** The first poll reads before the second, and the chain moves on between them. */
  predicate ReadInTurn(p: Poll, q: Poll) {
    && Read(p) && Read(q) && q.seen.value.InBlock?
    && (p.seen == Some(Pooled)
        || (p.seen == q.seen && p.seen.value.block <= p.height.value < q.height.value))
  }

  lemma OverlappingReads(c: Purchase, w: World) returns (es: seq<Event>, v: World)
    requires Unread(c, w) && |w.polls| >= 2
    ensures IsRun(c.setup, w, es) && After(c.setup, w, es) == v
    ensures forall e :: e in es ==> Quiet(c, e)
    ensures |v.polls| >= 2 && ReadInTurn(v.polls[0], v.polls[1])
    ensures v.store == w.store
  {
    hide Shown, Others, KeyReady;
    es, v := Then(c.setup, w, [], w, if w.tx.Unknown? then TxPooled else ClockTicks(0));
    es, v := ReadBoth(c.setup, w, es, v, 0);
    es, v := Then(c.setup, w, es, v, if w.tx.InBlock? then BlockMined else TxMined);
    es, v := ReadBoth(c.setup, w, es, v, 1);
  }

  /** The second poll ends first and stores the later reading. */
  lemma LatePollEndsFirst(c: Purchase, w: World) returns (es: seq<Event>, u: World, late: Poll)
    requires Unread(c, w) && |w.polls| >= 2
    ensures IsRun(c.setup, w, es) && After(c.setup, w, es) == u
    ensures forall e :: e in es ==> Quiet(c, e)
    ensures PurchaseIn(c, u.store) && u.polls != [] && ReadInTurn(u.polls[0], late)
    ensures StoredTx(c, u.store).status == Some(Mined)
    ensures StoredTx(c, u.store).confirmations == Some(Max(late.height.value - late.seen.value.block, 0))
  {
    hide Dispatched, Reduce, Shown, Others, KeyReady;
    var before, v := OverlappingReads(c, w);
    late := v.polls[1];
    es, u := Then(c.setup, w, before, v, Complete(1, "", None));
    StoredKeepsPurchase(c, v.store, Emitted(ReadingOf(late), ""));
    assert u.polls[0] == v.polls[0];
  }

  /** Then the first poll takes the status back to pending, or the confirmations back. */
  lemma OverlappingPollsGoBack(c: Purchase, w: World)
    requires Unread(c, w) && |w.polls| >= 2
    ensures !AlwaysForward(c, w)
  {
    hide Dispatched, Reduce, Shown, Others, KeyReady;
    var es, u, late := LatePollEndsFirst(c, w);
    var fs, t := Then(c.setup, u, [], u, Complete(0, "", None));
    StoredKeepsPurchase(c, u.store, Emitted(ReadingOf(u.polls[0]), ""));
    assert !TxForward(StoredTx(c, u.store), StoredTx(c, t.store));
    assert !Forward(c, u, t);
    assert forall e :: e in es + fs ==> Quiet(c, e);
  }

  /**
   * Whatever the node knows of the purchase when trackers are started, following it
   * forward is safe if and only if one is.
   */
  lemma ForwardExactlyWhenTrackedOnce(c: Purchase, w: World, starts: seq<Event>)
    requires Unread(c, w) && w.polls == []
    requires starts != [] && forall e :: e in starts ==> Begins(c, e)
    ensures IsRun(c.setup, w, starts)
    ensures AlwaysForward(c, After(c.setup, w, starts)) <==> |starts| == 1
  {
    StartsAreUnread(c, w, starts);
    var v := After(c.setup, w, starts);
    if |starts| == 1 {
      forall es, fs | IsRun(c.setup, v, es) && IsRun(c.setup, After(c.setup, v, es), fs)
        && (forall e :: e in es + fs ==> Quiet(c, e))
        ensures var u, t := After(c.setup, v, es), After(c.setup, After(c.setup, v, es), fs);
          PurchaseIn(c, u.store) && PurchaseIn(c, t.store) && Forward(c, u, t)
      {
        PurchasesOnlyMoveForward(c, v, es);
        PurchasesOnlyMoveForward(c, After(c.setup, v, es), fs);
      }
    } else {
      OverlappingPollsGoBack(c, v);
    }
  }

  /**
   * Tracking the purchase again overwrites what is stored of it: that is no step back exactly
   * if nothing was stored yet, or nothing but the submission that is stored again.
   */
  lemma RestartIsForwardExactlyAtTheBeginning(c: Purchase, w: World, e: Event)
    requires Tracked(c, w) && Begins(c, e)
    ensures Enabled(c.setup, w, e)
    ensures var status, after := StoredTx(c, w.store).status, Apply(c.setup, w, e).store;
      && PurchaseIn(c, after)
      && (TxForward(StoredTx(c, w.store), StoredTx(c, after)) <==>
            status.None? || (status == Some(Submitted) && e.action.NewTransaction?))
  {
    hide Handled, KeyReady, Shown, Others;
    BeginningStores(c, w.store, e.action);
  }

  // ---------------------------------------------------------------- failed purchases

  /** The transaction is stored under its own hash. */
  ghost predicate Held(c: Purchase, store: Store) {
    OwnNames(store) && c.setup.hash != "" && c.setup.hash in store.transactions
  }

  ghost predicate StaysFailed(c: Purchase, w: World) {
    forall es | IsRun(c.setup, w, es) && (forall e: Event :: e in es ==> !e.Start?) ::
      var v := After(c.setup, w, es);
      Held(c, v.store) && StoredTx(c, v.store).status == Some(Failed)
  }

  lemma {:induction false} StoredIsHeld(c: Purchase, store: Store, update: Option<Tx>)
    requires Held(c, store) && (update.Some? ==> update.value.hash.None?)
    ensures var after := Stored(store, c.setup.page, c.setup.hash, update);
      && Held(c, after)
      && StoredTx(c, after) ==
           if update.None? then StoredTx(c, store) else MergeTx(StoredTx(c, store), update.value)
  {
    if update.Some? {
      UpdateReachesTheKey(store, c.setup.page, c.setup.hash, update.value);
      ActionsKeepNames(store, c.setup.page, UpdateFor(store, c.setup.hash, update.value));
    }
  }

  /** Without a timer and a poll, nothing writes a status but a receipt of the failure. */
  lemma {:induction false} UntrackedStaysFailed(c: Purchase, w: World, es: seq<Event>)
    requires Held(c, w.store) && StoredTx(c, w.store).status == Some(Failed) && w.timers == 0 && w.polls == []
    requires IsRun(c.setup, w, es) && forall e :: e in es ==> !e.Start?
    ensures Held(c, After(c.setup, w, es).store)
    ensures StoredTx(c, After(c.setup, w, es).store).status == Some(Failed)
    decreases |es|
  {
    hide Dispatched, Reduce;
    if es != [] {
      if es[0].ReceiptArrives? {
        StoredIsHeld(c, w.store, Some(es[0].update));
      } else if es[0].KeyLoaded? {
        KeyLoadedHolds(c, w, es[0]);
      }
      UntrackedStaysFailed(c, Apply(c.setup, w, es[0]), es[1..]);
    }
  }

  lemma KeyLoadedHolds(c: Purchase, w: World, e: Event)
    requires Held(c, w.store) && e.KeyLoaded?
    ensures var v := Apply(c.setup, w, e); Held(c, v.store) && v.store.transactions == w.store.transactions
  {
  }

  /** Poll i reads what it has not read yet, and ends. */
  lemma PollEnds(c: Purchase, w: World, before: seq<Event>, v: World, i: nat) returns (es: seq<Event>, u: World)
    requires IsRun(c.setup, w, before) && After(c.setup, w, before) == v && forall e :: e in before ==> !e.Start?
    requires Held(c, v.store) && i < |v.polls|
    ensures IsRun(c.setup, w, es) && After(c.setup, w, es) == u && forall e :: e in es ==> !e.Start?
    ensures Held(c, u.store)
    ensures
      || StoredTx(c, u.store).status in {Some(Submitted), Some(Pending), Some(Mined)}
      || (u.timers > 0 && (v.polls[i].seen.None? ==> v.tx.Unknown?))
  {
    hide Dispatched, Reduce;
    es, u := before, v;
    if u.polls[i].height.None? {
      es, u := Then(c.setup, w, es, u, ReadHeight(i));
    }
    if u.polls[i].seen.None? {
      es, u := Then(c.setup, w, es, u, ReadTx(i));
    }
    StoredIsHeld(c, u.store, Emitted(ReadingOf(u.polls[i]), ""));
    es, u := Then(c.setup, w, es, u, Complete(i, "", None));
  }

  /** A timer leads to a poll that stores the status of a known transaction. */
  lemma TimerEnds(c: Purchase, w: World, before: seq<Event>, v: World) returns (es: seq<Event>, u: World)
    requires IsRun(c.setup, w, before) && After(c.setup, w, before) == v && forall e :: e in before ==> !e.Start?
    requires Held(c, v.store) && v.timers > 0
    ensures IsRun(c.setup, w, es) && After(c.setup, w, es) == u && forall e :: e in es ==> !e.Start?
    ensures Held(c, u.store) && StoredTx(c, u.store).status in {Some(Submitted), Some(Pending), Some(Mined)}
  {
    es, u := Then(c.setup, w, before, v, TimerFires);
    if u.tx.Unknown? {
      es, u := Then(c.setup, w, es, u, TxPooled);
    }
    es, u := PollEnds(c, w, es, u, |v.polls|);
  }

  /**
   * A stored failure is final if and only if no timer and no poll is left: any poll that
   * ends stores what it has read over it. So with one tracker it is final exactly when
   * a poll has settled.
   */
  lemma FailureIsFinalExactlyWhenUntracked(c: Purchase, w: World)
    requires Held(c, w.store) && StoredTx(c, w.store).status == Some(Failed)
    ensures StaysFailed(c, w) <==> w.timers == 0 && w.polls == []
    ensures Accounted(c.setup, w) && w.started == 1 ==>
      (StaysFailed(c, w) <==> exists r :: r in w.readings && Settled(r, c.setup.required))
  {
    hide Dispatched, Reduce;
    SettledSometime(w.readings, c.setup.required);
    if w.timers == 0 && w.polls == [] {
      forall es | IsRun(c.setup, w, es) && (forall e: Event :: e in es ==> !e.Start?)
        ensures Held(c, After(c.setup, w, es).store)
        ensures StoredTx(c, After(c.setup, w, es).store).status == Some(Failed)
      {
        UntrackedStaysFailed(c, w, es);
      }
    } else if w.timers > 0 {
      var es, u := TimerEnds(c, w, [], w);
    } else {
      var es, u := PollEnds(c, w, [], w, 0);
      if StoredTx(c, u.store).status !in {Some(Submitted), Some(Pending), Some(Mined)} {
        es, u := TimerEnds(c, w, es, u);
      }
    }
  }

  /** The failed purchase is shown, as its key's newest transaction, and nothing follows it any more. */
  ghost predicate ShownFailed(c: Purchase, w: World) {
    && PurchaseIn(c, w.store) && Newest(c, w.store) && Shown(c, w.store) && Belongs(c, StoredTx(c, w.store))
    && StoredTx(c, w.store).status == Some(Failed)
    && StoredTx(c, w.store).blockNumber.Some? && c.start < StoredTx(c, w.store).blockNumber.value
  }

  /** Such a key is reported as failed, and as nothing else. */
  lemma FailureIsReported(c: Purchase, w: World, status: Status)
    requires ShownFailed(c, w)
    ensures Reports(w.store.keys[PageKey(c.setup.page)], w.nowMs, c.setup.required, status) <==> status == Of(Failed)
  {
    StatusIsThePurchases(c, w.store, w.nowMs, status);
  }

  /** The receipt of a failure shows it, from wherever the told purchase was. */
  lemma FailureShows(c: Purchase, w: World)
    requires Tracked(c, w) && Told(c, StoredTx(c, w.store)) && Newest(c, w.store)
    requires Enabled(c.setup, w, ReceiptArrives(FAILURE))
    ensures var v := Apply(c.setup, w, ReceiptArrives(FAILURE));
      ShownFailed(c, v) && StoredTx(c, v.store) == StoredTx(c, w.store).(status := Some(Failed))
  {
    hide Dispatched, Reduce, Shown, Others;
    UpdateKeepsPurchase(c, w.store, FAILURE);
    StaysNewest(c, w.store, Apply(c.setup, w, ReceiptArrives(FAILURE)).store);
  }

  lemma {:induction false} StaysShownFailed(c: Purchase, w: World, es: seq<Event>)
    requires ShownFailed(c, w) && w.timers == 0 && w.polls == [] && IsRun(c.setup, w, es)
    requires forall e :: e in es ==> Quiet(c, e) || e == ReceiptArrives(FAILURE)
    ensures ShownFailed(c, After(c.setup, w, es))
    decreases |es|
  {
    if es != [] {
      UntrackedStepKeepsFailure(c, w, es[0]);
      StaysShownFailed(c, Apply(c.setup, w, es[0]), es[1..]);
    }
  }

  /** A receipt tells of failure again, or of the purchase's key only. */
  lemma ReceiptKeepsFailure(c: Purchase, w: World, e: Event)
    requires ShownFailed(c, w) && Enabled(c.setup, w, e) && e.ReceiptArrives?
    requires Harmless(c, e.update) && (Plain(e.update) || e.update == FAILURE)
    ensures ShownFailed(c, Apply(c.setup, w, e))
  {
    hide Dispatched, Reduce, Shown, Others, KeyReady;
    UpdateKeepsPurchase(c, w.store, e.update);
    StaysNewest(c, w.store, Apply(c.setup, w, e).store);
  }

  lemma LoadingKeepsFailure(c: Purchase, w: World)
    requires ShownFailed(c, w)
    ensures ShownFailed(c, Apply(c.setup, w, KeyLoaded(c.expiration)))
  {
    hide Dispatched, Reduce, Others, KeyReady;
    KeyLoadedKeepsPurchase(c, w);
    StaysNewest(c, w.store, Apply(c.setup, w, KeyLoaded(c.expiration)).store);
  }

  lemma UntrackedStepKeepsFailure(c: Purchase, w: World, e: Event)
    requires ShownFailed(c, w) && w.timers == 0 && w.polls == [] && Enabled(c.setup, w, e)
    requires Quiet(c, e) || e == ReceiptArrives(FAILURE)
    ensures var v := Apply(c.setup, w, e); ShownFailed(c, v) && v.timers == 0 && v.polls == []
  {
    if e.ReceiptArrives? {
      ReceiptKeepsFailure(c, w, e);
    } else if e.KeyLoaded? {
      LoadingKeepsFailure(c, w);
    }
  }

  /**
   * Once the failure of the told purchase is stored and tracking has ended, the key is
   * reported as failed and as nothing else in every run that does not start it again.
   */
  lemma FailedKeysStayFailed(c: Purchase, w: World, es: seq<Event>, status: Status)
    requires ShownFailed(c, w) && w.timers == 0 && w.polls == [] && IsRun(c.setup, w, es)
    requires forall e :: e in es ==> Quiet(c, e) || e == ReceiptArrives(FAILURE)
    ensures var v := After(c.setup, w, es);
      && PageKey(c.setup.page) in v.store.keys
      && (Reports(v.store.keys[PageKey(c.setup.page)], v.nowMs, c.setup.required, status) <==> status == Of(Failed))
  {
    StaysShownFailed(c, w, es);
    FailureIsReported(c, After(c.setup, w, es), status);
  }

  /** While a failed purchase is still polled, a poll stores it as mined until its receipt has been read. */
  lemma FailureIsTakenBack(c: Purchase, w: World) returns (es: seq<Event>, u: World, fs: seq<Event>, v: World)
    requires Tracked(c, w) && w.tx.InBlock? && w.timers == 1 && w.receipts > 0
    ensures IsRun(c.setup, w, es) && After(c.setup, w, es) == u && IsRun(c.setup, u, fs) && After(c.setup, u, fs) == v
    ensures PurchaseIn(c, u.store) && StoredTx(c, u.store).status == Some(Failed)
    ensures PurchaseIn(c, v.store) && StoredTx(c, v.store).status == Some(Mined)
  {
    hide Dispatched, Reduce, Shown, Others, KeyReady;
    es, u := Then(c.setup, w, [], w, ReceiptArrives(FAILURE));
    UpdateKeepsPurchase(c, w.store, FAILURE);
    fs, v := Then(c.setup, u, [], u, TimerFires);
    fs, v := ReadBoth(c.setup, u, fs, v, 0);
    var r := ReadingOf(v.polls[0]);
    fs, v := Then(c.setup, u, fs, v, Complete(0, "", None));
    StoredKeepsPurchase(c, u.store, Emitted(r, ""));
  }

  // ---------------------------------------------------------------- what a poll and a start do

  /** An update, if there is one, and then another. */
  lemma TwoUpdates(c: Purchase, store: Store, update: Option<Tx>, input: Option<Tx>)
    requires Held(c, store) && (update.Some? ==> update.value.hash.None?) && (input.Some? ==> Plain(input.value))
    ensures var next := Stored(store, c.setup.page, c.setup.hash, update);
      && Held(c, next)
      && var after := Stored(next, c.setup.page, c.setup.hash, input);
      && Held(c, after)
      && StoredTx(c, next) ==
           (if update.Some? then MergeTx(StoredTx(c, store), update.value) else StoredTx(c, store))
      && StoredTx(c, after) ==
           if input.None? then StoredTx(c, next)
           else StoredTx(c, next).(key := Or(input.value.key, StoredTx(c, next).key),
                                   others := StoredTx(c, next).others + input.value.others)
  {
    hide Dispatched, Reduce, OwnNames;
    StoredIsHeld(c, store, update);
    StoredIsHeld(c, Stored(store, c.setup.page, c.setup.hash, update), input);
  }

  /** A poll that ends: its timer, its receipt, its update, and what it learns of an unmined one's input. */
  lemma PollsDo(c: Purchase, w: World, e: Event)
    requires Held(c, w.store) && e.Complete? && Enabled(c.setup, w, e)
    ensures var v, p, before := Apply(c.setup, w, e), w.polls[e.i], StoredTx(c, w.store);
      var seen := p.seen.value;
      var input := if e.input.Some? && !seen.InBlock? then e.input.value else NOTHING;
      && v.polls == Without(w.polls, e.i) && v.readings == w.readings + [ReadingOf(p)]
      && v.timers == w.timers +
           (if seen.InBlock? && p.height.value - seen.block >= c.setup.required then 0 else 1)
      && v.receipts == w.receipts + (if seen.InBlock? then 1 else 0)
      && Held(c, v.store)
      && (seen.Unknown? && !p.defaults ==> v.store == w.store)
      && (!seen.Unknown? || p.defaults ==>
            var after := StoredTx(c, v.store);
            && Tells(after, p.height.value, seen) && after.blockNumber.Some?
            && after.others == before.others["type" := e.kind] + input.others
            && Brings(input.key, before.key, after.key)
            && after.hash == before.hash && after.from == before.from && after.to == before.to)
  {
    hide Dispatched, Reduce, Stored, OwnNames;
    TwoUpdates(c, w.store, Emitted(ReadingOf(w.polls[e.i]), e.kind), e.input);
    var others := StoredTx(c, w.store).others;
    assert others + map["type" := e.kind] == others["type" := e.kind];
    assert others["type" := e.kind] + map[] == others["type" := e.kind];
    StoredNothing(c, w.store);
  }

  lemma StoredNothing(c: Purchase, store: Store)
    requires c.setup.hash in store.transactions
    ensures Stored(store, c.setup.page, c.setup.hash, None) == store
  {
  }

  /** A timer polls once and without defaults; chain and clock only move forward and leave the rest alone. */
  lemma TimersAndTimeDo(c: Setup, w: World, e: Event)
    requires Enabled(c, w, e) && (e.TimerFires? || e.BlockMined? || e.TxPooled? || e.TxMined? || e.ClockTicks?)
    ensures var v := Apply(c, w, e);
      && v.store == w.store && v.readings == w.readings && v.receipts == w.receipts && v.started == w.started
      && v.timers + (if e.TimerFires? then 1 else 0) == w.timers
      && v.polls == w.polls + (if e.TimerFires? then [Poll(None, None, false)] else [])
      && v.height == w.height + (if e.BlockMined? || e.TxMined? then 1 else 0)
      && (e.TxMined? ==> v.tx == InBlock(v.height)) && (e.TxPooled? ==> v.tx == Pooled)
      && (!e.TxMined? && !e.TxPooled? ==> v.tx == w.tx)
      && v.nowMs - w.nowMs == if e.ClockTicks? then e.ms else 0
  {
  }

  /** A new transaction is polled with its own properties as defaults; one found by hash only if its input is known. */
  lemma StartsDo(c: Setup, w: World, action: Action)
    requires Enabled(c, w, Start(action))
    ensures var v := Apply(c, w, Start(action));
      && v.started == w.started + 1 && |v.polls| == |w.polls| + 1 && v.polls[..|w.polls|] == w.polls
      && v.polls[|w.polls|].height.None? && v.polls[|w.polls|].seen.None?
      && (v.polls[|w.polls|].defaults <==>
            action.NewTransaction? || exists text :: text != "" && ("input", text) in action.tx.others.Items)
  {
    if "input" in action.tx.others {
      assert ("input", action.tx.others["input"]) in action.tx.others.Items;
    }
  }
}
