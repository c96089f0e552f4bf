/**
 * Following one transaction: getTransaction and _watchTransaction of
 * unlock-js/src/web3Service.js poll the chain until the transaction is confirmed.
 */
module TransactionTracking {
  import opened Prelude
  import opened KeyStore
  import opened KeyStatus

  /** What the node knows of the transaction. */
  datatype Seen = Unknown | Pooled | InBlock(block: nat)

  function Stage(seen: Seen): nat {
    match seen
    case Unknown => 0
    case Pooled => 1
    case InBlock(_) => 2
  }

  /** The two reads of a poll, and whether its caller passed defaults. */
  datatype Reading = Reading(height: nat, seen: Seen, defaults: bool)

  function Max(a: int, b: int): int {
    if a < b then b else a
  }

  /** The poll saw enough blocks on top of the transaction, so nothing is scheduled any more. */
  predicate Settled(r: Reading, required: int) {
    r.seen.InBlock? && r.height - r.seen.block >= required
  }

  /** The update emitted once both reads are there; kind is the transaction's type. */
  function Emitted(r: Reading, kind: string): Option<Tx> {
    match r.seen
    case Unknown => if r.defaults then Some(Unmined(Submitted, kind)) else None
    case Pooled => Some(Unmined(Pending, kind))
    case InBlock(block) =>
      Some(NOTHING.(status := Some(Mined), confirmations := Some(Max(r.height - block, 0)),
                    blockNumber := Some(block), others := map["type" := kind]))
  }

  function Unmined(status: TxStatus, kind: string): Tx {
    NOTHING.(status := Some(status), confirmations := Some(0), blockNumber := Some(UNMINED),
             others := map["type" := kind])
  }

  /** Updates derived from a transaction's input or logs: they name its key and lock only. */
  predicate Plain(update: Tx) {
    update == NOTHING.(key := update.key, others := update.others)
  }

  /** The update that a receipt of a failed transaction leads to. */
  const FAILURE := NOTHING.(status := Some(Failed))

  /** What the handlers do with an update, if there is one. */
  function Stored(store: Store, page: Page, hash: string, update: Option<Tx>): Store
    requires hash in store.transactions
  {
    if update.None? then store else Dispatched(store, page, UpdateFor(store, hash, update.value))
  }

  class Web3Service {
    const requiredConfirmations: int
    var timers: multiset<string>
    var emitted: seq<(string, Tx)>

    constructor (requiredConfirmations: int)
      ensures this.requiredConfirmations == requiredConfirmations
      ensures timers == multiset{} && emitted == []
    {
      this.requiredConfirmations := requiredConfirmations;
      timers, emitted := multiset{}, [];
    }

    method WatchTransaction(hash: string)
      modifies this`timers
      ensures timers == old(timers) + multiset{hash}
    {
      timers := timers + multiset{hash};
    }

    method ParseTransactionFromInput(hash: string, kind: string, input: Option<Tx>, status: TxStatus)
      modifies this`emitted
      ensures emitted == old(emitted) + [(hash, Unmined(status, kind))]
        + if input.Some? then [(hash, input.value)] else []
    {
      emitted := emitted + [(hash, Unmined(status, kind))];
      if input.Some? {
        emitted := emitted + [(hash, input.value)];
      }
    }

    /**
     * getTransaction from the point where both reads and the contract version are known;
     * input is what the handler of the called contract function emits.
     */
    method AfterReads(hash: string, r: Reading, kind: string, input: Option<Tx>)
      modifies this
      ensures timers == if Settled(r, requiredConfirmations) then old(timers) else old(timers) + multiset{hash}
      ensures emitted == old(emitted)
        + (if Emitted(r, kind).Some? then [(hash, Emitted(r, kind).value)] else [])
        + (if input.Some? && Emitted(r, kind).Some? && !r.seen.InBlock? then [(hash, input.value)] else [])
    {
      match r.seen {
        case Unknown =>
          WatchTransaction(hash);
          if r.defaults {
            ParseTransactionFromInput(hash, kind, input, Submitted);
          }
        case Pooled =>
          WatchTransaction(hash);
          ParseTransactionFromInput(hash, kind, input, Pending);
        case InBlock(block) =>
          if r.height - block < requiredConfirmations {
            WatchTransaction(hash);
          }
          var confirmations := r.height - block;
          if confirmations < 0 {
            confirmations := 0;
          }
          emitted := emitted + [(hash, NOTHING.(status := Some(Mined), confirmations := Some(confirmations),
                                                blockNumber := Some(block), others := map["type" := kind]))];
      }
    }
  }

  // ---------------------------------------------------------------- the tracked transaction's world

  datatype Poll = Poll(height: Option<nat>, seen: Option<Seen>, defaults: bool)

  /** The transaction that is followed, the page it belongs to, and the service's setting. */
  datatype Setup = Setup(hash: string, page: Page, required: int)

  /** The chain, the timers and polls for the transaction, the polls' past reads, and the store. */
  datatype World = World(
    height: nat, tx: Seen,
    timers: nat, polls: seq<Poll>, receipts: nat,
    started: nat, readings: seq<Reading>,
    store: Store, nowMs: int)

  datatype Event =
    | Start(action: Action)
    | TimerFires
    | ReadHeight(i: nat)
    | ReadTx(i: nat)
    | Complete(i: nat, kind: string, input: Option<Tx>)
    | ReceiptArrives(update: Tx)
    | KeyLoaded(expiration: int)
    | BlockMined
    | TxPooled
    | TxMined
    | ClockTicks(ms: nat)

  /** Only these two actions start a tracker; the reducers overwrite the stored transaction. */
  predicate Starts(action: Action) {
    action.NewTransaction? || action.AddTransaction?
  }

  /** The transaction's own properties are passed on as defaults, if need be for their input. */
  predicate WithDefaults(action: Action)
    requires Starts(action)
  {
    action.NewTransaction? || ("input" in action.tx.others && action.tx.others["input"] != "")
  }

  predicate Read(p: Poll) {
    p.height.Some? && p.seen.Some?
  }

  function ReadingOf(p: Poll): Reading
    requires Read(p)
  {
    Reading(p.height.value, p.seen.value, p.defaults)
  }

  ghost predicate Enabled(c: Setup, w: World, e: Event) {
    match e
    case Start(action) => Starts(action) && action.hash == c.hash
    case TimerFires => w.timers > 0
    case ReadHeight(i) => i < |w.polls| && w.polls[i].height.None?
    case ReadTx(i) => i < |w.polls| && w.polls[i].seen.None?
    case Complete(i, kind, input) =>
      i < |w.polls| && Read(w.polls[i]) && c.hash in w.store.transactions && (input.Some? ==> Plain(input.value))
    case ReceiptArrives(update) =>
      w.receipts > 0 && (Plain(update) || update == FAILURE) && c.hash in w.store.transactions
    case TxPooled => w.tx.Unknown?
    case TxMined => !w.tx.InBlock?
    case _ => true
  }

  function Completed(c: Setup, w: World, r: Reading, kind: string, input: Option<Tx>): World
    requires c.hash in w.store.transactions
  {
    var store := Stored(w.store, c.page, c.hash, Emitted(r, kind));
    w.(timers := if Settled(r, c.required) then w.timers else w.timers + 1,
       readings := w.readings + [r],
       receipts := if r.seen.InBlock? then w.receipts + 1 else w.receipts,
       store := if Emitted(r, kind).Some? && !r.seen.InBlock? && c.hash in store.transactions
                then Stored(store, c.page, c.hash, input) else store)
  }

  function Apply(c: Setup, w: World, e: Event): World
    requires Enabled(c, w, e)
  {
    match e
    case Start(action) =>
      w.(started := w.started + 1, polls := w.polls + [Poll(None, None, WithDefaults(action))],
         store := Handled(w.store, c.page, action))
    case TimerFires => w.(timers := w.timers - 1, polls := w.polls + [Poll(None, None, false)])
    case ReadHeight(i) => w.(polls := w.polls[i := w.polls[i].(height := Some(w.height))])
    case ReadTx(i) => w.(polls := w.polls[i := w.polls[i].(seen := Some(w.tx))])
    case Complete(i, kind, input) =>
      Completed(c, w.(polls := Without(w.polls, i)), ReadingOf(w.polls[i]), kind, input)
    case ReceiptArrives(update) =>
      w.(receipts := w.receipts - 1, store := Stored(w.store, c.page, c.hash, Some(update)))
    case KeyLoaded(expiration) =>
      var id := PageKey(c.page);
      var update := Key(None, Some(c.page.lock), Some(c.page.account), Some(expiration), None);
      w.(store := Reduce(w.store, KeyUpdateFor(w.store, id, update)))
    case BlockMined => w.(height := w.height + 1)
    case TxPooled => w.(tx := Pooled)
    case TxMined => w.(height := w.height + 1, tx := InBlock(w.height + 1))
    case ClockTicks(ms) => w.(nowMs := w.nowMs + ms)
  }

  ghost predicate IsRun(c: Setup, w: World, es: seq<Event>)
    decreases |es|
  {
    es == [] || (Enabled(c, w, es[0]) && IsRun(c, Apply(c, w, es[0]), es[1..]))
  }

  ghost function After(c: Setup, w: World, es: seq<Event>): World
    requires IsRun(c, w, es)
    decreases |es|
  {
    if es == [] then w else After(c, Apply(c, w, es[0]), es[1..])
  }

  // ---------------------------------------------------------------- one timer or poll each

  function SettledCount(readings: seq<Reading>, required: int): nat {
    if readings == [] then 0
    else
      var last := |readings| - 1;
      SettledCount(readings[..last], required) + (if Settled(readings[last], required) then 1 else 0)
  }

  /** Every tracker that was started has one timer or poll, or has seen the transaction settled. */
  ghost predicate Accounted(c: Setup, w: World) {
    w.timers + |w.polls| + SettledCount(w.readings, c.required) == w.started
  }

  lemma AccountedStep(c: Setup, w: World, e: Event)
    requires Accounted(c, w) && Enabled(c, w, e)
    ensures Accounted(c, Apply(c, w, e))
  {
    hide Dispatched, Reduce;
    if e.Complete? {
      assert (w.readings + [ReadingOf(w.polls[e.i])])[..|w.readings|] == w.readings;
    }
  }

  lemma {:induction false} StaysAccounted(c: Setup, w: World, es: seq<Event>)
    requires Accounted(c, w) && IsRun(c, w, es)
    ensures Accounted(c, After(c, w, es))
    decreases |es|
  {
    if es != [] {
      AccountedStep(c, w, es[0]);
      StaysAccounted(c, Apply(c, w, es[0]), es[1..]);
    }
  }

  lemma {:induction false} SettledSometime(readings: seq<Reading>, required: int)
    ensures SettledCount(readings, required) > 0 <==> exists r :: r in readings && Settled(r, required)
  {
    if readings != [] {
      var last := readings[|readings| - 1];
      SettledSometime(readings[..|readings| - 1], required);
      assert readings == readings[..|readings| - 1] + [last];
      assert forall r :: r in readings <==> r in readings[..|readings| - 1] || r == last;
    }
  }

  /**
   * A transaction tracked once has exactly one timer or poll until a poll has seen the
   * required number of blocks on top of it, and none from then on.
   */
  lemma OneTimerUntilSettled(c: Setup, w: World, es: seq<Event>)
    requires w.started == 0 && w.timers == 0 && w.polls == [] && w.readings == []
    requires IsRun(c, w, es) && After(c, w, es).started == 1
    ensures var v := After(c, w, es);
      v.timers + |v.polls| == if exists r :: r in v.readings && Settled(r, c.required) then 0 else 1
  {
    var v := After(c, w, es);
    StaysAccounted(c, w, es);
    SettledSometime(v.readings, c.required);
  }

  // ---------------------------------------------------------------- tracking ends

  function LastHeight(w: World): int {
    if w.readings == [] then -1 else w.readings[|w.readings| - 1].height
  }

  function Completes(es: seq<Event>): nat {
    if es == [] then 0 else (if es[0].Complete? then 1 else 0) + Completes(es[1..])
  }

  /** The poll that ends with event e has read a greater height than the poll before it. */
  predicate Risen(w: World, e: Event) {
    && e.Complete? && e.i < |w.polls| && w.polls[e.i].height.Some?
    && LastHeight(w) < w.polls[e.i].height.value
  }

  /** How many polls of a run end so; polls are more frequent than blocks. */
  ghost function Rises(c: Setup, w: World, es: seq<Event>): nat
    requires IsRun(c, w, es)
    decreases |es|
  {
    if es == [] then 0 else (if Risen(w, es[0]) then 1 else 0) + Rises(c, Apply(c, w, es[0]), es[1..])
  }

  /** Heights are read in order. */
  ghost predicate InOrder(w: World) {
    && LastHeight(w) <= w.height
    && forall i :: 0 <= i < |w.polls| && w.polls[i].height.Some? ==>
         LastHeight(w) <= w.polls[i].height.value <= w.height
  }

  /** A poll under way that read the transaction before it was mined. */
  predicate Stale(w: World) {
    exists i :: 0 <= i < |w.polls| && w.polls[i].seen.Some? && !w.polls[i].seen.value.InBlock?
  }

  /** How many polls may still end without seeing the transaction settled. */
  function PollsLeft(c: Setup, w: World): nat
    requires w.tx.InBlock?
  {
    (if Stale(w) then 1 else 0) + Max(0, w.tx.block + c.required - 1 - LastHeight(w))
  }

  ghost predicate ReadsAgree(w: World) {
    w.tx.InBlock? && forall i :: 0 <= i < |w.polls| && w.polls[i].seen.Some? && w.polls[i].seen.value.InBlock? ==>
      w.polls[i].seen.value == w.tx
  }

  /** Only a poll that settles, or has read a greater height, counts; the others do no harm. */
  lemma PollsRunOut(c: Setup, w: World, e: Event)
    requires ReadsAgree(w) && InOrder(w) && Accounted(c, w) && w.started == 1 && Enabled(c, w, e) && !e.Start?
    ensures var v := Apply(c, w, e);
      && ReadsAgree(v) && InOrder(v) && v.started == 1
      && PollsLeft(c, v) <= PollsLeft(c, w)
      && (Risen(w, e) && !Settled(ReadingOf(w.polls[e.i]), c.required) ==> PollsLeft(c, v) < PollsLeft(c, w))
  {
    var v := Apply(c, w, e);
    assert |w.polls| <= 1;
    match e
    case Complete(i, _, _) =>
      assert v.polls == [];
      assert v.readings[|v.readings| - 1] == ReadingOf(w.polls[i]);
    case ReadHeight(i) =>
      assert v.polls[i].seen == w.polls[i].seen;
    case _ =>
  }

  /** A settled poll was the only one. */
  lemma SettledIsLast(c: Setup, w: World, e: Event)
    requires Accounted(c, w) && w.started == 1 && Enabled(c, w, e) && e.Complete?
    ensures var v := Apply(c, w, e);
      && v.started == 1 && v.polls == []
      && (Settled(ReadingOf(w.polls[e.i]), c.required) ==> v.timers == 0)
  {
  }

  /**
   * Once the transaction is mined, tracking ends when more than PollsLeft polls have each
   * read a greater height than the poll before it, however many others there are between.
   */
  lemma {:induction false} TrackingEnds(c: Setup, w: World, es: seq<Event>)
    requires ReadsAgree(w) && InOrder(w) && Accounted(c, w) && w.started == 1
    requires IsRun(c, w, es) && forall e :: e in es ==> !e.Start?
    requires Rises(c, w, es) > PollsLeft(c, w)
    ensures var v := After(c, w, es); v.timers == 0 && v.polls == []
    decreases |es|
  {
    var e, t := es[0], Apply(c, w, es[0]);
    PollsRunOut(c, w, e);
    StaysAccounted(c, w, [e]);
    if e.Complete? && Settled(ReadingOf(w.polls[e.i]), c.required) {
      SettledIsLast(c, w, e);
      NothingRestarts(c, t, es[1..]);
    } else {
      TrackingEnds(c, t, es[1..]);
    }
  }

  /** The transaction has the required number of blocks on top. */
  predicate Confirmed(c: Setup, w: World) {
    w.tx.InBlock? && w.height - w.tx.block >= c.required
  }

  /** What the polls under way have read was read after that. */
  ghost predicate AllSettle(c: Setup, w: World) {
    && Confirmed(c, w)
    && (forall i :: 0 <= i < |w.polls| && w.polls[i].height.Some? ==>
          w.polls[i].height.value - w.tx.block >= c.required)
    && (forall i :: 0 <= i < |w.polls| && w.polls[i].seen.Some? ==> w.polls[i].seen.value == w.tx)
  }

  lemma {:induction false} NextPollEnds(c: Setup, w: World, es: seq<Event>)
    requires AllSettle(c, w) && Accounted(c, w) && w.started == 1
    requires IsRun(c, w, es) && forall e :: e in es ==> !e.Start?
    requires Completes(es) >= 1
    ensures var v := After(c, w, es); v.timers == 0 && v.polls == []
    decreases |es|
  {
    var e, t := es[0], Apply(c, w, es[0]);
    StaysAccounted(c, w, [e]);
    if e.Complete? {
      SettledIsLast(c, w, e);
      NothingRestarts(c, t, es[1..]);
    } else {
      assert AllSettle(c, t);
      NextPollEnds(c, t, es[1..]);
    }
  }

  /** Once the transaction is confirmed, tracking ends with the second poll at the latest. */
  lemma {:induction false} ConfirmedEndsInTwoPolls(c: Setup, w: World, es: seq<Event>)
    requires Confirmed(c, w) && Accounted(c, w) && w.started == 1
    requires IsRun(c, w, es) && forall e :: e in es ==> !e.Start?
    requires Completes(es) >= 2
    ensures var v := After(c, w, es); v.timers == 0 && v.polls == []
    decreases |es|
  {
    var e, t := es[0], Apply(c, w, es[0]);
    StaysAccounted(c, w, [e]);
    if e.Complete? {
      SettledIsLast(c, w, e);
      NextPollEnds(c, t, es[1..]);
    } else {
      ConfirmedEndsInTwoPolls(c, t, es[1..]);
    }
  }

  lemma {:induction false} NothingRestarts(c: Setup, w: World, es: seq<Event>)
    requires w.timers == 0 && w.polls == [] && IsRun(c, w, es) && forall e :: e in es ==> !e.Start?
    ensures After(c, w, es).timers == 0 && After(c, w, es).polls == []
    decreases |es|
  {
    if es != [] {
      NothingRestarts(c, Apply(c, w, es[0]), es[1..]);
    }
  }
}
