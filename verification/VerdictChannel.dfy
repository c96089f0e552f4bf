/**
 * From snapshot to page: the data iframe's Mailbox posts its verdicts, the main window
 * receives them in order and tells the page.
 */
module VerdictChannel {
  import opened Prelude
  import MB = Mailbox
  import MW = MainWindow

  datatype System = System(held: MB.Data, queue: seq<MB.Posted>, window: MW.Status)

  datatype Event =
    | Snapshot(data: MB.Data)
    | Request(update: string)
    | Deliver(writes: bool)

  function Start(cache: MB.Data, flag: Option<string>): System {
    System(cache, [], MW.Startup(flag))
  }

  predicate Enabled(s: System, e: Event) {
    e.Deliver? ==> s.queue != []
  }

  /** The main window acts on verdicts only. */
  function Heard(window: MW.Status, m: MB.Posted, writes: bool): MW.Status {
    if MB.VerdictIn(m) == [] then window else MW.Toggle(window, MB.VerdictIn(m)[0], writes)
  }

  function Apply(s: System, e: Event): System
    requires Enabled(s, e)
  {
    match e
    case Snapshot(data) => s.(held := MB.Kept(s.held, data), queue := s.queue + MB.Announced(s.held, data))
    case Request(update) => s.(queue := s.queue + MB.Updates(s.held, update))
    case Deliver(writes) => s.(queue := s.queue[1..], window := Heard(s.window, s.queue[0], writes))
  }

  ghost predicate IsRun(s: System, es: seq<Event>)
    decreases |es|
  {
    es == [] || (Enabled(s, es[0]) && IsRun(Apply(s, es[0]), es[1..]))
  }

  ghost function After(s: System, es: seq<Event>): System
    requires IsRun(s, es)
    decreases |es|
  {
    if es == [] then s else After(Apply(s, es[0]), es[1..])
  }

  /** The verdicts on the snapshots held after each snapshot or request, in order. */
  ghost function Spoken(held: MB.Data, es: seq<Event>): seq<MW.Verdict>
    decreases |es|
  {
    if es == [] then []
    else
      match es[0]
      case Snapshot(data) =>
        MB.VerdictOn(MB.Kept(held, data).locks) + Spoken(MB.Kept(held, data), es[1..])
      case Request(_) => MB.VerdictOn(held.locks) + Spoken(held, es[1..])
      case Deliver(_) => Spoken(held, es[1..])
  }

  /** The window has received some messages; those verdicts and the queued ones are all. */
  ghost predicate InStep(s: System, flag: Option<string>, received: seq<MW.Message>, spoken: seq<MW.Verdict>) {
    && s.window == MW.Receive(MW.Startup(flag), received)
    && MW.Verdicts(received) + MB.Carried(s.queue) == spoken
  }

  /** The messages received once the first of the queue has been delivered as well. */
  function Delivered(received: seq<MW.Message>, m: MB.Posted, writes: bool): seq<MW.Message> {
    if MB.VerdictIn(m) == [] then received else received + [MW.Message(MB.VerdictIn(m)[0], writes)]
  }

  lemma DeliveredVerdicts(received: seq<MW.Message>, m: MB.Posted, writes: bool)
    ensures MW.Verdicts(Delivered(received, m, writes)) == MW.Verdicts(received) + MB.VerdictIn(m)
  {
  }

  lemma DeliverStaysInStep(s: System, e: Event, flag: Option<string>, received: seq<MW.Message>,
                           spoken: seq<MW.Verdict>)
    requires InStep(s, flag, received, spoken) && e.Deliver? && Enabled(s, e)
    ensures InStep(Apply(s, e), flag, Delivered(received, s.queue[0], e.writes), spoken)
  {
    var m := s.queue[0];
    DeliveredVerdicts(received, m, e.writes);
    if MB.VerdictIn(m) != [] {
      MW.ReceiveLast(MW.Startup(flag), received, MW.Message(MB.VerdictIn(m)[0], e.writes));
    }
    Regroup(MW.Verdicts(received), MB.VerdictIn(m), MB.Carried(s.queue[1..]));
  }

  lemma QueueGrows(s: System, posts: seq<MB.Posted>, flag: Option<string>, received: seq<MW.Message>,
                   spoken: seq<MW.Verdict>)
    requires InStep(s, flag, received, spoken)
    ensures InStep(s.(queue := s.queue + posts), flag, received, spoken + MB.Carried(posts))
  {
    MB.CarriedConcat(s.queue, posts);
    Regroup(MW.Verdicts(received), MB.Carried(s.queue), MB.Carried(posts));
  }

  lemma PostStaysInStep(s: System, e: Event, flag: Option<string>, received: seq<MW.Message>, spoken: seq<MW.Verdict>)
    requires InStep(s, flag, received, spoken) && !e.Deliver?
    ensures InStep(Apply(s, e), flag, received, spoken + MB.VerdictOn(Apply(s, e).held.locks))
  {
    match e
    case Snapshot(data) =>
      MB.AnnouncedCarryTheHeldVerdict(s.held, data);
      QueueGrows(s, MB.Announced(s.held, data), flag, received, spoken);
    case Request(update) =>
      MB.UpdatesCarryTheHeldVerdict(s.held, update);
      QueueGrows(s, MB.Updates(s.held, update), flag, received, spoken);
  }

  ghost predicate AllWritten(received: seq<MW.Message>) {
    forall m :: m in received ==> m.writes
  }

  /** The storage accepts every write. */
  ghost predicate StorageWorks(es: seq<Event>) {
    forall e :: e in es && e.Deliver? ==> e.writes
  }

  lemma {:induction false} RunStaysInStep(s: System, es: seq<Event>, flag: Option<string>, received: seq<MW.Message>,
                                          spoken: seq<MW.Verdict>) returns (all: seq<MW.Message>)
    requires InStep(s, flag, received, spoken) && IsRun(s, es)
    ensures InStep(After(s, es), flag, all, spoken + Spoken(s.held, es))
    ensures AllWritten(received) && StorageWorks(es) ==> AllWritten(all)
    decreases |es|
  {
    if es == [] {
      assert spoken + [] == spoken;
      return received;
    }
    var t := Apply(s, es[0]);
    if es[0].Deliver? {
      DeliverStaysInStep(s, es[0], flag, received, spoken);
      all := RunStaysInStep(t, es[1..], flag, Delivered(received, s.queue[0], es[0].writes), spoken);
    } else {
      PostStaysInStep(s, es[0], flag, received, spoken);
      all := RunStaysInStep(t, es[1..], flag, received, spoken + MB.VerdictOn(t.held.locks));
      Regroup(spoken, MB.VerdictOn(t.held.locks), Spoken(t.held, es[1..]));
    }
  }

  /** The page has heard the stored verdict first, and then n verdicts without consecutive repeats. */
  ghost predicate HasHeard(window: MW.Status, first: seq<MW.Verdict>, spoken: seq<MW.Verdict>, n: nat) {
    && n <= |spoken|
    && window.dispatched == first + MW.Changes(spoken[..n])
    && window.lockStatus == (if n == 0 then None else Some(spoken[n - 1]))
  }

  /**
   * At any time the page has heard, after the stored verdict if there is one, a prefix of the
   * held snapshots' verdicts without consecutive repeats; once all messages have arrived it has
   * heard all of them, and the recorded status is the last one. So is the stored flag, if
   * the storage works.
   */
  lemma PageHearsHeldVerdicts(cache: MB.Data, flag: Option<string>, es: seq<Event>)
    returns (first: seq<MW.Verdict>, n: nat)
    requires IsRun(Start(cache, flag), es)
    ensures var s, spoken := After(Start(cache, flag), es), Spoken(cache, es);
      && MW.Announces(flag, first)
      && HasHeard(s.window, first, spoken, n) && (s.queue == [] ==> n == |spoken|)
      && (StorageWorks(es) && n > 0 ==> MW.Stores(s.window.cached, spoken[n - 1]))
  {
    var start := Start(cache, flag);
    assert MW.Verdicts([]) + MB.Carried([]) == [];
    var received := RunStaysInStep(start, es, flag, [], []);
    var s, spoken := After(start, es), Spoken(cache, es);
    assert [] + spoken == spoken;
    first := MW.PageHearsChanges(flag, received);
    n := |received|;
    assert s.queue == [] ==> MB.Carried(s.queue) == [];
    assert spoken[..n] == MW.Verdicts(received);
    assert HasHeard(s.window, first, spoken, n);
    if n > 0 && StorageWorks(es) {
      hide MW.Receive, MW.Changes;
      MW.CacheFollowsWrites(flag, received);
      assert received[n - 1].verdict == spoken[..n][n - 1];
    }
  }
}
