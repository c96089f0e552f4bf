/**
 * The main window's modals and its record of the paywall's verdict:
 * paywall/src/unlock.js/MainWindowHandler.ts.
 */
module MainWindow {
  import opened Prelude

  datatype Verdict = Locked | Unlocked

  // ---------------------------------------------------------------- the modals

  datatype Command = ShowCheckout | HideCheckout | ShowAccount | HideAccount

  /** The handler's three flags, and which iframes it has made visible. */
  datatype Modals = Modals(
    showCheckoutWhenAccountsHides: bool, showingCheckout: bool, showingAccountsIframe: bool,
    checkoutVisible: bool, accountsVisible: bool)

  const CLOSED := Modals(false, false, false, false, false)

  function Perform(m: Modals, cmd: Command): Modals {
    match cmd
    case HideCheckout =>
      m.(showCheckoutWhenAccountsHides := false, showingCheckout := false, checkoutVisible := false)
    case ShowCheckout =>
      if m.showingAccountsIframe then m.(showCheckoutWhenAccountsHides := true, showingCheckout := false)
      else m.(showingCheckout := true, showCheckoutWhenAccountsHides := false, checkoutVisible := true)
    case ShowAccount =>
      var hidden := if m.showingCheckout
        then m.(showCheckoutWhenAccountsHides := true, showingCheckout := false, checkoutVisible := false) else m;
      hidden.(showingAccountsIframe := true, accountsVisible := true)
    case HideAccount =>
      var hidden := m.(showingAccountsIframe := false, accountsVisible := false);
      if m.showCheckoutWhenAccountsHides
      then hidden.(showingCheckout := true, showCheckoutWhenAccountsHides := false, checkoutVisible := true)
      else hidden
  }

  function PerformAll(cmds: seq<Command>): Modals {
    if cmds == [] then CLOSED else Perform(PerformAll(cmds[..|cmds| - 1]), cmds[|cmds| - 1])
  }

  /** What the flags stand for: the checkout is wanted, and the accounts modal is open. */
  datatype Wish = Wish(checkoutWanted: bool, accountsOpen: bool)

  function Meaning(m: Modals): Wish {
    Wish(m.showingCheckout || m.showCheckoutWhenAccountsHides, m.showingAccountsIframe)
  }

  /** The machine that the three flags implement. */
  function Wished(w: Wish, cmd: Command): Wish {
    match cmd
    case ShowCheckout => w.(checkoutWanted := true)
    case HideCheckout => w.(checkoutWanted := false)
    case ShowAccount => w.(accountsOpen := true)
    case HideAccount => w.(accountsOpen := false)
  }

  /** The flags agree with each other and with what is visible. */
  ghost predicate Coherent(m: Modals) {
    && m.checkoutVisible == m.showingCheckout && m.accountsVisible == m.showingAccountsIframe
    && (m.showingCheckout ==> !m.showingAccountsIframe)
    && (m.showCheckoutWhenAccountsHides ==> m.showingAccountsIframe && !m.showingCheckout)
  }

  lemma PerformRefinesWished(m: Modals, cmd: Command)
    requires Coherent(m)
    ensures Coherent(Perform(m, cmd)) && Meaning(Perform(m, cmd)) == Wished(Meaning(m), cmd)
  {
  }

  /** The last of two opposite commands in a history is the first one. */
  ghost predicate LastIs(cmds: seq<Command>, on: Command, off: Command) {
    exists i :: 0 <= i < |cmds| && cmds[i] == on && forall j :: i < j < |cmds| ==> cmds[j] != off
  }

  lemma LastIsStep(cmds: seq<Command>, cmd: Command, on: Command, off: Command)
    requires on != off
    ensures LastIs(cmds + [cmd], on, off) <==> cmd == on || (cmd != off && LastIs(cmds, on, off))
  {
    var all := cmds + [cmd];
    assert all[|cmds|] == cmd;
    if cmd != on && cmd != off && LastIs(all, on, off) {
      var i :| 0 <= i < |all| && all[i] == on && forall j :: i < j < |all| ==> all[j] != off;
      assert cmds[i] == on && forall j :: i < j < |cmds| ==> cmds[j] == all[j];
    }
    if cmd != off && LastIs(cmds, on, off) {
      var i :| 0 <= i < |cmds| && cmds[i] == on && forall j :: i < j < |cmds| ==> cmds[j] != off;
      assert all[i] == on && forall j :: i < j < |all| ==> all[j] != off;
    }
  }

  /**
   * After any commands: the checkout is visible exactly when it was shown last and the
   * accounts modal is not open, the accounts modal exactly when it was shown last, and a
   * deferred checkout is pending only while the accounts modal is open.
   */
  lemma {:induction false} ModalsFollowTheLastCommands(cmds: seq<Command>)
    ensures var m := PerformAll(cmds);
      && Coherent(m)
      && Meaning(m) == Wish(LastIs(cmds, ShowCheckout, HideCheckout), LastIs(cmds, ShowAccount, HideAccount))
      && (m.checkoutVisible <==>
            LastIs(cmds, ShowCheckout, HideCheckout) && !LastIs(cmds, ShowAccount, HideAccount))
      && (m.accountsVisible <==> LastIs(cmds, ShowAccount, HideAccount))
      && !(m.checkoutVisible && m.accountsVisible)
  {
    if cmds != [] {
      var before, cmd := cmds[..|cmds| - 1], cmds[|cmds| - 1];
      assert cmds == before + [cmd];
      ModalsFollowTheLastCommands(before);
      PerformRefinesWished(PerformAll(before), cmd);
      LastIsStep(before, cmd, ShowCheckout, HideCheckout);
      LastIsStep(before, cmd, ShowAccount, HideAccount);
    }
  }

  // ---------------------------------------------------------------- the verdict

  /** The verdict last acted on, the events dispatched on the page, and the stored flag. */
  datatype Status = Status(lockStatus: Option<Verdict>, dispatched: seq<Verdict>, cached: Option<string>)

  /** What JSON.stringify makes of the locked flag. */
  function Flag(v: Verdict): string {
    if v.Locked? then "true" else "false"
  }

  /** The verdict that a stored flag announces when the page starts; anything else is ignored. */
  function FromFlag(cached: Option<string>): Option<Verdict> {
    if cached == Some("true") then Some(Locked) else if cached == Some("false") then Some(Unlocked) else None
  }

  /** init, up to the registration of listeners; storage that cannot be read counts as empty. */
  function Startup(cached: Option<string>): Status {
    Status(None, if FromFlag(cached).Some? then [FromFlag(cached).value] else [], cached)
  }

  function Toggle(s: Status, v: Verdict, writes: bool): Status {
    if s.lockStatus == Some(v) then s
    else Status(Some(v), s.dispatched + [v], if writes then Some(Flag(v)) else s.cached)
  }

  class MainWindowHandler {
    var showCheckoutWhenAccountsHides: bool
    var showingCheckout: bool
    var showingAccountsIframe: bool
    var lockStatus: Option<Verdict>
    var checkoutVisible: bool
    var accountsVisible: bool
    var dispatched: seq<Verdict>
    var storage: Option<string>

    ghost function Shows(): Modals
      reads this
    {
      Modals(showCheckoutWhenAccountsHides, showingCheckout, showingAccountsIframe, checkoutVisible, accountsVisible)
    }

    ghost function Says(): Status
      reads this
    {
      Status(lockStatus, dispatched, storage)
    }

    constructor (cached: Option<string>)
      ensures Shows() == CLOSED && Says() == Startup(cached)
    {
      showCheckoutWhenAccountsHides, showingCheckout, showingAccountsIframe := false, false, false;
      checkoutVisible, accountsVisible := false, false;
      lockStatus, storage := None, cached;
      if cached == Some("true") {
        dispatched := [Locked];
      } else if cached == Some("false") {
        dispatched := [Unlocked];
      } else {
        dispatched := [];
      }
    }

    method ToggleLockState(message: Verdict, writes: bool)
      modifies this`lockStatus, this`dispatched, this`storage
      ensures Says() == Toggle(old(Says()), message, writes)
    {
      if lockStatus != Some(message) {
        dispatched := dispatched + [message];
        if writes {
          storage := Some(if message == Locked then "true" else "false");
        }
        lockStatus := Some(message);
      }
    }

    method HideCheckoutIframe()
      modifies this`showCheckoutWhenAccountsHides, this`showingCheckout, this`checkoutVisible
      ensures Shows() == Perform(old(Shows()), HideCheckout)
    {
      showCheckoutWhenAccountsHides := false;
      showingCheckout := false;
      checkoutVisible := false;
    }

    method ShowCheckoutIframe()
      modifies this`showCheckoutWhenAccountsHides, this`showingCheckout, this`checkoutVisible
      ensures Shows() == Perform(old(Shows()), ShowCheckout)
    {
      if showingAccountsIframe {
        showCheckoutWhenAccountsHides := true;
        showingCheckout := false;
      } else {
        showingCheckout := true;
        showCheckoutWhenAccountsHides := false;
        checkoutVisible := true;
      }
    }

    method ShowAccountIframe()
      modifies this`showCheckoutWhenAccountsHides, this`showingCheckout, this`checkoutVisible
      modifies this`showingAccountsIframe, this`accountsVisible
      ensures Shows() == Perform(old(Shows()), ShowAccount)
    {
      if showingCheckout {
        showCheckoutWhenAccountsHides := true;
        showingCheckout := false;
        checkoutVisible := false;
      }
      showingAccountsIframe := true;
      accountsVisible := true;
    }

    method HideAccountIframe()
      modifies this`showCheckoutWhenAccountsHides, this`showingCheckout, this`checkoutVisible
      modifies this`showingAccountsIframe, this`accountsVisible
      ensures Shows() == Perform(old(Shows()), HideAccount)
    {
      showingAccountsIframe := false;
      accountsVisible := false;
      if showCheckoutWhenAccountsHides {
        showingCheckout := true;
        showCheckoutWhenAccountsHides := false;
        checkoutVisible := true;
      }
    }
  }

  // ---------------------------------------------------------------- what the page hears

  /** A message with a verdict, and whether the storage accepts a write at that moment. */
  datatype Message = Message(verdict: Verdict, writes: bool)

  function Receive(s: Status, messages: seq<Message>): Status
    decreases |messages|
  {
    if messages == [] then s
    else Receive(Toggle(s, messages[0].verdict, messages[0].writes), messages[1..])
  }

  function Verdicts(messages: seq<Message>): (r: seq<Verdict>)
    ensures |r| == |messages| && forall i :: 0 <= i < |r| ==> r[i] == messages[i].verdict
  {
    seq(|messages|, i requires 0 <= i < |messages| => messages[i].verdict)
  }

  /** The indices at which a verdict differs from the one before it. */
  predicate ChangesAt(verdicts: seq<Verdict>, i: nat)
    requires i < |verdicts|
  {
    i == 0 || verdicts[i] != verdicts[i - 1]
  }

  /** The sequence without consecutive repeats. */
  function Changes(verdicts: seq<Verdict>): (r: seq<Verdict>)
    ensures |r| <= |verdicts|
  {
    if verdicts == [] then []
    else
      var last := |verdicts| - 1;
      Changes(verdicts[..last]) + if ChangesAt(verdicts, last) then [verdicts[last]] else []
  }

  /** No two neighbours are equal, and the ends are those of the original. */
  lemma {:induction false} ChangesAlternate(verdicts: seq<Verdict>)
    ensures var r := Changes(verdicts);
      && (forall i :: 0 < i < |r| ==> r[i] != r[i - 1])
      && (verdicts != [] ==> r != [] && r[0] == verdicts[0] && r[|r| - 1] == verdicts[|verdicts| - 1])
  {
    if verdicts != [] {
      ChangesAlternate(verdicts[..|verdicts| - 1]);
    }
  }

  lemma {:induction false} ReceiveLast(s: Status, messages: seq<Message>, m: Message)
    ensures Receive(s, messages + [m]) == Toggle(Receive(s, messages), m.verdict, m.writes)
    decreases |messages|
  {
    var all := messages + [m];
    if messages == [] {
      assert all[1..] == [];
    } else {
      assert all[1..] == messages[1..] + [m];
      ReceiveLast(Toggle(s, messages[0].verdict, messages[0].writes), messages[1..], m);
    }
  }

  /** What is stored for a verdict: whether the page is locked. */
  ghost predicate Stores(cached: Option<string>, v: Verdict) {
    cached == Some(match v case Locked => "true" case Unlocked => "false")
  }

  /** The page has heard a stored verdict, and nothing if none is stored. */
  ghost predicate Announces(cached: Option<string>, heard: seq<Verdict>) {
    && (forall v :: heard == [v] <==> Stores(cached, v))
    && ((forall v :: !Stores(cached, v)) ==> heard == [])
  }

  /** Until a message arrives the page has heard the stored verdict only. */
  lemma StartupAnnouncesTheStoredVerdict(cached: Option<string>)
    ensures Announces(cached, Startup(cached).dispatched)
    ensures Startup(cached).lockStatus == None && Startup(cached).cached == cached
  {
    assert forall v :: Stores(cached, v) <==> FromFlag(cached) == Some(v);
  }

  /**
   * From startup on, the page hears the stored verdict, if there is one, and then the
   * verdicts without consecutive repeats; the status is the last verdict received.
   */
  lemma PageHearsChanges(cached: Option<string>, messages: seq<Message>) returns (first: seq<Verdict>)
    ensures Announces(cached, first)
    ensures var s, verdicts := Receive(Startup(cached), messages), Verdicts(messages);
      && s.dispatched == first + Changes(verdicts)
      && s.lockStatus == (if messages == [] then None else Some(verdicts[|messages| - 1]))
  {
    first := Startup(cached).dispatched;
    StartupAnnouncesTheStoredVerdict(cached);
    ReceivesChanges(cached, messages);
  }

  lemma {:induction false} ReceivesChanges(cached: Option<string>, messages: seq<Message>)
    ensures var s, verdicts := Receive(Startup(cached), messages), Verdicts(messages);
      && s.dispatched == Startup(cached).dispatched + Changes(verdicts)
      && s.lockStatus == (if messages == [] then None else Some(verdicts[|messages| - 1]))
    decreases |messages|
  {
    if messages != [] {
      var last := |messages| - 1;
      assert messages == messages[..last] + [messages[last]];
      ReceivesChanges(cached, messages[..last]);
      ReceiveLast(Startup(cached), messages[..last], messages[last]);
      hide Receive;
      var verdicts := Verdicts(messages);
      assert verdicts[..last] == Verdicts(messages[..last]);
      Regroup(Startup(cached).dispatched, Changes(verdicts[..last]),
              if ChangesAt(verdicts, last) then [verdicts[last]] else []);
    }
  }

  /** The verdict changed at i for the last time. */
  ghost predicate LastChange(messages: seq<Message>, i: nat) {
    && i < |messages| && ChangesAt(Verdicts(messages), i)
    && forall j :: i < j < |messages| ==> !ChangesAt(Verdicts(messages), j)
  }

  lemma {:induction false} SomeLastChange(messages: seq<Message>) returns (i: nat)
    requires messages != []
    ensures LastChange(messages, i)
    decreases |messages|
  {
    var last := |messages| - 1;
    var verdicts, before := Verdicts(messages), Verdicts(messages[..last]);
    if ChangesAt(verdicts, last) {
      return last;
    }
    i := SomeLastChange(messages[..last]);
    assert forall j :: 0 <= j < last ==> before[j] == verdicts[j];
    forall j | i < j < |messages|
      ensures !ChangesAt(verdicts, j)
    {
      assert j < last ==> !ChangesAt(before, j);
    }
  }

  /**
   * Only the last change of verdict matters for the stored flag: if the storage accepted
   * that write, the flag is the last verdict, and the next page starts with exactly it;
   * otherwise the flag is what it was before that change.
   */
  lemma {:induction false} CacheFollowsLastChange(cached: Option<string>, messages: seq<Message>, i: nat)
    requires LastChange(messages, i)
    ensures var s, v := Receive(Startup(cached), messages), messages[|messages| - 1].verdict;
      && messages[i].verdict == v
      && (messages[i].writes ==> Stores(s.cached, v) && Startup(s.cached).dispatched == [v])
      && (!messages[i].writes ==> s.cached == Receive(Startup(cached), messages[..i]).cached)
    decreases |messages|
  {
    var last := |messages| - 1;
    var before := messages[..last];
    assert messages == before + [messages[last]];
    ReceiveLast(Startup(cached), before, messages[last]);
    ReceivesChanges(cached, before);
    if i < last {
      assert forall j :: 0 <= j < last ==> Verdicts(before)[j] == Verdicts(messages)[j];
      assert !ChangesAt(Verdicts(messages), last);
      forall j | i < j < last
        ensures !ChangesAt(Verdicts(before), j)
      {
        assert !ChangesAt(Verdicts(messages), j);
      }
      CacheFollowsLastChange(cached, before, i);
      assert messages[..i] == before[..i];
    }
  }

  lemma CacheFollowsWrites(cached: Option<string>, messages: seq<Message>)
    requires messages != [] && forall m :: m in messages ==> m.writes
    ensures Stores(Receive(Startup(cached), messages).cached, messages[|messages| - 1].verdict)
  {
    var i := SomeLastChange(messages);
    CacheFollowsLastChange(cached, messages, i);
    assert messages[i] in messages;
  }
}
