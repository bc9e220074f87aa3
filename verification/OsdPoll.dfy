/** The widget's side of the event stream: the thread that polls the daemon with
    a cursor and turns answers into messages, and the tracker that decides which
    announced mode is the newest. Modes are announced out of commit order, over
    a lossy stream, by daemons that may be restarted. */
module OsdPoll {
  import opened Basics

  datatype Mode = Eco | Balanced | Performance | Unlimited

  datatype ModeUpdate = ModeUpdate(mode: Mode, generation: Option<nat>)

  /** `daemon` says which run of the daemon an announcement came from. It exists
      for the proofs: nothing on the widget's side reads it. `hidden` says
      whether the window was hidden when the key press arrived. */
  datatype Message =
    | ModeIs(update: ModeUpdate, daemon: nat)
    | ResetGeneration
    | Reachable
    | Unreachable
    | Show(mode: Mode, hidden: bool)
    | Pressed(mode: Mode)
    | FanIs
    | Refused

  // ---- The tracker ----

  function Accepted(last: Option<nat>, update: ModeUpdate): bool {
    match update.generation
    case Some(g) => last == None || g > last.value
    case None => last == None
  }

  function Noted(last: Option<nat>, update: ModeUpdate): Option<nat> {
    if update.generation.Some? && Accepted(last, update) then update.generation else last
  }

  class ModeTracker {
    var lastGeneration: Option<nat>

    constructor ()
      ensures lastGeneration == None
    {
      lastGeneration := None;
    }

    method Accepts(update: ModeUpdate) returns (ok: bool)
      modifies this
      ensures ok == Accepted(old(lastGeneration), update)
      ensures lastGeneration == Noted(old(lastGeneration), update)
    {
      match update.generation
      case Some(generation) =>
        if lastGeneration.Some? && generation <= lastGeneration.value {
          ok := false;
        } else {
          lastGeneration := Some(generation);
          ok := true;
        }
      case None =>
        ok := lastGeneration.None?;
    }

    method Reset()
      modifies this
      ensures lastGeneration == None
    {
      lastGeneration := None;
    }
  }

  // ---- What is on screen ----

  datatype Display = Display(last: Option<nat>, shown: Option<Mode>)

  function OnUpdate(d: Display, update: ModeUpdate): Display {
    Display(Noted(d.last, update), if Accepted(d.last, update) then Some(update.mode) else d.shown)
  }

  /** The highlight follows accepted updates, and key presses whatever the
      tracker thinks; a press while the window is up only dismisses it. */
  function OnMessage(d: Display, m: Message): Display {
    match m
    case ModeIs(update, _) => OnUpdate(d, update)
    case ResetGeneration => d.(last := None)
    case Show(mode, hidden) => if hidden then d.(shown := Some(mode)) else d
    case Pressed(mode) => d.(shown := Some(mode))
    case _ => d
  }

  function Shown(d: Display, messages: seq<Message>): Display {
    if messages == [] then d else OnMessage(Shown(d, messages[..|messages| - 1]), messages[|messages| - 1])
  }

  /** What each message does to the highlight, whatever came before: a press moves
      it, and so does a key with the window hidden, but not one that dismisses it;
      a reset and every other message leave it where it is. */
  lemma HighlightMoves(d: Display, messages: seq<Message>, m: Message)
    ensures var was, now := Shown(d, messages), Shown(d, messages + [m]);
      && (forall mode :: m == Pressed(mode) || m == Show(mode, true) ==> now.shown == Some(mode) && now.last == was.last)
      && (forall mode :: m == Show(mode, false) ==> now == was)
      && (m == ResetGeneration ==> now.shown == was.shown && now.last == None)
      && (m.Reachable? || m.Unreachable? || m.FanIs? || m.Refused? ==> now == was)
  {
    assert (messages + [m])[..|messages|] == messages;
  }

  method Listen(messages: seq<Message>) returns (shown: Option<Mode>)
    ensures shown == Shown(Display(None, None), messages).shown
  {
    var tracker := new ModeTracker();
    shown := None;
    for i := 0 to |messages|
      invariant Display(tracker.lastGeneration, shown) == Shown(Display(None, None), messages[..i])
    {
      assert messages[..i + 1][..i] == messages[..i];
      match messages[i]
      case ModeIs(update, _) =>
        var ok := tracker.Accepts(update);
        if ok { shown := Some(update.mode); }
      case ResetGeneration => tracker.Reset();
      case Show(mode, hidden) =>
        if hidden { shown := Some(mode); }
      case Pressed(mode) => shown := Some(mode);
      case _ =>
    }
    assert messages[..|messages|] == messages;
  }

  // ---- Announcements within one run of the daemon ----

  function Deliver(d: Display, updates: seq<ModeUpdate>): Display {
    if updates == [] then d else OnUpdate(Deliver(d, updates[..|updates| - 1]), updates[|updates| - 1])
  }

  predicate Versioned(updates: seq<ModeUpdate>, i: int) {
    0 <= i < |updates| && updates[i].generation.Some?
  }

  /** Update `k` is the first delivered with the greatest generation of all. */
  ghost predicate IsNewest(updates: seq<ModeUpdate>, k: int) {
    && Versioned(updates, k)
    && (forall j :: Versioned(updates, j) ==> updates[j].generation.value <= updates[k].generation.value)
    && (forall j :: Versioned(updates, j) && j < k ==> updates[j].generation.value < updates[k].generation.value)
  }

  lemma {:induction false} NewestExists(updates: seq<ModeUpdate>, i: nat)
    requires Versioned(updates, i)
    ensures exists k :: IsNewest(updates, k)
  {
    var n := |updates| - 1;
    var earlier := updates[..n];
    if j :| Versioned(earlier, j) {
      NewestExists(earlier, j);
      var k :| IsNewest(earlier, k);
      var newer := Versioned(updates, n) && updates[n].generation.value > updates[k].generation.value;
      forall j | Versioned(updates, j)
        ensures updates[j].generation.value <= updates[if newer then n else k].generation.value
        ensures j < (if newer then n else k) ==> updates[j].generation.value < updates[if newer then n else k].generation.value
      {
        if j < n { assert Versioned(earlier, j); }
      }
      assert IsNewest(updates, if newer then n else k);
    } else {
      forall j | Versioned(updates, j) ensures j == n {
        assert !Versioned(earlier, j);
      }
      assert IsNewest(updates, n);
    }
  }

  lemma NewestOfEarlier(updates: seq<ModeUpdate>, k: int, m: int)
    requires updates != [] && IsNewest(updates, m) && IsNewest(updates[..|updates| - 1], k)
    ensures m < |updates| - 1 ==> m == k
    ensures m == |updates| - 1 <==> Versioned(updates, |updates| - 1) && updates[|updates| - 1].generation.value > updates[k].generation.value
  {
    var earlier := updates[..|updates| - 1];
    assert Versioned(updates, k);
    if m < |earlier| { assert Versioned(earlier, m); }
  }

  lemma {:induction false} NoneVersioned(d: Display, updates: seq<ModeUpdate>)
    requires d.last == None && (forall i :: !Versioned(updates, i))
    ensures Deliver(d, updates) == Display(None, if updates == [] then d.shown else Some(updates[|updates| - 1].mode))
  {
    if updates != [] {
      var earlier := updates[..|updates| - 1];
      forall i ensures !Versioned(earlier, i) {
        assert !Versioned(updates, i);
      }
      NoneVersioned(d, earlier);
      assert !Versioned(updates, |updates| - 1);
    }
  }

  lemma {:induction false} SomeVersioned(d: Display, updates: seq<ModeUpdate>, m: int)
    requires d.last == None && IsNewest(updates, m)
    ensures Deliver(d, updates) == Display(updates[m].generation, Some(updates[m].mode))
  {
    var n := |updates| - 1;
    var earlier := updates[..n];
    if i :| Versioned(earlier, i) {
      NewestExists(earlier, i);
      var k :| IsNewest(earlier, k);
      SomeVersioned(d, earlier, k);
      NewestOfEarlier(updates, k, m);
    } else {
      NoneVersioned(d, earlier);
      assert m == n by { assert !Versioned(earlier, m); }
    }
  }

  /** After any deliveries following a reset: if any update was versioned, the
      tracker holds the greatest generation and the screen the mode that came
      with it, so no un-versioned update got past a versioned one; if none was,
      the screen follows the last. */
  lemma NewestShown(d: Display, updates: seq<ModeUpdate>)
    requires d.last == None
    ensures forall k :: IsNewest(updates, k) ==>
      Deliver(d, updates) == Display(updates[k].generation, Some(updates[k].mode))
    ensures (forall i :: !Versioned(updates, i)) ==>
      Deliver(d, updates) == Display(None, if updates == [] then d.shown else Some(updates[|updates| - 1].mode))
  {
    hide Deliver;
    forall k | IsNewest(updates, k)
      ensures Deliver(d, updates) == Display(updates[k].generation, Some(updates[k].mode))
    {
      SomeVersioned(d, updates, k);
    }
    if forall i :: !Versioned(updates, i) {
      NoneVersioned(d, updates);
    }
  }

  /** Every versioned update carries the mode that was committed under its number. */
  ghost predicate Carries(commits: map<nat, Mode>, updates: seq<ModeUpdate>) {
    forall i :: Versioned(updates, i) ==>
      updates[i].generation.value in commits && commits[updates[i].generation.value] == updates[i].mode
  }

  /** Two widgets that were told of the same commits in any order, each losing
      and repeating whatever the ring made it lose or repeat, show the same mode
      as soon as the newest commit each has heard of is the same. */
  lemma LossyOrdersAgree(commits: map<nat, Mode>, d: Display, e: Display, ours: seq<ModeUpdate>, theirs: seq<ModeUpdate>,
                         i: nat, j: nat)
    requires Carries(commits, ours) && Carries(commits, theirs) && d.last == None && e.last == None
    requires Versioned(ours, i) && Versioned(theirs, j)
    ensures Deliver(d, ours).last.Some? && Deliver(d, ours).last.value in commits
    ensures Deliver(d, ours).shown == Some(commits[Deliver(d, ours).last.value])
    ensures Deliver(d, ours).last == Deliver(e, theirs).last ==> Deliver(d, ours) == Deliver(e, theirs)
  {
    NewestExists(ours, i);
    NewestExists(theirs, j);
    NewestShown(d, ours);
    NewestShown(e, theirs);
  }

  ghost predicate Reordered(p: seq<ModeUpdate>, updates: seq<ModeUpdate>) {
    multiset(p) == multiset(updates)
  }

  lemma FoundIn(p: seq<ModeUpdate>, updates: seq<ModeUpdate>, i: int) returns (j: nat)
    requires Reordered(p, updates) && Versioned(p, i)
    ensures Versioned(updates, j) && updates[j] == p[i]
  {
    assert p[i] in multiset(p);
    assert p[i] in updates;
    j :| 0 <= j < |updates| && updates[j] == p[i];
  }

  lemma SameNewest(commits: map<nat, Mode>, p: seq<ModeUpdate>, updates: seq<ModeUpdate>, l: int, k: int)
    requires Reordered(p, updates) && Carries(commits, updates) && IsNewest(p, l) && IsNewest(updates, k)
    ensures p[l] == updates[k]
  {
    var m := FoundIn(updates, p, k);
    var o := FoundIn(p, updates, l);
    hide Reordered;
    assert updates[o].generation.value <= updates[k].generation.value;
    assert p[m].generation.value <= p[l].generation.value;
  }

  /** Any delivery order of the same commits ends at the same display. */
  lemma OrdersAgree(commits: map<nat, Mode>, d: Display, p: seq<ModeUpdate>, updates: seq<ModeUpdate>, i: nat)
    requires Reordered(p, updates) && Carries(commits, updates) && Versioned(updates, i) && d.last == None
    ensures Deliver(d, p) == Deliver(d, updates)
  {
    var j := FoundIn(updates, p, i);
    hide Deliver, Reordered, Carries, IsNewest, Versioned;
    NewestExists(updates, i);
    NewestExists(p, j);
    var k :| IsNewest(updates, k);
    var l :| IsNewest(p, l);
    SameNewest(commits, p, updates, l, k);
    NewestShown(d, p);
    NewestShown(d, updates);
  }

  lemma MovedLast(updates: seq<ModeUpdate>, i: nat)
    requires i < |updates|
    ensures Reordered(updates[..i] + updates[i + 1..] + [updates[i]], updates)
  {
    assert updates == updates[..i] + [updates[i]] + updates[i + 1..];
  }

  lemma VersionedIsKept(p: seq<ModeUpdate>, updates: seq<ModeUpdate>)
    requires Reordered(p, updates) && (forall i :: !Versioned(updates, i))
    ensures forall i :: !Versioned(p, i)
  {
    if i :| Versioned(p, i) {
      var j := FoundIn(p, updates, i);
    }
  }

  lemma LastShown(d: Display, p: seq<ModeUpdate>, updates: seq<ModeUpdate>)
    requires d.last == None && Reordered(p, updates) && (forall i :: !Versioned(updates, i)) && updates != []
    ensures p != [] && Deliver(d, p) == Display(None, Some(p[|p| - 1].mode))
  {
    assert |multiset(p)| == |p| && |multiset(updates)| == |updates|;
    VersionedIsKept(p, updates);
    NewestShown(d, p);
  }

  /** When the order does not matter: exactly when some update is versioned, or
      they all name one mode. */
  lemma OrderMattersIff(commits: map<nat, Mode>, d: Display, updates: seq<ModeUpdate>)
    requires d.last == None && Carries(commits, updates)
    ensures (forall p | Reordered(p, updates) :: Deliver(d, p) == Deliver(d, updates))
      <==> (exists i :: Versioned(updates, i)) || (forall i, j :: 0 <= i < j < |updates| ==> updates[i].mode == updates[j].mode)
  {
    if i :| Versioned(updates, i) {
      forall p | Reordered(p, updates) ensures Deliver(d, p) == Deliver(d, updates) {
        OrdersAgree(commits, d, p, updates, i);
      }
    } else {
      if i, j :| 0 <= i < j < |updates| && updates[i].mode != updates[j].mode {
        LateDiffers(d, updates, i, j);
      } else {
        forall p | Reordered(p, updates) ensures Deliver(d, p) == Deliver(d, updates) {
          SameModeAgrees(d, p, updates);
        }
      }
    }
  }

  lemma LateDiffers(d: Display, updates: seq<ModeUpdate>, i: nat, j: nat)
    requires d.last == None && (forall i :: !Versioned(updates, i))
    requires i < |updates| && j < |updates| && updates[i].mode != updates[j].mode
    ensures exists p :: Reordered(p, updates) && Deliver(d, p) != Deliver(d, updates)
  {
    var p := updates[..i] + updates[i + 1..] + [updates[i]];
    var q := updates[..j] + updates[j + 1..] + [updates[j]];
    MovedLast(updates, i);
    MovedLast(updates, j);
    LastShown(d, p, updates);
    LastShown(d, q, updates);
    assert Deliver(d, p) != Deliver(d, q);
  }

  lemma SameModeAgrees(d: Display, p: seq<ModeUpdate>, updates: seq<ModeUpdate>)
    requires d.last == None && Reordered(p, updates) && (forall i :: !Versioned(updates, i))
    requires forall i, j :: 0 <= i < j < |updates| ==> updates[i].mode == updates[j].mode
    ensures Deliver(d, p) == Deliver(d, updates)
  {
    if updates == [] {
      assert |multiset(p)| == |p|;
    } else {
      LastShown(d, p, updates);
      LastShown(d, updates, updates);
      assert p[|p| - 1] in multiset(p);
      assert p[|p| - 1] in updates;
    }
  }

  // ---- The poll loop ----

  datatype Event = ModeEvent(update: ModeUpdate) | ShowEvent(mode: Mode, hidden: bool) | PressEvent(mode: Mode) | FanEvent | Unreadable

  /** What `push_state` gets back: the mode and the fan state, where the daemon gives them. */
  datatype Pushed = Pushed(mode: Option<ModeUpdate>, fan: bool)

  /** One round of the loop as the world answers it. `daemon` is the run of the
      daemon that serves the round. */
  datatype Round =
    | Failed
    | Reply(daemon: nat, latest: Option<nat>, events: seq<Event>, onConnect: Pushed, onRestart: Pushed)

  function Interpret(e: Event, daemon: nat): Option<Message> {
    match e
    case ModeEvent(update) => Some(ModeIs(update, daemon))
    case ShowEvent(mode, hidden) => Some(Show(mode, hidden))
    case PressEvent(mode) => Some(Pressed(mode))
    case FanEvent => Some(FanIs)
    case Unreadable => None
  }

  function Interpreted(events: seq<Event>, daemon: nat): (ms: seq<Message>)
    ensures forall m | m in ms :: m.ModeIs? ==> m.daemon == daemon
    ensures ResetGeneration !in ms && Unreachable !in ms
  {
    if events == [] then []
    else
      var m := Interpret(events[|events| - 1], daemon);
      Interpreted(events[..|events| - 1], daemon) + if m.Some? then [m.value] else []
  }

  function PushedAs(pushed: Pushed, daemon: nat): (ms: seq<Message>)
    ensures forall m | m in ms :: m.ModeIs? ==> m.daemon == daemon
    ensures ResetGeneration !in ms && Unreachable !in ms
  {
    (if pushed.mode.Some? then [ModeIs(pushed.mode.value, daemon)] else []) + if pushed.fan then [FanIs] else []
  }

  predicate Restarted(since: Option<nat>, latest: Option<nat>) {
    since.Some? && latest.Some? && latest.value < since.value
  }

  function Moved(since: Option<nat>, r: Round): Option<nat> {
    if r.Failed? then None else if r.latest.Some? then r.latest else since
  }

  /** The messages one round puts on the channel. */
  function Said(since: Option<nat>, connected: bool, r: Round): seq<Message> {
    match r
    case Failed => (if connected || since == None then [Unreachable] else []) + [ResetGeneration]
    case Reply(daemon, latest, events, onConnect, onRestart) =>
      (if connected then [] else [Reachable] + PushedAs(onConnect, daemon))
      + (if Restarted(since, latest) then [ResetGeneration] + PushedAs(onRestart, daemon) else [])
      + Interpreted(events, daemon)
  }

  class Poller {
    var since: Option<nat>
    var connected: bool
    var sent: seq<Message>

    /** Nothing is known yet, and the current state is pushed before the first poll. */
    constructor (pushed: Pushed, daemon: nat)
      ensures since == None && !connected
      ensures sent == PushedAs(pushed, daemon)
    {
      since, connected := None, false;
      sent := [];
      new;
      PushState(pushed, daemon);
    }

    method PushState(pushed: Pushed, daemon: nat)
      modifies this`sent
      ensures sent == old(sent) + PushedAs(pushed, daemon)
    {
      if pushed.mode.Some? { sent := sent + [ModeIs(pushed.mode.value, daemon)]; }
      if pushed.fan { sent := sent + [FanIs]; }
    }

    method Forward(events: seq<Event>, daemon: nat)
      modifies this`sent
      ensures sent == old(sent) + Interpreted(events, daemon)
    {
      for i := 0 to |events|
        invariant sent == old(sent) + Interpreted(events[..i], daemon)
      {
        assert events[..i + 1][..i] == events[..i];
        var m := Interpret(events[i], daemon);
        if m.Some? { sent := sent + [m.value]; }
      }
      assert events[..|events|] == events;
    }

    method Poll(r: Round)
      modifies this
      ensures since == Moved(old(since), r)
      ensures connected == r.Reply?
      ensures sent == old(sent) + Said(old(since), old(connected), r)
    {
      hide PushedAs, Interpreted;
      ghost var before := sent;
      match r
      case Reply(daemon, latest, events, onConnect, onRestart) =>
        if !connected {
          connected := true;
          sent := sent + [Reachable];
          PushState(onConnect, daemon);
        }
        ghost var greeting := if old(connected) then [] else [Reachable] + PushedAs(onConnect, daemon);
        assert sent == before + greeting;
        if since.Some? && latest.Some? && latest.value < since.value {
          sent := sent + [ResetGeneration];
          PushState(onRestart, daemon);
          since := latest;
        } else if latest.Some? {
          since := latest;
        }
        ghost var restart := if Restarted(old(since), latest) then [ResetGeneration] + PushedAs(onRestart, daemon) else [];
        assert sent == before + (greeting + restart);
        Forward(events, daemon);
        assert sent == before + (greeting + restart + Interpreted(events, daemon));
      case Failed =>
        if connected || since == None {
          sent := sent + [Unreachable];
        }
        connected := false;
        sent := sent + [ResetGeneration];
        since := None;
        assert sent == before + Said(old(since), old(connected), r);
    }

    method PollEach(rounds: seq<Round>, ghost first: Pushed, ghost daemon: nat)
      requires since == None && !connected && sent == PushedAs(first, daemon)
      modifies this
      ensures since == Cursor(rounds)
      ensures sent == Sent(first, daemon, rounds)
    {
      for i := 0 to |rounds|
        invariant since == Cursor(rounds[..i]) && connected == Connected(rounds[..i])
        invariant sent == Sent(first, daemon, rounds[..i])
      {
        assert rounds[..i + 1][..i] == rounds[..i];
        Poll(rounds[i]);
      }
      assert rounds[..|rounds|] == rounds;
    }
  }

  // ---- Whole runs of the loop ----

  function Cursor(rounds: seq<Round>): Option<nat> {
    if rounds == [] then None else Moved(Cursor(rounds[..|rounds| - 1]), rounds[|rounds| - 1])
  }

  predicate Connected(rounds: seq<Round>) {
    rounds != [] && rounds[|rounds| - 1].Reply?
  }

  function Sent(first: Pushed, daemon: nat, rounds: seq<Round>): seq<Message> {
    if rounds == [] then PushedAs(first, daemon)
    else
      var earlier := rounds[..|rounds| - 1];
      Sent(first, daemon, earlier) + Said(Cursor(earlier), Connected(earlier), rounds[|rounds| - 1])
  }

  /** Every change of daemon shows: a call failed in between, or the sequence
      number in the first reply of the new one is behind the cursor. The first
      reply comes from the daemon that answered the push before it. */
  ghost predicate Detected(daemon: nat, rounds: seq<Round>) {
    forall i :: 0 <= i < |rounds| && rounds[i].Reply? ==> Shows(daemon, rounds, i)
  }

  predicate Shows(daemon: nat, rounds: seq<Round>, i: nat)
    requires i < |rounds| && rounds[i].Reply?
  {
    || rounds[i].daemon == LastDaemon(daemon, rounds[..i])
    || (i > 0 && rounds[i - 1].Failed?)
    || Restarted(Cursor(rounds[..i]), rounds[i].latest)
  }

  function LastDaemon(daemon: nat, rounds: seq<Round>): nat {
    if rounds == [] then daemon
    else if rounds[|rounds| - 1].Reply? then rounds[|rounds| - 1].daemon
    else LastDaemon(daemon, rounds[..|rounds| - 1])
  }

  /** Between any two announcements from different daemons stands a reset. */
  ghost predicate Separated(ms: seq<Message>) {
    forall i, j :: 0 <= i < j < |ms| && ms[i].ModeIs? && ms[j].ModeIs? && ms[i].daemon != ms[j].daemon ==>
      exists k :: i < k < j && ms[k] == ResetGeneration
  }

  /** Nothing since the last reset came from a daemon other than `d`. */
  ghost predicate OnlyFrom(ms: seq<Message>, d: nat) {
    forall i :: 0 <= i < |ms| && ms[i].ModeIs? && ms[i].daemon != d ==>
      exists k :: i < k < |ms| && ms[k] == ResetGeneration
  }

  /** A stretch from one daemon, with no reset in it. */
  predicate Stretch(ms: seq<Message>, d: nat) {
    forall m | m in ms :: m.ModeIs? ==> m.daemon == d
  }

  lemma AppendStretch(ms: seq<Message>, more: seq<Message>, d: nat)
    requires Separated(ms) && OnlyFrom(ms, d) && Stretch(more, d)
    ensures Separated(ms + more) && OnlyFrom(ms + more, d)
  {
    var all := ms + more;
    assert forall x :: |ms| <= x < |all| ==> all[x] in more;
    forall i | 0 <= i < |all| && all[i].ModeIs? && all[i].daemon != d
      ensures exists k :: i < k < |ms| && all[k] == ResetGeneration
    {
      var k :| i < k < |ms| && ms[k] == ResetGeneration;
      assert all[k] == ResetGeneration;
    }
    forall i, j | 0 <= i < j < |all| && all[i].ModeIs? && all[j].ModeIs? && all[i].daemon != all[j].daemon
      ensures exists k :: i < k < j && all[k] == ResetGeneration
    {
      if j < |ms| {
        var k :| i < k < j && ms[k] == ResetGeneration;
        assert all[k] == ResetGeneration;
      } else {
        assert all[j] in more;
      }
    }
  }

  lemma AppendReset(ms: seq<Message>, d: nat)
    requires Separated(ms)
    ensures Separated(ms + [ResetGeneration]) && OnlyFrom(ms + [ResetGeneration], d)
  {
    var all := ms + [ResetGeneration];
    assert all[|ms|] == ResetGeneration;
    forall i, j | 0 <= i < j < |all| && all[i].ModeIs? && all[j].ModeIs? && all[i].daemon != all[j].daemon
      ensures exists k :: i < k < j && all[k] == ResetGeneration
    {
      var k :| i < k < j && ms[k] == ResetGeneration;
      assert all[k] == ResetGeneration;
    }
  }

  lemma DetectedEarlier(daemon: nat, rounds: seq<Round>)
    requires Detected(daemon, rounds) && rounds != []
    ensures Detected(daemon, rounds[..|rounds| - 1])
  {
    var earlier := rounds[..|rounds| - 1];
    forall i | 0 <= i < |earlier| && earlier[i].Reply? ensures Shows(daemon, earlier, i) {
      assert earlier[..i] == rounds[..i] && rounds[i].Reply?;
      assert Shows(daemon, rounds, i);
    }
  }

  /** A round's messages, as one reset in front of a stretch or a stretch alone. */
  lemma SaidShape(since: Option<nat>, connected: bool, r: Round)
    requires r.Reply? && (!connected ==> since == None)
    ensures Restarted(since, r.latest) ==> exists s ::
      Stretch(s, r.daemon) && Said(since, connected, r) == [ResetGeneration] + s
    ensures !Restarted(since, r.latest) ==> Stretch(Said(since, connected, r), r.daemon)
  {
    if Restarted(since, r.latest) {
      assert [] + [ResetGeneration] == [ResetGeneration];
      var s := PushedAs(r.onRestart, r.daemon) + Interpreted(r.events, r.daemon);
      assert Said(since, connected, r) == [ResetGeneration] + s;
      assert Stretch(s, r.daemon);
    }
  }

  lemma SeqAssoc(a: seq<Message>, b: seq<Message>, c: seq<Message>)
    ensures a + (b + c) == a + b + c
  {
  }

  /** What a run that has said `ms` and then serves round `r` keeps. */
  lemma RoundSeparates(ms: seq<Message>, since: Option<nat>, connected: bool, r: Round)
    requires Separated(ms) && (!connected ==> since == None)
    requires r.Reply? ==> Restarted(since, r.latest) || OnlyFrom(ms, r.daemon)
    ensures Separated(ms + Said(since, connected, r))
    ensures if r.Reply? then OnlyFrom(ms + Said(since, connected, r), r.daemon)
            else forall d: nat :: OnlyFrom(ms + Said(since, connected, r), d)
  {
    hide Separated, OnlyFrom;
    if r.Failed? {
      var spoke := if connected || since == None then [Unreachable] else [];
      AppendUnreachable(ms, spoke);
      SeqAssoc(ms, spoke, [ResetGeneration]);
      AppendReset(ms + spoke, 0);
      forall d: nat ensures OnlyFrom(ms + Said(since, connected, r), d) {
        AppendReset(ms + spoke, d);
      }
    } else {
      SaidShape(since, connected, r);
      hide Stretch, Restarted, Said;
      if Restarted(since, r.latest) {
        var s :| Stretch(s, r.daemon) && Said(since, connected, r) == [ResetGeneration] + s;
        AppendReset(ms, r.daemon);
        AppendStretch(ms + [ResetGeneration], s, r.daemon);
        SeqAssoc(ms, [ResetGeneration], s);
      } else {
        AppendStretch(ms, Said(since, connected, r), r.daemon);
      }
    }
  }

  lemma AppendUnreachable(ms: seq<Message>, spoke: seq<Message>)
    requires Separated(ms) && (forall m | m in spoke :: m == Unreachable)
    ensures Separated(ms + spoke)
  {
    var all := ms + spoke;
    assert forall x :: |ms| <= x < |all| ==> all[x] in spoke;
    forall i, j | 0 <= i < j < |all| && all[i].ModeIs? && all[j].ModeIs? && all[i].daemon != all[j].daemon
      ensures exists k :: i < k < j && all[k] == ResetGeneration
    {
      var k :| i < k < j && ms[k] == ResetGeneration;
      assert all[k] == ResetGeneration;
    }
  }

  /** As long as every restart shows, a reset stands between the announcements
      of one daemon and those of the next, whatever else was lost or failed. */
  lemma {:induction false} SentSeparates(first: Pushed, daemon: nat, rounds: seq<Round>)
    requires Detected(daemon, rounds)
    ensures var ms := Sent(first, daemon, rounds);
      && Separated(ms)
      && (if rounds == [] || Connected(rounds) then OnlyFrom(ms, LastDaemon(daemon, rounds))
          else forall d: nat :: OnlyFrom(ms, d))
  {
    if rounds == [] {
      assert Stretch(PushedAs(first, daemon), daemon);
      AppendStretch([], PushedAs(first, daemon), daemon);
      assert [] + PushedAs(first, daemon) == PushedAs(first, daemon);
    } else {
      var n := |rounds| - 1;
      var earlier := rounds[..n];
      var r := rounds[n];
      assert r.Reply? ==> Shows(daemon, rounds, n);
      DetectedEarlier(daemon, rounds);
      SentSeparates(first, daemon, earlier);
      assert n > 0 ==> Connected(earlier) == rounds[n - 1].Reply?;
      hide Separated, OnlyFrom, Detected, Restarted, Said;
      RoundSeparates(Sent(first, daemon, earlier), Cursor(earlier), Connected(earlier), r);
    }
  }

  // ---- Restarts that do not show ----

  /** What a reply puts in front of its events: greeting and present state after a
      reconnection; reset and present state after a restart; else nothing. */
  function Preface(since: Option<nat>, connected: bool, r: Round): seq<Message>
    requires r.Reply?
  {
    if !connected then [Reachable] + PushedAs(r.onConnect, r.daemon)
    else if Restarted(since, r.latest) then [ResetGeneration] + PushedAs(r.onRestart, r.daemon)
    else []
  }

  lemma SaidInTwo(since: Option<nat>, connected: bool, r: Round)
    requires r.Reply? && (!connected ==> since == None)
    ensures Said(since, connected, r) == Preface(since, connected, r) + Interpreted(r.events, r.daemon)
  {
    hide PushedAs, Interpreted;
    if connected {
      assert [] + ([ResetGeneration] + PushedAs(r.onRestart, r.daemon)) == [ResetGeneration] + PushedAs(r.onRestart, r.daemon);
      var none: seq<Message> := [];
      assert none + none == none;
    } else {
      var greeting := [Reachable] + PushedAs(r.onConnect, r.daemon);
      assert greeting + [] == greeting;
    }
  }

  /** The first push and every answered round announce a mode. */
  ghost predicate Vocal(first: Pushed, rounds: seq<Round>) {
    && first.mode.Some?
    && forall i :: 0 <= i < |rounds| && rounds[i].Reply? ==> Speaks(rounds, i)
  }

  ghost predicate Speaks(rounds: seq<Round>, i: nat)
    requires i < |rounds|
  {
    exists m :: m in Said(Cursor(rounds[..i]), Connected(rounds[..i]), rounds[i]) && m.ModeIs?
  }

  /** An announcement of `d` with no reset behind it. */
  ghost predicate EndsWith(ms: seq<Message>, d: nat) {
    exists x :: 0 <= x < |ms| && ms[x].ModeIs? && ms[x].daemon == d && forall k :: x < k < |ms| ==> ms[k] != ResetGeneration
  }

  lemma StretchEnds(ms: seq<Message>, s: seq<Message>, d: nat)
    requires Stretch(s, d) && ResetGeneration !in s && exists m :: m in s && m.ModeIs?
    ensures EndsWith(ms + s, d)
  {
    var m :| m in s && m.ModeIs?;
    var x :| 0 <= x < |s| && s[x] == m;
    var all := ms + s;
    assert all[|ms| + x] == m;
    forall k | |ms| + x < k < |all| ensures all[k] != ResetGeneration { assert all[k] == s[k - |ms|] && s[k - |ms|] in s; }
  }

  lemma ReplyEnds(ms: seq<Message>, since: Option<nat>, connected: bool, r: Round)
    requires r.Reply? && (!connected ==> since == None)
    requires exists m :: m in Said(since, connected, r) && m.ModeIs?
    ensures EndsWith(ms + Said(since, connected, r), r.daemon)
    ensures !Restarted(since, r.latest) ==> ResetGeneration !in Said(since, connected, r) && Stretch(Said(since, connected, r), r.daemon)
  {
    RestartSays(since, connected, r);
    SaidShape(since, connected, r);
    var said := Said(since, connected, r);
    if Restarted(since, r.latest) {
      var s := PushedAs(r.onRestart, r.daemon) + Interpreted(r.events, r.daemon);
      assert ms + said == (ms + [ResetGeneration]) + s;
      StretchEnds(ms + [ResetGeneration], s, r.daemon);
    } else {
      StretchEnds(ms, said, r.daemon);
    }
  }

  lemma RestartSays(since: Option<nat>, connected: bool, r: Round)
    requires r.Reply? && (!connected ==> since == None)
    ensures !Restarted(since, r.latest) ==> ResetGeneration !in Said(since, connected, r)
    ensures Restarted(since, r.latest) ==>
      var s := PushedAs(r.onRestart, r.daemon) + Interpreted(r.events, r.daemon);
      Said(since, connected, r) == [ResetGeneration] + s && ResetGeneration !in s && Stretch(s, r.daemon)
  {
    SaidInTwo(since, connected, r);
    var preface, told := Preface(since, connected, r), Interpreted(r.events, r.daemon);
    hide Said, Interpreted, PushedAs;
    if Restarted(since, r.latest) {
      var pushed := PushedAs(r.onRestart, r.daemon);
      assert [ResetGeneration] + pushed + told == [ResetGeneration] + (pushed + told);
      assert forall m | m in pushed + told :: m in pushed || m in told;
    } else {
      assert ResetGeneration !in preface;
    }
  }

  /** A vocal run that has not just failed ends with its daemon's announcement. */
  lemma SentEnds(first: Pushed, daemon: nat, rounds: seq<Round>)
    requires Vocal(first, rounds) && (rounds == [] || Connected(rounds))
    ensures EndsWith(Sent(first, daemon, rounds), LastDaemon(daemon, rounds))
  {
    if rounds == [] {
      var ms := PushedAs(first, daemon);
      assert ms[0] == ModeIs(first.mode.value, daemon);
      assert forall k :: 0 < k < |ms| ==> ms[k] in ms;
    } else {
      var n := |rounds| - 1;
      var earlier := rounds[..n];
      assert Speaks(rounds, n);
      CursorWhenFailed(earlier);
      hide Said;
      ReplyEnds(Sent(first, daemon, earlier), Cursor(earlier), Connected(earlier), rounds[n]);
    }
  }

  lemma CursorWhenFailed(rounds: seq<Round>)
    ensures !Connected(rounds) ==> Cursor(rounds) == None
  {
  }

  lemma NotSeparated(ms: seq<Message>, more: seq<Message>, d: nat, e: nat)
    requires EndsWith(ms, d) && d != e && ResetGeneration !in more && Stretch(more, e)
    requires exists m :: m in more && m.ModeIs?
    ensures !Separated(ms + more)
  {
    var x :| 0 <= x < |ms| && ms[x].ModeIs? && ms[x].daemon == d && forall k :: x < k < |ms| ==> ms[k] != ResetGeneration;
    var m :| m in more && m.ModeIs?;
    var y :| 0 <= y < |more| && more[y] == m;
    var all := ms + more;
    assert all[x] == ms[x] && all[|ms| + y] == m;
    forall k | x < k < |ms| + y ensures all[k] != ResetGeneration {
      if k >= |ms| { assert all[k] == more[k - |ms|] && more[k - |ms|] in more; } else { assert all[k] == ms[k]; }
    }
  }

  lemma SeparatedFront(ms: seq<Message>, all: seq<Message>)
    requires Separated(all) && ms <= all
    ensures Separated(ms)
  {
    forall i, j | 0 <= i < j < |ms| && ms[i].ModeIs? && ms[j].ModeIs? && ms[i].daemon != ms[j].daemon
      ensures exists k :: i < k < j && ms[k] == ResetGeneration
    {
      assert all[i] == ms[i] && all[j] == ms[j];
      var k :| i < k < j && all[k] == ResetGeneration;
      assert ms[k] == ResetGeneration;
    }
  }

  lemma VocalFront(first: Pushed, rounds: seq<Round>, n: nat)
    requires Vocal(first, rounds) && n <= |rounds|
    ensures Vocal(first, rounds[..n])
  {
    var front := rounds[..n];
    forall i | 0 <= i < |front| && front[i].Reply? ensures Speaks(front, i) {
      assert front[..i] == rounds[..i] && front[i] == rounds[i];
      assert Speaks(rounds, i);
    }
  }

  lemma UndetectedMixes(first: Pushed, daemon: nat, rounds: seq<Round>, i: nat)
    requires Vocal(first, rounds) && i < |rounds| && rounds[i].Reply? && !Shows(daemon, rounds, i)
    ensures !Separated(Sent(first, daemon, rounds))
  {
    var earlier := rounds[..i];
    var r := rounds[i];
    assert i > 0 ==> earlier[|earlier| - 1] == rounds[i - 1];
    assert Connected(earlier) || earlier == [];
    VocalFront(first, rounds, i);
    SentEnds(first, daemon, earlier);
    CursorWhenFailed(earlier);
    assert Speaks(rounds, i);
    SentGrows(first, daemon, rounds, i);
    hide Said, Sent, LastDaemon, Cursor;
    var ms, said := Sent(first, daemon, earlier), Said(Cursor(earlier), Connected(earlier), r);
    ReplyEnds(ms, Cursor(earlier), Connected(earlier), r);
    NotSeparated(ms, said, LastDaemon(daemon, earlier), r.daemon);
    if Separated(Sent(first, daemon, rounds)) { SeparatedFront(ms + said, Sent(first, daemon, rounds)); }
  }

  /** Where every answered round announces a mode, the resets keep the daemons
      apart if and only if every restart shows. */
  lemma SeparatedIffDetected(first: Pushed, daemon: nat, rounds: seq<Round>)
    requires Vocal(first, rounds)
    ensures Separated(Sent(first, daemon, rounds)) <==> Detected(daemon, rounds)
  {
    if Detected(daemon, rounds) {
      SentSeparates(first, daemon, rounds);
    } else {
      var i :| 0 <= i < |rounds| && rounds[i].Reply? && !Shows(daemon, rounds, i);
      UndetectedMixes(first, daemon, rounds, i);
    }
  }

  // ---- What the whole widget shows ----

  /** The updates announced since the last reset, where nothing but a mode
      announcement has moved the highlight. */
  function Heard(ms: seq<Message>): seq<ModeUpdate> {
    if ms == [] then []
    else match ms[|ms| - 1]
      case ResetGeneration => []
      case ModeIs(update, _) => Heard(ms[..|ms| - 1]) + [update]
      case _ => Heard(ms[..|ms| - 1])
  }

  predicate Presses(m: Message) {
    m.Pressed? || (m.Show? && m.hidden)
  }

  /** No key press has moved the highlight since the last reset. */
  predicate Untouched(ms: seq<Message>) {
    if ms == [] then true
    else match ms[|ms| - 1]
      case ResetGeneration => true
      case m => !Presses(m) && Untouched(ms[..|ms| - 1])
  }

  lemma {:induction false} ShownSinceReset(d: Display, ms: seq<Message>)
    requires d.last == None && Untouched(ms)
    ensures exists e: Display :: e.last == None && Shown(d, ms) == Deliver(e, Heard(ms))
  {
    if ms == [] {
      assert Shown(d, ms) == Deliver(d, Heard(ms));
    } else {
      var earlier := ms[..|ms| - 1];
      var m := ms[|ms| - 1];
      if m.ResetGeneration? {
        assert Shown(d, ms) == Deliver(Shown(d, ms), []);
      } else {
        ShownSinceReset(d, earlier);
        var e: Display :| e.last == None && Shown(d, earlier) == Deliver(e, Heard(earlier));
        if m.ModeIs? {
          assert Heard(ms)[..|Heard(ms)| - 1] == Heard(earlier);
        }
        assert Shown(d, ms) == Deliver(e, Heard(ms));
      }
    }
  }

  /** What a daemon's commits say, of the announcements since the last reset. */
  lemma {:induction false} HeardFromOne(ms: seq<Message>, d: nat, i: nat)
    requires OnlyFrom(ms, d) && i < |Heard(ms)|
    ensures exists k :: 0 <= k < |ms| && ms[k] == ModeIs(Heard(ms)[i], d)
  {
    var n := |ms| - 1;
    var earlier := ms[..n];
    assert forall k :: 0 <= k < n ==> earlier[k] == ms[k];
    if ms[n].ModeIs? && i == |Heard(earlier)| {
      assert ms[n] == ModeIs(Heard(ms)[i], d);
    } else {
      forall j | 0 <= j < |earlier| && earlier[j].ModeIs? && earlier[j].daemon != d
        ensures exists k :: j < k < |earlier| && earlier[k] == ResetGeneration
      {
        var k :| j < k < |ms| && ms[k] == ResetGeneration;
        assert earlier[k] == ResetGeneration;
      }
      HeardFromOne(earlier, d, i);
      var k :| 0 <= k < |earlier| && earlier[k] == ModeIs(Heard(earlier)[i], d);
      assert ms[k] == ModeIs(Heard(ms)[i], d);
    }
  }

  /** A daemon announces no generation but with the mode committed under it. */
  ghost predicate Truthful(commits: map<nat, Mode>, ms: seq<Message>, d: nat) {
    forall m | m in ms && m.ModeIs? && m.daemon == d && m.update.generation.Some? ::
      m.update.generation.value in commits && commits[m.update.generation.value] == m.update.mode
  }

  /** End to end: across restarts, failures, losses and any order of
      announcement, once the present daemon has named a generation the widget
      shows the mode that daemon committed under the greatest generation heard
      from it, and no number of an earlier daemon is in the way. */
  lemma WidgetFollowsDaemon(first: Pushed, daemon: nat, rounds: seq<Round>, commits: map<nat, Mode>, i: nat)
    requires Detected(daemon, rounds) && Connected(rounds)
    requires var ms := Sent(first, daemon, rounds);
      Truthful(commits, ms, LastDaemon(daemon, rounds)) && Untouched(ms) && Versioned(Heard(ms), i)
    ensures var ms := Sent(first, daemon, rounds); var d := Shown(Display(None, None), ms);
      && d.last.Some? && d.last.value in commits && d.shown == Some(commits[d.last.value])
      && (forall k :: Versioned(Heard(ms), k) ==> Heard(ms)[k].generation.value <= d.last.value)
  {
    var ms := Sent(first, daemon, rounds);
    var who := LastDaemon(daemon, rounds);
    SentSeparates(first, daemon, rounds);
    hide Sent, LastDaemon, Detected, Connected;
    forall k | Versioned(Heard(ms), k)
      ensures Heard(ms)[k].generation.value in commits && commits[Heard(ms)[k].generation.value] == Heard(ms)[k].mode
    {
      HeardFromOne(ms, who, k);
    }
    ShownSinceReset(Display(None, None), ms);
    var e: Display :| e.last == None && Shown(Display(None, None), ms) == Deliver(e, Heard(ms));
    NewestExists(Heard(ms), i);
    NewestShown(e, Heard(ms));
  }

  const Nothing := Pushed(None, false)
  const Before := ModeIs(ModeUpdate(Eco, Some(7)), 0)
  const After := ModeIs(ModeUpdate(Performance, Some(1)), 1)
  const OldRound := Reply(0, Some(4), [ModeEvent(ModeUpdate(Eco, Some(7)))], Nothing, Nothing)
  const NewRound := Reply(1, Some(5), [ModeEvent(ModeUpdate(Performance, Some(1)))], Nothing, Nothing)

  lemma MissedRestartSays()
    ensures Sent(Nothing, 0, [OldRound]) == [Reachable, Before]
    ensures Said(Some(4), true, NewRound) == [After]
  {
    assert [OldRound][..0] == [];
    assert Interpreted(OldRound.events, 0) == [Before];
    assert Interpreted(NewRound.events, 1) == [After];
  }

  lemma MissedRestartSends()
    ensures Sent(Nothing, 0, [OldRound, NewRound]) == [Reachable, Before, After]
    ensures !Detected(0, [OldRound, NewRound]) && LastDaemon(0, [OldRound, NewRound]) == 1
  {
    var rounds := [OldRound, NewRound];
    assert rounds[..1] == [OldRound];
    MissedRestartSays();
    hide Said, Sent;
    assert Cursor([OldRound]) == Some(4);
    assert Sent(Nothing, 0, rounds) == Sent(Nothing, 0, [OldRound]) + Said(Cursor([OldRound]), Connected([OldRound]), NewRound) by {
      SentUnfolds(Nothing, 0, [OldRound], NewRound);
      assert [OldRound] + [NewRound] == rounds;
    }
    assert LastDaemon(0, [OldRound]) == 0;
    assert rounds[1].Reply? && !Shows(0, rounds, 1);
  }

  lemma SentUnfolds(first: Pushed, daemon: nat, rounds: seq<Round>, r: Round)
    ensures Sent(first, daemon, rounds + [r]) == Sent(first, daemon, rounds) + Said(Cursor(rounds), Connected(rounds), r)
  {
    assert (rounds + [r])[..|rounds|] == rounds;
  }

  /** A restart that does not show: the new daemon has already counted past the
      cursor, no reset is sent, and its announcements are refused. */
  lemma MissedRestart()
    ensures exists rounds :: var ms := Sent(Nothing, 0, rounds);
      && |rounds| == 2 && LastDaemon(0, rounds) == 1
      && !Detected(0, rounds) && !Separated(ms)
      && Shown(Display(None, None), ms) == Display(Some(7), Some(Eco))
      && ms[|ms| - 1] == After
  {
    MissedRestartSends();
    hide Sent, Detected, LastDaemon;
    var ms := [Reachable, Before, After];
    assert !Separated(ms) by {
      assert ms[1].ModeIs? && ms[2].ModeIs? && ms[1].daemon != ms[2].daemon;
    }
    assert ms[..2] == [Reachable, Before] && [Reachable, Before][..1] == [Reachable] && [Reachable][..0] == [];
    assert Shown(Display(None, None), [Reachable]) == Display(None, None);
    assert Shown(Display(None, None), [Reachable, Before]) == Display(Some(7), Some(Eco));
    assert Shown(Display(None, None), ms) == Display(Some(7), Some(Eco));
  }

  // ---- Nothing is held back ----

  lemma SentGrows(first: Pushed, daemon: nat, rounds: seq<Round>, i: nat)
    requires i < |rounds|
    ensures Sent(first, daemon, rounds[..i]) + Said(Cursor(rounds[..i]), Connected(rounds[..i]), rounds[i]) <= Sent(first, daemon, rounds)
    decreases |rounds| - i
  {
    hide Said;
    var next := Sent(first, daemon, rounds[..i + 1]);
    assert rounds[..i + 1] == rounds[..i] + [rounds[i]];
    SentUnfolds(first, daemon, rounds[..i], rounds[i]);
    if i + 1 < |rounds| {
      SentGrows(first, daemon, rounds, i + 1);
    } else {
      assert rounds[..i + 1] == rounds;
    }
  }

  /** How many of the events the widget can read. */
  function Readable(events: seq<Event>): nat {
    if events == [] then 0
    else Readable(events[..|events| - 1]) + if events[|events| - 1] == Unreadable then 0 else 1
  }

  lemma {:induction false} InterpretedLength(events: seq<Event>, daemon: nat)
    ensures |Interpreted(events, daemon)| == Readable(events)
  {
    if events != [] { InterpretedLength(events[..|events| - 1], daemon); }
  }

  /** Each readable event has its own place, in the order of the events. */
  lemma {:induction false} InterpretedAt(events: seq<Event>, daemon: nat, e: nat)
    requires e < |events| && events[e] != Unreadable
    ensures var at := Readable(events[..e]);
      at < |Interpreted(events, daemon)| && Some(Interpreted(events, daemon)[at]) == Interpret(events[e], daemon)
    decreases |events|
  {
    var n := |events| - 1;
    InterpretedLength(events[..n], daemon);
    if e < n {
      assert events[..n][..e] == events[..e];
      InterpretedAt(events[..n], daemon, e);
    }
  }

  /** The message that says what the event says. */
  predicate Says(m: Message, e: Event, daemon: nat) {
    || (e.ModeEvent? && m == ModeIs(e.update, daemon))
    || (e.ShowEvent? && m == Show(e.mode, e.hidden))
    || (e.PressEvent? && m == Pressed(e.mode))
    || (e.FanEvent? && m == FanIs)
  }

  /** `after` is `before` and then one message for each readable event, in their
      order, and no more. */
  ghost predicate Adds(before: seq<Message>, events: seq<Event>, daemon: nat, after: seq<Message>) {
    && before <= after && |after| == |before| + Readable(events)
    && (forall e | 0 <= e < |events| && events[e] != Unreadable ::
          |before| + Readable(events[..e]) < |after| && Says(after[|before| + Readable(events[..e])], events[e], daemon))
  }

  lemma ToldInOrder(before: seq<Message>, events: seq<Event>, daemon: nat)
    ensures Adds(before, events, daemon, before + Interpreted(events, daemon))
  {
    InterpretedLength(events, daemon);
    hide Interpreted, Says, Interpret, Readable;
    forall e | 0 <= e < |events| && events[e] != Unreadable
      ensures var at := Readable(events[..e]);
        at < |Interpreted(events, daemon)| && Says(Interpreted(events, daemon)[at], events[e], daemon)
    {
      InterpretedAt(events, daemon, e);
      InterpretSays(events[e], daemon);
    }
  }

  lemma InterpretSays(e: Event, daemon: nat)
    ensures Interpret(e, daemon).Some? <==> e != Unreadable
    ensures e != Unreadable ==> Says(Interpret(e, daemon).value, e, daemon)
  {
  }

  /** The present state as the daemon gave it: its mode, then its fan. */
  function Present(p: Pushed, daemon: nat): seq<Message> {
    if p.mode.Some? && p.fan then [ModeIs(p.mode.value, daemon), FanIs]
    else if p.mode.Some? then [ModeIs(p.mode.value, daemon)]
    else if p.fan then [FanIs]
    else []
  }

  lemma PresentIsPushed(p: Pushed, daemon: nat)
    ensures PushedAs(p, daemon) == Present(p, daemon)
  {
    if p.mode.Some? && p.fan { assert [ModeIs(p.mode.value, daemon)] + [FanIs] == [ModeIs(p.mode.value, daemon), FanIs]; }
  }

  /** The cursor the poller holds: the number in the last reply that had one. */
  predicate LastNumber(rounds: seq<Round>, j: nat, n: nat) {
    && j < |rounds| && rounds[j].Reply? && rounds[j].latest == Some(n)
    && forall k :: j < k < |rounds| ==> rounds[k].Reply? && rounds[k].latest == None
  }

  predicate NumberLost(rounds: seq<Round>, j: nat) {
    exists k :: j < k < |rounds| && rounds[k].Failed?
  }

  /** The poller's cursor is the number in the last reply that had one, and there
      is none before the first such reply after a failed call. */
  lemma {:induction false} CursorIsLastNumber(rounds: seq<Round>)
    ensures Cursor(rounds).Some? ==> exists j: nat :: LastNumber(rounds, j, Cursor(rounds).value)
    ensures Cursor(rounds) == None ==> forall j: nat :: j < |rounds| && rounds[j].Reply? && rounds[j].latest.Some? ==> NumberLost(rounds, j)
  {
    if rounds != [] {
      var n := |rounds| - 1;
      var earlier := rounds[..n];
      CursorIsLastNumber(earlier);
      if rounds[n].Reply? && rounds[n].latest.Some? {
        assert LastNumber(rounds, n, rounds[n].latest.value);
      } else if rounds[n].Reply? {
        if Cursor(earlier).Some? {
          var j: nat :| LastNumber(earlier, j, Cursor(earlier).value);
          assert LastNumber(rounds, j, Cursor(earlier).value);
        } else {
          forall j: nat | j < |rounds| && rounds[j].Reply? && rounds[j].latest.Some? ensures NumberLost(rounds, j) {
            assert NumberLost(earlier, j);
          }
        }
      }
    }
  }

  /** Nothing is held back, doubled or reordered. An answered round adds to all
      that was sent before it its preface and then its readable events. The
      preface is a greeting with the present state after a failed call and at the
      start, a reset with the present state when the daemon's number is behind the
      last one it gave, and nothing otherwise. */
  lemma NothingWithheld(first: Pushed, daemon: nat, rounds: seq<Round>, i: nat)
    requires i < |rounds| && rounds[i].Reply?
    ensures var r := rounds[i];
      var behind := exists j: nat, n: nat :: LastNumber(rounds[..i], j, n) && r.latest.Some? && r.latest.value < n;
      var preface :=
        if i == 0 || rounds[i - 1].Failed? then [Reachable] + Present(r.onConnect, r.daemon)
        else if behind then [ResetGeneration] + Present(r.onRestart, r.daemon)
        else [];
      Adds(Sent(first, daemon, rounds[..i]) + preface, r.events, r.daemon, Sent(first, daemon, rounds[..i + 1]))
    ensures Sent(first, daemon, rounds[..i + 1]) <= Sent(first, daemon, rounds)
    ensures Sent(first, daemon, []) == Present(first, daemon)
  {
    hide Said, Interpreted, Cursor, Adds, Present, PushedAs, Restarted, LastNumber;
    var earlier := rounds[..i];
    PresentIsPushed(first, daemon);
    PresentIsPushed(rounds[i].onConnect, rounds[i].daemon);
    PresentIsPushed(rounds[i].onRestart, rounds[i].daemon);
    SentAt(first, daemon, rounds, i);
    RestartedIsBehind(earlier, rounds[i].latest);
    RoundAdds(Sent(first, daemon, earlier), earlier, rounds[i]);
    hide Sent;
  }

  lemma SameLastNumber(rounds: seq<Round>, j: nat, n: nat, k: nat, m: nat)
    requires LastNumber(rounds, j, n) && LastNumber(rounds, k, m)
    ensures n == m
  {
  }

  lemma RestartedIsBehind(rounds: seq<Round>, latest: Option<nat>)
    ensures Restarted(Cursor(rounds), latest) <==>
      exists j: nat, n: nat :: LastNumber(rounds, j, n) && latest.Some? && latest.value < n
  {
    CursorIsLastNumber(rounds);
    hide Cursor, LastNumber, NumberLost;
    if Cursor(rounds).Some? {
      var k: nat :| LastNumber(rounds, k, Cursor(rounds).value);
      forall j: nat, n: nat | LastNumber(rounds, j, n) ensures n == Cursor(rounds).value {
        SameLastNumber(rounds, j, n, k, Cursor(rounds).value);
      }
    } else {
      forall j: nat, n: nat ensures !LastNumber(rounds, j, n) {
        LostIsLast(rounds, j, n);
      }
    }
  }

  lemma LostIsLast(rounds: seq<Round>, j: nat, n: nat)
    requires j < |rounds| && rounds[j].Reply? && rounds[j].latest.Some? ==> NumberLost(rounds, j)
    ensures !LastNumber(rounds, j, n)
  {
  }

  lemma SentAt(first: Pushed, daemon: nat, rounds: seq<Round>, i: nat)
    requires i < |rounds|
    ensures Sent(first, daemon, rounds[..i + 1]) ==
      Sent(first, daemon, rounds[..i]) + Said(Cursor(rounds[..i]), Connected(rounds[..i]), rounds[i])
    ensures Sent(first, daemon, rounds[..i + 1]) <= Sent(first, daemon, rounds)
  {
    hide Said, Sent, Cursor, Connected;
    SentGrows(first, daemon, rounds, i);
    assert rounds[..i + 1] == rounds[..i] + [rounds[i]];
    SentUnfolds(first, daemon, rounds[..i], rounds[i]);
  }

  lemma RoundAdds(sent: seq<Message>, earlier: seq<Round>, r: Round)
    requires r.Reply?
    ensures var since, connected := Cursor(earlier), Connected(earlier);
      Adds(sent + Preface(since, connected, r), r.events, r.daemon, sent + Said(since, connected, r))
  {
    CursorWhenFailed(earlier);
    var since, connected := Cursor(earlier), Connected(earlier);
    hide Said, Interpreted, Preface, Cursor, Connected, Adds;
    SaidInTwo(since, connected, r);
    ToldInOrder(sent + Preface(since, connected, r), r.events, r.daemon);
    SeqAssoc(sent, Preface(since, connected, r), Interpreted(r.events, r.daemon));
  }

  function Count(ms: seq<Message>, m: Message): nat {
    multiset(ms)[m]
  }

  function Failures(rounds: seq<Round>): nat {
    if rounds == [] then 0
    else Failures(rounds[..|rounds| - 1]) + if rounds[|rounds| - 1].Failed? then 1 else 0
  }

  /** How many replies were behind the cursor. */
  function Restarts(rounds: seq<Round>): nat {
    if rounds == [] then 0
    else
      var earlier := rounds[..|rounds| - 1];
      var r := rounds[|rounds| - 1];
      Restarts(earlier) + if r.Reply? && Restarted(Cursor(earlier), r.latest) then 1 else 0
  }

  /** Every failed call reports the daemon as unreachable and resets the tracker,
      there and then: the guard that was to keep repeated failures quiet is always
      true, because a disconnected poller never holds a cursor. */
  lemma EachFailureReported(first: Pushed, daemon: nat, rounds: seq<Round>, i: nat)
    requires i < |rounds| && rounds[i].Failed?
    ensures Sent(first, daemon, rounds[..i + 1]) == Sent(first, daemon, rounds[..i]) + [Unreachable, ResetGeneration]
    ensures Sent(first, daemon, rounds[..i + 1]) <= Sent(first, daemon, rounds)
  {
    SentAt(first, daemon, rounds, i);
    CursorWhenFailed(rounds[..i]);
    assert Said(Cursor(rounds[..i]), Connected(rounds[..i]), rounds[i]) == [Unreachable, ResetGeneration];
  }

  lemma CountsPush(first: Pushed, daemon: nat, earlier: seq<Round>, r: Round)
    ensures var before, after := Sent(first, daemon, earlier), Sent(first, daemon, earlier + [r]);
      && Count(after, Unreachable) == Count(before, Unreachable) + (if r.Failed? then 1 else 0)
      && Count(after, ResetGeneration) == Count(before, ResetGeneration)
          + if r.Failed? || Restarted(Cursor(earlier), r.latest) then 1 else 0
  {
    CursorWhenFailed(earlier);
    SaidCounts(Cursor(earlier), Connected(earlier), r);
    hide Said, Sent, Restarted, Count, Connected, Cursor;
    SentUnfolds(first, daemon, earlier, r);
    var said := Said(Cursor(earlier), Connected(earlier), r);
    CountSum(Sent(first, daemon, earlier), said, Unreachable);
    CountSum(Sent(first, daemon, earlier), said, ResetGeneration);
  }

  /** And nothing else does: no other report of that kind, and no other reset than
      those after a restart that shows. */
  lemma {:induction false} EveryFailureReported(first: Pushed, daemon: nat, rounds: seq<Round>)
    ensures Count(Sent(first, daemon, rounds), Unreachable) == Failures(rounds)
    ensures Count(Sent(first, daemon, rounds), ResetGeneration) == Failures(rounds) + Restarts(rounds)
  {
    if rounds == [] {
      NoneCounted(PushedAs(first, daemon), Unreachable);
      NoneCounted(PushedAs(first, daemon), ResetGeneration);
    } else {
      hide Sent, Count, Cursor, Restarted;
      var earlier := rounds[..|rounds| - 1];
      var r := rounds[|rounds| - 1];
      assert earlier + [r] == rounds;
      EveryFailureReported(first, daemon, earlier);
      CountsPush(first, daemon, earlier, r);
    }
  }

  lemma CountSum(a: seq<Message>, b: seq<Message>, m: Message)
    ensures Count(a + b, m) == Count(a, m) + Count(b, m)
  {
  }

  lemma NoneCounted(ms: seq<Message>, m: Message)
    requires m !in ms
    ensures Count(ms, m) == 0
  {
  }

  lemma SaidCounts(since: Option<nat>, connected: bool, r: Round)
    requires !connected ==> since == None
    ensures Count(Said(since, connected, r), Unreachable) == if r.Failed? then 1 else 0
    ensures Count(Said(since, connected, r), ResetGeneration) ==
      if r.Failed? || Restarted(since, r.latest) then 1 else 0
  {
    if r.Failed? {
      assert Said(since, connected, r) == [Unreachable, ResetGeneration];
    } else {
      RepliedSays(since, connected, r);
      RestartSays(since, connected, r);
      NoneCounted(Said(since, connected, r), Unreachable);
      if Restarted(since, r.latest) {
        var s := PushedAs(r.onRestart, r.daemon) + Interpreted(r.events, r.daemon);
        hide Said, PushedAs, Interpreted;
        CountSum([ResetGeneration], s, ResetGeneration);
        NoneCounted(s, ResetGeneration);
      } else {
        NoneCounted(Said(since, connected, r), ResetGeneration);
      }
    }
  }

  lemma RepliedSays(since: Option<nat>, connected: bool, r: Round)
    requires r.Reply?
    ensures Unreachable !in Said(since, connected, r)
  {
    hide PushedAs, Interpreted;
    assert Unreachable !in (if connected then [] else [Reachable] + PushedAs(r.onConnect, r.daemon));
    assert Unreachable !in (if Restarted(since, r.latest) then [ResetGeneration] + PushedAs(r.onRestart, r.daemon) else []);
  }

  // ---- Two threads on one channel ----

  /** The message the highlight comes from. The widget's other thread posts to the
      same channel, so the messages here are those of both, in any order. */
  function ShownBy(ms: seq<Message>): Option<Message> {
    if ms == [] then None
    else
      var earlier := ms[..|ms| - 1];
      var m := ms[|ms| - 1];
      if (m.ModeIs? && Accepted(Shown(Display(None, None), earlier).last, m.update)) || Presses(m) then Some(m)
      else ShownBy(earlier)
  }

  function ModeIn(m: Message): Option<Mode> {
    match m
    case ModeIs(update, _) => Some(update.mode)
    case Show(mode, _) => Some(mode)
    case Pressed(mode) => Some(mode)
    case _ => None
  }

  lemma {:induction false} ShownByShows(ms: seq<Message>)
    ensures Shown(Display(None, None), ms).shown == if ShownBy(ms).Some? then ModeIn(ShownBy(ms).value) else None
  {
    if ms != [] { ShownByShows(ms[..|ms| - 1]); }
  }

  /** The announcements since the last reset, with the daemons they come from. */
  function Announced(ms: seq<Message>): (r: seq<Message>)
    ensures forall m | m in r :: m.ModeIs?
  {
    if ms == [] then []
    else match ms[|ms| - 1]
      case ResetGeneration => []
      case ModeIs(_, _) => Announced(ms[..|ms| - 1]) + [ms[|ms| - 1]]
      case _ => Announced(ms[..|ms| - 1])
  }

  lemma {:induction false} AnnouncedIsHeard(ms: seq<Message>)
    ensures |Announced(ms)| == |Heard(ms)|
    ensures forall k :: 0 <= k < |Heard(ms)| ==> Announced(ms)[k].ModeIs? && Announced(ms)[k].update == Heard(ms)[k]
  {
    if ms != [] { AnnouncedIsHeard(ms[..|ms| - 1]); }
  }

  lemma {:induction false} LastSinceReset(ms: seq<Message>)
    ensures Shown(Display(None, None), ms).last == Deliver(Display(None, None), Heard(ms)).last
  {
    if ms != [] {
      var earlier := ms[..|ms| - 1];
      LastSinceReset(earlier);
      if ms[|ms| - 1].ModeIs? {
        assert Heard(ms)[..|Heard(ms)| - 1] == Heard(earlier);
        assert Heard(ms)[|Heard(ms)| - 1] == ms[|ms| - 1].update;
      }
    }
  }

  /** What is accepted last is the first announcement of the greatest generation. */
  lemma {:induction false} ShownByNewest(ms: seq<Message>, k: int)
    requires Untouched(ms) && IsNewest(Heard(ms), k)
    ensures |Announced(ms)| == |Heard(ms)| && ShownBy(ms) == Some(Announced(ms)[k])
    decreases |ms|
  {
    AnnouncedIsHeard(ms);
    var earlier := ms[..|ms| - 1];
    var m := ms[|ms| - 1];
    LastSinceReset(earlier);
    if m.ModeIs? {
      ShownByAnother(earlier, m, k);
    } else {
      ShownByNewest(earlier, k);
    }
  }

  lemma HeardPush(earlier: seq<Message>, m: Message)
    requires m.ModeIs?
    ensures Heard(earlier + [m]) == Heard(earlier) + [m.update] && Announced(earlier + [m]) == Announced(earlier) + [m]
    ensures Untouched(earlier + [m]) ==> Untouched(earlier)
    ensures ShownBy(earlier + [m]) == if Accepted(Shown(Display(None, None), earlier).last, m.update) then Some(m) else ShownBy(earlier)
  {
    assert (earlier + [m])[..|earlier|] == earlier;
  }

  lemma ShownByAnother(earlier: seq<Message>, m: Message, k: int)
    requires m.ModeIs? && Untouched(earlier + [m]) && IsNewest(Heard(earlier + [m]), k)
    ensures |Announced(earlier + [m])| == |Heard(earlier + [m])| && ShownBy(earlier + [m]) == Some(Announced(earlier + [m])[k])
    decreases |earlier| + 1, 0
  {
    HeardPush(earlier, m);
    AnnouncedIsHeard(earlier);
    LastSinceReset(earlier);
    hide Heard, Announced, ShownBy, Untouched, Shown, Deliver;
    var before := Heard(earlier);
    assert (before + [m.update])[..|before + [m.update]| - 1] == before;
    if i :| Versioned(before, i) {
      NewestExists(before, i);
      var l :| IsNewest(before, l);
      NewestOfEarlier(before + [m.update], l, k);
      NewestShown(Display(None, None), before);
      ShownByNewest(earlier, l);
    } else {
      NewestShown(Display(None, None), before);
      assert !Versioned(before, k);
    }
  }

  /** The widget follows a daemon if and only if the greatest generation heard since
      the last reset was first announced by that daemon - whichever threads posted
      the announcements and in whatever order they came. */
  lemma FollowsIff(ms: seq<Message>, who: nat, i: nat)
    requires Untouched(ms) && Versioned(Heard(ms), i)
    ensures (exists u :: ShownBy(ms) == Some(ModeIs(u, who)))
      <==> exists k :: IsNewest(Heard(ms), k) && k < |Announced(ms)| && Announced(ms)[k].daemon == who
  {
    NewestExists(Heard(ms), i);
    var k :| IsNewest(Heard(ms), k);
    ShownByNewest(ms, k);
    AnnouncedIsHeard(ms);
    forall l | IsNewest(Heard(ms), l) ensures l == k {
      hide Heard;
    }
    assert Announced(ms)[k] == ModeIs(Announced(ms)[k].update, Announced(ms)[k].daemon);
  }

  /** Messages with no reset and no key press in them. */
  predicate Plain(ms: seq<Message>) {
    forall m | m in ms :: m != ResetGeneration && !Presses(m)
  }

  predicate Exceeds(m: Message, generation: nat) {
    m.ModeIs? && m.update.generation.Some? && m.update.generation.value > generation
  }

  lemma {:induction false} LateReplyStays(d: Display, late: ModeUpdate, from: nat, later: seq<Message>)
    requires late.generation.Some? && Plain(later) && d.last == None
    ensures var e := Shown(d, [ResetGeneration, ModeIs(late, from)] + later);
      && e.last.Some? && e.last.value >= late.generation.value
      && (if exists m :: m in later && Exceeds(m, late.generation.value)
          then e.last.value > late.generation.value else e == Display(late.generation, Some(late.mode)))
    decreases |later|
  {
    var ms := [ResetGeneration, ModeIs(late, from)] + later;
    if later == [] {
      assert ms[..1] == [ResetGeneration] && ms[..1][..0] == [];
      assert Shown(d, ms[..1]) == d;
    } else {
      var front, m := later[..|later| - 1], later[|later| - 1];
      assert later == front + [m];
      LateReplyStays(d, late, from, front);
      assert ms[..|ms| - 1] == [ResetGeneration, ModeIs(late, from)] + front;
      assert m in later && forall x :: x in later <==> x in front || x == m;
    }
  }

  /** A reply of the old daemon posted after the reset by the widget's other thread
      stays on screen, and in the tracker, if and only if nothing announced since
      has a greater generation: until then it shuts the new daemon out. */
  lemma LateReplyBlocksIff(d: Display, late: ModeUpdate, from: nat, later: seq<Message>)
    requires late.generation.Some? && Plain(later) && d.last == None
    ensures Shown(d, [ResetGeneration, ModeIs(late, from)] + later) == Display(late.generation, Some(late.mode))
      <==> !exists m :: m in later && Exceeds(m, late.generation.value)
  {
    LateReplyStays(d, late, from, later);
  }

  // ---- Outages ----

  /** How many times the calls began to fail. */
  function Outages(rounds: seq<Round>): nat {
    if rounds == [] then 0
    else
      var n := |rounds| - 1;
      Outages(rounds[..n]) + if rounds[n].Failed? && (n == 0 || rounds[n - 1].Reply?) then 1 else 0
  }

  predicate NeverTwice(rounds: seq<Round>) {
    forall i :: 0 < i < |rounds| ==> !(rounds[i - 1].Failed? && rounds[i].Failed?)
  }

  lemma {:induction false} OutagesOnce(rounds: seq<Round>)
    ensures Outages(rounds) <= Failures(rounds) && (Outages(rounds) == Failures(rounds) <==> NeverTwice(rounds))
    decreases |rounds|
  {
    if rounds != [] {
      var n := |rounds| - 1;
      var front := rounds[..n];
      OutagesOnce(front);
      assert forall i :: 0 <= i < n ==> front[i] == rounds[i];
      assert NeverTwice(rounds) <==> NeverTwice(front) && (n > 0 ==> !(rounds[n - 1].Failed? && rounds[n].Failed?));
    }
  }

  /** An outage is reported once, "not on every retry", if and only if it lasts for
      one call: over any run there are as many reports as outages exactly when no
      two failed calls follow one another. */
  lemma ReportedOnceIff(first: Pushed, daemon: nat, rounds: seq<Round>)
    ensures Count(Sent(first, daemon, rounds), Unreachable) == Outages(rounds) <==> NeverTwice(rounds)
  {
    EveryFailureReported(first, daemon, rounds);
    OutagesOnce(rounds);
  }
}
