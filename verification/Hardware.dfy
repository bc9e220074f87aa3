/** Two pieces of the app's hardware store: the coalescer that turns a dragged
    slider into one daemon call, and the fan curve's interpolation. */
module FanPush {
  import opened Basics

  /** What a write tells the daemon. */
  datatype Order = CpuManual(percent: nat) | CpuCurve(curve: nat) | GpuManual(percent: nat) | GpuCurve(curve: nat) | CpuMode(mode: nat)

  /** `id` is the write's place in the order of submission. */
  datatype Submission = Submission(id: nat, key: string, order: Order)

  datatype Sent = Coalesced(write: Submission) | Clicked(order: Order)

  /** The armed timer holds the write its callback will send. */
  datatype Pusher = Pusher(timer: Option<Submission>, pending: Option<Submission>, key: string, sent: seq<Sent>)

  const Idle := Pusher(None, None, "", [])

  datatype Event = Edit(write: Submission) | TimerFires | Flush | Click(order: Order)

  function Sending(p: Pusher, w: Option<Submission>): Pusher {
    if w.Some? then p.(sent := p.sent + [Coalesced(w.value)]) else p
  }

  function Next(p: Pusher, e: Event): Pusher {
    match e
    case Edit(w) =>
      var q := Sending(p, if p.key != w.key then p.pending else None);
      q.(timer := Some(w), pending := Some(w), key := w.key)
    case TimerFires => if p.timer == None then p else Sending(p, p.timer).(timer := None, pending := None)
    case Flush => Sending(p, p.pending).(timer := None, pending := None)
    case Click(order) => p.(sent := p.sent + [Clicked(order)])
  }

  class FanPusher {
    var timer: Option<Submission>
    var pending: Option<Submission>
    var pendingKey: string
    var sent: seq<Sent>

    function View(): Pusher
      reads this
    {
      Pusher(timer, pending, pendingKey, sent)
    }

    constructor ()
      ensures View() == Idle
    {
      timer, pending, pendingKey, sent := None, None, "", [];
    }

    method PushFan(s: Sent)
      modifies this`sent
      ensures sent == old(sent) + [s]
    {
      sent := sent + [s];
    }

    method PushFanSoon(w: Submission)
      modifies this
      ensures View() == Next(old(View()), Edit(w))
    {
      if timer.Some? { timer := None; }
      if pending.Some? && pendingKey != w.key {
        PushFan(Coalesced(pending.value));
      }
      pendingKey := w.key;
      pending := Some(w);
      timer := Some(w);
    }

    /** The timer's callback: it sends the write it was armed with. */
    method OnTimer()
      requires timer.Some?
      modifies this
      ensures View() == Next(old(View()), TimerFires)
    {
      var w := timer.value;
      timer := None;
      pending := None;
      PushFan(Coalesced(w));
    }

    method FlushNow()
      modifies this
      ensures View() == Next(old(View()), Flush)
    {
      if timer.Some? { timer := None; }
      if pending.Some? {
        var w := pending.value;
        pending := None;
        PushFan(Coalesced(w));
      }
    }
  }

  function Run(events: seq<Event>): Pusher {
    if events == [] then Idle else Next(Run(events[..|events| - 1]), events[|events| - 1])
  }

  function Submitted(events: seq<Event>): seq<Submission> {
    if events == [] then []
    else
      var e := events[|events| - 1];
      Submitted(events[..|events| - 1]) + if e.Edit? then [e.write] else []
  }

  ghost predicate Numbered(writes: seq<Submission>) {
    forall i :: 0 <= i < |writes| ==> writes[i].id == i
  }

  /** The coalesced writes among what was sent. */
  function SentWrites(sent: seq<Sent>): seq<Submission> {
    if sent == [] then []
    else
      var s := sent[|sent| - 1];
      SentWrites(sent[..|sent| - 1]) + if s.Coalesced? then [s.write] else []
  }

  /** The sent writes are some of the submitted ones, each once and in order. */
  ghost predicate InOrder(out: seq<Submission>, writes: seq<Submission>) {
    && (forall i :: 0 <= i < |out| ==> out[i].id < |writes| && out[i] == writes[out[i].id])
    && (forall i, j :: 0 <= i < j < |out| ==> out[i].id < out[j].id)
  }

  /** Submission `i` was replaced by the very next one, made under the same key. */
  predicate Superseded(writes: seq<Submission>, i: nat) {
    i + 1 < |writes| && writes[i + 1].key == writes[i].key
  }

  ghost predicate Accounted(p: Pusher, writes: seq<Submission>, i: nat)
    requires i < |writes|
  {
    writes[i] in SentWrites(p.sent) || p.pending == Some(writes[i]) || Superseded(writes, i)
  }

  ghost predicate Sound(p: Pusher, writes: seq<Submission>) {
    && p.timer == p.pending
    && (p.pending.Some? ==> |writes| > 0 && p.pending.value == writes[|writes| - 1] && p.key == p.pending.value.key
                            && p.pending.value !in SentWrites(p.sent))
    && InOrder(SentWrites(p.sent), writes)
    && (forall i :: 0 <= i < |writes| ==> Accounted(p, writes, i))
  }

  lemma SentPush(sent: seq<Sent>, s: Sent)
    ensures SentWrites(sent + [s]) == SentWrites(sent) + if s.Coalesced? then [s.write] else []
  {
    assert (sent + [s])[..|sent|] == sent;
  }

  lemma OrderMore(out: seq<Submission>, writes: seq<Submission>, w: Submission)
    requires InOrder(out, writes)
    ensures InOrder(out, writes + [w])
  {
  }

  /** The last submission may go out after all that went before. */
  lemma OrderSend(out: seq<Submission>, writes: seq<Submission>)
    requires InOrder(out, writes) && Numbered(writes) && writes != [] && writes[|writes| - 1] !in out
    ensures InOrder(out + [writes[|writes| - 1]], writes)
  {
    var w := writes[|writes| - 1];
    forall i | 0 <= i < |out| ensures out[i].id < w.id {
      assert out[i] in out;
    }
  }

  lemma SendPendingKeeps(p: Pusher, writes: seq<Submission>)
    requires Sound(p, writes) && Numbered(writes) && p.pending.Some?
    ensures Sound(Sending(p, p.pending).(timer := None, pending := None), writes)
  {
    SentPush(p.sent, Coalesced(p.pending.value));
    OrderSend(SentWrites(p.sent), writes);
    var q := Sending(p, p.pending).(timer := None, pending := None);
    hide SentWrites, InOrder;
    forall i | 0 <= i < |writes| ensures Accounted(q, writes, i) {
      assert Accounted(p, writes, i);
    }
  }

  lemma EditKeeps(p: Pusher, writes: seq<Submission>, w: Submission)
    requires Sound(p, writes) && Numbered(writes + [w])
    ensures Sound(Next(p, Edit(w)), writes + [w])
  {
    var all := writes + [w];
    assert w.id == |writes| by { assert all[|writes|] == w; }
    forall i | 0 <= i < |writes| ensures writes[i].id == i { assert all[i] == writes[i]; }
    var q := if p.pending.Some? && p.key != w.key then Sending(p, p.pending).(timer := None, pending := None) else p;
    if p.pending.Some? && p.key != w.key { SendPendingKeeps(p, writes); }
    OrderMore(SentWrites(q.sent), writes, w);
    var r := Next(p, Edit(w));
    assert r == q.(timer := Some(w), pending := Some(w), key := w.key);
    assert w !in SentWrites(q.sent);
    forall i | 0 <= i < |all| ensures Accounted(r, all, i) {
      if i < |writes| {
        assert Accounted(q, writes, i) && all[i] == writes[i];
        if q.pending == Some(writes[i]) { assert Superseded(all, i); }
        if Superseded(writes, i) { assert all[i + 1] == writes[i + 1]; }
      }
    }
  }

  lemma ClickKeeps(p: Pusher, writes: seq<Submission>, order: Order)
    requires Sound(p, writes)
    ensures Sound(Next(p, Click(order)), writes)
  {
    SentPush(p.sent, Clicked(order));
    assert SentWrites(p.sent) + [] == SentWrites(p.sent);
    var q := Next(p, Click(order));
    hide SentWrites, InOrder;
    forall i | 0 <= i < |writes| ensures Accounted(q, writes, i) {
      assert Accounted(p, writes, i);
    }
  }

  /** At every moment of every run: at most the newest write is pending; what was
      sent is in the order of submission with nothing sent twice; and every write
      is sent, pending, or was replaced by the next one under its key. */
  lemma {:induction false} EveryWriteAccounted(events: seq<Event>)
    requires Numbered(Submitted(events))
    ensures Sound(Run(events), Submitted(events))
    decreases |events|
  {
    hide Sound, Numbered;
    if events == [] {
      assert Sound(Idle, []) by { IdleSound(); }
    } else {
      var front := events[..|events| - 1];
      var e := events[|events| - 1];
      NumberedFront(Submitted(front), if e.Edit? then [e.write] else []);
      EveryWriteAccounted(front);
      var p := Run(front);
      assert Submitted(front) + [] == Submitted(front);
      match e
      case Edit(w) => EditKeeps(p, Submitted(front), w);
      case Click(order) => ClickKeeps(p, Submitted(front), order);
      case _ => SendKeeps(p, Submitted(front), e);
    }
  }

  lemma IdleSound()
    ensures Sound(Idle, [])
  {
  }

  lemma NumberedFront(a: seq<Submission>, b: seq<Submission>)
    requires Numbered(a + b)
    ensures Numbered(a)
  {
    forall i | 0 <= i < |a| ensures a[i].id == i { assert (a + b)[i] == a[i]; }
  }

  lemma SendKeeps(p: Pusher, writes: seq<Submission>, e: Event)
    requires Sound(p, writes) && Numbered(writes) && (e.TimerFires? || e.Flush?)
    ensures Sound(Next(p, e), writes) && Next(p, e).pending == None
  {
    if p.pending.Some? {
      SendPendingKeeps(p, writes);
    } else {
      assert Next(p, e) == p;
    }
  }

  /** Nothing waits after a flush: what was not sent was replaced. */
  lemma FlushLeavesNothing(events: seq<Event>, i: nat)
    requires Numbered(Submitted(events)) && i < |Submitted(events)|
    ensures var p := Next(Run(events), Flush);
      p.pending == None && (Submitted(events)[i] in SentWrites(p.sent) || Superseded(Submitted(events), i))
  {
    EveryWriteAccounted(events);
    SendKeeps(Run(events), Submitted(events), Flush);
    assert Accounted(Next(Run(events), Flush), Submitted(events), i);
  }

  // ---- Which writes are lost ----

  /** Two edits under one key with nothing but clicks between them. */
  predicate Replaces(events: seq<Event>, a: int, b: int) {
    && 0 <= a < b < |events| && events[a].Edit? && events[b].Edit?
    && events[a].write.key == events[b].write.key
    && forall k :: a < k < b ==> events[k].Click?
  }

  /** Write `i` is followed by another under its key before any timer or flush. */
  ghost predicate Replaced(events: seq<Event>, i: nat) {
    exists a, b :: Replaces(events, a, b) && events[a].write.id == i
  }

  /** Edit `a` is the last thing that happened, clicks aside. */
  predicate LastEdit(events: seq<Event>, a: int) {
    0 <= a < |events| && events[a].Edit? && forall k :: a < k < |events| ==> events[k].Click?
  }

  lemma ReplacesPush(events: seq<Event>, e: Event, a: int, b: int)
    ensures Replaces(events + [e], a, b) <==>
      Replaces(events, a, b) || (b == |events| && LastEdit(events, a) && e.Edit? && events[a].write.key == e.write.key)
  {
    var all := events + [e];
    assert forall k :: 0 <= k < |events| ==> all[k] == events[k];
    if Replaces(events, a, b) {
      assert forall k :: a < k < b ==> all[k].Click?;
    }
    if Replaces(all, a, b) {
      assert forall k :: a < k < b ==> events[k].Click?;
    }
    if b == |events| && LastEdit(events, a) {
      assert forall k :: a < k < b ==> all[k].Click?;
    }
  }

  lemma ReplacedPush(events: seq<Event>, e: Event, i: nat)
    ensures Replaced(events + [e], i) <==>
      || Replaced(events, i)
      || (e.Edit? && exists a :: LastEdit(events, a) && events[a].write.id == i && events[a].write.key == e.write.key)
  {
    var all := events + [e];
    assert forall k :: 0 <= k < |events| ==> all[k] == events[k];
    hide Replaces, LastEdit;
    forall a, b ensures Replaces(all, a, b) <==>
      Replaces(events, a, b) || (b == |events| && LastEdit(events, a) && e.Edit? && events[a].write.key == e.write.key)
    {
      ReplacesPush(events, e, a, b);
    }
    if Replaced(all, i) {
      var a, b :| Replaces(all, a, b) && all[a].write.id == i;
      EditsThere(events, a, b);
    }
    if Replaced(events, i) {
      var a, b :| Replaces(events, a, b) && events[a].write.id == i;
      EditsThere(events, a, b);
      assert Replaces(all, a, b);
    }
    if a :| e.Edit? && LastEdit(events, a) && events[a].write.id == i && events[a].write.key == e.write.key {
      EditsThere(events, a, |events|);
      assert Replaces(all, a, |events|);
    }
  }

  lemma EditsThere(events: seq<Event>, a: int, b: int)
    ensures Replaces(events, a, b) ==> 0 <= a < |events|
    ensures LastEdit(events, a) ==> 0 <= a < |events|
  {
  }

  lemma {:induction false} EditIsSubmitted(events: seq<Event>, a: nat)
    requires a < |events| && events[a].Edit?
    ensures events[a].write in Submitted(events)
    decreases |events|
  {
    if a < |events| - 1 { EditIsSubmitted(events[..|events| - 1], a); }
  }

  /** What waits is the last edit, as long as only clicks have followed it. */
  lemma {:induction false} WaitingIsLast(events: seq<Event>, w: Submission)
    ensures Run(events).pending == Some(w) <==> exists a :: LastEdit(events, a) && events[a].write == w
    ensures Run(events).timer == Run(events).pending
    decreases |events|
  {
    if events != [] {
      var front := events[..|events| - 1];
      var e := events[|events| - 1];
      WaitingIsLast(front, w);
      match e
      case Edit(x) =>
        assert LastEdit(events, |events| - 1);
        assert forall a :: LastEdit(events, a) ==> a == |events| - 1;
      case Click(_) =>
        assert forall a :: LastEdit(events, a) <==> LastEdit(front, a);
      case _ =>
        assert forall a :: !LastEdit(events, a);
    }
  }

  lemma SubmittedId(writes: seq<Submission>, w: Submission)
    requires Numbered(writes) && w in writes
    ensures w.id < |writes| && writes[w.id] == w
  {
    var k :| 0 <= k < |writes| && writes[k] == w;
  }

  /** Where write `i` is: sent, unless it waits or was replaced while it did. */
  ghost predicate Fate(p: Pusher, events: seq<Event>, i: nat)
    requires i < |Submitted(events)|
  {
    Submitted(events)[i] in SentWrites(p.sent) <==> p.pending != Some(Submitted(events)[i]) && !Replaced(events, i)
  }

  /** A last edit of that number is the write of that number. */
  lemma LastEditIs(events: seq<Event>, i: nat, key: string)
    requires Numbered(Submitted(events)) && i < |Submitted(events)|
    ensures (exists a :: LastEdit(events, a) && events[a].write.id == i && events[a].write.key == key)
      <==> Run(events).pending == Some(Submitted(events)[i]) && Submitted(events)[i].key == key
  {
    var w := Submitted(events)[i];
    WaitingIsLast(events, w);
    hide Numbered;
    if a :| LastEdit(events, a) && events[a].write.id == i && events[a].write.key == key {
      EditIsSubmitted(events, a);
      SubmittedId(Submitted(events), events[a].write);
    }
    assert w.id == i by { IdOf(Submitted(events), i); }
  }

  lemma IdOf(writes: seq<Submission>, i: nat)
    requires Numbered(writes) && i < |writes|
    ensures writes[i].id == i
  {
  }

  lemma SendFate(p: Pusher, front: seq<Event>, e: Event, i: nat)
    requires Sound(p, Submitted(front)) && Numbered(Submitted(front)) && (e.TimerFires? || e.Flush? || e.Click?)
    requires i < |Submitted(front)| && Fate(p, front, i) && Submitted(front + [e]) == Submitted(front)
    ensures Fate(Next(p, e), front + [e], i)
  {
    ReplacedPush(front, e, i);
    PendingNotReplaced(p, front, i);
    hide Replaced, Numbered, InOrder, Accounted, Submitted;
    if e.Click? { ClickSends(p, e.order); } else { WaiterSends(p, e); }
    hide SentWrites;
  }

  lemma ClickSends(p: Pusher, order: Order)
    ensures SentWrites(Next(p, Click(order)).sent) == SentWrites(p.sent) && Next(p, Click(order)).pending == p.pending
  {
    SentPush(p.sent, Clicked(order));
    assert SentWrites(p.sent) + [] == SentWrites(p.sent);
  }

  lemma WaiterSends(p: Pusher, e: Event)
    requires p.timer == p.pending && (e.TimerFires? || e.Flush?)
    ensures Next(p, e).pending == None
    ensures SentWrites(Next(p, e).sent) == SentWrites(p.sent) + if p.pending.Some? then [p.pending.value] else []
  {
    if p.pending.Some? {
      SentPush(p.sent, Coalesced(p.pending.value));
    } else {
      assert SentWrites(p.sent) + [] == SentWrites(p.sent);
    }
  }

  /** What waits has not been replaced. */
  lemma PendingNotReplaced(p: Pusher, events: seq<Event>, i: nat)
    requires Sound(p, Submitted(events)) && Numbered(Submitted(events)) && i < |Submitted(events)|
    ensures p.pending == Some(Submitted(events)[i]) ==> i == |Submitted(events)| - 1 && !Replaced(events, i)
  {
    IdOf(Submitted(events), i);
    IdOf(Submitted(events), |Submitted(events)| - 1);
    if Replaced(events, i) { ReplacedIsSuperseded(events, i); }
  }

  /** A new edit sends what waits under another key, and replaces it under its own. */
  lemma EditFate(p: Pusher, front: seq<Event>, w: Submission, i: nat)
    requires Sound(p, Submitted(front)) && Numbered(Submitted(front) + [w]) && p == Run(front)
    requires i < |Submitted(front)| && Fate(p, front, i) && Submitted(front + [Edit(w)]) == Submitted(front) + [w]
    ensures Fate(Next(p, Edit(w)), front + [Edit(w)], i)
  {
    var writes := Submitted(front);
    NumberedFront(writes, [w]);
    ReplacedPush(front, Edit(w), i);
    LastEditIs(front, i, w.key);
    PendingNotReplaced(p, front, i);
    if p.pending.Some? { SentPush(p.sent, Coalesced(p.pending.value)); }
    IdOf(writes, i);
    IdOf(writes + [w], |writes|);
    assert (writes + [w])[i] == writes[i] && writes[i] != w;
    hide Replaced, Numbered, LastEdit, Run, InOrder, Accounted, SentWrites, Submitted;
  }

  /** The new write itself waits, and has not been sent. */
  lemma NewFate(p: Pusher, front: seq<Event>, w: Submission)
    requires Sound(p, Submitted(front)) && Numbered(Submitted(front) + [w])
    requires Submitted(front + [Edit(w)]) == Submitted(front) + [w]
    ensures Fate(Next(p, Edit(w)), front + [Edit(w)], |Submitted(front)|)
  {
    EditKeeps(p, Submitted(front), w);
    hide Replaced;
  }

  lemma {:induction false} EveryFate(events: seq<Event>, i: nat)
    requires Numbered(Submitted(events)) && i < |Submitted(events)|
    ensures Fate(Run(events), events, i)
    decreases |events|
  {
    hide Sound, Numbered, Fate;
    if events != [] {
      var front := events[..|events| - 1];
      var e := events[|events| - 1];
      var more := if e.Edit? then [e.write] else [];
      assert front + [e] == events && Submitted(events) == Submitted(front) + more;
      NumberedFront(Submitted(front), more);
      EveryWriteAccounted(front);
      assert Submitted(front) + [] == Submitted(front);
      if i < |Submitted(front)| { EveryFate(front, i); }
      if e.Edit? {
        if i < |Submitted(front)| { EditFate(Run(front), front, e.write, i); } else { NewFate(Run(front), front, e.write); }
      } else {
        SendFate(Run(front), front, e, i);
      }
    }
  }

  lemma RunOf(events: seq<Event>, e: Event)
    ensures Run(events + [e]) == Next(Run(events), e)
    ensures Submitted(events + [e]) == Submitted(events) + if e.Edit? then [e.write] else []
  {
    assert (events + [e])[..|events|] == events;
  }

  /** A write is lost - not sent even by a flush at the end - if and only if the
      next edit came under its key before any timer or flush. */
  lemma NeverSentIff(events: seq<Event>, i: nat)
    requires Numbered(Submitted(events)) && i < |Submitted(events)|
    ensures Submitted(events)[i] !in SentWrites(Run(events + [Flush]).sent) <==> Replaced(events, i)
  {
    var w := Submitted(events)[i];
    RunOf(events, Flush);
    assert Submitted(events) + [] == Submitted(events);
    EveryWriteAccounted(events);
    SendKeeps(Run(events), Submitted(events), Flush);
    EveryFate(events + [Flush], i);
    ReplacedPush(events, Flush, i);
    hide Replaced, Run, SentWrites, Sound;
  }

  /** The key is per fan, not per order: a curve edit is lost to a manual speed
      set within its delay exactly as it is to another curve. */
  lemma CurveEditLost(events: seq<Event>, curve: nat, percent: nat)
    requires var n := |Submitted(events)|; Numbered(Submitted(events))
    ensures var n := |Submitted(events)|;
      var a, b := Submission(n, "", CpuCurve(curve)), Submission(n + 1, "", CpuManual(percent));
      var all := events + [Edit(a)] + [Edit(b)];
      Numbered(Submitted(all)) && a in Submitted(all) && a !in SentWrites(Run(all + [Flush]).sent)
  {
    var n := |Submitted(events)|;
    var a, b := Submission(n, "", CpuCurve(curve)), Submission(n + 1, "", CpuManual(percent));
    var one := events + [Edit(a)];
    var all := one + [Edit(b)];
    RunOf(events, Edit(a));
    RunOf(one, Edit(b));
    assert Replaces(all, |events|, |events| + 1) && all[|events|].write.id == n;
    assert Submitted(all)[n] == a;
    NeverSentIff(all, n);
  }

  // ---- Clicks ----

  /** The first thing to happen, clicks aside, is an edit under the key. */
  ghost predicate CutOff(after: seq<Event>, key: string) {
    exists b :: 0 <= b < |after| && after[b].Edit? && after[b].write.key == key && forall k :: 0 <= k < b ==> after[k].Click?
  }

  /** A write submitted before the click that goes out only after it. */
  ghost predicate Overtakes(before: Pusher, later: Pusher, n: nat) {
    exists w :: w in SentWrites(later.sent) && w !in SentWrites(before.sent) && w.id < n
  }

  lemma {:induction false} SubmittedSum(a: seq<Event>, b: seq<Event>)
    ensures Submitted(a) <= Submitted(a + b)
    decreases |b|
  {
    if b == [] {
      assert a + b == a;
    } else {
      SubmittedSum(a, b[..|b| - 1]);
      assert (a + b)[..|a + b| - 1] == a + b[..|b| - 1];
    }
  }

  lemma {:induction false} ReplacedIsSuperseded(events: seq<Event>, i: nat)
    requires Numbered(Submitted(events)) && Replaced(events, i)
    ensures i + 1 < |Submitted(events)|
    decreases |events|
  {
    var front := events[..|events| - 1];
    var e := events[|events| - 1];
    var more := if e.Edit? then [e.write] else [];
    assert front + [e] == events && Submitted(events) == Submitted(front) + more;
    NumberedFront(Submitted(front), more);
    ReplacedPush(front, e, i);
    if Replaced(front, i) {
      ReplacedIsSuperseded(front, i);
    } else {
      hide Replaced, Numbered;
      var a :| LastEdit(front, a) && front[a].write.id == i;
      EditIsSubmitted(front, a);
      SubmittedId(Submitted(front), front[a].write);
    }
  }

  predicate AllClicks(events: seq<Event>) {
    forall k :: 0 <= k < |events| ==> events[k].Click?
  }

  lemma CutOffPush(after: seq<Event>, e: Event, key: string)
    ensures CutOff(after + [e], key) <==> CutOff(after, key) || (AllClicks(after) && e.Edit? && e.write.key == key)
    ensures AllClicks(after + [e]) <==> AllClicks(after) && e.Click?
  {
    var all := after + [e];
    assert forall k :: 0 <= k < |after| ==> all[k] == after[k];
    if CutOff(after, key) {
      var b :| 0 <= b < |after| && after[b].Edit? && after[b].write.key == key && forall k :: 0 <= k < b ==> after[k].Click?;
      assert all[b].Edit? && forall k :: 0 <= k < b ==> all[k].Click?;
    }
    if CutOff(all, key) {
      var b :| 0 <= b < |all| && all[b].Edit? && all[b].write.key == key && forall k :: 0 <= k < b ==> all[k].Click?;
      assert forall k :: 0 <= k < b ==> after[k].Click?;
    }
    assert all[|after|] == e;
    if AllClicks(after) && e.Edit? && e.write.key == key {
      assert all[|after|].write.key == key && forall k :: 0 <= k < |after| ==> all[k].Click?;
    }
  }

  function WithClick(before: seq<Event>, order: Order, after: seq<Event>): seq<Event> {
    before + ([Click(order)] + after)
  }

  lemma PendingStep(p: Pusher, e: Event, w: Submission)
    requires p.timer == p.pending && (e.Edit? ==> e.write != w)
    ensures Next(p, e).pending == Some(w) <==> p.pending == Some(w) && e.Click?
  {
  }

  lemma NumberedAt(writes: seq<Submission>, w: Submission, earlier: seq<Submission>, x: Submission)
    requires Numbered(writes + [x]) && earlier <= writes && w in earlier
    ensures w != x && w.id < |earlier| && w == writes[w.id]
  {
    IdOf(writes + [x], |writes|);
    var k :| 0 <= k < |earlier| && earlier[k] == w;
    IdOf(writes + [x], k);
  }

  /** What waits at a click is replaced later exactly when it is cut off. */
  lemma {:induction false} ReplacedAfterClick(before: seq<Event>, order: Order, after: seq<Event>, w: Submission)
    requires Numbered(Submitted(WithClick(before, order, after))) && Run(before).pending == Some(w) && w in Submitted(before)
    ensures Replaced(WithClick(before, order, after), w.id) <==> CutOff(after, w.key)
    ensures Run(WithClick(before, order, after)).pending == Some(w) <==> AllClicks(after)
    decreases |after|
  {
    hide Replaced, CutOff, AllClicks, LastEdit, Run, Submitted, Numbered;
    if after == [] {
      NumberedBefore(before, order, after);
      AtTheClick(before, order, w);
    } else {
      var front := after[..|after| - 1];
      var e := after[|after| - 1];
      var earlier := WithClick(before, order, front);
      assert after == front + [e] && WithClick(before, order, after) == earlier + [e];
      RunOf(earlier, e);
      NumberedFront(Submitted(earlier), if e.Edit? then [e.write] else []);
      ReplacedAfterClick(before, order, front, w);
      WaitingIsLast(earlier, w);
      ReplacedPush(earlier, e, w.id);
      CutOffPush(front, e, w.key);
      if e.Edit? {
        SubmittedSum(before, [Click(order)] + front);
        NumberedAt(Submitted(earlier), w, Submitted(before), e.write);
        LastEditIs(earlier, w.id, e.write.key);
      }
      PendingStep(Run(earlier), e, w);
    }
  }

  lemma NumberedBefore(before: seq<Event>, order: Order, after: seq<Event>)
    requires Numbered(Submitted(WithClick(before, order, after)))
    ensures Numbered(Submitted(before)) && Submitted(before) <= Submitted(WithClick(before, order, after))
  {
    var all := WithClick(before, order, after);
    SubmittedSum(before, [Click(order)] + after);
    var rest := Submitted(all)[|Submitted(before)|..];
    assert Submitted(all) == Submitted(before) + rest;
    NumberedFront(Submitted(before), rest);
  }

  lemma AtTheClick(before: seq<Event>, order: Order, w: Submission)
    requires Numbered(Submitted(before)) && Run(before).pending == Some(w)
    ensures !Replaced(WithClick(before, order, []), w.id) && Run(WithClick(before, order, [])).pending == Some(w)
    ensures !CutOff([], w.key) && AllClicks([])
  {
    assert WithClick(before, order, []) == before + [Click(order)];
    RunOf(before, Click(order));
    ReplacedPush(before, Click(order), w.id);
    EveryWriteAccounted(before);
    IdOf(Submitted(before), |Submitted(before)| - 1);
    PendingNotReplaced(Run(before), before, w.id);
  }

  lemma ReplacedMore(a: seq<Event>, b: seq<Event>, i: nat)
    requires Replaced(a, i)
    ensures Replaced(a + b, i)
    decreases |b|
  {
    if b == [] {
      assert a + b == a;
    } else {
      ReplacedMore(a, b[..|b| - 1], i);
      assert a + b == a + b[..|b| - 1] + [b[|b| - 1]];
      ReplacedPush(a + b[..|b| - 1], b[|b| - 1], i);
    }
  }

  /** An order clicked for at once is followed by one given before it - a mode
      chosen last overridden by the speed set before - if and only if a write
      was waiting at the click and no edit under its key replaced it before the
      next timer or flush. */
  lemma ClickOvertakenIff(before: seq<Event>, order: Order, after: seq<Event>)
    requires Numbered(Submitted(WithClick(before, order, after)))
    ensures var p, q := Run(before), Run(WithClick(before, order, after) + [Flush]);
      && p.sent + [Clicked(order)] <= q.sent
      && (Overtakes(p, q, |Submitted(before)|) <==> p.pending.Some? && !CutOff(after, p.pending.value.key))
  {
    var all := WithClick(before, order, after);
    var p, q := Run(before), Run(all + [Flush]);
    SentThen(before, order, after);
    hide Replaced, CutOff, Run, SentWrites, Numbered, WithClick;
    NumberedBefore(before, order, after);
    if p.pending.Some? {
      var w := p.pending.value;
      WaiterSubmitted(before, w);
      ReplacedAfterClick(before, order, after, w);
      NeverSentIff(all, w.id);
    }
    if Overtakes(p, q, |Submitted(before)|) {
      var w :| w in SentWrites(q.sent) && w !in SentWrites(p.sent) && w.id < |Submitted(before)|;
      OvertakerWaited(before, order, after, w);
    }
  }

  lemma SentGrows(p: Pusher, e: Event)
    ensures p.sent <= Next(p, e).sent
  {
  }

  lemma {:induction false} SentExtends(a: seq<Event>, b: seq<Event>)
    ensures Run(a).sent <= Run(a + b).sent
    decreases |b|
  {
    hide Next, Run;
    if b == [] {
      assert a + b == a;
    } else {
      var front := b[..|b| - 1];
      SentExtends(a, front);
      assert a + b == a + front + [b[|b| - 1]];
      RunOf(a + front, b[|b| - 1]);
      SentGrows(Run(a + front), b[|b| - 1]);
    }
  }

  lemma SentThen(before: seq<Event>, order: Order, after: seq<Event>)
    ensures Run(before).sent + [Clicked(order)] <= Run(WithClick(before, order, after) + [Flush]).sent
  {
    RunOf(before, Click(order));
    SentExtends(before + [Click(order)], after + [Flush]);
    assert before + [Click(order)] + (after + [Flush]) == WithClick(before, order, after) + [Flush];
  }

  lemma WaiterSubmitted(before: seq<Event>, w: Submission)
    requires Numbered(Submitted(before)) && Run(before).pending == Some(w)
    ensures w in Submitted(before) && w.id < |Submitted(before)| && Submitted(before)[w.id] == w
    ensures w !in SentWrites(Run(before).sent)
  {
    EveryWriteAccounted(before);
    IdOf(Submitted(before), |Submitted(before)| - 1);
  }

  /** Only what was waiting at the click can be sent after it. */
  lemma OvertakerWaited(before: seq<Event>, order: Order, after: seq<Event>, w: Submission)
    requires Numbered(Submitted(WithClick(before, order, after))) && Numbered(Submitted(before))
    requires Submitted(before) <= Submitted(WithClick(before, order, after))
    requires w in SentWrites(Run(WithClick(before, order, after) + [Flush]).sent) && w !in SentWrites(Run(before).sent)
    requires w.id < |Submitted(before)|
    ensures Run(before).pending == Some(w)
  {
    hide Replaced, Run, SentWrites, Numbered, WithClick, Submitted;
    var all := WithClick(before, order, after);
    FlushedIsSubmitted(all, w);
    NeverSentIff(all, w.id);
    EveryFate(before, w.id);
    if Replaced(before, w.id) { ReplacedThen(before, order, after, w.id); }
  }

  lemma ReplacedThen(before: seq<Event>, order: Order, after: seq<Event>, i: nat)
    requires Replaced(before, i)
    ensures Replaced(WithClick(before, order, after), i)
  {
    ReplacedMore(before, [Click(order)] + after, i);
  }

  lemma FlushedIsSubmitted(events: seq<Event>, w: Submission)
    requires Numbered(Submitted(events)) && w in SentWrites(Run(events + [Flush]).sent)
    ensures w.id < |Submitted(events)| && Submitted(events)[w.id] == w
  {
    RunOf(events, Flush);
    assert Submitted(events) + [] == Submitted(events);
    EveryWriteAccounted(events + [Flush]);
    SentIsSubmitted(Run(events + [Flush]), Submitted(events), w);
  }

  lemma SentIsSubmitted(p: Pusher, writes: seq<Submission>, w: Submission)
    requires Sound(p, writes) && w in SentWrites(p.sent)
    ensures w.id < |writes| && writes[w.id] == w
  {
    var out := SentWrites(p.sent);
    var k :| 0 <= k < |out| && out[k] == w;
  }
}

module FanCurve {

  datatype Point = Point(tempC: real, percent: real)

  function Insert(p: Point, s: seq<Point>): seq<Point> {
    if s == [] || p.tempC <= s[0].tempC then [p] + s else [s[0]] + Insert(p, s[1..])
  }

  /** JavaScript's stable `sort` by temperature. */
  function Sort(s: seq<Point>): seq<Point> {
    if s == [] then [] else Insert(s[0], Sort(s[1..]))
  }

  predicate Ascending(s: seq<Point>) {
    forall i, j :: 0 <= i < j < |s| ==> s[i].tempC <= s[j].tempC
  }

  lemma ConsAscending(p: Point, t: seq<Point>)
    requires Ascending(t) && forall q | q in t :: p.tempC <= q.tempC
    ensures Ascending([p] + t)
  {
  }

  lemma {:induction false} InsertHolds(p: Point, s: seq<Point>)
    ensures multiset(Insert(p, s)) == multiset{p} + multiset(s) && |Insert(p, s)| == |s| + 1
    ensures forall x :: x in Insert(p, s) <==> x == p || x in s
    decreases |s|
  {
    if s != [] && p.tempC > s[0].tempC {
      InsertHolds(p, s[1..]);
      assert s == [s[0]] + s[1..];
    }
  }

  lemma FirstIsColdest(s: seq<Point>)
    requires Ascending(s) && s != []
    ensures Ascending(s[1..]) && forall q | q in s :: s[0].tempC <= q.tempC
    ensures forall q | q in s[1..] :: q in s
  {
  }

  lemma {:induction false} InsertSorts(p: Point, s: seq<Point>)
    requires Ascending(s)
    ensures Ascending(Insert(p, s)) && multiset(Insert(p, s)) == multiset{p} + multiset(s) && |Insert(p, s)| == |s| + 1
    decreases |s|
  {
    InsertHolds(p, s);
    if s != [] {
      FirstIsColdest(s);
      if p.tempC <= s[0].tempC {
        ConsAscending(p, s);
      } else {
        InsertSorts(p, s[1..]);
        InsertHolds(p, s[1..]);
        ConsAscending(s[0], Insert(p, s[1..]));
      }
    }
  }

  lemma {:induction false} SortSorts(s: seq<Point>)
    ensures Ascending(Sort(s)) && multiset(Sort(s)) == multiset(s) && |Sort(s)| == |s|
    decreases |s|
  {
    if s != [] {
      SortSorts(s[1..]);
      InsertSorts(s[0], Sort(s[1..]));
      assert s == [s[0]] + s[1..];
    }
  }

  /** The straight line through two points. */
  function Between(a: Point, b: Point, t: real): real
    requires a.tempC < b.tempC
  {
    a.percent + (t - a.tempC) / (b.tempC - a.tempC) * (b.percent - a.percent)
  }

  /** Segment `i` is the first whose upper end reaches `t`. */
  predicate FirstReaching(s: seq<Point>, i: nat, t: real) {
    i + 1 < |s| && s[i].tempC < t <= s[i + 1].tempC
  }

  /** What the curve asks for, told without a search: level outside its points,
      on a straight line between two neighbours inside. */
  ghost predicate Asks(s: seq<Point>, t: real, r: real) {
    if s == [] then r == 0.0
    else if t <= s[0].tempC then r == s[0].percent
    else if t >= s[|s| - 1].tempC then r == s[|s| - 1].percent
    else exists i: nat :: FirstReaching(s, i, t) && r == Between(s[i], s[i + 1], t)
  }

  lemma SortKeepsLength(curve: seq<Point>)
    ensures |Sort(curve)| == |curve|
  {
    SortSorts(curve);
  }

  lemma EndsAnswer(s: seq<Point>, t: real)
    requires s != []
    ensures t <= s[0].tempC ==> Asks(s, t, s[0].percent)
    ensures s[0].tempC < t && s[|s| - 1].tempC <= t ==> Asks(s, t, s[|s| - 1].percent)
  {
  }

  lemma SegmentAnswers(s: seq<Point>, i: nat, t: real)
    requires FirstReaching(s, i, t) && s[0].tempC < t < s[|s| - 1].tempC
    ensures Asks(s, t, Between(s[i], s[i + 1], t))
  {
    hide Between;
  }

  /** The search needs no guard: where a division happens the two temperatures
      differ, and it never falls through. */
  method CurveValueAt(curve: seq<Point>, t: real) returns (r: real)
    ensures Asks(Sort(curve), t, r)
  {
    if curve == [] { return 0.0; }
    SortKeepsLength(curve);
    hide Sort, Asks, Between;
    var sorted := Sort(curve);
    EndsAnswer(sorted, t);
    if t <= sorted[0].tempC { return sorted[0].percent; }
    var last := sorted[|sorted| - 1];
    if t >= last.tempC { return last.percent; }
    for i := 0 to |sorted| - 1
      invariant t > sorted[i].tempC
    {
      var a, b := sorted[i], sorted[i + 1];
      if t >= a.tempC && t <= b.tempC {
        SegmentAnswers(sorted, i, t);
        return Between(a, b, t);
      }
    }
    assert false;
    r := last.percent;
  }

  lemma SegmentsInOrder(s: seq<Point>, i: nat, j: nat, t: real, u: real)
    requires Ascending(s) && FirstReaching(s, i, t) && FirstReaching(s, j, u) && t <= u
    ensures i <= j
  {
  }

  /** There is only one such segment, and so only one answer. */
  lemma OneAnswer(s: seq<Point>, t: real, r: real, q: real)
    requires Ascending(s) && Asks(s, t, r) && Asks(s, t, q)
    ensures r == q
  {
    if s != [] && s[0].tempC < t < s[|s| - 1].tempC {
      var i: nat :| FirstReaching(s, i, t) && r == Between(s[i], s[i + 1], t);
      var j: nat :| FirstReaching(s, j, t) && q == Between(s[j], s[j + 1], t);
      SegmentsInOrder(s, i, j, t, t);
      SegmentsInOrder(s, j, i, t, t);
    }
  }

  lemma Divided(x: real, d: real)
    requires d > 0.0
    ensures d * (x / d) == x
  {
  }

  lemma PositiveMul(d: real, x: real)
    requires d > 0.0 && x > 0.0
    ensures d * x > 0.0
  {
  }

  lemma Ratio(a: real, b: real, t: real)
    requires a < b && a <= t <= b
    ensures 0.0 <= (t - a) / (b - a) <= 1.0
  {
    var d := b - a;
    var k := (t - a) / d;
    Divided(t - a, d);
    if k < 0.0 { PositiveMul(d, -k); }
    if k > 1.0 { PositiveMul(d, k - 1.0); }
  }

  lemma MulMono(k: real, a: real, b: real)
    requires k >= 0.0 && a <= b
    ensures k * a <= k * b
  {
  }

  /** A point between two others is no lower than the lower and no higher than the higher. */
  lemma BetweenBounds(a: Point, b: Point, t: real, low: real, high: real)
    requires a.tempC < b.tempC && a.tempC <= t <= b.tempC
    requires low <= a.percent <= high && low <= b.percent <= high
    ensures low <= Between(a, b, t) <= high
  {
    var k := (t - a.tempC) / (b.tempC - a.tempC);
    Ratio(a.tempC, b.tempC, t);
    MulMono(k, low - a.percent, b.percent - a.percent);
    MulMono(k, b.percent - a.percent, high - a.percent);
    Shrinks(k, low - a.percent);
    Shrinks(k, high - a.percent);
    assert k * (b.percent - a.percent) <= k * (high - a.percent) <= high - a.percent;
    assert low - a.percent <= k * (low - a.percent) <= k * (b.percent - a.percent);
  }

  lemma Shrinks(k: real, x: real)
    requires 0.0 <= k <= 1.0
    ensures x <= 0.0 ==> x <= k * x
    ensures x >= 0.0 ==> k * x <= x
  {
    if x >= 0.0 {
      MulMono(x, k, 1.0);
    } else {
      MulMono(-x, k, 1.0);
      assert -x * k == -(k * x);
    }
  }

  /** The curve never asks for less than its lowest point nor for more than its
      highest. */
  lemma WithinPoints(curve: seq<Point>, t: real, r: real, low: real, high: real)
    requires curve != [] && Asks(Sort(curve), t, r)
    requires forall p | p in curve :: low <= p.percent <= high
    ensures low <= r <= high
  {
    var s := Sort(curve);
    SortSorts(curve);
    forall i | 0 <= i < |s| ensures low <= s[i].percent <= high {
      assert s[i] in multiset(curve);
      assert s[i] in curve;
    }
    if s[0].tempC < t < s[|s| - 1].tempC {
      var i: nat :| FirstReaching(s, i, t) && r == Between(s[i], s[i + 1], t);
      BetweenBounds(s[i], s[i + 1], t, low, high);
    }
  }

  predicate Rising(s: seq<Point>) {
    forall i, j :: 0 <= i < j < |s| ==> s[i].percent <= s[j].percent
  }

  lemma BetweenRises(a: Point, b: Point, t: real, u: real)
    requires a.tempC < b.tempC && a.percent <= b.percent && t <= u
    ensures Between(a, b, t) <= Between(a, b, u)
  {
    var d := b.tempC - a.tempC;
    assert (t - a.tempC) / d <= (u - a.tempC) / d;
    MulMono(b.percent - a.percent, (t - a.tempC) / d, (u - a.tempC) / d);
  }

  /** What is asked lies between the two points around it. */
  lemma AskedBetween(s: seq<Point>, t: real, r: real) returns (i: nat)
    requires Ascending(s) && Rising(s) && Asks(s, t, r) && s != [] && s[0].tempC < t < s[|s| - 1].tempC
    ensures FirstReaching(s, i, t) && r == Between(s[i], s[i + 1], t) && s[i].percent <= r <= s[i + 1].percent
  {
    i :| FirstReaching(s, i, t) && r == Between(s[i], s[i + 1], t);
    BetweenBounds(s[i], s[i + 1], t, s[i].percent, s[i + 1].percent);
  }

  /** What is asked lies between the first and the last percent. */
  lemma AskedWithin(s: seq<Point>, t: real, r: real)
    requires Ascending(s) && Rising(s) && Asks(s, t, r) && s != []
    ensures s[0].percent <= r <= s[|s| - 1].percent
  {
    if s[0].tempC < t < s[|s| - 1].tempC {
      var i := AskedBetween(s, t, r);
      hide Asks, Ascending;
      assert s[0].percent <= s[i].percent && s[i + 1].percent <= s[|s| - 1].percent;
    }
  }

  lemma RisesInside(s: seq<Point>, t: real, u: real, r: real, q: real)
    requires Ascending(s) && Rising(s) && Asks(s, t, r) && Asks(s, u, q) && s != []
    requires s[0].tempC < t <= u < s[|s| - 1].tempC
    ensures r <= q
  {
    var i := AskedBetween(s, t, r);
    var j := AskedBetween(s, u, q);
    SegmentsInOrder(s, i, j, t, u);
    hide Asks, Ascending;
    if i == j { BetweenRises(s[i], s[i + 1], t, u); } else { assert s[i + 1].percent <= s[j].percent; }
  }

  /** Where the percents rise with the temperatures, so does what is asked. */
  lemma Monotone(curve: seq<Point>, t: real, u: real, r: real, q: real)
    requires Rising(Sort(curve)) && t <= u && Asks(Sort(curve), t, r) && Asks(Sort(curve), u, q)
    ensures r <= q
  {
    var s := Sort(curve);
    SortSorts(curve);
    hide Sort, Ascending, Rising;
    if s != [] {
      AskedWithin(s, t, r);
      AskedWithin(s, u, q);
      if s[0].tempC < t && u < s[|s| - 1].tempC { RisesInside(s, t, u, r, q); }
    }
  }

  // ---- The order the points are given in ----

  /** Points at one temperature agree. */
  ghost predicate Agreeing(s: seq<Point>) {
    forall p, q | p in s && q in s :: p.tempC == q.tempC ==> p == q
  }

  lemma FirstIsLeast(a: seq<Point>, b: seq<Point>)
    requires Ascending(a) && Ascending(b) && multiset(a) == multiset(b) && Agreeing(a) && a != []
    ensures b != [] && a[0] == b[0]
  {
    assert |multiset(a)| == |a| && |multiset(b)| == |b|;
    assert a[0] in multiset(b) && b[0] in multiset(a);
    assert a[0] in b && b[0] in a;
    var i :| 0 <= i < |b| && b[i] == a[0];
    var j :| 0 <= j < |a| && a[j] == b[0];
    assert b[0].tempC <= b[i].tempC && a[0].tempC <= a[j].tempC;
  }

  lemma WithoutHead(s: seq<Point>)
    requires s != []
    ensures multiset(s[1..]) == multiset(s) - multiset{s[0]}
    ensures Ascending(s) ==> Ascending(s[1..])
    ensures Agreeing(s) ==> Agreeing(s[1..])
  {
    assert s == [s[0]] + s[1..];
  }

  lemma SameLength(a: seq<Point>, b: seq<Point>)
    requires multiset(a) == multiset(b)
    ensures |a| == |b|
  {
    assert |multiset(a)| == |a| && |multiset(b)| == |b|;
  }

  lemma SameTails(a: seq<Point>, b: seq<Point>)
    requires multiset(a) == multiset(b) && a != [] && b != [] && a[0] == b[0]
    ensures multiset(a[1..]) == multiset(b[1..])
  {
    WithoutHead(a);
    WithoutHead(b);
    hide Ascending, Agreeing;
  }

  lemma {:induction false} SortedOnce(a: seq<Point>, b: seq<Point>)
    requires Ascending(a) && Ascending(b) && multiset(a) == multiset(b) && Agreeing(a)
    ensures a == b
    decreases |a|
  {
    hide Ascending, Agreeing;
    SameLength(a, b);
    if a != [] {
      FirstIsLeast(a, b);
      SameTails(a, b);
      WithoutHead(a);
      WithoutHead(b);
      var x, y := a[1..], b[1..];
      SortedOnce(x, y);
      assert a == [a[0]] + x && b == [b[0]] + y;
    }
  }

  /** The order in which the points were given does not matter as long as points
      at one temperature agree - in particular when the temperatures differ. */
  lemma OrderIgnored(curve: seq<Point>, other: seq<Point>, t: real, r: real, q: real)
    requires multiset(curve) == multiset(other) && Agreeing(curve)
    requires Asks(Sort(curve), t, r) && Asks(Sort(other), t, q)
    ensures r == q
  {
    SortSorts(curve);
    SortSorts(other);
    var s := Sort(curve);
    forall p, q | p in s && q in s && p.tempC == q.tempC ensures p == q {
      assert p in multiset(s) && q in multiset(s);
      assert p in curve && q in curve;
    }
    SortedOnce(s, Sort(other));
    OneAnswer(s, t, r, q);
  }

  /** `s` answers with `p` at the temperature of `p`: `p` is the first of its
      temperature, or the last and that temperature the highest. */
  ghost predicate Leads(s: seq<Point>, p: Point) {
    exists i :: 0 <= i < |s| && s[i] == p && forall j :: 0 <= j < i ==> s[j].tempC < p.tempC
  }

  lemma {:induction false} InsertLeads(p: Point, s: seq<Point>)
    requires Ascending(s)
    ensures Leads(Insert(p, s), p)
    decreases |s|
  {
    var t := Insert(p, s);
    if s == [] || p.tempC <= s[0].tempC {
      assert t[0] == p;
    } else {
      InsertLeads(p, s[1..]);
      var u := Insert(p, s[1..]);
      var i :| 0 <= i < |u| && u[i] == p && forall j :: 0 <= j < i ==> u[j].tempC < p.tempC;
      assert t == [s[0]] + u;
      forall j | 0 <= j < i + 1 ensures t[j].tempC < p.tempC {
        if j > 0 { assert t[j] == u[j - 1]; }
      }
      assert t[i + 1] == p;
    }
  }

  /** A curve that is given `p` first asks for its percent there, unless others
      of its temperature, the highest, come after it. */
  lemma FirstGivenWins(p: Point, rest: seq<Point>)
    requires var s := Sort([p] + rest); p.tempC < s[|s| - 1].tempC || p.tempC <= s[0].tempC
    ensures Asks(Sort([p] + rest), p.tempC, p.percent)
  {
    assert ([p] + rest)[1..] == rest;
    SortSorts(rest);
    SortSorts([p] + rest);
    InsertLeads(p, Sort(rest));
    hide Sort, Leads, Asks;
    LeaderDecides(Sort([p] + rest), p);
  }

  lemma LeaderDecides(s: seq<Point>, p: Point)
    requires Ascending(s) && Leads(s, p) && (p.tempC < s[|s| - 1].tempC || p.tempC <= s[0].tempC)
    ensures Asks(s, p.tempC, p.percent)
  {
    var i :| 0 <= i < |s| && s[i] == p && forall j :: 0 <= j < i ==> s[j].tempC < p.tempC;
    if i > 0 {
      AtTheEnd(s[i - 1], p);
      hide Between, Ascending;
      assert s[0].tempC < p.tempC;
      assert FirstReaching(s, i - 1, p.tempC);
    }
  }

  lemma AtTheEnd(a: Point, b: Point)
    requires a.tempC < b.tempC
    ensures Between(a, b, b.tempC) == b.percent
  {
    var d := b.tempC - a.tempC;
    assert d / d == 1.0;
  }

  lemma {:induction false} HottestStaysLast(p: Point, x: Point, s: seq<Point>)
    requires s != [] && s[|s| - 1] == p && x.tempC <= p.tempC
    ensures var t := Insert(x, s); t[|t| - 1] == p
    decreases |s|
  {
    if x.tempC > s[0].tempC {
      HottestStaysLast(p, x, s[1..]);
    }
  }

  /** Given last, a point of the highest temperature is last after sorting. */
  lemma {:induction false} HottestGivenLast(p: Point, rest: seq<Point>)
    requires forall q | q in rest :: q.tempC <= p.tempC
    ensures var s := Sort(rest + [p]); s != [] && s[|s| - 1] == p
    decreases |rest|
  {
    var all := rest + [p];
    if rest == [] {
      assert all == [p] && [p][1..] == [];
    } else {
      assert all[1..] == rest[1..] + [p];
      HottestGivenLast(p, rest[1..]);
      HottestStaysLast(p, rest[0], Sort(all[1..]));
    }
  }

  lemma TakenOut(curve: seq<Point>, p: Point) returns (rest: seq<Point>)
    requires p in curve
    ensures multiset([p] + rest) == multiset(curve) && multiset(rest + [p]) == multiset(curve)
  {
    var k :| 0 <= k < |curve| && curve[k] == p;
    rest := curve[..k] + curve[k + 1..];
    assert curve == curve[..k] + [p] + curve[k + 1..];
  }

  /** A point that is neither the coldest nor below the hottest decides if given last. */
  lemma LastGivenWins(p: Point, rest: seq<Point>)
    requires var s := Sort([p] + rest); s != [] && s[0].tempC < p.tempC && s[|s| - 1].tempC <= p.tempC
    ensures Asks(Sort(rest + [p]), p.tempC, p.percent)
  {
    var first, last := [p] + rest, rest + [p];
    SortSorts(first);
    SortSorts(last);
    var s, t := Sort(first), Sort(last);
    assert multiset(first) == multiset(last);
    hide Sort;
    forall q | q in rest ensures q.tempC <= p.tempC {
      assert q in multiset(first);
      AscendingEnds(s, q);
    }
    HottestGivenLast(p, rest);
    ColdestStays(s, t);
    hide Ascending;
    EndsAnswer(t, p.tempC);
  }

  /** Some order of the points has `p` decide at its temperature. */
  lemma SomeOrderAsks(curve: seq<Point>, p: Point) returns (order: seq<Point>)
    requires p in curve
    ensures multiset(order) == multiset(curve) && Asks(Sort(order), p.tempC, p.percent)
  {
    hide Asks, Sort;
    var rest := TakenOut(curve, p);
    var s := Sort([p] + rest);
    SortKeepsLength([p] + rest);
    if p.tempC < s[|s| - 1].tempC || p.tempC <= s[0].tempC {
      FirstGivenWins(p, rest);
      order := [p] + rest;
    } else {
      LastGivenWins(p, rest);
      order := rest + [p];
    }
  }

  lemma AscendingEnds(s: seq<Point>, q: Point)
    requires Ascending(s) && q in multiset(s)
    ensures s[0].tempC <= q.tempC <= s[|s| - 1].tempC
  {
    var k :| 0 <= k < |s| && s[k] == q;
  }

  lemma ColdestStays(s: seq<Point>, t: seq<Point>)
    requires Ascending(s) && Ascending(t) && multiset(s) == multiset(t) && s != []
    ensures t != [] && t[0].tempC <= s[0].tempC
  {
    assert s[0] in multiset(t);
    AscendingEnds(t, s[0]);
  }

  /** The curve always asks for something. */
  lemma AsksSomething(curve: seq<Point>, t: real) returns (r: real)
    ensures Asks(Sort(curve), t, r)
  {
    var s := Sort(curve);
    SortSorts(curve);
    if s == [] {
      r := 0.0;
    } else if t <= s[0].tempC {
      r := s[0].percent;
    } else if t >= s[|s| - 1].tempC {
      r := s[|s| - 1].percent;
    } else {
      var i: nat := 0;
      while !(t <= s[i + 1].tempC)
        invariant i + 1 < |s| && s[i].tempC < t
        decreases |s| - i
      {
        i := i + 1;
      }
      assert FirstReaching(s, i, t);
      r := Between(s[i], s[i + 1], t);
    }
  }

  ghost predicate OrderFree(curve: seq<Point>) {
    forall other, t, r, q | multiset(curve) == multiset(other) && Asks(Sort(curve), t, r) && Asks(Sort(other), t, q) :: r == q
  }

  /** Exactly when the order of the points does not matter: for no other curve
      than one whose points agree wherever they share a temperature. */
  lemma OrderIgnoredIff(curve: seq<Point>)
    ensures OrderFree(curve) <==> Agreeing(curve)
  {
    hide Sort, Asks;
    if Agreeing(curve) {
      forall other, t, r, q | multiset(curve) == multiset(other) && Asks(Sort(curve), t, r) && Asks(Sort(other), t, q)
        ensures r == q
      {
        OrderIgnored(curve, other, t, r, q);
      }
    } else {
      var p, q :| p in curve && q in curve && p.tempC == q.tempC && p != q;
      var r := AsksSomething(curve, p.tempC);
      var first := SomeOrderAsks(curve, p);
      var second := SomeOrderAsks(curve, q);
      assert p.percent != q.percent;
    }
  }

  /** The answer lies on the straight line through the points on both sides. */
  predicate OnLine(s: seq<Point>, i: nat, t: real, r: real) {
    && i + 1 < |s| && s[i].tempC < t <= s[i + 1].tempC
    && (r - s[i].percent) * (s[i + 1].tempC - s[i].tempC) == (t - s[i].tempC) * (s[i + 1].percent - s[i].percent)
  }

  lemma BetweenIsOnLine(a: Point, b: Point, t: real)
    requires a.tempC < b.tempC
    ensures (Between(a, b, t) - a.percent) * (b.tempC - a.tempC) == (t - a.tempC) * (b.percent - a.percent)
  {
    Proportion(t - a.tempC, b.tempC - a.tempC, b.percent - a.percent);
  }

  lemma Proportion(x: real, d: real, y: real)
    requires d > 0.0
    ensures x / d * y * d == x * y
  {
    var q := x / d;
    assert q * d == x;
    assert q * y * d == q * d * y;
  }

  /** What the curve asks for, in terms of its points in order: level outside them,
      and between two neighbours on the straight line. */
  lemma StraightLines(curve: seq<Point>, t: real, r: real)
    requires Asks(Sort(curve), t, r)
    ensures curve == [] ==> r == 0.0
    ensures var s := Sort(curve);
      && multiset(s) == multiset(curve) && Ascending(s) && |s| == |curve|
      && (curve != [] ==>
            && (t <= s[0].tempC ==> r == s[0].percent)
            && (t > s[0].tempC && t >= s[|s| - 1].tempC ==> r == s[|s| - 1].percent)
            && (s[0].tempC < t < s[|s| - 1].tempC ==> exists i: nat :: OnLine(s, i, t, r)))
  {
    hide Sort, Between, OnLine;
    SortSorts(curve);
    var s := Sort(curve);
    if s != [] && s[0].tempC < t < s[|s| - 1].tempC { AskedOnLine(s, t, r); }
  }

  lemma AskedOnLine(s: seq<Point>, t: real, r: real)
    requires Asks(s, t, r) && s != [] && s[0].tempC < t < s[|s| - 1].tempC
    ensures exists i: nat :: OnLine(s, i, t, r)
  {
    hide Between;
    var i: nat :| FirstReaching(s, i, t) && r == Between(s[i], s[i + 1], t);
    BetweenIsOnLine(s[i], s[i + 1], t);
    assert OnLine(s, i, t, r);
  }

  /** At the temperature of a point the curve asks for that point's percent, unless
      another point at the same temperature says otherwise. */
  lemma AtItsPoints(curve: seq<Point>, p: Point, r: real)
    requires p in curve && Asks(Sort(curve), p.tempC, r)
    requires forall q | q in curve && q.tempC == p.tempC :: q.percent == p.percent
    ensures r == p.percent
  {
    hide Sort, Between, Asks;
    var s := Sort(curve);
    SortSorts(curve);
    assert p in multiset(s);
    forall q | q in s && q.tempC == p.tempC ensures q.percent == p.percent {
      assert q in multiset(curve);
    }
    AskedAtPoint(s, p, r);
  }

  lemma AskedAtPoint(s: seq<Point>, p: Point, r: real)
    requires Ascending(s) && p in s && Asks(s, p.tempC, r)
    requires forall q | q in s && q.tempC == p.tempC :: q.percent == p.percent
    ensures r == p.percent
  {
    hide Between;
    var k :| 0 <= k < |s| && s[k] == p;
    if s[0].tempC < p.tempC < s[|s| - 1].tempC {
      var i: nat :| FirstReaching(s, i, p.tempC) && r == Between(s[i], s[i + 1], p.tempC);
      assert i < k;
      assert s[i + 1].tempC == p.tempC;
      AtTheEnd(s[i], s[i + 1]);
    }
  }
}
