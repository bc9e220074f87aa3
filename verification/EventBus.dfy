/**
 * The daemon's event bus: a bounded ring that drops old events, the long poll
 * clients read it with, and the in-process listeners that miss nothing.
 */
module EventBus {
  import opened Basics

  const CAPACITY: nat := 64
  /** The longest a poll waits, in milliseconds. */
  const MAX_WAIT: nat := 60000
  /** What a client gets that does not ask for a particular wait. */
  const DEFAULT_WAIT: nat := 25000

  datatype Event = Event(seqNo: nat, topic: string, payload: string)

  /** One answer: the cursor to come back with, the events, and how many were lost. */
  datatype Batch = Batch(cursor: nat, events: seq<Event>, missed: nat)

  /** A request's parameter: missing or null, a count, or anything else. */
  datatype Param = Absent | Number(value: nat) | Other

  datatype NextReply = Answer(batch: Batch) | InvalidParams(name: string)

  datatype Ring = Ring(events: seq<Event>, latest: nat, oldest: nat)

  /** The newest CAPACITY of the events. */
  function Newest(events: seq<Event>): (r: seq<Event>)
    ensures |r| == Min(|events|, CAPACITY)
  {
    if |events| <= CAPACITY then events else events[|events| - CAPACITY..]
  }

  lemma NewestIsSuffix(events: seq<Event>)
    ensures Newest(events) == events[|events| - Min(|events|, CAPACITY)..]
  {
  }

  /** The ring after one more event. */
  function Pushed(r: Ring, topic: string, payload: string): Ring {
    var events := r.events + [Event(r.latest + 1, topic, payload)];
    Ring(Newest(events), r.latest + 1,
      if |events| <= CAPACITY then r.oldest else events[|events| - CAPACITY - 1].seqNo)
  }

  function After(events: seq<Event>, since: nat): seq<Event> {
    if events == [] then []
    else (if events[0].seqNo > since then [events[0]] else []) + After(events[1..], since)
  }

  /** `batch`; with nothing newer than `since` this is the empty answer too. */
  function BatchOf(r: Ring, since: nat): Batch {
    Batch(r.latest, After(r.events, since), Max(0, r.oldest - since))
  }

  /** The ring holds exactly the last CAPACITY of everything published. */
  ghost predicate RingFits(r: Ring, all: seq<Event>) {
    && r.latest == |all|
    && (forall k | 0 <= k < |all| :: all[k].seqNo == k + 1)
    && r.oldest == Max(0, |all| - CAPACITY)
    && r.events == all[r.oldest..]
  }

  lemma PushKeepsRing(r: Ring, all: seq<Event>, topic: string, payload: string)
    requires RingFits(r, all)
    ensures RingFits(Pushed(r, topic, payload), all + [Event(|all| + 1, topic, payload)])
    ensures |Pushed(r, topic, payload).events| <= CAPACITY
  {
  }

  /** What happens on the bus while a poll waits. */
  datatype Wake = Wake(elapsed: nat, publishes: seq<(string, string)>)

  function PushedAll(r: Ring, publishes: seq<(string, string)>): Ring {
    if publishes == [] then r
    else
      var last := publishes[|publishes| - 1];
      Pushed(PushedAll(r, publishes[..|publishes| - 1]), last.0, last.1)
  }

  function PublishedBy(wakes: seq<Wake>): seq<(string, string)> {
    if wakes == [] then [] else PublishedBy(wakes[..|wakes| - 1]) + wakes[|wakes| - 1].publishes
  }

  /** How long a wait has lasted after these interruptions. */
  function Elapsed(wakes: seq<Wake>): nat {
    if wakes == [] then 0 else Elapsed(wakes[..|wakes| - 1]) + wakes[|wakes| - 1].elapsed
  }

  class Bus {
    var events: seq<Event>
    var latest: nat
    var oldest: nat
    /** What each in-process listener has been called with, in call order. */
    var heard: seq<seq<(string, string)>>
    ghost var all: seq<Event>

    function View(): Ring
      reads this
    {
      Ring(events, latest, oldest)
    }

    ghost predicate Valid()
      reads this
    {
      RingFits(View(), all)
    }

    constructor ()
      ensures Valid() && all == [] && heard == []
    {
      events, latest, oldest, heard, all := [], 0, 0, [], [];
    }

    /** `subscribe`. */
    method Subscribe()
      modifies this`heard
      ensures heard == old(heard) + [[]]
    {
      heard := heard + [[]];
    }

    /** The first half of `publish`, under the ring lock. */
    method Push(topic: string, payload: string) returns (seqNo: nat)
      requires Valid()
      modifies this`events, this`latest, this`oldest, this`all
      ensures Valid() && View() == Pushed(old(View()), topic, payload)
      ensures all == old(all) + [Event(seqNo, topic, payload)] && seqNo == latest == old(latest) + 1
    {
      PushKeepsRing(View(), all, topic, payload);
      hide RingFits, Newest;
      latest := latest + 1;
      events := events + [Event(latest, topic, payload)];
      ghost var full, cut := events, 0;
      while |events| > CAPACITY
        invariant latest == old(latest) + 1 && all == old(all)
        invariant 0 <= cut <= |full| && events == full[cut..]
        invariant cut > 0 ==> |events| >= CAPACITY
        invariant oldest == if cut == 0 then old(oldest) else full[cut - 1].seqNo
      {
        assert full[cut..][1..] == full[cut + 1..];
        oldest := events[0].seqNo;
        events := events[1..];
        cut := cut + 1;
      }
      assert cut == |full| - Min(|full|, CAPACITY);
      NewestIsSuffix(full);
      all := all + [Event(latest, topic, payload)];
      seqNo := latest;
    }

    /** `publish`: into the ring, then to every listener there is. */
    method Publish(topic: string, payload: string) returns (seqNo: nat)
      requires Valid()
      modifies this
      ensures Valid() && View() == Pushed(old(View()), topic, payload)
      ensures all == old(all) + [Event(seqNo, topic, payload)]
      ensures |heard| == |old(heard)|
      ensures forall l | 0 <= l < |heard| :: heard[l] == old(heard)[l] + [(topic, payload)]
    {
      seqNo := Push(topic, payload);
      for l := 0 to |heard|
        invariant |heard| == |old(heard)|
        invariant forall m | 0 <= m < l :: heard[m] == old(heard)[m] + [(topic, payload)]
        invariant forall m | l <= m < |heard| :: heard[m] == old(heard)[m]
        invariant Valid() && View() == Pushed(old(View()), topic, payload)
        invariant all == old(all) + [Event(seqNo, topic, payload)]
      {
        heard := heard[l := heard[l] + [(topic, payload)]];
      }
    }

    /** Other threads publish, one after the other. */
    method PushEach(publishes: seq<(string, string)>)
      requires Valid()
      modifies this`events, this`latest, this`oldest, this`all
      ensures Valid() && View() == PushedAll(old(View()), publishes)
    {
      for p := 0 to |publishes|
        invariant Valid()
        invariant View() == PushedAll(old(View()), publishes[..p])
      {
        var _ := Push(publishes[p].0, publishes[p].1);
        assert publishes[..p + 1][..p] == publishes[..p];
      }
      assert publishes[..|publishes|] == publishes;
    }

    /** `read_since`: answers as soon as something is newer than `since`, or
        when the wait is over. `wakes` is what the wait is interrupted by; each
        lets some time pass and some events through. Whatever ends the wait,
        the answer is the batch of the ring at that moment. */
    method ReadSince(since: nat, timeout: nat, wakes: seq<Wake>) returns (batch: Batch, woken: nat)
      requires Valid()
      modifies this`events, this`latest, this`oldest, this`all
      ensures Valid() && woken <= |wakes|
      ensures View() == PushedAll(old(View()), PublishedBy(wakes[..woken]))
      ensures batch == BatchOf(View(), since)
      ensures forall k | 0 <= k < woken :: PushedAll(old(View()), PublishedBy(wakes[..k])).latest <= since
      ensures forall k | 0 <= k < woken :: Elapsed(wakes[..k]) < Min(timeout, MAX_WAIT)
      ensures latest <= since ==> woken == |wakes| || Elapsed(wakes[..woken]) >= Min(timeout, MAX_WAIT)
    {
      hide RingFits, PushedAll, Pushed, BatchOf;
      var limit := Min(timeout, MAX_WAIT);
      var now := 0;
      woken := 0;
      assert wakes[..0] == [];
      PushedNone(View());
      while true
        invariant Valid() && woken <= |wakes|
        invariant View() == PushedAll(old(View()), PublishedBy(wakes[..woken]))
        invariant forall k | 0 <= k < woken :: PushedAll(old(View()), PublishedBy(wakes[..k])).latest <= since
        invariant forall k | 0 <= k < woken :: Elapsed(wakes[..k]) < limit
        invariant woken < |wakes| ==> now == Elapsed(wakes[..woken])
        invariant now >= limit ==> woken == |wakes| || Elapsed(wakes[..woken]) >= limit
        decreases |wakes| - woken, limit - now
      {
        if latest > since {
          return BatchOf(View(), since), woken;
        }
        if now >= limit {
          NothingAfter(View(), all, since);
          return Batch(latest, [], 0), woken;
        }
        if woken == |wakes| {
          now := limit;
        } else {
          assert wakes[..woken + 1][..woken] == wakes[..woken];
          var publishes := wakes[woken].publishes;
          PushEach(publishes);
          PushedAllJoins(old(View()), PublishedBy(wakes[..woken]), publishes);
          now := now + wakes[woken].elapsed;
          woken := woken + 1;
        }
      }
    }

    /** `next_event`: a poll that names no cursor starts from the newest event
        there is; `between` is what is published before the wait begins. */
    method NextEvent(since: Param, timeoutMs: Param, between: seq<(string, string)>, wakes: seq<Wake>)
      returns (reply: NextReply, woken: nat)
      requires Valid()
      modifies this`events, this`latest, this`oldest, this`all
      ensures Valid() && woken <= |wakes|
      ensures since.Other? ==> reply == InvalidParams("since")
      ensures !since.Other? && timeoutMs.Other? ==> reply == InvalidParams("timeoutMs")
      ensures reply.InvalidParams? ==> View() == old(View()) && (since.Other? || timeoutMs.Other?)
      ensures reply.Answer? ==> View() == PushedAll(old(View()), between + PublishedBy(wakes[..woken]))
      ensures reply.Answer? && since.Number? ==> reply.batch == BatchOf(View(), since.value)
      ensures reply.Answer? && since.Absent? ==> reply.batch == BatchOf(View(), old(latest))
      ensures reply.Answer? && latest <= (if since.Number? then since.value else old(latest)) ==>
        woken == |wakes| || Elapsed(wakes[..woken]) >= if timeoutMs.Number? then Min(timeoutMs.value, 60000) else 25000
      ensures reply.Answer? ==>
        forall k | 0 <= k < woken :: Elapsed(wakes[..k]) < if timeoutMs.Number? then Min(timeoutMs.value, 60000) else 25000
    {
      hide RingFits, PushedAll, Pushed, BatchOf, PublishedBy;
      woken := 0;
      if since.Other? { return InvalidParams("since"), woken; }
      var from := if since.Absent? then latest else since.value;
      if timeoutMs.Other? { return InvalidParams("timeoutMs"), woken; }
      var timeout := if timeoutMs.Absent? then DEFAULT_WAIT else timeoutMs.value;
      PushEach(between);
      ghost var begun := View();
      var batch;
      batch, woken := ReadSince(from, timeout, wakes);
      PushedAllJoins(old(View()), between, PublishedBy(wakes[..woken]));
      reply := Answer(batch);
    }
  }

  lemma PushedNone(r: Ring)
    ensures PushedAll(r, []) == r
  {
  }

  lemma {:induction false} PushedAllJoins(r: Ring, a: seq<(string, string)>, b: seq<(string, string)>)
    ensures PushedAll(r, a + b) == PushedAll(PushedAll(r, a), b)
    decreases |b|
  {
    if b == [] {
      assert a + b == a;
    } else {
      assert (a + b)[..|a + b| - 1] == a + b[..|b| - 1];
      PushedAllJoins(r, a, b[..|b| - 1]);
    }
  }

  // ---- What a batch holds ----

  lemma AfterHead(all: seq<Event>, lo: nat, since: nat)
    requires lo < |all|
    ensures After(all[lo..], since) == (if all[lo].seqNo > since then [all[lo]] else []) + After(all[lo + 1..], since)
  {
    assert all[lo..][1..] == all[lo + 1..];
  }

  lemma {:induction false} AfterAll(all: seq<Event>, lo: nat, since: nat)
    requires since <= lo <= |all| && forall k | 0 <= k < |all| :: all[k].seqNo == k + 1
    ensures After(all[lo..], since) == all[lo..]
    decreases |all| - lo
  {
    if lo < |all| {
      AfterAll(all, lo + 1, since);
      AfterHead(all, lo, since);
      hide After;
      assert [all[lo]] + all[lo + 1..] == all[lo..];
    }
  }

  lemma {:induction false} AfterCut(all: seq<Event>, lo: nat, since: nat)
    requires lo <= |all| && forall k | 0 <= k < |all| :: all[k].seqNo == k + 1
    ensures After(all[lo..], since) == all[Min(|all|, Max(lo, since))..]
    decreases |all| - lo
  {
    if since <= lo {
      AfterAll(all, lo, since);
    } else if lo < |all| {
      AfterHead(all, lo, since);
      hide After;
      AfterCut(all, lo + 1, since);
      assert [] + After(all[lo + 1..], since) == After(all[lo + 1..], since);
    }
  }

  lemma NothingAfter(r: Ring, all: seq<Event>, since: nat)
    requires RingFits(r, all) && r.latest <= since
    ensures BatchOf(r, since) == Batch(r.latest, [], 0)
  {
    AfterCut(all, r.oldest, since);
  }

  /** A batch is everything after the cursor that is still held; together with
      `missed` it accounts for every event up to the new cursor. */
  lemma BatchAccounts(r: Ring, all: seq<Event>, since: nat)
    requires RingFits(r, all) && since <= r.latest
    ensures var b := BatchOf(r, since);
      && b.cursor == |all|
      && b.events == all[Max(r.oldest, since)..]
      && |b.events| + b.missed == b.cursor - since
      && |b.events| <= CAPACITY
  {
    AfterCut(all, r.oldest, since);
  }

  // ---- A client that feeds its cursor back ----

  /** `asked` is the cursor of the poll under way; `start` where the stream of
      this client began; `got` all it was handed, `missed` all it was told of. */
  datatype Client = Client(since: Option<nat>, asked: Option<nat>, start: Option<nat>, got: seq<Event>, missed: nat)

  datatype Stream = Stream(ring: Ring, all: seq<Event>, client: Client)

  /** Publishing, sending a poll, and its answer, in any order. */
  datatype Move = Publishes(topic: string, payload: string) | Asks | Answered

  function Fresh(ring: Ring, all: seq<Event>): Stream {
    Stream(ring, all, Client(None, None, None, [], 0))
  }

  function Next(s: Stream, m: Move): Stream {
    var c := s.client;
    match m
    case Publishes(topic, payload) =>
      s.(ring := Pushed(s.ring, topic, payload), all := s.all + [Event(|s.all| + 1, topic, payload)])
    case Asks =>
      // `next_event`: a poll without `since` starts from the latest event.
      var cursor := if c.since.Some? then c.since.value else s.ring.latest;
      if c.asked.Some? then s
      else s.(client := c.(asked := Some(cursor), start := if c.start.Some? then c.start else Some(cursor)))
    case Answered =>
      if c.asked.None? then s
      else
        var b := BatchOf(s.ring, c.asked.value);
        s.(client := c.(since := Some(b.cursor), asked := None, got := c.got + b.events, missed := c.missed + b.missed))
  }

  function Runs(s: Stream, moves: seq<Move>): Stream
    decreases |moves|
  {
    if moves == [] then s else Runs(Next(s, moves[0]), moves[1..])
  }

  /** The cursor the client has answers up to. */
  function Upto(c: Client): nat {
    if c.since.Some? then c.since.value else if c.asked.Some? then c.asked.value else 0
  }

  /** What was handed out: published events, in order, each once. */
  ghost predicate GotFits(got: seq<Event>, all: seq<Event>, start: nat, upto: nat) {
    && (forall k | 0 <= k < |got| :: start < got[k].seqNo <= upto <= |all| && got[k] == all[got[k].seqNo - 1])
    && (forall j, k | 0 <= j < k < |got| :: got[j].seqNo < got[k].seqNo)
  }

  /** What is still in the ring was not skipped. */
  ghost predicate NothingSkipped(got: seq<Event>, all: seq<Event>, oldest: nat, start: nat, upto: nat) {
    forall k | oldest <= k < |all| && start <= k < upto :: all[k] in got
  }

  ghost predicate StreamFits(s: Stream) {
    var c := s.client;
    && RingFits(s.ring, s.all)
    && (c.asked.Some? || c.since.Some? <==> c.start.Some?)
    && (c.asked.Some? && c.since.Some? ==> c.asked == c.since)
    && (c.start.None? ==> c.got == [] && c.missed == 0)
    && (c.start.Some? ==>
          && c.start.value <= Upto(c) <= |s.all|
          && |c.got| + c.missed == Upto(c) - c.start.value
          && GotFits(c.got, s.all, c.start.value, Upto(c))
          && NothingSkipped(c.got, s.all, s.ring.oldest, c.start.value, Upto(c)))
  }

  /** The events of `all` from `lo` on, appended to `got`, by position. */
  lemma Appended(got: seq<Event>, all: seq<Event>, lo: nat)
    requires lo <= |all| && forall k | 0 <= k < |all| :: all[k].seqNo == k + 1
    ensures var more := got + all[lo..];
      && |more| == |got| + |all| - lo
      && (forall k | 0 <= k < |got| :: more[k] == got[k])
      && (forall k | |got| <= k < |more| :: more[k] == all[lo + k - |got|] && more[k].seqNo == lo + k - |got| + 1)
  {
  }

  /** Handing out everything still held after `upto`. */
  lemma GotGrows(got: seq<Event>, all: seq<Event>, oldest: nat, start: nat, upto: nat)
    requires forall k | 0 <= k < |all| :: all[k].seqNo == k + 1
    requires start <= upto <= |all| && oldest <= |all|
    requires GotFits(got, all, start, upto)
    ensures GotFits(got + all[Max(oldest, upto)..], all, start, |all|)
  {
    var lo := Max(oldest, upto);
    var more := got + all[lo..];
    Appended(got, all, lo);
    forall k | 0 <= k < |more| ensures start < more[k].seqNo <= |all| && more[k] == all[more[k].seqNo - 1] {
      assert k < |got| ==> more[k] == got[k];
    }
    forall j, k | 0 <= j < k < |more| ensures more[j].seqNo < more[k].seqNo {
      assert j < |got| ==> more[j] == got[j] && got[j].seqNo <= upto;
      assert k < |got| ==> more[k] == got[k];
    }
  }

  lemma NothingSkippedGrows(got: seq<Event>, all: seq<Event>, oldest: nat, start: nat, upto: nat)
    requires start <= upto <= |all| && oldest <= |all|
    requires NothingSkipped(got, all, oldest, start, upto)
    ensures NothingSkipped(got + all[Max(oldest, upto)..], all, oldest, start, |all|)
  {
    var lo := Max(oldest, upto);
    var more := got + all[lo..];
    forall k | oldest <= k < |all| && start <= k ensures all[k] in more {
      if k >= upto { assert more[|got| + k - lo] == all[k]; }
    }
  }

  lemma AnswerKeeps(s: Stream)
    requires StreamFits(s)
    ensures StreamFits(Next(s, Answered))
  {
    if s.client.asked.Some? {
      var since := s.client.asked.value;
      BatchAccounts(s.ring, s.all, since);
      GotGrows(s.client.got, s.all, s.ring.oldest, s.client.start.value, since);
      NothingSkippedGrows(s.client.got, s.all, s.ring.oldest, s.client.start.value, since);
      hide GotFits, NothingSkipped, BatchOf;
      assert Next(s, Answered).client == s.client.(since := Some(|s.all|), asked := None,
        got := s.client.got + s.all[Max(s.ring.oldest, since)..], missed := s.client.missed + BatchOf(s.ring, since).missed) by { NextAnswer(s); }
    }
  }

  lemma NextAnswer(s: Stream)
    requires RingFits(s.ring, s.all) && s.client.asked.Some? && s.client.asked.value <= |s.all|
    ensures Next(s, Answered) == s.(client := s.client.(since := Some(|s.all|), asked := None,
      got := s.client.got + s.all[Max(s.ring.oldest, s.client.asked.value)..],
      missed := s.client.missed + BatchOf(s.ring, s.client.asked.value).missed))
  {
    BatchAccounts(s.ring, s.all, s.client.asked.value);
  }

  lemma PublishKeeps(s: Stream, topic: string, payload: string)
    requires StreamFits(s)
    ensures StreamFits(Next(s, Publishes(topic, payload)))
  {
    PushKeepsRing(s.ring, s.all, topic, payload);
    hide Pushed;
  }

  lemma NextKeeps(s: Stream, m: Move)
    requires StreamFits(s)
    ensures StreamFits(Next(s, m))
  {
    match m {
      case Publishes(topic, payload) => PublishKeeps(s, topic, payload);
      case Answered => AnswerKeeps(s);
      case Asks =>
    }
  }

  lemma {:induction false} RunKeeps(s: Stream, moves: seq<Move>)
    requires StreamFits(s)
    ensures StreamFits(Runs(s, moves))
    decreases |moves|
  {
    hide Next, StreamFits;
    if moves != [] {
      NextKeeps(s, moves[0]);
      RunKeeps(Next(s, moves[0]), moves[1..]);
    }
  }

  /** For any interleaving of publishes with a client that feeds its cursor
      back, from any point in the life of the bus: the batches, one after the
      other, are published events in strictly increasing order, none twice;
      delivered and missed add up to the cursor's advance; an event passed over
      has left the ring. The ring always is the newest CAPACITY events. */
  lemma CursorStream(ring: Ring, all: seq<Event>, moves: seq<Move>)
    requires RingFits(ring, all)
    ensures var s := Runs(Fresh(ring, all), moves);
      var c := s.client;
      && RingFits(s.ring, s.all) && |s.ring.events| <= CAPACITY
      && (c.since.Some? ==>
            && c.start.Some? && c.start.value <= c.since.value <= |s.all|
            && |c.got| + c.missed == c.since.value - c.start.value
            && GotFits(c.got, s.all, c.start.value, c.since.value)
            && NothingSkipped(c.got, s.all, s.ring.oldest, c.start.value, c.since.value))
  {
    hide Runs, Next, GotFits, NothingSkipped;
    RunKeeps(Fresh(ring, all), moves);
  }

  // ---- Where a client starts, and what it gets to hear ----

  /** What is published in these moves, in order. */
  function PublishedIn(moves: seq<Move>): seq<(string, string)> {
    if moves == [] then []
    else (if moves[0].Publishes? then [(moves[0].topic, moves[0].payload)] else []) + PublishedIn(moves[1..])
  }

  /** `all` and then these, numbered on. */
  function Numbered(all: seq<Event>, publishes: seq<(string, string)>): seq<Event> {
    all + seq(|publishes|, k requires 0 <= k < |publishes| => Event(|all| + k + 1, publishes[k].0, publishes[k].1))
  }

  lemma NumberedJoins(all: seq<Event>, first: (string, string), rest: seq<(string, string)>)
    ensures Numbered(all + [Event(|all| + 1, first.0, first.1)], rest) == Numbered(all, [first] + rest)
  {
  }

  lemma {:induction false} AllIsPublished(s: Stream, moves: seq<Move>)
    ensures Runs(s, moves).all == Numbered(s.all, PublishedIn(moves))
    decreases |moves|
  {
    hide Pushed, BatchOf;
    if moves == [] {
      assert Numbered(s.all, []) == s.all;
    } else {
      var m := moves[0];
      AllIsPublished(Next(s, m), moves[1..]);
      if m.Publishes? {
        NumberedJoins(s.all, (m.topic, m.payload), PublishedIn(moves[1..]));
      } else {
        assert [] + PublishedIn(moves[1..]) == PublishedIn(moves[1..]);
      }
    }
  }

  lemma {:induction false} RunsJoin(s: Stream, a: seq<Move>, b: seq<Move>)
    ensures Runs(s, a + b) == Runs(Runs(s, a), b)
    decreases |a|
  {
    hide Next;
    if a == [] {
      assert a + b == b;
    } else {
      assert (a + b)[1..] == a[1..] + b;
      RunsJoin(Next(s, a[0]), a[1..], b);
    }
  }

  lemma {:induction false} NotAsked(s: Stream, moves: seq<Move>)
    requires Asks !in moves && s.client.asked.None? && s.client.start.None?
    ensures Runs(s, moves).client == s.client
    decreases |moves|
  {
    hide Pushed, BatchOf;
    if moves != [] {
      assert forall m | m in moves[1..] :: m in moves;
      NotAsked(Next(s, moves[0]), moves[1..]);
    }
  }

  lemma {:induction false} StartStays(s: Stream, moves: seq<Move>)
    requires s.client.start.Some?
    ensures Runs(s, moves).client.start == s.client.start
    decreases |moves|
  {
    hide Pushed, BatchOf;
    if moves != [] { StartStays(Next(s, moves[0]), moves[1..]); }
  }

  lemma {:induction false} AskedStays(s: Stream, moves: seq<Move>)
    requires s.client.asked.Some? && Answered !in moves
    ensures Runs(s, moves).client.asked == s.client.asked
    decreases |moves|
  {
    hide Pushed, BatchOf;
    if moves != [] {
      assert forall m | m in moves[1..] :: m in moves;
      AskedStays(Next(s, moves[0]), moves[1..]);
    }
  }

  lemma FirstAsk(s: Stream)
    requires RingFits(s.ring, s.all) && s.client == Client(None, None, None, [], 0)
    ensures Next(s, Asks).client == Client(None, Some(|s.all|), Some(|s.all|), [], 0)
  {
  }

  /** A new client starts from now: whatever comes after its first poll, in any
      interleaving, it is handed and told of events published after that poll
      and no others, each as it was published. */
  lemma StartsFromNow(ring: Ring, all: seq<Event>, before: seq<Move>, after: seq<Move>)
    requires RingFits(ring, all) && Asks !in before
    ensures var s := Runs(Fresh(ring, all), before + [Asks] + after);
      var published, later := |all| + |PublishedIn(before)|, PublishedIn(after);
      && s.client.start == Some(published) && |s.all| == published + |later|
      && (forall k | 0 <= k < |s.client.got| ::
            var n := s.client.got[k].seqNo - published - 1;
            && 0 <= n < |later| && s.client.got[k] == Event(published + n + 1, later[n].0, later[n].1))
      && |s.client.got| + s.client.missed <= |later|
  {
    hide Runs, Next, RingFits, PublishedIn;
    var newcomer := Fresh(ring, all);
    var s0 := Runs(newcomer, before);
    RunKeeps(newcomer, before);
    NotAsked(newcomer, before);
    AllIsPublished(newcomer, before);
    FirstAsk(s0);
    var s1 := Next(s0, Asks);
    NextKeeps(s0, Asks);
    FirstAskStays(s0);
    RunKeeps(s1, after);
    StartStays(s1, after);
    AllIsPublished(s1, after);
    RunsOne(s0, Asks);
    RunsJoin(newcomer, before, [Asks]);
    RunsJoin(newcomer, before + [Asks], after);
    GotIsNew(Runs(s1, after), s1.all, PublishedIn(after));
  }

  lemma RunsOne(s: Stream, m: Move)
    ensures Runs(s, [m]) == Next(s, m)
  {
  }

  lemma FirstAskStays(s: Stream)
    ensures Next(s, Asks).all == s.all && Next(s, Asks).ring == s.ring
  {
  }

  lemma GotIsNew(s: Stream, was: seq<Event>, published: seq<(string, string)>)
    requires StreamFits(s) && s.client.start == Some(|was|) && s.all == Numbered(was, published)
    ensures forall k | 0 <= k < |s.client.got| ::
      var n := s.client.got[k].seqNo - |was| - 1;
      && 0 <= n < |published| && s.client.got[k] == Event(|was| + n + 1, published[n].0, published[n].1)
    ensures |s.client.got| + s.client.missed <= |published|
  {
    hide RingFits, NothingSkipped;
    forall k | 0 <= k < |s.client.got|
      ensures var n := s.client.got[k].seqNo - |was| - 1;
        && 0 <= n < |published| && s.client.got[k] == Event(|was| + n + 1, published[n].0, published[n].1)
    {
      var e := s.client.got[k];
      assert |was| < e.seqNo <= |s.all| && e == s.all[e.seqNo - 1];
    }
  }

  /** Whenever a poll is answered the client is brought up to the present: its
      cursor is the number of events published, and what was published since its
      first poll and is still held it has been handed. */
  lemma AnswerCatchesUp(ring: Ring, all: seq<Event>, moves: seq<Move>, during: seq<Move>)
    requires RingFits(ring, all) && Answered !in during
    ensures var s := Runs(Fresh(ring, all), moves + [Asks] + during + [Answered]);
      && s.client.since == Some(|s.all|) && s.client.start.Some?
      && |s.client.got| + s.client.missed == |s.all| - s.client.start.value
      && forall k | s.client.start.value <= k < |s.all| && |s.all| - k <= 64 :: s.all[k] in s.client.got
  {
    hide Runs, Next, RingFits, Pushed, BatchOf;
    var newcomer := Fresh(ring, all);
    var s0 := Runs(newcomer, moves);
    RunKeeps(newcomer, moves);
    var s1 := Next(s0, Asks);
    NextKeeps(s0, Asks);
    AsksAreAsked(s0);
    var s2 := Runs(s1, during);
    RunKeeps(s1, during);
    AskedStays(s1, during);
    NextKeeps(s2, Answered);
    RunsOne(s0, Asks);
    RunsJoin(newcomer, moves, [Asks]);
    RunsJoin(newcomer, moves + [Asks], during);
    RunsOne(s2, Answered);
    RunsJoin(newcomer, moves + [Asks] + during, [Answered]);
    AnswerIsNow(s2);
  }

  lemma AsksAreAsked(s: Stream)
    ensures Next(s, Asks).client.asked.Some?
  {
  }

  lemma AnswerIsNow(s: Stream)
    requires StreamFits(s) && StreamFits(Next(s, Answered)) && s.client.asked.Some?
    ensures var t := Next(s, Answered);
      && t.client.since == Some(|t.all|) && t.client.start.Some?
      && |t.client.got| + t.client.missed == |t.all| - t.client.start.value
      && forall k | t.client.start.value <= k < |t.all| && |t.all| - k <= 64 :: t.all[k] in t.client.got
  {
    NextAnswer(s);
    hide GotFits, Next;
    OldestHeld(s.ring, s.all);
  }

  lemma OldestHeld(r: Ring, all: seq<Event>)
    requires RingFits(r, all)
    ensures r.oldest == Max(0, |all| - 64)
  {
  }

  /** A cursor from a bus that counted further - a daemon before a restart -
      is answered with nothing and brought back to the present. */
  lemma StaleCursor(r: Ring, all: seq<Event>, since: nat)
    requires RingFits(r, all) && since > r.latest
    ensures BatchOf(r, since) == Batch(|all|, [], 0)
  {
    NothingAfter(r, all, since);
  }

  // ---- Listeners, with publishers on several threads ----

  /** Where one publish stands: in the ring, or calling the listeners its
      snapshot found, `upto` of `count` so far. */
  datatype Publish = InRing | Calling(upto: nat, count: nat)

  /** A listener: how many publishes were in the ring when it subscribed, and
      the publishes it has been called for, in call order. */
  datatype Listener = Listener(joined: nat, heard: seq<nat>)

  datatype Threads = Threads(publishes: seq<Publish>, listeners: seq<Listener>)

  datatype Act = PutInRing | Subscribes | Snapshot(publish: nat) | CallNext(publish: nat)

  function Acts(t: Threads, a: Act): Threads {
    match a
    case PutInRing => t.(publishes := t.publishes + [InRing])
    case Subscribes => t.(listeners := t.listeners + [Listener(|t.publishes|, [])])
    case Snapshot(p) =>
      if p < |t.publishes| && t.publishes[p].InRing?
      then t.(publishes := t.publishes[p := Calling(0, |t.listeners|)]) else t
    case CallNext(p) =>
      if p < |t.publishes| && t.publishes[p].Calling? && t.publishes[p].upto < t.publishes[p].count
         && t.publishes[p].upto < |t.listeners| then
        var l := t.publishes[p].upto;
        t.(publishes := t.publishes[p := Calling(l + 1, t.publishes[p].count)],
           listeners := t.listeners[l := t.listeners[l].(heard := t.listeners[l].heard + [p])])
      else t
  }

  function ActAll(t: Threads, acts: seq<Act>): Threads
    decreases |acts|
  {
    if acts == [] then t else ActAll(Acts(t, acts[0]), acts[1..])
  }

  predicate Called(p: Publish, l: nat) {
    p.Calling? && l < p.upto
  }

  ghost predicate ListenerFits(publishes: seq<Publish>, l: nat, listener: Listener) {
    && (forall p | 0 <= p < |publishes| ::
          multiset(listener.heard)[p] == if Called(publishes[p], l) then 1 else 0)
    && (forall k | 0 <= k < |listener.heard| :: listener.heard[k] < |publishes|)
    && (forall p | listener.joined <= p < |publishes| && publishes[p].Calling? :: l < publishes[p].count)
  }

  ghost predicate ThreadsFit(t: Threads) {
    && (forall p | 0 <= p < |t.publishes| && t.publishes[p].Calling? ::
          t.publishes[p].upto <= t.publishes[p].count <= |t.listeners|)
    && (forall l | 0 <= l < |t.listeners| :: ListenerFits(t.publishes, l, t.listeners[l]))
  }

  /** The listener called has heard one publish more. */
  lemma CalledFits(publishes: seq<Publish>, after: seq<Publish>, l: nat, listener: Listener, p: nat)
    requires ListenerFits(publishes, l, listener) && p < |publishes| && |after| == |publishes|
    requires forall q | 0 <= q < |publishes| && q != p :: after[q] == publishes[q]
    requires publishes[p].Calling? && publishes[p].upto == l && after[p] == Calling(l + 1, publishes[p].count)
    ensures ListenerFits(after, l, listener.(heard := listener.heard + [p]))
  {
    var heard := listener.heard + [p];
    assert multiset(heard) == multiset(listener.heard) + multiset{p};
    forall k | 0 <= k < |heard| ensures heard[k] < |after| {
      if k < |listener.heard| { assert heard[k] == listener.heard[k]; }
    }
  }

  /** Any other listener stands where it stood. */
  lemma OthersFit(publishes: seq<Publish>, after: seq<Publish>, l: nat, listener: Listener, p: nat)
    requires ListenerFits(publishes, l, listener) && p < |publishes| && |after| == |publishes|
    requires forall q | 0 <= q < |publishes| && q != p :: after[q] == publishes[q]
    requires publishes[p].Calling? && publishes[p].upto != l
    requires after[p] == Calling(publishes[p].upto + 1, publishes[p].count)
    ensures ListenerFits(after, l, listener)
  {
    assert Called(after[p], l) == Called(publishes[p], l);
  }

  lemma CallKeeps(t: Threads, p: nat)
    requires ThreadsFit(t)
    ensures ThreadsFit(Acts(t, CallNext(p)))
  {
    hide ListenerFits;
    var u := Acts(t, CallNext(p));
    if u != t {
      forall l | 0 <= l < |u.listeners| ensures ListenerFits(u.publishes, l, u.listeners[l]) {
        assert ListenerFits(t.publishes, l, t.listeners[l]);
        if l == t.publishes[p].upto {
          CalledFits(t.publishes, u.publishes, l, t.listeners[l], p);
        } else {
          OthersFit(t.publishes, u.publishes, l, t.listeners[l], p);
        }
      }
    }
  }

  lemma ActKeeps(t: Threads, a: Act)
    requires ThreadsFit(t)
    ensures ThreadsFit(Acts(t, a))
  {
    if a.CallNext? {
      CallKeeps(t, a.publish);
    } else {
      var u := Acts(t, a);
      forall l | 0 <= l < |u.listeners| ensures ListenerFits(u.publishes, l, u.listeners[l]) {
        if l < |t.listeners| { assert ListenerFits(t.publishes, l, t.listeners[l]); }
      }
    }
  }

  lemma {:induction false} ActsKeep(t: Threads, acts: seq<Act>)
    requires ThreadsFit(t)
    ensures ThreadsFit(ActAll(t, acts))
    decreases |acts|
  {
    hide Acts, ThreadsFit;
    if acts != [] {
      ActKeeps(t, acts[0]);
      ActsKeep(Acts(t, acts[0]), acts[1..]);
    }
  }

  /** However the threads interleave, a listener is never called twice for one
      publish, and once a publish is over it has been called exactly once for
      it if it had subscribed before the event went into the ring. */
  lemma ListenersMissNothing(acts: seq<Act>, l: nat, p: nat)
    requires var t := ActAll(Threads([], []), acts); l < |t.listeners| && p < |t.publishes|
    ensures var t := ActAll(Threads([], []), acts);
      var calls := multiset(t.listeners[l].heard)[p];
      && calls <= 1
      && (t.publishes[p].Calling? && t.publishes[p].upto == t.publishes[p].count && t.listeners[l].joined <= p ==> calls == 1)
  {
    hide ActAll;
    ActsKeep(Threads([], []), acts);
    var t := ActAll(Threads([], []), acts);
    assert ListenerFits(t.publishes, l, t.listeners[l]);
  }

  lemma ActAllSteps(t: Threads, a: Act, b: Act, rest: seq<Act>)
    ensures ActAll(t, [a, b] + rest) == ActAll(Acts(Acts(t, a), b), rest)
  {
    var acts := [a, b] + rest;
    assert acts[1..] == [b] + rest && acts[1..][1..] == rest;
  }

  /** The second of two events reaches a listener before the first does, because
      the thread that published it took its snapshot earlier. */
  lemma OvertakenCalls(t: Threads)
    requires t == Threads([InRing, InRing], [Listener(0, [])])
    ensures Acts(Acts(t, Snapshot(1)), CallNext(1)) == Threads([InRing, Calling(1, 1)], [Listener(0, [1])])
  {
    var u := Acts(t, Snapshot(1));
    assert u == Threads([InRing, Calling(0, 1)], [Listener(0, [])]);
    assert [] + [1] == [1];
    assert Acts(u, CallNext(1)).publishes == [InRing, Calling(1, 1)];
    assert Acts(u, CallNext(1)).listeners == [Listener(0, [1])];
  }

  lemma OvertakenCallsEnd(t: Threads)
    requires t == Threads([InRing, Calling(1, 1)], [Listener(0, [1])])
    ensures Acts(Acts(t, Snapshot(0)), CallNext(0)) == Threads([Calling(1, 1), Calling(1, 1)], [Listener(0, [1, 0])])
  {
    var u := Acts(t, Snapshot(0));
    assert u == Threads([Calling(0, 1), Calling(1, 1)], [Listener(0, [1])]);
    assert [1] + [0] == [1, 0];
    assert Acts(u, CallNext(0)).publishes == [Calling(1, 1), Calling(1, 1)];
    assert Acts(u, CallNext(0)).listeners == [Listener(0, [1, 0])];
  }

  // ---- The order of the calls ----

  /** The publish has called every listener it was going to. */
  predicate Over(p: Publish) {
    p.Calling? && p.upto >= p.count
  }

  function Unfinished(publishes: seq<Publish>): nat {
    if publishes == [] then 0
    else Unfinished(publishes[..|publishes| - 1]) + if Over(publishes[|publishes| - 1]) then 0 else 1
  }

  /** At no moment of the run are more than `n` publishes unfinished. */
  ghost predicate Within(n: nat, t: Threads, acts: seq<Act>)
    decreases |acts|
  {
    Unfinished(t.publishes) <= n && (acts != [] ==> Within(n, Acts(t, acts[0]), acts[1..]))
  }

  /** No listener has heard an earlier event after a later one. */
  predicate InOrder(t: Threads) {
    forall l, j, k :: 0 <= l < |t.listeners| && 0 <= j < k < |t.listeners[l].heard| ==>
      t.listeners[l].heard[j] < t.listeners[l].heard[k]
  }

  /** Only the newest publish may still be calling. */
  predicate OnlyLastOpen(publishes: seq<Publish>) {
    forall p :: 0 <= p < |publishes| - 1 ==> Over(publishes[p])
  }

  lemma {:induction false} NoneUnfinished(publishes: seq<Publish>)
    requires Unfinished(publishes) == 0
    ensures forall p :: 0 <= p < |publishes| ==> Over(publishes[p])
    decreases |publishes|
  {
    if publishes != [] { NoneUnfinished(publishes[..|publishes| - 1]); }
  }

  /** A publish that enters the ring alone comes after all others are over. */
  lemma EntersAlone(publishes: seq<Publish>)
    requires Unfinished(publishes + [InRing]) <= 1
    ensures OnlyLastOpen(publishes + [InRing])
  {
    assert (publishes + [InRing])[..|publishes|] == publishes;
    NoneUnfinished(publishes);
  }

  lemma HeardAppended(t: Threads, p: nat)
    requires ThreadsFit(t) && InOrder(t) && OnlyLastOpen(t.publishes)
    ensures InOrder(Acts(t, CallNext(p))) && OnlyLastOpen(Acts(t, CallNext(p)).publishes)
  {
    var u := Acts(t, CallNext(p));
    if u != t {
      var l := t.publishes[p].upto;
      var heard := t.listeners[l].heard;
      assert p == |t.publishes| - 1;
      assert ListenerFits(t.publishes, l, t.listeners[l]);
      forall k | 0 <= k < |heard| ensures heard[k] < p {
        assert heard[k] < |t.publishes|;
        assert heard[k] in multiset(heard) && p !in multiset(heard);
      }
    }
  }

  lemma OrderStep(t: Threads, a: Act)
    requires ThreadsFit(t) && InOrder(t) && OnlyLastOpen(t.publishes) && Unfinished(Acts(t, a).publishes) <= 1
    ensures InOrder(Acts(t, a)) && OnlyLastOpen(Acts(t, a).publishes)
  {
    hide ThreadsFit;
    match a
    case PutInRing => EntersAlone(t.publishes);
    case CallNext(p) => HeardAppended(t, p);
    case _ =>
  }

  lemma {:induction false} OrderKept(t: Threads, acts: seq<Act>)
    requires ThreadsFit(t) && InOrder(t) && OnlyLastOpen(t.publishes) && Within(1, t, acts)
    ensures InOrder(ActAll(t, acts))
    decreases |acts|
  {
    hide Acts, ThreadsFit, InOrder, OnlyLastOpen;
    if acts != [] {
      OrderStep(t, acts[0]);
      ActKeeps(t, acts[0]);
      OrderKept(Acts(t, acts[0]), acts[1..]);
    }
  }

  lemma {:induction false} WithinMore(n: nat, m: nat, t: Threads, acts: seq<Act>)
    requires Within(n, t, acts) && n <= m
    ensures Within(m, t, acts)
    decreases |acts|
  {
    hide Acts;
    if acts != [] { WithinMore(n, m, Acts(t, acts[0]), acts[1..]); }
  }

  lemma {:induction false} UnfinishedAtMost(publishes: seq<Publish>)
    ensures Unfinished(publishes) <= |publishes|
  {
    if publishes != [] { UnfinishedAtMost(publishes[..|publishes| - 1]); }
  }

  lemma PublishesGrow(t: Threads, a: Act)
    ensures |t.publishes| <= |Acts(t, a).publishes|
  {
  }

  lemma {:induction false} FewPublishes(n: nat, t: Threads, acts: seq<Act>)
    requires |ActAll(t, acts).publishes| <= n
    ensures Within(n, t, acts) && |t.publishes| <= n
    decreases |acts|
  {
    hide Acts;
    if acts != [] {
      FewPublishes(n, Acts(t, acts[0]), acts[1..]);
      PublishesGrow(t, acts[0]);
    }
    UnfinishedAtMost(t.publishes);
  }

  const Nobody := Threads([], [])

  /** Listeners hear events in the order of publication in every run in which a
      publish enters the ring only once all earlier ones are over. */
  lemma HeardInOrder(acts: seq<Act>)
    requires Within(1, Nobody, acts)
    ensures InOrder(ActAll(Nobody, acts))
  {
    OrderKept(Nobody, acts);
  }

  /** Two publishes at once: the later event overtakes the earlier one. */
  lemma Overtaking() returns (acts: seq<Act>)
    ensures |ActAll(Nobody, acts).publishes| == 2 && !InOrder(ActAll(Nobody, acts))
  {
    var last := [Snapshot(0), CallNext(0)];
    var mid := [PutInRing, Snapshot(1), CallNext(1)] + last;
    acts := [Subscribes, PutInRing] + mid;
    OvertakingStarts(mid);
    var t2 := Threads([InRing], [Listener(0, [])]);
    assert mid[1..] == [Snapshot(1), CallNext(1)] + last;
    var t3 := Threads([InRing, InRing], [Listener(0, [])]);
    assert Acts(t2, PutInRing) == t3;
    hide Acts;
    assert ActAll(t2, mid) == ActAll(t3, mid[1..]);
    OvertakenCalls(t3);
    ActAllSteps(t3, Snapshot(1), CallNext(1), last);
    var t5 := Threads([InRing, Calling(1, 1)], [Listener(0, [1])]);
    OvertakenCallsEnd(t5);
    assert last == last + [];
    ActAllSteps(t5, Snapshot(0), CallNext(0), []);
    var end := ActAll(Nobody, acts);
    assert end.listeners[0].heard[0] > end.listeners[0].heard[1];
  }

  lemma OvertakingStarts(mid: seq<Act>)
    ensures ActAll(Nobody, [Subscribes, PutInRing] + mid) == ActAll(Threads([InRing], [Listener(0, [])]), mid)
  {
    ActAllSteps(Nobody, Subscribes, PutInRing, mid);
    assert Acts(Acts(Nobody, Subscribes), PutInRing) == Threads([InRing], [Listener(0, [])]);
  }

  /** Calls are not made in publication order in general: with up to `n`
      publishes unfinished at once, order is kept in every run if and only if
      `n` is at most one. */
  lemma OrderKeptIff(n: nat)
    ensures (forall acts | Within(n, Nobody, acts) :: InOrder(ActAll(Nobody, acts))) <==> n <= 1
  {
    if n <= 1 {
      forall acts | Within(n, Nobody, acts) ensures InOrder(ActAll(Nobody, acts)) {
        WithinMore(n, 1, Nobody, acts);
        HeardInOrder(acts);
      }
    } else {
      var acts := Overtaking();
      FewPublishes(n, Nobody, acts);
    }
  }
}
