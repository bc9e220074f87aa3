/** The app's notification history: the fifty newest distinct notices, whatever
    mixture of live events and replays brings them, and which have been read. */
module Notifications {
  import opened Basics

  const MAX: nat := 50
  const REPLAY_SUPPRESSED_MS := 6000

  datatype Record = Record(id: string, topic: string, at: int)

  // ---- Sorting, newest first ----

  /** Before the first record that is no newer. */
  function Insert(r: Record, s: seq<Record>): seq<Record> {
    if s == [] || r.at >= s[0].at then [r] + s else [s[0]] + Insert(r, s[1..])
  }

  /** JavaScript's stable `sort` by descending time. */
  function Sort(s: seq<Record>): seq<Record> {
    if s == [] then [] else Insert(s[0], Sort(s[1..]))
  }

  predicate NewestFirst(s: seq<Record>) {
    forall i, j :: 0 <= i < j < |s| ==> s[i].at >= s[j].at
  }

  lemma {:induction false} InsertHolds(r: Record, s: seq<Record>)
    ensures multiset(Insert(r, s)) == multiset{r} + multiset(s) && |Insert(r, s)| == |s| + 1
    ensures forall x :: x in Insert(r, s) <==> x == r || x in s
    decreases |s|
  {
    if s != [] && r.at < s[0].at {
      InsertHolds(r, s[1..]);
      assert s == [s[0]] + s[1..];
    }
  }

  lemma ConsNewestFirst(x: Record, t: seq<Record>)
    requires NewestFirst(t) && forall y | y in t :: y.at <= x.at
    ensures NewestFirst([x] + t)
  {
  }

  lemma {:induction false} InsertSorts(r: Record, s: seq<Record>)
    requires NewestFirst(s)
    ensures NewestFirst(Insert(r, s)) && multiset(Insert(r, s)) == multiset{r} + multiset(s) && |Insert(r, s)| == |s| + 1
    decreases |s|
  {
    InsertHolds(r, s);
    if s != [] {
      FirstIsNewest(s);
      if r.at >= s[0].at {
        ConsNewestFirst(r, s);
      } else {
        InsertSorts(r, s[1..]);
        InsertHolds(r, s[1..]);
        ConsNewestFirst(s[0], Insert(r, s[1..]));
      }
    }
  }

  lemma FirstIsNewest(s: seq<Record>)
    requires NewestFirst(s) && s != []
    ensures NewestFirst(s[1..]) && forall y | y in s :: y.at <= s[0].at
    ensures forall y | y in s[1..] :: y in s
  {
  }

  lemma {:induction false} SortSorts(s: seq<Record>)
    ensures NewestFirst(Sort(s)) && multiset(Sort(s)) == multiset(s) && |Sort(s)| == |s|
    decreases |s|
  {
    if s != [] {
      SortSorts(s[1..]);
      InsertSorts(s[0], Sort(s[1..]));
      assert s == [s[0]] + s[1..];
    }
  }

  // ---- The store ----

  predicate Has(records: seq<Record>, id: string) {
    exists i :: 0 <= i < |records| && records[i].id == id
  }

  function Ids(records: seq<Record>): set<string> {
    set r | r in records :: r.id
  }

  function Kept(records: seq<Record>): seq<Record> {
    if |records| > MAX then records[..MAX] else records
  }

  function Ingested(records: seq<Record>, r: Record): seq<Record> {
    if Has(records, r.id) then records else Kept(Sort([r] + records))
  }

  function IngestedAll(records: seq<Record>, more: seq<Record>): seq<Record> {
    if more == [] then records else Ingested(IngestedAll(records, more[..|more| - 1]), more[|more| - 1])
  }

  function Unread(records: seq<Record>, readIds: set<string>): nat {
    if records == [] then 0
    else Unread(records[..|records| - 1], readIds) + if records[|records| - 1].id in readIds then 0 else 1
  }

  function UnreadIds(records: seq<Record>, readIds: set<string>): set<string> {
    set r | r in records && r.id !in readIds :: r.id
  }

  datatype Store = Store(records: seq<Record>, readIds: set<string>, seenUnread: set<string>, open: bool, suppressedUntil: int)

  datatype Action =
    | Live(record: Record)
    | Observe(notices: seq<Record>, now: int)
    | MarkAllRead
    | Toggle
    | Close
    | Clear(now: int)

  function Next(s: Store, a: Action): Store {
    match a
    case Live(r) => s.(records := Ingested(s.records, r))
    case Observe(notices, now) =>
      if now < s.suppressedUntil then s
      else
        var records := IngestedAll(s.records, notices);
        s.(records := records, readIds := s.readIds * Ids(records))
    case MarkAllRead => s.(readIds := s.readIds + Ids(s.records))
    case Toggle =>
      if s.open then s.(open := false)
      else s.(open := true, seenUnread := UnreadIds(s.records, s.readIds), readIds := s.readIds + Ids(s.records))
    case Close => s.(open := false, seenUnread := {})
    case Clear(now) => Store([], {}, {}, s.open, now + REPLAY_SUPPRESSED_MS)
  }

  /** `stored` is what local storage holds of the read ids. */
  class History {
    var records: seq<Record>
    var readIds: set<string>
    var seenUnread: set<string>
    var open: bool
    var suppressedUntil: int
    var stored: set<string>

    function View(): Store
      reads this
    {
      Store(records, readIds, seenUnread, open, suppressedUntil)
    }

    constructor (loaded: set<string>)
      ensures View() == Store([], loaded, {}, false, 0) && stored == loaded
    {
      records, readIds, seenUnread, open, suppressedUntil := [], loaded, {}, false, 0;
      stored := loaded;
    }

    /** Whether the record was new to the history as it stands. */
    method Ingest(r: Record) returns (added: bool)
      modifies this`records
      ensures records == Ingested(old(records), r)
      ensures added == !Has(old(records), r.id)
    {
      if exists i :: 0 <= i < |records| && records[i].id == r.id {
        return false;
      }
      var sorted := Sort([r] + records);
      records := if |sorted| > MAX then sorted[..MAX] else sorted;
      added := true;
    }

    method OnEvent(r: Record) returns (notify: bool)
      modifies this`records
      ensures View() == Next(old(View()), Live(r))
      ensures notify == !Has(old(records), r.id)
    {
      notify := Ingest(r);
    }

    method PruneReadIds()
      modifies this`readIds, this`stored
      requires stored == readIds
      ensures readIds == old(readIds) * Ids(records) && stored == readIds
    {
      var live := Ids(records);
      if readIds <= live {
        assert readIds == readIds * live;
        return;
      }
      readIds := set id | id in readIds && id in live;
      stored := readIds;
    }

    method ObserveFanStatus(notices: seq<Record>, now: int)
      requires stored == readIds
      modifies this
      ensures View() == Next(old(View()), Observe(notices, now)) && stored == readIds
    {
      if now < suppressedUntil { return; }
      for i := 0 to |notices|
        invariant records == IngestedAll(old(records), notices[..i])
        invariant View() == old(View()).(records := records) && stored == old(stored)
      {
        assert notices[..i + 1][..i] == notices[..i];
        var added := Ingest(notices[i]);
      }
      assert notices[..|notices|] == notices;
      PruneReadIds();
    }

    method MarkRead()
      modifies this`readIds, this`stored
      ensures readIds == old(readIds) + Ids(records) && stored == readIds
    {
      var next := readIds;
      for i := 0 to |records|
        invariant next == readIds + Ids(records[..i])
        invariant readIds == old(readIds)
      {
        IdsPush(records[..i], records[i]);
        assert records[..i + 1] == records[..i] + [records[i]];
        next := next + {records[i].id};
      }
      assert records[..|records|] == records;
      readIds := next;
      stored := readIds;
    }

    method TogglePanel()
      requires stored == readIds
      modifies this
      ensures View() == Next(old(View()), Toggle) && stored == readIds
    {
      open := !open;
      if open {
        seenUnread := set r | r in records && r.id !in readIds :: r.id;
        MarkRead();
      }
    }

    method ClosePanel()
      modifies this`open, this`seenUnread
      ensures View() == Next(old(View()), Close)
    {
      open := false;
      seenUnread := {};
    }

    method ClearAll(now: int)
      modifies this
      ensures View() == Next(old(View()), Clear(now)) && stored == readIds
    {
      records, readIds, seenUnread := [], {}, {};
      stored := readIds;
      suppressedUntil := now + REPLAY_SUPPRESSED_MS;
    }

    method UnreadCount() returns (n: nat)
      ensures n == Unread(records, readIds)
    {
      n := 0;
      for i := 0 to |records|
        invariant n == Unread(records[..i], readIds)
      {
        assert records[..i + 1][..i] == records[..i];
        n := n + if records[i].id in readIds then 0 else 1;
      }
      assert records[..|records|] == records;
    }
  }

  lemma IdsPush(records: seq<Record>, r: Record)
    ensures Ids(records + [r]) == Ids(records) + {r.id}
  {
    assert r in records + [r];
    assert forall x :: x in records ==> x in records + [r];
  }

  function Run(s: Store, actions: seq<Action>): Store {
    if actions == [] then s else Next(Run(s, actions[..|actions| - 1]), actions[|actions| - 1])
  }

  const Start := Store([], {}, {}, false, 0)

  /** What has been ingested since the last clear, replays included. */
  function Seen(s: Store, actions: seq<Action>): seq<Record> {
    if actions == [] then []
    else
      var earlier := actions[..|actions| - 1];
      match actions[|actions| - 1]
      case Live(r) => Seen(s, earlier) + [r]
      case Observe(notices, now) =>
        Seen(s, earlier) + if now < Run(s, earlier).suppressedUntil then [] else notices
      case Clear(_) => []
      case _ => Seen(s, earlier)
  }

  // ---- The fifty newest ----

  /** Every id has one time, and no two ids share one. */
  ghost predicate Stamped(seen: seq<Record>) {
    forall r, s | r in seen && s in seen :: r.id == s.id <==> r.at == s.at
  }

  predicate StrictlyNewestFirst(records: seq<Record>) {
    forall i, j :: 0 <= i < j < |records| ==> records[i].at > records[j].at
  }

  ghost predicate Stems(r: Record, seen: seq<Record>) {
    exists s :: s in seen && s.id == r.id && s.at == r.at
  }

  /** Held, or older than everything in a full history. */
  ghost predicate Settled(s: Record, records: seq<Record>) {
    || Has(records, s.id)
    || (|records| == 50 && forall r | r in records :: r.at > s.at)
  }

  /** The records are the newest of what was seen, as many as fit, newest first. */
  ghost predicate NewestOf(records: seq<Record>, seen: seq<Record>) {
    && |records| <= 50 && StrictlyNewestFirst(records)
    && (forall r | r in records :: Stems(r, seen))
    && (forall s | s in seen :: Settled(s, records))
  }

  lemma SameStampSameId(seen: seq<Record>, records: seq<Record>, r: Record, i: nat)
    requires Stamped(seen) && r in seen && i < |records| && Stems(records[i], seen)
    ensures records[i].id == r.id <==> records[i].at == r.at
  {
    var s :| s in seen && s.id == records[i].id && s.at == records[i].at;
  }

  lemma StrictWhenNew(records: seq<Record>, seen: seq<Record>, r: Record)
    requires NewestOf(records, seen) && Stamped(seen + [r]) && !Has(records, r.id)
    ensures forall x | x in records :: x.at != r.at
  {
    forall x | x in records ensures x.at != r.at {
      var s :| s in seen && s.id == x.id && s.at == x.at;
      assert s in seen + [r] && r in seen + [r];
      var i :| 0 <= i < |records| && records[i] == x;
    }
  }

  lemma SortedStrict(records: seq<Record>, r: Record)
    requires StrictlyNewestFirst(records) && forall x | x in records :: x.at != r.at
    ensures StrictlyNewestFirst(Sort([r] + records)) && |Sort([r] + records)| == |records| + 1
    ensures forall x :: x in Sort([r] + records) <==> x == r || x in records
  {
    SortOfSorted(records);
    assert ([r] + records)[1..] == records;
    InsertStrict(r, records);
    InsertSorts(r, records);
  }

  lemma {:induction false} SortOfSorted(s: seq<Record>)
    requires NewestFirst(s)
    ensures Sort(s) == s
    decreases |s|
  {
    if s != [] {
      SortOfSorted(s[1..]);
      assert s == [s[0]] + s[1..];
    }
  }

  lemma ConsStrict(x: Record, u: seq<Record>)
    requires StrictlyNewestFirst(u) && forall y | y in u :: y.at < x.at
    ensures StrictlyNewestFirst([x] + u)
  {
    var t := [x] + u;
    forall i, j | 0 <= i < j < |t| ensures t[i].at > t[j].at {
      assert t[j] == u[j - 1] && u[j - 1] in u;
      if i > 0 { assert t[i] == u[i - 1]; }
    }
  }

  lemma HeadIsNewest(s: seq<Record>, y: Record)
    requires StrictlyNewestFirst(s) && s != [] && y in s[1..]
    ensures y.at < s[0].at
  {
    var j :| 0 <= j < |s[1..]| && s[1..][j] == y;
    assert s[j + 1] == y;
  }

  lemma {:induction false} InsertStrict(r: Record, s: seq<Record>)
    requires StrictlyNewestFirst(s) && forall x | x in s :: x.at != r.at
    ensures StrictlyNewestFirst(Insert(r, s)) && (forall x :: x in Insert(r, s) <==> x == r || x in s)
    decreases |s|
  {
    if s == [] || r.at >= s[0].at {
      forall y | y in s ensures y.at < r.at {
        if y != s[0] { HeadIsNewest(s, y); }
        assert s[0] in s;
      }
      ConsStrict(r, s);
    } else {
      assert s == [s[0]] + s[1..];
      assert StrictlyNewestFirst(s[1..]);
      InsertStrict(r, s[1..]);
      forall y | y in s[1..] ensures y.at < s[0].at { HeadIsNewest(s, y); }
      ConsStrict(s[0], Insert(r, s[1..]));
    }
  }

  lemma IngestKeepsNewest(records: seq<Record>, seen: seq<Record>, r: Record)
    requires NewestOf(records, seen) && Stamped(seen + [r])
    ensures NewestOf(Ingested(records, r), seen + [r])
  {
    var more := seen + [r];
    assert r in more;
    forall x | x in records ensures Stems(x, more) {
      var s :| s in seen && s.id == x.id && s.at == x.at;
      assert s in more;
    }
    if !Has(records, r.id) {
      StrictWhenNew(records, seen, r);
      SortedStrict(records, r);
      AddedIsNewest(records, seen, r);
    } else {
      forall s | s in more ensures Settled(s, records) {
        assert s in seen || s == r;
      }
    }
  }

  lemma AddedIsNewest(records: seq<Record>, seen: seq<Record>, r: Record)
    requires NewestOf(records, seen) && Stamped(seen + [r]) && !Has(records, r.id)
    requires forall x | x in records :: Stems(x, seen + [r])
    requires var sorted := Sort([r] + records);
      && StrictlyNewestFirst(sorted) && |sorted| == |records| + 1
      && forall x :: x in sorted <==> x == r || x in records
    ensures NewestOf(Kept(Sort([r] + records)), seen + [r])
  {
    var sorted := Sort([r] + records);
    var kept := Kept(sorted);
    hide Sort;
    assert r in seen + [r];
    forall x | x in kept ensures Stems(x, seen + [r]) {
      assert x in sorted;
      if x == r { assert r.id == x.id; }
    }
    forall s | s in seen + [r] ensures Settled(s, kept) {
      assert s == r || s in seen;
      if s == r {
        HeldOrLast(sorted, r, s);
      } else if Has(records, s.id) {
        var i :| 0 <= i < |records| && records[i].id == s.id;
        SameStampSameId(seen + [r], records, s, i);
        HeldOrLast(sorted, records[i], s);
      } else {
        OlderStays(records, sorted, r, s);
      }
    }
  }

  lemma HeldOrLast(sorted: seq<Record>, x: Record, s: Record)
    requires |sorted| <= MAX + 1 && StrictlyNewestFirst(sorted) && x in sorted && x.id == s.id && x.at == s.at
    ensures Settled(s, Kept(sorted))
  {
    var kept := Kept(sorted);
    var i :| 0 <= i < |sorted| && sorted[i] == x;
    if i < |kept| {
      assert kept[i].id == s.id;
    } else {
      assert i == MAX;
      forall y | y in kept ensures y.at > x.at {
        var j :| 0 <= j < |kept| && kept[j] == y;
        assert sorted[j] == y;
      }
    }
  }

  lemma OlderStays(records: seq<Record>, sorted: seq<Record>, r: Record, s: Record)
    requires |records| == MAX && |sorted| == MAX + 1 && StrictlyNewestFirst(sorted)
    requires forall x :: x in sorted <==> x == r || x in records
    requires forall x | x in records :: x.at > s.at
    ensures Settled(s, Kept(sorted))
  {
    var kept := Kept(sorted);
    var last := sorted[MAX];
    forall x | x in kept ensures x.at > s.at {
      var j :| 0 <= j < |kept| && kept[j] == x;
      assert sorted[j] == x && x in sorted && last in sorted;
      assert x.at > last.at;
    }
  }

  lemma StampedLess(seen: seq<Record>, more: seq<Record>)
    requires Stamped(seen + more)
    ensures Stamped(seen)
  {
    forall r, s | r in seen && s in seen ensures r.id == s.id <==> r.at == s.at {
      assert r in seen + more && s in seen + more;
    }
  }

  lemma {:induction false} IngestAllKeepsNewest(records: seq<Record>, seen: seq<Record>, more: seq<Record>)
    requires NewestOf(records, seen) && Stamped(seen + more)
    ensures NewestOf(IngestedAll(records, more), seen + more)
    decreases |more|
  {
    hide NewestOf, Ingested;
    if more == [] {
      assert seen + more == seen;
    } else {
      var front := more[..|more| - 1];
      var r := more[|more| - 1];
      assert seen + more == seen + front + [r];
      StampedLess(seen + front, [r]);
      IngestAllKeepsNewest(records, seen, front);
      IngestKeepsNewest(IngestedAll(records, front), seen + front, r);
    }
  }

  lemma NothingSeen()
    ensures NewestOf([], [])
  {
  }

  /** Streaming top fifty: after any run of live events, replays, openings and
      clears, the history is exactly the fifty newest distinct notices ingested
      since the last clear. */
  lemma {:induction false} HistoryIsNewest(actions: seq<Action>)
    requires Stamped(Seen(Start, actions))
    ensures NewestOf(Run(Start, actions).records, Seen(Start, actions))
    decreases |actions|
  {
    hide NewestOf, Ingested, Stamped;
    NothingSeen();
    if actions != [] && !actions[|actions| - 1].Clear? {
      var earlier := actions[..|actions| - 1];
      var seen := Seen(Start, earlier);
      var a := actions[|actions| - 1];
      var more := if a.Live? then [a.record]
        else if a.Observe? && a.now >= Run(Start, earlier).suppressedUntil then a.notices else [];
      assert Seen(Start, actions) == seen + more;
      StampedLess(seen, more);
      HistoryIsNewest(earlier);
      IngestAllKeepsNewest(Run(Start, earlier).records, seen, more);
      if a.Live? { assert [a.record][..0] == []; }
    }
  }

  // ---- The order and the repetitions do not matter ----

  function IdList(records: seq<Record>): (s: seq<string>)
    ensures |s| == |records| && forall i :: 0 <= i < |s| ==> s[i] == records[i].id
  {
    seq(|records|, i requires 0 <= i < |records| => records[i].id)
  }

  /** The same ids at the same times, in any order and any number of times. */
  ghost predicate SameSeen(a: seq<Record>, b: seq<Record>) {
    && (forall r | r in a :: Stems(r, b))
    && (forall r | r in b :: Stems(r, a))
  }

  function Times(records: seq<Record>): set<int> {
    if records == [] then {} else Times(records[..|records| - 1]) + {records[|records| - 1].at}
  }

  lemma {:induction false} TimesAre(records: seq<Record>, t: int)
    ensures t in Times(records) <==> exists r :: r in records && r.at == t
    decreases |records|
  {
    if records != [] {
      var front := records[..|records| - 1];
      var last := records[|records| - 1];
      assert records == front + [last];
      TimesAre(front, t);
      if t in Times(front) {
        var r :| r in front && r.at == t;
        assert r in records;
      }
      if t == last.at { assert last in records; }
    }
  }

  lemma TimeOf(records: seq<Record>, r: Record)
    requires r in records
    ensures r.at in Times(records)
  {
    TimesAre(records, r.at);
  }

  lemma LastIsOldest(a: seq<Record>, t: int)
    requires StrictlyNewestFirst(a) && a != [] && t in Times(a[..|a| - 1])
    ensures t > a[|a| - 1].at
  {
    var front := a[..|a| - 1];
    TimesAre(front, t);
    var r :| r in front && r.at == t;
    var i :| 0 <= i < |front| && front[i] == r;
    assert a[i] == r;
  }

  lemma {:induction false} TimesCount(records: seq<Record>)
    requires StrictlyNewestFirst(records)
    ensures |Times(records)| == |records|
    decreases |records|
  {
    if records != [] {
      var front := records[..|records| - 1];
      var last := records[|records| - 1];
      TimesCount(front);
      if last.at in Times(front) { LastIsOldest(records, last.at); }
    }
  }

  /** `top` is the greatest of `all`, as many as fit. */
  ghost predicate TopOf(top: set<int>, all: set<int>) {
    && top <= all && |top| <= MAX
    && forall t | t in all :: t in top || (|top| == MAX && forall u | u in top :: u > t)
  }

  lemma SubsetCount(a: set<int>, b: set<int>)
    requires a <= b
    ensures |a| <= |b|
  {
    assert b == a + (b - a);
  }

  /** What is missing from a full top stays missing as more comes in. */
  lemma TopGrows(top: set<int>, all: set<int>, later: set<int>, more: set<int>, t: int)
    requires TopOf(top, all) && TopOf(later, more) && all <= more && t in all && t !in top
    ensures t !in later
  {
    if t in later {
      forall u | u in top ensures u in later {
        assert u in more;
      }
      SubsetCount(top + {t}, later);
    }
  }

  lemma TopUnique(a: set<int>, b: set<int>, all: set<int>)
    requires TopOf(a, all) && TopOf(b, all)
    ensures a == b
  {
    forall t | t in a ensures t in b {
      if t !in b { TopGrows(b, all, a, all, t); }
    }
    forall t | t in b ensures t in a {
      if t !in a { TopGrows(a, all, b, all, t); }
    }
  }

  /** In times, the history is the top of what was seen. */
  lemma NewestIsTop(records: seq<Record>, seen: seq<Record>)
    requires NewestOf(records, seen) && Stamped(seen)
    ensures TopOf(Times(records), Times(seen))
  {
    TimesCount(records);
    forall t | t in Times(records) ensures t in Times(seen) {
      TimesAre(records, t);
      var r :| r in records && r.at == t;
      var s :| s in seen && s.id == r.id && s.at == r.at;
      TimeOf(seen, s);
    }
    forall t | t in Times(seen)
      ensures t in Times(records) || (|Times(records)| == MAX && forall u | u in Times(records) :: u > t)
    {
      TimesAre(seen, t);
      var s :| s in seen && s.at == t;
      SettledTime(records, seen, s);
    }
  }

  lemma SettledTime(records: seq<Record>, seen: seq<Record>, s: Record)
    requires NewestOf(records, seen) && Stamped(seen) && s in seen
    ensures s.at in Times(records) || (|records| == MAX && forall u | u in Times(records) :: u > s.at)
  {
    assert Settled(s, records);
    if Has(records, s.id) {
      var i :| 0 <= i < |records| && records[i].id == s.id;
      assert records[i] in records;
      SameStampSameId(seen, records, s, i);
      TimeOf(records, records[i]);
    } else {
      forall u | u in Times(records) ensures u > s.at {
        TimesAre(records, u);
      }
    }
  }

  lemma {:induction false} SameTimesSameOrder(a: seq<Record>, b: seq<Record>)
    requires StrictlyNewestFirst(a) && StrictlyNewestFirst(b) && Times(a) == Times(b)
    ensures |a| == |b| && forall i :: 0 <= i < |a| ==> a[i].at == b[i].at
    decreases |a|
  {
    TimesCount(a);
    TimesCount(b);
    if a != [] {
      var m := |a| - 1;
      var front, other := a[..m], b[..m];
      SameLast(a, b);
      SameTimesSameOrder(front, other);
      forall i | 0 <= i < |a| ensures a[i].at == b[i].at {
        if i < m { assert front[i].at == other[i].at; }
      }
    }
  }

  lemma SameLast(a: seq<Record>, b: seq<Record>)
    requires StrictlyNewestFirst(a) && StrictlyNewestFirst(b) && Times(a) == Times(b)
    requires a != [] && |a| == |b|
    ensures a[|a| - 1].at == b[|b| - 1].at && Times(a[..|a| - 1]) == Times(b[..|b| - 1])
  {
    var m := |a| - 1;
    var x, y := a[m].at, b[m].at;
    if x in Times(b[..m]) { LastIsOldest(b, x); }
    if y in Times(a[..m]) { LastIsOldest(a, y); }
    if x in Times(a[..m]) { LastIsOldest(a, x); }
    if y in Times(b[..m]) { LastIsOldest(b, y); }
    assert Times(a[..m]) == Times(a) - {x};
    assert Times(b[..m]) == Times(b) - {y};
  }

  lemma SeenTimesWithin(a: seq<Record>, b: seq<Record>)
    requires forall r | r in a :: Stems(r, b)
    ensures Times(a) <= Times(b)
  {
    forall t | t in Times(a) ensures t in Times(b) {
      TimesAre(a, t);
      var r :| r in a && r.at == t;
      var s :| s in b && s.id == r.id && s.at == r.at;
      TimeOf(b, s);
    }
  }

  lemma SameSeenTimes(a: seq<Record>, b: seq<Record>)
    requires SameSeen(a, b)
    ensures Times(a) == Times(b)
  {
    SeenTimesWithin(a, b);
    SeenTimesWithin(b, a);
  }

  /** Two histories that saw the same notices, in whatever order and however
      often, list the same ids in the same order. */
  lemma OrderDoesNotMatter(a: seq<Record>, b: seq<Record>, seenA: seq<Record>, seenB: seq<Record>)
    requires NewestOf(a, seenA) && NewestOf(b, seenB) && Stamped(seenA) && Stamped(seenB) && SameSeen(seenA, seenB)
    ensures IdList(a) == IdList(b)
  {
    NewestIsTop(a, seenA);
    NewestIsTop(b, seenB);
    SameSeenTimes(seenA, seenB);
    TopUnique(Times(a), Times(b), Times(seenB));
    SameTimesSameOrder(a, b);
    forall i | 0 <= i < |a| ensures a[i].id == b[i].id {
      SameTimeSameId(a, b, seenA, seenB, i);
    }
  }

  lemma SameTimeSameId(a: seq<Record>, b: seq<Record>, seenA: seq<Record>, seenB: seq<Record>, i: nat)
    requires NewestOf(a, seenA) && NewestOf(b, seenB) && Stamped(seenB) && SameSeen(seenA, seenB)
    requires i < |a| && i < |b| && a[i].at == b[i].at
    ensures a[i].id == b[i].id
  {
    assert Stems(a[i], seenA) && Stems(b[i], seenB) by { assert a[i] in a && b[i] in b; }
    var s :| s in seenA && s.id == a[i].id && s.at == a[i].at;
    assert Stems(s, seenB);
    var t :| t in seenB && t.id == s.id && t.at == s.at;
    SameStampSameId(seenB, b, t, i);
  }

  // ---- Notices that have fallen off the end ----

  lemma IngestKeepsOrder(records: seq<Record>, r: Record)
    requires NewestFirst(records) && |records| <= MAX
    ensures NewestFirst(Ingested(records, r)) && |Ingested(records, r)| <= MAX
  {
    SortSorts([r] + records);
    hide Sort;
  }

  lemma {:induction false} IngestAllKeepsOrder(records: seq<Record>, more: seq<Record>)
    requires NewestFirst(records) && |records| <= MAX
    ensures NewestFirst(IngestedAll(records, more)) && |IngestedAll(records, more)| <= MAX
    decreases |more|
  {
    hide Ingested;
    if more != [] {
      IngestAllKeepsOrder(records, more[..|more| - 1]);
      IngestKeepsOrder(IngestedAll(records, more[..|more| - 1]), more[|more| - 1]);
    }
  }

  /** A history is in order and never over its limit, after any run and whatever
      the times. */
  lemma {:induction false} AlwaysInOrder(actions: seq<Action>)
    ensures var records := Run(Start, actions).records; NewestFirst(records) && |records| <= 50
    decreases |actions|
  {
    hide Ingested, NewestFirst;
    assert NewestFirst([]) by { NothingIsInOrder(); }
    if actions != [] {
      var earlier := actions[..|actions| - 1];
      var a := actions[|actions| - 1];
      AlwaysInOrder(earlier);
      if a.Live? { IngestKeepsOrder(Run(Start, earlier).records, a.record); }
      if a.Observe? { IngestAllKeepsOrder(Run(Start, earlier).records, a.notices); }
    }
  }

  lemma NothingIsInOrder()
    ensures NewestFirst([])
  {
  }

  /** Full, in order, and without this notice. */
  predicate FullWithout(records: seq<Record>, id: string) {
    |records| == MAX && NewestFirst(records) && !Has(records, id)
  }

  /** A record no older than the last goes in front of it. */
  lemma {:induction false} InsertBefore(r: Record, front: seq<Record>, last: Record)
    requires r.at >= last.at
    ensures Insert(r, front + [last]) == Insert(r, front) + [last]
    decreases |front|
  {
    var s := front + [last];
    if front == [] {
      assert s == [last] && [r] + [last] == [r] + s;
    } else if r.at >= s[0].at {
      assert [r] + front + [last] == [r] + s;
    } else {
      assert s[1..] == front[1..] + [last];
      InsertBefore(r, front[1..], last);
      assert [s[0]] + (Insert(r, front[1..]) + [last]) == [s[0]] + Insert(r, front[1..]) + [last];
    }
  }

  /** One older than all goes behind them. */
  lemma {:induction false} InsertBehind(r: Record, s: seq<Record>)
    requires forall x | x in s :: r.at < x.at
    ensures Insert(r, s) == s + [r]
    decreases |s|
  {
    if s != [] {
      assert s[0] in s && s == [s[0]] + s[1..];
      InsertBehind(r, s[1..]);
    }
  }

  /** Sorting in keeps all but the oldest, and the new record unless it is older
      than all of them. */
  lemma InsertPlace(r: Record, s: seq<Record>)
    requires NewestFirst(s) && s != []
    ensures var t := Insert(r, s);
      && |t| == |s| + 1 && NewestFirst(t)
      && if r.at >= s[|s| - 1].at then t[|s|] == s[|s| - 1] && r in t[..|s|] else t == s + [r]
  {
    InsertSorts(r, s);
    var front, last := s[..|s| - 1], s[|s| - 1];
    assert s == front + [last];
    if r.at >= last.at {
      InsertBefore(r, front, last);
      InsertHolds(r, front);
      hide Insert, NewestFirst;
      assert (Insert(r, front) + [last])[..|s|] == Insert(r, front);
    } else {
      forall x | x in s ensures r.at < x.at {
        OldestLast(s, x);
      }
      hide NewestFirst;
      InsertBehind(r, s);
    }
  }

  lemma IngestedFull(records: seq<Record>, r: Record)
    requires FullWithout(records, r.id)
    ensures |Insert(r, records)| == MAX + 1 && Ingested(records, r) == Insert(r, records)[..MAX]
  {
    assert ([r] + records)[1..] == records;
    SortOfSorted(records);
    InsertSorts(r, records);
  }

  /** A notice ingested into a full history is held if and only if it is no older
      than the oldest record, which it then drives out - at equal times too. */
  lemma HeldIff(records: seq<Record>, r: Record)
    requires FullWithout(records, r.id)
    ensures var later := Ingested(records, r);
      && (Has(later, r.id) <==> r.at >= records[MAX - 1].at)
      && |later| == MAX && NewestFirst(later) && later[MAX - 1].at >= records[MAX - 1].at
      && (r.at < records[MAX - 1].at ==> later == records)
  {
    IngestedFull(records, r);
    InsertPlace(r, records);
    hide Insert;
    var t := Insert(r, records);
    assert t[MAX - 1].at >= t[MAX].at;
    if r.at >= records[MAX - 1].at {
      var k :| 0 <= k < MAX && t[..MAX][k] == r;
      assert t[..MAX][k].id == r.id;
    } else {
      assert t[..MAX] == records;
    }
  }

  /** Every copy of the notice carries the same time. */
  predicate FixedTime(more: seq<Record>, id: string, at: int) {
    forall i :: 0 <= i < |more| && more[i].id == id ==> more[i].at == at
  }

  lemma HasAfter(records: seq<Record>, r: Record, id: string)
    requires FullWithout(records, r.id) && r.id != id && !Has(records, id)
    ensures !Has(Ingested(records, r), id)
  {
    IngestedFull(records, r);
    InsertHolds(r, records);
    var later := Ingested(records, r);
    assert forall i :: 0 <= i < |later| ==> later[i] == Insert(r, records)[i] && later[i] in Insert(r, records);
  }

  /** A notice older than everything in a full history stays out, whatever else is
      ingested and whatever times those notices share. */
  lemma {:induction false} OlderStaysOut(records: seq<Record>, more: seq<Record>, id: string, at: int)
    requires FullWithout(records, id) && at < records[MAX - 1].at && FixedTime(more, id, at)
    ensures var later := IngestedAll(records, more); FullWithout(later, id) && at < later[MAX - 1].at
    decreases |more|
  {
    if more != [] {
      var front := more[..|more| - 1];
      var r := more[|more| - 1];
      assert forall i :: 0 <= i < |front| ==> front[i] == more[i];
      OlderStaysOut(records, front, id, at);
      hide Ingested;
      var held := IngestedAll(records, front);
      OneMoreStaysOut(held, r, id, at);
    }
  }

  lemma OneMoreStaysOut(records: seq<Record>, r: Record, id: string, at: int)
    requires FullWithout(records, id) && at < records[MAX - 1].at && (r.id == id ==> r.at == at)
    ensures var later := Ingested(records, r); FullWithout(later, id) && at < later[MAX - 1].at
  {
    if !Has(records, r.id) {
      HeldIff(records, r);
      if r.id != id { HasAfter(records, r, id); }
    }
    hide Sort;
  }

  /** "Ids that have aged out of the history can never return" does not hold: times
      are whole seconds, and a notice that has fallen off the end comes back - with
      its read mark pruned - if and only if it is no older than the oldest one held. */
  lemma ComesBackIff(records: seq<Record>, id: string, at: int)
    requires FullWithout(records, id)
    ensures (exists more :: FixedTime(more, id, at) && Has(IngestedAll(records, more), id)) <==> at >= records[MAX - 1].at
  {
    if at >= records[MAX - 1].at {
      var r := Record(id, "", at);
      HeldIff(records, r);
      assert [r][..0] == [];
      assert IngestedAll(records, [r]) == Ingested(records, r);
      assert FixedTime([r], id, at);
    } else {
      forall more | FixedTime(more, id, at) ensures !Has(IngestedAll(records, more), id) {
        OlderStaysOut(records, more, id, at);
      }
    }
  }

  /** The tie itself: a notice driven out by others of the same second comes back
      with the next replay, unread even if it had been read, and drives out the
      oldest in its turn. */
  lemma TieComesBackUnread(s: Store, dropped: Record)
    requires FullWithout(s.records, dropped.id) && dropped.at == s.records[MAX - 1].at && s.readIds <= Ids(s.records)
    ensures var t := Next(s, Live(dropped));
      && Has(t.records, dropped.id) && dropped.id !in t.readIds
      && multiset(t.records) + multiset{s.records[MAX - 1]} == multiset(s.records) + multiset{dropped}
  {
    HeldIff(s.records, dropped);
    IngestedFull(s.records, dropped);
    InsertPlace(dropped, s.records);
    InsertHolds(dropped, s.records);
    var t := Insert(dropped, s.records);
    assert t == t[..MAX] + [t[MAX]];
    hide Insert;
    assert multiset(t) == multiset(t[..MAX]) + multiset{t[MAX]};
    NotRead(s.records, s.readIds, dropped.id);
  }

  lemma NotRead(records: seq<Record>, readIds: set<string>, id: string)
    requires !Has(records, id) && readIds <= Ids(records)
    ensures id !in readIds
  {
  }

  /** Where every notice has a time of its own a notice that has fallen off the end
      is older than everything held, and so it stays out. */
  lemma AgedOutStaysOut(records: seq<Record>, seen: seq<Record>, more: seq<Record>, s: Record)
    requires NewestOf(records, seen) && s in seen && !Has(records, s.id) && FixedTime(more, s.id, s.at)
    ensures !Has(IngestedAll(records, more), s.id)
  {
    assert Settled(s, records);
    assert records[MAX - 1] in records;
    assert NewestFirst(records);
    OlderStaysOut(records, more, s.id, s.at);
  }

  // ---- What has been read ----

  lemma {:induction false} UnreadIgnoresRest(records: seq<Record>, readIds: set<string>, live: set<string>)
    requires forall r | r in records :: r.id in live
    ensures Unread(records, readIds * live) == Unread(records, readIds)
    decreases |records|
  {
    if records != [] {
      UnreadIgnoresRest(records[..|records| - 1], readIds, live);
      assert records[|records| - 1] in records;
    }
  }

  lemma {:induction false} UnreadZero(records: seq<Record>, readIds: set<string>)
    ensures Unread(records, readIds) == 0 <==> Ids(records) <= readIds
    decreases |records|
  {
    if records != [] {
      var front := records[..|records| - 1];
      assert records == front + [records[|records| - 1]];
      UnreadZero(front, readIds);
      IdsPush(front, records[|records| - 1]);
    }
  }

  /** Every poll that is not suppressed leaves no read mark without a record, and
      pruning itself moves no notice between read and unread. */
  lemma PruningIsInvisible(s: Store, notices: seq<Record>, now: int)
    requires now >= s.suppressedUntil
    ensures var t := Next(s, Observe(notices, now));
      && t.readIds <= Ids(t.records)
      && Unread(t.records, t.readIds) == Unread(t.records, s.readIds)
  {
    var records := IngestedAll(s.records, notices);
    UnreadIgnoresRest(records, s.readIds, Ids(records));
  }

  /** Opening the panel clears the count, and the rows shown as unread until it
      closes are exactly those that were. */
  lemma OpeningReads(s: Store)
    requires !s.open
    ensures var t := Next(s, Toggle);
      && Unread(t.records, t.readIds) == 0
      && (forall r | r in s.records :: (r.id in t.readIds && r.id !in t.seenUnread) <==> r.id in s.readIds)
  {
    var t := Next(s, Toggle);
    UnreadZero(t.records, t.readIds);
  }

  function Counts(r: Record, readIds: set<string>): nat {
    if r.id in readIds then 0 else 1
  }

  /** What a history of at most MAX records lets go of for a new one: the oldest,
      which may be the new one itself, once it is full. */
  function Evicted(records: seq<Record>, r: Record): Option<Record>
    requires |records| <= MAX
  {
    SortSorts([r] + records);
    if |records| == MAX then Some(Sort([r] + records)[MAX]) else None
  }

  /** A new notice raises the unread count by one if it is unread and kept, and
      lowers it by one if it drives an unread one out; so with a full history it
      may raise it, lower it or leave it. */
  lemma ArrivalsCount(s: Store, r: Record)
    requires !Has(s.records, r.id) && |s.records| <= MAX
    ensures var after := Unread(Next(s, Live(r)).records, s.readIds);
      var evicted := Evicted(s.records, r);
      && after == Unread(s.records, s.readIds) + Counts(r, s.readIds) - (if evicted.Some? then Counts(evicted.value, s.readIds) else 0)
      && (evicted.Some? ==> forall x | x in [r] + s.records :: x.at >= evicted.value.at)
      && (after < Unread(s.records, s.readIds) <==> evicted.Some? && r.id in s.readIds && evicted.value.id !in s.readIds)
  {
    var all := [r] + s.records;
    var sorted := Sort(all);
    SortSorts(all);
    UnreadOfPermutation(sorted, all, s.readIds);
    UnreadCons(r, s.records, s.readIds);
    if |s.records| == MAX {
      assert sorted == sorted[..MAX] + [sorted[MAX]];
      UnreadPush(sorted[..MAX], sorted[MAX], s.readIds);
      forall x | x in all ensures x.at >= sorted[MAX].at {
        assert x in multiset(sorted);
        OldestLast(sorted, x);
      }
    }
    hide Sort, Unread;
  }

  lemma OldestLast(sorted: seq<Record>, x: Record)
    requires NewestFirst(sorted) && x in multiset(sorted)
    ensures x.at >= sorted[|sorted| - 1].at
  {
    var k :| 0 <= k < |sorted| && sorted[k] == x;
  }

  lemma {:induction false} UnreadCons(r: Record, records: seq<Record>, readIds: set<string>)
    ensures Unread([r] + records, readIds) == Unread(records, readIds) + if r.id in readIds then 0 else 1
    decreases |records|
  {
    var all := [r] + records;
    if records == [] {
      assert all[..0] == [];
    } else {
      UnreadCons(r, records[..|records| - 1], readIds);
      assert all[..|all| - 1] == [r] + records[..|records| - 1];
    }
  }

  lemma UnreadPush(records: seq<Record>, r: Record, readIds: set<string>)
    ensures Unread(records + [r], readIds) == Unread(records, readIds) + if r.id in readIds then 0 else 1
  {
    assert (records + [r])[..|records|] == records;
  }

  lemma {:induction false} UnreadTake(records: seq<Record>, i: nat, readIds: set<string>)
    requires i < |records|
    ensures Unread(records, readIds) == Unread(records[..i] + records[i + 1..], readIds) + if records[i].id in readIds then 0 else 1
    decreases |records|
  {
    hide Unread;
    var n := |records| - 1;
    var front, last := records[..n], records[n];
    assert records == front + [last];
    UnreadPush(front, last, readIds);
    if i < n {
      UnreadTake(front, i, readIds);
      var less := front[..i] + front[i + 1..];
      UnreadPush(less, last, readIds);
      assert records[..i] + records[i + 1..] == less + [last];
    } else {
      assert records[..i] + records[i + 1..] == front;
    }
  }

  lemma WithoutLast(a: seq<Record>)
    requires a != []
    ensures multiset(a) == multiset(a[..|a| - 1]) + multiset{a[|a| - 1]}
  {
    assert a == a[..|a| - 1] + [a[|a| - 1]];
  }

  lemma Without(b: seq<Record>, i: nat)
    requires i < |b|
    ensures multiset(b[..i] + b[i + 1..]) == multiset(b) - multiset{b[i]}
  {
    assert b == b[..i] + [b[i]] + b[i + 1..];
  }

  lemma {:induction false} UnreadOfPermutation(a: seq<Record>, b: seq<Record>, readIds: set<string>)
    requires multiset(a) == multiset(b)
    ensures Unread(a, readIds) == Unread(b, readIds)
    decreases |a|
  {
    assert |multiset(a)| == |a| && |multiset(b)| == |b|;
    if a != [] {
      var n := |a| - 1;
      assert a[n] in multiset(b);
      assert a[n] in b;
      var i :| 0 <= i < |b| && b[i] == a[n];
      var less := b[..i] + b[i + 1..];
      WithoutLast(a);
      Without(b, i);
      assert multiset(a[..n]) == multiset(a) - multiset{a[n]};
      hide Unread;
      UnreadOfPermutation(a[..n], less, readIds);
      UnreadTake(b, i, readIds);
    }
  }

  // ---- After a clear, and read by hand ----

  lemma RunJoins(s: Store, actions: seq<Action>, a: Action)
    ensures Run(s, actions + [a]) == Next(Run(s, actions), a)
  {
    assert (actions + [a])[..|actions|] == actions;
  }

  predicate NeverClears(actions: seq<Action>) {
    forall i :: 0 <= i < |actions| ==> !actions[i].Clear?
  }

  lemma {:induction false} SuppressionStays(s: Store, actions: seq<Action>, later: seq<Action>)
    requires NeverClears(later)
    ensures Run(s, actions + later).suppressedUntil == Run(s, actions).suppressedUntil
    decreases |later|
  {
    hide Ingested, IngestedAll, Ids, UnreadIds;
    if later == [] {
      assert actions + later == actions;
    } else {
      var n := |later| - 1;
      assert (actions + later)[..|actions + later| - 1] == actions + later[..n];
      SuppressionStays(s, actions, later[..n]);
    }
  }

  /** A replay is ignored for exactly six seconds after the last clear, and before
      any clear not at all; where it is not, every notice of it is taken in and
      the read marks without a record are dropped. */
  lemma ReplayTakenIff(actions: seq<Action>, cleared: int, later: seq<Action>, notices: seq<Record>, now: int)
    requires NeverClears(later)
    ensures var s := Run(Start, actions + [Clear(cleared)] + later);
      var records := IngestedAll(s.records, notices);
      Run(Start, actions + [Clear(cleared)] + later + [Observe(notices, now)]) ==
        if now < cleared + 6000 then s
        else s.(records := records, readIds := set id | id in s.readIds && exists r :: r in records && r.id == id)
    ensures now >= 0 ==>
      Run(Start, later + [Observe(notices, now)]).records == IngestedAll(Run(Start, later).records, notices)
  {
    hide IngestedAll, Run, Ids;
    var all := actions + [Clear(cleared)] + later;
    RunJoins(Start, all, Observe(notices, now));
    RunJoins(Start, actions, Clear(cleared));
    SuppressionStays(Start, actions + [Clear(cleared)], later);
    PrunedIds(Run(Start, all).readIds, IngestedAll(Run(Start, all).records, notices));
    RunJoins(Start, later, Observe(notices, now));
    assert [] + later == later;
    RunNothing(Start);
    SuppressionStays(Start, [], later);
  }

  lemma RunNothing(s: Store)
    ensures Run(s, []) == s
  {
  }

  lemma PrunedIds(readIds: set<string>, records: seq<Record>)
    ensures readIds * Ids(records) == set id | id in readIds && exists r :: r in records && r.id == id
  {
  }

  /** Clearing empties the history and its marks and keeps the panel as it is; read
      by hand, the count is zero and the records stay; closing forgets which rows
      were new, and nothing else. */
  lemma ByHand(s: Store, now: int)
    ensures var c := Next(s, Clear(now));
      c.records == [] && c.readIds == {} && c.seenUnread == {} && c.open == s.open
    ensures var m := Next(s, MarkAllRead);
      Unread(m.records, m.readIds) == 0 && m == s.(readIds := m.readIds) && forall id :: id in m.readIds <==> id in s.readIds || Has(s.records, id)
    ensures Next(s, Close) == s.(open := false, seenUnread := {})
    ensures s.open ==> Next(s, Toggle) == s.(open := false)
  {
    var m := Next(s, MarkAllRead);
    forall i | 0 <= i < |s.records| ensures s.records[i].id in m.readIds {
      assert s.records[i] in s.records;
    }
    forall id ensures id in m.readIds <==> id in s.readIds || Has(s.records, id) {
      if Has(s.records, id) {
        var i :| 0 <= i < |s.records| && s.records[i].id == id;
        assert s.records[i] in s.records;
      }
    }
    UnreadZero(m.records, m.readIds);
  }
}
