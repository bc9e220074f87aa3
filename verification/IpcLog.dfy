/** The debug log's general transcript: a run of identical calls to one method is
    collapsed into its opening line and, when the run ends or has lasted long
    enough, one summary line. Times and durations are milliseconds. */
module IpcLog {
  import opened Basics

  const FLUSH_MS: nat := 15_000

  datatype Key = Key(service: string, operation: string)

  /** Everything of a call but its time and duration. */
  datatype Signature = Signature(key: Key, params: Option<string>, ok: bool, error: Option<string>)

  /** `now` is the clock as the streaks see it, `stamped` the second reading that a
      new opening line is written with. */
  datatype Call = Call(signature: Signature, duration: nat, now: nat, stamped: nat)

  datatype Line =
    | Opening(signature: Signature, duration: nat, ts: nat)
    | Summary(signature: Signature, repeat: nat, min: nat, max: nat, avg: nat, ts: nat)

  datatype Streak = Streak(signature: Signature, count: nat, first: nat, min: nat, max: nat, sum: nat)

  datatype Log = Log(streaks: map<Key, Streak>, lines: seq<Line>)

  /** A clock that was set back makes no time pass. */
  function Since(now: nat, first: nat): nat {
    if now >= first then now - first else 0
  }

  function Average(sum: nat, count: nat): nat {
    if count == 0 then 0 else sum / count
  }

  function Flushed(lines: seq<Line>, s: Streak, now: nat): seq<Line> {
    if s.count <= 1 then lines
    else lines + [Summary(s.signature, s.count - 1, s.min, s.max, Average(s.sum, s.count), now)]
  }

  function Longer(s: Streak, duration: nat): Streak {
    s.(count := s.count + 1, min := Min(s.min, duration), max := Max(s.max, duration), sum := s.sum + duration)
  }

  function Opened(c: Call): Streak {
    Streak(c.signature, 1, c.now, c.duration, c.duration, c.duration)
  }

  function Recorded(log: Log, c: Call): Log {
    var key := c.signature.key;
    if key in log.streaks && log.streaks[key].signature == c.signature then
      var s := Longer(log.streaks[key], c.duration);
      if Since(c.now, s.first) >= FLUSH_MS then Log(log.streaks - {key}, Flushed(log.lines, s, c.now))
      else log.(streaks := log.streaks[key := s])
    else
      var ended := if key in log.streaks then Flushed(log.lines, log.streaks[key], c.now) else log.lines;
      Log(log.streaks[key := Opened(c)], ended + [Opening(c.signature, c.duration, c.stamped)])
  }

  class Recorder {
    var streaks: map<Key, Streak>
    var lines: seq<Line>

    constructor ()
      ensures streaks == map[] && lines == []
    {
      streaks, lines := map[], [];
    }

    method FlushStreak(s: Streak, now: nat)
      modifies this`lines
      ensures lines == Flushed(old(lines), s, now)
    {
      if s.count <= 1 { return; }
      lines := lines + [Summary(s.signature, s.count - 1, s.min, s.max, s.sum / s.count, now)];
    }

    method Record(c: Call)
      modifies this
      ensures Log(streaks, lines) == Recorded(Log(old(streaks), old(lines)), c)
    {
      var key := c.signature.key;
      if key in streaks && streaks[key].signature == c.signature {
        var s := streaks[key];
        s := s.(count := s.count + 1);
        s := s.(min := Min(s.min, c.duration));
        s := s.(max := Max(s.max, c.duration));
        s := s.(sum := s.sum + c.duration);
        streaks := streaks[key := s];
        if Since(c.now, s.first) >= FLUSH_MS {
          streaks := streaks - {key};
          FlushStreak(s, c.now);
          assert streaks == old(streaks) - {key};
        }
      } else {
        if key in streaks {
          var previous := streaks[key];
          streaks := streaks - {key};
          FlushStreak(previous, c.now);
        }
        lines := lines + [Opening(c.signature, c.duration, c.stamped)];
        streaks := streaks[key := Streak(c.signature, 1, c.now, c.duration, c.duration, c.duration)];
        assert streaks == old(streaks)[key := Opened(c)];
      }
    }
  }

  function RecordedAll(calls: seq<Call>): Log {
    if calls == [] then Log(map[], [])
    else Recorded(RecordedAll(calls[..|calls| - 1]), calls[|calls| - 1])
  }

  // ---- Reading the transcript back ----

  /** The calls to one method. */
  function CallsTo(calls: seq<Call>, key: Key): seq<Call> {
    if calls == [] then []
    else
      var c := calls[|calls| - 1];
      CallsTo(calls[..|calls| - 1], key) + if c.signature.key == key then [c] else []
  }

  function Signatures(calls: seq<Call>): (s: seq<Signature>)
    ensures |s| == |calls| && forall i :: 0 <= i < |calls| ==> s[i] == calls[i].signature
  {
    seq(|calls|, i requires 0 <= i < |calls| => calls[i].signature)
  }

  function Copies(s: Signature, n: nat): (r: seq<Signature>)
    ensures |r| == n && forall i :: 0 <= i < n ==> r[i] == s
  {
    seq(n, i => s)
  }

  /** The calls a line stands for. */
  function Meant(line: Line): seq<Signature> {
    match line
    case Opening(s, _, _) => [s]
    case Summary(s, n, _, _, _, _) => Copies(s, n)
  }

  function Expanded(lines: seq<Line>, key: Key): seq<Signature> {
    if lines == [] then []
    else
      var line := lines[|lines| - 1];
      Expanded(lines[..|lines| - 1], key) + if line.signature.key == key then Meant(line) else []
  }

  /** The calls of a run still open, past its opening line. */
  function Pending(streaks: map<Key, Streak>, key: Key): seq<Signature> {
    if key in streaks && streaks[key].count > 0 then Copies(streaks[key].signature, streaks[key].count - 1) else []
  }

  function Sum(calls: seq<Call>): nat {
    if calls == [] then 0 else Sum(calls[..|calls| - 1]) + calls[|calls| - 1].duration
  }

  /** The numbers a run of calls comes to. */
  ghost predicate Spread(calls: seq<Call>, min: nat, max: nat, sum: nat) {
    && (forall i :: 0 <= i < |calls| ==> min <= calls[i].duration <= max)
    && (exists i :: 0 <= i < |calls| && calls[i].duration == min)
    && (exists i :: 0 <= i < |calls| && calls[i].duration == max)
    && sum == Sum(calls)
  }

  /** Where the run of call `i` begins: it goes on from the call before, unless that
      was another call or had ended its own run by lasting fifteen seconds. */
  function RunStart(calls: seq<Call>, i: nat): (a: nat)
    requires i < |calls|
    ensures a <= i
  {
    if i == 0 then 0
    else
      var a := RunStart(calls, i - 1);
      if calls[i].signature == calls[i - 1].signature && calls[i - 1].now < calls[a].now + 15000 then a else i
  }

  predicate LastedLong(calls: seq<Call>, i: nat)
    requires i < |calls|
  {
    calls[i].now >= calls[RunStart(calls, i)].now + 15000
  }

  /** The run from `a` is over with call `last`: it has lasted long enough, which is
      noticed at once, or the next call begins another. */
  predicate RunEnds(calls: seq<Call>, a: nat, last: nat, ts: nat) {
    && last < |calls| && RunStart(calls, last) == a
    && if LastedLong(calls, last) then ts == calls[last].now
       else last + 1 < |calls| && RunStart(calls, last + 1) == last + 1 && ts == calls[last + 1].now
  }

  /** An open run is the last so many calls to its method; all of them came before
      it had lasted long enough for a summary. */
  ghost predicate StreakTells(s: Streak, calls: seq<Call>) {
    && 1 <= s.count <= |calls|
    && var run := calls[|calls| - s.count..];
      && Spread(run, s.min, s.max, s.sum) && s.first == run[0].now
      && (forall i :: 0 <= i < |run| ==> run[i].signature == s.signature)
      && RunStart(calls, |calls| - 1) == |calls| - s.count && !LastedLong(calls, |calls| - 1)
  }

  /** No run is open: there was no call, or the last one ended its run. */
  ghost predicate NoneOpen(calls: seq<Call>) {
    calls != [] ==> LastedLong(calls, |calls| - 1)
  }

  /** What a line says of the calls to its method, `before` of which the lines in
      front of it stand for: an opening line is the next call, which begins a run; a
      summary is of the whole run that starts with the call just opened. */
  ghost predicate LineTells(line: Line, before: nat, calls: seq<Call>) {
    match line
    case Opening(s, duration, ts) =>
      && before < |calls| && RunStart(calls, before) == before
      && calls[before].signature == s && calls[before].duration == duration && calls[before].stamped == ts
    case Summary(s, n, min, max, avg, ts) =>
      && n > 0 && 0 < before && before + n <= |calls| && RunEnds(calls, before - 1, before + n - 1, ts)
      && var run := calls[before - 1..before + n];
        && Spread(run, min, max, Sum(run)) && avg == Sum(run) / (n + 1)
        && (forall i :: 0 <= i < |run| ==> run[i].signature == s)
  }

  ghost predicate LinesTell(lines: seq<Line>, key: Key, calls: seq<Call>) {
    forall j {:trigger lines[j]} :: 0 <= j < |lines| && lines[j].signature.key == key ==>
      LineTells(lines[j], |Expanded(lines[..j], key)|, calls)
  }

  ghost predicate Tells(log: Log, key: Key, calls: seq<Call>) {
    && Expanded(log.lines, key) + Pending(log.streaks, key) == Signatures(calls)
    && LinesTell(log.lines, key, calls)
    && (if key in log.streaks then log.streaks[key].signature.key == key && StreakTells(log.streaks[key], calls) else NoneOpen(calls))
  }

  // ---- Small facts ----

  lemma ExpandedPush(lines: seq<Line>, line: Line, key: Key)
    ensures Expanded(lines + [line], key) == Expanded(lines, key) + if line.signature.key == key then Meant(line) else []
  {
    assert (lines + [line])[..|lines|] == lines;
  }

  lemma LinesTellPush(lines: seq<Line>, line: Line, key: Key, calls: seq<Call>)
    requires LinesTell(lines, key, calls)
    requires line.signature.key == key ==> LineTells(line, |Expanded(lines, key)|, calls)
    ensures LinesTell(lines + [line], key, calls)
  {
    hide LineTells, Expanded;
    var all := lines + [line];
    forall j | 0 <= j < |all| && all[j].signature.key == key
      ensures LineTells(all[j], |Expanded(all[..j], key)|, calls)
    {
      if j < |lines| {
        assert all[..j] == lines[..j] && all[j] == lines[j];
      } else {
        assert all[..j] == lines;
      }
    }
  }

  lemma {:induction false} StartMore(calls: seq<Call>, c: Call, i: nat)
    requires i < |calls|
    ensures RunStart(calls + [c], i) == RunStart(calls, i)
  {
    if i > 0 { StartMore(calls, c, i - 1); }
  }

  lemma RunEndsMore(calls: seq<Call>, a: nat, last: nat, ts: nat, c: Call)
    requires RunEnds(calls, a, last, ts)
    ensures RunEnds(calls + [c], a, last, ts)
  {
    StartMore(calls, c, last);
    if last + 1 < |calls| { StartMore(calls, c, last + 1); }
    hide RunStart;
  }

  lemma LineTellsMore(line: Line, before: nat, calls: seq<Call>, c: Call)
    requires LineTells(line, before, calls)
    ensures LineTells(line, before, calls + [c])
  {
    hide RunStart, RunEnds, Spread;
    if line.Summary? {
      assert (calls + [c])[before - 1..before + line.repeat] == calls[before - 1..before + line.repeat];
      RunEndsMore(calls, before - 1, before + line.repeat - 1, line.ts, c);
    } else {
      StartMore(calls, c, before);
    }
  }

  lemma LinesTellMore(lines: seq<Line>, key: Key, calls: seq<Call>, c: Call)
    requires LinesTell(lines, key, calls)
    ensures LinesTell(lines, key, calls + [c])
  {
    hide LineTells, Expanded;
    forall j | 0 <= j < |lines| && lines[j].signature.key == key
      ensures LineTells(lines[j], |Expanded(lines[..j], key)|, calls + [c])
    {
      LineTellsMore(lines[j], |Expanded(lines[..j], key)|, calls, c);
    }
  }

  lemma SpreadMore(run: seq<Call>, min: nat, max: nat, sum: nat, c: Call)
    requires Spread(run, min, max, sum)
    ensures Spread(run + [c], Min(min, c.duration), Max(max, c.duration), sum + c.duration)
  {
    var all := run + [c];
    assert all[..|run|] == run;
    var i :| 0 <= i < |run| && run[i].duration == min;
    var j :| 0 <= j < |run| && run[j].duration == max;
    assert all[i] == run[i] && all[j] == run[j] && all[|run|] == c;
  }

  lemma SpreadOne(c: Call)
    ensures Spread([c], c.duration, c.duration, c.duration)
  {
    assert [c][..0] == [];
    assert [c][0].duration == c.duration;
  }

  /** A longer streak still is the last so many calls, in the same run. */
  lemma LongerTells(s: Streak, calls: seq<Call>, c: Call)
    requires StreakTells(s, calls) && c.signature == s.signature
    ensures var t := Longer(s, c.duration); var all := calls + [c];
      && t.count <= |all| && var run := all[|all| - t.count..];
        && Spread(run, t.min, t.max, t.sum) && t.first == run[0].now
        && (forall i :: 0 <= i < |run| ==> run[i].signature == t.signature)
  {
    hide Spread, RunStart, LastedLong;
    var run := calls[|calls| - s.count..];
    var all := calls + [c];
    SpreadMore(run, s.min, s.max, s.sum, c);
    assert all[|all| - (s.count + 1)..] == run + [c];
  }

  lemma LongerGoesOn(s: Streak, calls: seq<Call>, c: Call)
    requires StreakTells(s, calls) && c.signature == s.signature
    ensures var all := calls + [c];
      && RunStart(all, |calls|) == |calls| - s.count
      && (LastedLong(all, |calls|) <==> Since(c.now, s.first) >= FLUSH_MS)
  {
    hide Spread;
    var run := calls[|calls| - s.count..];
    assert calls[|calls| - 1] == run[|run| - 1] && calls[|calls| - s.count] == run[0];
    StartGoesOn(calls, c);
    hide RunStart;
  }

  lemma StartGoesOn(calls: seq<Call>, c: Call)
    requires calls != [] && calls[|calls| - 1].signature == c.signature && !LastedLong(calls, |calls| - 1)
    ensures RunStart(calls + [c], |calls|) == RunStart(calls, |calls| - 1)
  {
    StartMore(calls, c, |calls| - 1);
  }

  function SummaryOf(s: Streak, now: nat): Line
    requires s.count > 1
  {
    Summary(s.signature, s.count - 1, s.min, s.max, Average(s.sum, s.count), now)
  }

  lemma SummaryTells(s: Streak, now: nat, before: nat, calls: seq<Call>, all: seq<Call>)
    requires calls <= all && 1 < s.count <= |calls| && before + (s.count - 1) == |calls|
    requires RunEnds(all, |calls| - s.count, |calls| - 1, now)
    requires var run := calls[|calls| - s.count..];
      Spread(run, s.min, s.max, s.sum) && forall i :: 0 <= i < |run| ==> run[i].signature == s.signature
    ensures LineTells(SummaryOf(s, now), before, all)
  {
    hide Spread, Sum, RunEnds;
    var run := calls[|calls| - s.count..];
    SpreadSum(run, s.min, s.max, s.sum);
    assert all[before - 1..before + (s.count - 1)] == run;
  }

  /** The summary of a streak is true of its run. */
  lemma FlushTells(lines: seq<Line>, s: Streak, now: nat, key: Key, calls: seq<Call>, all: seq<Call>)
    requires calls <= all && 1 <= s.count <= |calls| && s.signature.key == key
    requires s.count > 1 ==> RunEnds(all, |calls| - s.count, |calls| - 1, now)
    requires var run := calls[|calls| - s.count..];
      Spread(run, s.min, s.max, s.sum) && forall i :: 0 <= i < |run| ==> run[i].signature == s.signature
    requires LinesTell(lines, key, all)
    requires Expanded(lines, key) + Copies(s.signature, s.count - 1) == Signatures(calls)
    ensures Expanded(Flushed(lines, s, now), key) == Signatures(calls)
    ensures LinesTell(Flushed(lines, s, now), key, all)
  {
    hide Spread, LineTells, LinesTell, Expanded, Signatures, Copies, RunEnds;
    if s.count > 1 {
      var before := |Expanded(lines, key)|;
      SummaryTells(s, now, before, calls, all);
      ExpandedPush(lines, SummaryOf(s, now), key);
      LinesTellPush(lines, SummaryOf(s, now), key, all);
    } else {
      assert Copies(s.signature, 0) == [];
    }
  }

  lemma SpreadSum(run: seq<Call>, min: nat, max: nat, sum: nat)
    requires Spread(run, min, max, sum)
    ensures sum == Sum(run)
  {
  }

  lemma SignaturesPush(calls: seq<Call>, c: Call)
    ensures Signatures(calls + [c]) == Signatures(calls) + [c.signature]
  {
  }

  // ---- The invariant ----

  /** One call more in a streak is one more pending. */
  lemma OneMorePending(before: seq<Signature>, s: Streak, duration: nat, calls: seq<Call>, c: Call)
    requires s.count >= 1 && c.signature == s.signature && before + Copies(s.signature, s.count - 1) == Signatures(calls)
    ensures before + Copies(s.signature, Longer(s, duration).count - 1) == Signatures(calls + [c])
  {
    SignaturesPush(calls, c);
    var copies := Copies(s.signature, s.count - 1);
    assert Copies(s.signature, s.count) == copies + [s.signature];
    assert before + (copies + [s.signature]) == before + copies + [s.signature];
  }

  lemma CountedStreak(s: Streak, calls: seq<Call>)
    requires StreakTells(s, calls)
    ensures s.count >= 1
  {
  }

  lemma SameCallGoesOn(s: Streak, calls: seq<Call>, c: Call)
    requires StreakTells(s, calls) && c.signature == s.signature && Since(c.now, s.first) < FLUSH_MS
    ensures StreakTells(Longer(s, c.duration), calls + [c])
  {
    LongerTells(s, calls, c);
    LongerGoesOn(s, calls, c);
    hide Spread, RunStart, LastedLong;
  }

  lemma SameCallFlushes(lines: seq<Line>, s: Streak, key: Key, calls: seq<Call>, c: Call)
    requires StreakTells(s, calls) && c.signature == s.signature && c.signature.key == key && Since(c.now, s.first) >= FLUSH_MS
    requires LinesTell(lines, key, calls + [c])
    requires Expanded(lines, key) + Copies(s.signature, Longer(s, c.duration).count - 1) == Signatures(calls + [c])
    ensures var after := Flushed(lines, Longer(s, c.duration), c.now);
      Expanded(after, key) == Signatures(calls + [c]) && LinesTell(after, key, calls + [c])
    ensures NoneOpen(calls + [c])
  {
    hide Spread, RunStart, LinesTell, Expanded, Signatures, Copies, Flushed, StreakTells, RunEnds;
    LongerTells(s, calls, c);
    LongEnds(s, calls, c);
    CountedStreak(s, calls);
    FlushTells(lines, Longer(s, c.duration), c.now, key, calls + [c], calls + [c]);
  }

  lemma LongEnds(s: Streak, calls: seq<Call>, c: Call)
    requires StreakTells(s, calls) && c.signature == s.signature && Since(c.now, s.first) >= FLUSH_MS
    ensures RunEnds(calls + [c], |calls| - s.count, |calls|, c.now) && LastedLong(calls + [c], |calls|)
  {
    hide Spread, RunStart, LastedLong;
    LongerGoesOn(s, calls, c);
  }

  lemma SameCallKeeps(log: Log, key: Key, calls: seq<Call>, c: Call)
    requires Tells(log, key, calls) && c.signature.key == key
    requires key in log.streaks && log.streaks[key].signature == c.signature
    ensures Tells(Recorded(log, c), key, calls + [c])
  {
    hide LinesTell, Expanded, Copies, Spread, Signatures, RunStart, LastedLong, StreakTells;
    var s := log.streaks[key];
    LinesTellMore(log.lines, key, calls, c);
    CountedStreak(s, calls);
    OneMorePending(Expanded(log.lines, key), s, c.duration, calls, c);
    if Since(c.now, s.first) >= FLUSH_MS {
      SameCallFlushes(log.lines, s, key, calls, c);
      assert Signatures(calls + [c]) + [] == Signatures(calls + [c]);
    } else {
      SameCallGoesOn(s, calls, c);
    }
  }

  lemma OpeningTells(lines: seq<Line>, key: Key, calls: seq<Call>, c: Call)
    requires c.signature.key == key && LinesTell(lines, key, calls + [c]) && Expanded(lines, key) == Signatures(calls)
    requires RunStart(calls + [c], |calls|) == |calls|
    ensures var all := lines + [Opening(c.signature, c.duration, c.stamped)];
      LinesTell(all, key, calls + [c]) && Expanded(all, key) == Signatures(calls + [c])
  {
    var line := Opening(c.signature, c.duration, c.stamped);
    SignaturesPush(calls, c);
    ExpandedPush(lines, line, key);
    LinesTellPush(lines, line, key, calls + [c]);
  }

  /** Another call than the last begins a run, and ends that of the last. */
  lemma OtherBegins(s: Streak, calls: seq<Call>, c: Call)
    requires StreakTells(s, calls) && s.signature != c.signature
    ensures RunStart(calls + [c], |calls|) == |calls|
    ensures RunEnds(calls + [c], |calls| - s.count, |calls| - 1, c.now)
  {
    hide Spread;
    StartMore(calls, c, |calls| - 1);
    var run := calls[|calls| - s.count..];
    assert calls[|calls| - 1] == run[|run| - 1];
  }

  /** And so does any call after a run that has ended. */
  lemma NextBegins(calls: seq<Call>, c: Call)
    requires NoneOpen(calls)
    ensures RunStart(calls + [c], |calls|) == |calls|
  {
    if calls != [] { StartMore(calls, c, |calls| - 1); }
  }

  lemma OtherCallKeeps(log: Log, key: Key, calls: seq<Call>, c: Call)
    requires Tells(log, key, calls) && c.signature.key == key
    requires !(key in log.streaks && log.streaks[key].signature == c.signature)
    ensures Tells(Recorded(log, c), key, calls + [c])
  {
    hide LinesTell, Expanded, Flushed, Signatures, Spread, RunStart, RunEnds, LastedLong, NoneOpen;
    var ended := log.lines;
    LinesTellMore(log.lines, key, calls, c);
    if key in log.streaks {
      var s := log.streaks[key];
      OtherBegins(s, calls, c);
      FlushTells(log.lines, s, c.now, key, calls, calls + [c]);
      ended := Flushed(log.lines, s, c.now);
    } else {
      NextBegins(calls, c);
      assert Expanded(log.lines, key) + [] == Expanded(log.lines, key);
    }
    OpeningTells(ended, key, calls, c);
    OpenedTells(calls, c);
    assert Signatures(calls + [c]) + Copies(c.signature, 0) == Signatures(calls + [c]);
  }

  lemma OpenedTells(calls: seq<Call>, c: Call)
    requires RunStart(calls + [c], |calls|) == |calls|
    ensures StreakTells(Opened(c), calls + [c])
  {
    hide Spread, RunStart, LastedLong;
    SpreadOne(c);
    NotLongYet(calls, c);
    var all := calls + [c];
    var run := all[|calls|..];
    assert run == [c];
    assert all[|calls|] == c;
  }

  lemma NotLongYet(calls: seq<Call>, c: Call)
    requires RunStart(calls + [c], |calls|) == |calls|
    ensures !LastedLong(calls + [c], |calls|)
  {
    hide RunStart;
  }

  lemma ForeignFlush(lines: seq<Line>, s: Streak, now: nat, key: Key, calls: seq<Call>)
    requires s.signature.key != key && LinesTell(lines, key, calls)
    ensures LinesTell(Flushed(lines, s, now), key, calls) && Expanded(Flushed(lines, s, now), key) == Expanded(lines, key)
  {
    if s.count > 1 {
      ForeignLine(lines, Summary(s.signature, s.count - 1, s.min, s.max, Average(s.sum, s.count), now), key, calls);
    }
  }

  lemma ElsewhereKeeps(log: Log, key: Key, calls: seq<Call>, c: Call)
    requires Tells(log, key, calls) && c.signature.key != key
    requires OwnKeys(log.streaks)
    ensures Tells(Recorded(log, c), key, calls)
  {
    hide LinesTell, Expanded, StreakTells, Flushed;
    var k := c.signature.key;
    var opening := Opening(c.signature, c.duration, c.stamped);
    if k in log.streaks {
      var s := log.streaks[k];
      ForeignFlush(log.lines, Longer(s, c.duration), c.now, key, calls);
      ForeignFlush(log.lines, s, c.now, key, calls);
      ForeignLine(Flushed(log.lines, s, c.now), opening, key, calls);
    }
    ForeignLine(log.lines, opening, key, calls);
    assert key in Recorded(log, c).streaks <==> key in log.streaks;
    assert Pending(Recorded(log, c).streaks, key) == Pending(log.streaks, key);
  }

  /** A line about another method changes nothing here. */
  lemma ForeignLine(lines: seq<Line>, line: Line, key: Key, calls: seq<Call>)
    requires line.signature.key != key && LinesTell(lines, key, calls)
    ensures LinesTell(lines + [line], key, calls) && Expanded(lines + [line], key) == Expanded(lines, key)
  {
    ExpandedPush(lines, line, key);
    LinesTellPush(lines, line, key, calls);
  }

  ghost predicate OwnKeys(streaks: map<Key, Streak>) {
    forall k | k in streaks :: streaks[k].signature.key == k
  }

  lemma RecordKeepsKeys(log: Log, c: Call)
    requires OwnKeys(log.streaks)
    ensures OwnKeys(Recorded(log, c).streaks)
  {
    hide Flushed;
    var key := c.signature.key;
    var streaks := Recorded(log, c).streaks;
    forall k | k in streaks ensures streaks[k].signature.key == k {
      if k != key {
        assert k in log.streaks && streaks[k] == log.streaks[k];
      } else {
        assert streaks[k].signature == c.signature;
      }
    }
  }

  lemma {:induction false} KeysFit(calls: seq<Call>)
    ensures OwnKeys(RecordedAll(calls).streaks)
  {
    if calls != [] {
      KeysFit(calls[..|calls| - 1]);
      hide Recorded, OwnKeys;
      RecordKeepsKeys(RecordedAll(calls[..|calls| - 1]), calls[|calls| - 1]);
    }
  }

  /** Collapsing loses nothing: for every method, its lines expanded in order,
      followed by what an open run still holds back, are exactly the calls made to
      it; every line tells the truth of the calls it stands for, and there is one
      opening line for each run and one summary for each longer run that is over. */
  lemma {:induction false} Lossless(calls: seq<Call>, key: Key)
    ensures Tells(RecordedAll(calls), key, CallsTo(calls, key))
  {
    if calls == [] {
      assert Signatures([]) == [];
    } else {
      var earlier := calls[..|calls| - 1];
      var c := calls[|calls| - 1];
      var log := RecordedAll(earlier);
      Lossless(earlier, key);
      KeysFit(earlier);
      hide Tells, Recorded;
      if c.signature.key != key {
        ElsewhereKeeps(log, key, CallsTo(earlier, key), c);
        assert CallsTo(earlier, key) + [] == CallsTo(earlier, key);
      } else if key in log.streaks && log.streaks[key].signature == c.signature {
        SameCallKeeps(log, key, CallsTo(earlier, key), c);
      } else {
        OtherCallKeeps(log, key, CallsTo(earlier, key), c);
      }
    }
  }

  /** The transcript only grows, by at most two lines a call and about its method. */
  lemma GrowsByItsOwn(log: Log, c: Call)
    requires OwnKeys(log.streaks)
    ensures var lines := Recorded(log, c).lines;
      && log.lines <= lines && |lines| <= |log.lines| + 2
      && forall j :: |log.lines| <= j < |lines| ==> lines[j].signature.key == c.signature.key
  {
  }

  lemma OneMore(k: nat, n: nat)
    ensures k * (n + 1) == k * n + k
  {
  }

  lemma {:induction false} SumBounds(run: seq<Call>, min: nat, max: nat)
    requires forall i :: 0 <= i < |run| ==> min <= run[i].duration <= max
    ensures min * |run| <= Sum(run) <= max * |run|
  {
    if run != [] {
      var n := |run| - 1;
      SumBounds(run[..n], min, max);
      OneMore(min, n);
      OneMore(max, n);
    }
  }

  lemma AverageBetween(min: nat, max: nat, sum: nat, count: nat)
    requires count > 0 && min * count <= sum <= max * count
    ensures min <= sum / count <= max
  {
    var q := sum / count;
    assert q * count <= sum < (q + 1) * count by { assert q * count + sum % count == sum; }
    if q < min { MulMono(count, q + 1, min); }
    if q > max { MulMono(count, max + 1, q); }
  }

  /** The line sums up the calls from `i` on. */
  ghost predicate SumsUp(line: Line, calls: seq<Call>, i: nat) {
    && line.Summary? && i + line.repeat < |calls|
    && var run := calls[i..i + line.repeat + 1];
      && Spread(run, line.min, line.max, Sum(run)) && line.avg == Sum(run) / (line.repeat + 1)
      && (forall j :: 0 <= j < |run| ==> run[j].signature == line.signature)
  }

  lemma TellingSumsUp(line: Line, before: nat, calls: seq<Call>)
    requires line.Summary? && LineTells(line, before, calls)
    ensures before > 0 && SumsUp(line, calls, before - 1) && line.min <= line.avg <= line.max
  {
    hide RunEnds, RunStart;
    var i: nat := before - 1;
    var run := calls[i..i + line.repeat + 1];
    assert run == calls[before - 1..before + line.repeat];
    SumBounds(run, line.min, line.max);
    AverageBetween(line.min, line.max, Sum(run), line.repeat + 1);
    hide Spread;
  }

  /** Every summary's average lies between its extremes, which are those of all
      the calls of the run, opening call included. */
  lemma SummariesAreTrue(calls: seq<Call>, j: nat)
    requires j < |RecordedAll(calls).lines| && RecordedAll(calls).lines[j].Summary?
    ensures var line := RecordedAll(calls).lines[j];
      line.min <= line.avg <= line.max && exists i: nat :: SumsUp(line, CallsTo(calls, line.signature.key), i)
  {
    hide RecordedAll, CallsTo, Expanded, LineTells, SumsUp;
    var lines := RecordedAll(calls).lines;
    var line := lines[j];
    Lossless(calls, line.signature.key);
    TellingSumsUp(line, |Expanded(lines[..j], line.signature.key)|, CallsTo(calls, line.signature.key));
  }
}
