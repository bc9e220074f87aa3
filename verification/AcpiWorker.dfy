/** The gate's worker thread as the source writes it: a loop over its inbox, the
    in-flight marker, the exchange under the file lock. What it does is a run of
    the gate's machine, so all that is proved of the machine's runs holds of it. */
module AcpiWorker {
  import opened Basics
  import opened AcpiGate

  const RETRY_MS: nat := 5

  datatype Exchanged = NotOpened | NotWritten | NotRead | Replied(text: string)

  /** What the world does to one job: how much time passes before its deadline is
      looked at, how many more tries another program keeps the lock for and what
      the firmware answers it meanwhile, how the exchange goes and how long it
      takes. */
  datatype Turn = Turn(before: nat, tries: nat, theirs: string, exchanged: Exchanged, took: nat)

  /** The entries of a log that are this program's own. */
  function OwnEntries(log: seq<Entry>): seq<Entry> {
    if log == [] then []
    else OwnEntries(log[..|log| - 1]) + if log[|log| - 1].owner.OurJob? then [log[|log| - 1]] else []
  }

  lemma OursPush(log: seq<Entry>, e: Entry)
    ensures OwnEntries(log + [e]) == OwnEntries(log) + if e.owner.OurJob? then [e] else []
  {
    assert (log + [e])[..|log|] == log;
  }

  /** What a job puts into the log, if it gets to write: its request and the answer. */
  function WrittenBy(requests: seq<string>, j: nat, text: Option<string>): seq<Entry> {
    if text.Some? && j < |requests| then [Entry(OurJob(j), requests[j], text.value)] else []
  }

  function WrittenByAll(requests: seq<string>, jobs: seq<nat>, texts: seq<Option<string>>): seq<Entry>
    requires |texts| == |jobs|
  {
    if jobs == [] then []
    else
      var n := |jobs| - 1;
      WrittenByAll(requests, jobs[..n], texts[..n]) + WrittenBy(requests, jobs[n], texts[n])
  }

  /** Each job's reply, put into its channel one after the other. */
  function MailedAll(calls: seq<Call>, jobs: seq<nat>, replies: seq<Reply>): seq<Call>
    requires |replies| == |jobs|
  {
    if jobs == [] then calls
    else
      var n := |jobs| - 1;
      Mailed(MailedAll(calls, jobs[..n], replies[..n]), jobs[n], replies[n])
  }

  /** A reply of the firmware is that of the job's own write; a job dropped late or
      kept out by the lock has written nothing. */
  predicate Tells(r: Reply, text: Option<string>) {
    && (r.Ok? ==> text == Some(r.text))
    && (r == Err(DroppedLate) || r == Err(LockHeld) ==> text == None)
  }

  // ---- What each job is owed ----

  /** What a worker carries from one job to the next: the time, the end of its
      last exchange, and whether the lock is free. */
  datatype Clock = Clock(now: nat, lastDone: Option<nat>, free: bool)

  /** When a job is looked at: after its wait and what is left of the gap. */
  function Taken(c: Clock, turn: Turn): nat {
    c.now + turn.before + if c.lastDone.Some? && c.lastDone.value + MIN_GAP > c.now then c.lastDone.value + MIN_GAP - c.now else 0
  }

  predicate GetsLock(lockable: bool, free: bool, now: nat, deadline: nat, turn: Turn) {
    !lockable || free || now + RETRY_MS * turn.tries < deadline
  }

  /** When the tries for the lock are over. */
  function Tried(lockable: bool, free: bool, now: nat, deadline: nat, turn: Turn): nat {
    if !lockable || free then now
    else if now + RETRY_MS * turn.tries < deadline then now + RETRY_MS * (turn.tries + 1)
    else if now >= deadline then now
    else now + (deadline - now + RETRY_MS - 1) / RETRY_MS * RETRY_MS
  }

  /** When the exchange is over. */
  function Done(lockable: bool, free: bool, now: nat, deadline: nat, turn: Turn): nat {
    Tried(lockable, free, now, deadline, turn)
    + if GetsLock(lockable, free, now, deadline, turn) && !turn.exchanged.NotOpened? then turn.took else 0
  }

  /** What the exchange answers. */
  function Outcome(lockable: bool, free: bool, now: nat, deadline: nat, turn: Turn): Reply {
    if !GetsLock(lockable, free, now, deadline, turn) then Err(LockHeld)
    else if turn.exchanged.Replied? then Ok(turn.exchanged.text)
    else Err(Io)
  }

  /** What one job is sent, and the clock after it. */
  function ReplyOf(lockable: bool, c: Clock, deadline: nat, turn: Turn): Reply {
    if Taken(c, turn) >= deadline then Err(DroppedLate) else Outcome(lockable, c.free, Taken(c, turn), deadline, turn)
  }

  function After(lockable: bool, c: Clock, deadline: nat, turn: Turn): Clock {
    var taken := Taken(c, turn);
    if taken >= deadline then c.(now := taken)
    else
      var done := Done(lockable, c.free, taken, deadline, turn);
      Clock(done, Some(done), c.free || (lockable && GetsLock(lockable, c.free, taken, deadline, turn)))
  }

  /** The clock when `turns` have been served, to jobs with these deadlines. */
  function ClockAfter(lockable: bool, c: Clock, deadlines: seq<nat>, turns: seq<Turn>): Clock
    requires |deadlines| == |turns|
  {
    if turns == [] then c
    else
      var n := |turns| - 1;
      After(lockable, ClockAfter(lockable, c, deadlines[..n], turns[..n]), deadlines[n], turns[n])
  }

  function Deadlines(calls: seq<Call>, jobs: seq<nat>): seq<nat> {
    seq(|jobs|, i requires 0 <= i < |jobs| => Deadline(calls, jobs[i]))
  }

  lemma LiteralOutcome(lockable: bool, free: bool, now: nat, deadline: nat, turn: Turn)
    ensures var gets := !lockable || free || now + RETRY_MS * turn.tries < deadline;
      && GetsLock(lockable, free, now, deadline, turn) == gets
      && Outcome(lockable, free, now, deadline, turn) == if !gets then Err(LockHeld) else if turn.exchanged.Replied? then Ok(turn.exchanged.text) else Err(Io)
  {
  }

  /** Each reply is what its job is owed. */
  ghost predicate Owed(lockable: bool, c: Clock, deadlines: seq<nat>, turns: seq<Turn>, replies: seq<Reply>)
    requires |replies| <= |turns| == |deadlines|
  {
    forall i | 0 <= i < |replies| :: replies[i] == ReplyOf(lockable, ClockAfter(lockable, c, deadlines[..i], turns[..i]), deadlines[i], turns[i])
  }

  lemma ClockSnoc(lockable: bool, c: Clock, deadlines: seq<nat>, turns: seq<Turn>, i: nat)
    requires i < |deadlines| == |turns|
    ensures ClockAfter(lockable, c, deadlines[..i + 1], turns[..i + 1])
         == After(lockable, ClockAfter(lockable, c, deadlines[..i], turns[..i]), deadlines[i], turns[i])
  {
    hide After;
    assert deadlines[..i + 1][..i] == deadlines[..i] && turns[..i + 1][..i] == turns[..i];
  }

  lemma OwedNothing(lockable: bool, c: Clock, deadlines: seq<nat>, turns: seq<Turn>)
    requires |turns| == |deadlines|
    ensures ClockAfter(lockable, c, deadlines[..0], turns[..0]) == c && Owed(lockable, c, deadlines, turns, [])
  {
  }

  lemma SpellReply(lockable: bool, c: Clock, deadline: nat, turn: Turn)
    ensures var taken := Taken(c, turn);
      var gets := !lockable || c.free || taken + RETRY_MS * turn.tries < deadline;
      ReplyOf(lockable, c, deadline, turn)
      == if taken >= deadline then Err(DroppedLate) else if !gets then Err(LockHeld) else if turn.exchanged.Replied? then Ok(turn.exchanged.text) else Err(Io)
  {
  }

  /** What is owed, job by job, with the times in milliseconds: a job is looked
      at as soon as its wait and 8 ms since the last exchange allow; it is dropped
      late exactly when its deadline has passed by then; it fails for the lock
      exactly when the other program keeps it until no try is left before the
      deadline, and then the deadline has passed; otherwise the firmware's reply
      is its answer, and only a failed open, write or read is an error. */
  lemma RepliesOwed(lockable: bool, c: Clock, deadlines: seq<nat>, turns: seq<Turn>, replies: seq<Reply>, i: nat)
    requires i < |replies| <= |turns| == |deadlines| && Owed(lockable, c, deadlines, turns, replies)
    ensures var was, now := ClockAfter(lockable, c, deadlines[..i], turns[..i]), ClockAfter(lockable, c, deadlines[..i + 1], turns[..i + 1]);
      var taken, deadline := turns[i].before + if was.lastDone.Some? then Max(was.now, was.lastDone.value + 8) else was.now, deadlines[i];
      && (replies[i] == Err(DroppedLate) <==> taken >= deadline)
      && (replies[i] == Err(LockHeld) <==> taken < deadline && lockable && !was.free && taken + 5 * turns[i].tries >= deadline)
      && (replies[i] == Err(LockHeld) ==> deadline <= now.now < deadline + 5)
      && (forall t :: replies[i] == Ok(t) <==> taken < deadline && replies[i] != Err(LockHeld) && turns[i].exchanged == Replied(t))
      && (replies[i].Err? ==> replies[i].reason in {DroppedLate, LockHeld, Io})
      && taken <= now.now && (now.lastDone != was.lastDone ==> now.lastDone == Some(now.now))
      && (was.free || (lockable && replies[i] != Err(DroppedLate) && replies[i] != Err(LockHeld)) ==> now.free)
  {
    hide ClockAfter;
    ClockSnoc(lockable, c, deadlines, turns, i);
    SpellReply(lockable, ClockAfter(lockable, c, deadlines[..i], turns[..i]), deadlines[i], turns[i]);
  }

  lemma OwedSnoc(lockable: bool, c: Clock, deadlines: seq<nat>, turns: seq<Turn>, replies: seq<Reply>, r: Reply)
    requires |replies| < |turns| == |deadlines| && Owed(lockable, c, deadlines, turns, replies)
    requires var i := |replies|;
      r == ReplyOf(lockable, ClockAfter(lockable, c, deadlines[..i], turns[..i]), deadlines[i], turns[i])
    ensures Owed(lockable, c, deadlines, turns, replies + [r])
  {
    hide ReplyOf, ClockAfter;
  }

  /** Sending replies moves no deadline. */
  lemma {:induction false} DeadlineStays(calls: seq<Call>, jobs: seq<nat>, replies: seq<Reply>, j: nat)
    requires |replies| == |jobs|
    ensures Deadline(MailedAll(calls, jobs, replies), j) == Deadline(calls, j)
  {
    if jobs != [] {
      var n := |jobs| - 1;
      DeadlineStays(calls, jobs[..n], replies[..n], j);
    }
  }

  ghost predicate Leads(start: State, run: seq<Action>, s: State) {
    Exec(start, run) == s
  }

  lemma {:induction false} ExecSnoc(s: State, run: seq<Action>, a: Action)
    ensures Exec(s, run + [a]) == Step(Exec(s, run), a)
    decreases |run|
  {
    hide Step;
    if run == [] {
      assert run + [a] == [a] && [a][1..] == [];
    } else {
      assert (run + [a])[1..] == run[1..] + [a];
      ExecSnoc(Step(s, run[0]), run[1..], a);
    }
  }

  /** One more step of the machine. */
  lemma Then(start: State, run: seq<Action>, s: State, a: Action) returns (longer: seq<Action>, t: State)
    requires Leads(start, run, s)
    ensures t == Step(s, a) && Leads(start, longer, t)
  {
    longer, t := run + [a], Step(s, a);
    ExecSnoc(start, run, a);
  }

  // ---- The machine's steps, for its one worker ----

  ghost predicate At(s: State, inbox: seq<nat>, p: Phase, lastDone: Option<nat>) {
    s.workers == [Worker(inbox, p, lastDone)]
  }

  function Put(s: State, inbox: seq<nat>, p: Phase, lastDone: Option<nat>): State {
    s.(workers := [Worker(inbox, p, lastDone)])
  }

  lemma Picks(s: State, inbox: seq<nat>, last: Option<nat>)
    requires At(s, inbox, Idle, last) && inbox != []
    ensures Step(s, Works(0, Pick)) == Put(s, inbox[1..], Picked(inbox[0]), last)
  {
  }

  lemma Rests(s: State, inbox: seq<nat>, j: nat, last: Option<nat>)
    requires At(s, inbox, Picked(j), last) && (last.Some? ==> s.now >= last.value + MIN_GAP)
    ensures Step(s, Works(0, Rest)) == Put(s, inbox, Rested(j), last)
  {
  }

  lemma Approves(s: State, inbox: seq<nat>, j: nat, last: Option<nat>)
    requires At(s, inbox, Rested(j), last) && s.now < Deadline(s.calls, j)
    ensures Step(s, Works(0, Approve)) == Put(s, inbox, Approved(j), last)
  {
  }

  lemma DropsLate(s: State, inbox: seq<nat>, j: nat, last: Option<nat>)
    requires At(s, inbox, Rested(j), last) && s.now >= Deadline(s.calls, j)
    ensures Step(s, Works(0, DropLate)) == Put(s, inbox, Idle, last).(calls := Mailed(s.calls, j, Err(DroppedLate)))
  {
  }

  lemma Begins(s: State, inbox: seq<nat>, j: nat, last: Option<nat>)
    requires At(s, inbox, Approved(j), last)
    ensures Step(s, Works(0, Begin)) == Put(s, inbox, Locking(j), last).(marker := Some(Deadline(s.calls, j)))
  {
  }

  lemma Clears(s: State, inbox: seq<nat>, j: nat, r: Reply, last: Option<nat>)
    requires At(s, inbox, Finished(j, r), last)
    ensures Step(s, Works(0, Clear)) == Put(s, inbox, Replying(j, r), Some(s.now)).(marker := None)
  {
  }

  lemma Sends(s: State, inbox: seq<nat>, j: nat, r: Reply, last: Option<nat>)
    requires At(s, inbox, Replying(j, r), last)
    ensures Step(s, Works(0, Send)) == Put(s, inbox, Idle, last).(calls := Mailed(s.calls, j, r))
  {
  }

  lemma Locks(s: State, inbox: seq<nat>, j: nat, last: Option<nat>)
    requires At(s, inbox, Locking(j), last)
    ensures s.lockable && s.lock.Free? ==>
      Step(s, Exchanges(0, Lock)) == Put(s, inbox, Holding(j), last).(lock := Ours(0))
    ensures !s.lockable ==> Step(s, Exchanges(0, NoLockFile)) == Put(s, inbox, Holding(j), last)
    ensures s.lockable && !s.lock.Free? && s.now >= Deadline(s.calls, j) ==>
      Step(s, Exchanges(0, LockTimeout)) == Put(s, inbox, Finished(j, Err(LockHeld)), last)
  {
  }

  /** The other program's write returns, and it lets go of the lock. */
  lemma Lets(s: State)
    requires s.lock.Other? && !s.lock.phase.Writing?
    ensures Step(s, Others(s.lock.pid, DropLock)) == s.(lock := Free)
  {
  }

  lemma EndsWrite(s: State, theirs: string)
    requires s.lock.Other? && s.lock.phase.Writing?
    ensures Step(s, Others(s.lock.pid, EndWrite(theirs))) == s.(
      lock := Other(s.lock.pid, Wrote(|s.log|)), log := s.log + [Entry(Foreign(s.lock.pid), s.lock.phase.request, theirs)])
  {
  }

  lemma Writes(s: State, inbox: seq<nat>, j: nat, last: Option<nat>)
    requires At(s, inbox, Holding(j), last)
    ensures Step(s, Exchanges(0, Write)) == Put(s, inbox, InKernel(j), last)
  {
  }

  /** The exchange is over: the lock is given back if it was ours. */
  function Left(s: State, inbox: seq<nat>, j: nat, r: Reply, last: Option<nat>): State {
    Put(s, inbox, Finished(j, r), last).(lock := if s.lock == Ours(0) then Free else s.lock)
  }

  lemma Fails(s: State, inbox: seq<nat>, j: nat, last: Option<nat>)
    ensures At(s, inbox, Holding(j), last) ==> Step(s, Exchanges(0, OpenFails)) == Left(s, inbox, j, Err(Io), last)
    ensures At(s, inbox, InKernel(j), last) ==> Step(s, Exchanges(0, WriteFails)) == Left(s, inbox, j, Err(Io), last)
    ensures At(s, inbox, Answered(j), last) ==> Step(s, Exchanges(0, ReadFails)) == Left(s, inbox, j, Err(Io), last)
  {
  }

  lemma Replies(s: State, inbox: seq<nat>, j: nat, last: Option<nat>, reply: string)
    requires At(s, inbox, InKernel(j), last) && j < |s.requests|
    ensures Step(s, Exchanges(0, Answer(reply))) == Put(s, inbox, Answered(j), last).(
      written := s.written[j := |s.log|], log := s.log + [Entry(OurJob(j), s.requests[j], reply)])
  {
  }

  lemma ReadsBack(s: State, inbox: seq<nat>, j: nat, last: Option<nat>)
    requires At(s, inbox, Answered(j), last) && s.log != []
    ensures Step(s, Exchanges(0, Read)) == Left(s, inbox, j, Ok(s.log[|s.log| - 1].reply), last)
  {
  }

  // ---- The thread ----

  class Thread {
    const lockable: bool
    const requests: seq<string>
    var now: nat
    var marker: Option<nat>
    var lock: Holder
    var lastDone: Option<nat>
    var log: seq<Entry>
    /** The reply channels, with what has been sent down them. */
    var calls: seq<Call>

    /** The machine is where this thread is. */
    ghost predicate Mirrors(s: State, inbox: seq<nat>, p: Phase)
      reads this
    {
      MirrorsBut(s, lock, inbox, p)
    }

    /** The same, with the machine's lock as named. */
    ghost predicate MirrorsBut(s: State, lock: Holder, inbox: seq<nat>, p: Phase)
      reads this
    {
      && s.lockable == lockable && s.requests == requests && s.now == now && s.marker == marker
      && s.lock == lock && s.log == log && s.calls == calls && At(s, inbox, p, lastDone)
    }

    function Reading(): Clock
      reads this
    {
      Clock(now, lastDone, lock.Free?)
    }

    /** The other program finishes what it is at and lets the lock go. */
    method LetGo(theirs: string, ghost inbox: seq<nat>, ghost p: Phase, ghost start: State, ghost before: seq<Action>, ghost here: State)
      returns (ghost run: seq<Action>, ghost end: State)
      requires Mirrors(here, inbox, p) && Leads(start, before, here) && lock.Other?
      modifies this`lock, this`log
      ensures Leads(start, run, end) && Mirrors(end, inbox, p) && lock.Free? && OwnEntries(log) == OwnEntries(old(log))
    {
      hide Step, Exec, Leads, OwnEntries;
      run, end := before, here;
      if lock.phase.Writing? {
        EndsWrite(end, theirs);
        OursPush(log, Entry(Foreign(lock.pid), lock.phase.request, theirs));
        run, end := Then(start, run, end, Others(lock.pid, EndWrite(theirs)));
        var entry := |log|;
        log := log + [Entry(Foreign(lock.pid), lock.phase.request, theirs)];
        lock := Other(lock.pid, Wrote(entry));
      }
      Lets(end);
      run, end := Then(start, run, end, Others(lock.pid, DropLock));
      lock := Free;
    }

    /** Where the tries are while the other program keeps the lock, and when it has let go. */
    predicate StillHeld(was: Holder, logged: seq<Entry>, began: nat, deadline: nat, turn: Turn, left: nat)
      reads this
    {
      && lock == was && log == logged && left <= turn.tries && now == began + RETRY_MS * (turn.tries - left)
      && (left < turn.tries ==> now < deadline + RETRY_MS)
    }

    predicate GotFree(was: Holder, began: nat, deadline: nat, turn: Turn)
      reads this
    {
      if was.Free? then now == began
      else now == began + RETRY_MS * (turn.tries + 1) && began + RETRY_MS * turn.tries < deadline
    }

    /** `FileLock::acquire`: tries until it gets the lock or the deadline passes;
        without a lock file it goes ahead at once. */
    method Acquire(j: nat, turn: Turn, ghost inbox: seq<nat>, ghost start: State, ghost before: seq<Action>, ghost here: State)
      returns (acquired: bool, ghost run: seq<Action>, ghost end: State)
      requires Mirrors(here, inbox, Locking(j)) && Leads(start, before, here)
      requires !lock.Ours?
      modifies this`now, this`lock, this`log
      ensures Leads(start, run, end) && OwnEntries(log) == OwnEntries(old(log))
      ensures Mirrors(end, inbox, if acquired then Holding(j) else Finished(j, Err(LockHeld)))
      ensures if acquired && lockable then lock == Ours(0) else !lock.Ours?
      ensures !acquired ==> lockable && now >= Deadline(calls, j) && lock.Other?
      ensures acquired <==> !lockable || old(lock).Free? || old(now) + RETRY_MS * turn.tries < Deadline(calls, j)
      ensures now == Tried(lockable, old(lock).Free?, old(now), Deadline(calls, j), turn)
      ensures !acquired || !lockable ==> lock == old(lock)
      ensures !acquired || !lockable || old(lock).Free? ==> log == old(log)
    {
      hide Step, Exec, Leads;
      run, end := before, here;
      if !lockable {
        Locks(end, inbox, j, lastDone);
        run, end := Then(start, run, end, Exchanges(0, NoLockFile));
        return true, run, end;
      }
      var left := turn.tries;
      while true
        invariant Mirrors(end, inbox, Locking(j)) && Leads(start, run, end)
        invariant !lock.Ours? && OwnEntries(log) == OwnEntries(old(log))
        invariant if lock.Free? then GotFree(old(lock), old(now), Deadline(calls, j), turn) else StillHeld(old(lock), old(log), old(now), Deadline(calls, j), turn, left)
        invariant lock.Free? && old(lock).Free? ==> log == old(log)
        decreases left, if lock.Free? then 0 else 1, Deadline(calls, j) - now
      {
        Locks(end, inbox, j, lastDone);
        if lock.Free? {
          run, end := Then(start, run, end, Exchanges(0, Lock));
          lock := Ours(0);
          return true, run, end;
        }
        if now >= Deadline(calls, j) {
          run, end := Then(start, run, end, Exchanges(0, LockTimeout));
          return false, run, end;
        }
        Ticks(end, RETRY_MS);
        run, end := Then(start, run, end, Tick(RETRY_MS));
        now := now + RETRY_MS;
        if left > 0 {
          left := left - 1;
        } else {
          run, end := LetGo(turn.theirs, inbox, Locking(j), start, run, end);
        }
      }
    }

    lemma Ticks(s: State, ms: nat)
      ensures Step(s, Tick(ms)) == s.(now := s.now + ms)
    {
    }

    /** `exchange`: the write/read pair under the lock; the guard gives the lock
        back whichever way it ends. */
    method Exchange(j: nat, turn: Turn, ghost inbox: seq<nat>, ghost start: State, ghost before: seq<Action>, ghost here: State)
      returns (r: Reply, ghost text: Option<string>, ghost run: seq<Action>, ghost end: State)
      requires Mirrors(here, inbox, Locking(j)) && Leads(start, before, here) && j < |requests|
      requires !lock.Ours?
      modifies this`now, this`lock, this`log
      ensures Leads(start, run, end) && Mirrors(end, inbox, Finished(j, r)) && !lock.Ours?
      ensures var gets := !lockable || old(lock).Free? || old(now) + RETRY_MS * turn.tries < Deadline(calls, j);
        && r == (if !gets then Err(LockHeld) else if turn.exchanged.Replied? then Ok(turn.exchanged.text) else Err(Io))
        && (text.Some? <==> gets && (turn.exchanged.NotRead? || turn.exchanged.Replied?))
        && lock == (if gets && lockable then Free else old(lock))
      ensures Tells(r, text) && now == Done(lockable, old(lock).Free?, old(now), Deadline(calls, j), turn)
      ensures OwnEntries(log) == OwnEntries(old(log)) + WrittenBy(requests, j, text)
    {
      hide Step, Exec, Leads, OwnEntries;
      var acquired;
      acquired, run, end := Acquire(j, turn, inbox, start, before, here);
      text := None;
      if !acquired { return Err(LockHeld), text, run, end; }
      if turn.exchanged == NotOpened {
        Fails(end, inbox, j, lastDone);
        run, end := Then(start, run, end, Exchanges(0, OpenFails));
        r := Err(Io);
      } else {
        r, text, run, end := WriteAndRead(j, turn, inbox, start, run, end);
      }
      if lock == Ours(0) { lock := Free; }
    }

    /** The write and the read themselves; the lock is given back by the caller. */
    method WriteAndRead(j: nat, turn: Turn, ghost inbox: seq<nat>, ghost start: State, ghost before: seq<Action>, ghost here: State)
      returns (r: Reply, ghost text: Option<string>, ghost run: seq<Action>, ghost end: State)
      requires Mirrors(here, inbox, Holding(j)) && Leads(start, before, here) && j < |requests|
      requires turn.exchanged != NotOpened
      modifies this`now, this`log
      ensures Leads(start, run, end)
      ensures MirrorsBut(end, if lock == Ours(0) then Free else lock, inbox, Finished(j, r))
      ensures r == (if turn.exchanged.Replied? then Ok(turn.exchanged.text) else Err(Io)) && Tells(r, text)
      ensures (text.Some? <==> !turn.exchanged.NotWritten?) && now == old(now) + turn.took
      ensures OwnEntries(log) == OwnEntries(old(log)) + WrittenBy(requests, j, text)
    {
      hide Step, Exec, Leads;
      text := None;
      r := Err(Io);
      run, end := WriteOut(j, turn, inbox, start, before, here);
      if turn.exchanged == NotWritten {
        Fails(end, inbox, j, lastDone);
        run, end := Then(start, run, end, Exchanges(0, WriteFails));
        return;
      }
      var answer := if turn.exchanged.Replied? then turn.exchanged.text else "";
      text := Some(answer);
      run, end := TakeAnswer(j, answer, inbox, start, run, end);
      if turn.exchanged == NotRead {
        Fails(end, inbox, j, lastDone);
        run, end := Then(start, run, end, Exchanges(0, ReadFails));
      } else {
        ReadsBack(end, inbox, j, lastDone);
        run, end := Then(start, run, end, Exchanges(0, Read));
        r := Ok(answer);
      }
    }

    /** Into the kernel, and the time it takes there. */
    method WriteOut(j: nat, turn: Turn, ghost inbox: seq<nat>, ghost start: State, ghost before: seq<Action>, ghost here: State)
      returns (ghost run: seq<Action>, ghost end: State)
      requires Mirrors(here, inbox, Holding(j)) && Leads(start, before, here)
      modifies this`now
      ensures Leads(start, run, end) && Mirrors(end, inbox, InKernel(j)) && now == old(now) + turn.took
    {
      hide Step, Exec, Leads;
      Writes(here, inbox, j, lastDone);
      run, end := Then(start, before, here, Exchanges(0, Write));
      Ticks(end, turn.took);
      run, end := Then(start, run, end, Tick(turn.took));
      now := now + turn.took;
    }

    /** The firmware leaves its answer in the register. */
    method TakeAnswer(j: nat, answer: string, ghost inbox: seq<nat>, ghost start: State, ghost before: seq<Action>, ghost here: State)
      returns (ghost run: seq<Action>, ghost end: State)
      requires Mirrors(here, inbox, InKernel(j)) && Leads(start, before, here) && j < |requests|
      modifies this`log
      ensures Leads(start, run, end) && Mirrors(end, inbox, Answered(j))
      ensures log == old(log) + [Entry(OurJob(j), requests[j], answer)]
      ensures OwnEntries(log) == OwnEntries(old(log)) + [Entry(OurJob(j), requests[j], answer)]
    {
      hide Step, Exec, Leads;
      Replies(here, inbox, j, lastDone, answer);
      run, end := Then(start, before, here, Exchanges(0, Answer(answer)));
      OursPush(log, Entry(OurJob(j), requests[j], answer));
      log := log + [Entry(OurJob(j), requests[j], answer)];
    }

    /** Taking the job, and the pause. */
    method TakeUp(j: nat, turn: Turn, ghost inbox: seq<nat>, ghost start: State, ghost before: seq<Action>, ghost here: State)
      returns (ghost run: seq<Action>, ghost end: State)
      requires Mirrors(here, [j] + inbox, Idle) && Leads(start, before, here)
      modifies this`now
      ensures Leads(start, run, end) && Mirrors(end, inbox, Rested(j)) && now == Taken(old(Reading()), turn)
    {
      hide Step, Exec, Leads;
      run, end := before, here;
      Picks(end, [j] + inbox, lastDone);
      run, end := Then(start, run, end, Works(0, Pick));
      var pause := turn.before + if lastDone.Some? && lastDone.value + MIN_GAP > now then lastDone.value + MIN_GAP - now else 0;
      Ticks(end, pause);
      run, end := Then(start, run, end, Tick(pause));
      now := now + pause;
      Rests(end, inbox, j, lastDone);
      run, end := Then(start, run, end, Works(0, Rest));
    }

    /** One job: taking it, the pause, the deadline, the marked exchange, the answer. */
    method Serve(j: nat, turn: Turn, ghost inbox: seq<nat>, ghost start: State, ghost before: seq<Action>, ghost here: State)
      returns (r: Reply, ghost text: Option<string>, ghost run: seq<Action>, ghost end: State)
      requires Mirrors(here, [j] + inbox, Idle) && Leads(start, before, here) && j < |requests| && marker == None
      requires !lock.Ours?
      modifies this
      ensures Leads(start, run, end) && Mirrors(end, inbox, Idle) && marker == None && !lock.Ours?
      ensures calls == Mailed(old(calls), j, r) && Tells(r, text)
      ensures OwnEntries(log) == OwnEntries(old(log)) + WrittenBy(requests, j, text)
      ensures r == Err(DroppedLate) ==> log == old(log) && lastDone == old(lastDone)
      ensures var taken := Taken(old(Reading()), turn);
        var gets := !lockable || old(lock).Free? || taken + RETRY_MS * turn.tries < Deadline(old(calls), j);
        r == if taken >= Deadline(old(calls), j) then Err(DroppedLate) else if !gets then Err(LockHeld) else if turn.exchanged.Replied? then Ok(turn.exchanged.text) else Err(Io)
      ensures Reading() == After(lockable, old(Reading()), Deadline(old(calls), j), turn)
    {
      hide Step, Exec, Leads, OwnEntries, Done, Tried, GetsLock, Outcome, Taken, Mailed, Deadline;
      LiteralOutcome(lockable, lock.Free?, Taken(Reading(), turn), Deadline(calls, j), turn);
      run, end := TakeUp(j, turn, inbox, start, before, here);
      if now >= Deadline(calls, j) {
        DropsLate(end, inbox, j, lastDone);
        run, end := Then(start, run, end, Works(0, DropLate));
        r, text := Err(DroppedLate), None;
        calls := Mailed(calls, j, r);
        return;
      }
      Approves(end, inbox, j, lastDone);
      run, end := Then(start, run, end, Works(0, Approve));
      r, text, run, end := Ask(j, turn, inbox, start, run, end);
    }

    /** The in-flight guard's scope, and the answer behind it. */
    method Ask(j: nat, turn: Turn, ghost inbox: seq<nat>, ghost start: State, ghost before: seq<Action>, ghost here: State)
      returns (r: Reply, ghost text: Option<string>, ghost run: seq<Action>, ghost end: State)
      requires Mirrors(here, inbox, Approved(j)) && Leads(start, before, here) && j < |requests|
      requires !lock.Ours?
      modifies this
      ensures Leads(start, run, end) && Mirrors(end, inbox, Idle) && marker == None && !lock.Ours?
      ensures calls == Mailed(old(calls), j, r) && Tells(r, text)
      ensures r == Outcome(lockable, old(lock).Free?, old(now), Deadline(old(calls), j), turn)
      ensures now == Done(lockable, old(lock).Free?, old(now), Deadline(old(calls), j), turn) && lastDone == Some(now)
      ensures lock.Free? <==> old(lock).Free? || (lockable && GetsLock(lockable, old(lock).Free?, old(now), Deadline(old(calls), j), turn))
      ensures OwnEntries(log) == OwnEntries(old(log)) + WrittenBy(requests, j, text)
    {
      hide Step, Exec, Leads, OwnEntries;
      Begins(here, inbox, j, lastDone);
      run, end := Then(start, before, here, Works(0, Begin));
      marker := Some(Deadline(calls, j));
      r, text, run, end := Exchange(j, turn, inbox, start, run, end);
      Clears(end, inbox, j, r, lastDone);
      run, end := Then(start, run, end, Works(0, Clear));
      marker := None;
      lastDone := Some(now);
      Sends(end, inbox, j, r, lastDone);
      run, end := Then(start, run, end, Works(0, Send));
      calls := Mailed(calls, j, r);
    }

    /** `work`: the whole inbox, in order. What the thread does from `start` on is
        a run of the machine that ends idle with an empty inbox; every job has been
        sent its reply, and the writes stand in the log in the order of the jobs,
        each with the answer its caller got. */
    method Work(jobs: seq<nat>, turns: seq<Turn>, ghost start: State)
      returns (replies: seq<Reply>, ghost texts: seq<Option<string>>, ghost run: seq<Action>, ghost end: State)
      requires Mirrors(start, jobs, Idle) && |turns| == |jobs| && marker == None
      requires forall i | 0 <= i < |jobs| :: jobs[i] < |requests|
      requires !lock.Ours?
      modifies this
      ensures Leads(start, run, end) && Mirrors(end, [], Idle) && marker == None
      ensures |replies| == |texts| == |jobs| && calls == MailedAll(old(calls), jobs, replies)
      ensures OwnEntries(log) == OwnEntries(old(log)) + WrittenByAll(requests, jobs, texts)
      ensures forall i | 0 <= i < |jobs| :: Tells(replies[i], texts[i])
      ensures Owed(lockable, old(Reading()), Deadlines(old(calls), jobs), turns, replies)
    {
      hide Step, Leads, OwnEntries, Exec, Mirrors, Tells, MailedAll, WrittenByAll, WrittenBy, Mailed, Owed, ClockAfter, After, Deadline;
      run, end, replies, texts := [], start, [], [];
      ghost var began, deadlines := Reading(), Deadlines(calls, jobs);
      AtRest(start);
      NothingYet(old(calls), requests, jobs);
      OwedNothing(lockable, began, deadlines, turns);
      assert jobs[0..] == jobs;
      for i := 0 to |jobs|
        invariant Leads(start, run, end) && Mirrors(end, jobs[i..], Idle) && marker == None && !lock.Ours?
        invariant |replies| == |texts| == i && calls == MailedAll(old(calls), jobs[..i], replies)
        invariant OwnEntries(log) == OwnEntries(old(log)) + WrittenByAll(requests, jobs[..i], texts)
        invariant forall k | 0 <= k < i :: Tells(replies[k], texts[k])
        invariant Reading() == ClockAfter(lockable, began, deadlines[..i], turns[..i])
        invariant Owed(lockable, began, deadlines, turns, replies)
      {
        assert jobs[i..] == [jobs[i]] + jobs[i + 1..];
        ghost var written := WrittenByAll(requests, jobs[..i], texts);
        DeadlineStays(old(calls), jobs[..i], replies, jobs[i]);
        SpellReply(lockable, Reading(), deadlines[i], turns[i]);
        ClockSnoc(lockable, began, deadlines, turns, i);
        var r;
        ghost var text;
        r, text, run, end := Serve(jobs[i], turns[i], jobs[i + 1..], start, run, end);
        OwedSnoc(lockable, began, deadlines, turns, replies, r);
        Together(old(calls), requests, jobs, replies, texts, r, text);
        assert OwnEntries(old(log)) + written + WrittenBy(requests, jobs[i], text) == OwnEntries(old(log)) + (written + WrittenBy(requests, jobs[i], text));
        replies, texts := replies + [r], texts + [text];
      }
      assert jobs[..|jobs|] == jobs;
    }
  }

  lemma AtRest(s: State)
    ensures Leads(s, [], s)
  {
  }

  lemma NothingYet(calls: seq<Call>, requests: seq<string>, jobs: seq<nat>)
    ensures MailedAll(calls, jobs[..0], []) == calls && WrittenByAll(requests, jobs[..0], []) == []
  {
  }

  lemma Together(calls: seq<Call>, requests: seq<string>, jobs: seq<nat>, replies: seq<Reply>, texts: seq<Option<string>>, r: Reply, text: Option<string>)
    requires |replies| == |texts| < |jobs|
    ensures var i := |replies|;
      && MailedAll(calls, jobs[..i + 1], replies + [r]) == Mailed(MailedAll(calls, jobs[..i], replies), jobs[i], r)
      && WrittenByAll(requests, jobs[..i + 1], texts + [text]) == WrittenByAll(requests, jobs[..i], texts) + WrittenBy(requests, jobs[i], text)
  {
    var i := |replies|;
    assert jobs[..i + 1][..i] == jobs[..i] && (replies + [r])[..i] == replies && (texts + [text])[..i] == texts;
  }
}
