/**
 * The firmware call gate: many callers, one worker thread, one global
 * write-then-read register, and other programs that share it under a file lock.
 *
 * The gate is a state machine. An action names who moves and what happens; an
 * action whose guard does not hold leaves the state alone, so every sequence
 * of actions is a run and a statement about all sequences is a statement about
 * all interleavings. The firmware may answer anything: its answers are part of
 * the actions and are kept in a log.
 */
module AcpiGate {
  import opened Basics

  /** The shortest time between two calls of one worker, in milliseconds. */
  const MIN_GAP: nat := 8

  datatype Reason = NotSent | TimedOut | WorkerGone | DroppedLate | LockHeld | Io
  datatype Reply = Ok(text: string) | Err(reason: Reason)

  datatype CallPhase =
    | Checked                      // passed the stuck() check
    | Made                         // the job exists, its deadline is fixed
    | Submitted                    // in a worker's inbox, not yet waited for
    | Waiting(giveUp: nat)         // recv_timeout runs out at `giveUp`
    | Returned(result: Reply)

  /** One invocation of `call_at`, with its job's deadline and reply channel. */
  datatype Call = Call(timeout: nat, deadline: nat, phase: CallPhase, mail: Option<Reply>)

  datatype Phase =
    | Idle
    | Picked(job: nat)                        // taken from the inbox
    | Rested(job: nat)                        // the minimum gap is over
    | Approved(job: nat)                      // the deadline had not passed
    | Locking(job: nat)                       // the in-flight marker is set
    | Holding(job: nat)                       // past FileLock::acquire
    | InKernel(job: nat)                      // inside the write
    | Answered(job: nat)                      // written, not read back yet
    | Finished(job: nat, result: Reply)       // exchange returned, marker still set
    | Replying(job: nat, result: Reply)       // marker cleared
    | Unwinding(job: nat, locked: bool, marked: bool)
    | Dead                                    // the inbox is gone: sends fail

  datatype Worker = Worker(inbox: seq<nat>, phase: Phase, lastDone: Option<nat>)

  datatype ForeignPhase = Outside | Writing(request: string) | Wrote(entry: nat)

  /** Who has the advisory file lock. */
  datatype Holder = Free | Ours(worker: nat) | Other(pid: nat, phase: ForeignPhase)

  datatype Owner = OurJob(job: nat) | Foreign(pid: nat)
  /** One request the firmware took, with the answer it left in the register. */
  datatype Entry = Entry(owner: Owner, request: string, reply: string)
  /** What another program read back, and the entry of the write it follows. */
  datatype Heard = Heard(pid: nat, entry: nat, text: string)

  /** `lockable` says whether this process can open the lock file at all.
      `log`, `heard` and `written` (job to log entry) are history. */
  datatype State = State(
    lockable: bool,
    now: nat,
    marker: Option<nat>,       // IN_FLIGHT: the deadline of the running exchange
    lock: Holder,
    log: seq<Entry>,
    heard: seq<Heard>,
    written: map<nat, nat>,
    requests: seq<string>,     // what each call asks
    calls: seq<Call>,
    workers: seq<Worker>,      // every worker ever started
    sender: Option<nat>)       // WORKER: whose inbox new jobs go to

  function Init(lockable: bool, now: nat): State {
    State(lockable, now, None, Free, [], [], map[], [], [], [], None)
  }

  datatype CallerAct = Make | Submit(spawns: bool) | Wait | Receive | GiveUp | HangUp
  datatype WorkAct = Pick | Rest | Approve | DropLate | Begin | Clear | Send
  datatype ExchangeAct =
    | Lock | NoLockFile | LockTimeout | OpenFails | Write | Answer(reply: string) | WriteFails | Read | ReadFails
  datatype PanicAct = Panic | UnwindLock | UnwindMarker | UnwindInbox
  datatype OtherAct = TakeLock | StartWrite(request: string) | EndWrite(reply: string) | ReadBack | DropLock

  datatype Action =
    | Tick(ms: nat)
    | Enter(request: string, timeout: nat)
    | Caller(call: nat, does: CallerAct)
    | Works(worker: nat, work: WorkAct)
    | Exchanges(worker: nat, exchange: ExchangeAct)
    | Panics(worker: nat, unwind: PanicAct)
    | Others(pid: nat, moves: OtherAct)

  /** `stuck()`: an exchange has outlived its deadline. */
  predicate Stuck(s: State) {
    s.marker.Some? && s.now >= s.marker.value
  }

  /** What `call_at` hands its caller. The NUL terminator and surrounding
      blanks are trimmed here, where the result is looked at, and not in the
      step that reads the register: the bytes in between are only carried. */
  function ResultOf(c: Call): Reply
    requires c.phase.Returned?
  {
    match c.phase.result
    case Ok(raw) => Ok(Trim(raw, true))
    case Err(reason) => Err(reason)
  }

  // ---- Steps ----

  /** The jobs a worker still has to answer: the one in hand, then its inbox. */
  function Held(wk: Worker): seq<nat> {
    (if wk.phase.Idle? || wk.phase.Dead? then [] else [wk.phase.job]) + wk.inbox
  }

  function SetPhase(s: State, i: nat, p: CallPhase): State
    requires i < |s.calls|
  {
    s.(calls := s.calls[i := s.calls[i].(phase := p)])
  }

  /** `call_at` and `submit`, one caller's side. */
  function StepCaller(s: State, i: nat, a: CallerAct): State
    requires i < |s.calls|
  {
    var c := s.calls[i];
    match a
    case Make =>
      if c.phase.Checked? then s.(calls := s.calls[i := c.(phase := Made, deadline := s.now + c.timeout)]) else s
    case Submit(spawns) => if c.phase.Made? then Handed(s, i, spawns) else s
    case Wait =>
      if c.phase.Submitted? then SetPhase(s, i, Waiting(s.now + c.timeout)) else s
    case Receive =>
      if c.phase.Waiting? && c.mail.Some? then SetPhase(s, i, Returned(c.mail.value)) else s
    case GiveUp =>
      if c.phase.Waiting? && s.now >= c.phase.giveUp then SetPhase(s, i, Returned(Err(TimedOut))) else s
    case HangUp =>
      if c.phase.Waiting? && c.mail.None? && (forall w | 0 <= w < |s.workers| :: i !in Held(s.workers[w]))
      then SetPhase(s, i, Returned(Err(WorkerGone))) else s
  }

  /** `submit`: to the worker there is, or to a new one when that one is gone. */
  function Handed(s: State, i: nat, spawns: bool): State
    requires i < |s.calls|
  {
    if s.sender.Some? && s.sender.value < |s.workers| && !s.workers[s.sender.value].phase.Dead? then
      var wk := s.workers[s.sender.value];
      SetPhase(s, i, Submitted).(workers := s.workers[s.sender.value := wk.(inbox := wk.inbox + [i])])
    else if spawns then
      SetPhase(s, i, Submitted).(workers := s.workers + [Worker([i], Idle, None)], sender := Some(|s.workers|))
    else SetPhase(s, i, Returned(Err(Io)))
  }

  function EnterPhase(s: State, w: nat, p: Phase): State
    requires w < |s.workers|
  {
    s.(workers := s.workers[w := s.workers[w].(phase := p)])
  }

  /** The exchange returns: its lock guard is dropped, the marker is not yet. */
  function LeaveExchange(s: State, w: nat, j: nat, r: Reply): State
    requires w < |s.workers|
  {
    EnterPhase(s, w, Finished(j, r)).(lock := if s.lock == Ours(w) then Free else s.lock)
  }

  function Mailed(calls: seq<Call>, j: nat, r: Reply): seq<Call> {
    if j < |calls| then calls[j := calls[j].(mail := Some(r))] else calls
  }

  function Deadline(calls: seq<Call>, j: nat): nat {
    if j < |calls| then calls[j].deadline else 0
  }

  /** `work`, outside the exchange. */
  function StepWork(s: State, w: nat, a: WorkAct): State
    requires w < |s.workers|
  {
    var wk := s.workers[w];
    var p := wk.phase;
    match a
    case Pick =>
      if p.Idle? && wk.inbox != [] then
        s.(workers := s.workers[w := wk.(inbox := wk.inbox[1..], phase := Picked(wk.inbox[0]))])
      else s
    case Rest =>
      if p.Picked? && (wk.lastDone.Some? ==> s.now >= wk.lastDone.value + MIN_GAP)
      then EnterPhase(s, w, Rested(p.job)) else s
    case Approve =>
      if p.Rested? && s.now < Deadline(s.calls, p.job) then EnterPhase(s, w, Approved(p.job)) else s
    case DropLate =>
      if p.Rested? && s.now >= Deadline(s.calls, p.job)
      then EnterPhase(s, w, Idle).(calls := Mailed(s.calls, p.job, Err(DroppedLate))) else s
    case Begin =>
      if p.Approved? then EnterPhase(s, w, Locking(p.job)).(marker := Some(Deadline(s.calls, p.job))) else s
    case Clear =>
      if p.Finished? then
        s.(marker := None,
           workers := s.workers[w := wk.(phase := Replying(p.job, p.result), lastDone := Some(s.now))])
      else s
    case Send =>
      if p.Replying? then EnterPhase(s, w, Idle).(calls := Mailed(s.calls, p.job, p.result)) else s
  }

  /** `exchange` and `FileLock::acquire`. */
  function StepExchange(s: State, w: nat, a: ExchangeAct): State
    requires w < |s.workers|
  {
    var p := s.workers[w].phase;
    match a
    case Lock =>
      if p.Locking? && s.lockable && s.lock.Free? then EnterPhase(s, w, Holding(p.job)).(lock := Ours(w)) else s
    case NoLockFile =>
      if p.Locking? && !s.lockable then EnterPhase(s, w, Holding(p.job)) else s
    case LockTimeout =>
      if p.Locking? && s.lockable && !s.lock.Free? && s.now >= Deadline(s.calls, p.job)
      then EnterPhase(s, w, Finished(p.job, Err(LockHeld))) else s
    case OpenFails =>
      if p.Holding? then LeaveExchange(s, w, p.job, Err(Io)) else s
    case Write =>
      if p.Holding? then EnterPhase(s, w, InKernel(p.job)) else s
    case Answer(reply) =>
      if p.InKernel? && p.job < |s.requests| then
        EnterPhase(s, w, Answered(p.job))
        .(written := s.written[p.job := |s.log|], log := s.log + [Entry(OurJob(p.job), s.requests[p.job], reply)])
      else s
    case WriteFails =>
      if p.InKernel? then LeaveExchange(s, w, p.job, Err(Io)) else s
    case Read =>
      if p.Answered? && s.log != [] then LeaveExchange(s, w, p.job, Ok(s.log[|s.log| - 1].reply)) else s
    case ReadFails =>
      if p.Answered? then LeaveExchange(s, w, p.job, Err(Io)) else s
  }

  /** A panic of the worker, unwound guard by guard: lock, marker, inbox. */
  function StepPanic(s: State, w: nat, a: PanicAct): State
    requires w < |s.workers|
  {
    var wk := s.workers[w];
    var p := wk.phase;
    match a
    case Panic =>
      if p.Idle? || p.Dead? || p.InKernel? || p.Unwinding? then s
      else EnterPhase(s, w, Unwinding(p.job, s.lock == Ours(w), Marked(p)))
    case UnwindLock =>
      if p.Unwinding? && p.locked then EnterPhase(s, w, p.(locked := false)).(lock := Free) else s
    case UnwindMarker =>
      if p.Unwinding? && !p.locked && p.marked then EnterPhase(s, w, p.(marked := false)).(marker := None) else s
    case UnwindInbox =>
      if p.Unwinding? && !p.locked && !p.marked
      then s.(workers := s.workers[w := wk.(inbox := [], phase := Dead)]) else s
  }

  /** Another program that takes the same lock around its own pair. */
  function StepOther(s: State, pid: nat, a: OtherAct): State {
    var l := s.lock;
    match a
    case TakeLock =>
      if l.Free? then s.(lock := Other(pid, Outside)) else s
    case StartWrite(request) =>
      if l == Other(pid, Outside) then s.(lock := Other(pid, Writing(request))) else s
    case EndWrite(reply) =>
      if l.Other? && l.pid == pid && l.phase.Writing? then
        s.(lock := Other(pid, Wrote(|s.log|)), log := s.log + [Entry(Foreign(pid), l.phase.request, reply)])
      else s
    case ReadBack =>
      if l.Other? && l.pid == pid && l.phase.Wrote? && s.log != [] then
        s.(lock := Other(pid, Outside),
           heard := s.heard + [Heard(pid, l.phase.entry, s.log[|s.log| - 1].reply)])
      else s
    case DropLock =>
      // Closing the file, or dying: not possible in the middle of a write.
      if l.Other? && l.pid == pid && !l.phase.Writing? then s.(lock := Free) else s
  }

  function Entered(s: State, request: string, timeout: nat): State {
    s.(requests := s.requests + [request],
       calls := s.calls + [Call(timeout, 0, if Stuck(s) then Returned(Err(NotSent)) else Checked, None)])
  }

  function Step(s: State, a: Action): State {
    match a
    case Tick(ms) => s.(now := s.now + ms)
    case Enter(request, timeout) => Entered(s, request, timeout)
    case Caller(i, does) => if i < |s.calls| then StepCaller(s, i, does) else s
    case Works(w, work) => if w < |s.workers| then StepWork(s, w, work) else s
    case Exchanges(w, exchange) => if w < |s.workers| then StepExchange(s, w, exchange) else s
    case Panics(w, unwind) => if w < |s.workers| then StepPanic(s, w, unwind) else s
    case Others(pid, moves) => StepOther(s, pid, moves)
  }

  function Exec(s: State, run: seq<Action>): State
    decreases |run|
  {
    if run == [] then s else Exec(Step(s, run[0]), run[1..])
  }

  // ---- What every reachable state satisfies ----

  /** The phases during which the in-flight guard is alive. */
  predicate Marked(p: Phase) {
    p.Locking? || p.Holding? || p.InKernel? || p.Answered? || p.Finished? || (p.Unwinding? && p.marked)
  }

  /** The phases during which the file lock guard is alive. */
  predicate Locked(p: Phase) {
    p.Holding? || p.InKernel? || p.Answered? || (p.Unwinding? && p.locked)
  }

  predicate InExchange(p: Phase) {
    p.Locking? || p.Holding? || p.InKernel? || p.Answered?
  }

  predicate BeforeAnswer(p: Phase) {
    p.Picked? || p.Rested? || p.Approved? || p.Locking? || p.Holding? || p.InKernel?
  }

  /** The worker new jobs go to; before the first call, one that never was. */
  function Newest(workers: seq<Worker>): Worker {
    if workers == [] then Worker([], Dead, None) else workers[|workers| - 1]
  }

  ghost predicate OneWorker(workers: seq<Worker>, sender: Option<nat>) {
    && (sender.None? <==> workers == [])
    && (sender.Some? ==> sender.value == |workers| - 1)
    && (forall w | 0 <= w < |workers| - 1 :: workers[w].phase.Dead?)
    && (forall w | 0 <= w < |workers| :: workers[w].phase.Dead? ==> workers[w].inbox == [])
  }

  ghost predicate MarkerFits(marker: Option<nat>, calls: seq<Call>, p: Phase) {
    marker == if Marked(p) then Some(Deadline(calls, p.job)) else None
  }

  ghost predicate LockFits(lockable: bool, lock: Holder, workers: seq<Worker>) {
    var p := Newest(workers).phase;
    && (lock.Ours? ==> lock.worker == |workers| - 1)
    && (lock.Ours? <==> lockable && Locked(p))
    && (p.Unwinding? && p.locked ==> lockable)
  }

  ghost predicate GapKept(now: nat, wk: Worker) {
    (wk.phase.Rested? || wk.phase.Approved?) && wk.lastDone.Some? ==> now >= wk.lastDone.value + MIN_GAP
  }

  /** A job a worker holds: nobody has answered it, and its caller can only
      have stopped waiting once the deadline was reached. */
  ghost predicate JobFits(now: nat, c: Call) {
    && c.mail.None?
    && match c.phase {
      case Submitted => c.deadline <= now + c.timeout
      case Waiting(giveUp) => c.deadline <= giveUp
      case Returned(result) => c.deadline <= now && result == Err(TimedOut)
      case _ => false
    }
  }

  ghost predicate JobsFit(now: nat, calls: seq<Call>, held: seq<nat>) {
    && (forall a | 0 <= a < |held| :: held[a] < |calls| && JobFits(now, calls[held[a]]))
    && (forall a, b | 0 <= a < b < |held| :: held[a] != held[b])
  }

  ghost predicate CallsFit(now: nat, calls: seq<Call>, written: map<nat, nat>) {
    forall i | 0 <= i < |calls| && (calls[i].phase.Checked? || calls[i].phase.Made?) ::
      && calls[i].mail.None?
      && i !in written
      && (calls[i].phase.Made? ==> calls[i].deadline <= now + calls[i].timeout)
  }

  ghost predicate Unwritten(wk: Worker, written: map<nat, nat>) {
    && (forall a | 0 <= a < |wk.inbox| :: wk.inbox[a] !in written)
    && (BeforeAnswer(wk.phase) ==> wk.phase.job !in written)
  }

  ghost predicate LogFits(requests: seq<string>, log: seq<Entry>, written: map<nat, nat>) {
    && (forall i | i in written ::
          && i < |requests| && written[i] < |log|
          && log[written[i]].owner == OurJob(i) && log[written[i]].request == requests[i])
    && (forall k | 0 <= k < |log| && log[k].owner.OurJob? ::
          log[k].owner.job in written && written[log[k].owner.job] == k)
  }

  /** A successful reply is what the firmware left for this call's own write. */
  ghost predicate Truthful(log: seq<Entry>, written: map<nat, nat>, i: nat, r: Reply) {
    r.Ok? ==> i in written && written[i] < |log| && r.text == log[written[i]].reply
  }

  ghost predicate CallTruthful(log: seq<Entry>, written: map<nat, nat>, i: nat, c: Call) {
    && (c.mail.Some? ==> Truthful(log, written, i, c.mail.value))
    && (c.phase.Returned? ==> Truthful(log, written, i, c.phase.result))
  }

  ghost predicate CallsTruthful(log: seq<Entry>, written: map<nat, nat>, calls: seq<Call>) {
    forall i | 0 <= i < |calls| :: CallTruthful(log, written, i, calls[i])
  }

  ghost predicate WorkerTruthful(log: seq<Entry>, written: map<nat, nat>, p: Phase) {
    && (p.Finished? || p.Replying? ==> Truthful(log, written, p.job, p.result))
    && (p.Answered? ==> p.job in written && written[p.job] == |log| - 1)
  }

  ghost predicate OthersTruthful(log: seq<Entry>, heard: seq<Heard>, lock: Holder) {
    && (forall h | 0 <= h < |heard| ::
          && heard[h].entry < |log|
          && log[heard[h].entry].owner == Foreign(heard[h].pid)
          && log[heard[h].entry].reply == heard[h].text)
    && (lock.Other? && lock.phase.Wrote? ==>
          log != [] && lock.phase.entry == |log| - 1 && log[|log| - 1].owner == Foreign(lock.pid))
  }

  /** Who holds what: one live worker, and the marker and lock it owns. */
  ghost predicate Control(s: State) {
    var wk := Newest(s.workers);
    && OneWorker(s.workers, s.sender)
    && MarkerFits(s.marker, s.calls, wk.phase)
    && LockFits(s.lockable, s.lock, s.workers)
    && GapKept(s.now, wk)
  }

  /** Where every job is. */
  ghost predicate Queues(s: State) {
    var wk := Newest(s.workers);
    && |s.requests| == |s.calls|
    && JobsFit(s.now, s.calls, Held(wk))
    && CallsFit(s.now, s.calls, s.written)
    && Unwritten(wk, s.written)
  }

  /** Whose answer is whose. */
  ghost predicate Answers(s: State) {
    && LogFits(s.requests, s.log, s.written)
    && (Newest(s.workers).phase.Answered? ==> s.log != [])
    && (s.lockable ==>
          && CallsTruthful(s.log, s.written, s.calls)
          && WorkerTruthful(s.log, s.written, Newest(s.workers).phase)
          && OthersTruthful(s.log, s.heard, s.lock))
  }

  ghost predicate Inv(s: State) {
    Control(s) && Queues(s) && Answers(s)
  }

  // ---- Each step keeps it ----

  /** The job in hand is submitted, not in the inbox, and its call is not being made. */
  lemma InHand(s: State)
    requires Queues(s)
    ensures var wk := Newest(s.workers);
      !wk.phase.Idle? && !wk.phase.Dead? ==>
        && Held(wk)[0] == wk.phase.job && wk.phase.job < |s.calls| && JobFits(s.now, s.calls[wk.phase.job])
        && wk.phase.job !in wk.inbox
  {
    var wk := Newest(s.workers);
    if !wk.phase.Idle? && !wk.phase.Dead? {
      assert Held(wk)[0] == wk.phase.job;
      forall a | 0 <= a < |wk.inbox| ensures wk.inbox[a] != wk.phase.job {
        assert Held(wk)[a + 1] == wk.inbox[a];
      }
    }
  }

  /** One call changes; if a worker holds its job, the job stays fit. */
  lemma CallChanges(now: nat, calls: seq<Call>, held: seq<nat>, written: map<nat, nat>, i: nat, c: Call)
    requires JobsFit(now, calls, held) && CallsFit(now, calls, written) && i < |calls|
    requires i in held ==> JobFits(now, c)
    requires c.phase.Made? ==> calls[i].phase.Checked? && c.mail == calls[i].mail && c.deadline <= now + c.timeout
    requires !c.phase.Checked?
    ensures JobsFit(now, calls[i := c], held) && CallsFit(now, calls[i := c], written)
  {
  }

  /** The job in hand is answered and leaves. */
  lemma JobLeaves(now: nat, calls: seq<Call>, held: seq<nat>, written: map<nat, nat>, r: Reply)
    requires JobsFit(now, calls, held) && CallsFit(now, calls, written) && held != []
    ensures JobsFit(now, Mailed(calls, held[0], r), held[1..]) && CallsFit(now, Mailed(calls, held[0], r), written)
  {
    forall a | 0 <= a < |held| - 1 ensures held[1..][a] != held[0] {
      assert held[1..][a] == held[a + 1];
    }
  }

  /** A job enters the inbox. */
  lemma JobEnters(now: nat, calls: seq<Call>, held: seq<nat>, i: nat)
    requires JobsFit(now, calls, held) && i < |calls| && i !in held && JobFits(now, calls[i])
    ensures JobsFit(now, calls, held + [i])
  {
  }

  /** What `submit` does to the queues: the job goes to the back of the live
      inbox, or its call comes back with an error. */
  ghost predicate Hands(s: State, t: State, i: nat) {
    var before, after := Newest(s.workers), Newest(t.workers);
    && i < |s.calls| && |t.calls| == |s.calls|
    && t.now == s.now && t.requests == s.requests && t.written == s.written
    && t.calls == s.calls[i := s.calls[i].(phase := t.calls[i].phase)]
    && (t.calls[i].phase.Submitted? || (t.calls[i].phase.Returned? && after == before))
    && (t.calls[i].phase.Submitted? ==>
          && after.inbox == before.inbox + [i]
          && (after.phase == before.phase || (before.phase.Dead? && after.phase.Idle?)))
  }

  lemma HandedHands(s: State, i: nat, spawns: bool)
    requires Control(s) && i < |s.calls|
    ensures Hands(s, Handed(s, i, spawns), i)
  {
    hide MarkerFits, LockFits, GapKept;
    assert s.sender.Some? ==> s.sender.value < |s.workers| && Newest(s.workers) == s.workers[s.sender.value];
  }

  /** A phase of the call aside, the job in hand keeps its deadline. */
  lemma MarkerStays(s: State, i: nat, p: CallPhase, q: Phase)
    requires i < |s.calls| && MarkerFits(s.marker, s.calls, q)
    ensures MarkerFits(s.marker, SetPhase(s, i, p).calls, q)
  {
  }

  lemma HandedControl(s: State, i: nat, spawns: bool)
    requires Control(s) && i < |s.calls|
    ensures Control(Handed(s, i, spawns))
    ensures Hands(s, Handed(s, i, spawns), i)
  {
    HandedHands(s, i, spawns);
    MarkerStays(s, i, Submitted, Newest(s.workers).phase);
    MarkerStays(s, i, Returned(Err(Io)), Newest(s.workers).phase);
    var t := Handed(s, i, spawns);
    HandedWorkers(s, i, spawns);
    hide Handed, OneWorker, Hands;
  }

  lemma HandedWorkers(s: State, i: nat, spawns: bool)
    requires Control(s) && i < |s.calls|
    ensures var t := Handed(s, i, spawns);
      && OneWorker(t.workers, t.sender)
      && t.marker == s.marker && t.lock == s.lock && t.lockable == s.lockable && t.now == s.now
      && t.calls == SetPhase(s, i, t.calls[i].phase).calls && t.calls[i].phase in {Submitted, Returned(Err(Io))}
      && (|t.workers| == |s.workers| || (t.workers == s.workers + [Worker([i], Idle, None)] && !s.lock.Ours?))
      && var before, after := Newest(s.workers), Newest(t.workers);
        || (|t.workers| == |s.workers| && after.phase == before.phase && after.lastDone == before.lastDone)
        || (after == Worker([i], Idle, None) && s.marker.None?)
  {
    hide GapKept;
    assert s.sender.Some? ==> s.sender.value < |s.workers| && Newest(s.workers) == s.workers[s.sender.value];
  }

  lemma HandedQueues(s: State, t: State, i: nat)
    requires Queues(s) && Hands(s, t, i) && s.calls[i].phase.Made?
    ensures Queues(t)
  {
    var held := Held(Newest(s.workers));
    assert i !in held;
    CallChanges(s.now, s.calls, held, s.written, i, t.calls[i]);
    if t.calls[i].phase.Submitted? {
      JobEnters(s.now, t.calls, held, i);
      assert Held(Newest(t.workers)) == held + [i];
    }
  }

  lemma SubmitKeeps(s: State, i: nat, spawns: bool)
    requires Control(s) && Queues(s) && i < |s.calls|
    ensures Control(StepCaller(s, i, Submit(spawns))) && Queues(StepCaller(s, i, Submit(spawns)))
  {
    if s.calls[i].phase.Made? {
      HandedControl(s, i, spawns);
      HandedQueues(s, Handed(s, i, spawns), i);
    }
  }

  /** A caller's step other than `submit` touches its own call only. */
  lemma OneCallChanges(s: State, i: nat, a: CallerAct)
    requires JobsFit(s.now, s.calls, Held(Newest(s.workers))) && i < |s.calls| && !a.Submit?
    ensures var t := StepCaller(s, i, a);
      t == s || (
        && t == s.(calls := s.calls[i := t.calls[i]])
        && !t.calls[i].phase.Checked?
        && (t.calls[i].phase.Made? ==>
              && s.calls[i].phase.Checked?
              && t.calls[i].mail == s.calls[i].mail
              && t.calls[i].deadline <= s.now + t.calls[i].timeout)
        && (i in Held(Newest(s.workers)) ==> JobFits(s.now, t.calls[i]) && t.calls[i].deadline == s.calls[i].deadline))
  {
  }

  lemma CallerKeeps(s: State, i: nat, a: CallerAct)
    requires Control(s) && Queues(s) && i < |s.calls| && !a.Submit?
    ensures Control(StepCaller(s, i, a))
    ensures Queues(StepCaller(s, i, a))
  {
    var held := Held(Newest(s.workers));
    OneCallChanges(s, i, a);
    InHand(s);
    if StepCaller(s, i, a).calls != s.calls {
      CallChanges(s.now, s.calls, held, s.written, i, StepCaller(s, i, a).calls[i]);
    }
  }

  lemma CallerAnswers(s: State, i: nat, a: CallerAct)
    requires Control(s) && Answers(s) && i < |s.calls|
    ensures Answers(StepCaller(s, i, a))
  {
    hide LogFits, OthersTruthful, GapKept, MarkerFits, LockFits;
  }

  lemma WorkControl(s: State, w: nat, a: WorkAct)
    requires Control(s) && Queues(s) && w < |s.workers|
    ensures Control(StepWork(s, w, a))
  {
  }

  predicate TellsCaller(s: State, w: nat, a: WorkAct)
    requires w < |s.workers|
  {
    var p := s.workers[w].phase;
    (a.Send? && p.Replying?) || (a.DropLate? && p.Rested? && s.now >= Deadline(s.calls, p.job))
  }

  lemma ReplyStep(s: State, w: nat, a: WorkAct)
    requires w < |s.workers| && TellsCaller(s, w, a)
    ensures var wk := s.workers[w];
      StepWork(s, w, a) == s.(workers := s.workers[w := wk.(phase := Idle)],
        calls := Mailed(s.calls, wk.phase.job, if a.Send? then wk.phase.result else Err(DroppedLate)))
  {
  }

  /** The worker tells the caller of the job in hand, and is idle again. */
  lemma ReplyQueues(s: State, w: nat, a: WorkAct)
    requires Control(s) && Queues(s) && w < |s.workers| && TellsCaller(s, w, a)
    ensures Queues(StepWork(s, w, a))
  {
    hide StepWork, JobsFit, CallsFit, GapKept, LockFits, MarkerFits, Held, Mailed;
    ReplyStep(s, w, a);
    var before := s.workers[w];
    var r := if a.Send? then before.phase.result else Err(DroppedLate);
    assert w == |s.workers| - 1;
    HandFirst(before);
    JobLeaves(s.now, s.calls, Held(before), s.written, r);
    MailKeepsLength(s.calls, before.phase.job, r);
  }

  /** The job in hand is the first of those held; idle, the worker holds the rest. */
  lemma HandFirst(wk: Worker)
    requires !wk.phase.Idle? && !wk.phase.Dead?
    ensures Held(wk) != [] && Held(wk)[0] == wk.phase.job && Held(wk.(phase := Idle)) == Held(wk)[1..]
  {
  }

  lemma MailKeepsLength(calls: seq<Call>, j: nat, r: Reply)
    ensures |Mailed(calls, j, r)| == |calls|
  {
  }

  /** Worker `w` holds the same jobs in the same order, or none, and nothing else
      of the queues has changed. */
  ghost predicate Holds(s: State, t: State, w: nat)
    requires w < |s.workers|
  {
    && t.now == s.now && t.calls == s.calls && t.requests == s.requests && t.written == s.written
    && |t.workers| == |s.workers| && (forall v | 0 <= v < |s.workers| && v != w :: t.workers[v] == s.workers[v])
    && (Held(t.workers[w]) == Held(s.workers[w]) || Held(t.workers[w]) == [])
    && (Unwritten(s.workers[w], s.written) ==> Unwritten(t.workers[w], t.written))
  }

  /** Any other step of `work` keeps the jobs a worker holds, in their order. */
  lemma WorkHolds(s: State, w: nat, a: WorkAct)
    requires w < |s.workers| && !TellsCaller(s, w, a)
    ensures Holds(s, StepWork(s, w, a), w)
  {
    if a.Pick? { PickHolds(s, w, a); } else { NextHolds(s, w, a); }
    hide StepWork, Holds, TellsCaller;
  }

  lemma PickHolds(s: State, w: nat, a: WorkAct)
    requires w < |s.workers| && !TellsCaller(s, w, a) && a.Pick?
    ensures Holds(s, StepWork(s, w, a), w)
  {
  }

  lemma NextHolds(s: State, w: nat, a: WorkAct)
    requires w < |s.workers| && !TellsCaller(s, w, a) && !a.Pick?
    ensures Holds(s, StepWork(s, w, a), w)
  {
  }

  lemma WorkQueues(s: State, w: nat, a: WorkAct)
    requires Control(s) && Queues(s) && w < |s.workers| && !TellsCaller(s, w, a)
    ensures Queues(StepWork(s, w, a))
  {
    WorkHolds(s, w, a);
    hide StepWork, Held, Unwritten, CallsFit, JobFits, TellsCaller;
  }

  lemma WorkAnswers(s: State, w: nat, a: WorkAct)
    requires Control(s) && Answers(s) && w < |s.workers|
    ensures Answers(StepWork(s, w, a))
  {
  }

  lemma ExchangeControl(s: State, w: nat, a: ExchangeAct)
    requires Control(s) && w < |s.workers|
    ensures Control(StepExchange(s, w, a))
  {
  }

  lemma AnswerKeepsQueues(s: State, w: nat, reply: string)
    requires Control(s) && Queues(s) && w < |s.workers|
    ensures Queues(StepExchange(s, w, Answer(reply)))
  {
    InHand(s);
    var t := StepExchange(s, w, Answer(reply));
    if t != s {
      hide JobsFit, CallsFit, Unwritten, JobFits, LockFits, MarkerFits, GapKept;
      var wk := Newest(s.workers);
      assert wk == s.workers[w];
      NowWritten(s.now, s.calls, s.written, wk, |s.log|);
    }
  }

  /** The entry of the job in hand makes no other job's written. */
  lemma NowWritten(now: nat, calls: seq<Call>, written: map<nat, nat>, wk: Worker, e: nat)
    requires wk.phase.InKernel? && CallsFit(now, calls, written) && Unwritten(wk, written)
    requires wk.phase.job < |calls| && JobFits(now, calls[wk.phase.job]) && wk.phase.job !in wk.inbox
    ensures var after := wk.(phase := Answered(wk.phase.job));
      && Held(after) == Held(wk) && CallsFit(now, calls, written[wk.phase.job := e])
      && Unwritten(after, written[wk.phase.job := e])
  {
  }

  lemma ExchangeHeld(s: State, w: nat, a: ExchangeAct)
    requires w == |s.workers| - 1 && InExchange(s.workers[w].phase)
    ensures var p := StepExchange(s, w, a).workers[w].phase;
      (InExchange(p) || p.Finished?) && p.job == s.workers[w].phase.job
    ensures BeforeAnswer(StepExchange(s, w, a).workers[w].phase) ==> BeforeAnswer(s.workers[w].phase)
    ensures StepExchange(s, w, a).workers[w].inbox == s.workers[w].inbox
  {
  }

  lemma ExchangeQueues(s: State, w: nat, a: ExchangeAct)
    requires Control(s) && Queues(s) && w < |s.workers| && !a.Answer?
    ensures Queues(StepExchange(s, w, a))
  {
    if InExchange(s.workers[w].phase) {
      assert w == |s.workers| - 1;
      ExchangeHeld(s, w, a);
      assert Held(Newest(StepExchange(s, w, a).workers)) == Held(Newest(s.workers));
    }
  }

  /** The firmware's answer to job `j` is appended, and `j` had none. */
  lemma LogGrows(requests: seq<string>, log: seq<Entry>, written: map<nat, nat>, j: nat, reply: string)
    requires LogFits(requests, log, written) && j < |requests| && j !in written
    ensures LogFits(requests, log + [Entry(OurJob(j), requests[j], reply)], written[j := |log|])
  {
  }

  /** What was truthful stays so when the log grows. */
  lemma TruthStays(log: seq<Entry>, e: Entry, written: map<nat, nat>, j: nat, calls: seq<Call>)
    requires CallsTruthful(log, written, calls) && j !in written
    ensures CallsTruthful(log + [e], written, calls)
    ensures CallsTruthful(log + [e], written[j := |log|], calls)
  {
    forall i | 0 <= i < |calls|
      ensures CallTruthful(log + [e], written, i, calls[i]) && CallTruthful(log + [e], written[j := |log|], i, calls[i])
    {
      assert CallTruthful(log, written, i, calls[i]);
    }
  }

  lemma AnswerKeeps(s: State, w: nat, reply: string)
    requires Control(s) && Queues(s) && Answers(s) && w < |s.workers|
    ensures Answers(StepExchange(s, w, Answer(reply)))
  {
    var t := StepExchange(s, w, Answer(reply));
    if t != s {
      var j := s.workers[w].phase.job;
      LogGrows(s.requests, s.log, s.written, j, reply);
      if s.lockable {
        TruthStays(s.log, t.log[|s.log|], s.written, j, s.calls);
      }
    }
  }

  lemma ExchangeTruthful(s: State, w: nat, a: ExchangeAct)
    requires Control(s) && w < |s.workers| && !a.Answer?
    requires WorkerTruthful(s.log, s.written, Newest(s.workers).phase)
    requires OthersTruthful(s.log, s.heard, s.lock)
    ensures var t := StepExchange(s, w, a);
      && WorkerTruthful(t.log, t.written, Newest(t.workers).phase)
      && OthersTruthful(t.log, t.heard, t.lock)
  {
  }

  lemma ExchangeAnswers(s: State, w: nat, a: ExchangeAct)
    requires Control(s) && Answers(s) && w < |s.workers| && !a.Answer?
    ensures Answers(StepExchange(s, w, a))
  {
    if s.lockable { ExchangeTruthful(s, w, a); }
  }

  lemma PanicControl(s: State, w: nat, a: PanicAct)
    requires Control(s) && w < |s.workers|
    ensures Control(StepPanic(s, w, a))
  {
  }

  /** A panic keeps the jobs held until the inbox goes, and then there are none. */
  lemma PanicHolds(s: State, w: nat, a: PanicAct)
    requires w < |s.workers|
    ensures Holds(s, StepPanic(s, w, a), w)
  {
  }

  lemma PanicQueues(s: State, w: nat, a: PanicAct)
    requires Control(s) && Queues(s) && w < |s.workers|
    ensures Queues(StepPanic(s, w, a))
  {
    PanicHolds(s, w, a);
    hide StepPanic, Held, Unwritten, CallsFit, JobFits;
  }

  lemma PanicAnswers(s: State, w: nat, a: PanicAct)
    requires Control(s) && Answers(s) && w < |s.workers|
    ensures Answers(StepPanic(s, w, a))
  {
  }

  lemma OtherKeeps(s: State, pid: nat, a: OtherAct)
    requires Inv(s)
    ensures Inv(StepOther(s, pid, a))
  {
    OtherLogs(s, pid, a);
    hide LogFits, JobsFit, CallsFit, Unwritten, MarkerFits, OneWorker, CallsTruthful, WorkerTruthful, OthersTruthful;
  }

  /** Another program's steps, as far as whose answer is whose goes. */
  lemma OtherLogs(s: State, pid: nat, a: OtherAct)
    requires Control(s) && Answers(s)
    ensures Answers(StepOther(s, pid, a))
  {
    hide CallTruthful, MarkerFits, OneWorker, GapKept;
    if s.lockable { OtherTruth(s, pid, a); }
    hide CallsTruthful, WorkerTruthful, OthersTruthful;
  }

  lemma OtherTruth(s: State, pid: nat, a: OtherAct)
    requires Control(s) && Answers(s) && s.lockable
    ensures var t := StepOther(s, pid, a);
      && CallsTruthful(t.log, t.written, t.calls)
      && WorkerTruthful(t.log, t.written, Newest(t.workers).phase)
      && OthersTruthful(t.log, t.heard, t.lock)
  {
    hide MarkerFits, OneWorker, GapKept;
  }

  lemma TickKeeps(s: State, ms: nat)
    requires Inv(s)
    ensures Inv(s.(now := s.now + ms))
  {
  }

  lemma EnterKeeps(s: State, request: string, timeout: nat)
    requires Inv(s)
    ensures Inv(Entered(s, request, timeout))
  {
  }

  lemma StepKeeps(s: State, a: Action)
    requires Inv(s)
    ensures Inv(Step(s, a))
  {
    hide Control, Queues, Answers, StepCaller, StepWork, StepExchange, StepPanic, StepOther, Entered;
    match a {
      case Tick(ms) => TickKeeps(s, ms);
      case Enter(request, timeout) => EnterKeeps(s, request, timeout);
      case Caller(i, does) =>
        if i < |s.calls| {
          if !does.Submit? {
            CallerKeeps(s, i, does);
          } else {
            SubmitKeeps(s, i, does.spawns);
          }
          CallerAnswers(s, i, does);
        }
      case Works(w, work) =>
        if w < |s.workers| {
          WorkControl(s, w, work);
          if TellsCaller(s, w, work) { ReplyQueues(s, w, work); } else { WorkQueues(s, w, work); }
          WorkAnswers(s, w, work);
        }
      case Exchanges(w, exchange) =>
        if w < |s.workers| {
          ExchangeControl(s, w, exchange);
          if exchange.Answer? {
            AnswerKeepsQueues(s, w, exchange.reply);
            AnswerKeeps(s, w, exchange.reply);
          } else {
            ExchangeQueues(s, w, exchange);
            ExchangeAnswers(s, w, exchange);
          }
        }
      case Panics(w, unwind) =>
        if w < |s.workers| {
          PanicControl(s, w, unwind);
          PanicQueues(s, w, unwind);
          PanicAnswers(s, w, unwind);
        }
      case Others(pid, moves) => OtherKeeps(s, pid, moves);
    }
  }

  lemma LockableStays(s: State, a: Action)
    ensures Step(s, a).lockable == s.lockable
  {
  }

  lemma {:induction false} RunKeeps(s: State, run: seq<Action>)
    requires Inv(s)
    ensures Inv(Exec(s, run)) && Exec(s, run).lockable == s.lockable
    decreases |run|
  {
    hide Step, Inv;
    if run != [] {
      StepKeeps(s, run[0]);
      LockableStays(s, run[0]);
      RunKeeps(Step(s, run[0]), run[1..]);
    }
  }

  /** The state a run leads to from a fresh start. */
  function Reached(lockable: bool, now: nat, run: seq<Action>): State {
    Exec(Init(lockable, now), run)
  }

  lemma Reachable(lockable: bool, now: nat, run: seq<Action>)
    ensures Inv(Reached(lockable, now, run)) && Reached(lockable, now, run).lockable == lockable
  {
    RunKeeps(Init(lockable, now), run);
  }

  // ---- Main results ----

  predicate PairOpen(p: Phase) {
    p.InKernel? || p.Answered?
  }

  /** Between a write and its read, nobody else is between theirs: not another
      worker of this process, nor - once the lock file can be opened at all -
      another program. */
  lemma OnePairOpen(lockable: bool, now: nat, run: seq<Action>)
    ensures var s := Reached(lockable, now, run);
      && (forall v, w | 0 <= v < |s.workers| && 0 <= w < |s.workers| && PairOpen(s.workers[v].phase) ::
            PairOpen(s.workers[w].phase) ==> v == w)
      && (lockable && (exists w | 0 <= w < |s.workers| :: PairOpen(s.workers[w].phase)) ==> s.lock.Ours?)
  {
    hide Exec;
    Reachable(lockable, now, run);
  }

  /** The log entry is the one write made for call `i`, and the reply handed
      to its caller is what the firmware left for it. */
  ghost predicate AnsweredBy(s: State, i: nat, k: nat)
    requires i < |s.calls| && s.calls[i].phase.Returned?
  {
    && i < |s.requests| && k < |s.log|
    && s.log[k].owner == OurJob(i)
    && s.log[k].request == s.requests[i]
    && ResultOf(s.calls[i]) == Ok(Trim(s.log[k].reply, true))
    && (forall l | 0 <= l < |s.log| && s.log[l].owner == OurJob(i) :: l == k)
  }

  /** Every successful call got the answer to its own request. */
  ghost predicate OwnAnswers(s: State) {
    forall i | 0 <= i < |s.calls| && s.calls[i].phase.Returned? && s.calls[i].phase.result.Ok? ::
      exists k :: AnsweredBy(s, i, k)
  }

  lemma OwnAnswer(now: nat, run: seq<Action>)
    ensures OwnAnswers(Reached(true, now, run))
  {
    hide Exec, Trim;
    Reachable(true, now, run);
    var s := Reached(true, now, run);
    forall i | 0 <= i < |s.calls| && s.calls[i].phase.Returned? && s.calls[i].phase.result.Ok?
      ensures exists k :: AnsweredBy(s, i, k)
    {
      assert CallTruthful(s.log, s.written, i, s.calls[i]);
      assert AnsweredBy(s, i, s.written[i]);
    }
  }

  /** A program that takes the lock reads its own answer too. */
  lemma OthersHearTheirOwn(now: nat, run: seq<Action>)
    ensures var s := Reached(true, now, run);
      forall h | 0 <= h < |s.heard| ::
        && s.heard[h].entry < |s.log|
        && s.log[s.heard[h].entry].owner == Foreign(s.heard[h].pid)
        && s.heard[h].text == s.log[s.heard[h].entry].reply
  {
    hide Exec;
    Reachable(true, now, run);
  }

  /** A job a worker holds still has its caller waiting while the deadline is
      ahead, and that caller will not give up before it. */
  lemma WaiterOutlastsDeadline(lockable: bool, now: nat, run: seq<Action>, w: nat, i: nat)
    requires var s := Reached(lockable, now, run);
      w < |s.workers| && i in Held(s.workers[w]) && i < |s.calls| && s.now < s.calls[i].deadline
    ensures var c := Reached(lockable, now, run).calls[i];
      c.mail.None? && (c.phase.Submitted? || (c.phase.Waiting? && c.deadline <= c.phase.giveUp))
  {
    hide Exec;
    Reachable(lockable, now, run);
    var s := Reached(lockable, now, run);
    assert w == |s.workers| - 1;
    var a :| 0 <= a < |Held(s.workers[w])| && Held(s.workers[w])[a] == i;
  }

  /** `stuck()` is true exactly while the newest worker is inside an exchange
      (or unwinding out of one) whose deadline has passed. */
  lemma StuckIsALateExchange(lockable: bool, now: nat, run: seq<Action>)
    ensures var s := Reached(lockable, now, run);
      var p := Newest(s.workers).phase;
      Stuck(s) <==> Marked(p) && p.job < |s.calls| && s.calls[p.job].deadline <= s.now
  {
    hide Exec;
    Reachable(lockable, now, run);
    InHand(Reached(lockable, now, run));
  }

  /** Two exchanges of one worker are at least MIN_GAP apart. */
  lemma GapBetweenExchanges(lockable: bool, now: nat, run: seq<Action>, w: nat)
    requires var s := Reached(lockable, now, run);
      w < |s.workers| && s.workers[w].phase.Approved? && s.workers[w].lastDone.Some?
    ensures var s := Reached(lockable, now, run);
      s.now >= s.workers[w].lastDone.value + MIN_GAP
  {
    hide Exec;
    Reachable(lockable, now, run);
    assert w == |Reached(lockable, now, run).workers| - 1;
  }

  /** Only worker threads move, at most `n` times. */
  ghost predicate WorkerOnly(run: seq<Action>, n: nat) {
    |run| <= n && forall k | 0 <= k < |run| :: run[k].Works? || run[k].Exchanges? || run[k].Panics?
  }

  /** How many moves a worker can make at most before its marker is cleared. */
  function MovesLeft(p: Phase): nat {
    match p
    case Locking(_) => 6
    case Holding(_) => 5
    case InKernel(_) => 4
    case Answered(_) => 3
    case Finished(_, _) => 2
    case Unwinding(_, locked, marked) => if locked then 2 else if marked then 1 else 0
    case _ => 0
  }

  /** How many it still makes if it does not panic from here on. */
  function Remaining(p: Phase): nat {
    if InExchange(p) || p.Finished? then MovesLeft(p) - 1 else MovesLeft(p)
  }

  /** The next move of a worker on its way out of an exchange; the firmware
      returns with `reply` when it is inside it. */
  function WayOut(s: State, reply: string): Action {
    var w := if s.workers == [] then 0 else |s.workers| - 1;
    match Newest(s.workers).phase
    case Locking(_) =>
      Exchanges(w, if !s.lockable then NoLockFile else if s.lock.Free? then Lock else LockTimeout)
    case Holding(_) => Exchanges(w, Write)
    case InKernel(_) => Exchanges(w, Answer(reply))
    case Answered(_) => Exchanges(w, Read)
    case Unwinding(_, locked, _) => Panics(w, if locked then UnwindLock else UnwindMarker)
    case _ => Works(w, Clear)
  }

  lemma WayOutShortens(s: State, reply: string)
    requires Inv(s) && Stuck(s)
    ensures var t := Step(s, WayOut(s, reply));
      && Remaining(Newest(t.workers).phase) < Remaining(Newest(s.workers).phase)
      && t.now == s.now
      && (!Stuck(t) ==> t.marker.None?)
      && WorkerOnly([WayOut(s, reply)], 1)
  {
    MarkedPhase(s);
    hide Step, WayOut, Control, Queues, Answers, Stuck;
    if InExchange(Newest(s.workers).phase) { WayOutOfExchange(s, reply); } else { WayOutOfGuard(s, reply); }
    WayIsAWorkers(s, reply);
    StuckLess(s, Step(s, WayOut(s, reply)));
  }

  /** With the marker set, the newest worker is in an exchange or on its way out. */
  lemma MarkedPhase(s: State)
    requires Inv(s) && Stuck(s)
    ensures var p := Newest(s.workers).phase;
      && (InExchange(p) || p.Finished? || (p.Unwinding? && p.marked))
      && |s.requests| == |s.calls| && p.job < |s.calls| && (p.Answered? ==> s.log != [])
  {
    InHand(s);
    hide JobsFit, CallsFit, JobFits, Unwritten, Held, LogFits, LockFits, GapKept, OneWorker;
    hide CallsTruthful, WorkerTruthful, OthersTruthful;
  }

  lemma WayIsAWorkers(s: State, reply: string)
    ensures WorkerOnly([WayOut(s, reply)], 1)
  {
  }

  lemma StuckLess(s: State, t: State)
    requires Stuck(s) && t.now == s.now && (t.marker == s.marker || t.marker.None?)
    ensures !Stuck(t) ==> t.marker.None?
  {
  }

  lemma WayOutOfGuard(s: State, reply: string)
    requires Control(s) && Stuck(s)
    requires var p := Newest(s.workers).phase; p.Finished? || (p.Unwinding? && p.marked)
    ensures var t := Step(s, WayOut(s, reply));
      && Remaining(Newest(t.workers).phase) < Remaining(Newest(s.workers).phase)
      && t.now == s.now && (t.marker == s.marker || t.marker.None?)
  {
    if Newest(s.workers).phase.Finished? { WayPastMarker(s, reply); } else { WayUnwinds(s, reply); }
    hide Step, WayOut, Control, Stuck;
  }

  lemma WayPastMarker(s: State, reply: string)
    requires Control(s) && Stuck(s)
    requires var p := Newest(s.workers).phase; p.Finished?
    ensures var t := Step(s, WayOut(s, reply));
      && Remaining(Newest(t.workers).phase) < Remaining(Newest(s.workers).phase)
      && t.now == s.now && (t.marker == s.marker || t.marker.None?)
  {
    hide GapKept, LockFits, MarkerFits;
  }

  lemma WayUnwinds(s: State, reply: string)
    requires Control(s) && Stuck(s)
    requires var p := Newest(s.workers).phase; p.Unwinding? && p.marked
    ensures var t := Step(s, WayOut(s, reply));
      && Remaining(Newest(t.workers).phase) < Remaining(Newest(s.workers).phase)
      && t.now == s.now && (t.marker == s.marker || t.marker.None?)
  {
    hide GapKept, LockFits, MarkerFits;
  }

  lemma WayOutOfExchange(s: State, reply: string)
    requires Control(s) && Stuck(s) && InExchange(Newest(s.workers).phase)
    requires |s.requests| == |s.calls| && Newest(s.workers).phase.job < |s.calls|
    requires Newest(s.workers).phase.Answered? ==> s.log != []
    ensures var t := Step(s, WayOut(s, reply));
      && Remaining(Newest(t.workers).phase) < Remaining(Newest(s.workers).phase)
      && t.now == s.now && t.marker == s.marker
  {
    if Newest(s.workers).phase.Locking? { WayPastLock(s, reply); } else { WayThrough(s, reply); }
    hide Control, Step, WayOut;
  }

  lemma WayPastLock(s: State, reply: string)
    requires Control(s) && Stuck(s) && Newest(s.workers).phase.Locking?
    requires |s.requests| == |s.calls| && Newest(s.workers).phase.job < |s.calls|
    requires Newest(s.workers).phase.Answered? ==> s.log != []
    ensures var t := Step(s, WayOut(s, reply));
      && Remaining(Newest(t.workers).phase) < Remaining(Newest(s.workers).phase)
      && t.now == s.now && t.marker == s.marker
  {
    hide GapKept;
  }

  lemma WayThrough(s: State, reply: string)
    requires Control(s) && Stuck(s) && InExchange(Newest(s.workers).phase) && !Newest(s.workers).phase.Locking?
    requires |s.requests| == |s.calls| && Newest(s.workers).phase.job < |s.calls|
    requires Newest(s.workers).phase.Answered? ==> s.log != []
    ensures var t := Step(s, WayOut(s, reply));
      && Remaining(Newest(t.workers).phase) < Remaining(Newest(s.workers).phase)
      && t.now == s.now && t.marker == s.marker
  {
    hide GapKept, LockFits;
  }

  lemma ExecOne(s: State, a: Action, rest: seq<Action>)
    ensures Exec(s, [a] + rest) == Exec(Step(s, a), rest)
  {
    assert ([a] + rest)[1..] == rest;
  }

  lemma {:induction false} WaysOut(s: State, reply: string) returns (run: seq<Action>)
    requires Inv(s) && Stuck(s)
    ensures WorkerOnly(run, Remaining(Newest(s.workers).phase))
    ensures Exec(s, run).marker.None?
    decreases Remaining(Newest(s.workers).phase)
  {
    hide Step, Inv, Stuck;
    var a := WayOut(s, reply);
    var t := Step(s, a);
    WayOutShortens(s, reply);
    StepKeeps(s, a);
    if Stuck(t) {
      var rest := WaysOut(t, reply);
      run := [a] + rest;
      ExecOne(s, a, rest);
    } else {
      run := [a];
      ExecOne(s, a, []);
    }
  }

  /** There is a short way: at most five moves of the worker - one of them the
      firmware returning, if it is inside it - and nobody else's help. */
  lemma ShortWayOut(lockable: bool, now: nat, run: seq<Action>, reply: string)
    ensures var s := Reached(lockable, now, run);
      Stuck(s) ==> exists more :: WorkerOnly(more, 5) && !Stuck(Exec(s, more))
  {
    hide Exec, Inv;
    Reachable(lockable, now, run);
    var s := Reached(lockable, now, run);
    if Stuck(s) {
      var more := WaysOut(s, reply);
      assert WorkerOnly(more, 5);
    }
  }

  predicate WorkerMove(a: Action) {
    a.Works? || a.Exchanges? || a.Panics?
  }

  /** Whether the action is a worker's and changes anything. */
  predicate Effective(s: State, a: Action) {
    WorkerMove(a) && Step(s, a) != s
  }

  function Moves(s: State, run: seq<Action>): nat
    decreases |run|
  {
    if run == [] then 0 else (if Effective(s, run[0]) then 1 else 0) + Moves(Step(s, run[0]), run[1..])
  }

  /** The marker is gone, or the step has used up a move if it was a worker's. */
  ghost predicate UsesUp(s: State, t: State, moved: bool) {
    t.marker.None? || MovesLeft(Newest(t.workers).phase) + (if moved then 1 else 0) <= MovesLeft(Newest(s.workers).phase)
  }

  lemma WorkUsesUp(s: State, w: nat, a: WorkAct)
    requires Control(s) && s.marker.Some? && w < |s.workers|
    ensures UsesUp(s, StepWork(s, w, a), StepWork(s, w, a) != s)
  {
    hide LockFits, GapKept;
  }

  lemma ExchangeUsesUp(s: State, w: nat, a: ExchangeAct)
    requires Control(s) && s.marker.Some? && w < |s.workers|
    ensures UsesUp(s, StepExchange(s, w, a), StepExchange(s, w, a) != s)
  {
    hide LockFits, GapKept;
  }

  lemma PanicUsesUp(s: State, w: nat, a: PanicAct)
    requires Control(s) && s.marker.Some? && w < |s.workers|
    ensures UsesUp(s, StepPanic(s, w, a), StepPanic(s, w, a) != s)
  {
    hide GapKept;
  }

  lemma CallerUsesUp(s: State, i: nat, a: CallerAct)
    requires Control(s) && s.marker.Some? && i < |s.calls|
    ensures UsesUp(s, StepCaller(s, i, a), false)
  {
    hide LockFits, GapKept;
  }

  lemma StepUsesUp(s: State, a: Action)
    requires Inv(s) && s.marker.Some?
    ensures UsesUp(s, Step(s, a), Effective(s, a))
  {
    hide StepWork, StepExchange, StepPanic, StepCaller, Answers, Queues;
    match a
    case Works(w, work) => if w < |s.workers| { WorkUsesUp(s, w, work); }
    case Exchanges(w, exchange) => if w < |s.workers| { ExchangeUsesUp(s, w, exchange); }
    case Panics(w, unwind) => if w < |s.workers| { PanicUsesUp(s, w, unwind); }
    case Caller(i, does) => if i < |s.calls| { CallerUsesUp(s, i, does); }
    case _ =>
  }

  lemma {:induction false} MarkerClears(s: State, run: seq<Action>) returns (k: nat)
    requires Inv(s) && s.marker.Some? && Moves(s, run) >= MovesLeft(Newest(s.workers).phase)
    ensures k <= |run| && Exec(s, run[..k]).marker.None?
    decreases |run|
  {
    assert MovesLeft(Newest(s.workers).phase) > 0 by { MarkedHasMoves(s); }
    hide Step, Inv, Effective;
    var t := Step(s, run[0]);
    StepUsesUp(s, run[0]);
    StepKeeps(s, run[0]);
    var j: nat := 0;
    if t.marker.Some? { j := MarkerClears(t, run[1..]); } else { assert Exec(t, run[1..][..0]) == t; }
    k := j + 1;
    assert run[..k][0] == run[0] && run[..k][1..] == run[1..][..j];
  }

  lemma MarkedHasMoves(s: State)
    requires Inv(s) && s.marker.Some?
    ensures MovesLeft(Newest(s.workers).phase) > 0
  {
    hide Answers, Queues;
  }

  /** The interface cannot wedge: from any moment at which calls are refused, in
      whatever way things go on - others calling, locking, waiting, the worker
      panicking - six moves of the worker are enough for the refusals to have
      ended at some point in between. */
  lemma CannotWedge(lockable: bool, now: nat, run: seq<Action>, more: seq<Action>)
    requires Stuck(Reached(lockable, now, run)) && Moves(Reached(lockable, now, run), more) >= 6
    ensures exists k: nat :: k <= |more| && !Stuck(Exec(Reached(lockable, now, run), more[..k]))
  {
    hide Exec, Inv, Moves, Reached;
    var s := Reached(lockable, now, run);
    Reachable(lockable, now, run);
    var k := MarkerClears(s, more);
    assert !Stuck(Exec(s, more[..k]));
  }

  // ---- Late writes ----

  predicate ApprovesNow(s: State, a: Action) {
    && a.Works? && a.work.Approve? && a.worker < |s.workers|
    && s.workers[a.worker].phase.Rested? && s.now < Deadline(s.calls, s.workers[a.worker].phase.job)
  }

  /** The request goes to the firmware. */
  predicate WritesNow(s: State, a: Action) {
    a.Exchanges? && a.exchange.Write? && a.worker < |s.workers| && s.workers[a.worker].phase.Holding?
  }

  /** It does so for a caller who has been told that the call failed. */
  predicate WritesLate(s: State, a: Action) {
    WritesNow(s, a) && var j := s.workers[a.worker].phase.job; j < |s.calls| && s.calls[j].phase.Returned?
  }

  ghost predicate NoLateWrite(s: State, run: seq<Action>)
    decreases |run|
  {
    run != [] ==> !WritesLate(s, run[0]) && NoLateWrite(Step(s, run[0]), run[1..])
  }

  /** When a job was last found to be in time. */
  function Approval(s: State, approved: nat, a: Action): nat {
    if ApprovesNow(s, a) then s.now else approved
  }

  function ApprovalAfter(s: State, approved: nat, run: seq<Action>): nat
    decreases |run|
  {
    if run == [] then approved else ApprovalAfter(Step(s, run[0]), Approval(s, approved, run[0]), run[1..])
  }

  /** Every write of the run follows its approval within `slack` milliseconds. */
  ghost predicate Prompt(slack: nat, s: State, approved: nat, run: seq<Action>)
    decreases |run|
  {
    run != [] ==>
      && (WritesNow(s, run[0]) ==> s.now <= approved + slack)
      && Prompt(slack, Step(s, run[0]), Approval(s, approved, run[0]), run[1..])
  }

  /** A job on its way to the firmware was approved before its deadline. */
  ghost predicate WasInTime(s: State, approved: nat) {
    var p := Newest(s.workers).phase;
    p.Approved? || p.Locking? || p.Holding? ==> approved < Deadline(s.calls, p.job)
  }

  lemma WorkInTime(s: State, w: nat, a: WorkAct, approved: nat)
    requires Control(s) && WasInTime(s, approved) && w < |s.workers|
    ensures WasInTime(StepWork(s, w, a), Approval(s, approved, Works(w, a)))
  {
    hide MarkerFits, LockFits, GapKept;
  }

  lemma ExchangeInTime(s: State, w: nat, a: ExchangeAct, approved: nat)
    requires Control(s) && WasInTime(s, approved) && w < |s.workers|
    ensures WasInTime(StepExchange(s, w, a), approved)
  {
    hide MarkerFits, LockFits, GapKept;
  }

  lemma PanicInTime(s: State, w: nat, a: PanicAct, approved: nat)
    requires Control(s) && WasInTime(s, approved) && w < |s.workers|
    ensures WasInTime(StepPanic(s, w, a), approved)
  {
    hide MarkerFits, LockFits, GapKept;
  }

  /** A caller fixes its deadline before any worker holds its job. */
  lemma CallerInTime(s: State, i: nat, a: CallerAct, approved: nat)
    requires Control(s) && Queues(s) && WasInTime(s, approved) && i < |s.calls|
    ensures WasInTime(StepCaller(s, i, a), approved)
  {
    InHand(s);
    CallerKeepsPhase(s, i, a);
    var p := Newest(s.workers).phase;
    if p.Approved? || p.Locking? || p.Holding? { CallerKeepsDeadline(s, i, a, p.job); }
    hide StepCaller, Control, JobsFit, CallsFit, Unwritten, Held;
  }

  lemma CallerKeepsPhase(s: State, i: nat, a: CallerAct)
    requires Control(s) && i < |s.calls|
    ensures var p := Newest(StepCaller(s, i, a).workers).phase; p == Newest(s.workers).phase || p.Idle?
  {
    hide MarkerFits, LockFits, GapKept;
  }

  lemma CallerKeepsDeadline(s: State, i: nat, a: CallerAct, j: nat)
    requires i < |s.calls|
    ensures j < |s.calls| && !s.calls[j].phase.Checked? ==> Deadline(StepCaller(s, i, a).calls, j) == Deadline(s.calls, j)
  {
  }

  lemma StepInTime(s: State, a: Action, approved: nat)
    requires Inv(s) && WasInTime(s, approved)
    ensures WasInTime(Step(s, a), Approval(s, approved, a))
  {
    hide StepWork, StepExchange, StepPanic, StepCaller, Control, Queues, Answers;
    match a
    case Works(w, work) => if w < |s.workers| { WorkInTime(s, w, work, approved); }
    case Exchanges(w, exchange) => if w < |s.workers| { ExchangeInTime(s, w, exchange, approved); }
    case Panics(w, unwind) => if w < |s.workers| { PanicInTime(s, w, unwind, approved); }
    case Caller(i, does) => if i < |s.calls| { CallerInTime(s, i, does, approved); }
    case Enter(request, timeout) => EnterInTime(s, request, timeout, approved);
    case _ =>
  }

  lemma EnterInTime(s: State, request: string, timeout: nat, approved: nat)
    requires Control(s) && Queues(s) && WasInTime(s, approved)
    ensures WasInTime(Entered(s, request, timeout), approved)
  {
    InHand(s);
    hide Control, JobsFit, CallsFit, Unwritten, Held;
  }

  /** A write that happens before the deadline has its caller waiting for it. */
  lemma InTimeHasWaiter(s: State, a: Action)
    requires Inv(s) && WritesNow(s, a)
    ensures var j := s.workers[a.worker].phase.job;
      && j < |s.calls| && (s.now < s.calls[j].deadline ==> !WritesLate(s, a))
      && (s.now < s.calls[j].deadline ==> JobFits(s.now, s.calls[j]))
  {
    hide Answers, MarkerFits, LockFits, GapKept, Unwritten, CallsFit;
    assert a.worker == |s.workers| - 1;
    InHand(s);
  }

  /** What does hold of every run: a write taken before its job's deadline has a
      caller who waits for it, and will at least until the deadline. */
  lemma TimelyWriteHasWaiter(lockable: bool, now: nat, run: seq<Action>, a: Action)
    requires var s := Reached(lockable, now, run); WritesNow(s, a)
    ensures var s := Reached(lockable, now, run); var j := s.workers[a.worker].phase.job;
      && j < |s.calls|
      && (s.now < s.calls[j].deadline ==>
            && !WritesLate(s, a) && s.calls[j].mail.None?
            && (s.calls[j].phase.Submitted? || (s.calls[j].phase.Waiting? && s.calls[j].deadline <= s.calls[j].phase.giveUp)))
  {
    Reachable(lockable, now, run);
    hide Exec, Inv, WritesLate;
    InTimeHasWaiter(Reached(lockable, now, run), a);
  }

  lemma {:induction false} PromptIsTimely(s: State, approved: nat, run: seq<Action>)
    requires Inv(s) && WasInTime(s, approved) && Prompt(0, s, approved, run)
    ensures NoLateWrite(s, run)
    decreases |run|
  {
    hide Step, Inv, WasInTime, WritesLate, Approval;
    if run != [] {
      StepInTime(s, run[0], approved);
      StepKeeps(s, run[0]);
      if WritesNow(s, run[0]) { PromptHasWaiter(s, run[0], approved); }
      PromptIsTimely(Step(s, run[0]), Approval(s, approved, run[0]), run[1..]);
      assert !WritesNow(s, run[0]) ==> !WritesLate(s, run[0]) by { OnlyWritesLate(s, run[0]); }
    }
  }

  lemma OnlyWritesLate(s: State, a: Action)
    ensures WritesLate(s, a) ==> WritesNow(s, a)
  {
  }

  lemma PromptHasWaiter(s: State, a: Action, approved: nat)
    requires Inv(s) && WasInTime(s, approved) && WritesNow(s, a) && s.now <= approved
    ensures !WritesLate(s, a)
  {
    InTimeHasWaiter(s, a);
    hide Answers, Queues, MarkerFits, LockFits, GapKept, WritesLate;
    assert a.worker == |s.workers| - 1;
  }

  lemma {:induction false} QuietIsPrompt(slack: nat, s: State, approved: nat, run: seq<Action>)
    requires forall k | 0 <= k < |run| :: !(run[k].Exchanges? && run[k].exchange.Write?)
    ensures Prompt(slack, s, approved, run)
    decreases |run|
  {
    hide Step, Approval;
    if run != [] { QuietIsPrompt(slack, Step(s, run[0]), Approval(s, approved, run[0]), run[1..]); }
  }

  lemma {:induction false} PromptJoin(slack: nat, s: State, approved: nat, first: seq<Action>, second: seq<Action>)
    requires Prompt(slack, s, approved, first) && Prompt(slack, Exec(s, first), ApprovalAfter(s, approved, first), second)
    ensures Prompt(slack, s, approved, first + second)
    decreases |first|
  {
    hide Step, WritesNow, Approval;
    if first == [] {
      assert first + second == second;
    } else {
      assert (first + second)[1..] == first[1..] + second;
      PromptJoin(slack, Step(s, first[0]), Approval(s, approved, first[0]), first[1..], second);
    }
  }

  lemma {:induction false} LateJoin(s: State, first: seq<Action>, second: seq<Action>)
    requires !NoLateWrite(Exec(s, first), second)
    ensures !NoLateWrite(s, first + second)
    decreases |first|
  {
    hide Step, WritesLate;
    if first == [] {
      assert first + second == second;
    } else {
      assert (first + second)[1..] == first[1..] + second;
      LateJoin(Step(s, first[0]), first[1..], second);
    }
  }

  /** A run with one call: its worker approves the job in the last millisecond, is
      held up by one more before it writes, and the caller gives up in it. */
  function LateStart(timeout: nat): seq<Action> {
    [Enter("late", timeout), Caller(0, Make), Caller(0, Submit(true))]
  }

  const LateTake: seq<Action> := [Caller(0, Wait), Works(0, Pick), Works(0, Rest)]

  function LateBegin(timeout: nat): seq<Action> {
    [Tick(if timeout == 0 then 0 else timeout - 1), Works(0, Approve), Works(0, Begin)]
  }

  function LateWait(lockable: bool): seq<Action> {
    [Exchanges(0, if lockable then Lock else NoLockFile), Tick(1), Caller(0, GiveUp)]
  }

  const LateEnd: seq<Action> := [Exchanges(0, Write), Exchanges(0, Answer("done")), Exchanges(0, Read)]

  function LateRun(lockable: bool, timeout: nat): seq<Action> {
    LateStart(timeout) + LateTake + LateBegin(timeout) + LateWait(lockable) + LateEnd
  }

  function LateState(lockable: bool, now: nat, timeout: nat, phase: CallPhase, wk: Worker, marker: Option<nat>, lock: Holder,
                     log: seq<Entry>, written: map<nat, nat>): State {
    State(lockable, now, marker, lock, log, [], written, ["late"], [Call(timeout, timeout, phase, None)], [wk], Some(0))
  }

  function LateSubmitted(lockable: bool, timeout: nat): State {
    LateState(lockable, 0, timeout, Submitted, Worker([0], Idle, None), None, Free, [], map[])
  }

  function LateRested(lockable: bool, timeout: nat): State {
    LateState(lockable, 0, timeout, Waiting(timeout), Worker([], Rested(0), None), None, Free, [], map[])
  }

  function LateLocking(lockable: bool, timeout: nat): State
    requires timeout > 0
  {
    LateState(lockable, timeout - 1, timeout, Waiting(timeout), Worker([], Locking(0), None), Some(timeout), Free, [], map[])
  }

  function LateTold(lockable: bool, timeout: nat): State {
    LateState(lockable, timeout, timeout, Returned(Err(TimedOut)), Worker([], Holding(0), None), Some(timeout),
      if lockable then Ours(0) else Free, [], map[])
  }

  lemma LateFirst(lockable: bool, timeout: nat)
    ensures Exec(Init(lockable, 0), LateStart(timeout)) == LateSubmitted(lockable, timeout)
  {
    ExecThree(Init(lockable, 0), Enter("late", timeout), Caller(0, Make), Caller(0, Submit(true)));
  }

  lemma LateSecond(lockable: bool, timeout: nat)
    ensures Exec(LateSubmitted(lockable, timeout), LateTake) == LateRested(lockable, timeout)
  {
    ExecThree(LateSubmitted(lockable, timeout), Caller(0, Wait), Works(0, Pick), Works(0, Rest));
  }

  lemma LateThird(lockable: bool, timeout: nat)
    requires timeout > 0
    ensures Exec(LateRested(lockable, timeout), LateBegin(timeout)) == LateLocking(lockable, timeout)
  {
    ExecThree(LateRested(lockable, timeout), Tick(timeout - 1), Works(0, Approve), Works(0, Begin));
  }

  lemma LateFourth(lockable: bool, timeout: nat)
    requires timeout > 0
    ensures Exec(LateLocking(lockable, timeout), LateWait(lockable)) == LateTold(lockable, timeout)
  {
    ExecThree(LateLocking(lockable, timeout), Exchanges(0, if lockable then Lock else NoLockFile), Tick(1), Caller(0, GiveUp));
  }

  lemma LateFifth(lockable: bool, timeout: nat)
    ensures var t := Exec(LateTold(lockable, timeout), LateEnd);
      t.log == [Entry(OurJob(0), "late", "done")] && t.calls == [Call(timeout, timeout, Returned(Err(TimedOut)), None)]
    ensures !NoLateWrite(LateTold(lockable, timeout), LateEnd)
  {
    ExecThree(LateTold(lockable, timeout), Exchanges(0, Write), Exchanges(0, Answer("done")), Exchanges(0, Read));
    assert WritesLate(LateTold(lockable, timeout), LateEnd[0]);
  }

  function LatePrefix(lockable: bool, timeout: nat): seq<Action> {
    LateStart(timeout) + LateTake + LateBegin(timeout) + LateWait(lockable)
  }

  lemma LatePrefixLeads(lockable: bool, timeout: nat)
    requires timeout > 0
    ensures Exec(Init(lockable, 0), LatePrefix(lockable, timeout)) == LateTold(lockable, timeout)
    ensures ApprovalAfter(Init(lockable, 0), 0, LatePrefix(lockable, timeout)) == timeout - 1
  {
    LateFirst(lockable, timeout);
    LateSecond(lockable, timeout);
    LateThird(lockable, timeout);
    LateFourth(lockable, timeout);
    LateApproval(lockable, timeout);
    hide Exec, Step, Init, ApprovalAfter, LateStart, LateBegin, LateWait, LateSubmitted, LateRested, LateLocking, LateTold;
    var s := Init(lockable, 0);
    var a, b, c, d := LateStart(timeout), LateTake, LateBegin(timeout), LateWait(lockable);
    ExecJoin(s, a, b);
    ExecJoin(s, a + b, c);
    ExecJoin(s, a + b + c, d);
    ApprovalJoin(s, 0, a, b);
    ApprovalJoin(s, 0, a + b, c);
    ApprovalJoin(s, 0, a + b + c, d);
  }

  /** Only the third part approves anything, in the last millisecond. */
  lemma LateApproval(lockable: bool, timeout: nat)
    requires timeout > 0
    ensures ApprovalAfter(Init(lockable, 0), 0, LateStart(timeout)) == 0
    ensures ApprovalAfter(LateSubmitted(lockable, timeout), 0, LateTake) == 0
    ensures ApprovalAfter(LateRested(lockable, timeout), 0, LateBegin(timeout)) == timeout - 1
    ensures ApprovalAfter(LateLocking(lockable, timeout), timeout - 1, LateWait(lockable)) == timeout - 1
  {
    NoApproval(Init(lockable, 0), 0, LateStart(timeout));
    NoApproval(LateSubmitted(lockable, timeout), 0, LateTake);
    NoApproval(LateLocking(lockable, timeout), timeout - 1, LateWait(lockable));
    LateApproves(lockable, timeout);
  }

  lemma LateApproves(lockable: bool, timeout: nat)
    requires timeout > 0
    ensures ApprovalAfter(LateRested(lockable, timeout), 0, LateBegin(timeout)) == timeout - 1
  {
    var run := LateBegin(timeout);
    var s := LateRested(lockable, timeout);
    var t := s.(now := timeout - 1);
    assert Step(s, run[0]) == t && Approval(s, 0, run[0]) == 0 && Approval(t, 0, run[1]) == timeout - 1;
    assert run[1..] == [Works(0, Approve), Works(0, Begin)] && run[1..][1..] == [Works(0, Begin)];
    hide Step, Approval;
    NoApproval(Step(t, run[1]), timeout - 1, [Works(0, Begin)]);
  }

  lemma {:induction false} NoApproval(s: State, approved: nat, run: seq<Action>)
    requires forall k | 0 <= k < |run| :: !(run[k].Works? && run[k].work.Approve?)
    ensures ApprovalAfter(s, approved, run) == approved
    decreases |run|
  {
    hide Step;
    if run != [] { NoApproval(Step(s, run[0]), approved, run[1..]); }
  }

  lemma {:induction false} ApprovalJoin(s: State, approved: nat, first: seq<Action>, second: seq<Action>)
    ensures ApprovalAfter(s, approved, first + second) == ApprovalAfter(Exec(s, first), ApprovalAfter(s, approved, first), second)
    decreases |first|
  {
    hide Step, Approval;
    if first == [] {
      assert first + second == second;
    } else {
      assert (first + second)[1..] == first[1..] + second;
      ApprovalJoin(Step(s, first[0]), Approval(s, approved, first[0]), first[1..], second);
    }
  }

  /** "No late writes" does not hold: whatever the timeout, with or without a lock
      file, there is a run in which a write follows its approval by one millisecond
      and goes to the firmware for a caller who was told in it that the call failed. */
  lemma LateWriteHappens(lockable: bool, timeout: nat, slack: nat)
    requires timeout > 0 && slack > 0
    ensures var run := LateRun(lockable, timeout); var t := Reached(lockable, 0, run);
      && Prompt(slack, Init(lockable, 0), 0, run) && !NoLateWrite(Init(lockable, 0), run)
      && t.log == [Entry(OurJob(0), "late", "done")] && t.calls == [Call(timeout, timeout, Returned(Err(TimedOut)), None)]
  {
    var s, told, prefix := Init(lockable, 0), LateTold(lockable, timeout), LatePrefix(lockable, timeout);
    LatePrefixLeads(lockable, timeout);
    LateFifth(lockable, timeout);
    QuietIsPrompt(slack, s, 0, prefix);
    LateEndPrompt(slack, told, timeout - 1);
    hide Exec, Step, Init, LateTold, LatePrefix, Prompt, NoLateWrite, ApprovalAfter;
    ExecJoin(s, prefix, LateEnd);
    PromptJoin(slack, s, 0, prefix, LateEnd);
    LateJoin(s, prefix, LateEnd);
    assert LateRun(lockable, timeout) == prefix + LateEnd by { LateParts(lockable, timeout); }
  }

  lemma LateParts(lockable: bool, timeout: nat)
    ensures LateRun(lockable, timeout) == LatePrefix(lockable, timeout) + LateEnd
  {
  }

  lemma LateEndPrompt(slack: nat, s: State, approved: nat)
    requires s.now <= approved + slack
    ensures Prompt(slack, s, approved, LateEnd)
  {
    hide Step;
    assert LateEnd[1..] == [Exchanges(0, Answer("done")), Exchanges(0, Read)];
    QuietIsPrompt(slack, Step(s, LateEnd[0]), Approval(s, approved, LateEnd[0]), LateEnd[1..]);
  }

  /** Nothing is ever written for a caller who has been told that it failed, if and
      only if no time at all may pass between a job's approval and its write. */
  lemma NoLateWriteIff(lockable: bool, slack: nat)
    ensures (forall now, run | Prompt(slack, Init(lockable, now), 0, run) :: NoLateWrite(Init(lockable, now), run)) <==> slack == 0
  {
    hide Exec, Step, Prompt, NoLateWrite, LateRun;
    if slack == 0 {
      forall now, run | Prompt(0, Init(lockable, now), 0, run) ensures NoLateWrite(Init(lockable, now), run) {
        Reachable(lockable, now, []);
        StartsFit(lockable, now);
        PromptIsTimely(Init(lockable, now), 0, run);
      }
    } else {
      LateWriteHappens(lockable, 1, slack);
    }
  }

  lemma StartsFit(lockable: bool, now: nat)
    ensures Inv(Init(lockable, now)) && WasInTime(Init(lockable, now), 0)
  {
  }

  // ---- What a call gets ----

  /** The newest worker is inside, or unwinding out of, an exchange whose deadline
      has passed. */
  predicate LateExchange(s: State) {
    var p := Newest(s.workers).phase;
    && (p.Locking? || p.Holding? || p.InKernel? || p.Answered? || p.Finished? || (p.Unwinding? && p.marked))
    && p.job < |s.calls| && s.calls[p.job].deadline <= s.now
  }

  /** A call is refused as it enters if and only if an exchange is late; otherwise
      it goes on, with its request, its timeout and no reply yet. */
  lemma EnteringRefusedIff(lockable: bool, now: nat, run: seq<Action>, request: string, timeout: nat)
    ensures var s := Reached(lockable, now, run); var t := Step(s, Enter(request, timeout)); var i := |s.calls|;
      && |t.calls| == i + 1 && t.calls[..i] == s.calls && t.requests == s.requests + [request]
      && t.calls[i].timeout == timeout && t.calls[i].mail == None
      && (t.calls[i].phase == Returned(Err(NotSent)) <==> LateExchange(s))
      && (!LateExchange(s) ==> t.calls[i].phase == Checked)
      && t.workers == s.workers && t.log == s.log && t.now == s.now
  {
    hide Exec;
    StuckIsALateExchange(lockable, now, run);
    Reachable(lockable, now, run);
  }

  /** The call has been refused, and its request is with nobody. */
  ghost predicate TurnedAway(s: State, i: nat) {
    && i < |s.calls| && s.calls[i].phase == Returned(Err(NotSent))
    && (forall w | 0 <= w < |s.workers| :: i !in Held(s.workers[w]))
    && (forall k | 0 <= k < |s.log| :: s.log[k].owner != OurJob(i))
  }

  lemma WorkTurnsAway(s: State, w: nat, a: WorkAct, i: nat)
    requires TurnedAway(s, i) && w < |s.workers|
    ensures TurnedAway(StepWork(s, w, a), i)
  {
    var wk := s.workers[w];
    assert i !in Held(wk);
    HeldAgain(wk, i);
    hide Held;
  }

  /** A job a worker does not hold is neither in its hands nor in its inbox. */
  lemma HeldAgain(wk: Worker, i: nat)
    requires i !in Held(wk)
    ensures i !in wk.inbox && (!wk.phase.Idle? && !wk.phase.Dead? ==> wk.phase.job != i)
    ensures wk.phase.Idle? && wk.inbox != [] ==> i !in Held(wk.(inbox := wk.inbox[1..], phase := Picked(wk.inbox[0])))
    ensures forall p: Phase, last :: (p.Idle? || p.Dead? || p.job != i) ==> i !in Held(Worker(wk.inbox, p, last))
  {
    if !wk.phase.Idle? && !wk.phase.Dead? { assert Held(wk)[0] == wk.phase.job && Held(wk)[1..] == wk.inbox; }
    if wk.phase.Idle? && wk.inbox != [] { assert Held(wk) == wk.inbox && wk.inbox == [wk.inbox[0]] + wk.inbox[1..]; }
  }

  lemma ExchangeTurnsAway(s: State, w: nat, a: ExchangeAct, i: nat)
    requires TurnedAway(s, i) && w < |s.workers|
    ensures TurnedAway(StepExchange(s, w, a), i)
  {
    var wk := s.workers[w];
    assert i !in Held(wk);
    if InExchange(wk.phase) { assert Held(wk)[0] == wk.phase.job && Held(wk)[1..] == wk.inbox; }
  }

  lemma PanicTurnsAway(s: State, w: nat, a: PanicAct, i: nat)
    requires TurnedAway(s, i) && w < |s.workers|
    ensures TurnedAway(StepPanic(s, w, a), i)
  {
    var wk := s.workers[w];
    assert i !in Held(wk);
    if !wk.phase.Idle? && !wk.phase.Dead? { assert Held(wk)[0] == wk.phase.job && Held(wk)[1..] == wk.inbox; }
  }

  lemma CallerTurnsAway(s: State, c: nat, a: CallerAct, i: nat)
    requires TurnedAway(s, i) && c < |s.calls|
    ensures TurnedAway(StepCaller(s, c, a), i)
  {
    var t := StepCaller(s, c, a);
    if c != i && a.Submit? && s.calls[c].phase.Made? {
      forall w | 0 <= w < |t.workers| ensures i !in Held(t.workers[w]) {
        if w < |s.workers| {
          assert i !in Held(s.workers[w]);
          var wk := s.workers[w];
          if t.workers[w] != wk { assert Held(wk.(inbox := wk.inbox + [c])) == Held(wk) + [c]; }
        }
      }
    }
  }

  lemma StepTurnsAway(s: State, a: Action, i: nat)
    requires TurnedAway(s, i)
    ensures TurnedAway(Step(s, a), i)
  {
    hide StepWork, StepExchange, StepPanic, StepCaller, Held;
    match a
    case Works(w, work) => if w < |s.workers| { WorkTurnsAway(s, w, work, i); }
    case Exchanges(w, exchange) => if w < |s.workers| { ExchangeTurnsAway(s, w, exchange, i); }
    case Panics(w, unwind) => if w < |s.workers| { PanicTurnsAway(s, w, unwind, i); }
    case Caller(c, does) => if c < |s.calls| { CallerTurnsAway(s, c, does, i); }
    case _ =>
  }

  lemma {:induction false} RunTurnsAway(s: State, run: seq<Action>, i: nat)
    requires TurnedAway(s, i)
    ensures TurnedAway(Exec(s, run), i)
    decreases |run|
  {
    hide Step, TurnedAway;
    if run != [] {
      StepTurnsAway(s, run[0], i);
      RunTurnsAway(Step(s, run[0]), run[1..], i);
    }
  }

  lemma NewcomerIsNowhere(s: State)
    requires Inv(s)
    ensures forall w | 0 <= w < |s.workers| :: |s.calls| !in Held(s.workers[w])
    ensures forall k | 0 <= k < |s.log| :: s.log[k].owner != OurJob(|s.calls|)
  {
    hide MarkerFits, LockFits, GapKept, CallsFit, Unwritten, CallsTruthful, WorkerTruthful, OthersTruthful;
    forall w | 0 <= w < |s.workers| ensures |s.calls| !in Held(s.workers[w]) {
      if w < |s.workers| - 1 { assert Held(s.workers[w]) == []; }
    }
  }

  /** And then it stays refused, whatever follows, and nothing of it ever reaches an
      inbox, a worker or the firmware. */
  lemma RefusedForever(lockable: bool, now: nat, run: seq<Action>, request: string, timeout: nat, more: seq<Action>)
    requires LateExchange(Reached(lockable, now, run))
    ensures var s := Reached(lockable, now, run); var t := Exec(Step(s, Enter(request, timeout)), more); var i := |s.calls|;
      && i < |t.calls| && t.calls[i].phase == Returned(Err(NotSent))
      && (forall w | 0 <= w < |t.workers| :: i !in t.workers[w].inbox && i !in Held(t.workers[w]))
      && (forall k | 0 <= k < |t.log| :: t.log[k].owner != OurJob(i))
  {
    var s := Reached(lockable, now, run);
    var t := Step(s, Enter(request, timeout));
    EnteringRefusedIff(lockable, now, run, request, timeout);
    Reachable(lockable, now, run);
    NewcomerIsNowhere(s);
    hide Step, Exec, Inv, Reached, LateExchange;
    assert TurnedAway(t, |s.calls|);
    RunTurnsAway(t, more, |s.calls|);
    InboxIsHeld(Exec(t, more), |s.calls|);
  }

  lemma InboxIsHeld(s: State, i: nat)
    ensures forall w | 0 <= w < |s.workers| && i !in Held(s.workers[w]) :: i !in s.workers[w].inbox
  {
  }

  /** A job that has been made, with a deadline its timeout away, goes to the back of
      the live worker's inbox; to a new worker when there is none; and is refused
      only when none can be started. */
  lemma SubmittedTo(lockable: bool, now: nat, run: seq<Action>, i: nat, spawns: bool)
    requires var s := Reached(lockable, now, run); i < |s.calls| && s.calls[i].phase.Made?
    ensures var s := Reached(lockable, now, run); var t := Step(s, Caller(i, Submit(spawns)));
      var live := s.workers != [] && !s.workers[|s.workers| - 1].phase.Dead?;
      && (live || spawns ==> t.calls[i].phase == Submitted && t.workers != [])
      && (live || spawns ==> Newest(t.workers).inbox == (if live then Newest(s.workers).inbox else []) + [i])
      && (live ==> |t.workers| == |s.workers| && Newest(t.workers).phase == Newest(s.workers).phase)
      && (!live && spawns ==> |t.workers| == |s.workers| + 1 && Newest(t.workers).phase == Idle && Newest(t.workers).lastDone == None)
      && (!live && !spawns ==> t.calls[i].phase == Returned(Err(Io)) && t.workers == s.workers)
  {
    Reachable(lockable, now, run);
    hide Exec, Reached, MarkerFits, LockFits, GapKept, JobsFit, CallsFit, Unwritten, Answers;
  }

  /** The deadline and the time to give up are each one timeout from when they are set. */
  lemma TimesAreSet(s: State, i: nat)
    requires i < |s.calls|
    ensures s.calls[i].phase.Checked? ==>
      Step(s, Caller(i, Make)) == s.(calls := s.calls[i := s.calls[i].(phase := Made, deadline := s.now + s.calls[i].timeout)])
    ensures s.calls[i].phase.Submitted? ==>
      Step(s, Caller(i, CallerAct.Wait)) == s.(calls := s.calls[i := s.calls[i].(phase := Waiting(s.now + s.calls[i].timeout))])
  {
  }

  /** Nobody waits for ever: a reply that is there is returned as it is; a caller
      whose job no worker has any more learns it at once; and once its time is up
      a caller returns in any case. */
  lemma WaiterReturns(s: State, i: nat)
    requires i < |s.calls| && s.calls[i].phase.Waiting?
    ensures s.calls[i].mail.Some? ==> Step(s, Caller(i, Receive)).calls[i].phase == Returned(s.calls[i].mail.value)
    ensures s.calls[i].mail.None? && (forall w | 0 <= w < |s.workers| :: i !in Held(s.workers[w])) ==>
      Step(s, Caller(i, HangUp)).calls[i].phase == Returned(Err(WorkerGone))
    ensures s.now >= s.calls[i].phase.giveUp ==> Step(s, Caller(i, GiveUp)).calls[i].phase == Returned(Err(TimedOut))
  {
  }

  // ---- What an error means ----

  /** Errors that speak of time are told only once the deadline has passed; and a
      call refused, dropped or kept out by the lock has written nothing. */
  predicate Meant(now: nat, written: map<nat, nat>, i: nat, c: Call, r: Reply) {
    && (r in {Err(TimedOut), Err(DroppedLate), Err(LockHeld)} ==> c.deadline <= now)
    && (r in {Err(NotSent), Err(DroppedLate), Err(LockHeld)} ==> i !in written)
  }

  ghost predicate CallMeant(now: nat, written: map<nat, nat>, i: nat, c: Call) {
    && (c.mail.Some? ==> Meant(now, written, i, c, c.mail.value) && c.mail.value != Err(NotSent))
    && (c.phase.Returned? ==> Meant(now, written, i, c, c.phase.result))
    && (c.phase.Submitted? ==> c.deadline <= now + c.timeout)
    && (c.phase.Waiting? ==> c.deadline <= c.phase.giveUp)
  }

  ghost predicate CallsMeant(now: nat, written: map<nat, nat>, calls: seq<Call>) {
    forall i | 0 <= i < |calls| :: CallMeant(now, written, i, calls[i])
  }

  /** The reply a worker is about to send, likewise. */
  ghost predicate ReplyMeant(now: nat, written: map<nat, nat>, calls: seq<Call>, p: Phase) {
    (p.Finished? || p.Replying?) && p.job < |calls| ==>
      Meant(now, written, p.job, calls[p.job], p.result) && p.result != Err(NotSent)
  }

  ghost predicate ErrorsMeant(s: State) {
    CallsMeant(s.now, s.written, s.calls) && ReplyMeant(s.now, s.written, s.calls, Newest(s.workers).phase)
  }

  lemma MailMeans(now: nat, written: map<nat, nat>, calls: seq<Call>, j: nat, r: Reply)
    requires CallsMeant(now, written, calls)
    requires j < |calls| ==> Meant(now, written, j, calls[j], r) && r != Err(NotSent)
    ensures CallsMeant(now, written, Mailed(calls, j, r))
  {
  }

  lemma TellsMeans(s: State, w: nat, a: WorkAct)
    requires Inv(s) && ErrorsMeant(s) && w < |s.workers| && TellsCaller(s, w, a)
    ensures ErrorsMeant(StepWork(s, w, a))
  {
    ReplyStep(s, w, a);
    InHand(s);
    hide StepWork, MarkerFits, LockFits, GapKept, JobsFit, CallsFit, Answers, CallsMeant, Held, JobFits;
    var p := s.workers[w].phase;
    assert w == |s.workers| - 1;
    MailMeans(s.now, s.written, s.calls, p.job, if a.Send? then p.result else Err(DroppedLate));
  }

  lemma PhaseMeans(s: State, w: nat, a: WorkAct)
    requires Control(s) && ErrorsMeant(s) && w < |s.workers| && !TellsCaller(s, w, a)
    ensures ErrorsMeant(StepWork(s, w, a))
  {
    hide MarkerFits, LockFits, GapKept, CallsMeant, Meant;
  }

  lemma WorkMeans(s: State, w: nat, a: WorkAct)
    requires Inv(s) && ErrorsMeant(s) && w < |s.workers|
    ensures ErrorsMeant(StepWork(s, w, a))
  {
    if TellsCaller(s, w, a) { TellsMeans(s, w, a); } else { PhaseMeans(s, w, a); }
    hide StepWork, Control, Queues, Answers, ErrorsMeant, TellsCaller;
  }

  /** The job about to be answered by the firmware has been told nothing yet, unless
      that its time was up. */
  lemma AnswerMeans(s: State, w: nat, reply: string)
    requires Inv(s) && ErrorsMeant(s) && w < |s.workers|
    ensures ErrorsMeant(StepExchange(s, w, Answer(reply)))
  {
    InHand(s);
    var t := StepExchange(s, w, Answer(reply));
    if t != s {
      var j := s.workers[w].phase.job;
      assert w == |s.workers| - 1;
      hide MarkerFits, LockFits, GapKept, JobsFit, CallsFit, Unwritten, Answers, Held;
      forall i | 0 <= i < |t.calls| ensures CallMeant(t.now, t.written, i, t.calls[i]) {
        assert CallMeant(s.now, s.written, i, s.calls[i]);
      }
    }
  }

  lemma ExchangeMeans(s: State, w: nat, a: ExchangeAct)
    requires Inv(s) && ErrorsMeant(s) && w < |s.workers|
    ensures ErrorsMeant(StepExchange(s, w, a))
  {
    if a.Answer? {
      AnswerMeans(s, w, a.reply);
    } else {
      OutMeans(s, w, a);
    }
    hide StepExchange, Control, Queues, Answers, ErrorsMeant;
  }

  lemma OutMeans(s: State, w: nat, a: ExchangeAct)
    requires Control(s) && Queues(s) && ErrorsMeant(s) && w < |s.workers| && !a.Answer?
    ensures ErrorsMeant(StepExchange(s, w, a))
  {
    hide MarkerFits, LockFits, GapKept, JobsFit, CallsFit, CallsMeant;
  }

  lemma PanicMeans(s: State, w: nat, a: PanicAct)
    requires Inv(s) && ErrorsMeant(s) && w < |s.workers|
    ensures ErrorsMeant(StepPanic(s, w, a))
  {
    hide MarkerFits, LockFits, GapKept, Queues, Answers, CallsMeant, Meant;
  }

  lemma CallerMeans(s: State, i: nat, a: CallerAct)
    requires Inv(s) && ErrorsMeant(s) && i < |s.calls|
    ensures ErrorsMeant(StepCaller(s, i, a))
  {
    CallsStayMeant(s, i, a);
    CallerKeepsPhase(s, i, a);
    InHand(s);
    var p := Newest(s.workers).phase;
    CallerKeepsDeadline(s, i, a, if p.Finished? || p.Replying? then p.job else 0);
    CallerWritesNothing(s, i, a);
    hide StepCaller, Control, JobsFit, CallsFit, Unwritten, Answers, CallsMeant, Held;
  }

  lemma CallerWritesNothing(s: State, i: nat, a: CallerAct)
    requires i < |s.calls|
    ensures var t := StepCaller(s, i, a); t.written == s.written && t.now == s.now && |t.calls| == |s.calls|
  {
  }

  lemma CallsStayMeant(s: State, i: nat, a: CallerAct)
    requires Control(s) && Queues(s) && ErrorsMeant(s) && i < |s.calls|
    ensures var t := StepCaller(s, i, a); CallsMeant(t.now, t.written, t.calls)
  {
    hide MarkerFits, LockFits, GapKept, JobsFit, Unwritten;
    assert CallMeant(s.now, s.written, i, s.calls[i]);
    var t := StepCaller(s, i, a);
    OnlyThisCall(s, i, a);
    forall k | 0 <= k < |t.calls| ensures CallMeant(t.now, t.written, k, t.calls[k]) {
      assert CallMeant(s.now, s.written, k, s.calls[k]);
    }
  }

  lemma OnlyThisCall(s: State, i: nat, a: CallerAct)
    requires i < |s.calls|
    ensures var t := StepCaller(s, i, a);
      && t.now == s.now && t.written == s.written && |t.calls| == |s.calls|
      && forall k | 0 <= k < |s.calls| && k != i :: t.calls[k] == s.calls[k]
  {
  }

  /** A call that is only now made has no entry and is in nobody's hands. */
  lemma EnterUnwritten(s: State)
    requires Inv(s)
    ensures |s.calls| !in s.written
    ensures var p := Newest(s.workers).phase; (p.Finished? || p.Replying?) ==> p.job < |s.calls|
  {
    InHand(s);
    hide MarkerFits, LockFits, GapKept, JobsFit, CallsFit, Unwritten, CallsTruthful, WorkerTruthful, OthersTruthful, Held;
  }

  lemma EnterMeans(s: State, request: string, timeout: nat)
    requires Inv(s) && ErrorsMeant(s)
    ensures ErrorsMeant(Entered(s, request, timeout))
  {
    EnterUnwritten(s);
    hide Inv;
    var t := Entered(s, request, timeout);
    forall k | 0 <= k < |t.calls| ensures CallMeant(t.now, t.written, k, t.calls[k]) {
      if k < |s.calls| { assert CallMeant(s.now, s.written, k, s.calls[k]); }
    }
  }

  lemma TickMeans(s: State, ms: nat)
    requires ErrorsMeant(s)
    ensures ErrorsMeant(s.(now := s.now + ms))
  {
    var t := s.(now := s.now + ms);
    forall k | 0 <= k < |t.calls| ensures CallMeant(t.now, t.written, k, t.calls[k]) {
      assert CallMeant(s.now, s.written, k, s.calls[k]);
    }
  }

  lemma StepMeans(s: State, a: Action)
    requires Inv(s) && ErrorsMeant(s)
    ensures ErrorsMeant(Step(s, a))
  {
    hide StepWork, StepExchange, StepPanic, StepCaller, Entered, Control, Queues, Answers, CallsMeant, ReplyMeant;
    match a
    case Tick(ms) => TickMeans(s, ms);
    case Enter(request, timeout) => EnterMeans(s, request, timeout);
    case Works(w, work) => if w < |s.workers| { WorkMeans(s, w, work); }
    case Exchanges(w, exchange) => if w < |s.workers| { ExchangeMeans(s, w, exchange); }
    case Panics(w, unwind) => if w < |s.workers| { PanicMeans(s, w, unwind); }
    case Caller(i, does) => if i < |s.calls| { CallerMeans(s, i, does); }
    case _ =>
  }

  lemma {:induction false} RunMeans(s: State, run: seq<Action>)
    requires Inv(s) && ErrorsMeant(s)
    ensures ErrorsMeant(Exec(s, run))
    decreases |run|
  {
    hide Step, Inv, ErrorsMeant;
    if run != [] {
      StepMeans(s, run[0]);
      StepKeeps(s, run[0]);
      RunMeans(Step(s, run[0]), run[1..]);
    }
  }

  /** In every run errors tell the truth: a call that timed out, was dropped or found
      the lock held has reached its deadline, and one that was refused, dropped or
      found the lock held has left nothing in the log. */
  lemma ErrorsAreTrue(lockable: bool, now: nat, run: seq<Action>, i: nat)
    requires var s := Reached(lockable, now, run); i < |s.calls| && s.calls[i].phase.Returned?
    ensures var s := Reached(lockable, now, run); var r := s.calls[i].phase.result;
      && (r in {Err(TimedOut), Err(DroppedLate), Err(LockHeld)} ==> s.calls[i].deadline <= s.now)
      && (r in {Err(NotSent), Err(DroppedLate), Err(LockHeld)} ==> forall k | 0 <= k < |s.log| :: s.log[k].owner != OurJob(i))
  {
    StartsFit(lockable, now);
    Reachable(lockable, now, run);
    RunMeans(Init(lockable, now), run);
    hide Exec, Control, Queues;
  }

  // ---- What a panic, another program and an answer leave ----

  /** A panic of a worker with a job in hand, outside the kernel, unwound to its
      end: the lock it held and the marker it had set are gone, its inbox too, and
      nothing else has changed; no later send reaches it. */
  lemma PanicUnwinds(s: State, w: nat)
    requires w < |s.workers|
    requires var p := s.workers[w].phase; !p.Idle? && !p.Dead? && !p.InKernel? && !p.Unwinding?
    ensures var p := s.workers[w].phase;
      var marked := p.Locking? || p.Holding? || p.Answered? || p.Finished?;
      Step(Step(Step(Step(s, Panics(w, Panic)), Panics(w, UnwindLock)), Panics(w, UnwindMarker)), Panics(w, UnwindInbox))
      == s.(workers := s.workers[w := s.workers[w].(inbox := [], phase := Dead)],
            lock := if s.lock == Ours(w) then Free else s.lock,
            marker := if marked then None else s.marker)
  {
    var p := s.workers[w].phase;
    var mine, marked := s.lock == Ours(w), Marked(p);
    var s1 := Step(s, Panics(w, Panic));
    assert s1 == EnterPhase(s, w, Unwinding(p.job, mine, marked));
    var s2 := Step(s1, Panics(w, UnwindLock));
    assert s2 == EnterPhase(s, w, Unwinding(p.job, false, marked)).(lock := if mine then Free else s.lock);
    var s3 := Step(s2, Panics(w, UnwindMarker));
    assert s3 == EnterPhase(s, w, Unwinding(p.job, false, false)).(
      lock := if mine then Free else s.lock, marker := if marked then None else s.marker);
  }

  /** Another program that takes the free lock, writes and reads back hears the
      answer to its own request, and leaves the lock free; all of it is on record. */
  lemma OtherPair(s: State, pid: nat, request: string, reply: string)
    requires s.lock.Free?
    ensures var held := Step(Step(Step(s, Others(pid, TakeLock)), Others(pid, StartWrite(request))), Others(pid, EndWrite(reply)));
      && held.lock.Other? && held.lock.pid == pid
      && Step(Step(held, Others(pid, ReadBack)), Others(pid, DropLock))
         == s.(log := s.log + [Entry(Foreign(pid), request, reply)], heard := s.heard + [Heard(pid, |s.log|, reply)])
  {
    var s1 := Step(s, Others(pid, TakeLock));
    var s2 := Step(s1, Others(pid, StartWrite(request)));
    var s3 := Step(s2, Others(pid, EndWrite(reply)));
    assert s3 == s.(lock := Other(pid, Wrote(|s.log|)), log := s.log + [Entry(Foreign(pid), request, reply)]);
    var s4 := Step(s3, Others(pid, ReadBack));
    assert s4 == s.(lock := Other(pid, Outside), log := s.log + [Entry(Foreign(pid), request, reply)],
      heard := s.heard + [Heard(pid, |s.log|, reply)]);
  }

  /** A caller is handed the firmware's text without the NULs and blanks around it,
      and an error as it is. */
  lemma ResultIs(c: Call, before: string, text: string, after: string)
    requires c.phase.Returned? && AllDropped(before, true) && AllDropped(after, true) && Trimmed(text, true)
    ensures c.phase.result == Ok(before + text + after) ==> ResultOf(c) == Ok(text)
    ensures c.phase.result.Err? ==> ResultOf(c) == c.phase.result
  {
    TrimIs(before, text, after, true);
    hide Trim;
  }

  // ---- Without the lock file ----

  /** A state with one call, asking "ours" from time 0 with a 5000 ms timeout. */
  function Lone(deadline: nat, phase: CallPhase, mail: Option<Reply>, workers: seq<Worker>,
                marker: Option<nat>, lock: Holder, log: seq<Entry>, written: map<nat, nat>): State {
    State(false, 0, marker, lock, log, [], written, ["ours"], [Call(5000, deadline, phase, mail)], workers,
      if workers == [] then None else Some(0))
  }

  function LoneWorker(inbox: seq<nat>, p: Phase, lastDone: Option<nat>): seq<Worker> {
    [Worker(inbox, p, lastDone)]
  }

  /** Two runs glued together. */
  lemma {:induction false} ExecJoin(s: State, first: seq<Action>, second: seq<Action>)
    ensures Exec(s, first + second) == Exec(Exec(s, first), second)
    decreases |first|
  {
    hide Step;
    if first == [] {
      assert first + second == second;
    } else {
      assert (first + second)[1..] == first[1..] + second;
      ExecJoin(Step(s, first[0]), first[1..], second);
    }
  }

  lemma ExecThree(s: State, a: Action, b: Action, c: Action)
    ensures Exec(s, [a, b, c]) == Step(Step(Step(s, a), b), c)
  {
    hide Step;
    ExecOne(s, a, [b, c]);
    ExecOne(Step(s, a), b, [c]);
    ExecOne(Step(Step(s, a), b), c, []);
    assert [a, b, c] == [a] + [b, c] && [b, c] == [b] + [c] && [c] == [c] + [];
  }

  function TornStart(): seq<Action> {
    [Enter("ours", 5000), Caller(0, Make), Caller(0, Submit(true))]
  }

  function TornTake(): seq<Action> {
    [Caller(0, Wait), Works(0, Pick), Works(0, Rest)]
  }

  function TornBegin(): seq<Action> {
    [Works(0, Approve), Works(0, Begin), Exchanges(0, NoLockFile)]
  }

  function TornWrite(): seq<Action> {
    [Exchanges(0, Write), Exchanges(0, Answer("A")), Others(7, TakeLock)]
  }

  function TornBetween(): seq<Action> {
    [Others(7, StartWrite("theirs")), Others(7, EndWrite("B")), Exchanges(0, Read)]
  }

  function TornEnd(): seq<Action> {
    [Works(0, Clear), Works(0, Send), Caller(0, Receive)]
  }

  function TornLog(): seq<Entry> {
    [Entry(OurJob(0), "ours", "A"), Entry(Foreign(7), "theirs", "B")]
  }

  function TornQueued(): State {
    Lone(5000, Submitted, None, LoneWorker([0], Idle, None), None, Free, [], map[])
  }

  function TornRested(): State {
    Lone(5000, Waiting(5000), None, LoneWorker([], Rested(0), None), None, Free, [], map[])
  }

  function TornHolding(): State {
    Lone(5000, Waiting(5000), None, LoneWorker([], Holding(0), None), Some(5000), Free, [], map[])
  }

  function TornOpen(): State {
    Lone(5000, Waiting(5000), None, LoneWorker([], Answered(0), None), Some(5000), Other(7, Outside), TornLog()[..1], map[0 := 0])
  }

  function TornShut(): State {
    Lone(5000, Waiting(5000), None, LoneWorker([], Finished(0, Ok("B")), None), Some(5000), Other(7, Wrote(1)), TornLog(), map[0 := 0])
  }

  function TornState(): State {
    Lone(5000, Returned(Ok("B")), Some(Ok("B")), LoneWorker([], Idle, Some(0)), None, Other(7, Wrote(1)), TornLog(), map[0 := 0])
  }

  lemma TornFirst()
    ensures Exec(Init(false, 0), TornStart()) == TornQueued()
  {
    ExecThree(Init(false, 0), Enter("ours", 5000), Caller(0, Make), Caller(0, Submit(true)));
  }

  lemma TornSecond()
    ensures Exec(TornQueued(), TornTake()) == TornRested()
  {
    ExecThree(TornQueued(), Caller(0, Wait), Works(0, Pick), Works(0, Rest));
  }

  lemma TornThird()
    ensures Exec(TornRested(), TornBegin()) == TornHolding()
  {
    ExecThree(TornRested(), Works(0, Approve), Works(0, Begin), Exchanges(0, NoLockFile));
  }

  lemma TornFourth()
    ensures Exec(TornHolding(), TornWrite()) == TornOpen()
  {
    ExecThree(TornHolding(), Exchanges(0, Write), Exchanges(0, Answer("A")), Others(7, TakeLock));
  }

  lemma TornFifth()
    ensures Exec(TornOpen(), TornBetween()) == TornShut()
  {
    ExecThree(TornOpen(), Others(7, StartWrite("theirs")), Others(7, EndWrite("B")), Exchanges(0, Read));
  }

  lemma TornSixth()
    ensures Exec(TornShut(), TornEnd()) == TornState()
  {
    ExecThree(TornShut(), Works(0, Clear), Works(0, Send), Caller(0, Receive));
  }

  function TornRun(): seq<Action> {
    TornStart() + TornTake() + TornBegin() + TornWrite() + TornBetween() + TornEnd()
  }

  lemma TornReached()
    ensures Reached(false, 0, TornRun()) == TornState()
  {
    TornFirst();
    TornSecond();
    TornThird();
    TornFourth();
    TornFifth();
    TornSixth();
    hide Exec, Step, Init, TornQueued, TornRested, TornHolding, TornOpen, TornShut, TornState;
    hide TornStart, TornTake, TornBegin, TornWrite, TornBetween, TornEnd;
    var s := Init(false, 0);
    ExecJoin(s, TornStart(), TornTake());
    ExecJoin(s, TornStart() + TornTake(), TornBegin());
    ExecJoin(s, TornStart() + TornTake() + TornBegin(), TornWrite());
    ExecJoin(s, TornStart() + TornTake() + TornBegin() + TornWrite(), TornBetween());
    ExecJoin(s, TornStart() + TornTake() + TornBegin() + TornWrite() + TornBetween(), TornEnd());
  }

  lemma OneLetterTrims(c: char)
    requires !Drops(c, true)
    ensures Trim([c], true) == [c]
  {
  }

  lemma TornAnswers()
    ensures !OwnAnswers(TornState())
  {
    var s := TornState();
    OneLetterTrims('A');
    OneLetterTrims('B');
    hide Trim;
    assert s.calls[0].phase.result.Ok?;
    assert ResultOf(s.calls[0]) == Ok("B");
    forall k | 0 <= k < |s.log| ensures !AnsweredBy(s, 0, k) {
      assert s.log[k].owner == OurJob(0) ==> s.log[k].reply == "A";
    }
  }

  /** Replies are never mixed up in any run exactly when this process can open
      the lock file. */
  lemma OwnAnswersIffLockable(lockable: bool)
    ensures lockable <==> forall now, run :: OwnAnswers(Reached(lockable, now, run))
  {
    hide Exec, OwnAnswers, Reached, TornState, TornRun;
    if lockable {
      forall now, run ensures OwnAnswers(Reached(lockable, now, run)) { OwnAnswer(now, run); }
    } else {
      TornReached();
      TornAnswers();
      assert !OwnAnswers(Reached(lockable, 0, TornRun()));
    }
  }
}
