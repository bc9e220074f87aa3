/**
 * The config store for one namespace: a document that any number of processes
 * load and save at once, any of which may die between two steps, next to a
 * newer build that takes the same lock.
 *
 * Each action is one system call of one operation; an action whose guard does
 * not hold changes nothing, so every sequence of actions is a run.
 */
module ConfigStore {
  import opened Basics

  const CURRENT_VERSION: nat := 1

  /** How texts and values correspond, as the JSON layer decides it: `probe`
      reads the version alone, `parse` the whole document. */
  datatype Format<!V> = Format(
    probe: string -> Option<nat>,
    parse: string -> Option<V>,
    serialize: V -> Option<string>)

  datatype Class<V> = Newer(found: nat) | Valid(value: V) | Corrupt

  /** The version is looked at before the payload. */
  function Classify<V>(f: Format<V>, text: string): Class<V> {
    if IsNewer(f, text) then Newer(f.probe(text).value)
    else match f.parse(text)
      case Some(value) => Valid(value)
      case None => Corrupt
  }

  predicate IsNewer<V>(f: Format<V>, text: string) {
    f.probe(text).Some? && f.probe(text).value > CURRENT_VERSION
  }

  /** The file a complete save leaves: the document and a newline. */
  function Document<V>(f: Format<V>, v: V): Option<string> {
    match f.serialize(v)
    case Some(text) => Some(text + "\n")
    case None => None
  }

  /** What serialises, reads back as itself. */
  ghost predicate RoundTrips<V(!new)>(f: Format<V>) {
    forall v :: Document(f, v).Some? ==> Classify(f, Document(f, v).value) == Valid(v)
  }

  /** A file's text, and whether all of it has reached the disk. */
  datatype File = File(text: string, synced: bool)

  datatype Outcome<V> =
    | Saved(value: V) | FutureVersion | SaveFailed
    | Loaded(value: V) | Missing | TooNew(found: nat) | Recovered(backup: bool)

  /** Where an operation stands. The states from `Probing` to `SaveRenaming`,
      `Rereading`, `Moving` and `Leaving` are under the lock. */
  datatype Pc<V> =
    | SaveLocking(v: V)
    | Probing(v: V)
    | Creating(v: V, doc: string)
    | Filling(v: V, doc: string, at: nat)
    | Renaming(v: V, doc: string)
    | Reading
    | LoadLocking
    | Rereading
    | Moving
    | Leaving(outcome: Outcome<V>, seen: Option<nat>)
    | Returned(outcome: Outcome<V>, seen: Option<nat>)
    | Died

  /** `since` and `seen` are history: the version that was current when the
      operation started, and the one its outcome is about. */
  datatype Op<V> = Op(since: nat, pc: Pc<V>)

  datatype Author<V> = Initially | SavedBy(op: nat, v: V) | MovedBy(op: nat) | NewerBuild
  datatype Version<V> = Version(text: Option<string>, author: Author<V>)

  datatype State<!V> = State(
    format: Format<V>,
    target: Option<File>,
    temp: Option<File>,
    bad: Option<File>,
    lock: Option<nat>,
    ops: seq<Op<V>>,
    versions: seq<Version<V>>)   // history: every document the target ever was

  function Init<V>(f: Format<V>, target: Option<string>, temp: Option<File>, bad: Option<File>): State<V> {
    State(f, if target.Some? then Some(File(target.value, true)) else None, temp, bad, None, [], [Version(target, Initially)])
  }

  datatype Call =
    | TakeLock | LockFails
    | Probe | ProbeFails
    | CreateTemp | CreateFails
    | WriteSome(n: nat) | WriteFails
    | Sync | SyncFails
    | Rename | RenameFails
    | Read | ReadFails
    | MoveAside | MoveFails
    | Unlock
    | Die

  datatype Action<V> =
    | StartSave(v: V)
    | StartLoad
    | Does(op: nat, call: Call)
    | NewerSaves(text: string)      // a whole save of a newer build, under the lock
    | PowerLoss(torn: string)       // what is left of a temporary file not synced yet

  predicate HoldsLock<V>(pc: Pc<V>) {
    pc.Probing? || pc.Creating? || pc.Filling? || pc.Renaming? || pc.Rereading? || pc.Moving? || pc.Leaving?
  }

  function Goto<V>(s: State<V>, o: nat, pc: Pc<V>): State<V>
    requires o < |s.ops|
  {
    s.(ops := s.ops[o := s.ops[o].(pc := pc)])
  }

  /** The index of the current version of the document. */
  function Now<V>(versions: seq<Version<V>>): nat {
    if versions == [] then 0 else |versions| - 1
  }

  /** `save_inner`. */
  function StepSave<V>(s: State<V>, o: nat, c: Call): State<V>
    requires o < |s.ops|
  {
    var pc := s.ops[o].pc;
    if pc.SaveLocking? && c.TakeLock? && s.lock.None? then Goto(s, o, Probing(pc.v)).(lock := Some(o))
    else if pc.SaveLocking? && c.LockFails? then Goto(s, o, Returned(SaveFailed, None))
    else if pc.Probing? && c.Probe? then
      if s.target.Some? && IsNewer(s.format, s.target.value.text) then Goto(s, o, Leaving(FutureVersion, Some(Now(s.versions))))
      else match Document(s.format, pc.v)
        case Some(doc) => Goto(s, o, Creating(pc.v, doc))
        case None => Goto(s, o, Leaving(SaveFailed, None))
    else if pc.Probing? && c.ProbeFails? then Goto(s, o, Leaving(SaveFailed, None))
    else if pc.Creating? && c.CreateTemp? then
      Goto(s, o, Filling(pc.v, pc.doc, 0)).(temp := Some(File("", false)))
    else if pc.Creating? && c.CreateFails? then Goto(s, o, Leaving(SaveFailed, None))
    else if pc.Filling? && c.WriteSome? && pc.at + c.n <= |pc.doc| then
      Goto(s, o, pc.(at := pc.at + c.n)).(temp := Some(File(pc.doc[..pc.at + c.n], false)))
    else if pc.Filling? && c.Sync? && pc.at == |pc.doc| then
      Goto(s, o, Renaming(pc.v, pc.doc)).(temp := Some(File(pc.doc, true)))
    else if pc.Filling? && (c.WriteFails? || c.SyncFails?) then Goto(s, o, Leaving(SaveFailed, None))
    else if pc.Renaming? && c.Rename? && s.temp.Some? then
      Goto(s, o, Leaving(Saved(pc.v), Some(|s.versions|)))
      .(target := s.temp, temp := None, versions := s.versions + [Version(Some(s.temp.value.text), SavedBy(o, pc.v))])
    else if pc.Renaming? && c.RenameFails? then Goto(s, o, Leaving(SaveFailed, None))
    else s
  }

  /** What a read of the target tells `load_inner`; `None` when it is corrupt. */
  function Verdict<V>(f: Format<V>, target: Option<File>): Option<Outcome<V>> {
    match target
    case None => Some(Missing)
    case Some(file) =>
      match Classify(f, file.text)
      case Newer(found) => Some(TooNew(found))
      case Valid(value) => Some(Loaded(value))
      case Corrupt => None
  }

  /** In terms of the two readers: a version beyond this build's decides alone,
      whatever the rest of the text is; then the document counts if it parses, and
      only a text that does neither is corrupt. */
  lemma VerdictIs<V>(f: Format<V>, target: Option<File>)
    ensures Verdict(f, target) == Some(Missing) <==> target.None?
    ensures forall n: nat :: Verdict(f, target) == Some(TooNew(n)) <==> target.Some? && f.probe(target.value.text) == Some(n) && n > 1
    ensures forall v :: Verdict(f, target) == Some(Loaded(v)) <==>
      && target.Some? && f.parse(target.value.text) == Some(v)
      && (f.probe(target.value.text).Some? ==> f.probe(target.value.text).value <= 1)
    ensures Verdict(f, target) == None <==>
      && target.Some? && f.parse(target.value.text) == None
      && (f.probe(target.value.text).Some? ==> f.probe(target.value.text).value <= 1)
  {
  }

  lemma VerdictMovesNothing<V>(f: Format<V>, target: Option<File>)
    ensures Verdict(f, target).Some? ==> !Verdict(f, target).value.Recovered?
  {
  }

  /** `load_inner` and `preserve_broken`. */
  function StepLoad<V>(s: State<V>, o: nat, c: Call): State<V>
    requires o < |s.ops|
  {
    var pc := s.ops[o].pc;
    if pc.Reading? && c.Read? then
      match Verdict(s.format, s.target)
      case Some(outcome) => Goto(s, o, Returned(outcome, Some(Now(s.versions))))
      case None => Goto(s, o, LoadLocking)
    else if pc.Reading? && c.ReadFails? then Goto(s, o, Returned(Recovered(false), None))
    else if pc.LoadLocking? && c.TakeLock? && s.lock.None? then Goto(s, o, Rereading).(lock := Some(o))
    else if pc.LoadLocking? && c.LockFails? then Goto(s, o, Returned(Recovered(false), None))
    else if pc.Rereading? && c.Read? then
      match Verdict(s.format, s.target)
      case Some(outcome) => Goto(s, o, Leaving(outcome, Some(Now(s.versions))))
      case None => Goto(s, o, Moving)
    else if pc.Rereading? && c.ReadFails? then Goto(s, o, Leaving(Recovered(false), None))
    else if pc.Moving? && c.MoveAside? then
      Goto(s, o, Leaving(Recovered(true), Some(|s.versions|)))
      .(target := None, bad := s.target, versions := s.versions + [Version(None, MovedBy(o))])
    else if pc.Moving? && c.MoveFails? then Goto(s, o, Leaving(Recovered(false), None))
    else s
  }

  /** Leaving the locked section, and dying, which releases the lock too. */
  function StepLeave<V>(s: State<V>, o: nat, c: Call): State<V>
    requires o < |s.ops|
  {
    var pc := s.ops[o].pc;
    if c.Unlock? && pc.Leaving? then Goto(s, o, Returned(pc.outcome, pc.seen)).(lock := None)
    else if c.Die? && !pc.Returned? then
      Goto(s, o, Died).(lock := if s.lock == Some(o) then None else s.lock)
    else s
  }

  function DiedAll<V>(ops: seq<Op<V>>): seq<Op<V>> {
    seq(|ops|, k requires 0 <= k < |ops| => if ops[k].pc.Returned? then ops[k] else ops[k].(pc := Died))
  }

  /** After the lights go out: no operation survives, and a file that was not
      synced holds anything. */
  function AfterPowerLoss(f: Option<File>, torn: string): Option<File> {
    if f.Some? && !f.value.synced then Some(File(torn, true)) else f
  }

  function Step<V>(s: State<V>, a: Action<V>): State<V> {
    match a
    case StartSave(v) => s.(ops := s.ops + [Op(Now(s.versions), SaveLocking(v))])
    case StartLoad => s.(ops := s.ops + [Op(Now(s.versions), Reading)])
    case Does(o, c) =>
      if o >= |s.ops| then s
      else if c.Unlock? || c.Die? then StepLeave(s, o, c)
      else if s.ops[o].pc.Reading? || s.ops[o].pc.LoadLocking? || s.ops[o].pc.Rereading? || s.ops[o].pc.Moving? then StepLoad(s, o, c)
      else StepSave(s, o, c)
    case NewerSaves(text) =>
      if s.lock.None? && IsNewer(s.format, text) then
        s.(target := Some(File(text, true)), temp := None, versions := s.versions + [Version(Some(text), NewerBuild)])
      else s
    case PowerLoss(torn) =>
      s.(ops := DiedAll(s.ops), lock := None, target := AfterPowerLoss(s.target, torn), temp := AfterPowerLoss(s.temp, torn),
         bad := AfterPowerLoss(s.bad, torn))
  }

  function Exec<V>(s: State<V>, run: seq<Action<V>>): State<V>
    decreases |run|
  {
    if run == [] then s else Exec(Step(s, run[0]), run[1..])
  }

  /** What the rest of the world does. A newer build replaces the document in one
      go while nobody holds the lock. When the power goes, whoever was at work is
      gone and with it the lock; a file that had reached the disk is what it was,
      and one that had not is whatever was left of it. */
  lemma WorldMoves<V>(s: State<V>, text: string, torn: string)
    ensures var t := Step(s, NewerSaves(text));
      if s.lock.None? && BeyondThis(s, text) then t.target == Some(File(text, true)) && t.temp == None && t.bad == s.bad && t.ops == s.ops && |t.versions| == |s.versions| + 1
      else t == s
    ensures var t := Step(s, PowerLoss(torn));
      && t.lock == None && t.versions == s.versions && |t.ops| == |s.ops|
      && (forall o :: 0 <= o < |s.ops| ==> t.ops[o].since == s.ops[o].since && if s.ops[o].pc.Returned? then t.ops[o].pc == s.ops[o].pc else t.ops[o].pc.Died?)
      && Survives(s.target, t.target, torn) && Survives(s.temp, t.temp, torn) && Survives(s.bad, t.bad, torn)
  {
  }

  /** The version in this text is beyond this build's. */
  predicate BeyondThis<V>(s: State<V>, text: string) {
    s.format.probe(text).Some? && s.format.probe(text).value > 1
  }

  predicate Survives(before: Option<File>, after: Option<File>, torn: string) {
    if before.Some? && !before.value.synced then after == Some(File(torn, true)) else after == before
  }

  // ---- What every reachable state satisfies ----

  ghost predicate NotNewer<V>(f: Format<V>, target: Option<File>) {
    target.Some? ==> !IsNewer(f, target.value.text)
  }

  ghost predicate TargetFits<V>(target: Option<File>, versions: seq<Version<V>>) {
    && versions != []
    && versions[|versions| - 1].text == (if target.Some? then Some(target.value.text) else None)
    && (target.Some? ==> target.value.synced)
  }

  ghost predicate LockFits<V>(lock: Option<nat>, ops: seq<Op<V>>) {
    && (lock.Some? ==> lock.value < |ops|)
    && (forall o | 0 <= o < |ops| :: HoldsLock(ops[o].pc) <==> lock == Some(o))
  }

  /** One step of the register: what may follow a version, and by whom. */
  ghost predicate Follows<V>(f: Format<V>, before: Version<V>, after: Version<V>) {
    match after.author
    case Initially => false
    case SavedBy(_, v) =>
      after.text.Some? && after.text == Document(f, v) && (before.text.Some? ==> !IsNewer(f, before.text.value))
    case MovedBy(_) =>
      after.text.None? && before.text.Some? && Classify(f, before.text.value).Corrupt?
    case NewerBuild => after.text.Some? && IsNewer(f, after.text.value)
  }

  ghost predicate History<V>(f: Format<V>, versions: seq<Version<V>>) {
    && versions != [] && versions[0].author.Initially?
    && (forall k | 1 <= k < |versions| :: Follows(f, versions[k - 1], versions[k]))
  }

  /** An outcome is true of one version that was current during the operation. */
  ghost predicate OutcomeFits<V>(f: Format<V>, versions: seq<Version<V>>, o: nat, since: nat, outcome: Outcome<V>, seen: Option<nat>) {
    (!outcome.SaveFailed? && outcome != Recovered(false) ==>
      seen.Some? && since <= seen.value < |versions| &&
      var version := versions[seen.value];
      match outcome
      case Saved(v) => since < seen.value && version.author == SavedBy(o, v)
      case FutureVersion => version.text.Some? && IsNewer(f, version.text.value)
      case Loaded(v) => version.text.Some? && Classify(f, version.text.value) == Valid(v)
      case Missing => version.text.None?
      case TooNew(found) => version.text.Some? && Classify(f, version.text.value) == Newer(found)
      case Recovered(_) => since < seen.value && version.author == MovedBy(o)
      case SaveFailed => true)
  }

  ghost predicate OpFits<V>(f: Format<V>, target: Option<File>, temp: Option<File>, versions: seq<Version<V>>, o: nat, op: Op<V>) {
    && op.since < |versions|
    && match op.pc {
      case Creating(v, doc) => Document(f, v) == Some(doc) && NotNewer(f, target)
      case Filling(v, doc, at) =>
        Document(f, v) == Some(doc) && NotNewer(f, target) && at <= |doc| && temp == Some(File(doc[..at], false))
      case Renaming(v, doc) =>
        Document(f, v) == Some(doc) && NotNewer(f, target) && temp == Some(File(doc, true))
      case Moving => target.Some? && Classify(f, target.value.text).Corrupt?
      case Leaving(outcome, seen) => OutcomeFits(f, versions, o, op.since, outcome, seen)
      case Returned(outcome, seen) => OutcomeFits(f, versions, o, op.since, outcome, seen)
      case _ => true
    }
  }

  ghost predicate OpsFit<V>(f: Format<V>, target: Option<File>, temp: Option<File>, versions: seq<Version<V>>, ops: seq<Op<V>>) {
    forall o | 0 <= o < |ops| :: OpFits(f, target, temp, versions, o, ops[o])
  }

  ghost predicate Acted<V>(pc: Pc<V>) {
    pc.Leaving? || pc.Returned? || pc.Died?
  }

  predicate Wrote<V>(author: Author<V>) {
    author.SavedBy? || author.MovedBy?
  }

  /** What an operation that made version `k` may say of it: nothing, having
      died, or that it did. */
  ghost predicate Claims<V>(pc: Pc<V>, author: Author<V>, k: nat)
    requires Wrote(author)
  {
    || pc.Died?
    || ((pc.Leaving? || pc.Returned?) && pc.seen == Some(k)
        && pc.outcome == if author.SavedBy? then Saved(author.v) else Recovered(true))
  }

  /** Each operation makes at most one version, and then reports just that: no
      save or load that reported anything else has touched the document. */
  ghost predicate Authored<V>(versions: seq<Version<V>>, ops: seq<Op<V>>) {
    && (forall k | 0 <= k < |versions| && Wrote(versions[k].author) ::
          versions[k].author.op < |ops| && Claims(ops[versions[k].author.op].pc, versions[k].author, k))
    && (forall k, l | 0 <= k < l < |versions| && Wrote(versions[k].author) && Wrote(versions[l].author) ::
          versions[k].author.op != versions[l].author.op)
  }

  ghost predicate BadFits<V>(f: Format<V>, bad: Option<File>, before: Option<File>) {
    bad != before ==> bad.Some? && bad.value.synced && Classify(f, bad.value.text).Corrupt?
  }

  ghost predicate Inv<V>(s: State<V>, bad: Option<File>) {
    && TargetFits(s.target, s.versions)
    && LockFits(s.lock, s.ops)
    && History(s.format, s.versions)
    && OpsFit(s.format, s.target, s.temp, s.versions, s.ops)
    && Authored(s.versions, s.ops)
    && BadFits(s.format, s.bad, bad)
    && (bad.Some? ==> bad.value.synced)
  }

  // ---- Each step keeps it ----

  /** What an operation outside the lock has learnt stays true. */
  lemma OutsideUnaffected<V>(f: Format<V>, s: State<V>, t: State<V>, o: nat, op: Op<V>)
    requires !HoldsLock(op.pc) && OpFits(f, s.target, s.temp, s.versions, o, op) && s.versions <= t.versions
    ensures OpFits(f, t.target, t.temp, t.versions, o, op)
  {
  }

  /** An operation that has acted keeps its report, or dies. */
  ghost predicate SameReport<V>(before: Pc<V>, after: Pc<V>)
    requires Acted(before)
  {
    || after.Died?
    || (!before.Died? && (after.Leaving? || after.Returned?) && after.outcome == before.outcome && after.seen == before.seen)
  }

  /** One operation moves; nobody else is under the lock. */
  ghost predicate Moves<V>(s: State<V>, t: State<V>, o: nat) {
    && o < |s.ops| && |t.ops| == |s.ops|
    && t.ops == s.ops[o := s.ops[o].(pc := t.ops[o].pc)]
    && t.format == s.format && s.versions <= t.versions
    && OpFits(t.format, t.target, t.temp, t.versions, o, t.ops[o])
    && TargetFits(t.target, t.versions)
    && History(t.format, t.versions)
    && (Acted(s.ops[o].pc) ==> SameReport(s.ops[o].pc, t.ops[o].pc))
    && (t.versions != s.versions ==>
          && |t.versions| == |s.versions| + 1
          && !Acted(s.ops[o].pc)
          && var author := t.versions[|s.versions|].author;
             Wrote(author) && author.op == o && Claims(t.ops[o].pc, author, |s.versions|))
  }

  lemma HolderMoves<V>(s: State<V>, t: State<V>, o: nat)
    requires LockFits(s.lock, s.ops) && OpsFit(s.format, s.target, s.temp, s.versions, s.ops)
    requires s.lock == Some(o) && Moves(s, t, o)
    ensures OpsFit(t.format, t.target, t.temp, t.versions, t.ops)
  {
    forall p | 0 <= p < |t.ops| ensures OpFits(t.format, t.target, t.temp, t.versions, p, t.ops[p]) {
      if p != o { OutsideUnaffected(s.format, s, t, p, s.ops[p]); }
    }
  }

  /** Nothing but one operation's position, and perhaps the lock, changes. */
  lemma QuietMoves<V>(s: State<V>, t: State<V>, o: nat)
    requires OpsFit(s.format, s.target, s.temp, s.versions, s.ops) && Moves(s, t, o)
    requires t.target == s.target && t.temp == s.temp && t.versions == s.versions
    ensures OpsFit(t.format, t.target, t.temp, t.versions, t.ops)
  {
  }

  lemma LockMoves<V>(lock: Option<nat>, ops: seq<Op<V>>, o: nat, pc: Pc<V>, after: Option<nat>)
    requires LockFits(lock, ops) && o < |ops|
    requires HoldsLock(pc) ==> after == Some(o) && (lock == Some(o) || lock.None?)
    requires !HoldsLock(pc) ==> after == if lock == Some(o) then None else lock
    ensures LockFits(after, ops[o := ops[o].(pc := pc)])
  {
  }

  lemma StillOnce<V>(s: State<V>, t: State<V>, o: nat)
    requires Authored(s.versions, s.ops) && Moves(s, t, o)
    ensures Authored(t.versions, t.ops)
  {
    hide OpFits, TargetFits, History;
  }

  /** An operation goes on to `pc`, having learnt nothing that is not so. */
  lemma GoesTo<V>(s: State<V>, o: nat, pc: Pc<V>, lock: Option<nat>, temp: Option<File>)
    requires o < |s.ops| && s.ops[o].since < |s.versions| && !Acted(s.ops[o].pc)
    requires TargetFits(s.target, s.versions) && History(s.format, s.versions)
    requires OpFits(s.format, s.target, temp, s.versions, o, Op(s.ops[o].since, pc))
    ensures Moves(s, Goto(s, o, pc).(lock := lock, temp := temp), o)
  {
    hide History, TargetFits, OpFits;
    var t := Goto(s, o, pc).(lock := lock, temp := temp);
    assert t.ops[o] == Op(s.ops[o].since, pc);
  }

  /** What a save that goes on under the lock, or fails, comes to. */
  lemma SaveHolder<V>(s: State<V>, o: nat, c: Call)
    requires o < |s.ops| && OpFits(s.format, s.target, s.temp, s.versions, o, s.ops[o])
    requires TargetFits(s.target, s.versions) && History(s.format, s.versions)
    requires s.ops[o].pc.Probing? || s.ops[o].pc.Creating? || s.ops[o].pc.Filling?
    ensures var t := StepSave(s, o, c);
      && Moves(s, t, o)
      && t.lock == s.lock && t.bad == s.bad
      && HoldsLock(t.ops[o].pc) == HoldsLock(s.ops[o].pc)
  {
    var t := StepSave(s, o, c);
    SaveGoes(s, o, c);
    if t != s {
      hide StepSave, OpFits, History, TargetFits, Moves;
      GoesTo(s, o, t.ops[o].pc, s.lock, t.temp);
    } else {
      hide StepSave, History, TargetFits, OpFits;
    }
  }

  lemma SaveGoes<V>(s: State<V>, o: nat, c: Call)
    requires o < |s.ops| && OpFits(s.format, s.target, s.temp, s.versions, o, s.ops[o])
    requires TargetFits(s.target, s.versions)
    requires s.ops[o].pc.Probing? || s.ops[o].pc.Creating? || s.ops[o].pc.Filling?
    ensures var t := StepSave(s, o, c);
      t == s || (
        && t == Goto(s, o, t.ops[o].pc).(temp := t.temp) && HoldsLock(t.ops[o].pc)
        && OpFits(s.format, s.target, t.temp, s.versions, o, Op(s.ops[o].since, t.ops[o].pc)))
  {
    hide Document;
  }

  lemma SaveRenames<V>(s: State<V>, o: nat, c: Call)
    requires o < |s.ops| && OpFits(s.format, s.target, s.temp, s.versions, o, s.ops[o])
    requires TargetFits(s.target, s.versions) && History(s.format, s.versions)
    requires s.ops[o].pc.Renaming?
    ensures var t := StepSave(s, o, c);
      && Moves(s, t, o)
      && t.lock == s.lock && t.bad == s.bad
      && HoldsLock(t.ops[o].pc)
  {
  }

  /** A load under the lock. */
  lemma LoadHolder<V>(s: State<V>, o: nat, c: Call)
    requires o < |s.ops| && OpFits(s.format, s.target, s.temp, s.versions, o, s.ops[o])
    requires TargetFits(s.target, s.versions) && History(s.format, s.versions)
    requires s.ops[o].pc.Rereading? || s.ops[o].pc.Moving?
    ensures var t := StepLoad(s, o, c);
      && Moves(s, t, o)
      && t.lock == s.lock
      && HoldsLock(t.ops[o].pc)
      && BadFits(s.format, t.bad, s.bad)
  {
  }

  /** A load before it needs the lock, or taking it; a save taking it. */
  lemma Waiter<V>(s: State<V>, o: nat, c: Call)
    requires o < |s.ops| && OpFits(s.format, s.target, s.temp, s.versions, o, s.ops[o])
    requires TargetFits(s.target, s.versions) && History(s.format, s.versions)
    requires s.ops[o].pc.Reading? || s.ops[o].pc.LoadLocking? || s.ops[o].pc.SaveLocking?
    ensures var t := if s.ops[o].pc.SaveLocking? then StepSave(s, o, c) else StepLoad(s, o, c);
      && Moves(s, t, o)
      && t.target == s.target && t.temp == s.temp && t.versions == s.versions && t.bad == s.bad
      && (t.lock != s.lock ==> s.lock.None? && t.lock == Some(o) && HoldsLock(t.ops[o].pc))
      && (t.lock == s.lock ==> !HoldsLock(t.ops[o].pc))
  {
    var t := if s.ops[o].pc.SaveLocking? then StepSave(s, o, c) else StepLoad(s, o, c);
    if s.ops[o].pc.SaveLocking? { SaveTakesLock(s, o, c); } else { LoadWaits(s, o, c); }
    if t != s {
      hide StepSave, StepLoad, OpFits, History, TargetFits, Moves;
      GoesTo(s, o, t.ops[o].pc, t.lock, s.temp);
    } else {
      hide StepSave, StepLoad, History, TargetFits, OpFits;
    }
  }

  ghost predicate Waits<V>(s: State<V>, t: State<V>, o: nat)
    requires o < |s.ops|
  {
    t == s || (
      && t == Goto(s, o, (if o < |t.ops| then t.ops[o].pc else s.ops[o].pc)).(lock := t.lock)
      && OpFits(s.format, s.target, s.temp, s.versions, o, Op(s.ops[o].since, t.ops[o].pc))
      && (if HoldsLock(t.ops[o].pc) then s.lock.None? && t.lock == Some(o) else t.lock == s.lock))
  }

  lemma SaveTakesLock<V>(s: State<V>, o: nat, c: Call)
    requires o < |s.ops| && OpFits(s.format, s.target, s.temp, s.versions, o, s.ops[o]) && s.ops[o].pc.SaveLocking?
    ensures Waits(s, StepSave(s, o, c), o)
  {
  }

  lemma LoadWaits<V>(s: State<V>, o: nat, c: Call)
    requires o < |s.ops| && OpFits(s.format, s.target, s.temp, s.versions, o, s.ops[o])
    requires TargetFits(s.target, s.versions) && (s.ops[o].pc.Reading? || s.ops[o].pc.LoadLocking?)
    ensures Waits(s, StepLoad(s, o, c), o)
  {
  }

  lemma Leaver<V>(s: State<V>, o: nat, c: Call)
    requires o < |s.ops| && OpFits(s.format, s.target, s.temp, s.versions, o, s.ops[o])
    requires TargetFits(s.target, s.versions) && History(s.format, s.versions)
    requires c.Unlock? || c.Die?
    requires HoldsLock(s.ops[o].pc) <==> s.lock == Some(o)
    ensures var t := StepLeave(s, o, c);
      && Moves(s, t, o)
      && t.target == s.target && t.temp == s.temp && t.versions == s.versions && t.bad == s.bad
      && (HoldsLock(t.ops[o].pc) ==> t.lock == s.lock == Some(o))
      && (!HoldsLock(t.ops[o].pc) ==> t.lock == if s.lock == Some(o) then None else s.lock)
  {
  }

  lemma NoMoreMoves<V>(s: State<V>, o: nat, c: Call)
    requires o < |s.ops| && (s.ops[o].pc.Leaving? || s.ops[o].pc.Returned? || s.ops[o].pc.Died?)
    ensures StepSave(s, o, c) == s
  {
  }

  lemma DoesKeeps<V>(s: State<V>, o: nat, c: Call, bad: Option<File>)
    requires Inv(s, bad) && o < |s.ops|
    ensures Inv(Step(s, Does(o, c)), bad)
  {
    hide StepSave, StepLoad, StepLeave, OpFits, TargetFits, History, Authored;
    var t := Step(s, Does(o, c));
    var pc := s.ops[o].pc;
    assert OpFits(s.format, s.target, s.temp, s.versions, o, s.ops[o]);
    if c.Unlock? || c.Die? {
      Leaver(s, o, c);
      QuietMoves(s, t, o);
      LockMoves(s.lock, s.ops, o, t.ops[o].pc, t.lock);
    } else if pc.Rereading? || pc.Moving? {
      LoadHolder(s, o, c);
      HolderMoves(s, t, o);
      LockMoves(s.lock, s.ops, o, t.ops[o].pc, t.lock);
    } else if pc.Reading? || pc.LoadLocking? || pc.SaveLocking? {
      Waiter(s, o, c);
      QuietMoves(s, t, o);
      LockMoves(s.lock, s.ops, o, t.ops[o].pc, t.lock);
    } else if pc.Leaving? || pc.Returned? || pc.Died? {
      NoMoreMoves(s, o, c);
      return;
    } else {
      if pc.Renaming? { SaveRenames(s, o, c); } else { SaveHolder(s, o, c); }
      LockMoves(s.lock, s.ops, o, t.ops[o].pc, t.lock);
      HolderMoves(s, t, o);
    }
    StillOnce(s, t, o);
  }

  lemma StartKeeps<V>(s: State<V>, pc: Pc<V>, bad: Option<File>)
    requires Inv(s, bad) && (pc.SaveLocking? || pc.Reading?)
    ensures Inv(s.(ops := s.ops + [Op(Now(s.versions), pc)]), bad)
  {
    hide History;
  }

  lemma NewerKeeps<V>(s: State<V>, text: string, bad: Option<File>)
    requires Inv(s, bad)
    ensures Inv(Step(s, NewerSaves(text)), bad)
  {
    var t := Step(s, NewerSaves(text));
    if t != s {
      forall o | 0 <= o < |s.ops| ensures OpFits(t.format, t.target, t.temp, t.versions, o, t.ops[o]) {
        OutsideUnaffected(s.format, s, t, o, s.ops[o]);
      }
    }
  }

  lemma PowerLossKeeps<V>(s: State<V>, torn: string, bad: Option<File>)
    requires Inv(s, bad)
    ensures Inv(Step(s, PowerLoss(torn)), bad)
    ensures Step(s, PowerLoss(torn)).target == s.target
  {
    hide History;
  }

  lemma StepKeeps<V>(s: State<V>, a: Action<V>, bad: Option<File>)
    requires Inv(s, bad)
    ensures Inv(Step(s, a), bad) && Step(s, a).format == s.format
  {
    hide Inv;
    match a {
      case StartSave(v) => StartKeeps(s, SaveLocking(v), bad);
      case StartLoad => StartKeeps(s, Reading, bad);
      case Does(o, c) => if o < |s.ops| { DoesKeeps(s, o, c, bad); }
      case NewerSaves(text) => NewerKeeps(s, text, bad);
      case PowerLoss(torn) => PowerLossKeeps(s, torn, bad);
    }
  }

  lemma {:induction false} RunKeeps<V>(s: State<V>, run: seq<Action<V>>, bad: Option<File>)
    requires Inv(s, bad)
    ensures Inv(Exec(s, run), bad) && Exec(s, run).format == s.format
    decreases |run|
  {
    hide Inv, Step;
    if run != [] {
      StepKeeps(s, run[0], bad);
      RunKeeps(Step(s, run[0]), run[1..], bad);
    }
  }

  function Reached<V>(f: Format<V>, target: Option<string>, temp: Option<File>, bad: Option<string>, run: seq<Action<V>>): State<V> {
    Exec(Init(f, target, temp, OnDisk(bad)), run)
  }

  function OnDisk(text: Option<string>): Option<File> {
    if text.Some? then Some(File(text.value, true)) else None
  }

  lemma Reachable<V>(f: Format<V>, target: Option<string>, temp: Option<File>, bad: Option<string>, run: seq<Action<V>>)
    ensures var s := Reached(f, target, temp, bad, run);
      Inv(s, OnDisk(bad)) && s.format == f
  {
    RunKeeps(Init(f, target, temp, OnDisk(bad)), run, OnDisk(bad));
  }

  // ---- Main results ----

  /** In every interleaving, with deaths and power losses anywhere, the store
      is one atomic register: its documents follow each other by the rules of
      `Follows`, the last one is the file, and every outcome handed out is true
      of a version that was current between its operation's start and return. */
  lemma AtomicRegister<V>(f: Format<V>, target: Option<string>, temp: Option<File>, bad: Option<string>, run: seq<Action<V>>)
    ensures var s := Reached(f, target, temp, bad, run);
      && History(f, s.versions) && TargetFits(s.target, s.versions)
      && Authored(s.versions, s.ops)
      && (forall o | 0 <= o < |s.ops| && s.ops[o].pc.Returned? ::
            OutcomeFits(f, s.versions, o, s.ops[o].since, s.ops[o].pc.outcome, s.ops[o].pc.seen))
  {
    hide Exec, TargetFits, Authored, OutcomeFits;
    Reachable(f, target, temp, bad, run);
    var s := Reached(f, target, temp, bad, run);
    forall o | 0 <= o < |s.ops| && s.ops[o].pc.Returned?
      ensures OutcomeFits(f, s.versions, o, s.ops[o].since, s.ops[o].pc.outcome, s.ops[o].pc.seen)
    {
      assert OpFits(f, s.target, s.temp, s.versions, o, s.ops[o]);
    }
  }

  /** A loaded value is one that a save put there, or the initial one. */
  lemma LoadedWasStored<V(!new)>(f: Format<V>, target: Option<string>, temp: Option<File>, bad: Option<string>, run: seq<Action<V>>, o: nat)
    requires RoundTrips(f)
    requires var s := Reached(f, target, temp, bad, run);
      o < |s.ops| && s.ops[o].pc.Returned? && s.ops[o].pc.outcome.Loaded?
    ensures var s := Reached(f, target, temp, bad, run);
      var v := s.ops[o].pc.outcome.value;
      && s.ops[o].pc.seen.Some? && s.ops[o].since <= s.ops[o].pc.seen.value < |s.versions|
      && (|| (s.ops[o].pc.seen.value == 0 && target.Some? && Classify(f, target.value) == Valid(v))
          || (exists p :: s.versions[s.ops[o].pc.seen.value].author == SavedBy(p, v)))
  {
    hide Exec, Reached;
    AtomicRegister(f, target, temp, bad, run);
    FirstVersion(f, target, temp, bad, run);
    var s := Reached(f, target, temp, bad, run);
    var k := s.ops[o].pc.seen.value;
    if k != 0 {
      assert Follows(f, s.versions[k - 1], s.versions[k]);
    }
  }

  lemma {:induction false} VersionsGrow<V>(s: State<V>, run: seq<Action<V>>)
    ensures s.versions <= Exec(s, run).versions && |s.versions| <= |Exec(s, run).versions|
    decreases |run|
  {
    if run != [] {
      VersionsGrowOnce(s, run[0]);
      hide Step;
      VersionsGrow(Step(s, run[0]), run[1..]);
    }
  }

  lemma VersionsGrowOnce<V>(s: State<V>, a: Action<V>)
    ensures s.versions <= Step(s, a).versions
  {
  }

  lemma FirstVersion<V>(f: Format<V>, target: Option<string>, temp: Option<File>, bad: Option<string>, run: seq<Action<V>>)
    ensures var s := Reached(f, target, temp, bad, run);
      s.versions != [] && s.versions[0] == Version(target, Initially)
  {
    VersionsGrow(Init(f, target, temp, OnDisk(bad)), run);
  }

  /** An operation that starts later starts from the present version or a later one. */
  lemma {:induction false} StartsLater<V>(s: State<V>, bad: Option<File>, run: seq<Action<V>>, p: nat)
    requires Inv(s, bad) && |s.ops| <= p < |Exec(s, run).ops|
    ensures Exec(s, run).ops[p].since >= Now(s.versions)
    decreases |run|
  {
    hide Inv, Step;
    if run != [] {
      var a := run[0];
      var t := Step(s, a);
      StepKeeps(s, a, bad);
      VersionsGrowOnce(s, a);
      OpsGrow(s, a);
      if p < |t.ops| {
        SinceStays(t, run[1..], p);
      } else {
        StartsLater(t, bad, run[1..], p);
      }
    }
  }

  ghost predicate SameStarts<V>(s: State<V>, t: State<V>) {
    |t.ops| == |s.ops| && forall o | 0 <= o < |s.ops| :: t.ops[o].since == s.ops[o].since
  }

  lemma SaveKeepsStarts<V>(s: State<V>, o: nat, c: Call)
    requires o < |s.ops|
    ensures SameStarts(s, StepSave(s, o, c))
  {
    hide IsNewer, Document;
  }

  lemma LoadKeepsStarts<V>(s: State<V>, o: nat, c: Call)
    requires o < |s.ops|
    ensures SameStarts(s, StepLoad(s, o, c))
  {
    hide Verdict;
  }

  lemma LeaveKeepsStarts<V>(s: State<V>, o: nat, c: Call)
    requires o < |s.ops|
    ensures SameStarts(s, StepLeave(s, o, c))
  {
  }

  lemma OpsGrow<V>(s: State<V>, a: Action<V>)
    ensures var t := Step(s, a);
      && |s.ops| <= |t.ops| <= |s.ops| + 1
      && (forall o | 0 <= o < |s.ops| :: t.ops[o].since == s.ops[o].since)
      && (|t.ops| > |s.ops| ==> t.ops[|s.ops|].since == Now(s.versions))
  {
    hide StepSave, StepLoad, StepLeave;
    if a.Does? && a.op < |s.ops| {
      SaveKeepsStarts(s, a.op, a.call);
      LoadKeepsStarts(s, a.op, a.call);
      LeaveKeepsStarts(s, a.op, a.call);
    }
  }

  lemma {:induction false} SinceStays<V>(s: State<V>, run: seq<Action<V>>, p: nat)
    requires p < |s.ops|
    ensures p < |Exec(s, run).ops| && Exec(s, run).ops[p].since == s.ops[p].since
    decreases |run|
  {
    hide Step;
    if run != [] {
      OpsGrow(s, run[0]);
      SinceStays(Step(s, run[0]), run[1..], p);
    }
  }

  /** Real time is kept: an operation that starts after another has returned speaks
      of a version no earlier than the one the other spoke of - after a save that
      succeeded, of what it wrote or something later. */
  lemma RealTimeOrder<V>(f: Format<V>, target: Option<string>, temp: Option<File>, bad: Option<string>, run: seq<Action<V>>, more: seq<Action<V>>,
                         o: nat, p: nat)
    requires var s, t := Reached(f, target, temp, bad, run), Exec(Reached(f, target, temp, bad, run), more);
      && o < |s.ops| && s.ops[o].pc.Returned? && Reports(s.ops[o].pc.outcome)
      && |s.ops| <= p < |t.ops| && t.ops[p].pc.Returned? && Reports(t.ops[p].pc.outcome)
    ensures var s, t := Reached(f, target, temp, bad, run), Exec(Reached(f, target, temp, bad, run), more);
      && s.ops[o].pc.seen.Some? && t.ops[p].pc.seen.Some?
      && s.ops[o].pc.seen.value <= t.ops[p].pc.seen.value
      && (t.ops[p].pc.outcome.Saved? ==> s.ops[o].pc.seen.value < t.ops[p].pc.seen.value)
  {
    var s := Reached(f, target, temp, bad, run);
    var t := Exec(s, more);
    Reachable(f, target, temp, bad, run);
    RunKeeps(s, more, OnDisk(bad));
    StartsLater(s, OnDisk(bad), more, p);
    hide Exec, Reached;
    SeenFits(s, o, OnDisk(bad));
    SeenFits(t, p, OnDisk(bad));
  }

  /** The outcomes that say something of the document. */
  ghost predicate Reports<V>(outcome: Outcome<V>) {
    !outcome.SaveFailed? && outcome != Recovered(false)
  }

  lemma SeenFits<V>(s: State<V>, o: nat, bad: Option<File>)
    requires Inv(s, bad) && o < |s.ops| && s.ops[o].pc.Returned? && Reports(s.ops[o].pc.outcome)
    ensures var op := s.ops[o];
      && op.pc.seen.Some? && op.since <= op.pc.seen.value <= Now(s.versions)
      && (op.pc.outcome.Saved? ==> op.since < op.pc.seen.value)
  {
    assert OpFits(s.format, s.target, s.temp, s.versions, o, s.ops[o]);
    hide Authored, History, LockFits, OpsFit, TargetFits;
  }

  lemma {:induction false} NewerInHistory<V>(f: Format<V>, versions: seq<Version<V>>, i: nat, j: nat)
    requires History(f, versions) && i <= j < |versions|
    requires versions[i].text.Some? && IsNewer(f, versions[i].text.value)
    ensures versions[j].text.Some? && IsNewer(f, versions[j].text.value)
    ensures i < j ==> versions[j].author.NewerBuild?
    decreases j
  {
    if i < j {
      NewerInHistory(f, versions, i, j - 1);
      assert Follows(f, versions[j - 1], versions[j]);
    }
  }

  /** A newer build's document, once there, is neither replaced nor moved by
      this build: whatever follows is a newer build's again. */
  lemma NewerStays<V>(f: Format<V>, target: Option<string>, temp: Option<File>, bad: Option<string>, run: seq<Action<V>>, more: seq<Action<V>>)
    requires var s := Reached(f, target, temp, bad, run);
      s.target.Some? && IsNewer(f, s.target.value.text)
    ensures var s, t := Reached(f, target, temp, bad, run), Exec(Reached(f, target, temp, bad, run), more);
      && t.target.Some? && IsNewer(f, t.target.value.text)
      && s.versions <= t.versions
      && (forall k | |s.versions| <= k < |t.versions| :: t.versions[k].author.NewerBuild?)
  {
    hide Exec, Reached, History;
    var s := Reached(f, target, temp, bad, run);
    Reachable(f, target, temp, bad, run);
    RunKeeps(s, more, OnDisk(bad));
    VersionsGrow(s, more);
    var t := Exec(s, more);
    var i := |s.versions| - 1;
    forall j | i <= j < |t.versions|
      ensures t.versions[j].text.Some? && IsNewer(f, t.versions[j].text.value) && (i < j ==> t.versions[j].author.NewerBuild?)
    {
      NewerInHistory(f, t.versions, i, j);
    }
  }

  /** Only a document that does not parse is ever renamed to `.bad`. */
  lemma OnlyCorruptIsMoved<V>(f: Format<V>, target: Option<string>, temp: Option<File>, bad: Option<string>, run: seq<Action<V>>)
    ensures var s := Reached(f, target, temp, bad, run);
      && (s.bad != OnDisk(bad) ==> s.bad.Some? && Classify(f, s.bad.value.text).Corrupt?)
      && (forall k | 1 <= k < |s.versions| && s.versions[k].author.MovedBy? ::
            s.versions[k - 1].text.Some? && Classify(f, s.versions[k - 1].text.value).Corrupt?)
  {
    hide Exec;
    Reachable(f, target, temp, bad, run);
    var s := Reached(f, target, temp, bad, run);
    forall k | 1 <= k < |s.versions| && s.versions[k].author.MovedBy?
      ensures s.versions[k - 1].text.Some? && Classify(f, s.versions[k - 1].text.value).Corrupt?
    {
      assert Follows(f, s.versions[k - 1], s.versions[k]);
    }
  }

  /** All of a document: the initial one, one a save wrote, or a newer build's. */
  ghost predicate Whole<V(!new)>(f: Format<V>, text: string, target: Option<string>) {
    || target == Some(text)
    || IsNewer(f, text)
    || (exists v :: Document(f, v) == Some(text))
  }

  /** Stopped after any prefix of any steps, the target is a whole document on
      disk. So is everything the target ever was, so that a file system that
      takes renames back when the power fails ends at a whole document too. */
  lemma TargetIsWhole<V(!new)>(f: Format<V>, target: Option<string>, temp: Option<File>, bad: Option<string>, run: seq<Action<V>>)
    ensures var s := Reached(f, target, temp, bad, run);
      && (s.target.Some? ==> s.target.value.synced && Whole(f, s.target.value.text, target))
      && (forall k | 0 <= k < |s.versions| && s.versions[k].text.Some? :: Whole(f, s.versions[k].text.value, target))
  {
    hide Exec, Authored, OpsFit, LockFits;
    Reachable(f, target, temp, bad, run);
    FirstVersion(f, target, temp, bad, run);
    var s := Reached(f, target, temp, bad, run);
    forall k | 0 <= k < |s.versions| && s.versions[k].text.Some? ensures Whole(f, s.versions[k].text.value, target) {
      if k > 0 { assert Follows(f, s.versions[k - 1], s.versions[k]); }
    }
  }

  // ---- One save, stopped anywhere ----

  ghost predicate IsSaveOf<V>(pc: Pc<V>, v: V) {
    match pc
    case SaveLocking(w) => w == v
    case Probing(w) => w == v
    case Creating(w, _) => w == v
    case Filling(w, _, _) => w == v
    case Renaming(w, _) => w == v
    case _ => Acted(pc)
  }

  /** The target as it was, or the whole new document and the save past its rename. */
  ghost predicate OldOrNew<V>(s: State<V>, o: nat, v: V, before: Option<File>) {
    && o < |s.ops| && IsSaveOf(s.ops[o].pc, v)
    && (|| s.target == before
        || (Acted(s.ops[o].pc) && Document(s.format, v).Some? && s.target == Some(File(Document(s.format, v).value, true))))
  }

  /** A step of the save leaves the target, or renames the whole document over it. */
  lemma SaveStepLeaves<V>(s: State<V>, o: nat, v: V, c: Call)
    requires o < |s.ops| && OpFits(s.format, s.target, s.temp, s.versions, o, s.ops[o]) && IsSaveOf(s.ops[o].pc, v)
    ensures var t := StepSave(s, o, c);
      && o < |t.ops| && IsSaveOf(t.ops[o].pc, v) && t.format == s.format
      && (t.target == s.target
          || (Acted(t.ops[o].pc) && Document(s.format, v).Some? && t.target == Some(File(Document(s.format, v).value, true))))
      && (Acted(s.ops[o].pc) ==> t == s)
  {
    hide Document;
  }

  lemma StaysOldOrNew<V>(s: State<V>, bad: Option<File>, o: nat, v: V, before: Option<File>, a: Action<V>)
    requires Inv(s, bad) && OldOrNew(s, o, v, before)
    requires a.PowerLoss? || (a.Does? && a.op == o)
    ensures OldOrNew(Step(s, a), o, v, before)
  {
    assert OpFits(s.format, s.target, s.temp, s.versions, o, s.ops[o]);
    hide History, Authored, LockFits, OpsFit, StepSave, StepLoad, Document, OpFits;
    if a.Does? { SaveStepLeaves(s, o, v, a.call); }
  }

  /** A save stopped after any prefix of its calls, by an error, a death or the
      lights going out, leaves the target as it was or as the complete new
      document: never a mix, and never a truncation. */
  lemma {:induction false} SaveIsAtomic<V>(s: State<V>, bad: Option<File>, o: nat, v: V, before: Option<File>, run: seq<Action<V>>)
    requires Inv(s, bad) && OldOrNew(s, o, v, before)
    requires forall k | 0 <= k < |run| :: run[k].PowerLoss? || (run[k].Does? && run[k].op == o)
    ensures OldOrNew(Exec(s, run), o, v, before)
    decreases |run|
  {
    hide Inv, Step, OldOrNew;
    if run != [] {
      StaysOldOrNew(s, bad, o, v, before, run[0]);
      StepKeeps(s, run[0], bad);
      SaveIsAtomic(Step(s, run[0]), bad, o, v, before, run[1..]);
    }
  }

  lemma {:induction false} ExecSnoc<V>(s: State<V>, run: seq<Action<V>>, a: Action<V>)
    ensures Exec(s, run + [a]) == Step(Exec(s, run), a)
    decreases |run|
  {
    hide Step;
    if run == [] {
      assert [a][1..] == [] && run + [a] == [a];
    } else {
      assert (run + [a])[1..] == run[1..] + [a];
      ExecSnoc(Step(s, run[0]), run[1..], a);
    }
  }

  // ---- One operation, statement by statement ----

  /** Calls of operation 0 alone lead from one machine state to another. */
  ghost predicate Leads<V>(start: State<V>, run: seq<Action<V>>, s: State<V>) {
    && Exec(start, run) == s
    && (forall k | 0 <= k < |run| :: run[k].Does? && run[k].op == 0)
  }

  lemma AtRest<V>(s: State<V>)
    ensures Leads(s, [], s)
  {
  }

  /** One more call of the operation. */
  lemma Then<V>(start: State<V>, run: seq<Action<V>>, s: State<V>, c: Call) returns (longer: seq<Action<V>>, t: State<V>)
    requires Leads(start, run, s)
    ensures t == Step(s, Does(0, c)) && Leads(start, longer, t)
  {
    hide Step;
    longer, t := run + [Does(0, c)], Step(s, Does(0, c));
    ExecSnoc(start, run, Does(0, c));
  }

  // What each call does, as an equation.

  predicate Refuses<V>(pc: Pc<V>, c: Call) {
    || (pc.Probing? && c.ProbeFails?)
    || (pc.Creating? && c.CreateFails?)
    || (pc.Filling? && (c.WriteFails? || c.SyncFails?))
    || (pc.Renaming? && c.RenameFails?)
  }

  /** A failing call ends a save under the lock and touches no file. */
  lemma Fails<V>(s: State<V>, o: nat, c: Call)
    requires o < |s.ops| && Refuses(s.ops[o].pc, c)
    ensures Step(s, Does(o, c)) == Goto(s, o, Leaving(SaveFailed, None))
  {
  }

  lemma Locks<V>(s: State<V>, o: nat)
    requires o < |s.ops| && s.lock.None? && (s.ops[o].pc.SaveLocking? || s.ops[o].pc.LoadLocking?)
    ensures Step(s, Does(o, TakeLock)) ==
      Goto(s, o, if s.ops[o].pc.SaveLocking? then Probing(s.ops[o].pc.v) else Rereading).(lock := Some(o))
  {
  }

  lemma Probes<V>(s: State<V>, o: nat)
    requires o < |s.ops| && s.ops[o].pc.Probing?
    ensures var doc := Document(s.format, s.ops[o].pc.v);
      Step(s, Does(o, Probe)) == Goto(s, o,
        if !NotNewer(s.format, s.target) then Leaving(FutureVersion, Some(Now(s.versions)))
        else if doc.Some? then Creating(s.ops[o].pc.v, doc.value) else Leaving(SaveFailed, None))
  {
  }

  lemma Creates<V>(s: State<V>, o: nat)
    requires o < |s.ops| && s.ops[o].pc.Creating?
    ensures var pc := s.ops[o].pc;
      Step(s, Does(o, CreateTemp)) == Goto(s, o, Filling(pc.v, pc.doc, 0)).(temp := Some(File("", false)))
  {
  }

  lemma Fills<V>(s: State<V>, o: nat, n: nat)
    requires o < |s.ops| && s.ops[o].pc.Filling? && s.ops[o].pc.at + n <= |s.ops[o].pc.doc|
    ensures var pc := s.ops[o].pc;
      Step(s, Does(o, WriteSome(n))) ==
        Goto(s, o, pc.(at := pc.at + n)).(temp := Some(File(pc.doc[..pc.at + n], false)))
  {
  }

  lemma Syncs<V>(s: State<V>, o: nat)
    requires o < |s.ops| && s.ops[o].pc.Filling? && s.ops[o].pc.at == |s.ops[o].pc.doc|
    ensures var pc := s.ops[o].pc;
      Step(s, Does(o, Sync)) == Goto(s, o, Renaming(pc.v, pc.doc)).(temp := Some(File(pc.doc, true)))
  {
  }

  lemma Renames<V>(s: State<V>, o: nat)
    requires o < |s.ops| && s.ops[o].pc.Renaming? && s.temp.Some?
    ensures var v := s.ops[o].pc.v;
      Step(s, Does(o, Rename)) ==
        Goto(s, o, Leaving(Saved(v), Some(|s.versions|)))
        .(target := s.temp, temp := None, versions := s.versions + [Version(Some(s.temp.value.text), SavedBy(o, v))])
  {
  }

  lemma Unlocks<V>(s: State<V>, o: nat)
    requires o < |s.ops| && s.ops[o].pc.Leaving?
    ensures Step(s, Does(o, Unlock)) == Goto(s, o, Returned(s.ops[o].pc.outcome, s.ops[o].pc.seen)).(lock := None)
  {
  }

  lemma Reads<V>(s: State<V>, o: nat)
    requires o < |s.ops| && (s.ops[o].pc.Reading? || s.ops[o].pc.Rereading?)
    ensures var first, seen := s.ops[o].pc.Reading?, Some(Now(s.versions));
      Step(s, Does(o, Read)) == Goto(s, o,
        if Verdict(s.format, s.target).None? then (if first then LoadLocking else Moving)
        else if first then Returned(Verdict(s.format, s.target).value, seen) else Leaving(Verdict(s.format, s.target).value, seen))
  {
    hide Classify;
  }

  lemma ReadsNot<V>(s: State<V>, o: nat, c: Call)
    requires o < |s.ops|
    requires (s.ops[o].pc.Reading? && c.ReadFails?) || (s.ops[o].pc.LoadLocking? && c.LockFails?)
      || (s.ops[o].pc.Rereading? && c.ReadFails?) || (s.ops[o].pc.Moving? && c.MoveFails?)
    ensures Step(s, Does(o, c)) == Goto(s, o,
      if s.ops[o].pc.Reading? || s.ops[o].pc.LoadLocking? then Returned(Recovered(false), None) else Leaving(Recovered(false), None))
  {
  }

  lemma MovesAside<V>(s: State<V>, o: nat)
    requires o < |s.ops| && s.ops[o].pc.Moving?
    ensures Step(s, Does(o, MoveAside)) ==
      Goto(s, o, Leaving(Recovered(true), Some(|s.versions|)))
      .(target := None, bad := s.target, versions := s.versions + [Version(None, MovedBy(o))])
  {
  }

  /** The same machine after others have worked on the target; which of them
      it was does not matter to the load. */
  function Meanwhile<V>(s: State<V>, target: Option<File>): State<V> {
    s.(target := target, versions := s.versions + [Version(if target.Some? then Some(target.value.text) else None, NewerBuild)])
  }

  /** A save with nobody in its way. */
  function SaveRun<V>(o: nat, v: V, doc: string): seq<Action<V>> {
    [StartSave(v), Does(o, TakeLock), Does(o, Probe), Does(o, CreateTemp), Does(o, WriteSome(|doc|)), Does(o, Sync),
     Does(o, Rename), Does(o, Unlock)]
  }

  lemma ExecFrom<V>(s: State<V>, run: seq<Action<V>>, k: nat)
    requires k < |run|
    ensures Exec(s, run[k..]) == Exec(Step(s, run[k]), run[k + 1..])
  {
    hide Step;
    assert run[k..][1..] == run[k + 1..];
  }

  /** A started operation that stands at `pc`, the lock its own. */
  function Under<V>(s: State<V>, pc: Pc<V>): State<V> {
    s.(lock := Some(|s.ops|), ops := s.ops + [Op(Now(s.versions), pc)])
  }

  lemma GotoUnder<V>(s: State<V>, t: State<V>, before: Pc<V>, pc: Pc<V>)
    requires t.ops == s.ops + [Op(Now(s.versions), before)]
    ensures Goto(t, |s.ops|, pc).ops == s.ops + [Op(Now(s.versions), pc)]
  {
  }

  lemma SaveStarts<V>(s: State<V>, v: V)
    requires s.lock.None?
    ensures Step(Step(s, StartSave(v)), Does(|s.ops|, TakeLock)) == Under(s, Probing(v))
  {
    var t := Step(s, StartSave(v));
    hide Step;
    StepStarts(s, SaveLocking(v));
    Locks(t, |s.ops|);
    GotoUnder(s, t, SaveLocking(v), Probing(v));
  }

  lemma StepStarts<V>(s: State<V>, pc: Pc<V>)
    ensures pc.SaveLocking? ==> Step(s, StartSave(pc.v)) == s.(ops := s.ops + [Op(Now(s.versions), pc)])
    ensures pc.Reading? ==> Step(s, StartLoad) == s.(ops := s.ops + [Op(Now(s.versions), pc)])
  {
  }

  /** Up to the temporary file. */
  lemma SaveOpens<V>(s: State<V>, v: V, doc: string)
    requires s.lock.None? && NotNewer(s.format, s.target) && Document(s.format, v) == Some(doc)
    ensures var o, run := |s.ops|, SaveRun(|s.ops|, v, doc);
      Exec(s, run) == Exec(Under(s, Filling(v, doc, 0)).(temp := Some(File("", false))), run[4..])
  {
    var o, run := |s.ops|, SaveRun(|s.ops|, v, doc);
    hide Exec, Step, Document, NotNewer;
    assert run[0..] == run;
    ExecFrom(s, run, 0);
    ExecFrom(Step(s, run[0]), run, 1);
    SaveStarts(s, v);
    var s2 := Under(s, Probing(v));
    ExecFrom(s2, run, 2);
    Probes(s2, o);
    GotoUnder(s, s2, Probing(v), Creating(v, doc));
    var s3 := Under(s, Creating(v, doc));
    ExecFrom(s3, run, 3);
    Creates(s3, o);
    GotoUnder(s, s3, Creating(v, doc), Filling(v, doc, 0));
  }

  /** Filling it, syncing it and renaming it into place. */
  lemma SaveCloses<V>(s: State<V>, v: V, doc: string)
    ensures var o, run := |s.ops|, SaveRun(|s.ops|, v, doc);
      Exec(Under(s, Filling(v, doc, 0)).(temp := Some(File("", false))), run[4..]) == s.(
        lock := None, temp := None, target := Some(File(doc, true)),
        versions := s.versions + [Version(Some(doc), SavedBy(o, v))],
        ops := s.ops + [Op(Now(s.versions), Returned(Saved(v), Some(|s.versions|)))])
  {
    var o, run := |s.ops|, SaveRun(|s.ops|, v, doc);
    hide Exec, Step;
    var s4 := Under(s, Filling(v, doc, 0)).(temp := Some(File("", false)));
    ExecFrom(s4, run, 4);
    Fills(s4, o, |doc|);
    assert doc[..|doc|] == doc;
    GotoUnder(s, s4, Filling(v, doc, 0), Filling(v, doc, |doc|));
    var s5 := Under(s, Filling(v, doc, |doc|)).(temp := Some(File(doc, false)));
    ExecFrom(s5, run, 5);
    Syncs(s5, o);
    GotoUnder(s, s5, Filling(v, doc, |doc|), Renaming(v, doc));
    SaveEnds(s, v, doc);
  }

  lemma SaveEnds<V>(s: State<V>, v: V, doc: string)
    ensures var o, run := |s.ops|, SaveRun(|s.ops|, v, doc);
      Exec(Under(s, Renaming(v, doc)).(temp := Some(File(doc, true))), run[6..]) == s.(
        lock := None, temp := None, target := Some(File(doc, true)),
        versions := s.versions + [Version(Some(doc), SavedBy(o, v))],
        ops := s.ops + [Op(Now(s.versions), Returned(Saved(v), Some(|s.versions|)))])
  {
    var o, run := |s.ops|, SaveRun(|s.ops|, v, doc);
    hide Exec, Step;
    var s6 := Under(s, Renaming(v, doc)).(temp := Some(File(doc, true)));
    var done := Some(|s.versions|);
    ExecFrom(s6, run, 6);
    Renames(s6, o);
    GotoUnder(s, s6, Renaming(v, doc), Leaving(Saved(v), done));
    var s7 := Under(s, Leaving(Saved(v), done)).(
      temp := None, target := Some(File(doc, true)), versions := s.versions + [Version(Some(doc), SavedBy(o, v))]);
    ExecFrom(s7, run, 7);
    Unlocks(s7, o);
    GotoUnder(s, s7, Leaving(Saved(v), done), Returned(Saved(v), done));
    assert run[8..] == [];
    ExecNone(Step(s7, run[7]));
  }

  lemma ExecNone<V>(s: State<V>)
    ensures Exec(s, []) == s
  {
  }

  /** Whoever holds the lock may die there; the lock is then free. */
  lemma DeathFreesLock<V>(s: State<V>, bad: Option<File>)
    requires Inv(s, bad) && s.lock.Some?
    ensures var t := Step(s, Does(s.lock.value, Die));
      t.lock.None? && t.target == s.target && t.bad == s.bad && t.versions == s.versions && |t.ops| == |s.ops|
  {
    hide History, OpsFit;
  }

  /** `s` once whoever held the lock has died. */
  function Freed<V>(s: State<V>): State<V> {
    if s.lock.Some? then Step(s, Does(s.lock.value, Die)) else s
  }

  lemma FreedFits<V>(s: State<V>, bad: Option<File>)
    requires Inv(s, bad)
    ensures var t := Freed(s);
      && t.lock.None? && t.target == s.target && t.bad == s.bad && t.versions == s.versions && |t.ops| == |s.ops|
      && t.format == s.format && t.versions != []
  {
    if s.lock.Some? { DeathFreesLock(s, bad); }
    hide History, OpsFit;
  }

  /** What a save with nobody in its way makes of a machine. */
  lemma SaveRuns<V>(s: State<V>, v: V, doc: string)
    requires s.lock.None? && NotNewer(s.format, s.target) && Document(s.format, v) == Some(doc)
    ensures Exec(s, SaveRun(|s.ops|, v, doc)) == s.(
      temp := None, target := Some(File(doc, true)),
      versions := s.versions + [Version(Some(doc), SavedBy(|s.ops|, v))],
      ops := s.ops + [Op(Now(s.versions), Returned(Saved(v), Some(|s.versions|)))])
  {
    hide Exec, Document;
    SaveOpens(s, v, doc);
    SaveCloses(s, v, doc);
  }

  /** Whatever happened before - deaths in the middle of a save included - the
      next save of a value that serialises succeeds, once the holder of the
      lock is gone and unless a newer build owns the file. */
  lemma NextSaveSucceeds<V>(f: Format<V>, target: Option<string>, temp: Option<File>, bad: Option<string>, run: seq<Action<V>>, v: V)
    requires Document(f, v).Some? && NotNewer(f, Reached(f, target, temp, bad, run).target)
    ensures var s := Reached(f, target, temp, bad, run);
      var t := Exec(Freed(s), SaveRun(|s.ops|, v, Document(f, v).value));
      && t.target == Some(File(Document(f, v).value, true))
      && |t.ops| == |s.ops| + 1 && t.ops[|s.ops|].pc == Returned(Saved(v), Some(|s.versions|))
  {
    hide Exec, Document, Inv, Freed;
    Reachable(f, target, temp, bad, run);
    var s := Reached(f, target, temp, bad, run);
    FreedFits(s, OnDisk(bad));
    SaveRuns(Freed(s), v, Document(f, v).value);
  }

  /** A load that finds a corrupt document, with nobody in its way. */
  function LoadRun<V>(o: nat): seq<Action<V>> {
    [StartLoad, Does(o, Read), Does(o, TakeLock), Does(o, Read), Does(o, MoveAside), Does(o, Unlock)]
  }

  lemma LoadRuns<V>(s: State<V>)
    requires s.lock.None? && Verdict(s.format, s.target).None?
    ensures Exec(s, LoadRun(|s.ops|)) == s.(
      target := None, bad := s.target,
      versions := s.versions + [Version(None, MovedBy(|s.ops|))],
      ops := s.ops + [Op(Now(s.versions), Returned(Recovered(true), Some(|s.versions|)))])
  {
    var o, run := |s.ops|, LoadRun<V>(|s.ops|);
    hide Exec, Step, Verdict;
    assert run[0..] == run;
    ExecFrom(s, run, 0);
    StepStarts(s, Reading);
    var s1 := s.(ops := s.ops + [Op(Now(s.versions), Reading)]);
    ExecFrom(s1, run, 1);
    Reads(s1, o);
    GotoUnder(s, s1, Reading, LoadLocking);
    var s2 := s.(ops := s.ops + [Op(Now(s.versions), LoadLocking)]);
    ExecFrom(s2, run, 2);
    Locks(s2, o);
    GotoUnder(s, s2, LoadLocking, Rereading);
    var s3 := Under(s, Rereading);
    ExecFrom(s3, run, 3);
    Reads(s3, o);
    GotoUnder(s, s3, Rereading, Moving);
    LoadEnds(s);
  }

  lemma LoadEnds<V>(s: State<V>)
    ensures Exec(Under(s, Moving), LoadRun(|s.ops|)[4..]) == s.(
      lock := None, target := None, bad := s.target,
      versions := s.versions + [Version(None, MovedBy(|s.ops|))],
      ops := s.ops + [Op(Now(s.versions), Returned(Recovered(true), Some(|s.versions|)))])
  {
    var o, run := |s.ops|, LoadRun<V>(|s.ops|);
    hide Exec, Step;
    var done := Some(|s.versions|);
    var s4 := Under(s, Moving);
    ExecFrom(s4, run, 4);
    MovesAside(s4, o);
    GotoUnder(s, s4, Moving, Leaving(Recovered(true), done));
    var s5 := Under(s, Leaving(Recovered(true), done)).(
      target := None, bad := s.target, versions := s.versions + [Version(None, MovedBy(o))]);
    ExecFrom(s5, run, 5);
    Unlocks(s5, o);
    GotoUnder(s, s5, Leaving(Recovered(true), done), Returned(Recovered(true), done));
    assert run[6..] == [];
    ExecNone(Step(s5, run[5]));
  }

  /** Likewise the next load of a corrupt document moves it aside. */
  lemma NextLoadRecovers<V>(f: Format<V>, target: Option<string>, temp: Option<File>, bad: Option<string>, run: seq<Action<V>>)
    requires var s := Reached(f, target, temp, bad, run); s.target.Some? && Classify(f, s.target.value.text).Corrupt?
    ensures var s := Reached(f, target, temp, bad, run);
      var t := Exec(Freed(s), LoadRun(|s.ops|));
      && t.target.None? && t.bad == s.target
      && |t.ops| == |s.ops| + 1 && t.ops[|s.ops|].pc == Returned(Recovered(true), Some(|s.versions|))
  {
    Reachable(f, target, temp, bad, run);
    var s := Reached(f, target, temp, bad, run);
    FreedFits(s, OnDisk(bad));
    hide Exec, Inv, Freed, Reached, Classify;
    assert Verdict(s.format, s.target).None?;
    LoadRuns(Freed(s));
  }

  /** Neither the document nor the copy set aside holds this text. A temporary file
      is no copy: it holds a part of some save's own document. */
  predicate Lost<V>(s: State<V>, text: string) {
    (s.target.Some? ==> s.target.value.text != text) && (s.bad.Some? ==> s.bad.value.text != text)
  }

  /** Where a corrupt document the store started with has gone: aside, if the
      first change to the target was a load moving it; otherwise nothing has
      ever been moved aside. */
  ghost predicate CopyFits<V>(s: State<V>, text: string, before: Option<File>) {
    && s.versions != [] && s.versions[0] == Version(Some(text), Initially)
    && s.bad == if |s.versions| > 1 && s.versions[1].author.MovedBy? then Some(File(text, true)) else before
  }

  /** After the first document nothing in the store is corrupt again. */
  lemma OnlyFirstIsCorrupt<V(!new)>(f: Format<V>, versions: seq<Version<V>>, k: nat)
    requires History(f, versions) && RoundTrips(f) && 0 < k < |versions|
    ensures versions[k].text.Some? ==> !Classify(f, versions[k].text.value).Corrupt?
  {
    assert Follows(f, versions[k - 1], versions[k]);
  }

  lemma MovingKeepsCopy<V(!new)>(s: State<V>, o: nat, text: string, before: Option<File>, bad: Option<File>)
    requires Inv(s, bad) && RoundTrips(s.format) && CopyFits(s, text, before) && o < |s.ops| && s.ops[o].pc.Moving?
    ensures CopyFits(Step(s, Does(o, MoveAside)), text, before)
  {
    assert OpFits(s.format, s.target, s.temp, s.versions, o, s.ops[o]);
    if |s.versions| > 1 { OnlyFirstIsCorrupt(s.format, s.versions, |s.versions| - 1); }
    MovesAside(s, o);
    hide Step, History, OpsFit, LockFits, Authored, Classify;
  }

  /** Every other step leaves what was moved aside alone, and moves nothing. */
  lemma ElseNothingMoves<V>(s: State<V>, a: Action<V>)
    requires s.versions != [] && (s.bad.Some? ==> s.bad.value.synced)
    requires !(a.Does? && a.op < |s.ops| && s.ops[a.op].pc.Moving? && a.call.MoveAside?)
    ensures MovesNothing(s, Step(s, a))
  {
    hide MovesNothing, StepSave, StepLoad, StepLeave;
    match a
    case Does(o, c) =>
      if o < |s.ops| {
        SaveMovesNothing(s, o, c);
        LoadMovesNothing(s, o, c);
        LeaveMovesNothing(s, o, c);
      } else {
        StandsStill(s);
      }
    case _ => WorldMovesNothing(s, a);
  }

  ghost predicate MovesNothing<V>(s: State<V>, t: State<V>) {
    && t.bad == s.bad
    && (t.versions == s.versions
        || (|t.versions| == |s.versions| + 1 && s.versions <= t.versions && !t.versions[|s.versions|].author.MovedBy?))
  }

  lemma StandsStill<V>(s: State<V>)
    ensures MovesNothing(s, s)
  {
  }

  lemma SaveMovesNothing<V>(s: State<V>, o: nat, c: Call)
    requires o < |s.ops|
    ensures MovesNothing(s, StepSave(s, o, c))
  {
    hide Document, IsNewer;
  }

  lemma LoadMovesNothing<V>(s: State<V>, o: nat, c: Call)
    requires o < |s.ops| && !(s.ops[o].pc.Moving? && c.MoveAside?)
    ensures MovesNothing(s, StepLoad(s, o, c))
  {
    hide Verdict;
  }

  lemma LeaveMovesNothing<V>(s: State<V>, o: nat, c: Call)
    requires o < |s.ops|
    ensures MovesNothing(s, StepLeave(s, o, c))
  {
  }

  lemma WorldMovesNothing<V>(s: State<V>, a: Action<V>)
    requires !a.Does? && (s.bad.Some? ==> s.bad.value.synced)
    ensures MovesNothing(s, Step(s, a))
  {
    hide IsNewer, DiedAll;
  }

  lemma {:induction false} RunKeepsCopy<V(!new)>(s: State<V>, run: seq<Action<V>>, text: string, before: Option<File>, bad: Option<File>)
    requires Inv(s, bad) && RoundTrips(s.format) && CopyFits(s, text, before) && (before.Some? ==> before.value.synced)
    ensures CopyFits(Exec(s, run), text, before)
    decreases |run|
  {
    hide Inv, Step, RoundTrips;
    if run != [] {
      var a := run[0];
      StepKeeps(s, a, bad);
      if a.Does? && a.op < |s.ops| && s.ops[a.op].pc.Moving? && a.call.MoveAside? {
        MovingKeepsCopy(s, a.op, text, before, bad);
      } else {
        ElseNothingMoves(s, a);
      }
      RunKeepsCopy(Step(s, a), run[1..], text, before, bad);
    }
  }

  /** "A corrupt file is never overwritten silently" is not true of this store:
      a save replaces one and keeps no copy. In any run of any operations, with
      failures, deaths and power losses anywhere, a document that was corrupt to
      begin with is lost if and only if the first change to the target was
      anything but a load moving it aside. */
  lemma CorruptLostIff<V(!new)>(f: Format<V>, text: string, temp: Option<File>, bad: Option<string>, run: seq<Action<V>>)
    requires RoundTrips(f) && Classify(f, text).Corrupt? && bad != Some(text)
    ensures var s := Reached(f, Some(text), temp, bad, run);
      Lost(s, text) <==> |s.versions| > 1 && !s.versions[1].author.MovedBy?
  {
    var init := Init(f, Some(text), temp, OnDisk(bad));
    InitFits(f, Some(text), temp, bad);
    Reachable(f, Some(text), temp, bad, run);
    RunKeepsCopy(init, run, text, OnDisk(bad), OnDisk(bad));
    hide Exec, Authored, OpsFit, LockFits;
    var s := Reached(f, Some(text), temp, bad, run);
    var last := |s.versions| - 1;
    if last > 0 { OnlyFirstIsCorrupt(f, s.versions, last); }
  }

  lemma InitFits<V>(f: Format<V>, target: Option<string>, temp: Option<File>, bad: Option<string>)
    ensures Inv(Init(f, target, temp, OnDisk(bad)), OnDisk(bad))
  {
  }

  /** In a caller's terms: once some save has succeeded and nobody has died half
      way, the corrupt document is lost if and only if no load has recovered it
      - a load that could not lock, read or move has not - unless a newer build
      wrote first, when it is lost as well. */
  lemma LostUnlessRecovered<V(!new)>(f: Format<V>, text: string, temp: Option<File>, bad: Option<string>, run: seq<Action<V>>)
    requires RoundTrips(f) && Classify(f, text).Corrupt? && bad != Some(text)
    requires var s := Reached(f, Some(text), temp, bad, run);
      && (forall o | 0 <= o < |s.ops| :: !s.ops[o].pc.Died?)
      && (exists o :: 0 <= o < |s.ops| && s.ops[o].pc.Returned? && s.ops[o].pc.outcome.Saved?)
    ensures var s := Reached(f, Some(text), temp, bad, run);
      Lost(s, text) <==> !exists o :: 0 <= o < |s.ops| && HasRecovered(s.ops[o].pc)
  {
    CorruptLostIff(f, text, temp, bad, run);
    Reachable(f, Some(text), temp, bad, run);
    hide Exec, Reached, Lost, Inv, HasRecovered;
    var s := Reached(f, Some(text), temp, bad, run);
    var saver :| 0 <= saver < |s.ops| && s.ops[saver].pc.Returned? && s.ops[saver].pc.outcome.Saved?;
    SaverWrote(s, saver, OnDisk(bad));
    if s.versions[1].author.MovedBy? { MoverRecovers(s, OnDisk(bad)); }
    if o :| 0 <= o < |s.ops| && HasRecovered(s.ops[o].pc) { RecoveredMoved(s, o, OnDisk(bad)); }
  }

  lemma SaverWrote<V>(s: State<V>, o: nat, bad: Option<File>)
    requires Inv(s, bad) && o < |s.ops| && s.ops[o].pc.Returned? && s.ops[o].pc.outcome.Saved?
    ensures |s.versions| > 1
  {
    assert OpFits(s.format, s.target, s.temp, s.versions, o, s.ops[o]);
    hide Authored, History, LockFits, TargetFits;
  }

  lemma MoverRecovers<V>(s: State<V>, bad: Option<File>)
    requires Inv(s, bad) && |s.versions| > 1 && s.versions[1].author.MovedBy?
    ensures var o := s.versions[1].author.op; o < |s.ops| && (s.ops[o].pc.Died? || HasRecovered(s.ops[o].pc))
  {
    hide OpsFit, History, LockFits, TargetFits;
    assert Wrote(s.versions[1].author);
  }

  lemma RecoveredMoved<V(!new)>(s: State<V>, o: nat, bad: Option<File>)
    requires Inv(s, bad) && RoundTrips(s.format) && o < |s.ops| && HasRecovered(s.ops[o].pc)
    ensures |s.versions| > 1 && s.versions[1].author.MovedBy?
  {
    assert OpFits(s.format, s.target, s.temp, s.versions, o, s.ops[o]);
    hide Authored, LockFits, TargetFits, OpsFit, Classify;
    var k := s.ops[o].pc.seen.value;
    assert Follows(s.format, s.versions[k - 1], s.versions[k]);
    if k > 1 { OnlyFirstIsCorrupt(s.format, s.versions, k - 1); }
  }

  ghost predicate HasRecovered<V>(pc: Pc<V>) {
    (pc.Leaving? || pc.Returned?) && pc.outcome == Recovered(true)
  }

  /** The files of one namespace, and the operations on them as the source
      writes them. `fault` names the one system call that fails, if any. */
  class Namespace<V> {
    const format: Format<V>
    var target: Option<File>
    var temp: Option<File>
    var bad: Option<File>

    constructor (format: Format<V>, target: Option<File>, temp: Option<File>, bad: Option<File>)
      ensures this.format == format && this.target == target && this.temp == temp && this.bad == bad
    {
      this.format, this.target, this.temp, this.bad := format, target, temp, bad;
    }

    /** The machine has the same files, and its one operation is at `pc`. */
    ghost predicate Mirrors(s: State<V>, lock: bool, pc: Pc<V>)
      reads this
    {
      && s.format == format && s.target == target && s.temp == temp && s.bad == bad
      && s.lock == (if lock then Some(0) else None)
      && |s.ops| == 1 && s.ops[0].pc == pc
    }

    ghost predicate Ended(s: State<V>, outcome: Outcome<V>)
      reads this
    {
      exists seen :: Mirrors(s, false, Returned(outcome, seen))
    }

    ghost predicate AboutToEnd(s: State<V>, outcome: Outcome<V>)
      reads this
    {
      exists seen :: Mirrors(s, true, Leaving(outcome, seen))
    }

    /** The version in the document is beyond this build's. */
    predicate Newer(target: Option<File>) {
      target.Some? && format.probe(target.value.text).Some? && format.probe(target.value.text).value > 1
    }

    /** `save_inner`: a run of the machine, and what it leaves. */
    method Save(v: V, fault: Option<Call>, ghost start: State<V>)
      returns (outcome: Outcome<V>, ghost run: seq<Action<V>>, ghost end: State<V>)
      requires Mirrors(start, false, SaveLocking(v))
      modifies this
      ensures Leads(start, run, end) && Ended(end, outcome)
      ensures bad == old(bad)
      ensures outcome ==
        if fault == Some(LockFails) || fault == Some(ProbeFails) then SaveFailed
        else if Newer(old(target)) then FutureVersion
        else if format.serialize(v).None? || fault in {Some(CreateFails), Some(WriteFails), Some(SyncFails), Some(RenameFails)} then SaveFailed
        else Saved(v)
      ensures outcome == Saved(v) ==> target == Some(File(format.serialize(v).value + "\n", true)) && temp.None?
      ensures outcome != Saved(v) ==> target == old(target)
      ensures outcome == FutureVersion ==> temp == old(temp)
    {
      hide Leads, StepLoad;
      run, end := [], start;
      AtRest(start);
      if fault == Some(LockFails) {
        run, end := Then(start, run, end, LockFails);
        assert Mirrors(end, false, Returned(SaveFailed, None));
        return SaveFailed, run, end;
      }
      hide Step;
      Locks(end, 0);
      run, end := Then(start, run, end, TakeLock);
      assert Mirrors(end, true, Probing(v));
      if fault == Some(ProbeFails) {
        Fails(end, 0, ProbeFails);
        run, end := Then(start, run, end, ProbeFails);
        outcome := SaveFailed;
        assert Mirrors(end, true, Leaving(SaveFailed, None));
      } else if target.Some? && IsNewer(format, target.value.text) {
        Probes(end, 0);
        run, end := Then(start, run, end, Probe);
        outcome := FutureVersion;
        assert Mirrors(end, true, Leaving(FutureVersion, Some(Now(end.versions))));
      } else if format.serialize(v).None? {
        Probes(end, 0);
        run, end := Then(start, run, end, Probe);
        outcome := SaveFailed;
        assert Mirrors(end, true, Leaving(SaveFailed, None));
      } else {
        var payload := format.serialize(v).value;
        Probes(end, 0);
        run, end := Then(start, run, end, Probe);
        assert Mirrors(end, true, Creating(v, payload + "\n"));
        outcome, run, end := Replace(v, payload, fault, start, run, end);
      }
      ghost var seen := end.ops[0].pc.seen;
      Unlocks(end, 0);
      run, end := Then(start, run, end, Unlock);
      assert Mirrors(end, false, Returned(outcome, seen));
    }

    /** The rest of `save_inner`: temporary file, newline, sync, rename. */
    method Replace(v: V, payload: string, fault: Option<Call>, ghost start: State<V>, ghost before: seq<Action<V>>, ghost here: State<V>)
      returns (outcome: Outcome<V>, ghost run: seq<Action<V>>, ghost end: State<V>)
      requires Leads(start, before, here) && Mirrors(here, true, Creating(v, payload + "\n"))
      modifies this
      ensures Leads(start, run, end) && AboutToEnd(end, outcome)
      ensures bad == old(bad)
      ensures outcome == Saved(v) || outcome == SaveFailed
      ensures outcome == Saved(v) ==> target == Some(File(payload + "\n", true)) && temp.None?
      ensures outcome == SaveFailed ==> target == old(target)
      ensures outcome == SaveFailed <==> fault in {Some(CreateFails), Some(WriteFails), Some(SyncFails), Some(RenameFails)}
    {
      hide Leads, Step;
      ghost var doc := payload + "\n";
      var filled;
      filled, run, end := Fill(v, payload, fault, start, before, here);
      if !filled { return SaveFailed, run, end; }
      if fault == Some(SyncFails) {
        Fails(end, 0, SyncFails);
        run, end := Then(start, run, end, SyncFails);
        assert Mirrors(end, true, Leaving(SaveFailed, None));
        return SaveFailed, run, end;
      }
      temp := Some(temp.value.(synced := true));
      Syncs(end, 0);
      run, end := Then(start, run, end, Sync);
      assert Mirrors(end, true, Renaming(v, doc));
      if fault == Some(RenameFails) {
        Fails(end, 0, RenameFails);
        run, end := Then(start, run, end, RenameFails);
        assert Mirrors(end, true, Leaving(SaveFailed, None));
        return SaveFailed, run, end;
      }
      target, temp := temp, None;
      ghost var version := |end.versions|;
      Renames(end, 0);
      run, end := Then(start, run, end, Rename);
      assert Mirrors(end, true, Leaving(Saved(v), Some(version)));
      outcome := Saved(v);
    }

    /** The temporary file, made and written: the document, then its newline. */
    method Fill(v: V, payload: string, fault: Option<Call>, ghost start: State<V>, ghost before: seq<Action<V>>, ghost here: State<V>)
      returns (filled: bool, ghost run: seq<Action<V>>, ghost end: State<V>)
      requires Leads(start, before, here) && Mirrors(here, true, Creating(v, payload + "\n"))
      modifies this`temp
      ensures Leads(start, run, end)
      ensures filled <==> fault != Some(CreateFails) && fault != Some(WriteFails)
      ensures if filled
        then temp == Some(File(payload + "\n", false)) && Mirrors(end, true, Filling(v, payload + "\n", |payload| + 1))
        else AboutToEnd(end, SaveFailed)
    {
      hide Leads, Step;
      ghost var doc := payload + "\n";
      run, end := before, here;
      if fault == Some(CreateFails) {
        Fails(end, 0, CreateFails);
        run, end := Then(start, run, end, CreateFails);
        assert Mirrors(end, true, Leaving(SaveFailed, None));
        return false, run, end;
      }
      temp := Some(File("", false));
      Creates(end, 0);
      run, end := Then(start, run, end, CreateTemp);
      assert Mirrors(end, true, Filling(v, doc, 0));
      if fault == Some(WriteFails) {
        Fails(end, 0, WriteFails);
        run, end := Then(start, run, end, WriteFails);
        assert Mirrors(end, true, Leaving(SaveFailed, None));
        return false, run, end;
      }
      temp := Some(File(payload, false));
      assert doc[..|payload|] == payload;
      Fills(end, 0, |payload|);
      run, end := Then(start, run, end, WriteSome(|payload|));
      assert Mirrors(end, true, Filling(v, doc, |payload|));
      temp := Some(File(payload + "\n", false));
      assert doc[..|doc|] == doc;
      Fills(end, 0, 1);
      run, end := Then(start, run, end, WriteSome(1));
      filled := true;
    }

    /** `load_inner`. `meanwhile` is what others have made of the target by the
        time a load that found it corrupt has the lock. The two runs are the
        load before that moment and after it. */
    method Load(meanwhile: Option<File>, fault: Option<Call>, rereadFails: bool, ghost start: State<V>)
      returns (outcome: Outcome<V>, ghost first: seq<Action<V>>, ghost middle: State<V>, ghost second: seq<Action<V>>, ghost end: State<V>)
      requires Mirrors(start, false, Reading)
      modifies this
      ensures Leads(start, first, middle) && Ended(end, outcome) && temp == old(temp)
      ensures end == middle || Leads(Meanwhile(middle, meanwhile), second, end)
      ensures outcome ==
        if fault == Some(ReadFails) then Recovered(false)
        else if Verdict(format, old(target)).Some? then Verdict(format, old(target)).value
        else if fault == Some(LockFails) || rereadFails then Recovered(false)
        else if Verdict(format, meanwhile).Some? then Verdict(format, meanwhile).value
        else Recovered(fault != Some(MoveFails))
      ensures if outcome == Recovered(true) then target.None? && bad == meanwhile else bad == old(bad)
      ensures outcome != Recovered(true) ==>
        target == if fault == Some(ReadFails) || fault == Some(LockFails) || Verdict(format, old(target)).Some? then old(target) else meanwhile
    {
      hide Leads, Step, Verdict;
      first, middle, second, end := [], start, [], start;
      AtRest(start);
      if fault == Some(ReadFails) {
        ReadsNot(middle, 0, ReadFails);
        first, middle := Then(start, first, middle, ReadFails);
        assert Mirrors(middle, false, Returned(Recovered(false), None));
        return Recovered(false), first, middle, [], middle;
      }
      var verdict := Verdict(format, target);
      VerdictMovesNothing(format, target);
      Reads(middle, 0);
      first, middle := Then(start, first, middle, Read);
      if verdict.Some? {
        assert Mirrors(middle, false, Returned(verdict.value, Some(Now(start.versions))));
        return verdict.value, first, middle, [], middle;
      }
      assert Mirrors(middle, false, LoadLocking);
      if fault == Some(LockFails) {
        ReadsNot(middle, 0, LockFails);
        first, middle := Then(start, first, middle, LockFails);
        assert Mirrors(middle, false, Returned(Recovered(false), None));
        return Recovered(false), first, middle, [], middle;
      }
      target := meanwhile;
      ghost var resumed := Meanwhile(middle, meanwhile);
      outcome, second, end := UnderLock(fault, rereadFails, resumed);
    }

    /** The locked part of `load_inner`: read again, and only then move aside. */
    method UnderLock(fault: Option<Call>, rereadFails: bool, ghost start: State<V>)
      returns (outcome: Outcome<V>, ghost run: seq<Action<V>>, ghost end: State<V>)
      requires Mirrors(start, false, LoadLocking)
      modifies this
      ensures Leads(start, run, end) && Ended(end, outcome) && temp == old(temp)
      ensures outcome ==
        if rereadFails then Recovered(false)
        else if Verdict(format, old(target)).Some? then Verdict(format, old(target)).value
        else Recovered(fault != Some(MoveFails))
      ensures if outcome == Recovered(true) then target.None? && bad == old(target) else target == old(target) && bad == old(bad)
    {
      hide Leads, Step, Verdict;
      run, end := [], start;
      AtRest(start);
      Locks(end, 0);
      run, end := Then(start, run, end, TakeLock);
      assert Mirrors(end, true, Rereading);
      if rereadFails {
        ReadsNot(end, 0, ReadFails);
        run, end := Then(start, run, end, ReadFails);
        outcome := Recovered(false);
        assert Mirrors(end, true, Leaving(outcome, None));
      } else {
        var verdict := Verdict(format, target);
        VerdictMovesNothing(format, target);
        ghost var seen := Some(Now(end.versions));
        Reads(end, 0);
        run, end := Then(start, run, end, Read);
        if verdict.Some? {
          outcome := verdict.value;
          assert Mirrors(end, true, Leaving(outcome, seen));
        } else if fault == Some(MoveFails) {
          ReadsNot(end, 0, MoveFails);
          run, end := Then(start, run, end, MoveFails);
          outcome := Recovered(false);
          assert Mirrors(end, true, Leaving(outcome, None));
        } else {
          ghost var moved := Some(|end.versions|);
          MovesAside(end, 0);
          target, bad := None, target;
          run, end := Then(start, run, end, MoveAside);
          outcome := Recovered(true);
          assert Mirrors(end, true, Leaving(outcome, moved));
        }
      }
      ghost var seen := end.ops[0].pc.seen;
      Unlocks(end, 0);
      run, end := Then(start, run, end, Unlock);
      assert Mirrors(end, false, Returned(outcome, seen));
    }
  }
}
