# PYREN, modelled in Dafny

PYREN is a Linux control suite for HP OMEN laptops: a root daemon that talks to
the firmware, a desktop app, an on-screen widget, a command-line client, a
diagnostic tool and a kernel driver. This project models the parts of it whose
correctness depends on interleaving, on failure at any moment, or on an
algorithm with a sharp promise, and proves that promise over every input or
every run.

| file | what it models |
|---|---|
| `AcpiGate.dfy` | the firmware call gate: callers, worker threads, panics and replacement, the deadline marker, and other programs sharing one write-then-read register under a file lock, as a state machine over a clock |
| `AcpiWorker.dfy` | the gate's worker loop and exchange in imperative form, each a run of that machine |
| `AcpiCodec.dfy` | the hex codec of firmware requests and replies |
| `ConfigStore.dfy` | the versioned config store: any number of processes saving and loading one document, any of which may die between two system calls, with power losses and a newer build beside them; then the operations in imperative form |
| `EventBus.dfy` | the daemon's bounded event ring, the long poll with its cursor, and in-process listeners |
| `OsdPoll.dfy` | the widget's poll loop, its restart detection and the tracker that orders mode announcements |
| `FanDriver.dfy` | the driver's fan modes, keep-alive work, pwm conversions and fan table |
| `IconPath.dfy` | the SVG path scanner and interpreter, over exact decimals |
| `IconText.dfy` | what the scanner makes of any text: numbers by value in every form, commands named or implied |
| `Wrap.dfy` | greedy word wrap |
| `IpcLog.dfy` | run-length collapsing of the call transcript |
| `Notifications.dfy` | the fifty-newest notification history and its read marks |
| `Hardware.dfy` | write coalescing (`FanPush`) and the fan curve (`FanCurve`) |
| `Args.dfy` | the command-line parser |
| `Basics.dfy` | options, text trimming and a few integer facts |

Code that updates fields or loops is modelled by classes and loops, proved
against specification functions; the theorems are about those functions and
about runs of them. The protocols are state machines whose actions name who
moves and what happens. An action whose guard does not hold changes nothing, so
every sequence of actions is a run and a statement about all sequences covers
all interleavings.

## What turned out not to hold

The lemma behind each is named, and so is the one that says exactly when the
property does hold.

- Replies of the firmware gate are never mixed up *exactly when* the lock file
  can be opened; otherwise another program can slip between a write and its
  read (`AcpiGate.OwnAnswersIffLockable`).
- "No late writes" (`daemon/crates/core/src/acpi.rs:35-36`): the deadline is looked
  at before the exchange and not again, so that a request can go to the firmware
  for a caller who has just been told that it failed - with any timeout, with or
  without a lock file (`AcpiGate.LateWriteHappens`). Nothing is written for a
  caller who has been told in any run *exactly when* no time at all passes between
  a job's approval and its write (`AcpiGate.NoLateWriteIff`); a write taken before
  the deadline always has its caller waiting (`AcpiGate.TimelyWriteHasWaiter`).
- "A corrupt file is never overwritten silently" (`daemon/crates/config/src/lib.rs:16-18`)
  does not hold: a save straight onto a corrupt document replaces it and keeps no
  copy. Over all runs, a document that was corrupt to begin with is lost *exactly
  when* the first change to the target was not a load moving it aside
  (`ConfigStore.CorruptLostIff`); in a caller's terms, once a save has succeeded
  and nobody died half way, exactly when no load has recovered it - a load that
  could not lock, read or move has not (`ConfigStore.LostUnlessRecovered`).
- A bare hex reply is lost when its first digit is `b`, and a `0x` reply shrinks
  to its last byte when all others are zero (`AcpiCodec.BareBlob`,
  `AcpiCodec.PrefixedBlob`).
- Listeners on the bus may hear two events in the opposite of publication order.
  Order is kept in every run in which each publish is over before the next one
  begins, and with more than one unfinished at a time it is not
  (`EventBus.HeardInOrder`, `EventBus.OrderKeptIff`).
- The poll loop says it reports a lost daemon once and not on every retry
  (`osd/src/daemon.rs:284-287`); its guard is always true, so it reports every
  failed call (`OsdPoll.EachFailureReported`), and outages are reported once
  *exactly when* no two failed calls follow one another (`OsdPoll.ReportedOnceIff`).
  Where every reply announces a mode, the resets keep two daemons apart *exactly
  when* every restart shows (`OsdPoll.SeparatedIffDetected`): one after which the
  new daemon has already counted past the cursor does not (`OsdPoll.MissedRestart`).
  The widget's other thread posts to the same channel: with its messages in between,
  in any order, and as long as no key press has moved the highlight, the widget
  follows a daemon *exactly when* that daemon was the first to announce the greatest
  generation heard since the last reset
  (`OsdPoll.FollowsIff`), so that a late reply of the old daemon stays until
  something greater is announced (`OsdPoll.LateReplyBlocksIff`).
- One failed keep-alive, or one failed switch out of automatic, leaves the
  driver with no timer, and the firmware times out (`FanDriver.LapseIffTimeout`).
  The switch to manual ignores the lower speed limit and can store the level
  that means "automatic" (`FanDriver.SwitchCollapses`). An apply that returns
  zero has put its levels in force *exactly when* the firmware accepted them or
  held them already: a positive code from it passes for success
  (`FanDriver.AppliedInForce`, `FanDriver.RefusedButReported`).
- `trace` loops for ever *exactly when* the path can be split before a `Z` that is
  followed by something that is no command, with all in front of it consumed
  (`IconPath.HangsIff`, `IconPath.SpinsForever`).
- "Ids that have aged out of the history can never return"
  (`app/src/lib/stores/notifications.svelte.ts:311-312`): times are whole seconds,
  and a notice that has fallen off the end comes back *exactly when* it is no older
  than the oldest one held (`Notifications.ComesBackIff`), then unread although it
  had been read (`Notifications.TieComesBackUnread`).
- A debounced write is lost *exactly when* the next edit comes under its key
  before any timer or flush (`FanPush.NeverSentIff`); as the key is per fan, that
  loses a curve to a manual speed (`FanPush.CurveEditLost`). A mode clicked is
  overridden by an older write *exactly when* one was waiting at the click and no
  edit under its key replaced it in time (`FanPush.ClickOvertakenIff`).
- The order of a curve's points matters *exactly when* two of them share a
  temperature and differ (`FanCurve.OrderIgnoredIff`).

The comment at `daemon/ctl/src/args.rs:107-108` says the last word of a path may
become a positional. The code has no such step; the model follows the code, in
which every word before the first option is part of the path
(`Args.RenderedParses`).

## Model

| member | source | states |
|---|---|---|
| AcpiGate.StepKeeps | daemon/crates/core/src/acpi.rs:290-392 | Every step of a caller, the worker, an unwinding panic, another program or the clock keeps the gate's invariant: who holds the marker and the lock, where every job is, whose answer is whose |
| AcpiGate.OnePairOpen | daemon/crates/core/src/acpi.rs:370-392 | In every run at most one write/read pair is open among all workers ever started, and while one is open and the lock file exists, this process holds the lock |
| AcpiGate.OwnAnswer | daemon/crates/core/src/acpi.rs:290-318 | In every run with a lockable file, each successful call got the firmware's answer to its own request, which was written exactly once |
| AcpiGate.OthersHearTheirOwn | daemon/crates/core/src/acpi.rs:394-439 | A program that takes the same lock always reads the answer to its own write |
| AcpiGate.OwnAnswersIffLockable | daemon/crates/core/src/acpi.rs:405-417 | Replies are never mixed up in any run if and only if the lock file can be opened; the mix-up is a concrete run |
| AcpiGate.TornReached | daemon/crates/core/src/acpi.rs:412-416 | The run without a lock file that hands a caller another program's answer |
| AcpiGate.WaiterOutlastsDeadline | daemon/crates/core/src/acpi.rs:342-358 | A job a worker holds before its deadline still has its caller waiting, who gives up no earlier than the deadline |
| AcpiGate.TimelyWriteHasWaiter | daemon/crates/core/src/acpi.rs:352-392 | In every reachable state a write taken before its job's deadline has a caller who waits for it at least until the deadline |
| AcpiGate.LateWriteHappens | daemon/crates/core/src/acpi.rs:354-387 | For every timeout, with or without a lock file: a run in which a write follows its approval by a millisecond and the firmware answers it for a caller who has been told that it failed |
| AcpiGate.NoLateWriteIff | daemon/crates/core/src/acpi.rs:35-36 | With writes following their approval within `slack` milliseconds, no run writes for a caller who has been told, if and only if `slack` is zero |
| AcpiGate.StuckIsALateExchange | daemon/crates/core/src/acpi.rs:91-127 | `stuck()` is true exactly while the newest worker is inside, or unwinding out of, an exchange past its deadline; so never when it is idle, resting, dropping late jobs or dead |
| AcpiGate.CannotWedge | daemon/crates/core/src/acpi.rs:98-127 | From any moment at which calls are refused as stuck, in every continuation - others calling, locking, waiting, the worker panicking - six effective moves of the worker are enough for the refusals to have ended |
| AcpiGate.ShortWayOut | daemon/crates/core/src/acpi.rs:98-127 | From there, five moves of the worker, one of them the firmware returning, suffice without anybody's help |
| AcpiGate.GapBetweenExchanges | daemon/crates/core/src/acpi.rs:344-351 | Two exchanges of one worker are at least the minimum gap apart |
| AcpiGate.EnteringRefusedIff | daemon/crates/core/src/acpi.rs:290-295 | A call made while the newest worker is inside, or unwinding out of, an exchange past its deadline is returned at once with the error for that; a call made in any other reachable state is not refused there |
| AcpiGate.RefusedForever | daemon/crates/core/src/acpi.rs:290-295 | And it stays returned so in every continuation: its request is in no inbox, in no worker's hands and never in the log |
| AcpiGate.SubmittedTo | daemon/crates/core/src/acpi.rs:320-340 | A submitted job is last in the inbox of the worker there is, or first in that of a new one when that is gone, or returned with an error when none can be started; nothing else changes |
| AcpiGate.TimesAreSet | daemon/crates/core/src/acpi.rs:296-304 | A job's deadline and its caller's patience are the timeout from the moment each is set |
| AcpiGate.WaiterReturns | daemon/crates/core/src/acpi.rs:304-318 | A waiting caller returns what it was sent, or a timeout once its patience is over, or that the worker is gone when nobody holds its job; and in no other way |
| AcpiGate.ErrorsAreTrue | daemon/crates/core/src/acpi.rs:290-392 | In every run an error means what it says: a timeout, a late drop or a lock failure is reported only once the deadline has passed, and after a refusal, a late drop or a lock failure the request is not in the log |
| AcpiGate.PanicUnwinds | daemon/crates/core/src/acpi.rs:114-127 | A worker that panics with a job in hand, unwound to its end, has given back the lock and the marker and lost its inbox, and nothing else has changed |
| AcpiGate.OtherPair | daemon/crates/core/src/acpi.rs:394-439 | Another program that takes the free lock, writes and reads back hears the answer to its own request and leaves the lock free |
| AcpiGate.ResultIs | daemon/crates/core/src/acpi.rs:386-391 | A caller is handed the firmware's text without the NULs and blanks around it, and an error as it is |
| AcpiWorker.Thread.Acquire | daemon/crates/core/src/acpi.rs:402-428 | Whatever another program is doing under the lock, the loop obtains it if and only if there is no lock file, or it is free, or the other lets go before a try at or past the deadline; else it returns past the deadline with the other still holding it; each try is a step of the machine |
| AcpiWorker.Thread.Exchange | daemon/crates/core/src/acpi.rs:370-392 | The exchange, however it fails, is a run of the machine that gives the lock back; it adds to this program's log entries its own request with the answer, or nothing if it never wrote; with the lock obtained the reply of the firmware is the answer, and a failed open, write or read is the error, and without it the error is that the lock is held |
| AcpiWorker.Thread.Serve | daemon/crates/core/src/acpi.rs:344-366 | A job is dropped late if and only if its deadline has passed when it is looked at; otherwise it is sent what the exchange gives; the time, the end of the last exchange and the lock afterwards are given exactly |
| AcpiWorker.Thread.Work | daemon/crates/core/src/acpi.rs:342-367 | Serving a whole inbox is a run of the machine that ends idle with an empty inbox and no marker; every job has been sent its reply, and the writes stand in the log in the order of the jobs, each with the answer its caller got; every reply is the one its job is owed |
| AcpiWorker.RepliesOwed | daemon/crates/core/src/acpi.rs:342-428 | What each job is owed: looked at as soon as its wait and 8 ms since the last exchange allow; dropped late exactly when its deadline has passed by then; failed for the lock exactly when no try is left before the deadline, and then the deadline has just passed; otherwise answered with the firmware's reply, exactly |
| AcpiCodec.WmiRequest | daemon/crates/core/src/acpi.rs:496-512 | The printed request is `b` and the hex of header and payload |
| AcpiCodec.HeaderFields | daemon/crates/core/src/acpi.rs:496-504 | Signature, command, type and size stand little-endian in the first 16 bytes, the size cut to 32 bits, and the payload cut or zero-padded behind them |
| AcpiCodec.RequestRoundTrip | daemon/crates/core/src/acpi.rs:487-607 | Reading a printed request back gives its buffer |
| AcpiCodec.HexTokens | daemon/crates/core/src/acpi.rs:612-632 | The index scan finds exactly the tokens that the definition by suffixes gives |
| AcpiCodec.FromHexOfHex | daemon/crates/core/src/acpi.rs:634-647 | Bytes printed as hex are read back, except that nothing is read from no bytes |
| AcpiCodec.DigitsAre | daemon/crates/core/src/acpi.rs:634-647 | The hex digits of either case, what they are worth, and that nothing else is one |
| AcpiCodec.FromHexIff | daemon/crates/core/src/acpi.rs:634-647 | A blob gives bytes if and only if it spells them, two digits each; nothing, an odd length or any other character gives none |
| AcpiCodec.ListRoundTrip | daemon/crates/core/src/acpi.rs:583-595 | Every non-empty `{0xNN, ...}` list, with any separator of blanks and commas and with prefixes and digits of either case, parses to its bytes |
| AcpiCodec.ItemsAre | daemon/crates/core/src/acpi.rs:506-510 | Bytes printed two lowercase digits each are such a list |
| AcpiCodec.TokenBytesIff | daemon/crates/core/src/acpi.rs:583-595 | A list is taken if and only if every one of its numbers fits a byte, and then it is those numbers |
| AcpiCodec.BlobAnyhow | daemon/crates/core/src/acpi.rs:597-606 | Braces and blanks around a blob and blanks within it make no difference: it is read as its digits, less one `b` in front |
| AcpiCodec.BlanksDropped | daemon/crates/core/src/acpi.rs:602-605 | Blanks and NULs are dropped wherever they stand, and nothing else is |
| AcpiCodec.BlanksAround | daemon/crates/core/src/acpi.rs:577-579 | Blanks around any reply make no difference |
| AcpiCodec.NothingRead | daemon/crates/core/src/acpi.rs:577-581 | A reply of nothing but blanks has no bytes |
| AcpiCodec.BareBlob | daemon/crates/core/src/acpi.rs:597-606 | A bare lowercase blob comes back if its first digit is not `b`, and otherwise nothing does |
| AcpiCodec.PrefixedBlob | daemon/crates/core/src/acpi.rs:586-606 | A `0x` blob comes back if and only if it is one byte long or some byte before the last is nonzero; otherwise just the last byte does |
| ConfigStore.RunKeeps | daemon/crates/config/src/lib.rs:184-388 | Every interleaving of system calls, deaths, power losses and saves of a newer build keeps the store's invariant |
| ConfigStore.AtomicRegister | daemon/crates/config/src/lib.rs:184-382 | The store is an atomic register: its documents follow one another by saves, moves of corrupt documents and newer builds only; whoever made a version reports just that or has died, so that no save or load with another outcome touched the document; and each outcome is true of a version current between its operation's start and return |
| ConfigStore.RealTimeOrder | daemon/crates/config/src/lib.rs:184-382 | An operation that starts after another has returned speaks of the same version or a later one, and after a save of what it wrote or something later |
| ConfigStore.LoadedWasStored | daemon/crates/config/src/lib.rs:184-297 | A loaded value is the initial one or one that a save put there |
| ConfigStore.NewerStays | daemon/crates/config/src/lib.rs:213-222 | A newer build's document, once there, is never replaced or moved by this build |
| ConfigStore.OnlyCorruptIsMoved | daemon/crates/config/src/lib.rs:229-295 | Only a document that does not parse is ever renamed aside, whatever happened between the two reads |
| ConfigStore.TargetIsWhole | daemon/crates/config/src/lib.rs:351-381 | At every moment the target is a complete, synced document: the initial one, one a save wrote whole, or a newer build's; and so is every document it ever was, should a file system take renames back |
| ConfigStore.SaveIsAtomic | daemon/crates/config/src/lib.rs:309-382 | A save stopped after any prefix of its steps leaves the target as it was or as the complete new document |
| ConfigStore.NextSaveSucceeds | daemon/crates/config/src/lib.rs:309-423 | After any run, once the lock's holder is gone and no newer build owns the file, the next save succeeds |
| ConfigStore.DeathFreesLock | daemon/crates/config/src/lib.rs:391-423 | The death of the lock's holder frees the lock and touches no document |
| ConfigStore.CorruptLostIff | daemon/crates/config/src/lib.rs:229-388 | In any run with any failures, deaths and power losses, a document corrupt to begin with is in no file any more if and only if the first change to the target was not a load moving it aside |
| ConfigStore.LostUnlessRecovered | daemon/crates/config/src/lib.rs:229-388 | Once a save has succeeded and nobody died half way, it is lost if and only if no load has recovered it |
| ConfigStore.NextLoadRecovers | daemon/crates/config/src/lib.rs:229-294 | After any run, once the lock's holder is gone, the next load of a corrupt document moves it aside |
| ConfigStore.Namespace.Save | daemon/crates/config/src/lib.rs:309-382 | The save as written is a run of the machine; its outcome and the files it leaves are given for each call that may fail: refused as a newer document exactly when the version found is, and otherwise failed exactly when a call failed or the value does not serialise |
| ConfigStore.Namespace.Load | daemon/crates/config/src/lib.rs:184-297 | The load as written, with its second look under the lock, is a run of the machine; its outcome and what happens to the files are given for each call that may fail and whatever others did in between |
| ConfigStore.VerdictIs | daemon/crates/config/src/lib.rs:193-229 | A version beyond this build's decides alone, even where the rest does not parse; then the document counts if it parses, and only a text that does neither is corrupt |
| ConfigStore.WorldMoves | daemon/crates/config/src/lib.rs:319-344 | A newer build replaces the document whole while nobody holds the lock; a power loss ends whoever is at work, frees the lock and spoils only what had not reached the disk |
| EventBus.PushKeepsRing | daemon/crates/core/src/events.rs:170-188 | The ring stays exactly the newest 64 of all events, with the sequence numbers `oldest+1..latest` |
| EventBus.Bus.Push | daemon/crates/core/src/events.rs:171-188 | The push and eviction loop makes that ring and the next sequence number |
| EventBus.Bus.Publish | daemon/crates/core/src/events.rs:170-202 | Every listener is called once with the event, in the order they subscribed, and the ring takes it |
| EventBus.Bus.ReadSince | daemon/crates/core/src/events.rs:216-242 | However the wait is interrupted, the answer is the batch of the ring at the first moment something is newer than the cursor, or when the time is up |
| EventBus.BatchAccounts | daemon/crates/core/src/events.rs:244-260 | A batch is everything after the cursor still held; with `missed` it accounts for every event up to the new cursor |
| EventBus.CursorStream | daemon/crates/core/src/lib.rs:388-418 | For any interleaving of publishes with a client feeding `seq` back, batches joined are strictly increasing without duplicates, delivered plus missed is the cursor's advance, and only events out of the ring were passed over |
| EventBus.StaleCursor | daemon/crates/core/src/events.rs:226-234 | A cursor beyond the bus is answered with nothing and brought back to the present |
| EventBus.StartsFromNow | daemon/crates/core/src/lib.rs:388-400 | Over all interleavings, a client's stream starts at the number of events published before its first poll: every event it is handed was published after that poll, with its own number, topic and payload, and what is delivered or counted as missed is no more than was published since |
| EventBus.AnswerCatchesUp | daemon/crates/core/src/lib.rs:388-418 | Whenever a poll is answered the cursor is the number of events published, and what was published since the first poll and is among the newest 64 has been handed out |
| EventBus.Bus.NextEvent | daemon/crates/core/src/lib.rs:388-418 | A poll without a cursor is answered from the newest event there was; without a wait it lasts 25 s, and never over 60 s; a malformed cursor or wait is refused and changes nothing |
| EventBus.ListenersMissNothing | daemon/crates/core/src/events.rs:189-201 | With any threads publishing and subscribing, no listener is called twice for one publish, and one that subscribed before it has been called once when the publish is over |
| EventBus.HeardInOrder | daemon/crates/core/src/events.rs:170-202 | If each publish enters the ring only when all earlier ones are over, every listener hears events in the order of publication |
| EventBus.OrderKeptIff | daemon/crates/core/src/events.rs:189-200 | With up to `n` publishes unfinished at once, order is kept in every run if and only if `n` is at most one |
| OsdPoll.ModeTracker.Accepts | osd/src/daemon.rs:75-86 | Accepts a generation above the last, or an un-versioned update while none is known, and remembers accepted generations |
| OsdPoll.Listen | osd/src/main.rs:125-158 | The message loop shows what folding the messages over tracker and highlight gives, key presses included |
| OsdPoll.NewestShown | osd/src/daemon.rs:74-91 | After any deliveries since a reset the tracker holds the greatest generation and the screen the mode delivered first with it; with none versioned, the screen follows the last |
| OsdPoll.OrdersAgree | osd/src/daemon.rs:74-91 | Any two delivery orders of the same commits end at the same display |
| OsdPoll.LossyOrdersAgree | osd/src/daemon.rs:74-91 | So do two lossy, repeated deliveries once the newest commit heard is the same, and that commit's mode is shown |
| OsdPoll.OrderMattersIff | osd/src/daemon.rs:74-91 | The order is irrelevant if and only if some update is versioned or all name one mode |
| OsdPoll.Poller.Poll | osd/src/daemon.rs:225-305 | One round sends what it must, in order: reconnection, reset and state after a restart, events; or unreachability and reset after a failure |
| OsdPoll.Poller.PollEach | osd/src/daemon.rs:214-305 | The cursor and all messages of any number of rounds |
| OsdPoll.SentSeparates | osd/src/daemon.rs:243-301 | If every change of daemon shows as a failed call or a smaller sequence number, a reset stands between any two announcements of different daemons |
| OsdPoll.SeparatedIffDetected | osd/src/daemon.rs:243-301 | Where the first push and every answered round announce a mode, the resets keep daemons apart if and only if every change of daemon shows |
| OsdPoll.NothingWithheld | osd/src/daemon.rs:231-281 | An answered round adds to all that was sent before it its preface - a greeting with the present state after a failed call and at the start, a reset with the present state when the daemon's number is behind the last it gave, and nothing otherwise - and then exactly one message for each event the widget can read, saying what the event says, in order |
| OsdPoll.CursorIsLastNumber | osd/src/daemon.rs:243-302 | The cursor is the number in the last reply that had one, and there is none before the first such reply after a failed call |
| OsdPoll.HighlightMoves | osd/src/main.rs:131-156 | A press moves the highlight whatever the tracker holds, and so does a key with the window hidden but not one that dismisses it; a reset and every other message leave it |
| OsdPoll.WidgetFollowsDaemon | osd/src/daemon.rs:207-306 | End to end: across restarts, failures and reordering the widget shows the mode committed under the greatest generation heard from the present daemon |
| OsdPoll.EachFailureReported | osd/src/daemon.rs:283-301 | Each failed call sends one unreachable message and one reset, there and then |
| OsdPoll.EveryFailureReported | osd/src/daemon.rs:247-301 | There are exactly as many unreachable messages as failed calls, and as many resets as failed calls and restarts that show |
| OsdPoll.ReportedOnceIff | osd/src/daemon.rs:283-293 | There are as many reports as outages if and only if no two failed calls follow one another |
| OsdPoll.MissedRestart | osd/src/daemon.rs:243-258 | A restart unseen because the new daemon counted past the cursor: no reset, and the new daemon's announcement is refused |
| OsdPoll.FollowsIff | osd/src/daemon.rs:117-144 | With the messages of both threads in any order, and no key press that moved it since the last reset, the highlight comes from a daemon if and only if that daemon was the first to announce the greatest generation heard since the last reset |
| OsdPoll.LateReplyBlocksIff | osd/src/daemon.rs:136-144 | A late reply posted after the reset stays on screen and in the tracker if and only if nothing announced since has a greater generation |
| FanDriver.ThereAndBack | driver/hp-wmi-omen/hp-wmi.c:869-877 | A speed sent through the pwm scale and back is exact if the maximum divides 255 times it, and otherwise one less |
| FanDriver.ToldInRange | driver/hp-wmi-omen/hp-wmi.c:1151-1176 | The firmware is told a speed from one under the lower limit to the maximum, never the automatic one once the limit is at least two |
| FanDriver.NeverAutomaticIff | driver/hp-wmi-omen/hp-wmi.c:3513-3532 | With the lower limit at most the maximum, no write whatever tells the firmware "automatic" if and only if the lower limit is at least two, or is one and the maximum divides 255 |
| FanDriver.PinnedAtMaximum | driver/hp-wmi-omen/hp-wmi.c:3516-3522 | A lower limit above a fan's maximum pins the fan at its maximum |
| FanDriver.SwitchCollapses | driver/hp-wmi-omen/hp-wmi.c:3538-3552 | The switch to manual tells "automatic" exactly for an idle fan, or for one hundred revolutions under a maximum that does not divide 255 |
| FanDriver.ReadTable | driver/hp-wmi-omen/hp-wmi.c:3648-3673 | The table loop finds the least CPU speed and the greatest of each column before the first all-zero row |
| FanDriver.TableIs | driver/hp-wmi-omen/hp-wmi.c:843-857 | The table is 128 bytes: behind two of header, 42 rows of a CPU speed, a GPU speed and a noise level |
| FanDriver.LimitsFitCpu | driver/hp-wmi-omen/hp-wmi.c:3675-3687 | Whatever the table, the lower limit is at most the CPU fan's maximum |
| FanDriver.FanDriver.constructor | driver/hp-wmi-omen/hp-wmi.c:3598-3688 | Setup ends in automatic with the table's limits, the reported maximum or the defaults |
| FanDriver.FanDriver.ApplyFanSettings | driver/hp-wmi-omen/hp-wmi.c:3380-3421 | Applying a mode: which queries are sent, what each failure leaves, when the timer is armed or cancelled |
| FanDriver.FanDriver.HwmonWrite | driver/hp-wmi-omen/hp-wmi.c:3504-3562 | A write to a pwm file: levels clamped, truncated to a byte as C does, modes switched, unknown values refused |
| FanDriver.Applied | driver/hp-wmi-omen/hp-wmi.c:3380-3421 | A failed apply leaves the timer alone; a successful one triggers now and arms it for 90 s, or clears it in automatic; neither moves mode or limits |
| FanDriver.ZeroReturn | driver/hp-wmi-omen/hp-wmi.c:3380-3421 | Exactly which answers of the firmware make an apply return zero, in each mode and on boards with and without fan control |
| FanDriver.ModesDo | driver/hp-wmi-omen/hp-wmi.c:3380-3421 | What an apply that returns zero has done on any board: maximum is switched and no speed told; manual tells the levels; automatic resets them and tells the automatic speed, or only ends maximum without fan control; the timer runs out 90 s later, and not at all in automatic |
| FanDriver.FailureLeaves | driver/hp-wmi-omen/hp-wmi.c:3380-3421 | The first query that fails gives the code; what was done before it stays, nothing is tried after it, and mode, limits and timer are untouched |
| FanDriver.LevelTold | driver/hp-wmi-omen/hp-wmi.c:3513-3532 | In manual a level write tells this fan the level's share of the maximum, rounded down and brought within the limits, or one step less where the scale does not divide, and the other fan its present level; a value is cut to its last eight bits |
| FanDriver.LevelRises | driver/hp-wmi-omen/hp-wmi.c:3513-3532 | Over the whole scale the speed told never falls as the level rises; 255 tells the maximum, and 0 the lower limit or one step less |
| FanDriver.LevelKept | driver/hp-wmi-omen/hp-wmi.c:3513-3532 | Outside automatic a written level is kept whether or not it could be applied, and told later it is told as above |
| FanDriver.SwitchTells | driver/hp-wmi-omen/hp-wmi.c:3536-3553 | The switch to manual tells each fan its measured speed in whole hundreds, cut to a byte and at most its maximum, or one step less; a fan that could not be measured keeps its level |
| FanDriver.LegacyWrites | driver/hp-wmi-omen/hp-wmi.c:3525-3532 | A board without fan control keeps a level as written, cut off at both ends, and in manual is told its share of the maximum |
| FanDriver.LegacySwitch | driver/hp-wmi-omen/hp-wmi.c:3533-3556 | And a switch of the mode leaves such a board's levels alone |
| FanDriver.TimersWork | driver/hp-wmi-omen/hp-wmi.c:3579-3596 | Once its time has come a timer's work can start, leaves the timer, applies the settings there are and is over |
| FanDriver.AppliedInForce | driver/hp-wmi-omen/hp-wmi.c:1151-1195 | What a zero return leaves: flat out only in maximum; otherwise the levels told, and in force if and only if the firmware accepted them or held just those before |
| FanDriver.RefusedButReported | driver/hp-wmi-omen/hp-wmi.c:3397-3403 | Any positive code from the speed query leaves the fans as they were while the apply returns zero |
| FanDriver.WriteMoves | driver/hp-wmi-omen/hp-wmi.c:3504-3562 | A write moves the mode exactly as asked even when applying it fails; an unknown mode is refused with -22 and an unsupported file with -95, changing nothing; a level write leaves the other fan's level |
| FanDriver.KeptAlive | driver/hp-wmi-omen/hp-wmi.c:859-863 | At every moment of every run without a lapse, with delayed work under 30 s late, maximum or manual means a trigger less than 120 s ago |
| FanDriver.LapseIffTimeout | driver/hp-wmi-omen/hp-wmi.c:983-999 | A step can be followed by a wait in which the firmware times out if and only if it is an apply that fails outside automatic with no timer behind it |
| FanDriver.SuccessIsSafe | driver/hp-wmi-omen/hp-wmi.c:3579-3596 | When every apply succeeds the firmware never times out, and in automatic no timer is pending and a keep-alive still under way sets none |
| FanDriver.AutomaticStays | driver/hp-wmi-omen/hp-wmi.c:3404-3416 | Nothing but a write of the mode ends calm in automatic |
| FanDriver.KeepAliveReapplies | driver/hp-wmi-omen/hp-wmi.c:3579-3596 | A keep-alive that runs after a mode change re-applies what is set by then and never moves mode or limits |
| FanDriver.ManualRun | driver/hp-wmi-omen/hp-wmi.c:3504-3532 | On any board and for each fan on its own: over any run of level writes, keep-alives and waiting in manual, every speed told lies from one under `low` to the fan's maximum, and is not automatic once `low` is two |
| FanDriver.WriteFits | driver/hp-wmi-omen/hp-wmi.c:3515-3524 | A write to a fan, wherever its level was, allows any `low` up to the lower limit and the fan's own maximum |
| FanDriver.ManualStarts | driver/hp-wmi-omen/hp-wmi.c:3538-3552 | Any board in manual, whatever levels it came with, starts such a run with `low` at zero |
| IconPath.Tokens.Number | osd/src/icon.rs:161-179 | The cursor scan reads the number the definition on the remaining text gives |
| IconPath.Trace | osd/src/icon.rs:53-122 | The loop draws what walking the path gives, or reports where it would never end |
| IconPath.TurnsShorten | osd/src/icon.rs:59-121 | Every turn of the loop consumes text, unless an outline was just closed and no command follows |
| IconPath.EndsIff | osd/src/icon.rs:115-118 | The loop ends if and only if it never meets a token that is no command right after closing an outline |
| IconPath.SpinsForever | osd/src/icon.rs:115-118 | Met there, it closes the outline again for ever |
| IconPath.HangsIff | osd/src/icon.rs:53-122 | A path hangs the walk if and only if it can be split before a closing letter that is followed, past separators, by no command, with all in front of it consumed |
| IconPath.TerminatesOn | osd/src/icon.rs:53-122 | A text in which every `Z` is followed by a command or the end is always walked to an end |
| IconPath.WalkedMeans | osd/src/icon.rs:69-120 | The walk of a text draws the meaning of its segments |
| IconPath.PenFollows | osd/src/icon.rs:72-118 | The pen always is where the drawing so far leaves it: at the end of the last operation, or after a close at the last move's point |
| IconPath.SpelledOut | osd/src/icon.rs:60-68 | A path with its implied commands spelled out draws the same, and its walk ends |
| IconPath.RewrittenAbsolute | osd/src/icon.rs:70-113 | A path rewritten to absolute commands draws the same, number by number |
| IconPath.ParseRender | osd/src/icon.rs:132-184 | Segments written out are read back as they were |
| IconText.NumberMeans | osd/src/icon.rs:161-179 | Read in front of anything that cannot continue it, a number in any form - separators, a sign, digits with at most one point among, before or behind them - gives its value and leaves the rest |
| IconText.MeantValue | osd/src/icon.rs:161-179 | By value a number is its whole part and its fraction; `-` negates and `+` does not |
| IconText.PlaceValue | osd/src/icon.rs:161-179 | A digit in front is worth its place |
| IconText.NoNumber | osd/src/icon.rs:161-179 | A sign or a point alone, or a run with two points, is no number, and is consumed all the same |
| IconText.AddValue | osd/src/icon.rs:76-90 | Adding decimals, as relative commands do, adds their values |
| IconText.TextMeans | osd/src/icon.rs:59-121 | Any text of commands, with whatever separators, number forms and omitted letters, is read as the segments its letters and numbers name, and then as what follows; a pair after a move is a line |
| IconText.TextDraws | osd/src/icon.rs:49-121 | Such a text draws what its segments mean, up to its end or the first thing that is no command |
| IconText.TooFewNumbers | osd/src/icon.rs:71-113 | A command with too few numbers draws nothing and ends the drawing |
| IconText.SegmentLeads | osd/src/icon.rs:70-119 | Where a segment leads, by value: an absolute one to its own numbers, a relative one that far from the pen; across and down keep the other coordinate; closing leads back; only a move begins an outline |
| IconText.SegmentDraws | osd/src/icon.rs:70-119 | What it draws: a move, line or curve to where it leads, with control points measured from the same place, or the closing stroke |
| IconText.RepeatedPairDraws | osd/src/icon.rs:60-68 | A move with a second pair behind it draws a line there |
| IconText.SourceExample | osd/src/icon.rs:60-61 | `M12 3 21 12` moves to (12, 3) and draws a line to (21, 12) |
| Wrap.WrapText | daemon/check/src/main.rs:212-229 | The loop prints the lines of the greedy split |
| Wrap.Wrapped | daemon/check/src/main.rs:211-229 | The lines hold the words of the text in order and nothing else, each within the width or a single word, and no in-order split keeping to that has fewer |
| Wrap.StaysAhead | daemon/check/src/main.rs:216-224 | No split of any text uses fewer lines than the greedy one, nor as few with a shorter last line |
| Wrap.WordsOfJoin | daemon/check/src/main.rs:216-223 | Splitting a line gives back the words it was joined from |
| Wrap.WordsOfWoven | daemon/check/src/main.rs:216 | Whatever blanks stand between and around words, the text is split into those words |
| Wrap.JoinIs | daemon/check/src/main.rs:220-223 | A line is its words with one blank between each two |
| Wrap.LenIsBytes | daemon/check/src/main.rs:217 | A length is the number of bytes of the text in UTF-8 (section 3 of RFC 3629) |
| IpcLog.Recorder.Record | daemon/crates/core/src/debuglog.rs:297-382 | One call's effect on streaks and lines |
| IpcLog.Lossless | daemon/crates/core/src/debuglog.rs:297-382 | For every method, its lines expanded in order and then what an open run holds back are exactly the calls made to it; every line is true of the calls it stands for, there is one opening line for each run, and a summary only of a whole run that another call ended or that lasted fifteen seconds, written when that was noticed |
| IpcLog.SummariesAreTrue | daemon/crates/core/src/debuglog.rs:361-375 | Every summary's minimum, maximum and average are those of all calls of its run, and the average lies between |
| IpcLog.GrowsByItsOwn | daemon/crates/core/src/debuglog.rs:297-382 | The transcript only grows, by at most two lines a call, and those are about the call's own method |
| Notifications.History.Ingest | app/src/lib/stores/notifications.svelte.ts:265-271 | A record whose id is held changes nothing; another is sorted in and the fifty newest kept |
| Notifications.History.ObserveFanStatus | app/src/lib/stores/notifications.svelte.ts:157-174 | A replay, unless suppressed, ingests every notice and prunes the read marks |
| Notifications.History.ClearAll | app/src/lib/stores/notifications.svelte.ts:236-242 | Clearing drops records and marks and suppresses replays for six seconds |
| Notifications.HistoryIsNewest | app/src/lib/stores/notifications.svelte.ts:157-271 | With one distinct time per id, after any run the records are exactly the fifty newest distinct notices ingested since the last clear, newest first |
| Notifications.OrderDoesNotMatter | app/src/lib/stores/notifications.svelte.ts:265-271 | Histories that saw the same notices, in any order and repetition, list the same ids in the same order |
| Notifications.ComesBackIff | app/src/lib/stores/notifications.svelte.ts:311-318 | A notice that is not in a full history can come back under some further ingests if and only if it is no older than the oldest record held |
| Notifications.TieComesBackUnread | app/src/lib/stores/notifications.svelte.ts:265-271 | A notice driven out by others of its second comes back with the next replay, unread after a poll has pruned its mark, and drives out the oldest |
| Notifications.AgedOutStaysOut | app/src/lib/stores/notifications.svelte.ts:311-318 | Where ids have distinct fixed times, a notice that fell off the end stays out of every further ingest that keeps its time |
| Notifications.AlwaysInOrder | app/src/lib/stores/notifications.svelte.ts:267-269 | After any run and whatever the times, the history is newest first and holds at most fifty |
| Notifications.PruningIsInvisible | app/src/lib/stores/notifications.svelte.ts:311-318 | After a poll every read id has a record, and pruning did not change the unread count |
| Notifications.OpeningReads | app/src/lib/stores/notifications.svelte.ts:125-233 | Opening the panel clears the count, and the rows shown unread are exactly those that were |
| Notifications.ReplayTakenIff | app/src/lib/stores/notifications.svelte.ts:157-242 | After any run, a replay is ignored if and only if it comes within six seconds of the last clear, and before any clear never; otherwise every notice of it is taken in and marks without a record are dropped |
| Notifications.ByHand | app/src/lib/stores/notifications.svelte.ts:223-242 | Clearing empties the history and its marks and keeps the panel as it is; read by hand the count is zero and the records stay; closing forgets only which rows were new |
| Notifications.ArrivalsCount | app/src/lib/stores/notifications.svelte.ts:136-138 | A new notice raises the unread count by one if it is unread, and lowers it by one if the oldest, driven out of a full history, was; it falls if and only if a read one drives an unread one out |
| FanPush.FanPusher.PushFanSoon | app/src/lib/stores/hardware.svelte.ts:681-698 | An edit sends a pending write of the other key, then waits in its place |
| FanPush.FanPusher.FlushNow | app/src/lib/stores/hardware.svelte.ts:703-712 | A flush sends what is pending and disarms the timer |
| FanPush.EveryWriteAccounted | app/src/lib/stores/hardware.svelte.ts:681-712 | In every run at most the newest write is pending, sent writes are in submission order and none twice, and every write is sent, pending, or replaced by the very next one under its key |
| FanPush.FlushLeavesNothing | app/src/lib/stores/hardware.svelte.ts:700-712 | After a flush every write was sent or so replaced |
| FanPush.NeverSentIff | app/src/lib/stores/hardware.svelte.ts:681-712 | A write is not sent even by a final flush if and only if the next edit came under its key before any timer or flush |
| FanPush.CurveEditLost | app/src/lib/stores/hardware.svelte.ts:417-455 | After any history, a curve edit is lost to the manual speed set within its delay |
| FanPush.ClickOvertakenIff | app/src/lib/stores/hardware.svelte.ts:407-420 | A write submitted before a click goes out after it if and only if one was waiting at the click and no edit under its key came before the next timer or flush |
| FanCurve.CurveValueAt | app/src/lib/stores/hardware.svelte.ts:724-740 | The search answers what the curve asks for, divides only by nonzero differences and never falls through |
| FanCurve.OneAnswer | app/src/lib/stores/hardware.svelte.ts:731-738 | The curve asks for one value at each temperature, repeated temperatures included |
| FanCurve.StraightLines | app/src/lib/stores/hardware.svelte.ts:724-740 | No points ask for zero; else, with the points in order, the value is level outside them and on the straight line between two neighbours inside |
| FanCurve.AtItsPoints | app/src/lib/stores/hardware.svelte.ts:724-740 | At a point's temperature the curve asks for its percent, unless another point there says otherwise |
| FanCurve.WithinPoints | app/src/lib/stores/hardware.svelte.ts:724-740 | The value lies between the smallest and the largest percent |
| FanCurve.Monotone | app/src/lib/stores/hardware.svelte.ts:724-740 | Where percents rise with temperatures, so does the value |
| FanCurve.OrderIgnored | app/src/lib/stores/hardware.svelte.ts:726 | The order of the points does not matter when points at one temperature agree |
| FanCurve.OrderIgnoredIff | app/src/lib/stores/hardware.svelte.ts:726-739 | Every order of a curve's points asks for the same at every temperature if and only if points that share a temperature agree |
| Args.Parse | daemon/ctl/src/args.rs:53-110 | The index loop gives the command its tokens mean, or the error for a lone `--` |
| Args.ErrorIff | daemon/ctl/src/args.rs:66-68 | Parsing fails if and only if `--` stands alone somewhere on the line |
| Args.LineMeans | daemon/ctl/src/args.rs:69-104 | In whatever order they stand: the path is the words before the first option, the positionals are those after it, each option has the value given last, and the flag is set if named, with an empty entry of its own |
| Args.LexCut | daemon/ctl/src/args.rs:82-96 | A command line cut anywhere but between an option and its value means what its halves mean |
| Args.EqualsFormIsTheSame | daemon/ctl/src/args.rs:81-95 | `--name=value` and `--name value` mean the same anywhere on the line |
| Args.BareFormIsTheSame | daemon/ctl/src/args.rs:87-95 | An option with no word to take means the same as one with an empty value |
| Args.JsonAnywhereBut | daemon/ctl/src/args.rs:69-79 | Inserting `--json` changes only the flag and its entry if and only if it is not put between an option and its value |
| Args.RenderedParses | daemon/ctl/src/args.rs:53-110 | A command written as path, `--k=v` options and positionals parses back to itself if and only if it has no positionals or some option |
| Args.OptionsInAnyOrder | daemon/ctl/src/args.rs:53-110 | A command written with its distinct options in another order parses to the same |

## Left out

- AcpiGate: callers, worker spawning and panics are steps of a machine on values, not methods on shared statics; only the worker loop is also given as code. Loading the kernel module, environment overrides and the sizing of procfs reads are left out; the register is a log of answers.
- AcpiGate.CannotWedge: the firmware returning is one of the moves; an exchange that never returns keeps its marker, as the source intends.
- AcpiGate.GapBetweenExchanges: holds within one worker's lifetime only; a replacement worker starts without a gap.
- AcpiWorker.Thread.Work: one thread without panics, and one other program that keeps the lock for a bounded number of tries from before the first job on; the machine has the general case.
- AcpiCodec: the status word that `wmi_call` checks in a reply, and the texts of its errors.
- ConfigStore: JSON is an abstract format that decides newer, valid or corrupt. Path discovery, ownership checks of the lock file and creation of the directory are left out.
- ConfigStore.AtomicRegister: a rename is taken to survive a power loss once it has happened, although the source does not sync the directory; a file system that takes one back ends at an earlier version, which is whole, but the register then forgets a save.
- ConfigStore.OnlyCorruptIsMoved: an earlier `.bad` file is overwritten by a later one, as in the source.
- ConfigStore.Namespace.Load: one operation at a time, with others' work in between as a parameter; the machine has the interleavings.
- EventBus: event ages, the JSON wire shape, and the 64-bit limit of sequence numbers.
- OsdPoll: a closed channel, which ends both threads; the debug switch that rides on the same stream; the widget's drawing and timers. Whether the window was hidden when a key press arrived is a parameter.
- OsdPoll.WidgetFollowsDaemon: speaks of the poll thread's messages, while no key press has moved the highlight and no reply of the command thread has been posted since the last reset.
- OsdPoll.SentSeparates: a round's reply and the state pushed with it come from one daemon, and the first reply comes from the daemon that answered the push before the loop.
- FanDriver.KeptAlive: firmware calls take no time of their own; the lateness bound covers them. An apply is one step, as the lock makes it.
- FanDriver: reading the files back (the measured speeds and the mode); the rest of the driver (profiles, LEDs, lightbar, input events, rfkill). `fixp_linear_interpolate` and `clamp_val` are kernel headers not in the repository, taken by their published definitions.
- IconPath: the drawing library's calls are a list of operations; numbers are exact decimals rather than floating point, and the text is characters, of which all outside ASCII are neither digits nor letters here as there.
- IpcLog: file rotation, write failures, the switch that turns logging off, and the 64-bit limit of the duration sum.
- Notifications: descriptions, translations, operating-system notifications and failures of local storage.
- Notifications.HistoryIsNewest: asks that every id has one fixed time and no two ids share one; ids and times are made elsewhere.
- FanCurve.CurveValueAt: numbers are reals, so rounding is not modelled, nor is a temperature that is not a number.
- FanPush.NeverSentIff: the delays themselves; a timer may fire at any moment after it is armed.
- Args: `parse_curve` and the conversions of option values; words are texts without an encoding.
- The fan, power, lighting, overclocking and installer crates, the desktop app's pages and the process plumbing: little of it is protocol or algorithm.
