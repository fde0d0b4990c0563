# Verified models of airuleset's stateful cores

This project models the parts of airuleset that keep state, race, or edit a user's files, and proves
what they are for. Everything is Dafny 4.11; `dafny verify dfyconfig.toml` checks it all.

| files | what they model |
|---|---|
| `BoxRecord`, `BoxTransitions`, `BoxInvariant`, `BoxLaws`, `BoxAnswers`, `BoxDebt`, `BoxFifo`, `BoxLease`, `BoxTake` | one transaction of the shared-box queue: the record, the commands in place, what each keeps and answers; and the loop of `take` |
| `RefreshProtocol`, `BoxWork`, `BoxRuns`, `BoxLog`, `BoxRecovery` | whole runs of it: lanes, refresh CLIs, inherited locks, deaths at any step, leftovers that nobody sees; what the decision log says of them; and that the box can always be brought back |
| `RefreshBudget`, `LockKill` | the refresh and health loops against the deadline; killing lock owners while pids are recycled |
| `MarkerTokens`, `MarkerBlocks`, `BlockAppliers`, `AppliedFiles`, `StripTwice`, `StripAcross` | managed blocks in a login file: scan, rewrite, what that does to the file, strip once and twice |
| `Lines`, `LegacyExport` | the line-based remover and the managed-line scan it shares with the drift report |
| `AutopilotLock`, `LockLitter` | the integration lock under interleaving, and the sweep of left-over locks |
| `WorkTree`, `Checkout` | the guarded fast-forward and reattach of a git checkout |
| `ForcedCommands`, `TranscriptMerge`, `ImportScan`, `SudoScripts` | re-rendered forced commands, the transcript merge, the import scan, script ownership |
| `Options`, `Seqs` | an option type; facts about concatenation |

How to read it:

- Code that changes things in place is a class or a method with loops, proved equal to a function of the
  same name or against a statement that does not mention its body. The lemmas are about those functions.
- A concurrent protocol is a step relation. A step may be any command step, a crash, a death, a fork or a
  recycled pid; the theorems are about every run.
- What a program reads from the system (clock, live pids, lock probes, git's answers, whether a read
  works at all) is a parameter and may be anything.

## What turned out not to hold

Each of these is stated with an example and with the exact condition under which the property does hold.

- *A damaged state file always ends in a refresh before the next take.* Not if the process dies after
  `_load_state` has moved the file aside and before `_save_state` writes the dirty record: the next
  transaction finds no file, which reads as pristine. `RefreshProtocol.SafeRunIff`: the box reads as
  usable precisely when no refresh is owed, at every moment of a run, if and only if the run is without
  that death.
- *Nobody holds the box while a refresh command is alive.* The same death breaks this too
  (`BoxRuns.HoldBesideACommand`). So does a leftover that the owner scan cannot read, as it cannot list the
  descriptors of another uid's process: `_run` then sees no other owner, the success is recorded, and only the
  LOCK-LEAK warning follows (`BoxRuns.HoldBesideALeftover`, without damage or death).
  `BoxWork.LeftAloneIff`: a busy box never reads as usable exactly in the runs in which nobody dies after
  moving a damaged file while somebody works, and no success is recorded while somebody else owns the lock.
  That a command owns the lock, that only one refresh is at work, the queue order and the cap on holds depend
  on neither.
- *Between a dirtying line of the decision log and a later TAKE stands a REFRESH-OK.* Lines are appended
  after the state is saved, so a process that dies in between leaves no line. It holds of what happened
  (`BoxRuns.RefreshedBeforeTaken`), and in a safe run of the log, exactly as long as no REFRESH-OK goes
  missing from a log that says a refresh is owed (`BoxLog.LogShowsRefreshBeforeTake`, `LostOkBreaksTheLog`, `LostOkHappens`).
- *A waiting lane's position never grows.* It does when the lane polls too late: the same transaction
  drops its entry and appends a new one. `BoxFifo.PlaceWorsensIff` says exactly when.
- *A second strip changes nothing unless START START END END occurs.* Two blocks inside a START and an
  END do it too, and cutting a block out can put a split marker together. In a file whose blocks each end a
  line, which installing keeps, it is a no-op exactly if no START is followed by clean pairs and an END
  (`StripAcross.StripTwiceOnWholeLines`). On every text: exactly if no END comes after a START among the
  markers that stand in it when its clean pairs are passed over (`StripTwiceExactly`).
- *Outside the blocks an apply changes nothing.* The file is read in text mode, so a written file has lost its
  carriage returns. `AppliedFiles.OutsideKeptIff`: all is kept exactly if the file is not written or no
  carriage return stands outside the blocks.
- *The import scan counts everything within five links.* A file first met at depth five is not looked into, and
  not visited again on a shorter way (`ImportScan.DetourHidesAFile`). `ScanIsCompleteIff` says exactly when
  nothing is missed.
- *At most one live session believes it holds the integration lock.* Not if a release finds its own pid in
  a lock that an acquire has just judged dead and not yet overwritten, which takes a session started on the
  pid of the dead holder. `AutopilotLock.LockIsExclusive` is over every run without such a release, and any
  such release breaks it (`DisorderBreaksExclusion`).
- *The longest declared name owns a script.* Only if some declared name matches it. Two accounts share a
  script exactly if none does (`SudoScripts.SharedIff`), and then neither of them is declared. The bootstrap
  passes the declared accounts (cli_account_bootstrap.py:509); the default is `declared=()`.

Two smaller remarks on the code, both covered by the theorems: a failed read of the branch makes
`reattach_verdict` treat a checkout as detached, so the refusal to leave a long-lived branch depends on
that read (commits and files are safe all the same); and the docstring of `discover_autopilot_lock_litter`
promises that a mutex outlives any lock that is still there, while a lock whose `lstat` fails counts as
absent.

## Model

| member | source | states |
|---|---|---|
| `BoxRuns.RefreshedBeforeTaken` | cli_box_queue.py:349-388 | In every run without the one death below, between anything that dirties the box (dirty release, reclaimed hold, refresh started, lost or failed, damaged file) and any later take a refresh has succeeded; this is said of what happened, whether or not it was logged |
| `BoxRuns.UsableExactlyWhenPaid` | cli_box_queue.py:497-530 | In those runs the box reads as pristine or held exactly when no refresh is owed: never usable too early, never dirty without cause |
| `RefreshProtocol.SafeRunIff` | cli_box_queue.py:295-320 | And exactly in those: a run has only safe steps if and only if at every moment of it the box reads as usable precisely when no refresh is owed |
| `BoxLog.LogIsPartOfHistory` | cli_box_queue.py:419-436 | In every run, whoever dies between saving and logging, the decision log is a subsequence of what happened |
| `BoxLog.LogIsTheHistory` | cli_box_queue.py:433-434 | When no transaction dies before it has appended its lines, the log is all that happened, damage to the file apart |
| `BoxLog.LogShowsRefreshBeforeTake` | cli_box_queue.py:419-436 | Read off the decision log: between any line that dirties the box and any later TAKE there is a REFRESH-OK, in every safe run in which no REFRESH-OK goes missing from a log that says a refresh is owed; any other line may be lost |
| `BoxLog.LostOkBreaksTheLog` | cli_box_queue.py:430-434 | That proviso is exact: a step that loses such a REFRESH-OK leaves a pristine box, and then any lane has a take, logged in full, that breaks the property of the log |
| `BoxLog.LostOkHappens` | cli_box_queue.py:740-760 | A concrete run: the refresh CLI dies between saving its success and logging it, and the next TAKE follows the REFRESH-START directly |
| `BoxRuns.CommandOwnsTheLock` | cli_box_queue.py:636-663 | In every run, whoever dies where, a refresh command, and anything it left behind that still has the inherited descriptor, owns the refresh lock |
| `BoxRuns.NoUsableBoxUnderACommand` | cli_box_queue.py:636-663 | While there is such a process the box is dirty or refreshing and nobody holds it, in every run without two coincidences: a death after the move of a damaged file while somebody works, and a success recorded while somebody else owns the lock |
| `BoxWork.StepLeavesAloneIff` | cli_box_queue.py:740-760 | The condition is exact, step by step: a step keeps a box that somebody works on from reading as usable if and only if it is neither of the two |
| `BoxWork.SuccessKeepsWorkIff` | cli_box_queue.py:793-812 | Recording a success makes the box pristine, and leaves nobody at work on it exactly if no other process owns the lock |
| `BoxWork.LeftAloneIff` | cli_box_queue.py:636-663 | And over whole runs: at every moment the box was unusable while somebody worked on it, if and only if no step was one of the two |
| `BoxWork.CompleteScansSuffice` | cli_box_queue_proc.py:51-75 | With scans that miss no owner every safe run is like that |
| `BoxWork.SweptCleanIff` | cli_box_queue.py:624-663 | A refresh CLI counts as swept clean exactly after a command that exited 0 and a scan that saw no other owner |
| `BoxWork.WhoIsSwept` | cli_box_queue.py:636-663 | A sweep kills exactly owners of the lock that its scan saw, never the caller, and touches nobody else |
| `BoxWork.CutShortIsDead` | cli_box_queue.py:430-436 | A refresh CLI lives on after its start or its result exactly if all lines of the transaction were appended (and, at a start, the refresh was due) |
| `BoxWork.WhoIsKilled` | cli_box_queue.py:371-382 | A lane's transaction kills only owners of the lock, and only of a refresh past its deadline |
| `BoxWork.RefreshIsRetiredIff` | cli_box_queue.py:371-388 | It retires the recorded refresh exactly if the lock is free, or the deadline has passed and all owners were killed |
| `BoxRuns.HoldBesideALeftover` | cli_box_queue_proc.py:60-65 | It fails beside a leftover that the scan cannot read: a concrete run without damage or death ends with a held box and a live command that owns the lock |
| `BoxRuns.HoldBesideACommand` | cli_box_queue.py:299-320 | It fails after the one unsafe death: a concrete run (damage under a running command, death after the move, take) that ends with a held box and a live command |
| `BoxRuns.OneRefreshAtATime` | cli_box_queue.py:731-760 | In every run, whoever dies where, all processes at work on a box (the refresh CLI, its commands, their leftovers) belong to one refresh, and at most one of them is a CLI |
| `BoxRuns.StaleFinisherChangesNothing` | cli_box_queue.py:793-812 | A finisher whose token is not the recorded one leaves the file and the log as a plain status query would |
| `BoxRuns.OnlyACleanSweepCleansTheBox` | cli_box_queue.py:740-760 | Apart from the unsafe death an unusable box turns usable exactly when a success is recorded: by the CLI of the recorded refresh, after a last command that exited 0 and a scan that saw no other owner of the lock; if the scans missed nobody there is none |
| `BoxRuns.CrashAfterMoveIff` | cli_box_queue.py:311-320 | Dying between moving the state file aside and saving keeps the invariant exactly when the file was not damaged |
| `BoxRuns.CrashAfterMoveGivesTheBoxAway` | cli_box_queue.py:299-320 | After that death on a damaged file the next take succeeds although a refresh is owed, whatever processes are still at work on the box |
| `BoxRuns.CrashAfterMoveHappens` | cli_box_queue.py:427-432 | A concrete two-step run that reaches it |
| `BoxRuns.FifoOverRuns` | cli_box_queue.py:503-530 | Over any stretch of any run a lane that keeps waiting never moves back, and stays ahead of every lane that was behind it or came later |
| `BoxRuns.TakeWaitsItsTurn` | cli_box_queue.py:518-521 | A take past a lane that waits ahead happens only when that lane was dropped in the same step |
| `BoxRuns.HoldsAreCapped` | cli_box_queue.py:571-587 | In every run, whoever dies where, the recorded lease ends by the cap of its hold |
| `BoxRuns.RecordedPidsAreReal` | cli_box_queue.py:469-490 | In every run, whoever waits or holds was recorded under a pid above 1, and on a box without a refresh command nobody ever waits, holds or refreshes |
| `BoxRuns.TokensServeOnce` | cli_box_queue.py:704-727 | In every run the refresh on file and everything at work for one go by tokens drawn before, and a refresh begins under a token none of them has |
| `BoxRecovery.AlwaysRecoverable` | cli_box_queue.py:40-50 | Nothing can hold the box forever: from every world of every run, whoever died where and whatever damaged the file, things can go on without further damage, and keeping every proviso kept so far, until the box is pristine with its lock free; once everybody is gone one refresh does it |
| `BoxRecovery.AnyLaneGetsTheBox` | cli_box_queue.py:40-50 | And until any lane that asks holds it |
| `BoxRecovery.AllMayDie` | cli_box_queue.py:636-663 | Every process may die at any time, and with the last one the lock is free, the file as it was |
| `BoxRecovery.LockIsAlwaysOwned` | cli_box_queue.py:46-50 | In every run the lock is taken only while some process shares its open file description |
| `RefreshProtocol.BaseStepKeeps` | cli_box_queue.py:636-663 | Every step (transactions, forks, exits, kills at any point, lock grabs, sweeps that miss any owners, deaths between moving, saving and logging) keeps the file valid and capped, the lock with the open file description of whoever works under it, and all commands in one refresh |
| `RefreshProtocol.BaseRunKeeps` | cli_box_queue.py:731-760 | So every reachable world is like that |
| `RefreshProtocol.StepKeeps` | cli_box_queue.py:636-663 | Every safe step also keeps the debt of the history equal to the state of the file |
| `RefreshProtocol.RunKeeps` | cli_box_queue.py:419-436 | So every world reached by safe steps satisfies the whole invariant |
| `BoxInvariant.TransactKeeps` | cli_box_queue.py:419-436 | After any transaction the file is missing or valid, the holder does not wait in its own queue, and the file reads back as the record the transaction ended with |
| `BoxInvariant.ApplyKeeps` | cli_box_queue.py:469-617 | Each command keeps the record consistent; one that reports nothing to save changed nothing and logged nothing |
| `BoxInvariant.ReapKeeps` | cli_box_queue.py:349-404 | The liveness rules keep the record consistent; when they report no change there was none |
| `BoxInvariant.DamagedFileIsDirty` | cli_box_queue.py:295-320 | A damaged file that can be read as text is saved as `dirty:unknown`, or as refreshing by a refresh that starts on it; never pristine or held |
| `BoxTransitions.RunTransaction` | cli_box_queue.py:419-436 | One locked transaction on the mutable record does exactly what `Transact` says and saves a consistent file |
| `BoxTransitions.Box.Reap` | cli_box_queue.py:349-404 | The three liveness rules applied in place, in the source's order, equal the specification function, log lines included |
| `BoxTransitions.Box.ReapQueue` | cli_box_queue.py:389-403 | The queue loop keeps exactly the entries that have not lapsed, in order, and logs one DROP for each other |
| `BoxTransitions.Box.Find` | cli_box_queue.py:451-455 | The index of a lane in the queue, or none |
| `BoxTransitions.Box.Perform` | cli_box_queue.py:469-812 | Each command's in-place handler, run on the mutable record, makes the specified change, log lines and answer; the laws of the rows below are about those |
| `BoxDebt.TransactSettles` | cli_box_queue.py:419-436 | The log lines of one transaction and the file it leaves agree on whether a refresh is owed, and it takes the box only when none is |
| `BoxFifo.TransactFifo` | cli_box_queue.py:389-403 | One transaction keeps a waiting lane's place or improves it, and keeps its order against every other lane |
| `BoxFifo.TakeNeverOvertakes` | cli_box_queue.py:503-522 | The lane that takes is the head of what survives the liveness check: everybody ahead of it was dropped by the same transaction |
| `BoxFifo.TransactGrowsAtTail` | cli_box_queue.py:476-530 | The new queue is a subsequence of the old one plus at most one lane at the end |
| `BoxFifo.PlaceWorsensIff` | cli_box_queue.py:389-403 | A waiting lane's place gets worse exactly when it polls with its own entry already lapsed and more entries survive than were ahead of it |
| `BoxFifo.PlaceWorsensOnlyAfterDrop` | cli_box_queue.py:503-510 | The log then shows its DROP and its new ENQUEUE in one transaction |
| `BoxFifo.LapsedHeadLosesItsPlace` | cli_box_queue.py:394-403 | A concrete head of the queue that polls at its time-to-live and ends up second |
| `BoxLaws.HoldSurvivesIff` | cli_box_queue.py:355-370 | The same in the fields of the record: alive, before the end of the lease, before the cap, and no lease further ahead than one full hold; a renewed hold is not ended by the length of its first lease |
| `BoxLaws.HoldEndsWithCause` | cli_box_queue.py:356-370 | The end of a hold is logged first, with the first cause that applies: dead process, cap, lease, lease in the future |
| `BoxLaws.RefreshSurvivesIff` | cli_box_queue.py:371-388 | A recorded refresh survives exactly if the caller owns its lock, or somebody does and the deadline has not passed or the owners outlived the kill; otherwise the box is back under the dirty label it came from |
| `BoxLaws.LateRefreshIsNoted` | cli_box_queue.py:378-381 | One past its deadline that could not be killed is noted with its owners, and logged once per note |
| `BoxLaws.EntrySurvivesIff` | cli_box_queue.py:389-403 | A waiting entry survives exactly if its process is alive and it was seen within one time-to-live; otherwise its lane is dropped |
| `BoxLaws.OnlyLapsedAreDropped` | cli_box_queue.py:389-403 | Nobody enters the queue in a liveness check, and no lane is logged as dropped that still waits |
| `BoxLaws.TakeSucceedsIff` | cli_box_queue.py:503-530 | A take succeeds exactly on a pristine box for the head of the queue; the hold runs as long as was asked for, cut at the cap, and only the taker leaves the queue |
| `BoxLaws.AcceptedLeaseIsGivenInFull` | cli_box_queue.py:535-540 | A lease is accepted exactly if it is positive and a take of the free box gives it in full, and a take exactly if an enqueue and a renewal with its arguments are |
| `BoxLaws.PollKeepsPlace` | cli_box_queue.py:476-522 | Any other poll refreshes the lane's entry where it stands, or appends one, and changes nothing else |
| `BoxLaws.WithdrawalIs` | cli_box_queue.py:612-617 | A lane that withdraws takes its own entry out and leaves the others in order |
| `BoxLaws.RefreshStartsIff` | cli_box_queue.py:708-729 | A refresh starts exactly on a box that nobody holds and that is dirty, stale or forced, with its deadline the time-outs of its commands, one interval and a minute ahead |
| `BoxLaws.ResultCountsIff` | cli_box_queue.py:793-812 | A result counts exactly for the recorded token; failure returns to the dirty label with the reason |
| `BoxLaws.WrittenIff` | cli_box_queue.py:419-434 | The file is written exactly if it was damaged, a rule fired or the command changed something, and then carries the time; otherwise it is the very same file and nothing is logged |
| `BoxLaws.LinesAreOrdered` | cli_box_queue.py:349-404 | The lines of the liveness rules come in order: damage, hold, refresh, dropped lanes |
| `BoxLaws.DamagedIff` | cli_box_queue.py:241-316 | A file counts as damaged exactly if it is no record or one of the listed contradictions |
| `BoxLaws.LaneNamesGrow` | cli_box_queue.py:97-97 | Which names are lanes, character by character |
| `BoxLease.ReapEndsHolds` | cli_box_queue.py:355-370 | A hold survives the liveness check exactly if its process is alive and it has time left in (0, max_hold_s], also when the clock was set back; one that does not leaves the box dirty |
| `BoxLease.TransactCaps` | cli_box_queue.py:523-525 | Whatever the command, the hold it leaves is capped and alive |
| `BoxLease.OverdueHoldEnds` | cli_box_queue.py:359-370 | The first transaction at or after the lease end or the cap ends the hold, and a late renewal is refused |
| `BoxLease.RenewalIsCut` | cli_box_queue.py:577-587 | A renewal in time gives the lease asked for, cut at the cap, and changes nothing else |
| `BoxLease.PollingKeepsEntry` | cli_box_queue.py:557-560 | A lane that polls every half time-to-live, with less than the other half of delay, never lapses |
| `BoxAnswers.AnswersAreTrue` | cli_box_queue.py:469-618 | Whatever a command tells its caller (place in the queue, lease, status, refusal) is true of the record it leaves, and each refusal is given only for its cause |
| `BoxAnswers.RefreshStartToEnd` | cli_box_queue.py:708-812 | A refresh that started and was left alone ends pristine, or under the dirty label it started from; queue and holder are as they were |
| `BoxTake.Take` | cli_box_queue.py:561-568 | The polling loop of `take` ends whenever an attempt succeeds or one ends after the deadline: its answer is that of the last attempt, every attempt before failed in time, it gives up only after the deadline; with a clock that ticks it makes at most ceil(wait / poll) + 1 attempts |
| `BoxTake.TickingEnds` | cli_box_queue.py:561-568 | With a clock that does not go back and pauses that are no shorter than asked for, some attempt succeeds or ends after the deadline |
| `BoxTake.MostAttemptsFit` | cli_box_queue.py:561-568 | The bound on the attempts: all but two of them fit, with their pauses, before the deadline |
| `RefreshBudget.RunHealth` | cli_box_queue.py:676-690 | The health loop ends within its time-out plus one grace call, calls and pauses overrunning by a bounded amount, makes at most ceil(timeout / interval) runs, and succeeds exactly if some run that starts in time passes |
| `RefreshBudget.HealthRunsAre` | cli_box_queue.py:676-690 | When each health run starts, how long it may take, and that it passes exactly if it exits 0 within that time and leaves nothing behind |
| `RefreshBudget.RunRefresh` | cli_box_queue.py:666-690 | The refresh command and the health loop together: time bound, run bound, exactly when they succeed; and with an overrun of c per call, no reclaim kills the refresh or retires it while its lock is busy, as long as 2c + 1, the start delay and the time since the last call fit into the 60 s margin of the deadline that was stamped |
| `LockKill.SignalsOnlyOwners` | cli_box_queue_proc.py:76-97 | Over every interleaving of exits, forks and recycled pids a signal through a pidfd reaches only a process that owned the lock at the re-check, and no signal reaches the caller |
| `LockKill.OwnerIsKilled` | cli_box_queue_proc.py:60-95 | An owner that is still alive is killed and owns nothing afterwards exactly if its descriptors can be read at the re-check and the signal is let through; otherwise nothing happens to it |
| `LockKill.OwnersAre` | cli_box_queue_proc.py:51-75 | A process owns the lock after a step exactly if it did, has not closed it and is not gone, or was just born to an owner |
| `LockKill.OwnerIsKilledPlainly` | cli_box_queue_proc.py:85-95 | Without pidfds, and with nothing in between the re-check and the kill, a victim is killed exactly if it owns the lock, can be read and may be signalled |
| `LockKill.PlainPathHitsRecycledPid` | cli_box_queue_proc.py:85-89 | The fallback without pidfd can hit a pid recycled after its re-check: a concrete run |
| `MarkerBlocks.Spans` | cli_bashrc_appliers.py:657-696 | The scan terminates and returns, in increasing order, disjoint and in bounds, exactly the START occurrences whose next marker of either kind is END |
| `MarkerBlocks.Find` | cli_bashrc_appliers.py:682-688 | `str.find` as the scan uses it: the first occurrence at or after a position |
| `MarkerBlocks.SplicedIsRewritten` | cli_bashrc_appliers.py:756-790 | Replacing the spans found by position is replacing the START-END pairs of the text read as plain characters and markers |
| `MarkerTokens.TextOfTokens` | cli_bashrc_appliers.py:678-696 | Reading a text as characters and markers loses nothing |
| `MarkerTokens.RewrittenIsCanonical` | cli_bashrc_appliers.py:756-776 | No marker forms across the edge of an inserted block |
| `MarkerTokens.RewriteTwice` | cli_bashrc_appliers.py:756-776 | Rewriting a rewritten text again replaces exactly the blocks the first rewrite put there |
| `BlockAppliers.Splice` | cli_bashrc_appliers.py:756-764 | The cursor loop of the appliers: text between the spans kept, a filler in place of each |
| `BlockAppliers.ApplySshAttach` | cli_bashrc_appliers.py:756-790 | Two appliers: the file, read in text mode, becomes `Applied` of its text and is written exactly if that differs from the text as read |
| `BlockAppliers.ApplyStreamEnv` | cli_bashrc_appliers.py:1022-1071 | The third applier: as above, and a missing file is created with just the block or left missing |
| `BlockAppliers.AppendedOnItsOwnLine` | cli_bashrc_appliers.py:769-770 | Without a block in the file one is appended: the old text stays in front, the block begins a line and ends the file, and exactly one empty line stands between |
| `BlockAppliers.NamedMarkersAre` | cli_bashrc_appliers.py:997-998 | The markers of a name, character by character |
| `BlockAppliers.ApplyIsIdempotent` | cli_bashrc_appliers.py:957-990 | Applying a block that is its own only clean span twice is applying it once, on every text, stray and crossed markers included |
| `BlockAppliers.StripAfterApply` | cli_bashrc_appliers.py:1040-1071 | On the text as read, stripping after applying gives what stripping alone gives (or the text plus its separator newlines) |
| `AppliedFiles.OutsideKeptIff` | cli_bashrc_appliers.py:756-790 | Of the file itself: an apply keeps everything outside the clean blocks exactly if it does not write the file or no carriage return stands outside them |
| `AppliedFiles.StrippedIsKeptIff` | cli_bashrc_appliers.py:1040-1071 | Reading in text mode keeps what lies outside the clean blocks exactly if there is no carriage return in it, and moves no block |
| `AppliedFiles.TokensTranslated` | cli_bashrc_appliers.py:1040-1046 | Text mode and the markers do not meet: the translated file has the translated characters between the same markers |
| `AppliedFiles.SecondApplyIff` | cli_bashrc_appliers.py:787-790 | A second apply to the file leaves it alone exactly if there is no carriage return in the block |
| `BlockAppliers.CreatedIsStable` | cli_bashrc_appliers.py:1032-1036 | A file created with just the block is left alone by the next apply |
| `BlockAppliers.OwnBlockIff` | cli_bashrc_appliers.py:1000-1019 | A block may be applied exactly if the whole of it is one clean span |
| `BlockAppliers.NamedMarkersAreGood` | cli_bashrc_appliers.py:997-998 | Markers made of a name without `#` or newline satisfy what the scan needs |
| `StripAcross.StripTwiceOnWholeLines` | cli_bashrc_appliers.py:778-785 | In a file whose clean blocks each end a line or are followed by another marker, a second strip changes nothing exactly if no START is followed by clean pairs and then an END |
| `StripAcross.SpansEndLinesIff` | cli_bashrc_appliers.py:682-696 | That shape is read off the spans the scan finds: the position behind each is the end of the text, a newline or a marker |
| `StripAcross.ApplyEndsLines` | cli_bashrc_appliers.py:756-776 | Installing a block keeps that shape, and an install into a file without a block brings it about |
| `StripAcross.StripTwiceExactly` | cli_bashrc_appliers.py:1055-1063 | On every text: a second strip changes nothing exactly if, the clean pairs passed over, every END that stands in the file, or is spelled across them, comes before every such START |
| `StripAcross.StandingIsLeft` | cli_bashrc_appliers.py:1055-1063 | The markers read off the file in that way are exactly the markers of the stripped text |
| `StripAcross.StitchesIff` | cli_bashrc_appliers.py:694-696 | The cuts stitch a marker together exactly if the plain text of the file, read across its clean pairs, somewhere begins with one |
| `StripTwice.StripTwiceIff` | cli_bashrc_appliers.py:778-785 | When the cuts stitch no new marker together, a second strip changes nothing exactly if no START is followed by clean pairs and then an END |
| `StripTwice.TwoInnerBlocks` | cli_bashrc_appliers.py:689-692 | START, two blocks, END: a second strip does remove something although no START START END END occurs |
| `StripTwice.CutsStitchAMarker` | cli_bashrc_appliers.py:694-696 | A START split around a block is put together by the first strip and then pairs with a stray END |
| `LegacyExport.ManagedLines` | cli_bashrc_appliers.py:1095-1114 | The scan returns exactly the lines with a START at or above and no END in between, that some END closes |
| `LegacyExport.DriftAgrees` | cli_bashrc_drift.py:94-113 | The drift scan, which drops line terminators, finds the same managed lines |
| `LegacyExport.Walk` | cli_bashrc_appliers.py:1151-1172 | The walk over the lines copies and counts as specified |
| `LegacyExport.RemoveLines` | cli_bashrc_appliers.py:1149-1172 | Scan and walk keep exactly the lines that are no unmanaged legacy export and no legacy comment directly above one |
| `LegacyExport.DroppedIff` | cli_bashrc_appliers.py:1151-1170 | A line is dropped exactly if it is outside every block and is the export's characters followed by white space alone, or the comment's directly above such a line |
| `LegacyExport.ExportLineGoes` | cli_bashrc_appliers.py:1139-1172 | An export on a line of its own with no START above it is dropped, and if nothing else is, the file becomes what stood around that line |
| `LegacyExport.MarkerIs` | cli_bashrc_appliers.py:1091-1092 | The marker pattern: white space, `#`, white space, arrows, white space, `airuleset`, and no word going on |
| `LegacyExport.OwnMarkersAreMarkers` | cli_bashrc_appliers.py:997-998 | The tool's own marker lines are such lines |
| `LegacyExport.KeptSelects` | cli_bashrc_appliers.py:1151-1172 | The result is a subsequence: every kept line once and in order |
| `LegacyExport.DropIsNarrow` | cli_bashrc_appliers.py:1156-1170 | A dropped line is unmanaged and no marker; a dropped comment is directly above a dropped export |
| `LegacyExport.PairingIsKept` | cli_bashrc_appliers.py:1095-1114 | Deleting lines that are no markers leaves every kept line managed exactly if it was |
| `LegacyExport.NothingLeftToDrop` | cli_bashrc_appliers.py:1126-1130 | No legacy export is left outside a managed block |
| `LegacyExport.Remove` | cli_bashrc_appliers.py:1139-1190 | The file is rewritten, and backed up once, exactly if a line is dropped; an unreadable one is left alone |
| `LegacyExport.SecondRunIsNoop` | cli_bashrc_appliers.py:1117-1126 | The written text splits into the kept lines, and a second run on it drops nothing |
| `Lines.SplitThenJoin` | cli_bashrc_appliers.py:1148-1148 | Splitting into lines with their terminators and joining gives the text back |
| `Lines.JoinThenSplit` | cli_bashrc_appliers.py:1177-1177 | Lines that are lines join into a text that splits into them |
| `Lines.SplitConcat` | cli_bashrc_appliers.py:1148-1148 | A text that ends a line and what follows it split apart |
| `Lines.FirstLineIs` | cli_bashrc_appliers.py:1148-1148 | What has no separator inside is, with its newline, the first line |
| `Lines.UniversalPieces` | cli_bashrc_appliers.py:1145-1145 | Text mode, ending by ending: each of the three line endings becomes one newline |
| `Lines.Universal` | cli_bashrc_appliers.py:1145-1145 | Reading in text mode leaves no carriage return |
| `AutopilotLock.StepKeeps` | cli_autopilot_lock.py:206-296 | Every step of interleaved acquire and release, every command crash, session death, start and pid reuse keeps the lock's invariant, unless a release finds its own pid in a lock that an acquire has judged dead and not yet overwritten |
| `AutopilotLock.LockIsExclusive` | cli_autopilot_lock.py:220-296 | In every run without such a release at most one live session believes it holds the lock, and the lock names it; pids may be used again at any time. Provisos of the model: one command per session, no session dies under its own command |
| `AutopilotLock.OnlyTheHolderEndsAHold` | cli_autopilot_lock.py:270-291 | In the same runs no step but the holder's own unlink changes the lock of a live holder; a lock that merely names a live session may besides be overwritten by an acquire |
| `AutopilotLock.DisorderBreaksExclusion` | cli_autopilot_lock.py:206-296 | The condition is exact: from every world the invariant allows, any such release can go on so that the acquirer believes it holds a lock that is gone and any third idle session takes it too |
| `AutopilotLock.AcquireAlone` | cli_autopilot_lock.py:220-296 | An undisturbed acquire takes the lock unless a live holder or a directory it cannot remove is in the way, and then changes nothing |
| `AutopilotLock.ReleaseAlone` | cli_autopilot_lock.py:206-218 | An undisturbed release removes the lock exactly if it names the caller |
| `AutopilotLock.AnySessionCanWin` | cli_autopilot_lock.py:220-296 | Nobody is locked out: in every world of every run, orderly or not, any live session can go on to win the lock, unless a directory it cannot remove is there or the lock names it already; no other session needs to die than the one the lock names |
| `AutopilotLock.ReusedPidBreaksExclusion` | cli_autopilot_lock.py:270-291 | It does happen: from any stale lock a concrete run, with a session started on the reused pid, ends with two live sessions that believe they hold the lock |
| `LockLitter.LockRow` | cli_autopilot_lock.py:451-513 | One lock is judged litter exactly by the criteria of its shape, and any reason to keep it is true |
| `LockLitter.CompanionRow` | cli_autopilot_lock.py:515-557 | A mutex or a link target is judged by its own age, owner and shape and by what was said of its lock, and any reason to keep it is true |
| `LockLitter.Discover` | cli_autopilot_lock.py:372-559 | Every name gets one row, and a row carries no reason exactly if it is litter; a mutex or target only if its lock is absent or litter too |
| `LockLitter.LitterIsHarmless` | cli_autopilot_lock.py:451-557 | Litter is old enough and of this user, and so is its lock if it is there, which nobody alive holds and in which nothing lies |
| `LockLitter.AbandonedIsLitter` | cli_autopilot_lock.py:451-557 | And an old lock of this user that names nobody alive always is litter, as is an empty lock directory, a link to one, or a mutex whose lock is gone |
| `LockLitter.Reclaim` | cli_autopilot_lock.py:676-739 | The re-check and delete of one candidate |
| `LockLitter.Sweep` | cli_autopilot_lock.py:651-748 | A candidate is deleted exactly if discovery cleared it, it is no dry run, and it may still be deleted at its own turn, whatever changed since |
| `LockLitter.SweptLockWasStealable` | cli_autopilot_lock.py:679-689 | A regular lock may be deleted exactly when an acquire at that moment would not be blocked, and then the acquire would have taken it |
| `LockLitter.LiveLockIsKept` | cli_autopilot_lock.py:715-739 | While a lock's holder lives neither the lock nor its mutex is deleted |
| `LockLitter.FullDirectoryIsKept` | cli_autopilot_lock.py:604-700 | Nothing is deleted in which something lies, or behind which something lies |
| `WorkTree.CollidingPaths` | cli_checkout_freshness.py:283-309 | The result is exactly the set of added paths that exist, or else their outermost parent that is in the way and not deleted by the move; nothing when the diff is unmeasurable |
| `WorkTree.CollisionOf` | cli_checkout_freshness.py:297-308 | For one added path: itself if it exists, else the outermost parent in the way, else nothing |
| `WorkTree.NoCollisionIff` | cli_checkout_freshness.py:295-309 | The list is empty exactly if no added path exists and no parent of one is a non-directory that stays |
| `WorkTree.NoHitIff` | cli_checkout_freshness.py:295-309 | Empty exactly if nothing exists at an added path, inside or behind a link, and whatever exists at a parent is a directory or is deleted by the move |
| `WorkTree.NoCollisionIffFree` | cli_checkout_freshness.py:295-309 | Where no added path passes through a link: empty exactly if the way is free of untracked files |
| `WorkTree.CollisionIsLocal` | cli_checkout_freshness.py:295-309 | And a collision is real: something untracked lies where the new tree puts a file, or is no directory where it needs one |
| `WorkTree.MoveKeepsLocalFiles` | cli_checkout_freshness.py:283-288 | With an empty list and a clean tree even the most destructive checkout ends with exactly the new tree's files plus every untracked or ignored file and link, unchanged |
| `WorkTree.MoveKeepsClosed` | cli_checkout_freshness.py:301-308 | The move leaves a proper file system |
| `WorkTree.UnguardedMoveLosesAFile` | cli_checkout_freshness.py:26-29 | Without the guard an ignored file is overwritten |
| `Checkout.Outside` | cli_checkout_freshness.py:247-253 | Counting the commits of one side outside the other gives zero exactly if it could be counted and the one is an ancestor of the other |
| `Checkout.FfVerdict` | cli_checkout_freshness.py:338-372 | The guard chain answers `ff` exactly if every read works, nothing is in progress, the branch's commit is a proper ancestor of the target, the tree is clean and nothing collides; and each other reason it gives is true of the branch's own remote ref, of the repository, or of a read that failed |
| `Checkout.ReattachVerdict` | cli_checkout_freshness.py:487-544 | The guard chain answers `reattach` exactly if the listed conditions hold, for every combination of failing reads; and each other reason it gives is true |
| `Checkout.CollisionIsReal` | cli_checkout_freshness.py:283-309 | A refusal for a collision whose diffs could be read means that something untracked really is in the way |
| `Checkout.ForwardIff` | cli_checkout_freshness.py:338-372 | When every read works and no added path runs through a link: `ff` exactly if no operation is in progress, nothing is edited, missing or untracked, HEAD is on a branch strictly behind its remote one, and no local file is in the way |
| `Checkout.ReattachIff` | cli_checkout_freshness.py:487-544 | And `reattach` exactly if the same holds of HEAD, on a branch or not, the branch is neither the base nor long-lived, the local base has nothing the remote one lacks and is not checked out elsewhere, and HEAD has rested for the idle time |
| `Checkout.FailedReadsHoldBack` | cli_checkout_freshness.py:487-544 | A read that failed never passes for a good answer: `ff` needs all it makes, `reattach` all but the branch's name and the local base, whose failures read as a detached HEAD and as no local base |
| `Checkout.VerdictsHoldBack` | cli_checkout_freshness.py:487-544 | No verdict allows a move over an edited, missing or untracked file, during an operation, or from a commit outside the target; no reattach leaves a long-lived branch that git could name, or a HEAD that moved lately |
| `Checkout.MergeKeepsCommits` | cli_checkout_freshness.py:375-390 | A fast-forward with any verdict, stale or not, keeps every reachable commit and moves only the branch of HEAD, to a descendant |
| `Checkout.ForwardKeepsFiles` | cli_checkout_freshness.py:338-390 | With the verdict of the same repository it succeeds and keeps every local file |
| `Checkout.FetchKeepsCommits` | cli_checkout_freshness.py:556-563 | The local fetch moves only the local base, to a descendant, and loses no commit |
| `Checkout.ReattachKeeps` | cli_checkout_freshness.py:547-574 | With its verdict, fetch and checkout keep every reachable commit at each stage, the old branch ref, and every local file |
| `Checkout.LeavingDetachedHeadIff` | cli_checkout_freshness.py:518-521 | Switching away from a detached commit keeps every commit exactly if some ref reaches it: what the guard on unmerged commits is for |
| `Checkout.TrackingIs` | cli_checkout_freshness.py:565-574 | No branch but the base gets an upstream, only from origin, and one that has one keeps it |
| `Checkout.Checkout.FastForward` | cli_checkout_freshness.py:375-390 | `fast_forward` in place: exact new state, no commit lost, no local file lost |
| `Checkout.Checkout.Reattach` | cli_checkout_freshness.py:547-574 | `reattach` in place: exact new state at each point it may stop, only the local base moves, only `origin` ever becomes an upstream |
| `ForcedCommands.DecodeInvertsEncodeIff` | cli_forced_command_reconcile.py:31-38 | Decoding inverts encoding exactly on the commands without a backslash |
| `ForcedCommands.Find` | cli_forced_command_reconcile.py:45-47 | The first mark of a line |
| `ForcedCommands.DecodeEncode` | cli_forced_command_reconcile.py:31-38 | Encoding and decoding a command doubles its backslashes and nothing else |
| `ForcedCommands.SplitCommand` | cli_forced_command_reconcile.py:41-56 | The line is cut at the first mark and the first quote after it that no backslash precedes; `None` exactly when there is no such cut; the parts reassemble to the line |
| `ForcedCommands.SplitIsUnique` | cli_forced_command_reconcile.py:41-56 | There is only one such cut |
| `ForcedCommands.SplitFindsEncodedIff` | cli_forced_command_reconcile.py:31-56 | An encoded command is cut out whole exactly if it does not end in a backslash |
| `ForcedCommands.PlanOne` | cli_forced_command_reconcile.py:78-86 | One line: rewritten exactly if the renderer wants another encoding of its command |
| `ForcedCommands.Plan` | cli_forced_command_reconcile.py:74-87 | The new text is the planned lines joined, and the count is the number of lines that differ |
| `ForcedCommands.ChangedLine` | cli_forced_command_reconcile.py:80-85 | A line that changes keeps everything before the command, everything after it, and its terminator |
| `ForcedCommands.LineChangesIff` | cli_forced_command_reconcile.py:78-86 | A line changes exactly if it is no comment, a command can be cut out of it, and the renderer wants that command to be another one |
| `ForcedCommands.PlanIsIdempotent` | cli_forced_command_reconcile.py:74-87 | When the renderer yields one-line, backslash-free fixed points, a second plan of the new text changes no line |
| `ForcedCommands.NoChangeIsNoChange` | cli_forced_command_reconcile.py:74-87 | A count of zero means the lines are as they were |
| `TranscriptMerge.Merger.MergeTurns` | cli_claude_scripts.py:618-730 | The streaming pass over one file equals: drop repeated uuids, drop what is not displayable, group maximal runs of one role, render; and it extends the shared uuid set by those of the file |
| `TranscriptMerge.Merger.Take` | cli_claude_scripts.py:663-670 | A record whose uuid was seen is passed over before anything else is asked |
| `TranscriptMerge.WhatARecordShows` | cli_claude_scripts.py:671-720 | A record shows nothing exactly if it is of no displayed kind, a prompt without a visible character or with an injected tag, or blocks without a tool call or a non-empty text; otherwise it holds, under its role and its own time, every visible character and every tool line, in order |
| `TranscriptMerge.ReadBlocks` | cli_claude_scripts.py:700-718 | The loop over the blocks of an assistant message: its non-empty texts and its tool lines, in order |
| `TranscriptMerge.Absorb` | cli_claude_scripts.py:689-727 | Extending the pending turn or flushing it leaves the turns still to come unchanged |
| `TranscriptMerge.Flush` | cli_claude_scripts.py:655-661 | The pending turn is shown unless it has neither text nor tools |
| `TranscriptMerge.FuseKeepsTurns` | cli_claude_scripts.py:689-691 | Two neighbouring pieces of one role may be taken as one, with the first's time stamp |
| `TranscriptMerge.RunIsMaximal` | cli_claude_scripts.py:672-680 | A group is a maximal run of one role, and a compaction stands alone |
| `TranscriptMerge.FirstOfEachUuid` | cli_claude_scripts.py:666-670 | A record is shown exactly if it has no uuid or none before it, in any file of the chain, has the same |
| `TranscriptMerge.Chain` | cli_claude_scripts.py:969-974 | The chaining loop: each file that exists is grouped by itself, under one shared uuid set |
| `TranscriptMerge.TurnIs` | cli_claude_scripts.py:655-661 | A run is shown as at most one turn: its role, the time of its first piece, its tool lines, and its texts joined and trimmed; it is left out exactly if nothing of it is visible |
| `TranscriptMerge.JoinedTexts` | cli_claude_scripts.py:658-658 | Between two neighbouring texts of a turn stands one newline, and nothing else |
| `TranscriptMerge.TurnIsCutBack` | cli_claude_scripts.py:655-661 | Where each text is one line with visible ends, cutting the turn's text at its newlines gives back exactly those texts, in order |
| `TranscriptMerge.TurnsFirst` | cli_claude_scripts.py:618-730 | The turns come in the order of their runs, over all roles |
| `TranscriptMerge.WrappersAre` | cli_claude_scripts.py:612-688 | The five injected tags make no prompt, and nothing does that does not begin with one |
| `TranscriptMerge.TurnsShowAll` | cli_claude_scripts.py:655-661 | The turns show every visible character under its own role, every tool line and every compaction of their pieces, once and in order |
| `TranscriptMerge.ChainShowsAll` | cli_claude_scripts.py:960-974 | The same over any chain of files, against the first record of each uuid |
| `ImportScan.Scanner.Resolve` | cli_context_baseline.py:57-100 | The recursive method on one shared visited set terminates on every import graph, cyclic or not, and computes the specified scan |
| `ImportScan.VisitPartitions` | cli_context_baseline.py:69-98 | What is newly visited falls apart into counted files with their own sizes and missing paths listed once; nothing is counted twice |
| `ImportScan.ScanIsSound` | cli_context_baseline.py:57-100 | Every counted file and every missing path is reached by at most five import links |
| `ImportScan.ScannedInOrder` | cli_context_baseline.py:89-98 | Imports are followed front to back: scanning a list is scanning its first part and then the rest with what the first part visited, and missing paths are listed in that order |
| `ImportScan.ScanIsCompleteIff` | cli_context_baseline.py:69-98 | On every import graph: nothing reachable is missed exactly if every import of a file that the scan first met at depth five was met on some other way |
| `ImportScan.ScanIsComplete` | cli_context_baseline.py:69-98 | Enough for it: when no repeat-free import chain from the root has more than five links, everything that any number of links reaches is counted or listed |
| `ImportScan.DetourHidesAFile` | cli_context_baseline.py:70-72 | The scan can miss a near file: one two links away that is never counted |
| `SudoScripts.ValidateSudoCommands` | cli_account_policy.py:33-52 | No error exactly if there is a reason and a non-empty list of distinct exact script paths of the account |
| `SudoScripts.ForeignScriptPaths` | cli_account_policy.py:55-67 | No error exactly if each path's longest matching declared name is the account |
| `SudoScripts.ValidateSudo` | cli_account_policy.py:70-80 | Accepted exactly if there is a reason and a non-empty list of distinct paths each granted to the account: a script of it that no longer declared name matches or, if the account is not declared, no declared name at all |
| `SudoScripts.ScriptOkIff` | cli_account_hardening.py:98-108 | A path is a script of the account exactly if it is the directory, the account's name, a hyphen and a name of the listed characters, without two dots side by side |
| `SudoScripts.ScriptStays` | cli_account_hardening.py:98-108 | So it lies directly in that directory, as long as the account's name has no slash |
| `SudoScripts.Owners` | cli_account_policy.py:61-62 | The declared names a path matches |
| `SudoScripts.Longest` | cli_account_policy.py:63-63 | The longest of them, or the account when there is none |
| `SudoScripts.OwnerIff` | cli_account_policy.py:61-64 | The owner test says exactly that no longer declared name matches; ties cannot occur |
| `SudoScripts.OneOwner` | cli_account_hardening.py:98-108 | A script path is granted to at most one declared account |
| `SudoScripts.SharedIff` | cli_account_policy.py:55-80 | Two accounts of which a path is a script, declared or not, are both granted it exactly if no declared name matches it |
| `SudoScripts.NoScriptIsShared` | cli_account_policy.py:55-80 | When two accepted declarations share a script path, no declared name matches it and neither account is declared |
| `SudoScripts.UndeclaredAccountsMayShare` | cli_account_policy.py:70-73 | It does happen, with whatever is declared: both `a` and `a-b` are granted `a-b-c` as long as no declared name matches that |

## Left out

- The text of messages, log lines and notices, CLI parsing, status tables, rendered bash and unit files, ssh, DNS and plugin plumbing: no logic of their own.
- JSON and atomic file replacement: a saved record reads back equal, and nobody deletes it by hand. A state file that exists but cannot be opened, or is not valid UTF-8, makes every command stop; such a run has no step here.
- In a run each attempt of `take` is a step of its own; that a lane goes on polling is not modelled there.
- The `status` action of the integration lock, which only reads, and the log of stolen locks.
- The owner scan of the refresh lock is one step, which may miss any owners; each `flock`, `unlink`, `rename` and `kill` is atomic; waiting for a killed group is not timed.
- BoxInvariant.DamagedFileIsDirty: not of a file that is not valid UTF-8, on which every command stops with an error and nothing is saved.
- The alive set of a box transaction stands for `_pid_alive`, so a recycled pid counts as alive there too.
- Times are reals; the health and refresh loops take the length of each call as a parameter, and a call and the pause after it overrun by at most `most` together.
- RefreshBudget.RunHealth: the clock the loop reads moves on by exactly the time that passes, so a wall clock that is set while a refresh runs is not modelled; a clock set back prolongs the loop.
- RefreshBudget.RunRefresh: as above; a reclaim reads the same clock.
- The configuration of a box is the same throughout a run.
- The LOCK-LEAK line of the decision log and the log of the refresh command's output.
- BoxRuns.RefreshedBeforeTaken: over runs in which no process dies between moving a damaged file aside and saving, because otherwise it is false (see above); and over what happened, which the log may lack lines of.
- BoxRuns.UsableExactlyWhenPaid: over the same runs, which SafeRunIff shows are all of them for which it holds throughout.
- BoxRuns.NoUsableBoxUnderACommand: over the runs without the two coincidences above, because otherwise it is false; and for commands and leftovers that keep the inherited descriptor; a process that closes it is no owner of the lock any more and nothing sees it.
- AutopilotLock.LockIsExclusive: over runs in which no session dies while a command of its own is running, and without the release described above, which breaks it. No litter sweep deletes a lock or a mutex while an acquire runs: the sweep takes no lock, and a mutex unlinked under an acquire lets a second one in.
- The window between the litter sweep's re-check and its delete, which nothing serialises with an acquire, is taken as undisturbed; so is the directory between its listing and the `lstat` calls, except that names may vanish.
- LegacyExport.TerminatorIsIrrelevant: `\b` after `airuleset` counts ASCII letters, digits and `_` as word characters, not the other Unicode word characters.
- The drift report's own export pattern and its settings and tmux legs: one pattern and one-branch lookups.
- Which account wants which block, and the blocks' own text: any block that is one clean span is allowed. A login file that cannot be read as text makes an applier stop and is left as it is.
- git is modelled by what its commands may change: `merge --ff-only`, a local fetch and a checkout move refs only as documented, stop at edited tracked files, and otherwise overwrite whatever is in the way, which is more than git does. Submodules, hooks, sparse checkouts and case-insensitive file systems are not modelled.
- Checkout.Checkout.Reattach: the promise on commits and files needs the verdict of the same repository state; what a session does between verdict and move is outside it. Only the promise on refs is unconditional.
- `worktree list`, reflog and status output: their parsing is not modelled, only what they tell.
- `cli_webterm._remote_command` and the parsing of an attach body before it: the renderer of `ForcedCommands.Plan` is a parameter. The file is read and written as it is; backups are not modelled.
- The transcript's JSON: records, blocks and tool summary lines are given; a malformed one is `Undisplayed` or `Ignored`. Finding and ordering the session files is left out.
- Import lines are given as the paths they resolve to; a file's size is the number that is counted for it, whichever of the two ways it was read.
- `sudo: True` and `sudo: False` declarations, the reason line's pattern, and the sudoers text: one-branch checks.
