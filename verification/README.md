# Verified model of the guarded Home Assistant change service

The service applies changes that a human has approved to a live Home Assistant configuration. A
proposal is stored together with the exact diff, a person approves a redacted form of it, a
single-use grant is consumed, the file is swapped, and a journal allows the transaction to be
finished, rolled back or handed to a human after any crash. This project models the algorithms and
the crash-safe protocols of the service and proves what they promise.

`dafny verify dfyconfig.toml` covers the whole project.

| modules | subject |
|---|---|
| `GitWork`, `EditScripts`, `Myers` | the line diff: work budget, scripts, furthest-reaching table, walk back |
| `TextLines`, `Decimals`, `PatchFormat`, `PatchLayout`, `PatchHunks`, `UnifiedPatch` | the canonical unified patch, and a reader for patches to state what it means |
| `Phase3Contracts`, `Phase3World`, `Phase3Coordinator` | the apply, rollback and recover transaction |
| `Phase3Journal`, `Phase3Histories` | the durable journal under concurrent calls and crashes, and reading it back |
| `JsonText`, `CanonicalJson` | canonical JSON, a parser for it, journal envelopes |
| `ApprovalGrants` | the hard-link race for a single-use approval |
| `ProposalRecovery` | the write-ahead journal of proposals and its reconciliation at startup |
| `EpochRotation` | archiving the active epoch and resuming an interrupted rotation |
| `GuardedChanges` | changes that are sent at most once |
| `MutationLock` | the first-come-first-served mutation lock |
| `LiteralSearch` | bounded Knuth-Morris-Pratt search |
| `Wrappers`, `SeqFacts` | results, and facts about concatenation |

## How the parts are modelled

- **Diff and patch.** Loops over the table, the trace and the edit list are loops here, and the work
  budget is a possible failure of every one of them. What they are proved against does not mention
  them: edit scripts in general, and a reader and applier of unified patches written independently.
- **Transaction.** `World` holds the live file, what Home Assistant has loaded and the journal; its
  methods are the coordinator's ports. Each may fail, and the process may crash before or after its
  effect. A swap is a compare-and-swap with a truthful status. `exclusive` says that nobody else
  edits the file; without it only the claims that do not mention the file remain. `faultFree`
  switches failures off for a while, to state what recovery does when nothing fails. Fixed error
  codes and texts are abstracted (`OwnCode`, `OwnMessage`), foreign ones keep their length, because
  the journal's schema limits it.
- **State machines.** The journal, the grants and the guarded changes run concurrently; they are
  given by an `Action` datatype and a relation `Next`, and the theorems are about every run.
- **Services with state** (proposals, rotation, lock, search) are classes; their methods may be cut
  short at every step, and `Valid` holds at every one of these points.
- Hashing is injective, so contents are represented by digests or by what determines them.

## What the proofs found

- The last `throw` of `myers`, the test for inactive waiters in `release` (`Offer`) and the aggregate
  byte check of the journal scan can never take effect. As long as nobody else writes the journal,
  `manual` needs at most one retry.
- Calls alone never make the journal unreadable, however they interleave and whichever
  synchronizations fail (`RunsWithoutCrashStayReadable`). But an entry whose directory
  synchronization failed can be followed by another one, and a crash that loses only the first leaves
  a journal that no longer opens (`UnreadableRun`). As far as the
  final entries go, a crash is harmless exactly if every entry that others follow is durable
  (`ReadableAfterEveryCrash`); the pending names from which entries are linked are not modelled.
- A mutation that was caught failing leaves its journal behind. The next start then fails, if nothing
  else goes wrong, exactly if the proposal that the journal was to add has been discarded or has
  expired, or the one that it was to discard has expired, or the proposal is missing although it was
  to be discarded or the journal says that it was added (`Initialize`, `AmbiguousIffMovedOn`). Another
  discard does no harm to the journal of a discard (`WhatMakesAmbiguous`). `RefusedStart` is an example.
- A proposal is only ever missing because a scan could not read it and moved it to the quarantine; one
  read error is enough. Every later start may then be refused (`RefusedForGood`). The second ambiguity
  check of `reconcile` takes effect for exactly such journals, and only for added proposals.
- A mutation that took effect is reported as failed only if the journals could not be read back after
  it, or if its journal or its proposal went to the quarantine (`Truthful`). In the first case no other
  outcome is recorded (`Operate`); a start records a failure exactly for the open operations whose
  journal is gone or whose effect is not in the store (`Initialize`). `FailedButWritten` is an example.
- No proposal disappears except into the quarantine (`AnyRun`).
- A write that a crash interrupts can leave a temporary file and a placeholder. Each stops one start,
  which moves it to the quarantine, so at most as many starts fail as there are such files (`Restart`).
  An audit record that is cut right behind a closing brace stops every start: recovery only removes a
  tail that cannot be a complete record (`Initialize`). After nothing but crashes, nothing else stops a
  start apart from another crash (`AnyRun`).
- A rotation that is interrupted while it writes the text of its marker, or the header of the new
  approval store, cannot be resumed: `resume` refuses the marker, or the successor, every time. And a
  rotation or bootstrap that cannot remove the first name of the header reports success, although its
  epoch can never be opened. In exactly these states, and after an interrupted bootstrap, which is left
  to manual review on purpose, nothing ever changes again (`Stuck`, `AnyRun`), and in every other one some call succeeds if nothing
  fails (`GoOn`); `TornMarker`, `StagedHeader` and `UnopenedSuccessor` are examples. The approval store has `remediateStaleStages` for such stages, but
  no operator command calls it.
- Recovery departs from its table in three cases and in no other (`DepartureIsExact`).
  For `rollback_intent` and `rollback_committed` the table names no reload, but one is performed if
  the record's reload flag is set, as after a reload that may have started
  (`InterruptedRollbackOfReload`). For `reload_succeeded` the table names a reload, but none is
  performed without a reload target (`NothingToReload`).
- `recover` passes a string as the cause of a rollback, which counts as a reload that may have
  started.
- A rollback of a live candidate succeeds, if nothing fails, exactly if the text of its cause can be
  recorded. The failure schema refuses an empty or an over-long text; the transaction then ends in
  manual recovery with the candidate still live (`RollbackAfterCommit`, `EmptyMessageIsRejected`).
  If it is manual recovery itself that cannot note such a text, as when loading a checkpoint fails with
  one, it throws and leaves the transaction unfinished (`Manual`).

## Model

| member | source | states |
|---|---|---|
| GitWork.Snapshot | src/git/gitReads.ts:1356-1361 | the recorded table equals the live one, or the budget is exceeded |
| EditScripts.RewriteScript | src/git/gitReads.ts:1345-1355 | some script always exists, so n + m rounds suffice |
| Myers.FarAttained | src/git/gitReads.ts:1362-1374 | every table entry is reached by a script of exactly the round's number of changes |
| Myers.FarDominates | src/git/gitReads.ts:1362-1374 | no script of at most d changes gets further on its diagonal than round d |
| Myers.FirstArrivalIsExact | src/git/gitReads.ts:1375 | the first arrival at or past both ends is exactly at both ends |
| Myers.Extend | src/git/gitReads.ts:1363-1374 | one diagonal is entered and followed as the table rule says |
| Myers.RunRound | src/git/gitReads.ts:1362-1376 | a round ends with an exact arrival, or records its row and rules out scripts of its cost |
| Myers.Myers | src/git/gitReads.ts:1345-1379 | a normal return is a script that turns a into b, and none has fewer changes; the only failure is the work limit |
| Myers.StepBack | src/git/gitReads.ts:1390-1408 | one round is undone in range, and the walk stands where the round before got to |
| Myers.Backtrack | src/git/gitReads.ts:1380-1428 | the trace of d rounds yields a script from a to b with exactly d changes |
| TextLines.RecordsJoin | src/git/gitReads.ts:1339-1344 | splitting a text into lines loses nothing |
| PatchLayout.TaggedInjective | src/git/gitReads.ts:869-883 | the compared lines are equal exactly if the texts are, final newline included |
| PatchLayout.ParseBodyOf | src/git/gitReads.ts:935-956 | the printed counts are what it takes to read a hunk's body back |
| PatchLayout.ParseHunksOf | src/git/gitReads.ts:915-960 | reading the printed hunks gives the hunks of the script |
| PatchHunks.GroupedGivesGeometry | src/git/gitReads.ts:898-913 | hunks are ordered with at least three edits left out between them, and every change lies in one |
| PatchHunks.HunkIsUnique | src/git/gitReads.ts:903-913 | no edit lies in two hunks |
| PatchHunks.HeaderCounts | src/git/gitReads.ts:927-935 | both counts of a header are at least one |
| PatchHunks.DescribedFits | src/git/gitReads.ts:916-935 | a hunk's start and counts fit the text at its place, and lead to the next place |
| PatchHunks.ApplyHunks | src/git/gitReads.ts:915-960 | applying all hunks of a script to what it reads gives what it writes |
| UnifiedPatch.GroupChanges | src/git/gitReads.ts:903-913 | the grouping loop yields runs of changes with their context, ten or more edits apart |
| UnifiedPatch.PrintPatch | src/git/gitReads.ts:915-960 | the output is the layout of exactly these hunks |
| UnifiedPatch.RoundTrip | src/git/gitReads.ts:861-964 | the printed patch, parsed and applied to the old text, gives the new text |
| UnifiedPatch.CanonicalUnifiedPatch | src/git/gitReads.ts:861-964 | empty exactly for equal texts, applies to the new text, made from a shortest script; fails only for the budget or a patch that is too large |
| Phase3Contracts.HistoryBounded | src/phase3/contracts.ts:48-99 | no transaction ever has more than eleven records |
| Phase3Contracts.HistoryWellFormed | src/phase3/contracts.ts:108-143 | what a valid history implies for reload flag, target and prior state of each record |
| Phase3Contracts.TerminalIsLast | src/phase3/contracts.ts:48-99 | nothing follows a terminal record |
| Phase3World.AppendedValid | src/phase3/applyCoordinator.ts:1059-1121 | an allowed transition keeps the history acceptable to the durable journal |
| Phase3World.World.Transition | src/phase3/applyCoordinator.ts:1059-1121 | appends exactly the requested record, or nothing; counts requests that the contracts reject |
| Phase3World.World.Replace | src/phase3/applyCoordinator.ts:273-288 | a compare-and-swap whose status, also on an error, tells the truth |
| Phase3World.World.Verify | src/phase3/verificationAdapter.ts:104-160 | succeeds only if the expected digest is live; counts requests in an illegal state |
| Phase3World.World.ReloadDomain | src/phase3/reloadAdapter.ts:202-263 | completes only with the file loaded; an error that does not admit a started reload had none |
| Phase3Coordinator.Coordinator.Manual | src/phase3/applyCoordinator.ts:792-832 | ends in a terminal record of the same transaction, one retry is enough; throws without an effect if the failure schema refuses the text |
| Phase3Coordinator.Coordinator.CompleteRollbackReload | src/phase3/applyCoordinator.ts:684-706 | succeeds only with the checkpoint loaded, else manual recovery |
| Phase3Coordinator.Coordinator.CompleteRollbackValidationWithCheckpoint | src/phase3/applyCoordinator.ts:635-682 | a committed rollback ends terminal, verified if nothing fails |
| Phase3Coordinator.Coordinator.CompleteRollbackValidation | src/phase3/applyCoordinator.ts:576-633 | with the checkpoint live, every unfinished state ends terminal, with a reload exactly if one may have started |
| Phase3Coordinator.Coordinator.RollbackAfterCommit | src/phase3/applyCoordinator.ts:375-426 | restores the checkpoint by one swap, or ends in manual recovery; if nothing fails, it succeeds exactly if the failure schema admits the cause's text, and otherwise leaves file and reloads alone |
| Phase3Coordinator.Coordinator.ApplyCandidate | src/phase3/applyCoordinator.ts:267-342 | commits, or resolves an unknown commit by the live digest |
| Phase3Coordinator.Coordinator.FinishPostCommit | src/phase3/applyCoordinator.ts:344-373 | verified with the candidate loaded, or rolled back, or manual |
| Phase3Coordinator.Coordinator.Apply | src/phase3/applyCoordinator.ts:182-252 | a normal return is terminal, and verified with the candidate live if nothing fails |
| Phase3Coordinator.Coordinator.RecoverOne | src/phase3/applyCoordinator.ts:483-574 | ends terminal; if nothing fails, with the swap and the reload that the recovery table names, except for the reload where the table is departed from; leaves terminal records alone |
| Phase3Coordinator.Coordinator.Recover | src/phase3/applyCoordinator.ts:254-265 | leaves a terminal record, and does nothing for one, so a second recovery does nothing |
| Phase3Coordinator.Coordinator.AnyRun | src/phase3/applyCoordinator.ts:182-265 | over any run with failures and crashes: file, loaded configuration and journal agree, and no request outside the contracts is ever made |
| Phase3Coordinator.DepartureIsExact | src/phase3/contracts.ts:379-441 | of all unfinished records of valid histories, exactly three kinds get another number of reloads than the table names |
| Phase3Coordinator.InterruptedRollbackOfReload | src/phase3/applyCoordinator.ts:654-659 | a valid history after whose last two records the table names no reload and one is due |
| Phase3Coordinator.NothingToReload | src/phase3/applyCoordinator.ts:654-659 | a valid history for which the table names a reload and none is due |
| Phase3Coordinator.EmptyMessageIsRejected | src/phase3/contracts.ts:271-272 | a cause with an empty message can be thrown by a port, and can be noted neither by a rollback nor by manual recovery |
| Phase3Journal.OneCommitForEachVersion | src/phase3/journal.ts:301-395 | of all calls that write one version of one transaction, at most one is ever confirmed |
| Phase3Journal.ConfirmedForever | src/phase3/journal.ts:301-395 | a confirmed record survives every crash |
| Phase3Journal.ReadableAfterEveryCrash | src/phase3/journal.ts:347-382 | no crash can make the journal unreadable exactly if every followed entry is durable |
| Phase3Journal.RunsWithoutCrashStayReadable | src/phase3/journal.ts:195-281 | any calls in any interleaving, failed synchronizations included, leave entries that are acceptable |
| Phase3Journal.AnchoredRunsStayReadable | src/phase3/journal.ts:301-395 | the same through crashes, if each one finds every followed entry durable |
| Phase3Journal.UnanchoredMayBecomeUnreadable | src/phase3/journal.ts:301-395 | in any run, from any other state one crash can make the journal unreadable |
| Phase3Journal.CarefulRunsStayReadable | src/phase3/journal.ts:195-281 | if every transition starts from a synchronized journal, no crash at any time can make it unreadable |
| Phase3Journal.UnreadableRun | src/phase3/journal.ts:195-281 | a run in which a failed synchronization, a further transition and a crash leave an unreadable journal |
| Phase3Histories.BuildHistories | src/phase3/journal.ts:494-531 | succeeds exactly for acceptable entries of at most 64 transactions, and rebuilds exactly them |
| Phase3Histories.CheckHistory | src/phase3/journal.ts:511-524 | passes exactly for valid histories within the limit |
| Phase3Histories.ArrangedIsValid | src/phase3/journal.ts:509-528 | acceptable entries, sorted by version, have no gap and form a valid history |
| Phase3Histories.RebuiltIsAccepted | src/phase3/journal.ts:494-531 | entries that were rebuilt are accepted by every later scan |
| Phase3Histories.AccountBytes | src/phase3/journal.ts:422-436 | the entry and record limits decide; the aggregate limit can never be exceeded |
| JsonText.UnitsRead | src/phase3/contracts.ts:460-467 | string escapes read back to the string, lone surrogates included |
| CanonicalJson.ParseOfPrint | src/phase3/contracts.ts:460-468 | parsing undoes canonical printing |
| CanonicalJson.PrintIsInjective | src/phase3/contracts.ts:460-468 | canonical texts are equal exactly if the values are, whatever the order of keys |
| CanonicalJson.EnvelopeRoundTrip | src/phase3/journal.ts:824-858 | the one text accepted for a record is the one written for it |
| ApprovalGrants.ConsumedAtMostOnce | src/phase3/durableApproval.ts:1456-1621 | over every interleaving with crashes at most one consumer ever succeeds |
| ApprovalGrants.SuccessIsFinal | src/phase3/durableApproval.ts:935-967 | the receipt of a success is stored for good, and every later consumer is refused at once |
| ApprovalGrants.ReplayIsFinal | src/phase3/durableApproval.ts:1581-1618 | a consumer that lost the race leaves another one's receipt stored |
| ApprovalGrants.FailureIsCertain | src/phase3/durableApproval.ts:1557-1580 | a failure reported as certain never turns out to have committed |
| ApprovalGrants.TopologyStaysOk | src/phase3/durableApproval.ts:2544-2562 | link counts are as a scan demands in every reachable state, also after a crash |
| ProposalRecovery.AmbiguousIffMovedOn | src/proposals/proposalService.ts:569-592 | a journal is ambiguous exactly if its proposal has moved on or is missing; what the second check finds is exactly a lost proposal that was marked as added |
| ProposalRecovery.LossMakesAmbiguous | src/proposals/storage.ts:685-729 | which proposals, once in the quarantine, make which journals ambiguous |
| ProposalRecovery.WhatMakesAmbiguous | src/proposals/proposalService.ts:443-474 | which expiry or discard makes which leftover journal ambiguous |
| ProposalRecovery.RefusedStart | src/proposals/proposalService.ts:569-592 | a disk with the journal of a failed discard that a start accepts before the proposal expires, and refuses after it |
| ProposalRecovery.FailedButWritten | src/proposals/proposalService.ts:532-563 | a disk on which a proposal is stored and its operation reported as failed |
| ProposalRecovery.RefusedForGood | src/proposals/proposalService.ts:584-592 | a disk that a start accepts, and refuses once the proposal is in the quarantine |
| ProposalRecovery.ProposalService.ScanProposals | src/proposals/storage.ts:460-494 | at most one proposal goes to the quarantine, and only if the scan fails |
| ProposalRecovery.ProposalService.ScanJournals | src/proposals/storage.ts:547-581 | at most one journal goes to the quarantine, and only if the scan fails |
| ProposalRecovery.ProposalService.CommitMutation | src/proposals/proposalService.ts:476-530 | after a normal return the effect is written and journalled, after an error the outcome tells whether it was |
| ProposalRecovery.ProposalService.FinishMutation | src/proposals/proposalService.ts:532-563 | records the outcome before the journal goes; only a failing read of the journals leaves none |
| ProposalRecovery.ProposalService.Operate | src/proposals/proposalService.ts:188-418 | whatever happens, the disk stays recoverable; a returned operation has its outcome unless the audit failed, and its effect unless it says otherwise; if the journals could not be read back, the only outcome is a failure |
| ProposalRecovery.ProposalService.ReconcileOne | src/proposals/proposalService.ts:569-621 | settles one journal, or refuses exactly the ambiguous ones |
| ProposalRecovery.ProposalService.Initialize | src/proposals/proposalService.ts:81-86 | leaves no journal and one outcome for every attempt, keeps earlier outcomes, and fails exactly the open operations without an effect in the store; without failures it succeeds exactly if no proposal moved on or is missing and interrupted writes left nothing |
| ProposalRecovery.ProposalService.Restart | src/proposals/storage.ts:208-248 | after crashes only, as many further starts as there are files left behind are enough, unless an audit record was cut behind a brace |
| ProposalRecovery.ProposalService.AnyRun | src/proposals/proposalService.ts:81-86 | proposals only disappear into the quarantine; after crashes only, nothing but another crash or such an audit record keeps the service from starting, and an operation that had something to write is reported failed exactly if its effect is absent |
| EpochRotation.Retention.Rotate | src/phase3/retention.ts:132-169 | adds exactly the old active epoch as an archive, or nothing; if nothing fails it completes with an epoch that can be opened, exactly when eligible and within budget |
| EpochRotation.Retention.InitializeHeader | src/phase3/durableApproval.ts:1088-1185 | the header is staged, linked and unstaged; success is reported also if it stays staged |
| EpochRotation.Retention.Resume | src/phase3/retention.ts:171-187 | if nothing fails again, completes an interrupted rotation exactly if the marker has its text and a successor has no staged header; otherwise nothing changes |
| EpochRotation.Retention.GoOn | src/phase3/retention.ts:102-187 | if nothing fails, bootstrapping, resuming or opening succeeds exactly in the states that are not stuck |
| EpochRotation.Retention.TornMarker | src/phase3/retention.ts:152-162 | a stuck state behind a marker without its text |
| EpochRotation.Retention.StagedHeader | src/phase3/retention.ts:366-385 | a stuck state with a staged header in the successor |
| EpochRotation.Retention.UnopenedSuccessor | src/phase3/retention.ts:387-408 | a stuck state that a rotation leaves as completed |
| EpochRotation.Retention.Archive | src/phase3/retention.ts:197-213 | renames the marked epoch and nothing else, at most once |
| EpochRotation.Retention.OpenEpoch | src/phase3/retention.ts:114-130 | refuses while a marker exists, and incomplete epochs |
| EpochRotation.Retention.Initialize | src/phase3/retention.ts:102-112 | bootstraps an empty parent only, and can be opened afterwards if nothing fails |
| EpochRotation.Retention.AnyRun | src/phase3/retention.ts:102-240 | no epoch ever disappears, archives stay unaltered and within the budget; once stuck, nothing changes again |
| GuardedChanges.SentAtMostOnce | src/guardedChanges.ts:191-290 | a change is sent at most once, with its record on the disk and no unsettled one for its target |
| GuardedChanges.UncertainBlocksForever | src/guardedChanges.ts:489-516 | after an uncertain change nothing is sent to its target again, through restarts |
| GuardedChanges.OnlySettledIsArchived | src/guardedChanges.ts:55-106 | archiving moves only settled records, and alters nothing else |
| GuardedChanges.SentIsRecorded | src/guardedChanges.ts:253-278 | whatever was sent has a record in every later state |
| MutationLock.MutationLock.AcquireQueue | src/phase3/resourceLocks.ts:60-135 | a free lock in time gives a lease, a held one with room gives a place in the queue; each refusal has exactly one reason |
| MutationLock.MutationLock.Offer | src/phase3/resourceLocks.ts:159-184 | the first waiter takes the lock exactly if it is not cancelled and in time, else it is rejected; it is never inactive |
| MutationLock.MutationLock.HandOver | src/phase3/resourceLocks.ts:156-186 | the first waiter neither cancelled nor late gets the lock, those before it are rejected, and it is freed only without one |
| MutationLock.MutationLock.ReleaseLease | src/phase3/resourceLocks.ts:144-154 | repeated release has no effect; a live waiter always gets the lock |
| MutationLock.MutationLock.Abort | src/phase3/resourceLocks.ts:89-100 | a cancelled waiter leaves the queue, and nothing else changes |
| MutationLock.MutationLock.Timeout | src/phase3/resourceLocks.ts:121-132 | a waiter whose timer fires leaves the queue as late, and nothing else changes |
| MutationLock.MutationLock.MutualExclusion | src/phase3/resourceLocks.ts:60-186 | of the leases that were granted and not yet returned there is at most one, the latest |
| MutationLock.MutationLock.FirstComeFirstServed | src/phase3/resourceLocks.ts:60-186 | leases are granted in the order of arrival |
| MutationLock.MutationLock.AnyRun | src/phase3/resourceLocks.ts:60-186 | over any run of requests, signals, timers and releases: each lease is returned before the next is granted, grants follow arrival, and a free lock has no waiter |
| LiteralSearch.FallBack | src/repository/repositoryReads.ts:800-804 | after a mismatch nothing between the candidate and its longest border matches |
| LiteralSearch.BoundedLiteralSearch.BuildTable | src/repository/repositoryReads.ts:773-788 | the table holds the longest border of every prefix, with at most 2(q - 1) comparisons; it is cancelled only at a multiple of 256 short of that |
| LiteralSearch.BoundedLiteralSearch.Find | src/repository/repositoryReads.ts:797-810 | the least occurrence or -1, with at most 2t comparisons; it is cancelled only at a multiple of 256 short of that |

## Left out

- Child processes, sockets, HTTP, WebSocket, TLS, pairing and terminal or form dialogs: the protocols see them as ports that may fail.
- The native helpers, YAML validation, redaction, owner and mode checks, byte wiping and the wording of errors.
- The journal, the grants and the guarded changes are relations over values, because their claims are about interleavings of several processes; the statements inside one step are not modelled one by one.
- Clocks: times are arbitrary, and expiry is a choice, except in the mutation lock, whose clock only moves on.
- Diff cancellation and deadlines: the poller that charges the work budget may also stop a diff when its operation is cancelled.
- UnifiedPatch.CanonicalUnifiedPatch: minimality is that of the lines as they are compared, where the last line carries how it ends; a path with a newline is printed but not promised to be readable.
- Myers.Myers: the integer width of positions does not matter, because the work budget keeps them small.
- Several transactions in one epoch for the coordinator: the operator refuses a second one (src/phase3/operatorRuntime.ts:301); the journal itself is modelled for any number.
- Phase3Coordinator.Coordinator.Prepare: proposal policy, locks and the consumption of the grant are calls without an effect on file and journal here; grants and locks have modules of their own.
- Phase3World.World.Transition: the version conflict carries its code only for the in-memory journal, as in the source; the two journals differ in nothing else here.
- The journal's pending directories and capacity limits under concurrent writers, and identity checks of its files.
- Phase3Journal.ReadableAfterEveryCrash: directory entries are lost one by one; reordering within a file system's own journal is not assumed away.
- CanonicalJson.ParseOfPrint: numbers are integers, without fraction or exponent; undefined properties, which JSON cannot express, are not values here, and the UTF-8 form of a text is not part of this model.
- ApprovalGrants.ConsumedAtMostOnce: issuing grants, the store header and the contents of grants and receipts; a new file gets an inode that no entry uses.
- ProposalRecovery.ProposalService.Operate: operations follow one another; two mutations of one proposal that overlap outside the serialized section are not modelled. The rotation of the audit is not either, nor are limits of the quarantine; what goes there never comes back.
- EpochRotation.Retention.Rotate: archive sizes and the operator's audit file; a directory change whose synchronization failed is not undone by a later crash. That a completed rotation or bootstrap can be opened is only promised if nothing fails, because the code does not report a header that stays staged.
- EpochRotation.Retention.AnyRun: removing files by hand or with `remediateStaleStages`, which no operator command does.
- GuardedChanges.SentAtMostOnce: one process, or several under the lease; the contents of plans, and the capacity of pending changes and of the history. A record's status and its place become durable separately, each atomically.
- LiteralSearch.BoundedLiteralSearch.Find: characters stand for UTF-16 code units.
- MutationLock.MutationLock.AcquireQueue: paths, which do not influence the one queue.
- The permit queue and the frame parser of the atomic apply runner, the validators of grants and proposals, listing with cursors, the command line and the tool descriptors.
