# PinkyBot daemon: a verified model

PinkyBot's daemon keeps several small protocols that have to survive stale
callers, crashes half-way and partial failures. This project models them and
proves what they promise over every input, every interleaving and every fault.

| part | files | what is proved |
|---|---|---|
| Exact-fire wake ledger | `WakeRow`, `WakeProtocol`, `WakeSteps`, `WakeRuns`, `AgentRegistry`, `WakeQueries` | a durable outbox, one row per cron fire, as a state machine over its committed methods; an invariant and a forward-only evolution of every row over all runs; paste at most once; receipts are final; the supersession floor is a true maximum |
| Outbox reaper | `OutboxReaper`, `ReaperTheorems`, `ReaperOutcomes` | five batched phases: batch size is invisible, the pass conserves rows, is idempotent, and what it does to each row follows from the row's state and times alone |
| Stale-drop aggregate | `StaleDrops` | ABA-safe acknowledgement, conservation of drops, and what the aggregate row means |
| Cron search | `CronSearch` | day skipping refines the minute-by-minute scan |
| Access log | `AccessLog` | the file is exactly the completed records under every fault schedule |
| Claude account switch | `EnvFile`, `AccountSwitch` | all loaders agree after a rewrite; `.env` and `active.token` agree after every outcome of a switch |
| Message threads | `MessageThreads` | the bounded walk and the recursive closure over the forest that sending keeps |
| API readiness gate | `ApiReadiness` | a latch with a deadline, late recovery and close, over every interleaving |
| Access enforcement | `AccessModel`, `AccessGate` | a fail-closed decision and the admin folding around it |
| V3 export | `LineageExport`, `PrincipalExport` | lineage without forks or dangling links; principals that are distinct, complete and count every held message once |

Shared helpers are in `Prelude`, `FiniteSets` (sorted listings, used by every
ordered query) and `PyText` (Python string operations).

Objects the program updates in place are classes here
(`AgentRegistry.AgentRegistry`, `StaleDrops.StaleDropTable`,
`AccessLog.AccessLogWriter`, `AccountSwitch.AccountStore`,
`MessageThreads.AgentComms`, `ApiReadiness.ApiReadiness`,
`AccessGate.AccessGate`). Each method is proved to take exactly one step of a
transition function, and the theorems are about runs of those steps. Loops of the
program are loops here, each proved against a specification function.

## Where the code and its promises part

The model follows the code. These are the places where a promise one might read
into the code fails; each is stated as the exact condition under which it holds.

- A paste stamped zero can be repeated: the column's "not pasted" value is zero
  and `mark_schedule_wake_pasted` does not check its stamp
  (`WakeRuns.PasteRepeatsIff`, `WakeRuns.ZeroStampPastesTwice`).
- The docstring of `mark_schedule_wake_pasted` rules out a second submission of the
  same exact fire. That holds while the row lives. Persisting a fire and pasting it
  succeeds if and only if no row of the fire stands in the way
  (`WakeRuns.PersistThenPasteIff`). So after a real paste it succeeds, at any later
  moment of any run, if and only if the pasted row is gone and no later row of the fire
  is in the way (`WakeRuns.SecondPasteIff`). The row goes only by its own delete, or by
  a reap once it is terminal (`WakeRuns.SecondPasteOfFire`); both happen
  (`WakeRuns.DeletedFirePastesAgain`, `WakeRuns.ReapedFirePastesAgain`).
- A negative explicit stamp is written as given. It breaks the ledger invariant exactly
  when it lands in a row (`WakeProtocol.NegativeStampIff`,
  `WakeProtocol.NegativeConfirmIff` for both confirms); a row parked that way is in none of the five
  listings (`WakeProtocol.NegativeParkUnlisted`).
- A thread deeper than fifty replies is split: the walk stops short of the root
  (`MessageThreads.ThreadOfMessage`; `MessageThreads.LongChainSplits` for the table
  fifty-two sends build).
- Folding admin scopes turns a non-list `admins` value into a list. A request
  naming `admins` as its section is then decided differently when that value was
  an object (`AccessGate.OthersUnchangedIff`, `AccessGate.FoldCanDeny`).
- Rewriting one key is meant to leave every other reading alone. The script's own
  readings it does leave alone; the daemon's it changes in two ways. The daemon takes
  `export KEY` for a key of that name, and that reading is lost when `KEY` is rewritten
  (`EnvFile.ExportReadingLost`). And the daemon splits the file at newlines only, while
  the script splits at every Unicode line boundary and writes newlines: a value holding
  a form feed is cut short and its tail can become an assignment
  (`EnvFile.ScriptBreakReadingLost`, `EnvFile.FormFeedExample`). The exact condition,
  over the file's text, is `EnvFile.OtherDaemonReadings`; the splits agree if and only
  if newlines are the only boundaries (`EnvFile.SplitsAgreeIff`).
- `_revert` gives up, leaving the new `.env` in place, when its reserved-slot check
  fails, not only when the restoring copy fails. The account index does not change under
  the lock, and the same check passed before, so it fails there only when the index can
  no longer be read (`AccountSwitch.AccountStore.Switch` for every combination of faults,
  `AccountSwitch.SwitchStays` for one).
- The cron search requires day-of-month and day-of-week together; POSIX.1-2017
  (crontab, INPUT FILES) takes either when both are restricted. The search answers as
  POSIX would if and only if the first POSIX minute falls on a day matching both
  (`CronSearch.AgreesWithPosixIff`), which is always so when one field is
  unrestricted (`CronSearch.OneDayFieldAgrees`); `CronSearch.FridayTheThirteenth` is a
  start and a calendar on which they differ.
- A wake row that was both parked and abandoned would match none of the five state
  filters. No reachable row is (`WakeRow.FiltersAgreeIff`, `WakeRuns.FiltersPartition`).
- Chat ids of the lease-stop record are stripped and those of the tables are not. A
  recorded chat is matched with its table row if and only if the table's id carries no
  surrounding blanks (`PrincipalExport.MatchedIffStripped`); otherwise one chat becomes
  two principals (`PrincipalExport.PaddedChatIsTwoPrincipals`, `PrincipalExport.PaddedFive`).

## Model

| member | source | states |
|---|---|---|
| WakeRow.FiltersAgreeIff | src/pinky_daemon/agent_registry.py:895-911 | the five ledger filters and `ledger_state` classify a row alike if and only if it is not parked and abandoned at once without a receipt |
| WakeProtocol.StepSound | src/pinky_daemon/agent_registry.py:5750-6445 | every committed step, with whatever stale id, keeps the invariant (at most one of accepted, parked, abandoned, drain-parked; released implies not drain-parked; one row per exact fire) and moves every row only forward |
| WakeSteps.Park | src/pinky_daemon/agent_registry.py:6100-6125 | an owed row becomes quarantined at the stamp with the reason, its first failure time, attempts, paste and payload kept; any other row, and the rest of the ledger, is untouched |
| WakeSteps.Abandon | src/pinky_daemon/agent_registry.py:6232-6260 | an owed row becomes abandoned at the stamp with the reason, the rest kept |
| WakeSteps.DrainPark | src/pinky_daemon/agent_registry.py:6127-6158 | a pending row becomes drain-parked at the stamp with the reason, its release stamp cleared, the rest kept |
| WakeSteps.Discard | src/pinky_daemon/agent_registry.py:6387-6423 | an owed row in scope becomes quarantined at the clock as discarded; no failure time is recorded |
| WakeSteps.Delete | src/pinky_daemon/agent_registry.py:6425-6445 | exactly one pending row goes, or nothing changes |
| WakeSteps.Attempt | src/pinky_daemon/agent_registry.py:6078-6098 | a pending row counts one attempt and nothing else changes |
| WakeSteps.Fail | src/pinky_daemon/agent_registry.py:6044-6076 | the pending row of the fire gets the reason and keeps its first failure time |
| WakeSteps.Paste | src/pinky_daemon/agent_registry.py:5865-5883 | the unpasted pending row of the fire gets the time, the session and the prompt, each in its own column |
| WakeSteps.NoRowNoEffect | src/pinky_daemon/agent_registry.py:5865-5883 | without a row of the fire a paste or a failure changes nothing |
| WakeSteps.Release | src/pinky_daemon/agent_registry.py:6184-6203 | exactly the agent's drain-parked rows become pending, with a release stamp and their retry evidence kept |
| WakeSteps.Persist | src/pinky_daemon/agent_registry.py:5814-5863 | an unknown fire gets one new pending row with this fire and payload; a known one changes nothing |
| WakeSteps.Claim | src/pinky_daemon/agent_registry.py:5750-5799 | a won claim sets that schedule's `last_run` alone and adds the row if the fire is new; a lost one changes nothing |
| WakeSteps.Ran | src/pinky_daemon/agent_registry.py:5578-5598 | sets one schedule's `last_run` alone, if the condition holds |
| WakeSteps.AddSchedule | src/pinky_daemon/agent_registry.py:5386-5414 | a new schedule id with nothing run, delivered or accepted |
| WakeSteps.Confirm | src/pinky_daemon/agent_registry.py:6289-6330 | the row is receipted with its first receipt time kept and its error cleared; its schedule's delivery time and floor become maxima |
| WakeSteps.ConfirmLedgerless | src/pinky_daemon/agent_registry.py:5600-5619 | the delivery time is set and the floor only rises |
| WakeSteps.RankMeans | src/pinky_daemon/agent_registry.py:895-911 | the severity order of the five states |
| WakeProtocol.ReapForward | src/pinky_daemon/agent_registry.py:6612-6758 | a whole reaper pass is such a step too |
| WakeProtocol.ConfirmedForward | src/pinky_daemon/agent_registry.py:6289-6385 | a confirm, which may overwrite parked and abandoned, only raises the row's rank and keeps write-once stamps |
| WakeProtocol.ConfirmsAgree | src/pinky_daemon/agent_registry.py:6289-6385 | confirming by id and by exact fire is one transition, whatever the stamp |
| WakeProtocol.NegativeStampIff | src/pinky_daemon/agent_registry.py:6100-6260 | park, abandon and drain-park keep the invariant if and only if the stamp is positive or their guard refuses the row |
| WakeProtocol.NegativeConfirmIff | src/pinky_daemon/agent_registry.py:6289-6385 | either confirm keeps it if and only if the stamp is positive, or the row is already accepted and the agent has nothing drain-parked |
| WakeProtocol.NegativeParkUnlisted | src/pinky_daemon/agent_registry.py:6002-6029 | a row parked at a negative time matches none of the five filters |
| WakeRuns.RunSound | src/pinky_daemon/agent_registry.py:5750-6794 | over every run the invariant holds and each surviving row is a forward evolution of itself: rank never falls, accepted, failed and pasted stamps are write-once, a terminal row is never owed again, the prompt of an owed row never changes, ids are never reused, the supersession floor never falls |
| WakeRuns.PrefixesEvolve | src/pinky_daemon/agent_registry.py:5750-6794 | the same between any two moments of one run |
| WakeRuns.ReceiptIsForever | src/pinky_daemon/agent_registry.py:6313-6330 | a positive receipt is never undone or restamped by any later steps |
| WakeRuns.ConfirmReleasesAgent | src/pinky_daemon/agent_registry.py:6289-6385 | both confirms are the same transition: the row is accepted, the agent is left with no drain-parked row, every other row is released to pending or untouched |
| WakeRuns.ClaimLeavesRow | src/pinky_daemon/agent_registry.py:5750-5799 | a won claim sets `last_run` and leaves an exact-fire row; existing rows are untouched |
| WakeRuns.ClaimRace | src/pinky_daemon/agent_registry.py:5769-5777 | of two claimers that read the same `last_run`, the second wins too if and only if the first wrote that very value back |
| WakeRuns.PasteAtMostOnce | src/pinky_daemon/agent_registry.py:5865-5883 | in one row's life at most one non-zero paste succeeds, whatever steps intervene |
| WakeRuns.PasteRepeatsIff | src/pinky_daemon/agent_registry.py:5865-5883 | an immediately repeated paste succeeds if and only if its stamp is zero; no other row changes |
| WakeRuns.ZeroStampPastesTwice | src/pinky_daemon/agent_registry.py:5865-5883 | a concrete reachable ledger in which a zero-stamp paste succeeds twice |
| WakeRuns.PastedRowRemoved | src/pinky_daemon/agent_registry.py:6425-6445 | a pasted row disappears only by its own delete, or by a reap once it is terminal |
| WakeRuns.PersistThenPasteIff | src/pinky_daemon/agent_registry.py:5814-5883 | in every sound ledger, persisting a fire and pasting it succeeds if and only if every row of the fire is unpasted and fully active |
| WakeRuns.SecondPasteIff | src/pinky_daemon/agent_registry.py:5814-5883 | after a non-zero paste, at any later moment of any run, persisting the fire again and pasting it succeeds if and only if the pasted row is gone and no later row of the fire is in the way |
| WakeRuns.SecondPasteAfterRemovalIff | src/pinky_daemon/agent_registry.py:5814-5883 | while no other row of the fire exists, that is exactly when the pasted row is gone |
| WakeRuns.SecondPasteOfFire | src/pinky_daemon/agent_registry.py:5865-5883 | in any run two non-zero pastes of one exact fire are on different rows, and between them the first row was deleted, or ended and was reaped |
| WakeRuns.DeletedFirePastesAgain | src/pinky_daemon/agent_registry.py:5865-5883 | a concrete run from the empty ledger that pastes one fire twice around a delete |
| WakeRuns.ReapedFirePastesAgain | src/pinky_daemon/agent_registry.py:5865-5883 | a concrete run from the empty ledger that pastes one fire twice around a confirm and a reap |
| WakeRuns.FloorIsMax | src/pinky_daemon/agent_registry.py:5600-5619 | over every run `last_accepted_fired_at` is the maximum of its starting value and every fire confirmed by row id, by exact fire or ledgerless, reaping included |
| WakeRuns.FloorStep | src/pinky_daemon/agent_registry.py:6303-6312 | one step moves the floor to the maximum of its old value and the fires that step confirms |
| WakeRuns.FiltersPartition | src/pinky_daemon/agent_registry.py:5971-6035 | in every reachable table the five filters select exactly the rows `ledger_state` puts in each state |
| AgentRegistry.AgentRegistry.ClaimScheduleFire | src/pinky_daemon/agent_registry.py:5750-5799 | refuses a non-positive time; otherwise takes the claim step, wins exactly when `last_run` is the expected value, and returns the exact-fire row |
| AgentRegistry.AgentRegistry.UpdateScheduleLastRun | src/pinky_daemon/agent_registry.py:5578-5598 | sets `last_run` if it is unchanged or unconditionally, touching nothing else |
| AgentRegistry.AgentRegistry.SelectByFire | src/pinky_daemon/agent_registry.py:5801-5812 | finds the one row of an exact fire if there is one |
| AgentRegistry.AgentRegistry.PersistScheduleWake | src/pinky_daemon/agent_registry.py:5814-5863 | inserts a row unless the exact fire has one; `created` tells which; refuses a non-positive time |
| AgentRegistry.AgentRegistry.MarkScheduleWakePasted | src/pinky_daemon/agent_registry.py:5865-5883 | stamps exactly the unpasted, fully active row of the fire and says whether there was one |
| AgentRegistry.AgentRegistry.RecordScheduleWakeFailure | src/pinky_daemon/agent_registry.py:6044-6076 | records a reason on an active row, keeps the first failure time, and says whether this was the first |
| AgentRegistry.AgentRegistry.IncrementAttempts | src/pinky_daemon/agent_registry.py:6078-6098 | counts one attempt on a fully active row only |
| AgentRegistry.AgentRegistry.ParkPendingScheduleWake | src/pinky_daemon/agent_registry.py:6100-6125 | quarantines an owed row, drain-parked or not, clearing the drain mark and keeping the first failure time |
| AgentRegistry.AgentRegistry.DrainParkPendingScheduleWake | src/pinky_daemon/agent_registry.py:6127-6158 | drain-parks a fully active row and clears its release stamp |
| AgentRegistry.AgentRegistry.ReleaseDrainParked | src/pinky_daemon/agent_registry.py:6160-6182 | releases exactly the agent's drain-parked rows and counts them |
| AgentRegistry.AgentRegistry.ReleaseLocked | src/pinky_daemon/agent_registry.py:6184-6203 | the row-by-row release equals the set-based release and touches no terminal row |
| AgentRegistry.AgentRegistry.AbandonPendingScheduleWake | src/pinky_daemon/agent_registry.py:6232-6260 | abandons an owed row, clearing the drain mark |
| AgentRegistry.AgentRegistry.ConfirmPendingScheduleWake | src/pinky_daemon/agent_registry.py:6289-6330 | true exactly when the row exists; takes the confirm step on row, schedule and agent together |
| AgentRegistry.AgentRegistry.ConfirmPendingScheduleWakeByFire | src/pinky_daemon/agent_registry.py:6332-6385 | the same by exact fire |
| AgentRegistry.AgentRegistry.UpdateScheduleLastDelivered | src/pinky_daemon/agent_registry.py:5600-5619 | raises the floor to the confirmed fire, never lowers it, and changes no wake row |
| AgentRegistry.AgentRegistry.DiscardPendingScheduleWake | src/pinky_daemon/agent_registry.py:6387-6423 | tombstones an owed row, only within the scope agent when one is given |
| AgentRegistry.AgentRegistry.DeletePendingScheduleWake | src/pinky_daemon/agent_registry.py:6425-6445 | deletes a fully active row and no other |
| AgentRegistry.AgentRegistry.ApplyBatched | src/pinky_daemon/agent_registry.py:6510-6531 | for every batch size of at least one the loop terminates, leaves the table the unlimited statement leaves, and adds exactly the rows touched to one counter of each agent |
| AgentRegistry.AgentRegistry.RunPhases | src/pinky_daemon/agent_registry.py:6612-6761 | the five batched phases equal the five one-shot phases in order, and all six counters are exact per agent |
| AgentRegistry.AgentRegistry.ReapPendingScheduleWakes | src/pinky_daemon/agent_registry.py:6447-6794 | refuses non-positive windows, time or batch size and changes nothing; otherwise the resulting table does not depend on the batch size |
| AgentRegistry.LowestIds | src/pinky_daemon/agent_registry.py:6626-6627 | ORDER BY id LIMIT n: the n lowest candidates, or all of them |
| AgentRegistry.CountRows | src/pinky_daemon/agent_registry.py:6525-6529 | counting the returned rows one by one adds each agent's number of rows to one counter and to no other |
| AgentRegistry.Bump | src/pinky_daemon/agent_registry.py:6502-6508 | one row bumps one counter of one agent, creating a zeroed entry when needed |
| AgentRegistry.MetricsTellOutcome | src/pinky_daemon/agent_registry.py:6492-6544 | each reported field, by name, is the number of the agent's rows it is named for |
| OutboxReaper.NewestAbove | src/pinky_daemon/agent_registry.py:6675-6689 | above any superseded marker stands one that nothing supersedes (order by park time, then id) |
| OutboxReaper.NewerSurvives | src/pinky_daemon/agent_registry.py:6664-6695 | deleting any batch of superseded markers leaves every remaining row's "newer row exists" test as it was |
| OutboxReaper.TrimKeepsNewer | src/pinky_daemon/agent_registry.py:6697-6758 | trimming payloads never changes that test either |
| OutboxReaper.BatchShrinksCandidates | src/pinky_daemon/agent_registry.py:6612-6758 | in each of the five phases a batch removes exactly itself from the candidate set |
| OutboxReaper.BatchesCompose | src/pinky_daemon/agent_registry.py:6510-6531 | two disjoint batches in a row are one larger batch |
| OutboxReaper.BatchingIsInvisible | src/pinky_daemon/agent_registry.py:6510-6531 | any exhaustive list of batches, of whatever sizes, ends in the one-shot table |
| ReaperTheorems.PassConserves | src/pinky_daemon/agent_registry.py:6632-6695 | per agent, rows before = rows after + accepted_reaped + abandoned_reaped + parked_reaped |
| ReaperTheorems.FreshAbandonmentSurvives | src/pinky_daemon/agent_registry.py:6612-6631 | a row abandoned by a pass is neither deleted nor trimmed by that pass |
| ReaperTheorems.OwedRowsAfterPass | src/pinky_daemon/agent_registry.py:6612-6631 | the owed rows left by a pass are exactly the earlier owed rows that were pasted or within the ceiling, and they are untouched, prompt included |
| ReaperTheorems.NewestMarkerKept | src/pinky_daemon/agent_registry.py:6664-6695 | a marker that is its schedule's newest undiscarded one when the pass starts is never deleted, however old |
| ReaperTheorems.ScheduleKeepsMarker | src/pinky_daemon/agent_registry.py:6612-6695 | a schedule with an undiscarded marker that the pass does not reclassify still has one afterwards |
| ReaperTheorems.DeletedIffExpired | src/pinky_daemon/agent_registry.py:6597-6758 | a row disappears if and only if, in the table the pass starts from, its retention has run out and the pass does not abandon it |
| ReaperTheorems.TrimmedIffDue | src/pinky_daemon/agent_registry.py:6696-6758 | a row is trimmed if and only if, in the table the pass starts from, its trim window has run out |
| ReaperTheorems.PassRowByRow | src/pinky_daemon/agent_registry.py:6597-6758 | the whole pass row by row, read off the table it starts from: abandoned, deleted, trimmed or untouched, and no new rows |
| ReaperOutcomes.DeletedByState | src/pinky_daemon/agent_registry.py:6632-6695 | by the row's state and the time since its outcome: owed rows are never deleted, receipts, abandonments and discards when their window has run out, other markers only if a later one of the schedule outlives them |
| ReaperOutcomes.StateAfterPass | src/pinky_daemon/agent_registry.py:6612-6631 | a surviving row is abandoned at the pass's time if and only if it is owed, unpasted and past the ceiling, or an unpasted marker with the legacy text; every other keeps its state and all but its prompt |
| ReaperOutcomes.ReclassifiedIff | src/pinky_daemon/agent_registry.py:6614-6625 | a quarantined row becomes abandoned if and only if it is unpasted and carries the legacy marker |
| ReaperOutcomes.ExhaustedMarkerStays | src/pinky_daemon/agent_registry.py:6614-6625 | a marker that says "delivery attempts exhausted" stays quarantined |
| ReaperOutcomes.PromptAfterPass | src/pinky_daemon/agent_registry.py:6696-6758 | a surviving row loses its prompt if and only if it is terminal, not reclassified, past its trim window and, for an undiscarded marker, outlived |
| ReaperOutcomes.LegacyMarkerIff | src/pinky_daemon/agent_registry.py:6621-6624 | which texts carry the legacy marker, character by character |
| ReaperOutcomes.NoLegacyMarkers | src/pinky_daemon/agent_registry.py:6621-6624 | three texts that do not |
| ReaperOutcomes.AbandonedCount | src/pinky_daemon/agent_registry.py:6521-6529 | the abandoned counter is the number of the agent's rows that became abandoned |
| ReaperOutcomes.AcceptedCount | src/pinky_daemon/agent_registry.py:6632-6643 | the accepted counter is the number of its receipts that disappeared |
| ReaperOutcomes.TerminalCount | src/pinky_daemon/agent_registry.py:6644-6662 | the abandoned-reaped counter is the number of its abandonments and discards that disappeared |
| ReaperOutcomes.ParkedCount | src/pinky_daemon/agent_registry.py:6663-6695 | the parked counter is the number of its other markers that disappeared |
| ReaperOutcomes.TrimmedCount | src/pinky_daemon/agent_registry.py:6696-6758 | the trimmed counter is the number of its rows whose prompt changed |
| ReaperTheorems.NewerAtParkedPhase | src/pinky_daemon/agent_registry.py:6664-6695 | the supersession test made after three phases, read off the first table |
| ReaperTheorems.LaterPhaseAddsNone | src/pinky_daemon/agent_registry.py:6612-6758 | no phase creates work for an earlier one |
| ReaperTheorems.PassIsIdempotent | src/pinky_daemon/agent_registry.py:6447-6794 | a second pass at the same instant changes nothing |
| WakeQueries.ListPendingScheduleWakes | src/pinky_daemon/agent_registry.py:5885-5917 | the default list is exactly the pending rows by (fired_at, id), each once; with `include_parked` every row without a receipt |
| WakeQueries.ListScheduleWakeLedger | src/pinky_daemon/agent_registry.py:5971-6035 | the newest matching rows, newest first, as many as exist up to the clamped limit; every matching row left out is older |
| WakeQueries.InLedgerByState | src/pinky_daemon/agent_registry.py:5996-6029 | a sound row is selected by agent, by fire time and by its ledger state |
| WakeQueries.HealthCoversUnsettled | src/pinky_daemon/agent_registry.py:5931-5942 | the three health cases are the ledger states and together count every row neither accepted nor parked |
| WakeQueries.AgentHealth | src/pinky_daemon/agent_registry.py:5931-5968 | one agent's row: exact counts that add up to its unsettled rows, attained oldest and newest fire times, and the age of the oldest |
| WakeQueries.GetHealth | src/pinky_daemon/agent_registry.py:5919-5969 | one such row for exactly the agents with unsettled work, all of them or the one asked for, in order of name |
| StaleDrops.StaleDropTable.Record | src/pinky_daemon/agent_registry.py:5621-5703 | refuses bad arguments; otherwise starts or extends the aggregate and always raises its generation |
| StaleDrops.StaleDropTable.List | src/pinky_daemon/agent_registry.py:5705-5718 | exactly the agent's outstanding aggregates, by schedule id |
| StaleDrops.StaleDropTable.Acknowledge | src/pinky_daemon/agent_registry.py:5720-5748 | clears notice by notice only the rows whose agent and generation still match, and counts them |
| StaleDrops.RecordMeans | src/pinky_daemon/agent_registry.py:5648-5702 | who is written where: agent, bounded name, generation and count of one row; no other row changes |
| StaleDrops.AcknowledgeMeans | src/pinky_daemon/agent_registry.py:5735-5747 | a matching notice zeroes one count and changes nothing else |
| StaleDrops.ClearedRowsCounted | src/pinky_daemon/agent_registry.py:5734-5748 | the returned number is the number of rows emptied |
| StaleDrops.DeliveryIsSteps | src/pinky_daemon/agent_registry.py:5720-5748 | a batch acknowledgement is a run of single ones |
| StaleDrops.DropsConserved | src/pinky_daemon/agent_registry.py:5621-5748 | over every run, drops recorded = drops cleared + drops outstanding |
| StaleDrops.RowHistory | src/pinky_daemon/agent_registry.py:5648-5702 | the generation of a row counts the drops recorded since any earlier view of it |
| StaleDrops.RunKeyed | src/pinky_daemon/agent_registry.py:5621-5748 | every reachable table keeps each row under its own schedule id |
| StaleDrops.LateAcknowledgement | src/pinky_daemon/agent_registry.py:5720-5748 | in any run, a snapshot taken along the way clears a row if and only if the row is still that very snapshot; it then removes its own count and no drop recorded later |
| StaleDrops.RowIsAggregate | src/pinky_daemon/agent_registry.py:5648-5702 | over every run the row is the exact aggregate (number, first, last, greatest age) of the drops not yet cleared |
| CronSearch.FirstMinute | src/pinky_daemon/agent_registry.py:421-435 | the first firing minute of the inclusive window, None exactly when none fires |
| CronSearch.SkipQuietMinutes | src/pinky_daemon/agent_registry.py:431-433 | jumping over minutes that do not fire does not change the scan |
| CronSearch.CronNextRun | src/pinky_daemon/agent_registry.py:386-437 | the day-skipping search returns what the minute scan returns, for any field sets, calendar and start |
| CronSearch.FiresMeans | src/pinky_daemon/agent_registry.py:421-427 | the rule in terms of a day, an hour and a minute |
| CronSearch.HorizonMeans | src/pinky_daemon/agent_registry.py:418-419 | the window ends 366 days after the next minute |
| CronSearch.AgreesWithPosixIff | src/pinky_daemon/agent_registry.py:422-426 | for every start and calendar the search's result is the first POSIX minute if and only if that minute, if any, falls on a day matching both day fields |
| CronSearch.OneDayFieldAgrees | src/pinky_daemon/agent_registry.py:422-426 | unless both day fields are restricted the two results are equal |
| CronSearch.FridayTheThirteenth | src/pinky_daemon/agent_registry.py:386-437 | `0 0 13 * 5` in a January that begins on a Sunday: POSIX answers Friday the 6th, the search Friday the 13th |
| AccessLog.AccessLogWriter.Write | src/pinky_daemon/access_log.py:107-135 | appends the whole record, or rolls back to the old length, or latches the damage; counts each failure |
| AccessLog.AccessLogWriter.WriteRemaining | src/pinky_daemon/access_log.py:117-122 | the write loop terminates for every sequence of short, zero and failing writes, having appended a prefix of the record, all of it exactly on success |
| AccessLog.AccessLogWriter.Reopen | src/pinky_daemon/access_log.py:82-105 | raises and changes nothing when damaged or when the open fails; otherwise moves to the new inode, and has moved even when closing the old descriptor raises |
| AccessLog.AccessLogWriter.Close | src/pinky_daemon/access_log.py:141-149 | drops the descriptor for good, files untouched |
| AccessLog.DriveLength | src/pinky_daemon/access_log.py:117-122 | how far a write gets, counted: to the end if no call fails, else as far as the calls before the failing one reach |
| AccessLog.WriteMeans | src/pinky_daemon/access_log.py:107-135 | the three ends of a write: appended whole, undone and counted, or torn, latched and counted |
| AccessLog.ReopenMeans | src/pinky_daemon/access_log.py:82-105 | a reopen of a working log moves to the inode at the path and keeps every file |
| AccessLog.CloseMeans | src/pinky_daemon/access_log.py:141-149 | closing drops the descriptor and changes nothing else |
| AccessLog.FileIsReceipts | src/pinky_daemon/access_log.py:82-135 | for every life of the writer and every file it ever opened, rotation included: the file is what it held before the writer, then exactly the completed records in order, then the torn remainder if any |
| AccessLog.TornIsPrefix | src/pinky_daemon/access_log.py:123-133 | a torn remainder is a proper prefix of one record and only a damaged writer has one |
| AccessLog.DamageIsFinal | src/pinky_daemon/access_log.py:87-88 | once damaged no write, reopen or close changes any file |
| AccessLog.GapsAreCounted | src/pinky_daemon/access_log.py:134-134 | calls while on and open = completed records + counted failures |
| EnvFile.SetEnvVar | scripts/claude_account.py:339-362 | the loop computes the rewritten lines |
| EnvFile.ReadLiveValue | scripts/claude_account.py:365-377 | the last live assignment, as every bash-sourcing loader resolves it |
| EnvFile.LoadDotenv | src/pinky_daemon/__main__.py:57-71 | over the file text split at newlines: presets win, then the first assignment of each key; nothing else is set |
| EnvFile.CanonicalLine | scripts/claude_account.py:317-332 | a bare line with a plain key and a safe value is read by both loaders as that key and value |
| EnvFile.KeysMean | scripts/claude_account.py:326-332 | which key the script and the daemon see left of the first equals sign |
| EnvFile.CommentMeansNothing | scripts/claude_account.py:326-328 | comments and lines without an equals sign assign nothing to either reader |
| EnvFile.PaddingIgnored | scripts/claude_account.py:326-332 | blanks around a line do not matter |
| EnvFile.QuotesRemoved | scripts/claude_account.py:373-376 | either kind of quote around a value is removed by both readers |
| EnvFile.ExportMeans | scripts/claude_account.py:330-332 | `export key=value` assigns key to the script and a key of its own to the daemon |
| EnvFile.LastWins | scripts/claude_account.py:365-377 | the script reads the value of the last line that assigns the key, None if none does |
| EnvFile.FirstWins | src/pinky_daemon/__main__.py:57-71 | the daemon reads the value of the first line that assigns the key, None if none does |
| EnvFile.SetInPlace | scripts/claude_account.py:351-362 | the new line replaces the first live assignment and later ones are dropped |
| EnvFile.SetAtEnd | scripts/claude_account.py:360-361 | without one it is appended |
| EnvFile.SafeValueIff | scripts/claude_account.py:134-139 | which values are safe to write |
| EnvFile.FileTextMeans | scripts/claude_account.py:387-391 | every written line ends in a line feed |
| EnvFile.SplitAtReturn | scripts/claude_account.py:383-384 | a carriage return ends a line, together with a line feed right after it |
| EnvFile.BoundariesMean | scripts/claude_account.py:383-384 | the two sets of line boundaries |
| EnvFile.BothLoadersAgree | scripts/claude_account.py:339-377 | after a rewrite exactly one live assignment remains and both loaders return the value |
| EnvFile.FileReadersAgree | scripts/claude_account.py:339-391 | the same over the file's text: the script and the daemon, each splitting it its own way, read the new value |
| EnvFile.OtherLinesKept | scripts/claude_account.py:339-362 | comments, blanks and other keys are kept in order |
| EnvFile.OtherLiveReadings | scripts/claude_account.py:365-377 | the last-wins reading of every other key is unchanged |
| EnvFile.OtherScriptReadings | scripts/claude_account.py:365-391 | the same over the file's text |
| EnvFile.OtherFirstAssignments | scripts/claude_account.py:339-362 | on a list of lines, the first assignment of any other key is unchanged, except that `export` forms of the rewritten key vanish |
| EnvFile.OtherDaemonReadings | src/pinky_daemon/__main__.py:57-71 | over the file's text, the daemon's reading of another key is unchanged if and only if the key is an unset `export` form of the rewritten one, or is none and both splits of the old text give it the same reading |
| EnvFile.OtherDaemonReadingsOfPlainText | src/pinky_daemon/__main__.py:57-71 | where newlines are the only boundaries of the old text, exactly the set `export` forms are lost |
| EnvFile.SplitsAgreeIff | scripts/claude_account.py:380-384 | the script's and the daemon's splits of a text agree if and only if newlines are its only boundaries |
| EnvFile.ExportReadingLost | src/pinky_daemon/__main__.py:57-71 | for every key and value, a file in which the `export` reading is lost |
| EnvFile.ScriptBreakReadingLost | src/pinky_daemon/__main__.py:57-71 | for every boundary only the script honours, a file in which setting a third key cuts one value short and brings another key to life |
| EnvFile.FormFeedExample | src/pinky_daemon/__main__.py:57-71 | the concrete file `A=1`, form feed, `B=2` |
| EnvFile.RewriteIsIdempotent | scripts/claude_account.py:339-362 | rewriting again changes nothing |
| EnvFile.FileRoundTrip | scripts/claude_account.py:380-391 | joined lines are split back into the same lines, wherever the reader splits |
| EnvFile.WrittenLines | scripts/claude_account.py:380-391 | in particular by both the script and the daemon |
| AccountSwitch.SwitchWritesBoth | scripts/claude_account.py:941-947 | the one written text gives both loaders, each with its own line split, the token and the flag |
| AccountSwitch.AccountStore.SyncActiveToken | scripts/claude_account.py:408-418 | `active.token` becomes the live token or is removed; unchanged when any step raises |
| AccountSwitch.AccountStore.ActiveTokenSyncFailed | scripts/claude_account.py:431-439 | removes `active.token` unless the removal itself fails |
| AccountSwitch.AccountStore.Revert | scripts/claude_account.py:1011-1032 | the exact outcome: nothing changes when the slot check fails; after a failed copy `.env` stays; otherwise `.env` is the backup and `active.token` its token; where copy or sync fails `active.token` is removed as far as that works |
| AccountSwitch.AccountStore.Switch | scripts/claude_account.py:941-1008 | for every combination of faults, exit code, `.env` and `active.token` exactly: exit 0 exactly when sync and restart succeed, and then both files hold the token; exit 1 restores `.env` unless restoring fails, and leaves `active.token` as it was, as the backup says, or removed |
| AccountSwitch.SwitchStays | scripts/claude_account.py:1011-1016 | a run from an empty `.env` that exits 1 with the new `.env` still in place |
| AccountSwitch.RefusedRestartUndone | scripts/claude_account.py:966-970 | a refused restart with a working revert puts both files back as they were |
| MessageThreads.AgentComms.Send | src/pinky_daemon/agent_comms.py:310-345 | refuses exactly a missing parent; otherwise adds one message with a new id and keeps the forest |
| MessageThreads.AgentComms.GetThread | src/pinky_daemon/agent_comms.py:533-591 | exactly the tree under the message reached by at most fifty steps up, each once, by timestamp |
| MessageThreads.Closure | src/pinky_daemon/agent_comms.py:555-588 | the recursive query terminates on any parent map, cyclic ones included, and finds exactly the descendants |
| MessageThreads.WalkReachesRootIff | src/pinky_daemon/agent_comms.py:545-553 | the walk ends on the true root if and only if the message is at most that deep |
| MessageThreads.WalkMeans | src/pinky_daemon/agent_comms.py:545-553 | where one step up goes, and that it stays at an unknown id, a root or a zero reference |
| MessageThreads.ThreadOfMessage | src/pinky_daemon/agent_comms.py:545-591 | a message is in its own thread; the thread is the whole tree if and only if the message is at most fifty replies deep |
| MessageThreads.SameTreeSameThread | src/pinky_daemon/agent_comms.py:545-591 | two messages at most fifty deep see the same thread if and only if they share a root |
| MessageThreads.InOwnThreadIff | src/pinky_daemon/agent_comms.py:545-591 | on any table a message is in its own thread if and only if the walk did not end on a missing parent |
| MessageThreads.SendsBuildForest | src/pinky_daemon/agent_comms.py:326-345 | every sequence of sends, refused ones included, builds a forest |
| MessageThreads.ChainIsSent | src/pinky_daemon/agent_comms.py:326-345 | a chain of any length is such a table |
| MessageThreads.LongChainSplits | src/pinky_daemon/agent_comms.py:547-553 | after fifty-two chained sends, message 52 does not see the thread that message 51 sees |
| MessageThreads.ThreadEmptyIff | src/pinky_daemon/agent_comms.py:545-591 | on any table, built by sends or not, a thread is empty if and only if the walk ends on an unknown id |
| MessageThreads.SentThreadEmptyIff | src/pinky_daemon/agent_comms.py:545-591 | after any sends, exactly the unknown ids have an empty thread |
| MessageThreads.ReplyJoinsParentTrees | src/pinky_daemon/agent_comms.py:326-345 | a new message keeps the forest and joins exactly the trees its parent is in |
| ApiReadiness.StepSound | src/pinky_daemon/api_readiness.py:94-148 | every step keeps the invariant: once ready, expired or closed nobody is left waiting, and `refused_count` is exactly the number of False answers; no future is resolved twice, and no True is given without a started server or after close |
| ApiReadiness.RunSound | src/pinky_daemon/api_readiness.py:94-148 | the same over every interleaving of attach, start, refresh, submit, wait, cancel, leave and close |
| ApiReadiness.SeenMeansStarted | src/pinky_daemon/api_readiness.py:113-117 | the gate is marked as having seen a started server only if some refresh of the run read one |
| ApiReadiness.LateRecovery | src/pinky_daemon/api_readiness.py:108-126 | a started server opens even an expired gate, without changing earlier refusals |
| ApiReadiness.RefreshMeans | src/pinky_daemon/api_readiness.py:103-126 | one refresh of an open gate: closed if and only if the server stops, expired if and only if the deadline has come, ready if and only if the server started, and what each waiter is told |
| ApiReadiness.HeldUntilDeadline | src/pinky_daemon/api_readiness.py:108-112 | a waiter is held through a refresh before start plus cap, and told False at or after it |
| ApiReadiness.StartMeans | src/pinky_daemon/api_readiness.py:74-87 | start and cap are the values given, set once, on an attached open gate |
| ApiReadiness.CloseMeans | src/pinky_daemon/api_readiness.py:174-178 | a close answers False to exactly those still waiting |
| ApiReadiness.WaitMeans | src/pinky_daemon/api_readiness.py:137-148 | open: True at once; closed or expired: a submission; else queued |
| ApiReadiness.SubmitMeans | src/pinky_daemon/api_readiness.py:128-135 | answered by the refreshed gate, each refusal counted |
| ApiReadiness.BookkeepingMeans | src/pinky_daemon/api_readiness.py:71-72 | attach, cancel and leave change one thing each |
| ApiReadiness.RefusalHasCause | src/pinky_daemon/api_readiness.py:94-126 | over every interleaving a waiter told False was told so by a close, a stopped server, or a reading at or past the deadline |
| ApiReadiness.ApiReadiness.RefuseWaiters | src/pinky_daemon/api_readiness.py:94-101 | answers False to exactly the unresolved waiters and counts them |
| ApiReadiness.ApiReadiness.Start | src/pinky_daemon/api_readiness.py:74-87 | a positive setting is the cap, anything else means ten minutes; the deadline runs from now |
| ApiReadiness.ApiReadiness.Refresh | src/pinky_daemon/api_readiness.py:103-126 | one refresh step: stop, deadline, then start |
| ApiReadiness.ApiReadiness.CanSubmit | src/pinky_daemon/api_readiness.py:128-135 | one answer per call; each refusal raises `refused_count` |
| ApiReadiness.ApiReadiness.WaitFor | src/pinky_daemon/api_readiness.py:137-148 | an answer now, or a new unresolved future among the waiters |
| ApiReadiness.ApiReadiness.CloseNow | src/pinky_daemon/api_readiness.py:174-178 | closes once and refuses whoever is still held |
| AccessModel.CollectMembers | src/pinky_daemon/access_enforcement.py:108-127 | collects exactly the usable emails of a member list and flags any unusable member |
| AccessModel.ResolveAllowedEmails | src/pinky_daemon/access_enforcement.py:184-250 | admins plus everyone the rosters reach; `configured` exactly when the rosters reach anyone; `misconfigured` exactly when some part is malformed |
| AccessModel.CheckAllowed | src/pinky_daemon/access_enforcement.py:272-345 | the branching decision with its reason, for any caller values |
| AccessModel.GroupsForEmail | src/pinky_daemon/access_enforcement.py:253-269 | exactly the departments that list the email, sorted, each once |
| AccessModel.ScopeEmailsIff | src/pinky_daemon/access_enforcement.py:219-236 | an email is reached through a roster's scopes exactly when one of them lists it |
| AccessModel.AllowedIffInScope | src/pinky_daemon/access_enforcement.py:184-345 | for a scopes-only roster of a non-public item, a non-admin is allowed if and only if one of its groups is among the scopes |
| AccessModel.AllowedIff | src/pinky_daemon/access_enforcement.py:296-345 | allowed if and only if the item is a public system, or the requester is known and an admin or listed; only admins where the item or the model is broken |
| AccessModel.AllowanceMeans | src/pinky_daemon/access_enforcement.py:305-338 | why a request is allowed: a public system before an admin before a roster |
| AccessModel.ListedIff | src/pinky_daemon/access_enforcement.py:212-245 | listed means reached by a roster of the field: an individual, or a member of a department the roster names |
| AccessModel.RostersIff | src/pinky_daemon/access_enforcement.py:146-172 | which rosters a field has: itself when flat, else its `all` and `own` objects |
| AccessModel.OwnRosterAllows | src/pinky_daemon/access_enforcement.py:146-172 | the `own` roster counts |
| AccessModel.RefusalMeans | src/pinky_daemon/access_enforcement.py:322-345 | why an existing item is refused: no identity, or not listed, flagged as malformed before unconfigured |
| AccessModel.BrokenModelMeans | src/pinky_daemon/access_enforcement.py:305-321 | why a broken or missing item is refused |
| AccessModel.RosterMalformedIff | src/pinky_daemon/access_enforcement.py:212-250 | exactly when a roster is malformed |
| AccessModel.FieldMalformedIff | src/pinky_daemon/access_enforcement.py:146-172 | exactly when a field is |
| AccessModel.NormMeans | src/pinky_daemon/access_enforcement.py:77-94 | an identity is trimmed and lower-cased ASCII |
| AccessModel.EmailOfMeans | src/pinky_daemon/access_enforcement.py:97-105 | a member is an object with an email, or the email itself |
| AccessModel.IdentIff | src/pinky_daemon/access_enforcement.py:296-299 | which keys a request may carry |
| AccessGate.AccessGate.ApplyAdminScopes | src/pinky_daemon/access_gate.py:407-431 | the loop builds the folded copy |
| AccessGate.AccessGate.Load | src/pinky_daemon/access_gate.py:333-357 | a failed load leaves no model; a loaded one is folded |
| AccessGate.AccessGate.Check | src/pinky_daemon/access_gate.py:460-510 | blocks exactly when enforcing and not allowed by a loaded model; fails closed without one; `off` and `log` never block |
| AccessGate.FoldedMembersIff | src/pinky_daemon/access_gate.py:419-430 | being folded in means being listed by one of the named departments |
| AccessGate.ScopeMembersAllowed | src/pinky_daemon/access_gate.py:407-431 | members of the admin scopes are allowed every identifier-shaped request |
| AccessGate.DecisionsAgree | src/pinky_daemon/access_enforcement.py:272-345 | a decision reads `admins` only through the admin set and, as a section, through whether it is an object |
| AccessGate.OthersUnchangedIff | src/pinky_daemon/access_gate.py:407-431 | for everyone else folding keeps decision and reason if and only if the request does not name an `admins` object as its section |
| AccessGate.FoldCanDeny | src/pinky_daemon/access_gate.py:407-431 | a concrete model whose reader is denied once a scope is folded |
| AccessGate.MalformedStaysMalformed | src/pinky_daemon/access_enforcement.py:293-302 | a request that is not identifier-shaped is refused with the same reason before and after |
| AccessGate.FoldTwice | src/pinky_daemon/access_gate.py:407-431 | folding twice decides every request like folding once |
| LineageExport.ForkWinners | scripts/v3_export.py:399-403 | for each parent, the latest claimant by (created_at, id) among the rows that may claim |
| LineageExport.CanonicalProjects | scripts/v3_export.py:404-409 | the first-seen spelling of each label, ignoring case |
| LineageExport.ProjectRecords | scripts/v3_export.py:411-423 | one project per folded label with its first-seen spelling, strictly sorted by the folded label |
| LineageExport.RecordRow | scripts/v3_export.py:425-476 | one row: its skip reason, or its record with the link it may keep, and whether its link lost a fork |
| LineageExport.MemoryRecords | scripts/v3_export.py:425-476 | the kept rows in order with their fork-free links, the skip reasons as a multiset, and the number of links lost to forks |
| LineageExport.DropDangling | scripts/v3_export.py:478-491 | drops and counts exactly the links to rows that were not exported |
| LineageExport.ExportAgent | scripts/v3_export.py:394-502 | a row is exported if and only if it is wanted, of a known kind, has content and is not flagged; every record is what its row deserves; both dropped-link counts are exact; and the records themselves are importable, as in the next row |
| LineageExport.ExportIsImportable | scripts/v3_export.py:395-491 | of the emitted records: ids distinct, project names distinct ignoring case, no two links to one parent, every link to an emitted record, every project scope naming an emitted project |
| LineageExport.EveryRowOnce | scripts/v3_export.py:425-476 | the input rows are, as a multiset, the exported rows plus the skipped ones; a row is exported precisely when it has no skip reason, and the reported skips are the reasons of the skipped rows |
| LineageExport.RecordMeans | scripts/v3_export.py:432-476 | the fields of a record from its row; the link is kept if and only if the row is the latest claimant, by time then id, of an exported parent |
| LineageExport.ReasonMeans | scripts/v3_export.py:425-461 | which reason a skipped row is given when several apply |
| LineageExport.SkipsCounted | scripts/v3_export.py:425-461 | each reason is reported as often as rows were skipped for it |
| LineageExport.ForkDropsCounted | scripts/v3_export.py:451-456 | the fork counter is the number of candidate rows that lost their parent to a later claimant |
| LineageExport.DanglingDropsCounted | scripts/v3_export.py:482-491 | the dangling counter is the number of kept winners whose parent is not exported |
| LineageExport.LabelIsFirst | scripts/v3_export.py:404-409 | the emitted spelling of a label is the first in the rows |
| LineageExport.KeptIdsDistinct | scripts/v3_export.py:469-476 | exported ids are distinct |
| LineageExport.NoForks | scripts/v3_export.py:395-403 | no two exported records keep the same parent |
| LineageExport.NoDangling | scripts/v3_export.py:478-491 | every kept parent is the id of an exported record |
| LineageExport.ScopesAreEmitted | scripts/v3_export.py:463-468 | a project scope names an emitted spelling of the row's own label |
| PrincipalExport.KeysCollideIff | scripts/v3_export.py:534-550 | two chats share a source key if and only if they are the same or both are hashed to the same digest |
| PrincipalExport.SourceKeysDistinctIff | scripts/v3_export.py:743-757 | the source keys of an export are pairwise distinct if and only if no two hashed ids share a digest |
| PrincipalExport.KeyMeans | scripts/v3_export.py:534-550 | which ids are kept readable in the key and which are hashed |
| PrincipalExport.ShapeMeans | scripts/v3_export.py:519-531 | the platform each id shape tells |
| PrincipalExport.ShapeExamples | scripts/v3_export.py:519-531 | three ids |
| PrincipalExport.PlatformMeans | scripts/v3_export.py:519-531 | the group row decides, then the shape, else unresolved |
| PrincipalExport.ApprovedRowMeans | scripts/v3_export.py:617-631 | the fields of an approved chat's row |
| PrincipalExport.GroupRowMeans | scripts/v3_export.py:634-648 | of an active group's |
| PrincipalExport.HeldRowMeans | scripts/v3_export.py:657-668 | of a stranger's with held mail |
| PrincipalExport.LeaseRowMeans | scripts/v3_export.py:688-699 | of a chat only the record knows: its first mention |
| PrincipalExport.HeldCounted | scripts/v3_export.py:602-609 | the held count is the number of the chat's undelivered messages |
| PrincipalExport.UndeliveredCounted | scripts/v3_export.py:602-609 | their total over all chats |
| PrincipalExport.SettledMeans | scripts/v3_export.py:705-730 | confirmed, in conflict or resolved, against the chat's last mention, and what is filled in |
| PrincipalExport.FromApproved | scripts/v3_export.py:617-631 | one row per approved chat |
| PrincipalExport.AddGroups | scripts/v3_export.py:632-648 | adds exactly the active groups without a gate row |
| PrincipalExport.AddHeld | scripts/v3_export.py:649-668 | adds exactly the chats with undelivered mail that have no row yet |
| PrincipalExport.AddLeaseChats | scripts/v3_export.py:673-699 | adds exactly the recorded chats no table knows, each once; refuses a record with a blank id |
| PrincipalExport.LeaseEntries | scripts/v3_export.py:680-685 | later mentions of a chat replace earlier ones |
| PrincipalExport.SumHeld | scripts/v3_export.py:780-780 | the summary total of held messages |
| PrincipalExport.Settle | scripts/v3_export.py:700-730 | edits every row in place to its settled form |
| PrincipalExport.ExportPrincipals | scripts/v3_export.py:567-786 | principal ids are pairwise distinct and are exactly the approved, active-group, held and recorded chats; each row is the one its chat deserves, settled; the held total is exactly the undelivered messages |
| PrincipalExport.HeldConserved | scripts/v3_export.py:600-668 | every undelivered message is counted in exactly one row |
| PrincipalExport.LeaseOnlyHoldsNothing | scripts/v3_export.py:681-699 | a row is lease-stop-only if and only if no table knows its chat, and it then holds no mail |
| PrincipalExport.PlatformRewrittenIff | scripts/v3_export.py:713-719 | a platform is rewritten if and only if a chat of the tables has no group row and no telling shape and the record names a platform for it |
| PrincipalExport.MatchedIffStripped | scripts/v3_export.py:682-711 | a row whose stripped id is recorded is reconciled with the record if and only if its id carries no surrounding blanks |
| PrincipalExport.PaddedChatIsTwoPrincipals | scripts/v3_export.py:682-711 | in every export of a padded table id whose bare form is only in the record, one principal is absent at lease stop and another is known to the record alone |
| PrincipalExport.PaddedFive | scripts/v3_export.py:682-711 | the approved chat `" 5"` and the recorded chat `"5"` |
| PrincipalExport.ExportPadded | scripts/v3_export.py:682-711 | the export of those tables and that record exists and has exactly those two principals |

## Left out

- The SQLite engine: each committed method is one atomic step; connection policy,
  journal modes, migrations, rollback after SQL errors and the reaper's
  failure-reporting path are not modelled.
- Agent deletion, foreign-key cascades, `remove_schedule`, enabling and editing of
  schedules: theorems are about rows and schedules while they live.
- Clocks: every method takes the time as a parameter, and the clock is positive; a zero
  explicit stamp means the clock, as in the code. The methods accept negative explicit
  stamps; the run theorems are about runs whose stamps are positive, and the exact effect
  of a negative one is stated beside them. NaN and infinities do not exist among the
  reals used here.
- `collapse_pending_schedule_wake` is the park step with the superseding fire
  written into the reason; the wording of reasons is a parameter.
- `has_released_pending_wakes`, `list_drain_parked_agent_names` and the JSON views:
  plain selections.
- AgentRegistry.AgentRegistry.ReapPendingScheduleWakes: says nothing about which
  agents appear with all counters zero, or about log lines and their order.
- Cron field matching, time zones, daylight saving and the Gregorian calendar: the
  matched sets and the calendar (as functions of the day number) are inputs.
- AccessLog: other processes writing to or truncating the file, JSON serialisation,
  the creation of an empty file by an open whose checks then fail, and interrupts
  that are not ordinary exceptions.
- EnvFile: file encodings; the shell's own reading of the file.
- AccountSwitch: the checks before the write, the isolation probe, and the daemon
  restart protocol, which appears as its three outcomes and whether the generation
  advanced; reading the account index, which appears as whether the slot check fails.
- MessageThreads.AgentComms.GetThread: the session filter, inbox rows, groups and
  expiry.
- ApiReadiness: log lines, `after_ready` and the monitor task, which only refreshes;
  the await itself is the pair of steps cancel and leave.
- AccessModel: decision reasons are modelled by their parts, not their wording; the
  model file loader is a parameter; tuples are lists.
- AccessGate.AccessGate.Check: reloading on a changed file, threading, logging and the
  firewall around unexpected exceptions.
- LineageExport: subjects, salience, context and timestamps of records; the secret
  scan and `str.lower` are parameters; the names of secret-flagged rows are counted,
  not listed.
- PrincipalExport.ExportPrincipals: the order of the rows; the Markdown document and the wording of record notes; the digest
  is a parameter; digits are the ASCII ones; fields of the lease-stop record are
  strings or absent.
- Hook templates, settings merging, workspace setup, prompts, owner settings, tokens,
  costs, heartbeats, the model roster, signing keys, group chats and the frontend.
