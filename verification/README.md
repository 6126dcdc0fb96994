# Verified model of the PSSMS core

PSSMS runs guard duty for security companies: an on-site edge agent forwards device events to
the cloud, and a backend keeps duty, approvals, contracts and assets. This project models the
stateful parts of that system and proves what every run of them keeps.

`dafny verify dfyconfig.toml` checks everything (Dafny 4.11).

## What is modelled

| file | part of the system |
|---|---|
| `Json.dfy`, `Text.dfy` | JSON text (RFC 8259, section 7 for string escapes), `trim()` and `split()` |
| `Sets.dfy`, `Wrappers.dfy` | lists read as sets, outcome datatypes |
| `EventQueue.dfy` | the durable event queue and its JSONL file, character by character |
| `EdgeAgent.dfy` | capture, and the flush split at its `await` |
| `EdgeProtocol.dfy` | agent, network and backend together: late, repeated and partial deliveries, timeouts, failed writes, crashes |
| `EscPos.dfy` | the receipt byte stream and a reader that inverts it |
| `Hid.dfy` | keyboard reports to characters, characters to scans |
| `Approvals.dfy` | the amount-thresholded approval matrix |
| `Contracts.dfy` | the contract lifecycle, decided from two APIs over the same rows |
| `RoleChange.dfy` | an approved role change as a compare-and-swap |
| `DutySchedule.dfy` | spreading alertness checks over a duty window |
| `Duty.dfy`, `DutyServices.dfy` | punches, alertness checks and guard status |
| `DutyOutcomes.dfy`, `DutyTheorems.dfy` | what each duty handler answers and writes, and what their runs keep |
| `FieldSync.dfy` | the offline sync batch and its replay |
| `Assets.dfy` | the asset register and its assignment ledger |

Each operation appears twice: as a method of an object that updates its fields the way the
service updates rows, and as a function of the old state that specifies the method. Lemmas say
what each function accepts, refuses and writes, without its own definition (`...Outcome`; for assets
a table of custody rules that the two-table register is proved to follow), and what `Run`, any
sequence of requests, keeps. A request is one atomic step and a
refused request changes nothing (backend/apps/core-api/src/main.ts:58-63 wraps a handler in one
transaction). In the edge protocol batches arrive event by event and interleaved, which includes
the all-or-nothing arrival of that transaction. Rows are identified by their position in the table.
The clock, random draws, success of a file write or of a push, and checks on tables that are not
modelled (site access, a known assignee) are parameters of the step.

## What the proofs brought to light

- The queue promises at-least-once delivery, but a failed append is only logged
  (edge-agent/src/queue.js:55-57). The three-cursor picture holds at every moment of a run exactly
  if no append fails (`ThreeCursorTheorem`). Whatever fails, nothing durable is lost
  (`NothingDurableIsLost`), and every capture is waiting or has arrived exactly unless a crash meets
  an event whose append failed before it arrived (`EveryCaptureHeldIff`).
- A configured batch size of zero or less is accepted and leaves a queue that can never be emptied
  (`DrainsIffBatchSizePositive`).
- Step orders are sorted but not declared unique in the schema. The engine follows the filtered
  matrix exactly when no applicable step shares its order with an earlier row
  (`WalkIsFilterIffOwnOrders`).
- `start` compares the amount as sent, `act` the amount as the Decimal(18,2) column keeps it. The two
  select the same matrix exactly if rounding does not lift the amount onto the threshold of a step
  already passed over (`StartedRunsLeaveTheTrailIff`); 99.999 is such an amount
  (`RoundingPassesAStepOver`). Contract fees are stored before they are submitted, so they are safe.
- A contract waits exactly while its link is pending, except when an instance opened by hand about
  the same contract is approved to the end first (`PendingIffLinkPending`). Opening one, rejecting it
  or approving it part of the way breaks nothing.
- A replayed alertness confirmation returns the same row exactly as long as its event id has not
  meanwhile answered another check; `ConfirmationAnsweredElsewhere` is a run in which it has. The
  other three event kinds replay whenever their event id is not empty. An empty id is accepted but
  never looked up: such an event is not accepted a second time, unless it is a confirmation
  (`AcceptedEventReplays`).
- The scheduler's exact count holds for every interval of at least a minute; for shorter ones
  `DutyCountIff` says when. The times rise strictly exactly if the slots are well spaced
  (`RisesIffWellSpaced`), which for settings in whole minutes means no jitter, at most one check, or
  an interval of more than two jitters (`WholeMinutesRiseIff`).
- A receipt reads back exactly when its text has no ESC, GS or LF byte, its barcode is at most 255
  bytes and its QR data at most 65532 bytes (`RoundTripIffPrintable`); beyond that the length
  fields wrap.
- Finishing an approval by the contract route or by the queue differs in the version counter: the
  contract route increments it twice.

## Model

| member | source | states |
|---|---|---|
| `Json.ParseStringify` | edge-agent/src/queue.js:34 | parsing a stringified value gives that value back, for every value |
| `Json.StringifyIsOneLine` | edge-agent/src/queue.js:43-44 | a stringified value is one non-empty line without line feed that trimming leaves alone |
| `Text.SplitPiece` | edge-agent/src/queue.js:30-31 | a separator-free piece before a separator is split off whole |
| `Text.TrimCutsSpaces` | edge-agent/src/queue.js:32 | trimming cuts off spaces only, and all of them at both ends |
| `Text.SpacesAre` | edge-agent/src/devices/hid-scanner.js:67 | the characters that trimming removes, code point by code point |
| `EventQueues.PersistAppend` | edge-agent/src/queue.js:42-58 | appending one line to the image of a queue gives the image of the longer queue |
| `EventQueues.LoadPersist` | edge-agent/src/queue.js:26-45 | reloading a persisted file restores exactly the queue, for every event list |
| `EventQueues.EventQueue.constructor` | edge-agent/src/queue.js:14-19 | a queue starts with what its file holds, with nothing on a missing or corrupt file |
| `EventQueues.EventQueue.Load` | edge-agent/src/queue.js:26-40 | restores the events in the file, none if one line is corrupt |
| `EventQueues.EventQueue.Persist` | edge-agent/src/queue.js:42-45 | afterwards the file is the exact image of memory, or untouched if the write failed |
| `EventQueues.EventQueue.Enqueue` | edge-agent/src/queue.js:51-58 | memory gains the event; the file gains its line, and an intact file the event, exactly if the append succeeds |
| `EventQueues.EventQueue.PeekBatch` | edge-agent/src/queue.js:60-62 | a prefix of the queue, at most max long, negative max counting from the back |
| `EventQueues.EventQueue.AckBatch` | edge-agent/src/queue.js:65-68 | drops the first events from memory; the file follows, and is mended, exactly if the rewrite succeeds |
| `EdgeAgents.CapturedEventFields` | edge-agent/src/agent.js:27-33 | a captured event carries each of its fields under its name, the dedupe key where the backend looks for it, and a device code only on a gateway |
| `EdgeAgents.EdgeAgent.constructor` | edge-agent/src/agent.js:15-24 | a new agent over a freshly opened queue has nothing in flight |
| `EdgeAgents.EdgeAgent.Capture` | edge-agent/src/agent.js:26-36 | the built event, with the default device code and an empty payload filled in, is queued at the end of memory and file |
| `EdgeAgents.EdgeAgent.BeginFlush` | edge-agent/src/agent.js:39-44 | single flight: with a push pending or an empty queue nothing is sent and nothing changes; otherwise a prefix is sent and remembered |
| `EdgeAgents.EdgeAgent.EndFlush` | edge-agent/src/agent.js:45-58 | a success drops exactly the batch's count; a failure keeps everything; the flag is cleared |
| `EdgeAgents.FlushTakesOutWhatItSent` | edge-agent/src/agent.js:39-58 | under any captures and flush ticks meanwhile no second batch goes out, and the end takes exactly the sent batch out of the queue, or nothing |
| `EdgeProtocol.AckRemovesExactlySent` | edge-agent/src/agent.js:39-45 | in every run an in-flight batch is a prefix of the queue, and the acknowledgement removes exactly it, after all of it has arrived |
| `EdgeProtocol.NothingDurableIsLost` | edge-agent/src/queue.js:5-12 | over every run, appends failing or not, an event on disk or at the backend stays on one of the two |
| `EdgeProtocol.BackendHoldsEachEventOnce` | backend/libs/devices/application/device-ingestion.service.ts:71-97 | over every run the backend holds captured events only, each key once |
| `EdgeProtocol.StepSafe` | edge-agent/src/agent.js:39-58 | every protocol step keeps the safety invariant, whatever fails |
| `EdgeProtocol.ThreeCursorTheorem` | edge-agent/src/queue.js:26-68 | at every moment of a run disk, memory and backend are captured[j..], captured[k..] and captured[..b] with j <= k <= b, if and only if no append of the run fails |
| `EdgeProtocol.EmptyQueueMeansAllDelivered` | edge-agent/README.md:31-33 | without a failed append, an empty queue means the backend holds every capture once, in capture order |
| `EdgeProtocol.EveryCaptureHeldIff` | edge-agent/src/queue.js:51-68 | appends failing or not, every capture is waiting or has arrived at every moment, if and only if no crash meets an event that is in memory only |
| `EdgeProtocol.EmptyQueueMeansAllArrived` | edge-agent/README.md:31-33 | appends failing or not, an empty queue means the backend holds exactly the captures, each once, unless a crash dropped one |
| `EdgeProtocol.CaptureKeepsCursorsIffAppended` | edge-agent/src/queue.js:51-58 | a capture keeps the three cursors exactly when its append succeeded |
| `EdgeProtocol.DiskMirrorsMemory` | edge-agent/src/queue.js:42-68 | while no write fails the file is the queue at every moment, so a crash loses nothing |
| `EdgeProtocol.DeliveryIsAlwaysPossible` | edge-agent/src/agent.js:39-58 | wherever a run has got to, all waiting events can still be delivered and acknowledged |
| `EdgeProtocol.DrainsInCeilingFlushes` | edge-agent/src/agent.js:39-58 | n events are emptied by k successful flushes exactly when k is at least n / maxBatch rounded up |
| `EdgeProtocol.DrainsIffBatchSizePositive` | edge-agent/src/config.js:49 | a non-empty queue can be drained exactly when the batch size is positive |
| `EscPos.BuildReceipt` | edge-agent/src/printers/escpos.js:10-54 | the chunks pushed add up to the encoding that the reader inverts |
| `EscPos.AppendLines` | edge-agent/src/printers/escpos.js:26-30 | every line followed by a line feed, in order, the array taking precedence over the single text |
| `EscPos.AppendCodes` | edge-agent/src/printers/escpos.js:32-48 | barcode and QR blocks with their length fields cut to eight and sixteen bits |
| `EscPos.BarcodeRoundTrip` | edge-agent/src/printers/escpos.js:32-38 | arbitrary barcode bytes up to 255 are read back |
| `EscPos.QrRoundTrip` | edge-agent/src/printers/escpos.js:40-48 | arbitrary QR bytes up to 65532 are read back |
| `EscPos.ReadIsPrintable` | edge-agent/src/printers/escpos.js:10-54 | whatever the reader accepts has plain text and codes within their length fields |
| `EscPos.RoundTripIffPrintable` | edge-agent/src/printers/escpos.js:10-54 | title, lines, barcode and QR are recovered from the stream for exactly the printable jobs |
| `EscPos.SampleReceipt` | edge-agent/src/printers/escpos.js:10-54 | one receipt with every block, byte by byte |
| `HidScancodes.ReportForDecodes` | edge-agent/src/devices/hid-scancodes.js:41-49 | every printable ASCII character has a report that decodes to it |
| `HidScancodes.TypableIffPrintableAscii` | edge-agent/src/devices/hid-scancodes.js:9-23 | the table types exactly the printable ASCII characters |
| `HidScancodes.KeysAreDistinct` | edge-agent/src/devices/hid-scancodes.js:9-35 | different keys never type the same character, the space bar's shift aside |
| `HidScancodes.ShiftBits` | edge-agent/src/devices/hid-scancodes.js:41-46 | of the eight modifier bits exactly left and right shift select the shifted character |
| `HidScanners.HidScanner.constructor` | edge-agent/src/devices/hid-scanner.js:17-27 | starts with an empty buffer and no scans |
| `HidScanners.HidScanner.OnData` | edge-agent/src/devices/hid-scanner.js:57-64 | one report ends the scan, extends the buffer, or does nothing |
| `HidScanners.HidScanner.Flush` | edge-agent/src/devices/hid-scanner.js:66-70 | emits the trimmed buffer if not blank, and empties it |
| `HidScanners.ScansAreThePieces` | edge-agent/src/devices/hid-scanner.js:57-70 | any report stream emits exactly the non-blank trimmed pieces between ends of scan |
| `HidScanners.NoiseIff` | edge-agent/src/devices/hid-scancodes.js:41-49 | exactly the short, keyless and unlisted reports decode to nothing; Enter ends a scan and every other listed key types one character |
| `HidScanners.CodesComeBack` | edge-agent/src/devices/hid-scanner.js:57-70 | any list of transmittable codes, each ended by Enter or by the terminator, comes back, whatever noise reports are interleaved |
| `Approvals.WalkFollowsFilter` | backend/libs/approvals/application/approvals.service.ts:64-79 | an applicable order leads to its own step, and searching past it finds the next step of the filtered matrix |
| `Approvals.MatrixIs` | backend/libs/approvals/application/approvals.service.ts:55-62 | a step is in the matrix exactly without a threshold or with one the amount reaches, no amount counting as zero |
| `Approvals.LargerAmountsNeedMore` | backend/libs/approvals/application/approvals.service.ts:55-62 | a larger amount needs every approval a smaller one needs, in the same order |
| `Approvals.StartedTrail` | backend/libs/approvals/application/approvals.service.ts:102-120 | an instance starts exactly if the amount as sent selects a step; it starts on the trail of the amount as stored exactly if rounding did not lift that amount onto a step already passed over |
| `Approvals.RoundingPassesAStepOver` | backend/libs/approvals/application/approvals.service.ts:102-120 | 99.999 starts behind the step for 100 although the instance shows 100.00 |
| `Approvals.ActedOkIffAuthorised` | backend/libs/approvals/application/approvals.service.ts:147-176 | a decision is accepted exactly while pending and from somebody authorised for the step that is due |
| `Approvals.ActedTrail` | backend/libs/approvals/application/approvals.service.ts:178-209 | an accepted decision extends the exact trail |
| `Approvals.ActedOutcome` | backend/libs/approvals/application/approvals.service.ts:147-204 | an accepted decision records exactly its step, actor and verdict and ends the instance exactly on a rejection or after the last step; each refusal has its reason |
| `Approvals.EveryRunLeavesTheTrail` | backend/libs/approvals/application/approvals.service.ts:134-209 | over every run the approvals are, in order, exactly the steps the stored amount selects before the current one, each by an authorised actor, then one rejection if rejected |
| `Approvals.StartedRunsLeaveTheTrailIff` | backend/libs/approvals/application/approvals.service.ts:55-209 | for any amount sent, every run of decisions leaves the exact trail if and only if the amount was not rounded over a step |
| `Approvals.AcceptedDecisionsRunOut` | backend/libs/approvals/application/approvals.service.ts:188-204 | each accepted decision uses up an applicable step, and none left means a final status |
| `Approvals.WalkIsFilterIffOwnOrders` | backend/libs/approvals/application/approvals.service.ts:55-79 | on sorted steps the engine consults exactly the applicable ones iff none shares its order with an earlier row |
| `Contracts.ApprovalsService.Start` | backend/libs/approvals/application/approvals.service.ts:81-120 | creates a pending instance at the first applicable step, or refuses and writes nothing |
| `Contracts.ApprovalsService.Act` | backend/libs/approvals/application/approvals.service.ts:134-223 | records one decision, moves the instance and carries a waiting contract along, or refuses and writes nothing |
| `Contracts.ApprovalsService.SyncContractOnTerminal` | backend/libs/approvals/application/approvals.service.ts:869-927 | a waiting contract is approved, or returned to draft without link; any other contract is left alone |
| `Contracts.ContractsService.Create` | backend/libs/contracts/application/contracts.service.ts:120-145 | adds one DRAFT contract at version 1, its fee rounded to hundredths |
| `Contracts.ContractsService.UpdateStatus` | backend/libs/contracts/application/contracts.service.ts:260-276 | accepted exactly for the six operational moves; then that contract has the status asked for and one version more, and nothing else changes |
| `Contracts.ContractsService.Submit` | backend/libs/contracts/application/contracts.service.ts:291-314 | a DRAFT contract starts an instance about its monthly fee and links to it |
| `Contracts.ContractsService.Approve` | backend/libs/contracts/application/contracts.service.ts:331-371 | approves the linked instance's current step; the contract follows once the matrix is done |
| `Contracts.ContractsService.Reject` | backend/libs/contracts/application/contracts.service.ts:386-413 | rejects the linked instance and returns the contract to draft without link |
| `Contracts.ContractsService.ScanExpiring` | backend/libs/contracts/application/contracts.service.ts:588-629 | exactly the ACTIVE contracts ending in the window become EXPIRING and are listed in order |
| `Contracts.SettledOnlyAfterApproval` | backend/libs/contracts/application/contracts.service.ts:25-38 | in every run a contract is past approval only if some instance for it was approved |
| `Contracts.LinkIsOwn` | backend/libs/contracts/application/contracts.service.ts:291-314 | in every run a link is about its own contract and that fee, DRAFT means no link, and a waiting contract has a PENDING link |
| `Contracts.ActAgreesIff` | backend/libs/approvals/application/approvals.service.ts:178-223 | one decision in the queue keeps a contract in agreement with its link exactly unless it completes another instance about that waiting contract |
| `Contracts.PendingIffLinkPending` | backend/libs/contracts/application/contracts.service.ts:291-425 | over every run each contract is PENDING_APPROVAL exactly while its linked instance is PENDING, if and only if no approval in the queue completes an instance about a contract waiting on another one |
| `Contracts.OnlySubmitNeverOvertakes` | backend/libs/contracts/application/contracts.service.ts:297-314 | when only submit starts contract instances no run is overtaken, so the equivalence holds |
| `Contracts.SecondInstanceOvertakesLink` | backend/libs/approvals/application/approvals.service.ts:869-886 | a concrete run in which a second instance settles the contract while its link waits |
| `Contracts.SettledContractHasWholeMatrix` | backend/libs/contracts/application/contracts.service.ts:297-313 | a settled contract has one authorised approval for every step its fee calls for, in order, exactly if its link is APPROVED, which it always is without overtaking |
| `Contracts.LifecycleMovesOn` | backend/libs/contracts/application/contracts.service.ts:26-38 | settled contracts never become drafts again, ended ones are never written again, only a not yet activated one is cancelled |
| `Contracts.RouteIsRaw` | backend/libs/contracts/application/contracts.service.ts:342-412 | a decision by either route decides the instance once and the contract follows; at the end the version grows by two on the contract route and by one on the queue |
| `Contracts.RoutesAgree` | backend/libs/approvals/application/approvals.service.ts:211-223 | for every decision sequence and every mixture of the two routes, instance, status and link end the same |
| `Contracts.ReachablePendingIsWaiting` | backend/libs/contracts/application/contracts.service.ts:307-314 | every reachable waiting contract is in the position the routes agree on |
| `Contracts.ScanTwice` | backend/libs/contracts/application/contracts.service.ts:573-594 | scanning again at the same dates marks nothing |
| `Contracts.CreateOutcome` | backend/libs/contracts/application/contracts.service.ts:120-145 | a new contract is an unlinked DRAFT at version 1 with the nearest hundredth to the fee sent |
| `Contracts.UpdateStatusOutcome` | backend/libs/contracts/application/contracts.service.ts:260-276 | the six moves, their effect and the refusals of any other |
| `Contracts.StartOutcome` | backend/libs/approvals/application/approvals.service.ts:81-120 | exactly if the amount sent selects a step an instance is added, at the first such step |
| `Contracts.SubmitOutcome` | backend/libs/contracts/application/contracts.service.ts:291-314 | a DRAFT is submitted exactly if its fee selects a step, and waits on a new instance about itself and that fee |
| `Contracts.ActOutcome` | backend/libs/approvals/application/approvals.service.ts:134-223 | an accepted decision changes its instance and the waiting contract it is about, and nothing else |
| `Contracts.RouteOutcome` | backend/libs/contracts/application/contracts.service.ts:331-413 | the contract routes are open exactly while the contract waits, and then its instance accepts or refuses |
| `Contracts.ScanOutcome` | backend/libs/contracts/application/contracts.service.ts:588-629 | exactly the ACTIVE contracts ending from today to the horizon become EXPIRING, and nothing else changes |
| `RoleChange.StaleIffDifferent` | backend/libs/approvals/application/approvals.service.ts:449-457 | comparing sorted role lists entry by entry is comparing multisets |
| `RoleChange.FoundAllIff` | backend/libs/approvals/application/approvals.service.ts:542-548 | as many roles as proposed are found exactly when the codes are distinct and all exist |
| `RoleChange.CompareAndSwap` | backend/libs/approvals/application/approvals.service.ts:449-579 | the change is applied exactly if the live roles are the snapshot and the proposal is valid; then the live set is the proposed set, otherwise nothing changes |
| `RoleChange.BindingsMissingIff` | backend/libs/approvals/application/approvals.service.ts:500-520 | a binding is missing exactly if some proposed role acts for a party the account is not bound to |
| `RoleChange.OneRequestDecided` | backend/libs/approvals/application/approvals.service.ts:298-632 | a verdict decides its own pending request and no other, rejects exactly on a rejection, and touches no account but an approved target |
| `RoleChange.EveryDecisionHasItsVerdict` | backend/libs/approvals/application/approvals.service.ts:298-632 | over every sequence of verdicts the first one about a request decides it, and an account changes only for an approved request that targets it |
| `RoleChange.SecondOfOneSnapshotCancelled` | backend/libs/approvals/application/approvals.service.ts:452-482 | of two requests with one snapshot, once the first really changes the roles the second is cancelled |
| `RoleChange.AtMostOneRivalApplied` | backend/libs/approvals/application/approvals.service.ts:449-579 | over every sequence of verdicts at most one of the rivals for a snapshot is applied |
| `RoleChange.IamSync.IsStale` | backend/libs/approvals/application/approvals.service.ts:453-457 | stale exactly if the role multisets differ |
| `RoleChange.IamSync.SyncIamChangeOnTerminal` | backend/libs/approvals/application/approvals.service.ts:298-312 | a pending role change ends approved, rejected or cancelled; a rejection touches no account, and a decided request is left alone |
| `DutySchedule.PaceOf` | backend/libs/attendance/application/alertness.service.ts:131-155 | every environment gives usable settings; a fractional number of checks counts as its ceiling, and none can raise the cap |
| `DutySchedule.SlotLoop` | backend/libs/attendance/application/alertness.service.ts:186-215 | the slot loop computes the planned times |
| `DutySchedule.DutyStaysInside` | backend/libs/attendance/application/alertness.service.ts:152-155 | for every interval and draw, all times lie strictly inside the window and are at most twelve |
| `DutySchedule.SlotCreatesIff` | backend/libs/attendance/application/alertness.service.ts:191-201 | a slot yields a check exactly if the window exceeds a minute or its raw time lies inside |
| `DutySchedule.DutyTimesAre` | backend/libs/attendance/application/alertness.service.ts:186-201 | the k-th check is due at the k-th interval moved by the k-th draw, a minute inside the window if that falls out of it |
| `DutySchedule.ShortWindowTimes` | backend/libs/attendance/application/alertness.service.ts:186-201 | in a window of at most a minute every check is due at its moved slot |
| `DutySchedule.DutyCountIff` | backend/libs/attendance/application/alertness.service.ts:186-215 | every sequence of draws gives the full number of checks if and only if the slots that no draw can push out of the window reach it |
| `DutySchedule.DutyCount` | backend/libs/attendance/application/alertness.service.ts:186-215 | with an interval of at least a minute, a window of more than one, or no jitter, the number of checks is the cap or ceil((end - start) / interval) - 1, for every sequence of draws |
| `DutySchedule.RisesIffWellSpaced` | backend/libs/attendance/application/alertness.service.ts:186-215 | the times rise strictly in every window and for all draws if and only if the slots are well spaced or there is at most one check |
| `DutySchedule.WholeMinutesRiseIff` | backend/libs/attendance/application/alertness.service.ts:131-155 | for settings in whole minutes: exactly without jitter, with at most one check, or with an interval of more than two jitters |
| `DutySchedule.DutyRises` | backend/libs/attendance/application/alertness.service.ts:186-215 | with well-spaced slots or a single check the times rise strictly inside the window |
| `DutySchedule.DefaultDuty` | backend/libs/attendance/application/alertness.service.ts:131-215 | with nothing configured every clock-in brings exactly three checks in order, whatever is drawn |
| `DutySchedule.Defaults` | backend/libs/attendance/application/alertness.service.ts:131-155 | unset variables mean two hours, half an hour, six checks and eight hours |
| `DutyServices.AlertnessService.Schedule` | backend/libs/attendance/application/alertness.service.ts:56-99 | adds one SCHEDULED check for a guard fit for duty, or refuses and writes nothing |
| `DutyServices.AlertnessService.ScheduleForDuty` | backend/libs/attendance/application/alertness.service.ts:107-215 | switched on, for a guard fit for duty with none coming up, adds exactly the planned checks up to the end of the shift or the duty; otherwise none |
| `DutyServices.AlertnessService.Confirm` | backend/libs/attendance/application/alertness.service.ts:278-343 | answers a SCHEDULED check once, on time or late; repeated calls return the answered check |
| `DutyServices.AlertnessService.CancelScheduledForGuardAbsent` | backend/libs/attendance/application/alertness.service.ts:365-402 | cancels exactly the guard's SCHEDULED checks |
| `DutyServices.AlertnessService.MarkMissed` | backend/libs/attendance/application/alertness.service.ts:409-453 | a SCHEDULED check becomes MISSED with one alert; repeating changes nothing |
| `DutyServices.AlertnessService.ScanMissed` | backend/libs/attendance/application/alertness.service.ts:500-518 | marks every check the query returned |
| `DutyServices.AttendanceService.ClockIn` | backend/libs/attendance/application/attendance.service.ts:104-175 | one new punch with its checks, or the earlier punch of the same event id |
| `DutyServices.AttendanceService.SupervisorClockIn` | backend/libs/attendance/application/attendance.service.ts:200-293 | one new punch for a guard fit for duty without an open one |
| `DutyServices.AttendanceService.ClockOut` | backend/libs/attendance/application/attendance.service.ts:312-344 | closes the guard's own open punch once, or returns the one the event id closed |
| `DutyServices.AttendanceService.CloseOpenForGuardAbsent` | backend/libs/attendance/application/attendance.service.ts:364-397 | closes exactly the guard's open punches |
| `DutyServices.AttendanceService.IngestDevicePunch` | backend/libs/attendance/application/attendance.service.ts:424-506 | toggles the guard's open punch, direction IN excepted; a blocked guard gets none |
| `DutyServices.PatrolService.Scan` | backend/libs/attendance/application/patrol.service.ts:32-98 | one scan row for each event id |
| `DutyServices.GuardsService.UpdateStatus` | backend/libs/workforce/application/guards.service.ts:311-389 | allowed transitions only; ABSENT runs the cleanup in the same step |
| `DutyServices.GuardsService.AbsentDutyCleanup` | backend/libs/attendance/application/guard-absent-attendance.bridge.ts:18-35 | closes the punches and cancels the checks of that guard and no other |
| `DutyOutcomes.ClockInOutcome` | backend/libs/attendance/application/attendance.service.ts:104-175 | a known event id repeats its punch; otherwise a guard fit for duty gets one punch with exactly the checks due, and each refusal has its reason |
| `DutyOutcomes.SupervisorClockInOutcome` | backend/libs/attendance/application/attendance.service.ts:200-293 | accepted exactly for a guard fit for duty without an open punch, with exactly the checks due |
| `DutyOutcomes.ClockOutOutcome` | backend/libs/attendance/application/attendance.service.ts:312-344 | closes exactly the named open punch of that guard; each refusal has its reason |
| `DutyOutcomes.DevicePunchOutcome` | backend/libs/attendance/application/attendance.service.ts:424-506 | closes the latest open punch of the guard unless the direction is IN, else opens one with exactly the checks due |
| `DutyOutcomes.TwoPunchesMakeAShift` | backend/libs/attendance/application/attendance.service.ts:452-506 | two terminal punches make one closed shift carrying both event ids |
| `DutyOutcomes.DefaultClockIn` | backend/libs/attendance/application/alertness.service.ts:107-215 | with default settings a clock-in brings exactly three checks, in order, within eight hours |
| `DutyOutcomes.ScheduleOutcome` | backend/libs/attendance/application/alertness.service.ts:56-99 | adds exactly the check asked for, for a guard fit for duty |
| `DutyOutcomes.ConfirmOutcome` | backend/libs/attendance/application/alertness.service.ts:278-343 | answers by the state of the check: repeated, refused, or recorded on time or late |
| `DutyOutcomes.MarkMissedOutcome` | backend/libs/attendance/application/alertness.service.ts:409-453 | one check and one alert about it, or nothing |
| `DutyOutcomes.ScanOutcome` | backend/libs/attendance/application/alertness.service.ts:489-519 | marks overdue checks only, earliest first, and leaves one only behind 200 others |
| `DutyOutcomes.DueListExists` | backend/libs/attendance/application/alertness.service.ts:500-512 | on every table the scan's query has an answer of the modelled kind: the earliest overdue checks, all of them or 200 |
| `DutyOutcomes.PatrolOutcome` | backend/libs/attendance/application/patrol.service.ts:32-98 | one scan for each non-empty event id, with the guard and checkpoint of the call |
| `DutyOutcomes.UpdateStatusOutcome` | backend/libs/workforce/application/guards.service.ts:311-389 | the allowed moves in closed form; only that guard moves, and ABSENT closes that guard's punches and checks and no others |
| `DutyTheorems.StepEvolves` | backend/libs/attendance/application/attendance.service.ts:104-520 | no step deletes a row or changes a closed punch, an answered check or a scan |
| `DutyTheorems.AlertnessIsOneShot` | backend/libs/attendance/application/alertness.service.ts:278-483 | a check that has left SCHEDULED never changes again, over every run |
| `DutyTheorems.LateMeansAfterGrace` | backend/libs/attendance/application/alertness.service.ts:320-329 | over every run CONFIRMED means answered within the grace period and LATE after it |
| `DutyTheorems.PunchSchedulesInsideDuty` | backend/libs/attendance/application/alertness.service.ts:157-215 | a punch adds at most twelve checks, for that guard, strictly inside the duty window, and none if some are coming up |
| `DutyTheorems.AbsentGuardIsOffDuty` | backend/libs/attendance/application/guard-absent-attendance.bridge.ts:18-35 | in every run an ABSENT guard has no open punch and no SCHEDULED check |
| `DutyTheorems.TerminatedIsFinal` | backend/libs/workforce/application/guards.service.ts:46-89 | a TERMINATED guard keeps that status over every run |
| `DutyTheorems.OneAlertPerMiss` | backend/libs/attendance/application/alertness.service.ts:404-453 | over every run the alerts are exactly one for each MISSED check, about its guard and site |
| `DutyTheorems.ScanTakesUpToLimit` | backend/libs/attendance/application/alertness.service.ts:500-516 | one scan takes min(200, n) of n overdue checks off the list |
| `DutyTheorems.ScansClearTheBacklog` | backend/libs/attendance/application/alertness.service.ts:489-519 | k scans at one cutoff clear n overdue checks exactly when 200 k >= n |
| `FieldSync.FieldSyncService.Dispatch` | backend/libs/attendance/application/field-sync.service.ts:31-133 | one event to the service of its type, a refusal turned into a result |
| `FieldSync.FieldSyncService.SyncBatch` | backend/libs/attendance/application/field-sync.service.ts:25-240 | one result for each event, in order, whatever became of the earlier ones |
| `FieldSync.BatchIsARun` | backend/libs/attendance/application/field-sync.service.ts:31-237 | a batch is a run of the service calls, so all run theorems hold for batches |
| `FieldSync.HandledOutcome` | backend/libs/attendance/application/field-sync.service.ts:31-236 | each event reaches the service of its type with its own data, and the answer is ACCEPTED, DUPLICATE or REJECTED as the service answers |
| `FieldSync.AcceptedEventReplays` | backend/libs/attendance/application/field-sync.service.ts:25-240 | an accepted event sent again after any further run changes no row and returns the same id exactly if its id is not empty and (for a confirmation) answers no other check, or it is a confirmation without id; any other event without id is never accepted again |
| `FieldSync.AcceptedBatchReplays` | backend/libs/attendance/application/field-sync.service.ts:25-240 | a wholly accepted batch replays with the same answers and no row changed exactly if every event in it is still recognised |
| `FieldSync.SettledReplaysIff` | backend/libs/attendance/application/alertness.service.ts:279-307 | an event whose row stands gets the same answer exactly while it is recognised |
| `FieldSync.ConfirmationAnsweredElsewhere` | backend/libs/attendance/application/alertness.service.ts:279-307 | a concrete run in which a confirmation sent again is answered with another check |
| `FieldSync.NonEmptyBatchHasNoDuplicate` | backend/libs/attendance/application/field-sync.service.ts:228-236 | a batch whose events all carry an id never meets the unique constraint |
| `FieldSync.NonEmptyIdIsNeverDuplicate` | backend/libs/attendance/application/field-sync.service.ts:228-236 | with a non-empty id no event is stopped by the unique constraint |
| `Assets.AssetsService.Create` | backend/libs/assets/application/assets.service.ts:46-64 | adds an AVAILABLE asset under a tag not yet taken |
| `Assets.AssetsService.Assign` | backend/libs/assets/application/assets.service.ts:157-185 | an AVAILABLE asset goes out with a new open assignment |
| `Assets.AssetsService.Transfer` | backend/libs/assets/application/assets.service.ts:199-273 | closes the active assignment and opens the next; refused while a return is pending |
| `Assets.AssetsService.Dispose` | backend/libs/assets/application/assets.service.ts:287-311 | only AVAILABLE or MAINTENANCE assets are disposed of |
| `Assets.AssetsService.StartMaintenance` | backend/libs/assets/application/assets.service.ts:327-345 | only AVAILABLE assets enter maintenance |
| `Assets.AssetsService.CompleteMaintenance` | backend/libs/assets/application/assets.service.ts:361-377 | only assets in maintenance return to stock |
| `Assets.AssetsService.RecordDamage` | backend/libs/assets/application/assets.service.ts:393-415 | damage sends an AVAILABLE asset to maintenance and leaves any other status |
| `Assets.AssetsService.RequestReturn` | backend/libs/assets/application/assets.service.ts:495-553 | records the first request and marks the asset RETURN_PENDING; asking again, whoever asks, changes nothing |
| `Assets.AssetsService.ReturnAsset` | backend/libs/assets/application/assets.service.ts:576-628 | closes the active assignment unless the caller requested the return |
| `Assets.AssetsService.ConfirmReturn` | backend/libs/assets/application/assets.service.ts:679-732 | closes a requested assignment unless the caller requested it |
| `Assets.StepConsistent` | backend/libs/assets/application/assets.service.ts:157-769 | every operation keeps the status column in agreement with the assignment table |
| `Assets.StepFollowsTheRules` | backend/libs/assets/application/assets.service.ts:157-769 | every request does to its asset exactly what the rules of custody say, refusals included, and nothing to any other asset |
| `Assets.StepLedger` | backend/libs/assets/application/assets.service.ts:157-745 | a request writes at most one row, forward only, and a row is added exactly by handing an asset out |
| `Assets.CreatedOnce` | backend/libs/assets/application/assets.service.ts:46-64 | a tag is accepted exactly if it is new |
| `Assets.TagsAreUnique` | backend/libs/assets/application/assets.service.ts:46-64 | over every run no two assets share a tag |
| `Assets.StatusSummarisesAssignments` | backend/libs/assets/application/assets.service.ts:157-769 | in every reachable register: held exactly with one open assignment, pending exactly when it is requested |
| `Assets.CustodyConserved` | backend/libs/assets/application/assets.service.ts:157-769 | in every reachable register open assignments are as many as held assets |
| `Assets.DisposedAndClosedAreFinal` | backend/libs/assets/application/assets.service.ts:228-244 | over every run DISPOSED is absorbing, a closed assignment is never written again, and a recorded requester is never replaced |
| `Assets.RequesterNeverCloses` | backend/libs/assets/application/assets.service.ts:594-621 | over every run nobody closes the assignment whose return they requested |
| `Assets.SecondRequestChangesNothing` | backend/libs/assets/application/assets.service.ts:531-536 | a second request is accepted and changes nothing |
| `Assets.FirstRequesterNeverCloses` | backend/libs/assets/application/assets.service.ts:495-732 | whoever first asked for a return stays its requester through every run and never closes it |
| `Assets.AssignThenReturn` | backend/libs/assets/application/assets.service.ts:157-642 | handing out and taking back in good order restores the register |
| `Assets.ReturnConditionDecides` | backend/libs/assets/application/assets.service.ts:765-769 | a lost asset stays disposed for ever, a damaged one needs maintenance, any other can go out again |
| `Assets.ReturnRoutesAgree` | backend/libs/assets/application/assets.service.ts:571-745 | for a requested return, walk-in and confirmation are the same operation, refusals included |
| `Assets.TransferIsReturnAndAssign` | backend/libs/assets/application/assets.service.ts:227-257 | a transfer is a return and a new assignment in one step |

## Left out

- HTTP transport, timers, sockets, node-hid, IPP, logging and configuration files: only the outcome of a push or a write is kept.
- Prisma, NestJS wiring, DTO mapping, list and report endpoints, audit records, notifications, lifecycle events and geofence remarks: wiring and projections.
- Tenancy: one organization is modelled; row-level security keeps others apart.
- Interleaving inside a handler: handlers are atomic steps, so the `closed.count !== 1` guards of the asset service never fire here.
- A crash inside a file write: each append or rewrite happens wholly or not at all.
- The command loop, heartbeat and stop flag of the edge agent: they do not touch the queue.
- Json.ParseValue: reads the compact text that `Stringify` writes, with integer numbers and no surrogate pairs; other JSON that `JSON.parse` would accept reads as corrupt, so a file holding it loads as empty here.
- EdgeProtocol.ThreeCursorTheorem: starts from an empty store with no file; distinct dedupe keys stand for `randomUUID`.
- EscPos.BuildReceipt: text is given as its encoded bytes, so UTF-8 and ASCII conversion of the job's strings is not modelled.
- RoleChange.CompareAndSwap: SUSPEND and REACTIVATE requests are not modelled, only role changes; strings are compared by code point.
- Contracts.ContractsService.Create: the customer, number, site and date checks of contract creation are not modelled.
- Contracts.ContractsService.ScanExpiring: expiry reminders are not modelled, only the status change and the list of contracts touched.
- Approvals.EveryRunLeavesTheTrail: a workflow version's steps do not change under an instance; the minimum number of approvers is stored by the source but not used by it.
- Approvals.Rounded: amounts are exact numbers, so binary rounding of a JavaScript number and the eighteen-digit limit of the column are not modelled.
- Approval effects on leave, payroll, purchase, movement and voucher rows: the same conditional update as for contracts, on other tables.
- DutySchedule.SlotLoop: times are whole milliseconds, so settings are modelled to the millisecond; a draw is any whole number of milliseconds within the jitter.
- DutyServices.AttendanceService.IngestDevicePunch: the most recent open punch is the last open row, rows being in clock-in order.
- DutyServices.AlertnessService.ScanMissed: the answer of the database query is a parameter that must satisfy `IsDueList`.
- FieldSync.FieldSyncService.SyncBatch: PATROL_ISSUE and INCIDENT events are not modelled, because the incident service they call is not part of this model. A unique violation is modelled as one DUPLICATE answer; in the source it also aborts the transaction the whole request runs in (backend/libs/shared/prisma/prisma.service.ts:36-60), so the other rows of that batch are not kept. Only batches with an empty event id can meet one (`NonEmptyBatchHasNoDuplicate`).
- Guard deployments, readiness flags and the deployable toggle: they do not touch attendance or checks.
- Asset purchase data, disposal stamps, notes and replacement records: they do not touch status or custody.
