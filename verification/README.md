# Parking server: verified model of its durable state machines

This project models the parts of the parking server that keep state across sensor
noise, redelivery and restarts, and proves what they promise over whole runs.

**Occupancy machine** (`Occupancy*.dfy`). Hall frames, camera actions and exit deadlines are
admitted into a bounded inbox, applied slot by slot in admission order, and turn into parking
sessions and an outbox of effects. `OccupancyTables` holds the rows, one map per SQL table.
`OccupancyReducer` is what applying one command does, `OccupancyInbox` the transactions around
it. `OccupancyWorld` puts them into runs: a world is the tables and a history that no table
keeps (admission numbers, the effects of each slot, the Hall frames that changed something),
and a run is any interleaving of submit, admit due deadlines, apply, defer, complete, defer
effects, purge and the overstay timer. `OccupancyDomain`, `OccupancyStep`,
`OccupancyInvariant` and `OccupancySafety` prove one inductive invariant over all tables;
`OccupancyRuns`, `OccupancyTiming`, `OccupancyExit`, `OccupancyLostExit`, `OccupancyHybrid`,
`OccupancyCapacity`, `OccupancyRedelivery`, `OccupancyOrdinals`, `OccupancyCursors` and
`OccupancyReplay` are the theorems about runs. `OccupancyOutcomes`, `OccupancyLatches` and
`OccupancyRecords` say what each applied command results in and leaves behind, without naming how the
reducer computes it; `OccupancyBlocked` says when a command cannot be applied, and `OccupancyLocality`
that a step concerns one slot. `OccupancyWitness` and `OccupancyCameraWitness` hold the runs that show where an
expectation ends; `OccupancyScript` builds such runs step by step. `OccupancyStore` is the
database class: its methods update the tables in place, look rows up in loops and roll back, and
each is proved to be one step of a run.

**Evidence** (`OccupancyLeases`, `Correlation`, `BestShotQuarantine`). Leases of camera tracks,
resolving a camera object to a session, attaching an image under exactly that lease, and the
bounded queue of evidence that still waits for its session.

**Sensor sequences** (`SensorSequence`). The policy of boot epochs and counters behind Hall and
fire sensors, in memory and as the database keeps it.

**Fire store** (`FireStore`, `FireRuns`, `FireRows`, `FireAnswers`, `FireRetirement`,
`FireDelivery`). Compare-and-swap revisions with a retained row and one lifecycle row per revision,
every answer with its condition, retired boot ids, delivery marks, and what repeats do.

**Radio frames** (`LoraNumbers`, `LoraCrc`, `LoraFrames`), **login limiter** (`LoginRates`,
`LoginSweep`, `LoginLimiter`) and **alert device** (`AlertDevice`).

Times are epoch milliseconds (seconds in the login limiter) as integers, JSON payloads are
datatypes, and clocks, downloads and credential checks are parameters. A transaction that
throws is a result of its own: the tables stay as they were. The lookups that the SQL text
leaves open (`LIMIT 1` without an order) are unique by an invariant that is proved.

Some behaviours differ from what one would expect. They are modelled as the code has them, and
each has an exact condition and an input or a run that shows it.

- An exit may wait behind an admitted deadline of another exit; once that deadline is applied, the
  camera row waits and no deadline is live (`OccupancyExit.ExitHasItsDeadlineIff`,
  `OccupancyLostExit.ExitIsLostIff`, `OccupancyCameraWitness.ExitWaitsBehindOlderDeadline`).
- A command whose application throws for a retry stays pending and holds the queue of its slot. It
  does so exactly under the guards that `OccupancyBlocked` lists (`OccupancyBlocked.RefusedIffBlocked`). Behind it
  nothing of the slot is applied, and from elsewhere only a Hall frame can be unblocked
  (`OccupancyReplay.StuckUnlessLifted`, `OccupancyReplay.StuckForever`). Two runs end that way: under
  HYBRID_OR a camera that repeats its EXIT while the Hall sensor holds the session, so that the session
  never ends (`OccupancyCameraWitness.RepeatedExitBlocks`), and an intrusion that started a session
  and is admitted again after a purge, so that the slot never has a session again
  (`OccupancyReplay.StarterAgainIsStuckIff`, `OccupancyCameraWitness.ReadmittedStarterBlocks`).
- The durable Hall cursor does not count an accepted VACANT that was observed before the entry of the
  running session (`OccupancyCursors.CursorFollowsCountedFrames`, `OccupancyCursors.EarlyVacantIsNotCounted`).
- A Hall candidate is canceled by comparing the departure time with the due time of the
  candidate; once its row is purged, a redelivery is admitted as new
  (`OccupancyCapacity.ResubmissionRevivesIff`, `OccupancyWitness.PurgedCandidateRevives`).
- The purge may delete the newest row of the inbox, although
  `Pi_Server/include/database/EventDatabase.hpp:324` says it never does, so ordinals can be
  handed out again (`OccupancyOrdinals.NewestIsPurgedIff`, `OccupancyOrdinals.OrdinalsIncreaseIff`,
  `OccupancyWitness.PurgedOrdinalIsReused`). Order in the inbox does not suffer, because the
  ordinals of the rows that are present stay in admission order; over a run it is stated by an
  admission number of the history.
- The fire store does not check that a mutation names the event which its retained row
  announces, nor that a lifecycle delivery arrives unacknowledged (`FireDelivery.RebootAfterCommit`,
  `FireDelivery.ForeignEventBreaksReboot`, `FireDelivery.TransitionIsAsHonestAsItsDelivery`,
  `FireDelivery.ForeignAcknowledgementIsStored`).
- Reads that share one open file of the alert device may return one state twice
  (`AlertDevice.FillIsFreshIffReadable`, `AlertDevice.SharedFileRepeats`).

## Model

| member | source | states |
|---|---|---|
| OccupancyStore.Store.LookupActive | Pi_Server/src/database/EventDatabaseOccupancy.cpp:778-801 | the loop returns the newest active session of the slot, or none exactly when there is none |
| OccupancyStore.Store.InsertSession | Pi_Server/src/database/EventDatabaseOccupancy.cpp:803-846 | starts a session with the latch of its own sensor and occupies the slot; refuses an unknown slot and a reused command |
| OccupancyStore.Store.EndSession | Pi_Server/src/database/EventDatabaseOccupancy.cpp:848-912 | closes session, slot, leases and camera row together, never before the entry time |
| OccupancyStore.Store.SetCursor | Pi_Server/src/database/EventDatabaseOccupancy.cpp:948-992 | moves the durable cursor of a Hall sensor and retires the displaced boot id |
| OccupancyStore.Store.SetLease | Pi_Server/src/database/EventDatabaseOccupancy.cpp:1026-1131 | refreshes the lease of a camera track or inserts it; a track owned elsewhere is an error |
| OccupancyStore.Store.ApplyHall | Pi_Server/src/database/EventDatabaseOccupancy.cpp:1136-1229 | a Hall frame, judged again by the sequence policy, does in place what the reducer says |
| OccupancyStore.Store.ApplyDeparture | Pi_Server/src/database/EventDatabaseOccupancy.cpp:1175-1228 | a Hall VACANT: ignored before entry, held by the camera latch under HYBRID_OR, or ending the session |
| OccupancyStore.Store.ApplyCamera | Pi_Server/src/database/EventDatabaseOccupancy.cpp:1230-1443 | a camera action does in place what the reducer says, including its refusals |
| OccupancyStore.Store.ApplyEvidence | Pi_Server/src/database/EventDatabaseOccupancy.cpp:1246-1267 | a camera without authority only leases its track to the active session |
| OccupancyStore.Store.ApplyIntrusion | Pi_Server/src/database/EventDatabaseOccupancy.cpp:1328-1364 | an intrusion supersedes scheduled exits, raises the camera latch or starts a session |
| OccupancyStore.Store.ApplyCameraExit | Pi_Server/src/database/EventDatabaseOccupancy.cpp:1365-1439 | an exit waits for every configured area and then schedules one deadline unless one is live |
| OccupancyStore.Store.ApplyDeadline | Pi_Server/src/database/EventDatabaseOccupancy.cpp:1445-1542 | a deadline that no longer owns its slot is stale and superseded |
| OccupancyStore.Store.ApplyStandingExit | Pi_Server/src/database/EventDatabaseOccupancy.cpp:1504-1540 | a standing deadline lowers the camera latch and ends the session unless the Hall latch holds it |
| OccupancyStore.Store.ApplySlotTransition | Pi_Server/src/database/EventDatabaseOccupancy.cpp:680-1609 | the transaction commits completely or restores every table; applied to the head of a queue it is one step of a run and keeps the invariant |
| OccupancyStore.Store.AdmitSlotTransition | Pi_Server/src/database/EventDatabaseOccupancy.cpp:262-471 | admission with all its answers; a refusal undoes a canceled candidate |
| OccupancyStore.Store.SelectDue | Pi_Server/src/database/EventDatabaseOccupancy.cpp:511-547 | picks due deadlines of slots that are not blocked, earliest first, exactly as many as there is room for |
| OccupancyStore.Store.AdmitDueDeadlines | Pi_Server/src/database/EventDatabaseOccupancy.cpp:473-597 | turns that batch into pending commands and admitted deadlines, and is one step of a run |
| OccupancyStore.Store.ListRunnable | Pi_Server/src/database/EventDatabaseOccupancy.cpp:599-627 | returns exactly the due heads of the slot queues, in admission order, at most one per slot |
| OccupancyStore.Store.DeferTransition | Pi_Server/src/database/EventDatabaseOccupancy.cpp:629-650 | postpones a pending command and nothing else |
| OccupancyStore.Store.ListPendingEffects | Pi_Server/src/database/EventDatabaseOccupancy.cpp:1611-1670 | returns exactly the first uncompleted effects, in admission order, at most one per slot |
| OccupancyStore.Store.CompleteTransitionEffects | Pi_Server/src/database/EventDatabaseOccupancy.cpp:1673-1686 | completes a waiting effect; for one that was listed it is one step of a run |
| OccupancyStore.Store.DeferTransitionEffects | Pi_Server/src/database/EventDatabaseOccupancy.cpp:1688-1708 | postpones a waiting effect and nothing else |
| OccupancyStore.Store.PurgeSettledCommands | Pi_Server/src/database/EventDatabaseOccupancy.cpp:1746-1774 | deletes the oldest settled rows before the cutoff, at most the limit, and no row that waits |
| OccupancyStep.ReduceKeeps | Pi_Server/src/database/EventDatabaseOccupancy.cpp:1136-1542 | whatever a command does, the domain invariant survives and the result code says exactly which session appeared or ended |
| OccupancySessions.ReduceSessions | Pi_Server/src/database/EventDatabaseOccupancy.cpp:803-946 | no session is lost or renamed, only the applied command starts one, an ended one never changes, and a latch falls only for its own sensor unless the policy lets the other end the session |
| OccupancyOutcomes.OutcomesExactly | Pi_Server/src/database/EventDatabaseOccupancy.cpp:1136-1542 | every result of applying a command, with its exact condition on payload, running session, camera row, policy and cursor: retry, rejection, invalid timestamp, stale, started, ended, exit scheduled; what is left is no change |
| OccupancyLatches.AppliedObservationHolds | Pi_Server/src/database/EventDatabaseOccupancy.cpp:1154-1173 | an applied OCCUPIED leaves a running session that the Hall sensor confirmed and holds, an applied INTRUSION one that the camera does: the one that ran, otherwise unchanged, or a new one |
| OccupancyLatches.AppliedExitLetsGo | Pi_Server/src/database/EventDatabaseOccupancy.cpp:1194-1226 | an applied VACANT or standing deadline takes back the hold of its sensor and ends the session unless HYBRID_OR leaves it to the other sensor; a stale one changes no session |
| OccupancyRecords.CameraRowFollows | Pi_Server/src/database/EventDatabaseOccupancy.cpp:1328-1439 | the camera row and the deadlines after any applied camera action: an intrusion supersedes every scheduled deadline, a complete exit schedules one at the time it carries unless one is live |
| OccupancyRecords.DeadlineRowFollows | Pi_Server/src/database/EventDatabaseOccupancy.cpp:1462-1542 | an applied deadline settles its own row only, as applied if its exit stands and as superseded if it is stale |
| OccupancyRecords.LeaseFollows | Pi_Server/src/database/EventDatabaseOccupancy.cpp:1026-1131 | an applied intrusion leases the track it names to the running session; the expiry only moves on, and with the revision; other camera commands leave leases alone |
| OccupancyRecords.LeasesEndWithSession | Pi_Server/src/database/EventDatabaseOccupancy.cpp:882-892 | the end of a session ends exactly its committed leases |
| OccupancyRecords.AppliedRowSays | Pi_Server/src/database/EventDatabaseOccupancy.cpp:1546-1600 | an applied command becomes terminal with its result, session, attempt, generation and correlation, and waits for its effect exactly if it started or ended a session |
| OccupancyRecords.TimerMarks | Pi_Server/src/database/EventDatabaseTimer.cpp:1493-1500 | the overstay timer marks a running session once and changes nothing else |
| OccupancySafety.ExecKeeps | Pi_Server/src/database/EventDatabaseOccupancy.cpp:262-1774 | every step of a run keeps the invariant over inbox, sessions, slots, camera rows, deadlines, leases, cursors and history |
| OccupancySafety.ReachableIsSafe | Pi_Server/src/database/EventDatabaseOccupancy.cpp:262-1774 | so every world that a fresh database can reach satisfies it |
| OccupancyRuns.CompletedEffectsAlternate | Pi_Server/src/database/EventDatabaseOccupancy.cpp:1546-1686 | the completed effects of a slot alternate started and ended, an end names the session that started before it, and they come in admission order, however effects are deferred and rows purged |
| OccupancyRuns.SlotsAreConsistent | Pi_Server/src/database/EventDatabaseOccupancy.cpp:778-946 | at most one active session per slot, OCCUPIED exactly then, no camera row on an ended session, exit after entry, a session is active exactly while a confirmed latch is up |
| OccupancyRuns.DeadlinesMatchCommands | Pi_Server/src/database/EventDatabaseOccupancy.cpp:543-590 | one live deadline per slot; admitted deadlines and pending deadline commands correspond one to one and say the same |
| OccupancyRuns.FrameCountsOnce | Pi_Server/src/database/EventDatabaseOccupancy.cpp:948-992 | a versioned Hall frame changes the tables at most once in a run, also after its row was purged and admitted again |
| OccupancyTiming.SessionStartedOnTime | Pi_Server/src/database/EventDatabaseOccupancy.cpp:599-627 | every session was started by applying its entry command when that had fallen due, a Hall arrival never before its confirmation time, and its entry is the time of that observation |
| OccupancyTiming.SessionEndedOnTime | Pi_Server/src/database/EventDatabaseOccupancy.cpp:848-870 | every session that ended was ended by applying its exit command when that had fallen due, and its exit is the time of that observation |
| OccupancyTiming.DeadlineWasScheduled | Pi_Server/src/database/EventDatabaseOccupancy.cpp:1412-1431 | every deadline row was made by an applied authoritative EXIT of its slot and falls due when that EXIT said |
| OccupancyTiming.ExitWaitsItsTime | Pi_Server/src/database/EventDatabaseOccupancy.cpp:1399-1439 | a session that a deadline ended was left by an earlier EXIT, ended no sooner than that EXIT said, and has that time as its exit |
| OccupancyExit.IntrusionCancelsExit | Pi_Server/src/database/EventDatabaseOccupancy.cpp:1328-1364 | a deadline that exists when an authoritative intrusion is applied on its slot never ends a session afterwards |
| OccupancyExit.StaleExitIsHarmless | Pi_Server/src/database/EventDatabaseOccupancy.cpp:1462-1502 | applying a deadline behind the camera generation changes nothing but its own row and its state |
| OccupancyExit.ExitEndsQuietSlot | Pi_Server/src/database/EventDatabaseOccupancy.cpp:1478-1542 | a deadline that ends a session found every configured area reported inactive and the camera waiting for exactly this exit; it ends that session only |
| OccupancyExit.ExitHasItsDeadlineIff | Pi_Server/src/database/EventDatabaseOccupancy.cpp:1399-1439 | an exit that waits leaves a live deadline of its own generation exactly when that one or none was live on the slot before |
| OccupancyLostExit.ExitIsLostIff | Pi_Server/src/database/EventDatabaseOccupancy.cpp:1478-1502 | after a step a camera row waits without a live deadline exactly when it did before and the step does not recover it (by an intrusion, a scheduled exit or the end of the session), or the step applies the deadline of another exit than the one it waits for |
| OccupancyCameraWitness.ExitWaitsBehindOlderDeadline | Pi_Server/src/database/EventDatabaseOccupancy.cpp:1402-1431 | witness run: a second intrusion and exit are applied while the first deadline is admitted; the camera waits at generation 4 behind the deadline of generation 2, and once that one is applied it waits with no live deadline |
| OccupancyHybrid.BothSensorsMustLeave | Pi_Server/src/database/EventDatabaseOccupancy.cpp:1194-1226 | in a HYBRID_OR run a session that both sensors confirmed is over only after a Hall VACANT lowered one latch and a deadline the other |
| OccupancyCapacity.PendingStaysBounded | Pi_Server/src/database/EventDatabaseOccupancy.cpp:413-431 | the pending rows never exceed the capacity that admissions are given |
| OccupancyCapacity.FullChangesNothing | Pi_Server/src/database/EventDatabaseOccupancy.cpp:420-430 | CapacityFull leaves the whole world as it was |
| OccupancyCapacity.OneArrivalWaits | Pi_Server/src/database/EventDatabaseOccupancy.cpp:379-397 | a slot never has two Hall arrivals waiting for confirmation |
| OccupancyRedelivery.AdmissionAnswersExactly | Pi_Server/src/database/EventDatabaseOccupancy.cpp:262-470 | every answer of an admission with its exact condition on the tables; nothing changes but by a new admission |
| OccupancyRedelivery.NewCommandJoins | Pi_Server/src/database/EventDatabaseOccupancy.cpp:398-455 | a new command waits untouched behind every row; of the other rows only an arrival that it cancels changes |
| OccupancyRedelivery.DueDeadlinesJoin | Pi_Server/src/database/EventDatabaseOccupancy.cpp:543-596 | each due deadline of a batch is admitted with a pending command that says what its row says; no other deadline and no row of the inbox changes |
| OccupancyRedelivery.RedeliveryIsRecognized | Pi_Server/src/database/EventDatabaseOccupancy.cpp:297-331 | until a purge deletes its row, an admitted report that comes again changes nothing and is answered Existing while pending and AlreadyTerminal afterwards; another report under its identity is a Conflict |
| OccupancyCapacity.CanceledCandidateStartsNothing | Pi_Server/src/database/EventDatabaseOccupancy.cpp:398-410 | a candidate that a VACANT observed before its due time canceled has no effect, is never pending again and starts no session, however often it is delivered again, unless it is delivered after a purge deleted its row |
| OccupancyCapacity.ResubmissionRevivesIff | Pi_Server/src/database/EventDatabaseOccupancy.cpp:297-462 | a command that is not pending becomes pending again exactly when its row is gone and it passes the guards of a new command |
| OccupancyWitness.PurgedCandidateRevives | Pi_Server/src/database/EventDatabaseOccupancy.cpp:379-410 | witness: cancel, purge, deliver again, apply: the canceled candidate starts a session |
| OccupancyOrdinals.NewestIsPurgedIff | Pi_Server/src/database/EventDatabaseOccupancy.cpp:1758-1766 | a purge deletes the row with the highest ordinal exactly when that row is settled before the cutoff and the limit covers every such row |
| OccupancyOrdinals.OrdinalsIncreaseIff | Pi_Server/src/database/EventDatabaseOccupancy.cpp:433-438 | the ordinals that a run hands out are strictly increasing exactly when no admission comes after a purge that deleted the highest row |
| OccupancyWitness.PurgedOrdinalIsReused | Pi_Server/include/database/EventDatabase.hpp:324-325 | witness: a run in which the newest row is purged and its ordinal is handed out again |
| OccupancyReplay.CommandStartsOneSession | Pi_Server/src/database/EventDatabaseOccupancy.cpp:803-846 | a command of any kind starts at most one session in a run, also when purged and admitted again |
| OccupancyBlocked.RefusedIffBlocked | Pi_Server/src/database/EventDatabaseOccupancy.cpp:1136-1542 | for every table content and command, applying it throws for a retry exactly under the listed guards: entry or exit id used, slot unknown, configured areas changed, lease refused, repeated exit whose deadline is spent, deadline before entry |
| OccupancyLocality.ReduceOnly | Pi_Server/src/database/EventDatabaseOccupancy.cpp:803-1131 | applying a command leaves sessions, camera rows, deadlines and leases of every other slot alone |
| OccupancyLocality.StepStays | Pi_Server/src/database/EventDatabaseOccupancy.cpp:262-1774 | a step that applies no command of a slot keeps its sessions, camera row, live deadlines and leases |
| OccupancyReplay.SelectedFailsIffBlocked | Pi_Server/src/database/EventDatabaseOccupancy.cpp:1603-1608 | a selected command leaves the whole world as it was exactly while it is blocked, and becomes terminal otherwise |
| OccupancyReplay.StuckUnlessLifted | Pi_Server/src/database/EventDatabaseOccupancy.cpp:599-627 | a step frees a blocked head exactly when it cancels a Hall candidate or moves the cursor of its sensor past it |
| OccupancyReplay.StuckForever | Pi_Server/src/database/EventDatabaseOccupancy.cpp:599-627 | a blocked camera or deadline command heads its slot for the rest of the run, and a Hall frame until it is freed: applying it changes nothing, nothing else of the slot is applied, and the slot keeps its session or stays without one |
| OccupancyReplay.StarterAgainIsStuckIff | Pi_Server/src/database/EventDatabaseOccupancy.cpp:803-846 | an intrusion that once started a session and heads its queue again is blocked exactly when the slot has no session, its configured areas changed, or its lease is refused |
| OccupancyReplay.ReadmittedStarterIsStuck | Pi_Server/src/database/EventDatabaseOccupancy.cpp:1328-1364 | it is blocked at once, when admitted again, exactly under that condition with nothing else of the slot pending |
| OccupancyCameraWitness.RepeatedExitBlocks | Pi_Server/src/database/EventDatabaseOccupancy.cpp:1402-1431 | witness run under HYBRID_OR: the Hall sensor holds the session over an applied exit deadline, the camera repeats its EXIT, and in no continuation does the session end |
| OccupancyCameraWitness.ReadmittedStarterBlocks | Pi_Server/src/database/EventDatabaseOccupancy.cpp:1355-1362 | witness run: an intrusion starts a session, the session ends, its row is purged, the intrusion is admitted again, and in no continuation does the slot have a session |
| OccupancyLeases.ExecLeases | Pi_Server/src/database/EventDatabaseOccupancy.cpp:882-892 | no step deletes a lease, gives it to another session or track, lowers its revision, or moves its expiry without its revision |
| Correlation.EvidenceLog.ResolveParkingCorrelation | Pi_Server/src/database/EventDatabaseCorrelation.cpp:108-225 | merges inbox and lease candidates and answers unmatched, ambiguous, pending or unique exactly as their number and kind require |
| Correlation.EvidenceLog.AttachBestShotIfActive | Pi_Server/src/database/EventDatabaseCorrelation.cpp:227-422 | stores an image or gives the refusal of the first check that fails, and keeps one row per evidence |
| Correlation.UniqueMatchIsActive | Pi_Server/src/database/EventDatabaseCorrelation.cpp:162-224 | a unique match is the lease of the one active session of its slot, under the same attempt |
| Correlation.MatchSays | Pi_Server/src/database/EventDatabaseCorrelation.cpp:108-225 | what each answer says about the pending intrusions and unexpired leases of the camera object: none, several, the only one and waiting, or the only one and leased |
| Correlation.AttachesExactlyUnderLease | Pi_Server/src/database/EventDatabaseCorrelation.cpp:283-405 | new evidence is attached exactly when the binding row holds this lease, committed and unexpired, and then its session is the active one |
| Correlation.NewEvidenceAnswers | Pi_Server/src/database/EventDatabaseCorrelation.cpp:227-422 | each answer to new evidence in a reachable system with its exact condition, and the image that is stored |
| Correlation.EvidenceIsStoredOnce | Pi_Server/src/database/EventDatabaseCorrelation.cpp:301-334 | no evidence ever has two image rows |
| Correlation.RecognitionRewrites | Pi_Server/src/database/EventDatabaseEntrance.cpp:348-354 | recognizing a plate rewrites the plate of exactly the images with that path |
| Correlation.RepeatedAttachIsRecognized | Pi_Server/src/database/EventDatabaseCorrelation.cpp:301-334 | repeating an attach after any run returns the same image id exactly while lease revision and stored plate are unchanged, otherwise Conflict |
| BestShotQuarantine.IdentityIsExact | Pi_Server/src/bestshot/BestShotReceiver.cpp:683-702 | two evidence items share an identity key exactly when they agree on everything but the time |
| BestShotQuarantine.QuarantineIsBounded | Pi_Server/src/bestshot/BestShotReceiver.cpp:577-655 | in every interleaving the index is exactly what waits or is out, each identity once, within the capacity |
| BestShotQuarantine.RedeliveryCannotExtend | Pi_Server/src/bestshot/BestShotReceiver.cpp:640-650 | while an identity is held, it keeps its first-seen time |
| BestShotQuarantine.Pending.EnqueuePending | Pi_Server/src/bestshot/BestShotReceiver.cpp:577-602 | refuses a held identity, evicts the oldest at capacity, refuses when everything is out |
| SensorSequence.SequenceGuard.Accept | Pi_Server/src/parking/ParkingSensorSequenceGuard.cpp:5-20 | accepts exactly by the policy, commits exactly the accepted frames, and touches no other sensor |
| SensorSequence.SequenceGuard.Commit | Pi_Server/include/sensor/SensorSequencePolicy.hpp:119-136 | the cursor after an accepted frame |
| SensorSequence.SequenceGuard.Reset | Pi_Server/src/parking/ParkingSensorSequenceGuard.cpp:22-25 | a reset sensor starts unseen, and no other cursor changes |
| SensorSequence.VersionedAcceptedExactly | Pi_Server/include/sensor/SensorSequencePolicy.hpp:86-116 | a versioned frame is accepted exactly when it is complete, not of a retired epoch and not behind the cursor |
| SensorSequence.VersionedRefusals | Pi_Server/include/sensor/SensorSequencePolicy.hpp:86-116 | which refusal a versioned frame gets, exactly |
| SensorSequence.LegacyAcceptedExactly | Pi_Server/include/sensor/SensorSequencePolicy.hpp:55-84 | a legacy frame is accepted exactly when it has no boot id, the sensor is not versioned, and its counter, if both sides have one, is higher or lower by more than 1000 |
| SensorSequence.LegacyRefusals | Pi_Server/include/sensor/SensorSequencePolicy.hpp:55-84 | which refusal a legacy frame gets, exactly |
| SensorSequence.RebootIsHeard | Pi_Server/include/sensor/SensorSequencePolicy.hpp:74-83 | a legacy sensor that restarts more than 1000 below its counter and counts up is accepted at once and throughout |
| SensorSequence.RunIsMonotone | Pi_Server/include/sensor/SensorSequencePolicy.hpp:55-136 | the mode only climbs, and known boot ids and spent pairs stay so |
| SensorSequence.NoReplay | Pi_Server/include/sensor/SensorSequencePolicy.hpp:86-136 | a committed pair of boot id and counter is refused for the rest of the run |
| SensorSequence.BootIdsStayKnown | Pi_Server/include/sensor/SensorSequencePolicy.hpp:128-135 | a committed boot id stays active or retired |
| SensorSequence.LegacyFallsOnlyByReboot | Pi_Server/include/sensor/SensorSequencePolicy.hpp:71-83 | a legacy counter that is lower after a run fell by more than 1000 in one frame of it |
| SensorSequence.DurableCursorAgrees | Pi_Server/src/database/EventDatabaseOccupancy.cpp:948-992 | of two cursors that commit every frame they accept, the durable one decides every frame of every stream as the one in memory does |
| OccupancyCursors.CursorFollowsCountedFrames | Pi_Server/src/database/EventDatabaseOccupancy.cpp:948-992 | in every run the durable cursor of a sensor is that of its applied frames without those refused for their time, and it decides the next frame as a guard in memory that saw exactly these |
| OccupancyCursors.EarlyVacantIsNotCounted | Pi_Server/src/database/EventDatabaseOccupancy.cpp:1186-1192 | an accepted VACANT from before the entry changes nothing, so its counter would be accepted again where a guard in memory refuses it |
| FireStore.Database.ApplyFireStateMutation | Pi_Server/src/database/EventDatabaseFire.cpp:486-740 | one mutation with all its answers; it commits state, deliveries and retired boot id together or restores them |
| FireAnswers.MutationAnswersExactly | Pi_Server/src/database/EventDatabaseFire.cpp:486-740 | every answer to a mutation with its exact condition on the tables and the revision it reports; nothing is written but by Committed |
| FireAnswers.CommitWrites | Pi_Server/src/database/EventDatabaseFire.cpp:644-735 | the state, the rewritten retained row, the lifecycle row and every other row after a commit |
| FireStore.Database.InitializeFireTopology | Pi_Server/src/database/EventDatabaseFire.cpp:356-484 | creates missing channels or checks the durable ones, all or nothing |
| FireRows.BootstrapAnswers | Pi_Server/src/database/EventDatabaseFire.cpp:356-484 | when a bootstrap is Invalid, that an agreeing store answers Idempotent with the highest revision, and that only Committed writes |
| FireStore.Database.MarkFireDeliveryInFlight | Pi_Server/src/database/EventDatabaseFire.cpp:845-863 | marks the row of this key and revision and no other |
| FireStore.Database.MarkFireDeliveryPending | Pi_Server/src/database/EventDatabaseFire.cpp:865-885 | puts the row of this key and revision back |
| FireStore.Database.AcknowledgeFireDelivery | Pi_Server/src/database/EventDatabaseFire.cpp:887-906 | settles only a row in flight at this revision |
| FireStore.Database.ResetFireInFlightDeliveries | Pi_Server/src/database/EventDatabaseFire.cpp:908-922 | afterwards no row is in flight; the ones that were wait again from now, no other row changes, and no row changes what it says, its attempts or what was acknowledged |
| FireRuns.ExecKeeps | Pi_Server/src/database/EventDatabaseFire.cpp:356-922 | every bootstrap, mutation and mark keeps the invariant of states and outbox |
| FireRuns.LifecycleRowsMatchRevisions | Pi_Server/src/database/EventDatabaseFire.cpp:678-735 | a channel created at r0 and now at R has exactly one lifecycle row for each of r0+1..R, and one retained row, at R |
| FireRuns.OneCommitPerRevision | Pi_Server/src/database/EventDatabaseFire.cpp:562-567 | of two transitions that expect the same revision of a channel at most one commits |
| FireRows.RowsStayGood | Pi_Server/src/database/EventDatabaseFire.cpp:217-354 | in every run states and deliveries are complete, channels share no sensor or topic, rows of a sink no logical id, lifecycle rows no event |
| FireRows.ChannelBegins | Pi_Server/src/database/EventDatabaseFire.cpp:230-278 | only a bootstrap makes a channel: resolved, without alarm, unseen, and announced by its retained delivery |
| FireRetirement.CountersRise | Pi_Server/src/database/EventDatabaseFire.cpp:568-631 | after a commit with a boot id and a counter, later commits of the channel are versioned, and one that changes the cursor under the same boot id carries a higher counter |
| FireRetirement.ReplacedBootNeverReturns | Pi_Server/src/database/EventDatabaseFire.cpp:632-643 | once another boot id has replaced it, no later commit of the channel carries a boot id |
| FireRetirement.RetiredPairsStay | Pi_Server/src/database/EventDatabaseFire.cpp:632-643 | no step takes a retired pair of sensor and boot id away |
| FireDelivery.RepeatIsIdempotent | Pi_Server/src/database/EventDatabaseFire.cpp:539-560 | repeating the latest mutation of a channel, after any marks, bootstraps and mutations elsewhere, is Idempotent and changes no row |
| FireDelivery.TransitionIsAsHonestAsItsDelivery | Pi_Server/src/database/EventDatabaseFire.cpp:690-727 | a transition keeps acknowledged revisions within their rows exactly when the lifecycle delivery it brings does |
| FireDelivery.AcknowledgementsStayHonest | Pi_Server/src/database/EventDatabaseFire.cpp:845-922 | then no row is ever acknowledged beyond its revision, and an acknowledged row at exactly its own |
| FireDelivery.AckedNeverFalls | Pi_Server/src/database/EventDatabaseFire.cpp:690-715 | the acknowledged revision of a row never falls across transitions, retries and restarts |
| FireDelivery.LateAckIsIgnored | Pi_Server/src/database/EventDatabaseFire.cpp:887-906 | an acknowledgement of an older revision changes nothing at any later point |
| FireDelivery.ForeignAcknowledgementIsStored | Pi_Server/src/database/EventDatabaseFire.cpp:217-228 | witness: a lifecycle delivery acknowledged beyond its revision passes the checks and is stored |
| FireDelivery.RebootIsIdempotentIff | Pi_Server/src/database/EventDatabaseFire.cpp:392-474 | bootstrapping a configured store again is Idempotent exactly while every retained row announces its state, and fails otherwise |
| FireDelivery.RebootAfterCommit | Pi_Server/src/database/EventDatabaseFire.cpp:401-421 | after one commit the next bootstrap is Idempotent exactly when the mutation was well formed |
| FireDelivery.RebootStaysIdempotent | Pi_Server/src/database/EventDatabaseFire.cpp:356-484 | after a bootstrap and any run of marks and well-formed mutations, bootstrapping again changes nothing |
| FireDelivery.ForeignEventBreaksReboot | Pi_Server/src/database/EventDatabaseFire.cpp:486-522 | witness: a cursor-only mutation with another event commits and every later bootstrap fails |
| FireDelivery.OneBootIdSuffices | Pi_Server/src/database/EventDatabaseFire.cpp:590-622 | loading only the boot id that the mutation carries gives the decision of the full set |
| LoraCrc.Crc16 | Pi_Server/lora_console.py:47-54 | the register loop computes the checksum function |
| LoraCrc.CheckValue | Pi_Server/lora_console.py:47-54 | the checksum of the ASCII digits 1 to 9 is 0x29B1 |
| LoraCrc.BurstIsDetected | Pi_Server/lora_console.py:47-54 | inputs of one length that differ in one byte or two adjacent bytes have different checksums |
| LoraFrames.Reader.ReceiveBytes | Pi_Server/lora_console.py:150-206 | the buffer-slicing loop finds exactly the events, junk and rest of the byte-by-byte reading, and its counters agree |
| LoraFrames.Reader.TakeFrame | Pi_Server/lora_console.py:188-201 | takes the frame at the front, judged by its checksum |
| LoraFrames.ChunksDoNotMatter | Pi_Server/lora_console.py:150-206 | however a stream is cut into reads, events, junk count and rest are the same |
| LoraFrames.EveryByteIsAccounted | Pi_Server/lora_console.py:164-189 | every byte is junk, part of a frame, or still in the buffer |
| LoraFrames.FrameIsLaidOut | Pi_Server/lora_console.py:57-61 | a built frame byte by byte: AA 55, version, type, sequence and length high byte first, payload, checksum of what lies between |
| LoraFrames.UnbuildableExactly | Pi_Server/lora_console.py:57-61 | building a frame fails exactly when the sequence or the payload length does not fit its field |
| LoraFrames.BuiltFrameIsReceivedIff | Pi_Server/lora_console.py:57-61 | a built frame comes back as its message, before any tail, exactly when version, type and length are known; otherwise no stream ever yields that message |
| LoraFrames.FramesComeBack | Pi_Server/lora_console.py:57-61 | built frames with known header decode to their messages without junk, whatever follows |
| LoraFrames.RoundTrip | Pi_Server/lora_console.py:57-61 | sendable messages can all be built, and the stream of their frames decodes to exactly them and leaves nothing |
| LoraFrames.UnknownHeaderIsJunk | Pi_Server/lora_console.py:164-182 | the mark of a frame with another version, type or length is dropped and reading goes on inside it; when it holds no other mark, all of it is junk |
| LoraFrames.DamageLosesOneFrame | Pi_Server/lora_console.py:190-199 | damage to one or two adjacent bytes of sequence, payload or checksum loses exactly that frame of the stream |
| LoginLimiter.Limiter.PruneFailures | Pi_Server/src/auth/AuthService.cpp:165-170 | drops the failures that left the window and an expired block |
| LoginLimiter.Limiter.BoundRateTable | Pi_Server/src/auth/AuthService.cpp:172-190 | sweeps what is forgotten and evicts the longest unseen keys exactly until one more fits |
| LoginLimiter.Limiter.RateLimitRetryAfter | Pi_Server/src/auth/AuthService.cpp:192-205 | answers the remaining block of a key and marks it seen |
| LoginLimiter.Limiter.RecordFailure | Pi_Server/src/auth/AuthService.cpp:207-216 | records a failure and blocks the key when the window is full |
| LoginLimiter.Limiter.Login | Pi_Server/src/auth/AuthService.cpp:238-275 | one login is one step of the limiter, and the table stays within 4096 keys |
| LoginRates.TableStaysBounded | Pi_Server/src/auth/AuthService.cpp:172-190 | the table never exceeds 4096 keys in any run |
| LoginRates.FailuresInAWindow | Pi_Server/src/auth/AuthService.cpp:192-216 | the n failures of a key inside one window satisfy n <= max or (n - max) * cooldown < window |
| LoginRates.RefusedExactly | Pi_Server/src/auth/AuthService.cpp:192-216 | a key that has neither logged in nor been evicted is refused exactly while a failure of it completed a window of maxFailures less than the cooldown ago, with what is left of that cooldown as the answer |
| LoginRates.SuccessForgets | Pi_Server/src/auth/AuthService.cpp:218-221 | a success takes its key out of the table, so that every failure of it is forgotten |
| LoginRates.LongestUnseenGo | Pi_Server/src/auth/AuthService.cpp:172-190 | only a new key that finds 4096 others pushes keys out, and only keys whose latest attempt is no later than that of any key that stays |
| LoginSweep.SweepIsInvisible | Pi_Server/src/auth/AuthService.cpp:172-190 | sweeping at any moment changes no later answer |
| AlertDevice.Device.ApplyCommand | Pi_Server/driver/parking_alert/parking_alert.c:73-115 | a valid command changes the slots, and only a change is an event |
| AlertDevice.LastCommandDecides | Pi_Server/driver/parking_alert/parking_alert.c:73-115 | a slot is active exactly when the last command that decides about it set it |
| AlertDevice.NoChangeIsMissed | Pi_Server/driver/parking_alert/parking_alert.c:138-200 | with any number of reads in flight a file is not readable exactly when it returned the current state last; what it returns never grows older, one generation is one state, and the generation counts the changes |
| AlertDevice.FillIsFreshIffReadable | Pi_Server/driver/parking_alert/parking_alert.c:138-171 | a read returns a state the file has not returned before exactly when the file is readable as it fills |
| AlertDevice.RefusalIsJustified | Pi_Server/driver/parking_alert/parking_alert.c:138-171 | a read that is turned away had sampled the generation of the state returned last |
| AlertDevice.OneReaderIsFresh | Pi_Server/driver/parking_alert/parking_alert.c:138-171 | while a file has at most one read in flight, every read returns a state not returned before |
| AlertDevice.SharedFileRepeats | Pi_Server/driver/parking_alert/parking_alert.c:138-171 | witness: two reads that both pass the check return one state twice |

## Left out

- SQLite, statement caching, schema migration, the event log, session durations and vehicle rows: storage mechanics without a bearing on the properties; foreign keys appear only as the error of an unknown slot.
- JSON text: payloads are datatypes, so unreadable JSON, unknown command kinds and payload keys outside the model do not occur; area states in the array shape of older versions are not modelled.
- Timestamps as text: occurrence times are epoch milliseconds; `created_at` has a resolution of one second in the purge.
- Rows in the state PENDING_PREPARED of older versions: the program no longer writes them.
- Commands of kind EXIT_DEADLINE that are submitted from outside instead of being made from a deadline row.
- Ties between deadlines with one due time: the program orders them by id, the model allows either order.
- OccupancyExit.IntrusionCancelsExit: is about deadlines that exist when the intrusion is applied; an exit after the intrusion may schedule a new one.
- OccupancyCapacity.CanceledCandidateStartsNothing: does not cover a candidate that is delivered again after its row was purged, because the program then admits it as new, as PurgedCandidateRevives shows.
- LoginRates.FailuresInAWindow: is about a key that neither logs in nor is evicted and a clock that does not go back, because a success or an eviction forgets the failures.
- LoginLimiter.Limiter.Login: takes the outcome of the credential check as a parameter and is sequential; the program does not hold the lock between the check and the record.
- FireDelivery.AcknowledgementsStayHonest: needs mutations whose lifecycle deliveries are honest, which the store does not check; TransitionIsAsHonestAsItsDelivery is the exact condition.
- A lifecycle delivery that arrives with an acknowledged revision of 0, which the fire store inserts and later cannot read.
- FireDelivery.RebootStaysIdempotent: needs well-formed mutations, which the store does not check; RebootAfterCommit is the exact condition.
- Reading lists of fire states and deliveries, and nextScheduledSlotDeadlineEpochMs and the count queries of the inbox: they would only add easy members.
- BestShot downloads, image files and the choice of outcomes in processOne: input and output; the quarantine takes the outcome of an item as a parameter.
- The thread, wake-ups and retry delays of the slot actor: a run may take its steps in any order and at any time.
- Classes shown only as headers, such as the fire delivery coordinator and the timer manager: a listed command is applied and a listed effect completed, in any order and any number of times.
- The entrance and plate matching code, except that plate recognition rewrites the plate of stored images by path.
- The copies of the driver to user space, memory failures, the waiting of a blocking read (it is a read that is turned away and begins again) and the overflow of the 64-bit generation.
- HTTP, ONVIF, RTSP, Telegram, MQTT transport and the user interface; payload rendering and colours of the console; password hashing, tokens and account storage.
