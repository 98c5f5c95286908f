/**
  The result of every applied command with its exact condition on the tables, and what the command
  leaves in the camera row, the deadlines, the leases and its own row.
*/
module OccupancyOutcomes {
  import opened Options
  import opened OccupancyTables
  import opened OccupancyReducer
  import opened OccupancyDomain
  import opened OccupancyStep
  import opened OccupancySessions
  import opened OccupancyBlocked
  import Sequence = SensorSequence

  // ---------------------------------------------------------------- the guards of the results

  // The payload is at fault, whatever the tables say.
  predicate Faulty(d: Domain, command: Command) {
    match command.payload
    case Hall(state, _, _, _, _) => state == HallUnsupported
    case Camera(action, _, authority, _, area, configured, track, _, _, _, _, _) =>
      configured == [] || area == "" ||
      if authority then !TopologyChanged(d, command) && action == UnsupportedAction
      else action != Intrusion || track.objectId == ""
    case Deadline(_, _, _, _, _) => false
  }

  // An authoritative camera action on the areas that the slot is known to have.
  predicate Observes(d: Domain, command: Command, action: CameraAction) {
    command.payload.Camera? && command.payload.configured != [] && command.payload.area != "" &&
    command.payload.authority && !TopologyChanged(d, command) && command.payload.action == action
  }

  // A Hall frame in this state that the cursor of its sensor accepts.
  predicate Senses(d: Domain, command: Command, state: HallState) {
    command.payload.Hall? && command.payload.state == state && HallStands(d, command)
  }

  // The observation is older than the session that runs on the slot.
  ghost predicate Early(d: Domain, command: Command) {
    var active := FindActive(d.sessions, command.slot);
    active.Some? && TimeOf(command) < d.sessions[active.value].entryAt
  }

  ghost predicate Vacant(d: Domain, slot: SlotId) {
    FindActive(d.sessions, slot).None?
  }

  // The exit that the deadline was made for is the one the camera waits for, and its session runs.
  ghost predicate Due(d: Domain, command: Command) {
    command.payload.Deadline? && OwnsDeadline(d, command) &&
    FindActive(d.sessions, command.slot) == Some(command.payload.session) && command.slot in d.observations &&
    d.observations[command.slot].state == VacantPending &&
    d.observations[command.slot].session == Some(command.payload.session) &&
    d.observations[command.slot].generation == command.payload.generation
  }

  // The Hall sensor may end the session: it confirmed it under HYBRID_OR, and the camera does not hold it.
  ghost predicate HallEnds(d: Domain, command: Command) {
    Senses(d, command, HallVacant) && !Vacant(d, command.slot) && !Early(d, command) &&
    var session := d.sessions[FindActive(d.sessions, command.slot).value];
    command.payload.hybrid ==> session.hallConfirmed && !session.ivaOccupied
  }

  function AreasAfter(d: Domain, command: Command, active: bool): map<string, bool>
    requires command.payload.Camera?
  {
    (if command.slot in d.observations then d.observations[command.slot].areas else map[])[command.payload.area := active]
  }

  // The exit leaves every configured area reported inactive, while a session runs.
  ghost predicate Leaves(d: Domain, command: Command) {
    Observes(d, command, Exit) && command.payload.authoritativeExit && !Vacant(d, command.slot) && !Early(d, command) &&
    forall area :: area in command.payload.configured ==>
      area in AreasAfter(d, command, false) && !AreasAfter(d, command, false)[area]
  }

  // ---------------------------------------------------------------- every result

  predicate Results(verdict: Verdict, code: Code) {
    verdict.Commit? && verdict.outcome.code == code
  }

  ghost predicate OutcomeIs(d: Domain, id: CommandId, command: Command, verdict: Verdict) {
    (verdict == Retry <==> Blocked(d, id, command)) &&
    (verdict == RejectInvalid <==> Faulty(d, command)) &&
    (Results(verdict, RejectedInvalidTimestamp) <==>
       (Senses(d, command, HallVacant) || Observes(d, command, Exit)) && Early(d, command)) &&
    (Results(verdict, StaleGeneration) <==> command.payload.Deadline? && !Due(d, command)) &&
    (Results(verdict, SessionStarted) <==>
       (Senses(d, command, HallOccupied) || Observes(d, command, Intrusion)) && Vacant(d, command.slot) &&
       !Blocked(d, id, command)) &&
    (Results(verdict, SessionEnded) <==>
       (HallEnds(d, command) ||
        (Due(d, command) && !(command.payload.hybrid && d.sessions[command.payload.session].hallOccupied))) &&
       !Blocked(d, id, command)) &&
    (Results(verdict, ExitScheduled) <==> Leaves(d, command) && !Blocked(d, id, command))
  }

  lemma ArrivalCode(d: Domain, id: CommandId, row: Row)
    requires row.command.payload.Hall?
    ensures var verdict := HallArrival(d, id, row);
            verdict != RejectInvalid &&
            (verdict.Commit? ==>
               verdict.outcome.code == if FindActive(d.sessions, row.command.slot).None? then SessionStarted else NoChange)
  {
    hide FindActive, HallFrame, CreateSession, CommitSequence;
  }

  lemma DepartureCode(d: Domain, id: CommandId, row: Row)
    requires DomainOk(d) && row.command.payload.Hall?
    ensures var verdict := HallDeparture(d, id, row); var active := FindActive(d.sessions, row.command.slot);
            verdict != RejectInvalid &&
            (verdict.Commit? ==>
               verdict.outcome.code ==
               if active.None? then NoChange
               else if TimeOf(row.command) < d.sessions[active.value].entryAt then RejectedInvalidTimestamp
               else if row.command.payload.hybrid
                       && !(d.sessions[active.value].hallConfirmed && !d.sessions[active.value].ivaOccupied) then NoChange
               else SessionEnded)
  {
    ActiveFacts(d, row.command.slot);
    hide DomainOk, FindActive, HallFrame, CloseSession, CommitSequence, ActiveMoves;
  }

  lemma HallCode(d: Domain, id: CommandId, row: Row)
    requires DomainOk(d) && row.command.payload.Hall?
    ensures var verdict, c := ReduceHall(d, id, row), row.command;
            (verdict == RejectInvalid <==> c.payload.state == HallUnsupported) &&
            (verdict.Commit? ==>
               verdict.outcome.code ==
               if Senses(d, c, HallOccupied) && Vacant(d, c.slot) then SessionStarted
               else if Senses(d, c, HallVacant) && Early(d, c) then RejectedInvalidTimestamp
               else if HallEnds(d, c) then SessionEnded else NoChange)
  {
    hide DomainOk, FindActive, HallFrame, HallArrival, HallDeparture, Sequence.Evaluate;
    ArrivalCode(d, id, row);
    DepartureCode(d, id, row);
  }

  lemma HallOutcome(d: Domain, id: CommandId, row: Row)
    requires DomainOk(d) && row.command.payload.Hall?
    ensures OutcomeIs(d, id, row.command, ReduceHall(d, id, row))
  {
    hide DomainOk, FindActive, HallFrame, ReduceHall, HallBlocked, HallEnds, Sequence.Evaluate;
    HallRefusedIff(d, id, row);
    HallCode(d, id, row);
    HallBlockedWhere(d, id, row.command);
  }

  // What the results and the block of a Hall frame have in common.
  lemma HallBlockedWhere(d: Domain, id: CommandId, command: Command)
    requires command.payload.Hall?
    ensures HallEnds(d, command) ==> Senses(d, command, HallVacant) && !Vacant(d, command.slot) && !Early(d, command)
    ensures HallBlocked(d, id, command) ==>
      if command.payload.state == HallOccupied then Vacant(d, command.slot) else HallEnds(d, command)
  {
    hide FindActive, EntryUsed, ExitUsed, Sequence.Evaluate;
  }

  lemma ExitOutcomes(d: Domain, row: Row, generation: nat, areas: map<string, bool>)
    requires row.command.payload.Camera?
    ensures var verdict := CameraExit(d, row, generation, areas);
            verdict != RejectInvalid &&
            (verdict.Commit? ==>
               verdict.outcome.code ==
               if FindActive(d.sessions, row.command.slot).Some? && AllInactive(row.command.payload.configured, areas)
               then ExitScheduled else NoChange)
  {
    hide FindActive, LiveOn, ObservedAt, AdmittedKept, AllInactive;
  }

  lemma IntrusionOutcomes(d: Domain, id: CommandId, row: Row, generation: nat, areas: map<string, bool>)
    requires row.command.payload.Camera?
    ensures var verdict := CameraIntrusion(d, id, row, generation, areas);
            verdict != RejectInvalid &&
            (verdict.Commit? ==>
               verdict.outcome.code == if FindActive(d.sessions, row.command.slot).None? then SessionStarted else NoChange)
  {
    hide FindActive, CommitCorrelation, CreateSession, SupersedeScheduled, ObservedAt;
  }

  lemma EvidenceOutcomes(d: Domain, id: CommandId, row: Row)
    requires row.command.payload.Camera?
    ensures var verdict, p := CameraEvidence(d, id, row), row.command.payload;
            (verdict == RejectInvalid <==> p.action != Intrusion || p.track.objectId == "") &&
            (verdict.Commit? ==> verdict.outcome.code == NoChange)
  {
    hide FindActive, CommitCorrelation;
  }

  // The result of an authoritative action on known areas.
  lemma ActionCode(d: Domain, id: CommandId, row: Row)
    requires row.command.payload.Camera? && Observes(d, row.command, row.command.payload.action)
    ensures var verdict, c := ReduceCamera(d, id, row), row.command;
            (verdict == RejectInvalid <==> c.payload.action == UnsupportedAction) &&
            (verdict.Commit? ==>
               verdict.outcome.code ==
               if c.payload.action == Exit && Early(d, c) then RejectedInvalidTimestamp
               else if c.payload.action == Intrusion && Vacant(d, c.slot) then SessionStarted
               else if Leaves(d, c) then ExitScheduled else NoChange)
  {
    hide FindActive, CameraEvidence, CameraIntrusion, CameraExit, GenerationsGrow, ObservedAt, AdmittedKept;
    forall generation, areas
      ensures var verdict := CameraExit(d, row, generation, areas);
              verdict != RejectInvalid &&
              (verdict.Commit? ==>
                 verdict.outcome.code ==
                 if FindActive(d.sessions, row.command.slot).Some? && AllInactive(row.command.payload.configured, areas)
                 then ExitScheduled else NoChange)
    {
      ExitOutcomes(d, row, generation, areas);
    }
    forall generation, areas
      ensures var verdict := CameraIntrusion(d, id, row, generation, areas);
              verdict != RejectInvalid &&
              (verdict.Commit? ==>
                 verdict.outcome.code == if FindActive(d.sessions, row.command.slot).None? then SessionStarted else NoChange)
    {
      IntrusionOutcomes(d, id, row, generation, areas);
    }
  }

  // The camera branches that look at nothing but the payload and the configured areas.
  lemma OtherCameraCode(d: Domain, id: CommandId, row: Row)
    requires row.command.payload.Camera? && !Observes(d, row.command, row.command.payload.action)
    ensures var verdict, c := ReduceCamera(d, id, row), row.command;
            (verdict == RejectInvalid <==> Faulty(d, c)) && (verdict.Commit? ==> verdict.outcome.code == NoChange)
  {
    hide FindActive, CameraEvidence, CameraIntrusion, CameraExit, GenerationsGrow, ObservedAt, AdmittedKept;
    EvidenceOutcomes(d, id, row);
  }

  lemma CameraOutcome(d: Domain, id: CommandId, row: Row)
    requires DomainOk(d) && row.command.payload.Camera?
    ensures OutcomeIs(d, id, row.command, ReduceCamera(d, id, row))
  {
    hide DomainOk, FindActive, ReduceCamera, CameraBlocked, Early, Vacant, AreasAfter;
    CameraRefusedIff(d, id, row);
    CameraBlockedWhere(d, id, row.command);
    if Observes(d, row.command, row.command.payload.action) {
      ActionCode(d, id, row);
    } else {
      OtherCameraCode(d, id, row);
    }
  }

  // A block excludes the faults, the ignored actions and an early exit.
  lemma CameraBlockedWhere(d: Domain, id: CommandId, command: Command)
    requires command.payload.Camera?
    ensures CameraBlocked(d, id, command) ==>
      !Faulty(d, command) && !(Observes(d, command, Exit) && Early(d, command))
  {
    hide FindActive, LeaseRefused, LeaseIdsUsed, EntryUsed, LiveOn, CompleteLease;
  }

  lemma DeadlineCode(d: Domain, id: CommandId, row: Row)
    requires DomainOk(d) && row.command.payload.Deadline?
    ensures var verdict, c := ReduceDeadline(d, id, row), row.command;
            verdict != RejectInvalid && (!Due(d, c) ==> verdict.Commit?) &&
            (verdict.Commit? ==>
               verdict.outcome.code ==
               if !Due(d, c) then StaleGeneration
               else if c.payload.hybrid && d.sessions[c.payload.session].hallOccupied then NoChange else SessionEnded)
  {
    hide DomainOk, FindActive, ExitStillStands, CloseSession, GenerationsGrow, AdmittedKept, ActiveMoves;
    ActiveFacts(d, row.command.slot);
    assert DeadlineOwnsSlot(d, row) <==> OwnsDeadline(d, row.command);
    if DeadlineOwnsSlot(d, row) { StandsIff(d, row); }
  }

  lemma DeadlineOutcome(d: Domain, id: CommandId, row: Row)
    requires DomainOk(d) && row.command.payload.Deadline?
    ensures OutcomeIs(d, id, row.command, ReduceDeadline(d, id, row))
  {
    hide DomainOk, FindActive, ReduceDeadline, DeadlineBlocked, OwnsDeadline;
    DeadlineRefusedIff(d, id, row);
    DeadlineCode(d, id, row);
    assert DeadlineBlocked(d, id, row.command) ==>
      Due(d, row.command) && !(row.command.payload.hybrid && d.sessions[row.command.payload.session].hallOccupied) by {
      BlockedDeadlineIsDue(d, id, row.command);
    }
  }

  lemma BlockedDeadlineIsDue(d: Domain, id: CommandId, command: Command)
    requires command.payload.Deadline?
    ensures DeadlineBlocked(d, id, command) ==>
      Due(d, command) && !(command.payload.hybrid && d.sessions[command.payload.session].hallOccupied)
  {
    hide FindActive, ExitUsed, OwnsDeadline;
  }

  /**
    Every result of applying a command, with its exact condition: a retry exactly under the guards of
    `Blocked`, and each result code exactly when the observation, the session that runs, the camera row
    and the policy call for it. What is left is NoChange.
  */
  lemma {:induction false} OutcomesExactly(d: Domain, id: CommandId, row: Row)
    requires DomainOk(d)
    ensures OutcomeIs(d, id, row.command, Reduce(d, id, row))
  {
    hide DomainOk, OutcomeIs, ReduceHall, ReduceCamera, ReduceDeadline;
    match row.command.payload
    case Hall(_, _, _, _, _) => HallOutcome(d, id, row);
    case Camera(_, _, _, _, _, _, _, _, _, _, _, _) => CameraOutcome(d, id, row);
    case Deadline(_, _, _, _, _) => DeadlineOutcome(d, id, row);
  }
}
