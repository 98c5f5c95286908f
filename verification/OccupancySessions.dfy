/**
  How applying one command moves the sessions: sessions are never lost or renamed, only the
  applied command can start one, and a latch falls only for a reason.
*/
module OccupancySessions {
  import opened Options
  import opened OccupancyTables
  import opened OccupancyReducer
  import opened OccupancyDomain
  import opened OccupancyStep
  import Sequence = SensorSequence

  predicate HallLeft(command: Command) {
    command.payload.Hall? && command.payload.state == HallVacant
  }

  // Under HYBRID_OR a latch falls only by its own sensor; otherwise the other sensor may end the session too.
  predicate LatchFall(before: Session, after: Session, command: Command) {
    (before.hallOccupied && !after.hallOccupied ==>
       before.slot == command.slot && (HallLeft(command) || (command.payload.Deadline? && !command.payload.hybrid))) &&
    (before.ivaOccupied && !after.ivaOccupied ==>
       before.slot == command.slot && (command.payload.Deadline? || (HallLeft(command) && !command.payload.hybrid)))
  }

  predicate SameSession(before: Session, after: Session) {
    after.slot == before.slot && after.entryCommand == before.entryCommand && after.entryAt == before.entryAt &&
    (!Active(before) ==> after == before) &&
    Confirms(before.hallConfirmed, after.hallConfirmed, after.hallOccupied) &&
    Confirms(before.ivaConfirmed, after.ivaConfirmed, after.ivaOccupied)
  }

  // A sensor stays confirmed, and the step that confirms it raises its latch.
  predicate Confirms(before: bool, after: bool, occupied: bool) {
    (before ==> after) && (after && !before ==> occupied)
  }

  // When the command was observed: its own time if it carries one, otherwise when it fell due.
  function TimeOf(command: Command): int {
    match command.payload
    case Hall(_, _, _, _, at) => if at.Some? then at.value else command.dueAt
    case Camera(_, _, _, _, _, _, _, _, _, _, at, _) => if at.Some? then at.value else command.dueAt
    case Deadline(_, _, _, _, _) => command.dueAt
  }

  // A session that ends is ended by this command, at the time of its observation.
  predicate EndedBy(before: Session, after: Session, id: CommandId, command: Command) {
    if Active(before) && !Active(after) then
      before.slot == command.slot && after.status == EndedStatus && after.exitCommand == Some(id) &&
      after.exitAt == Some(TimeOf(command)) && before.entryAt <= TimeOf(command)
    else after.exitCommand == before.exitCommand && after.exitAt == before.exitAt && after.status == before.status
  }

  predicate SessionsMove(before: Sessions, after: Sessions, id: CommandId, command: Command) {
    (forall s :: s in before ==>
       s in after && SameSession(before[s], after[s]) && LatchFall(before[s], after[s], command) &&
       EndedBy(before[s], after[s], id, command)) &&
    (forall s :: s in after && s !in before ==>
       after[s].entryCommand == id && after[s].slot == command.slot && Active(after[s]) && !EntryUsed(before, id) &&
       after[s].entryAt == TimeOf(command) && after[s].exitCommand.None? &&
       after[s].hallConfirmed == after[s].hallOccupied && after[s].ivaConfirmed == after[s].ivaOccupied) &&
    (forall s, t :: s in after && s !in before && t in after && t !in before ==> s == t)
  }

  lemma StillSessions(sessions: Sessions, id: CommandId, command: Command)
    ensures SessionsMove(sessions, sessions, id, command)
  {
  }

  lemma UpdatedSession(sessions: Sessions, s: SessionId, row: Session, id: CommandId, command: Command)
    requires s in sessions && SameSession(sessions[s], row) && LatchFall(sessions[s], row, command)
    requires EndedBy(sessions[s], row, id, command)
    ensures SessionsMove(sessions, sessions[s := row], id, command)
  {
  }

  lemma CreatedSession(sessions: Sessions, s: SessionId, row: Session, id: CommandId, command: Command)
    requires s !in sessions && row.entryCommand == id && row.slot == command.slot && Active(row)
    requires !EntryUsed(sessions, id) && row.entryAt == TimeOf(command) && row.exitCommand.None?
    requires row.hallConfirmed == row.hallOccupied && row.ivaConfirmed == row.ivaOccupied
    ensures SessionsMove(sessions, sessions[s := row], id, command)
  {
  }

  lemma HallArrivalSessions(d: Domain, id: CommandId, row: Row)
    requires DomainOk(d) && row.command.payload.Hall? && HallArrival(d, id, row).Commit?
    ensures SessionsMove(d.sessions, HallArrival(d, id, row).domain.sessions, id, row.command)
  {
    hide DomainOk, FindActive, HallFrame, SessionsMove, CommitSequence, EntryUsed;
    var slot := row.command.slot;
    NextIsFree(d);
    if FindActive(d.sessions, slot).Some? {
      var s := FindActive(d.sessions, slot).value;
      UpdatedSession(d.sessions, s, UpdateHall(d, s, true, true).sessions[s], id, row.command);
    } else {
      var created := CreateSession(d, id, row.command).value;
      CreatedSession(d.sessions, d.nextSession, created.sessions[d.nextSession], id, row.command);
    }
  }

  lemma NextIsFree(d: Domain)
    requires DomainOk(d)
    ensures d.nextSession !in d.sessions
  {
    hide SlotsOk, ObservationsOk, DeadlinesOk, BindingsOk, CursorsOk, FindActive, SessionOk;
  }

  lemma HallDepartureSessions(d: Domain, id: CommandId, row: Row)
    requires DomainOk(d) && HallLeft(row.command) && HallDeparture(d, id, row).Commit?
    ensures SessionsMove(d.sessions, HallDeparture(d, id, row).domain.sessions, id, row.command)
  {
    hide DomainOk, FindActive, HallFrame, SessionsMove, CommitSequence, CloseSession;
    var c := row.command;
    StillSessions(d.sessions, id, c);
    ActiveFacts(d, c.slot);
    if FindActive(d.sessions, c.slot).Some? {
      var s := FindActive(d.sessions, c.slot).value;
      UpdatedSession(d.sessions, s, UpdateHall(d, s, d.sessions[s].hallConfirmed, false).sessions[s], id, c);
      CloseIgnoresLatches(d, s, id, c);
      if CloseSession(d, s, id, c).Some? {
        CloseStep(d, s, id, c);
        if !(c.payload.hybrid && d.sessions[s].ivaConfirmed && d.sessions[s].ivaOccupied) {
          UpdatedSession(d.sessions, s, Closed(d.sessions[s], id, OccurredAt(c)), id, c);
        }
      }
    }
  }

  lemma HallSessions(d: Domain, id: CommandId, row: Row)
    requires DomainOk(d) && row.command.payload.Hall? && ReduceHall(d, id, row).Commit?
    ensures SessionsMove(d.sessions, ReduceHall(d, id, row).domain.sessions, id, row.command)
  {
    hide DomainOk, SessionsMove, HallArrival, HallDeparture, HallFrame, Sequence.Evaluate, SameSession, LatchFall;
    StillSessions(d.sessions, id, row.command);
    if row.command.payload.state == HallOccupied {
      if HallArrival(d, id, row).Commit? { HallArrivalSessions(d, id, row); }
    } else if HallLeft(row.command) {
      if HallDeparture(d, id, row).Commit? { HallDepartureSessions(d, id, row); }
    }
  }

  lemma IntrusionSessions(d: Domain, id: CommandId, row: Row, generation: nat, areas: map<string, bool>)
    requires DomainOk(d) && row.command.payload.Camera? && CameraIntrusion(d, id, row, generation, areas).Commit?
    ensures SessionsMove(d.sessions, CameraIntrusion(d, id, row, generation, areas).domain.sessions, id, row.command)
  {
    hide DomainOk, FindActive, SessionsMove, SupersedeScheduled, IntrusionOn, ObservedAt, EntryUsed;
    var slot := row.command.slot;
    NextIsFree(d);
    SupersedeStep(d, slot);
    var superseded := SupersedeScheduled(d, slot);
    if FindActive(d.sessions, slot).Some? {
      var s := FindActive(d.sessions, slot).value;
      UpdatedSession(d.sessions, s, UpdateIva(superseded, s, true, true).sessions[s], id, row.command);
    } else {
      var created := CreateSession(superseded, id, row.command).value;
      CreatedSession(d.sessions, d.nextSession, created.sessions[d.nextSession], id, row.command);
    }
  }

  lemma CameraSessions(d: Domain, id: CommandId, row: Row)
    requires DomainOk(d) && row.command.payload.Camera? && ReduceCamera(d, id, row).Commit?
    ensures SessionsMove(d.sessions, ReduceCamera(d, id, row).domain.sessions, id, row.command)
  {
    hide DomainOk, FindActive, SessionsMove, CameraEvidence, CameraIntrusion, CameraExit, ObservedAt, AdmittedKept;
    hide GenerationsGrow;
    StillSessions(d.sessions, id, row.command);
    forall generation, areas | CameraIntrusion(d, id, row, generation, areas).Commit? {
      IntrusionSessions(d, id, row, generation, areas);
    }
  }

  lemma DeadlineSessions(d: Domain, id: CommandId, row: Row)
    requires DomainOk(d) && row.command.payload.Deadline? && ReduceDeadline(d, id, row).Commit?
    ensures SessionsMove(d.sessions, ReduceDeadline(d, id, row).domain.sessions, id, row.command)
  {
    hide DomainOk, SessionsMove, ApplyExit, AdmittedKept, GenerationsGrow, FindActive;
    StillSessions(d.sessions, id, row.command);
    if DeadlineOwnsSlot(d, row) && ExitStillStands(d, row) { ExitSessions(d, id, row); }
  }

  lemma ExitSessions(d: Domain, id: CommandId, row: Row)
    requires DomainOk(d) && row.command.payload.Deadline? && DeadlineOwnsSlot(d, row) && ExitStillStands(d, row)
    requires ApplyExit(d, id, row).Commit?
    ensures SessionsMove(d.sessions, ApplyExit(d, id, row).domain.sessions, id, row.command)
  {
    hide DomainOk, SessionsMove, CloseSession, GenerationsGrow, FindActive, SettleDeadline;
    var p, c := row.command.payload, row.command;
    var active := d.sessions[p.session];
    ActiveFacts(d, c.slot);
    SettleCommutes(d, p.session, p.deadline);
    var settled := SettleDeadline(d, p.deadline, DeadlineApplied);
    CloseIgnoresLatches(settled, p.session, id, c);
    UpdatedSession(d.sessions, p.session, UpdateIva(d, p.session, active.ivaConfirmed, false).sessions[p.session], id, c);
    if !(p.hybrid && active.hallConfirmed && active.hallOccupied) {
      SettleStep(d, p.deadline, DeadlineApplied);
      CloseStep(settled, p.session, id, c);
      UpdatedSession(d.sessions, p.session, Closed(active, id, OccurredAt(c)), id, c);
    }
  }

  /** Applying a command moves the sessions only in the ways `SessionsMove` lists. */
  lemma {:induction false} ReduceSessions(d: Domain, id: CommandId, row: Row)
    requires DomainOk(d) && Reduce(d, id, row).Commit?
    ensures SessionsMove(d.sessions, Reduce(d, id, row).domain.sessions, id, row.command)
  {
    hide DomainOk, SessionsMove, ReduceHall, ReduceCamera, ReduceDeadline;
    match row.command.payload
    case Hall(_, _, _, _, _) => HallSessions(d, id, row);
    case Camera(_, _, _, _, _, _, _, _, _, _, _, _) => CameraSessions(d, id, row);
    case Deadline(_, _, _, _, _) => DeadlineSessions(d, id, row);
  }
}
