/**
  Camera rows that wait for an exit no deadline will bring. While an exit waits behind the
  deadline of another exit, that deadline is stale when it is applied, and the row is left waiting.
*/
module OccupancyLostExit {
  import opened Options
  import opened OccupancyTables
  import opened OccupancyReducer
  import opened OccupancyDomain
  import opened OccupancyInbox
  import opened OccupancyWorld
  import opened OccupancySafety
  import opened OccupancyExit
  import opened OccupancyBlocked
  import opened OccupancyLocality
  import opened OccupancyReplay
  import Sequence = SensorSequence

  // The camera waits for its exit, and no deadline of the slot is live.
  predicate Lost(d: Domain, slot: SlotId) {
    slot in d.observations && d.observations[slot].state == VacantPending && !LiveOn(d.deadlines, slot)
  }

  // This step applies a deadline while the camera waits for another exit.
  predicate Loses(w: World, action: Action, slot: SlotId) {
    AppliesOn(w, action, slot) && w.tables.inbox[action.id].command.payload.Deadline? &&
    var d, x := w.tables.domain, w.tables.inbox[action.id].command.payload.deadline;
    slot in d.observations && d.observations[slot].state == VacantPending &&
    (x.generation != d.observations[slot].generation || Some(x.session) != d.observations[slot].session)
  }

  // This step applies an authoritative intrusion, schedules an exit or ends the session.
  ghost predicate Recovers(w: World, action: Action, slot: SlotId) {
    AppliesOn(w, action, slot) &&
    var command := w.tables.inbox[action.id].command;
    var verdict := Reduce(w.tables.domain, action.id, w.tables.inbox[action.id]);
    verdict.Commit? &&
    (verdict.outcome.code == ExitScheduled || verdict.outcome.code == SessionEnded ||
     (command.payload.Camera? && command.payload.authority && command.payload.action == Intrusion))
  }

  // ---------------------------------------------------------------- what applying a command does to a waiting row

  // A waiting row belongs to the active session of its slot, and its areas are inactive.
  lemma WaitingFacts(d: Domain, slot: SlotId)
    requires DomainOk(d) && slot in d.observations && d.observations[slot].state == VacantPending
    ensures var o := d.observations[slot];
            o.session.Some? && FindActive(d.sessions, slot) == o.session && AllInactive(o.configured, o.areas)
  {
    hide SlotsOk, DeadlinesOk, BindingsOk, CursorsOk, FindActive;
    assert ObservationOk(d.observations[slot], slot, d.sessions);
  }

  // A Hall frame that ends no session leaves camera rows and deadlines alone.
  predicate HallSpares(d: Domain, slot: SlotId, verdict: Verdict) {
    verdict.Commit? ==>
      verdict.outcome.code != ExitScheduled &&
      if verdict.outcome.code == SessionEnded then !Lost(verdict.domain, slot)
      else verdict.domain.observations == d.observations && verdict.domain.deadlines == d.deadlines
  }

  lemma ArrivalWaiting(d: Domain, id: CommandId, row: Row)
    requires row.command.payload.Hall?
    ensures HallSpares(d, row.command.slot, HallArrival(d, id, row))
  {
    hide FindActive, Lost, HallFrame, EntryUsed, Sequence.DurableCommitted;
  }

  lemma ClosedWaiting(d: Domain, s: SessionId, id: CommandId, command: Command)
    requires DomainOk(d) && FindActive(d.sessions, command.slot) == Some(s)
    requires CloseSession(d, s, id, command).Some?
    ensures !Lost(CloseSession(d, s, id, command).value, command.slot)
  {
    hide DomainOk, FindActive, LiveOn, EndBindings, ExitUsed, GenerationsGrow, AllInactive;
    if command.slot in d.observations && d.observations[command.slot].state == VacantPending {
      WaitingFacts(d, command.slot);
    }
  }

  lemma DepartureWaiting(d: Domain, id: CommandId, row: Row)
    requires DomainOk(d) && row.command.payload.Hall?
    ensures HallSpares(d, row.command.slot, HallDeparture(d, id, row))
  {
    hide DomainOk, FindActive, LiveOn, CloseSession, HallFrame, Sequence.DurableCommitted;
    var slot := row.command.slot;
    if FindActive(d.sessions, slot).Some? {
      var s := FindActive(d.sessions, slot).value;
      CloseIgnoresLatches(d, s, id, row.command);
      if CloseSession(d, s, id, row.command).Some? { ClosedWaiting(d, s, id, row.command); }
    }
  }

  lemma HallWaiting(d: Domain, id: CommandId, row: Row)
    requires DomainOk(d) && row.command.payload.Hall?
    ensures HallSpares(d, row.command.slot, ReduceHall(d, id, row))
  {
    hide DomainOk, FindActive, Lost, HallArrival, HallDeparture, Sequence.Evaluate;
    ArrivalWaiting(d, id, row);
    DepartureWaiting(d, id, row);
  }

  lemma ExitWaiting(d: Domain, row: Row, generation: nat, areas: map<string, bool>)
    requires row.command.payload.Camera? && CameraExit(d, row, generation, areas).Commit?
    ensures var verdict, slot := CameraExit(d, row, generation, areas), row.command.slot;
            !Lost(verdict.domain, slot) &&
            (FindActive(d.sessions, slot).Some? && AllInactive(row.command.payload.configured, areas) ==>
               verdict.outcome.code == ExitScheduled)
  {
    hide FindActive, LiveOn, ObservedAt, AdmittedKept, AllInactive;
    var verdict := CameraExit(d, row, generation, areas);
    if verdict.outcome.code == ExitScheduled { CameraExitDeadline(d, row, generation, areas); }
  }

  lemma CameraWaiting(d: Domain, id: CommandId, row: Row)
    requires DomainOk(d) && row.command.payload.Camera? && ReduceCamera(d, id, row).Commit?
    ensures var verdict, p := ReduceCamera(d, id, row), row.command.payload;
            Lost(verdict.domain, row.command.slot) <==>
            Lost(d, row.command.slot) &&
            !(verdict.outcome.code == ExitScheduled || verdict.outcome.code == SessionEnded ||
              (p.authority && p.action == Intrusion))
  {
    hide DomainOk, FindActive, CameraEvidence, CameraIntrusion, CameraExit, LiveOn, GenerationsGrow, ObservedAt;
    hide AdmittedKept, AllInactive;
    var slot := row.command.slot;
    if slot in d.observations && d.observations[slot].state == VacantPending {
      WaitingFacts(d, slot);
      StillInactive(d.observations[slot].configured, d.observations[slot].areas, row.command.payload.area);
    }
    EvidenceCode(d, id, row);
    forall generation, areas | CameraExit(d, row, generation, areas).Commit?
      ensures !Lost(CameraExit(d, row, generation, areas).domain, slot)
      ensures FindActive(d.sessions, slot).Some? && AllInactive(row.command.payload.configured, areas) ==>
                CameraExit(d, row, generation, areas).outcome.code == ExitScheduled
    {
      ExitWaiting(d, row, generation, areas);
    }
  }

  lemma StillInactive(configured: seq<string>, areas: map<string, bool>, area: string)
    requires AllInactive(configured, areas)
    ensures AllInactive(configured, areas[area := false])
  {
  }

  lemma EvidenceCode(d: Domain, id: CommandId, row: Row)
    requires row.command.payload.Camera?
    ensures CameraEvidence(d, id, row).Commit? ==> CameraEvidence(d, id, row).outcome.code == NoChange
  {
    hide FindActive, CommitCorrelation;
  }

  lemma OnlyLive(d: Domain, x: DeadlineId, state: DeadlineState)
    requires DomainOk(d) && x in d.deadlines && Live(d.deadlines[x]) && state != Scheduled && state != Admitted
    ensures !LiveOn(SettleDeadline(d, x, state).deadlines, x.slot)
  {
    hide SessionsOk, SlotsOk, ObservationsOk, BindingsOk, CursorsOk, DeadlineOk;
  }

  lemma DeadlineWaiting(d: Domain, id: CommandId, row: Row)
    requires DomainOk(d) && row.command.payload.Deadline? && DeadlineOwnsSlot(d, row) && ReduceDeadline(d, id, row).Commit?
    ensures var verdict, p, slot := ReduceDeadline(d, id, row), row.command.payload, row.command.slot;
            Lost(verdict.domain, slot) <==>
            slot in d.observations && d.observations[slot].state == VacantPending &&
            (p.generation != d.observations[slot].generation || Some(p.session) != d.observations[slot].session)
  {
    hide DomainOk, FindActive, LiveOn, ExitStillStands, CloseSession, GenerationsGrow, AdmittedKept, AllInactive;
    var p, slot := row.command.payload, row.command.slot;
    if slot in d.observations && d.observations[slot].state == VacantPending { WaitingFacts(d, slot); }
    StandsIff(d, row);
    OnlyLive(d, p.deadline, Superseded);
  }

  // ---------------------------------------------------------------- exactly when

  lemma AppliedWaiting(w: World, action: Action, slot: SlotId)
    requires Invariant(w) && AppliesOn(w, action, slot)
    ensures Lost(Exec(w, action).tables.domain, slot) <==>
            (Lost(w.tables.domain, slot) && !Recovers(w, action, slot)) || Loses(w, action, slot)
  {
    hide Invariant, DomainOk, Exec, Runnable, LiveOn, ReduceHall, ReduceCamera, ReduceDeadline;
    var d, row := w.tables.domain, w.tables.inbox[action.id];
    RunnableIsPending(w.tables.inbox, action.now, action.id);
    RowFacts(w, action.id);
    SafeDomain(w);
    AppliedDomain(w, action);
    if row.command.payload.Deadline? {
      assert LiveOn(d.deadlines, slot) by { OwnsLive(d, row); }
      OwnedExit(d, row);
    }
    if Reduce(d, action.id, row).Commit? {
      match row.command.payload
      case Hall(_, _, _, _, _) => HallWaiting(d, action.id, row);
      case Camera(_, _, _, _, _, _, _, _, _, _, _, _) => CameraWaiting(d, action.id, row);
      case Deadline(_, _, _, _, _) => DeadlineWaiting(d, action.id, row);
    } else if row.command.payload.Deadline? {
      RetryStands(d, action.id, row);
    }
  }

  lemma OwnsLive(d: Domain, row: Row)
    requires row.command.payload.Deadline? && DeadlineOwnsSlot(d, row)
    ensures LiveOn(d.deadlines, row.command.slot)
  {
  }

  lemma OwnedExit(d: Domain, row: Row)
    requires row.command.payload.Deadline? && DeadlineOwnsSlot(d, row)
    ensures row.command.payload.deadline == DeadlineId(row.command.slot, row.command.payload.generation,
                                                       row.command.payload.session)
  {
  }

  // A deadline is refused only while the camera waits for its own exit.
  lemma RetryStands(d: Domain, id: CommandId, row: Row)
    requires DomainOk(d) && row.command.payload.Deadline? && !ReduceDeadline(d, id, row).Commit?
    ensures var p, slot := row.command.payload, row.command.slot;
            slot in d.observations && d.observations[slot].generation == p.generation &&
            d.observations[slot].session == Some(p.session)
  {
    hide DomainOk, FindActive, ReduceDeadline;
    DeadlineRefusedIff(d, id, row);
  }

  /**
    After a step a camera row waits without a live deadline exactly when it did before and the step
    does not recover it, or the step applies the deadline of another exit than the one it waits for.
  */
  lemma {:induction false} ExitIsLostIff(w: World, action: Action, slot: SlotId)
    requires Invariant(w)
    ensures Lost(Exec(w, action).tables.domain, slot) <==>
            (Lost(w.tables.domain, slot) && !Recovers(w, action, slot)) || Loses(w, action, slot)
  {
    hide Invariant, Exec, Runnable, Reduce;
    if AppliesOn(w, action, slot) {
      AppliedWaiting(w, action, slot);
    } else {
      StepStays(w, action, slot);
      StaysLost(w.tables.domain, Exec(w, action).tables.domain, slot);
    }
  }

  lemma StaysLost(before: Domain, after: Domain, slot: SlotId)
    requires SlotStays(before, after, slot)
    ensures Lost(after, slot) <==> Lost(before, slot)
  {
    hide SessionsStay, LeasesElsewhere, LiveOn, DeadlinesStay;
    LiveStays(before.deadlines, after.deadlines, slot);
  }
}
