/**
  What an applied observation means for the session of its slot. OCCUPIED and INTRUSION leave a
  session running that their sensor has confirmed and holds; VACANT and a due exit take the hold
  of their sensor back, and end the session unless HYBRID_OR leaves it to the other sensor.
*/
module OccupancyLatches {
  import opened Options
  import opened OccupancyTables
  import opened OccupancyReducer
  import opened OccupancyDomain
  import opened OccupancyStep
  import opened OccupancyInbox
  import opened OccupancyWorld
  import opened OccupancySafety
  import opened OccupancySessions
  import opened OccupancyHybrid
  import opened OccupancyBlocked
  import opened OccupancyOutcomes
  import opened OccupancyLocality
  import Sequence = SensorSequence

  // The session runs, and this sensor has confirmed and holds it.
  predicate HeldByHall(session: Session, slot: SlotId) {
    ActiveIn(session, slot) && session.hallConfirmed && session.hallOccupied
  }

  predicate HeldByCamera(session: Session, slot: SlotId) {
    ActiveIn(session, slot) && session.ivaConfirmed && session.ivaOccupied
  }

  // The active session of the slot: the one that ran before, or a new one, which only this sensor confirmed.
  ghost predicate Holds(before: Domain, after: Domain, slot: SlotId, hall: bool) {
    var was, now := FindActive(before.sessions, slot), FindActive(after.sessions, slot);
    now.Some? && (if hall then HeldByHall(after.sessions[now.value], slot) else HeldByCamera(after.sessions[now.value], slot)) &&
    (was.Some? ==>
       now == was && SameButLatch(before.sessions[was.value], after.sessions[was.value], hall)) &&
    (was.None? ==>
       now.value !in before.sessions &&
       if hall then !after.sessions[now.value].ivaConfirmed && !after.sessions[now.value].ivaOccupied
       else !after.sessions[now.value].hallConfirmed && !after.sessions[now.value].hallOccupied)
  }

  predicate SameButLatch(before: Session, after: Session, hall: bool) {
    if hall then after == before.(hallConfirmed := after.hallConfirmed, hallOccupied := after.hallOccupied)
    else after == before.(ivaConfirmed := after.ivaConfirmed, ivaOccupied := after.ivaOccupied)
  }

  // Raising a latch of the running session.
  lemma RaisedHolds(d: Domain, d': Domain, slot: SlotId, hall: bool)
    requires DomainOk(d) && FindActive(d.sessions, slot).Some?
    requires var s := FindActive(d.sessions, slot).value;
             d'.sessions == (if hall then UpdateHall(d, s, true, true) else UpdateIva(d, s, true, true)).sessions
    ensures Holds(d, d', slot, hall)
  {
    hide DomainOk, FindActive;
    var s := FindActive(d.sessions, slot).value;
    ActiveAfterUpdate(d.sessions, s, d'.sessions[s], slot);
  }

  // A new session.
  lemma CreatedHolds(d: Domain, d': Domain, id: CommandId, command: Command)
    requires DomainOk(d) && FindActive(d.sessions, command.slot).None? && (command.payload.Hall? || command.payload.Camera?)
    requires CreateSession(d, id, command).Some? && d'.sessions == CreateSession(d, id, command).value.sessions
    ensures Holds(d, d', command.slot, command.payload.Hall?)
  {
    hide DomainOk, FindActive, EntryUsed;
    NextIsFree(d);
    ActiveAfterCreate(d.sessions, d.nextSession, d'.sessions[d.nextSession], command.slot);
  }

  lemma ArrivalHolds(d: Domain, id: CommandId, row: Row)
    requires DomainOk(d) && row.command.payload.Hall? && HallArrival(d, id, row).Commit?
    ensures Holds(d, HallArrival(d, id, row).domain, row.command.slot, true)
  {
    hide DomainOk, FindActive, CreateSession, CommitSequence, HallFrame, Holds;
    var slot := row.command.slot;
    if FindActive(d.sessions, slot).Some? {
      RaisedHolds(d, HallArrival(d, id, row).domain, slot, true);
    } else {
      CreatedHolds(d, HallArrival(d, id, row).domain, id, row.command);
    }
  }

  lemma IntrusionHolds(d: Domain, id: CommandId, row: Row, generation: nat, areas: map<string, bool>)
    requires DomainOk(d) && row.command.payload.Camera? && CameraIntrusion(d, id, row, generation, areas).Commit?
    ensures Holds(d, CameraIntrusion(d, id, row, generation, areas).domain, row.command.slot, false)
  {
    hide DomainOk, FindActive, EntryUsed, IntrusionOn, SupersedeScheduled, ObservedAt, Holds;
    var slot, superseded := row.command.slot, SupersedeScheduled(d, row.command.slot);
    SupersedeStep(d, slot);
    var after := CameraIntrusion(d, id, row, generation, areas).domain;
    if FindActive(d.sessions, slot).Some? {
      RaisedHolds(d, after, slot, false);
    } else {
      CreatedHolds(d, after, id, row.command);
    }
  }

  lemma ObservationHolds(d: Domain, id: CommandId, row: Row)
    requires DomainOk(d) && Reduce(d, id, row).Commit?
    ensures row.command.payload.Hall? && row.command.payload.state == HallOccupied &&
            Sequence.Evaluate(CursorOf(d.cursors, row.command.sensor), FactOf(row.command)) == Sequence.Accept ==>
              Holds(d, Reduce(d, id, row).domain, row.command.slot, true)
    ensures row.command.payload.Camera? && row.command.payload.authority && row.command.payload.action == Intrusion ==>
              Holds(d, Reduce(d, id, row).domain, row.command.slot, false)
  {
    hide DomainOk, FindActive, HallArrival, HallDeparture, CameraIntrusion, CameraExit, CameraEvidence, ReduceDeadline;
    hide GenerationsGrow, ObservedAt, AdmittedKept, HallFrame, Holds, Sequence.Evaluate;
    if row.command.payload.Hall? && HallArrival(d, id, row).Commit? { ArrivalHolds(d, id, row); }
    if row.command.payload.Camera? {
      forall generation, areas | CameraIntrusion(d, id, row, generation, areas).Commit?
        ensures Holds(d, CameraIntrusion(d, id, row, generation, areas).domain, row.command.slot, false)
      {
        IntrusionHolds(d, id, row, generation, areas);
      }
    }
  }

  // The step applies a command that becomes terminal with it.
  ghost predicate Takes(w: World, action: Action) {
    StepApplies(w, action) && action.id in w.tables.inbox &&
    Reduce(w.tables.domain, action.id, w.tables.inbox[action.id]).Commit?
  }

  /**
    An applied Hall OCCUPIED that its cursor accepts leaves a running session on the slot that the
    Hall sensor has confirmed and holds, and an applied authoritative INTRUSION one that the camera
    has. It is the session that ran before, otherwise unchanged, or a new one.
  */
  lemma {:induction false} AppliedObservationHolds(w: World, action: Action)
    requires Invariant(w) && Takes(w, action)
    ensures var command := w.tables.inbox[action.id].command;
            var d, d' := w.tables.domain, Exec(w, action).tables.domain;
            (command.payload.Hall? && command.payload.state == HallOccupied &&
             Sequence.Evaluate(CursorOf(d.cursors, command.sensor), FactOf(command)) == Sequence.Accept ==>
               Holds(d, d', command.slot, true)) &&
            (command.payload.Camera? && command.payload.authority && command.payload.action == Intrusion ==>
               Holds(d, d', command.slot, false))
  {
    hide Invariant, DomainOk, Exec, Runnable, Reduce, Holds, Sequence.Evaluate;
    RunnableIsPending(w.tables.inbox, action.now, action.id);
    SafeDomain(w);
    AppliedDomain(w, action);
    ObservationHolds(w.tables.domain, action.id, w.tables.inbox[action.id]);
  }

  // ---------------------------------------------------------------- a sensor lets go

  // The sensor lets the session go: it stays with the other sensor, or it ends.
  predicate LetsGo(before: Session, after: Session, hall: bool, hybrid: bool) {
    if hybrid && (if hall then before.ivaOccupied else before.hallOccupied) then
      Active(after) && SameButLatch(before, after, hall) && (if hall then !after.hallOccupied else !after.ivaOccupied) &&
      after.hallConfirmed == before.hallConfirmed && after.ivaConfirmed == before.ivaConfirmed
    else !Active(after) && !after.hallOccupied && !after.ivaOccupied && after.exitAt.Some?
  }

  // What an accepted VACANT, not from before the entry, does to the session that runs on the slot.
  ghost predicate Departs(d: Domain, verdict: Verdict, command: Command)
    requires command.payload.Hall?
  {
    var was := FindActive(d.sessions, command.slot);
    verdict.Commit? && was.Some? && d.sessions[was.value].entryAt <= TimeOf(command) ==>
      was.value in verdict.domain.sessions &&
      if command.payload.hybrid && !d.sessions[was.value].hallConfirmed
      then verdict.domain.sessions == d.sessions && verdict.outcome.code == NoChange
      else LetsGo(d.sessions[was.value], verdict.domain.sessions[was.value], true, command.payload.hybrid)
  }

  lemma DepartureLetsGo(d: Domain, id: CommandId, row: Row)
    requires DomainOk(d) && row.command.payload.Hall?
    ensures Departs(d, HallDeparture(d, id, row), row.command)
  {
    hide DomainOk, FindActive, HallFrame, CommitSequence, ExitUsed, EndBindings, ClearObservation, GenerationsGrow;
    ActiveFacts(d, row.command.slot);
  }

  lemma HallLetsGo(d: Domain, id: CommandId, row: Row)
    requires DomainOk(d) && row.command.payload.Hall? && row.command.payload.state == HallVacant
    requires Sequence.Evaluate(CursorOf(d.cursors, row.command.sensor), FactOf(row.command)) == Sequence.Accept
    ensures Departs(d, Reduce(d, id, row), row.command)
  {
    hide DomainOk, HallFrame, HallDeparture, HallArrival, Departs, Sequence.Evaluate;
    DepartureLetsGo(d, id, row);
  }

  lemma DeadlineLetsGo(d: Domain, id: CommandId, row: Row)
    requires DomainOk(d) && row.command.payload.Deadline? && DeadlineOwnsSlot(d, row)
    ensures var verdict, s := Reduce(d, id, row), row.command.payload.session;
            verdict.Commit? ==>
              if Due(d, row.command)
              then s in verdict.domain.sessions && s in d.sessions &&
                   LetsGo(d.sessions[s], verdict.domain.sessions[s], false, row.command.payload.hybrid)
              else verdict.domain.sessions == d.sessions && verdict.outcome.code == StaleGeneration
  {
    hide DomainOk, FindActive, ExitUsed, EndBindings, ClearObservation, GenerationsGrow, AdmittedKept, ExitStillStands;
    ActiveFacts(d, row.command.slot);
    StandsIff(d, row);
    assert OwnsDeadline(d, row.command);
  }

  /**
    An applied VACANT that its cursor accepts, and that is not from before the entry, takes back the hold
    of the Hall sensor; an applied exit deadline takes back the hold of the camera if its exit still
    stands, and changes no session otherwise. The session then ends, unless HYBRID_OR applies and the
    other sensor holds it, and VACANT is ignored under HYBRID_OR when the Hall sensor never confirmed it.
  */
  lemma {:induction false} AppliedExitLetsGo(w: World, action: Action)
    requires Invariant(w) && Takes(w, action)
    ensures var command := w.tables.inbox[action.id].command;
            var d, d' := w.tables.domain, Exec(w, action).tables.domain;
            (command.payload.Hall? && command.payload.state == HallVacant &&
             Sequence.Evaluate(CursorOf(d.cursors, command.sensor), FactOf(command)) == Sequence.Accept ==>
               Departs(d, Reduce(d, action.id, w.tables.inbox[action.id]), command)) &&
            (command.payload.Deadline? ==>
               var s := command.payload.session;
               if Due(d, command)
               then s in d.sessions && s in d'.sessions &&
                    LetsGo(d.sessions[s], d'.sessions[s], false, command.payload.hybrid)
               else d'.sessions == d.sessions)
  {
    hide Invariant, DomainOk, Exec, Runnable, Reduce, Departs, LetsGo, Due, Sequence.Evaluate;
    RunnableIsPending(w.tables.inbox, action.now, action.id);
    SafeDomain(w);
    RowFacts(w, action.id);
    AppliedDomain(w, action);
    var row := w.tables.inbox[action.id];
    if row.command.payload.Deadline? {
      DeadlineLetsGo(w.tables.domain, action.id, row);
    } else if row.command.payload.Hall? && row.command.payload.state == HallVacant {
      if Sequence.Evaluate(CursorOf(w.tables.domain.cursors, row.command.sensor), FactOf(row.command)) == Sequence.Accept {
        HallLetsGo(w.tables.domain, action.id, row);
      }
    }
  }
}
