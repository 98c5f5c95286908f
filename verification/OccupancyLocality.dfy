/**
  A step concerns one slot: applying a command touches the rows of its own slot only, and a step
  that applies nothing on a slot leaves alone whatever decides what a command of that slot does.
*/
module OccupancyLocality {
  import opened Options
  import opened OccupancyTables
  import opened OccupancyReducer
  import opened OccupancyDomain
  import opened OccupancyInbox
  import opened OccupancyWorld
  import opened OccupancySafety
  import opened OccupancyHybrid
  import opened OccupancyLeases
  import Sequence = SensorSequence

  // ---------------------------------------------------------------- applying touches one slot

  predicate SessionsOnly(before: Sessions, after: Sessions, slot: SlotId) {
    (forall s :: s in before ==>
       s in after && after[s].slot == before[s].slot && after[s].entryCommand == before[s].entryCommand &&
       (before[s].exitCommand.Some? ==> after[s].exitCommand == before[s].exitCommand) &&
       (before[s].slot != slot ==> after[s] == before[s])) &&
    (forall s :: s in after && s !in before ==> after[s].slot == slot)
  }

  ghost predicate ObservationsOnly(before: map<SlotId, Observation>, after: map<SlotId, Observation>, slot: SlotId) {
    forall other :: other != slot ==>
      (other in before <==> other in after) && (other in before ==> after[other] == before[other])
  }

  ghost predicate DeadlinesOnly(before: Deadlines, after: Deadlines, slot: SlotId) {
    forall x: DeadlineId :: x.slot != slot ==> (x in before <==> x in after) && (x in before ==> after[x] == before[x])
  }

  predicate LeasesOnly(before: Bindings, after: Bindings, slot: SlotId) {
    forall c :: c in after && c !in before ==> after[c].slot == slot && after[c].state == Committed
  }

  ghost predicate OnlySlot(before: Domain, after: Domain, slot: SlotId) {
    after.slots.Keys == before.slots.Keys && SessionsOnly(before.sessions, after.sessions, slot) &&
    ObservationsOnly(before.observations, after.observations, slot) &&
    DeadlinesOnly(before.deadlines, after.deadlines, slot) && LeasesOnly(before.bindings, after.bindings, slot)
  }

  lemma SessionChanged(d: Domain, s: SessionId, row: Session)
    requires s in d.sessions && row.slot == d.sessions[s].slot && row.entryCommand == d.sessions[s].entryCommand
    requires d.sessions[s].exitCommand.Some? ==> row.exitCommand == d.sessions[s].exitCommand
    ensures SessionsOnly(d.sessions, d.sessions[s := row], row.slot)
  {
  }

  // The session that a command finds on its slot has no exit yet.
  lemma FoundSession(d: Domain, slot: SlotId)
    requires DomainOk(d) && FindActive(d.sessions, slot).Some?
    ensures var session := d.sessions[FindActive(d.sessions, slot).value];
            session.slot == slot && session.exitCommand.None? && slot in d.slots
  {
    hide ObservationsOk, DeadlinesOk, BindingsOk, CursorsOk, FindActive;
    assert SessionOk(d.sessions[FindActive(d.sessions, slot).value]);
  }

  lemma SessionAdded(sessions: Sessions, s: SessionId, row: Session)
    requires s !in sessions
    ensures SessionsOnly(sessions, sessions[s := row], row.slot)
  {
  }

  lemma SameOnly(d: Domain, slot: SlotId)
    ensures OnlySlot(d, d, slot)
    ensures SessionsOnly(d.sessions, d.sessions, slot) && ObservationsOnly(d.observations, d.observations, slot)
    ensures DeadlinesOnly(d.deadlines, d.deadlines, slot) && LeasesOnly(d.bindings, d.bindings, slot)
  {
  }

  lemma ClearedOnly(d: Domain, slot: SlotId, s: SessionId, attempt: Attempt)
    ensures ObservationsOnly(d.observations, ClearObservation(d.observations, slot, s), slot)
    ensures LeasesOnly(d.bindings, EndBindings(d.bindings, s, slot, attempt), slot)
  {
  }

  lemma ClosedOnly(d: Domain, s: SessionId, id: CommandId, command: Command)
    requires s in d.sessions && CloseSession(d, s, id, command).Some?
    requires d.sessions[s].slot == command.slot && d.sessions[s].exitCommand.None?
    ensures OnlySlot(d, CloseSession(d, s, id, command).value, command.slot)
  {
    hide ExitUsed, GenerationsGrow, SessionsOnly, ObservationsOnly, LeasesOnly, DeadlinesOnly, ClearObservation, EndBindings;
    SameOnly(d, command.slot);
    SessionChanged(d, s, Closed(d.sessions[s], id, OccurredAt(command)));
    ClearedOnly(d, command.slot, s, d.sessions[s].attempt);
  }

  lemma CreatedOnly(d: Domain, id: CommandId, command: Command)
    requires DomainOk(d) && CreateSession(d, id, command).Some?
    ensures OnlySlot(d, CreateSession(d, id, command).value, command.slot)
  {
    hide DomainOk, EntryUsed, SessionsOnly, ObservationsOnly, LeasesOnly, DeadlinesOnly;
    NextIsNew(d);
    SameOnly(d, command.slot);
    var created := CreateSession(d, id, command).value;
    SessionAdded(d.sessions, d.nextSession, created.sessions[d.nextSession]);
  }

  // A latch of the found session moves.
  lemma LatchOnly(d: Domain, slot: SlotId, row: Session)
    requires DomainOk(d) && FindActive(d.sessions, slot).Some?
    requires var session := d.sessions[FindActive(d.sessions, slot).value];
             row.slot == session.slot && row.entryCommand == session.entryCommand
    ensures OnlySlot(d, d.(sessions := d.sessions[FindActive(d.sessions, slot).value := row]), slot)
  {
    hide DomainOk, FindActive, SessionsOnly, ObservationsOnly, LeasesOnly, DeadlinesOnly;
    FoundSession(d, slot);
    SameOnly(d, slot);
    SessionChanged(d, FindActive(d.sessions, slot).value, row);
  }

  // Cursors belong to sensors, not to slots.
  lemma CommittedOnly(d: Domain, after: Domain, command: Command, slot: SlotId)
    requires command.payload.Hall? && OnlySlot(d, after, slot)
    ensures OnlySlot(d, CommitSequence(after, command), slot)
  {
    hide SessionsOnly, ObservationsOnly, LeasesOnly, DeadlinesOnly, Sequence.DurableCommitted;
  }

  lemma ArrivalOnly(d: Domain, id: CommandId, row: Row)
    requires DomainOk(d) && row.command.payload.Hall? && HallArrival(d, id, row).Commit?
    ensures OnlySlot(d, HallArrival(d, id, row).domain, row.command.slot)
  {
    hide DomainOk, OnlySlot, FindActive, HallFrame, CreateSession, CommitSequence;
    var slot := row.command.slot;
    if FindActive(d.sessions, slot).Some? {
      var s := FindActive(d.sessions, slot).value;
      var raised := UpdateHall(d, s, true, true);
      LatchOnly(d, slot, raised.sessions[s]);
      CommittedOnly(d, raised, row.command, slot);
    } else {
      CreatedOnly(d, id, row.command);
      CommittedOnly(d, CreateSession(d, id, row.command).value, row.command, slot);
    }
  }

  lemma VacatedOnly(d: Domain, slot: SlotId)
    ensures slot in d.slots ==> OnlySlot(d, d.(slots := d.slots[slot := SlotVacant]), slot)
  {
  }

  lemma DepartureOnly(d: Domain, id: CommandId, row: Row)
    requires DomainOk(d) && row.command.payload.Hall? && HallDeparture(d, id, row).Commit?
    ensures OnlySlot(d, HallDeparture(d, id, row).domain, row.command.slot)
  {
    hide DomainOk, OnlySlot, FindActive, HallFrame, CloseSession, CommitSequence;
    var slot, c := row.command.slot, row.command;
    SameOnly(d, slot);
    CommittedOnly(d, d, c, slot);
    if FindActive(d.sessions, slot).Some? {
      FoundSession(d, slot);
      var s := FindActive(d.sessions, slot).value;
      var lowered := UpdateHall(d, s, d.sessions[s].hallConfirmed, false);
      LatchOnly(d, slot, lowered.sessions[s]);
      CommittedOnly(d, lowered, c, slot);
      CloseIgnoresLatches(d, s, id, c);
      if CloseSession(d, s, id, c).Some? {
        ClosedOnly(d, s, id, c);
        CommittedOnly(d, CloseSession(d, s, id, c).value, c, slot);
      }
    } else if slot in d.slots {
      VacatedOnly(d, slot);
      CommittedOnly(d, d.(slots := d.slots[slot := SlotVacant]), c, slot);
    }
  }

  lemma HallOnly(d: Domain, id: CommandId, row: Row)
    requires DomainOk(d) && row.command.payload.Hall? && ReduceHall(d, id, row).Commit?
    ensures OnlySlot(d, ReduceHall(d, id, row).domain, row.command.slot)
  {
    hide DomainOk, OnlySlot, HallFrame, HallArrival, HallDeparture, Sequence.Evaluate;
    SameOnly(d, row.command.slot);
    if HallArrival(d, id, row).Commit? { ArrivalOnly(d, id, row); }
    if HallDeparture(d, id, row).Commit? { DepartureOnly(d, id, row); }
  }

  lemma NextIsNew(d: Domain)
    requires DomainOk(d)
    ensures d.nextSession !in d.sessions
  {
    hide SlotsOk, ObservationsOk, DeadlinesOk, BindingsOk, CursorsOk, FindActive, SessionOk;
  }

  lemma CorrelationOnly(d: Domain, id: CommandId, command: Command, attempt: Attempt, s: SessionId)
    requires command.payload.Camera? && CommitCorrelation(d, id, command, attempt, s).Some?
    ensures LeasesOnly(d.bindings, CommitCorrelation(d, id, command, attempt, s).value.0.bindings, command.slot)
  {
    hide SourceUsed, CompleteLease;
  }

  lemma ObservedOnly(d: Domain, after: Domain, slot: SlotId, o: Observation)
    requires OnlySlot(d, after, slot)
    ensures OnlySlot(d, Observe(after, slot, o), slot)
  {
    hide SessionsOnly, LeasesOnly, DeadlinesOnly;
  }

  lemma LeasedOnly(d: Domain, after: Domain, bindings: Bindings, slot: SlotId)
    requires OnlySlot(d, after, slot) && after.bindings == d.bindings && LeasesOnly(d.bindings, bindings, slot)
    ensures OnlySlot(d, after.(bindings := bindings), slot)
  {
    hide SessionsOnly, ObservationsOnly, LeasesOnly, DeadlinesOnly;
  }

  lemma IntrusionOnOnly(d: Domain, after: Domain, id: CommandId, row: Row, s: SessionId, attempt: Attempt, code: Code,
                        generation: nat, areas: map<string, bool>)
    requires OnlySlot(d, after, row.command.slot) && after.bindings == d.bindings && row.command.payload.Camera?
    requires IntrusionOn(after, id, row, s, attempt, code, generation, areas).Commit?
    ensures OnlySlot(d, IntrusionOn(after, id, row, s, attempt, code, generation, areas).domain, row.command.slot)
  {
    hide CommitCorrelation, LeasesOnly, OnlySlot, ObservedAt;
    var o := Observation(attempt, Some(s), generation, ObservedOccupied, row.command.payload.configured, areas);
    var observed := Observe(after, row.command.slot, o);
    ObservedOnly(d, after, row.command.slot, o);
    CorrelationOnly(observed, id, row.command, attempt, s);
    LeasedOnly(d, observed, CommitCorrelation(observed, id, row.command, attempt, s).value.0.bindings, row.command.slot);
  }

  lemma SupersedeOnly(d: Domain, after: Domain, slot: SlotId)
    requires OnlySlot(d, after, slot) && after.deadlines == d.deadlines
    ensures OnlySlot(d, after.(deadlines := SupersedeScheduled(d, slot).deadlines), slot)
    ensures SupersedeScheduled(d, slot) == d.(deadlines := SupersedeScheduled(d, slot).deadlines)
  {
    hide SessionsOnly, ObservationsOnly, LeasesOnly;
  }

  lemma IntrusionOnly(d: Domain, id: CommandId, row: Row, generation: nat, areas: map<string, bool>)
    requires DomainOk(d) && row.command.payload.Camera? && CameraIntrusion(d, id, row, generation, areas).Commit?
    ensures OnlySlot(d, CameraIntrusion(d, id, row, generation, areas).domain, row.command.slot)
  {
    hide DomainOk, OnlySlot, FindActive, SupersedeScheduled, IntrusionOn;
    var slot, c := row.command.slot, row.command;
    var superseded := SupersedeScheduled(d, slot);
    SameOnly(d, slot);
    SupersedeOnly(d, d, slot);
    if FindActive(d.sessions, slot).Some? {
      var s := FindActive(d.sessions, slot).value;
      var raised := UpdateIva(d, s, true, true);
      LatchOnly(d, slot, raised.sessions[s]);
      SupersedeOnly(d, raised, slot);
      IntrusionOnOnly(d, UpdateIva(superseded, s, true, true), id, row, s, d.sessions[s].attempt, NoChange, generation, areas);
    } else {
      CreatedOnly(d, id, c);
      SupersedeOnly(d, CreateSession(d, id, c).value, slot);
      IntrusionOnOnly(d, CreateSession(superseded, id, c).value, id, row, d.nextSession, Occupancy(id), SessionStarted,
                      generation, areas);
    }
  }

  lemma ExitOnly(d: Domain, row: Row, generation: nat, areas: map<string, bool>)
    requires row.command.payload.Camera? && CameraExit(d, row, generation, areas).Commit?
    ensures OnlySlot(d, CameraExit(d, row, generation, areas).domain, row.command.slot)
  {
    hide FindActive, LiveOn, AdmittedKept, AllInactive;
  }

  lemma EvidenceOnly(d: Domain, id: CommandId, row: Row)
    requires row.command.payload.Camera? && CameraEvidence(d, id, row).Commit?
    ensures OnlySlot(d, CameraEvidence(d, id, row).domain, row.command.slot)
  {
    hide FindActive, CommitCorrelation, OnlySlot, LeasesOnly;
    SameOnly(d, row.command.slot);
    if FindActive(d.sessions, row.command.slot).Some? {
      var s := FindActive(d.sessions, row.command.slot).value;
      if CommitCorrelation(d, id, row.command, d.sessions[s].attempt, s).Some? {
        CorrelationOnly(d, id, row.command, d.sessions[s].attempt, s);
        LeasedOnly(d, d, CommitCorrelation(d, id, row.command, d.sessions[s].attempt, s).value.0.bindings, row.command.slot);
      }
    }
  }

  lemma CameraOnly(d: Domain, id: CommandId, row: Row)
    requires DomainOk(d) && row.command.payload.Camera? && ReduceCamera(d, id, row).Commit?
    ensures OnlySlot(d, ReduceCamera(d, id, row).domain, row.command.slot)
  {
    hide DomainOk, FindActive, OnlySlot, CameraEvidence, CameraIntrusion, CameraExit, ObservedAt, AdmittedKept;
    hide GenerationsGrow;
    SameOnly(d, row.command.slot);
    if CameraEvidence(d, id, row).Commit? { EvidenceOnly(d, id, row); }
    forall generation, areas | CameraIntrusion(d, id, row, generation, areas).Commit?
      ensures OnlySlot(d, CameraIntrusion(d, id, row, generation, areas).domain, row.command.slot)
    {
      IntrusionOnly(d, id, row, generation, areas);
    }
    forall generation, areas | CameraExit(d, row, generation, areas).Commit?
      ensures OnlySlot(d, CameraExit(d, row, generation, areas).domain, row.command.slot)
    {
      ExitOnly(d, row, generation, areas);
    }
  }

  lemma SettledOnly(d: Domain, after: Domain, slot: SlotId, x: DeadlineId, state: DeadlineState)
    requires OnlySlot(d, after, slot) && x in after.deadlines && x.slot == slot
    ensures OnlySlot(d, SettleDeadline(after, x, state), slot)
  {
    hide SessionsOnly, ObservationsOnly, LeasesOnly;
  }

  lemma ApplyExitOnly(d: Domain, id: CommandId, row: Row)
    requires DomainOk(d) && row.command.payload.Deadline? && DeadlineOwnsSlot(d, row) && ExitStillStands(d, row)
    requires ApplyExit(d, id, row).Commit?
    ensures OnlySlot(d, ApplyExit(d, id, row).domain, row.command.slot)
  {
    hide DomainOk, OnlySlot, FindActive, CloseSession, GenerationsGrow;
    var p, slot := row.command.payload, row.command.slot;
    FoundSession(d, slot);
    var active, before := d.sessions[p.session], d.observations[slot];
    var iva := UpdateIva(d, p.session, active.ivaConfirmed, false);
    LatchOnly(d, slot, iva.sessions[p.session]);
    SettledOnly(d, iva, slot, p.deadline, DeadlineApplied);
    var lowered := SettleDeadline(iva, p.deadline, DeadlineApplied);
    ObservedOnly(d, lowered, slot, before.(state := ObservedVacant));
    SettledClose(d, p.session, id, row.command, p.deadline);
    CloseIgnoresLatches(d, p.session, id, row.command);
    if CloseSession(d, p.session, id, row.command).Some? {
      var closed := CloseSession(d, p.session, id, row.command).value;
      ClosedOnly(d, p.session, id, row.command);
      SettledOnly(d, closed, slot, p.deadline, DeadlineApplied);
      ObservedOnly(d, SettleDeadline(closed, p.deadline, DeadlineApplied), slot,
                   before.(attempt := NoAttempt, session := None, state := ObservedVacant));
    }
  }

  // Settling the deadline first or last makes no difference to the closing step.
  lemma SettledClose(d: Domain, s: SessionId, id: CommandId, command: Command, x: DeadlineId)
    requires s in d.sessions && x in d.deadlines
    ensures var iva := UpdateIva(d, s, d.sessions[s].ivaConfirmed, false);
            var closed := CloseSession(iva, s, id, command);
            CloseSession(SettleDeadline(iva, x, DeadlineApplied), s, id, command) ==
            if closed.Some? then Some(SettleDeadline(closed.value, x, DeadlineApplied)) else None
  {
    hide ExitUsed, GenerationsGrow, EndBindings, ClearObservation, Closed;
  }

  lemma DeadlineOnly(d: Domain, id: CommandId, row: Row)
    requires DomainOk(d) && row.command.payload.Deadline? && ReduceDeadline(d, id, row).Commit?
    ensures OnlySlot(d, ReduceDeadline(d, id, row).domain, row.command.slot)
  {
    hide DomainOk, OnlySlot, ApplyExit, ExitStillStands, GenerationsGrow, AdmittedKept;
    SameOnly(d, row.command.slot);
    if DeadlineOwnsSlot(d, row) {
      SettledOnly(d, d, row.command.slot, row.command.payload.deadline, Superseded);
      if ExitStillStands(d, row) && ApplyExit(d, id, row).Commit? { ApplyExitOnly(d, id, row); }
    }
  }

  /** Applying a command leaves the sessions, camera rows, deadlines and leases of every other slot alone. */
  lemma {:induction false} ReduceOnly(d: Domain, id: CommandId, row: Row)
    requires DomainOk(d) && Reduce(d, id, row).Commit?
    ensures OnlySlot(d, Reduce(d, id, row).domain, row.command.slot)
  {
    hide DomainOk, OnlySlot, ReduceHall, ReduceCamera, ReduceDeadline;
    match row.command.payload
    case Hall(_, _, _, _, _) => HallOnly(d, id, row);
    case Camera(_, _, _, _, _, _, _, _, _, _, _, _) => CameraOnly(d, id, row);
    case Deadline(_, _, _, _, _) => DeadlineOnly(d, id, row);
  }

  // ---------------------------------------------------------------- a slot that no command is applied on

  predicate KeptSession(before: Session, after: Session) {
    after == before.(status := after.status) && (Active(after) <==> Active(before))
  }

  predicate SessionsStay(before: Sessions, after: Sessions, slot: SlotId) {
    (forall s :: s in before ==>
       s in after && after[s].slot == before[s].slot && after[s].entryCommand == before[s].entryCommand &&
       (before[s].exitCommand.Some? ==> after[s].exitCommand == before[s].exitCommand) &&
       (before[s].slot == slot ==> KeptSession(before[s], after[s]))) &&
    (forall s :: s in after && s !in before ==> after[s].slot != slot)
  }

  predicate ObservationStays(before: map<SlotId, Observation>, after: map<SlotId, Observation>, slot: SlotId) {
    (slot in before <==> slot in after) && (slot in before ==> after[slot] == before[slot])
  }

  predicate KeptDeadline(before: ExitDeadline, after: ExitDeadline) {
    after.attempt == before.attempt && after.dueAt == before.dueAt && after.hybrid == before.hybrid &&
    (Live(after) <==> Live(before)) && (before.state == Admitted ==> after.state == Admitted)
  }

  ghost predicate DeadlinesStay(before: Deadlines, after: Deadlines, slot: SlotId) {
    forall x: DeadlineId :: x.slot == slot ==> (x in before <==> x in after) && (x in before ==> KeptDeadline(before[x], after[x]))
  }

  predicate LeasesElsewhere(before: Bindings, after: Bindings, slot: SlotId) {
    LeasesKept(before, after) &&
    forall c :: c in after && c !in before ==> after[c].slot != slot && after[c].state == Committed
  }

  // Whatever decides about a command of this slot is as it was.
  ghost predicate SlotStays(before: Domain, after: Domain, slot: SlotId) {
    after.slots.Keys == before.slots.Keys && SessionsStay(before.sessions, after.sessions, slot) &&
    ObservationStays(before.observations, after.observations, slot) &&
    DeadlinesStay(before.deadlines, after.deadlines, slot) && LeasesElsewhere(before.bindings, after.bindings, slot)
  }

  lemma OthersStay(before: Domain, after: Domain, touched: SlotId, slot: SlotId)
    requires OnlySlot(before, after, touched) && touched != slot && LeasesKept(before.bindings, after.bindings)
    ensures SlotStays(before, after, slot)
  {
    hide LeasesKept;
    assert forall s :: s in before.sessions && before.sessions[s].slot == slot ==> after.sessions[s] == before.sessions[s];
  }

  // This step applies a command of the slot.
  predicate AppliesOn(w: World, action: Action, slot: SlotId) {
    StepApplies(w, action) && action.id in w.tables.inbox && w.tables.inbox[action.id].command.slot == slot
  }

  lemma {:induction false} BatchDeadlines(t: Tables, batch: seq<DeadlineId>, ordinal: nat, now: int, slot: SlotId)
    requires forall i :: 0 <= i < |batch| ==> batch[i] in t.domain.deadlines
    ensures var d := AdmitBatch(t, batch, ordinal, now).domain;
            d == t.domain.(deadlines := d.deadlines) && DeadlinesStay(t.domain.deadlines, d.deadlines, slot)
    decreases batch
  {
    if batch != [] {
      BatchDeadlines(AdmitDeadline(t, batch[0], ordinal + 1, now), batch[1..], ordinal + 1, now, slot);
    }
  }

  lemma SameStays(d: Domain, slot: SlotId)
    ensures SlotStays(d, d, slot)
  {
  }

  lemma QuietStays(w: World, action: Action, slot: SlotId)
    requires !StepApplies(w, action)
    ensures SlotStays(w.tables.domain, Exec(w, action).tables.domain, slot)
  {
    hide EffectReady, PurgeBatch, PendingIds, FindIdentity, FindCandidate, HallRefused, SourceFact, SlotStays;
    hide AfterCancel, TopOrdinal, NewRow, AdmitBatch, StampedBatch, Runnable, MarkViolation;
    SameStays(w.tables.domain, slot);
    if action.AdmitDeadlines? && DueBatch(w.tables, action.now, action.capacity, action.blocked, action.batch) {
      AdmittedStays(w.tables, action.batch, action.now, slot);
    } else if action.OverstayTimer? {
      MarkedStays(w.tables, action.session, slot);
    }
  }

  lemma AdmittedStays(t: Tables, batch: seq<DeadlineId>, now: int, slot: SlotId)
    requires forall i :: 0 <= i < |batch| ==> batch[i] in t.domain.deadlines
    ensures SlotStays(t.domain, AdmitDue(t, batch, now).domain, slot)
  {
    hide TopOrdinal, DeadlinesStay, AdmitBatch;
    BatchDeadlines(t, batch, TopOrdinal(t.inbox), now, slot);
  }

  lemma MarkedStays(t: Tables, s: SessionId, slot: SlotId)
    ensures SlotStays(t.domain, MarkViolation(t, s).domain, slot)
  {
    hide ObservationStays, DeadlinesStay, LeasesElsewhere, SlotStays;
    SameStays(t.domain, slot);
    var after := MarkViolation(t, s).domain;
    assert after == t.domain.(sessions := after.sessions);
    assert SessionsStay(t.domain.sessions, after.sessions, slot);
    ResessionedStays(t.domain, after.sessions, slot);
  }

  lemma ResessionedStays(d: Domain, sessions: Sessions, slot: SlotId)
    requires SessionsStay(d.sessions, sessions, slot)
    ensures SlotStays(d, d.(sessions := sessions), slot)
  {
    hide SessionsStay;
  }

  /** A step that applies no command of a slot leaves alone what decides about the commands of that slot. */
  lemma {:induction false} StepStays(w: World, action: Action, slot: SlotId)
    requires Invariant(w) && !AppliesOn(w, action, slot)
    ensures SlotStays(w.tables.domain, Exec(w, action).tables.domain, slot)
  {
    hide Invariant, DomainOk, Exec, Runnable, SlotStays;
    if StepApplies(w, action) {
      RunnableIsPending(w.tables.inbox, action.now, action.id);
      AppliedDomain(w, action);
      SafeDomain(w);
      SameStays(w.tables.domain, slot);
      var row := w.tables.inbox[action.id];
      if Reduce(w.tables.domain, action.id, row).Commit? {
        hide Reduce, OnlySlot, LeasesKept;
        ReduceOnly(w.tables.domain, action.id, row);
        ReduceLeases(w.tables.domain, action.id, row);
        OthersStay(w.tables.domain, Exec(w, action).tables.domain, row.command.slot, slot);
      }
    } else {
      QuietStays(w, action, slot);
    }
  }

  lemma AppliedDomain(w: World, action: Action)
    requires StepApplies(w, action) && action.id in w.tables.inbox && w.tables.inbox[action.id].status == Pending
    ensures var verdict := Reduce(w.tables.domain, action.id, w.tables.inbox[action.id]);
            Exec(w, action).tables.domain == if verdict.Commit? then verdict.domain else w.tables.domain
  {
    hide Reduce, AppliedHistory, Runnable;
  }
}
