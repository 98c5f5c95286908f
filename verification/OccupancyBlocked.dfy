/**
  When applying a command fails for the moment. A transaction that throws leaves its command
  pending, and a pending command holds the queue of its slot. `Blocked` lists the guards of the
  failing branches; nothing else makes the reducer answer `Retry`.
*/
module OccupancyBlocked {
  import opened Options
  import opened OccupancyTables
  import opened OccupancyReducer
  import opened OccupancyDomain
  import Sequence = SensorSequence

  // ---------------------------------------------------------------- the guards

  // A session cannot be inserted: the slot has no row, or this command has started a session before.
  predicate CreateRefused(d: Domain, id: CommandId, slot: SlotId) {
    slot !in d.slots || EntryUsed(d.sessions, id)
  }

  predicate LeaseIdsUsed(bindings: Bindings, id: CommandId, correlation: string) {
    correlation in bindings || SourceUsed(bindings, id)
  }

  predicate LeasedAs(binding: Binding, s: SessionId, slot: SlotId, channel: string) {
    binding.state == Committed && binding.session == s && binding.slot == slot && binding.channel == channel
  }

  // The track of this attempt is leased on other terms, or it is not leased and one of the new lease's ids is used.
  predicate LeaseRefused(bindings: Bindings, id: CommandId, command: Command, attempt: Attempt, s: SessionId)
    requires command.payload.Camera?
  {
    var p := command.payload;
    CompleteLease(p) &&
    if exists c :: c in bindings && OnTrack(bindings[c], attempt, p.track)
    then exists c :: c in bindings && OnTrack(bindings[c], attempt, p.track) &&
                     !LeasedAs(bindings[c], s, command.slot, p.channel)
    else LeaseIdsUsed(bindings, id, p.correlation)
  }

  ghost predicate HallBlocked(d: Domain, id: CommandId, command: Command)
    requires command.payload.Hall?
  {
    var active := FindActive(d.sessions, command.slot);
    HallStands(d, command) &&
    match command.payload.state
    case HallOccupied => active.None? && CreateRefused(d, id, command.slot)
    case HallVacant =>
      active.Some? && ExitUsed(d.sessions, id) &&
      var session := d.sessions[active.value];
      session.entryAt <= OccurredAt(command) &&
      (command.payload.hybrid ==> session.hallConfirmed && !session.ivaOccupied)
    case HallUnsupported => false
  }

  // The cursor of its sensor accepts the frame.
  predicate HallStands(d: Domain, command: Command) {
    command.payload.Hall? ==>
      Sequence.Evaluate(CursorOf(d.cursors, command.sensor), FactOf(command)) == Sequence.Accept
  }

  predicate TopologyChanged(d: Domain, command: Command)
    requires command.payload.Camera?
  {
    command.slot in d.observations && d.observations[command.slot].configured != command.payload.configured
  }

  ghost predicate IntrusionBlocked(d: Domain, id: CommandId, command: Command)
    requires command.payload.Camera?
  {
    match FindActive(d.sessions, command.slot)
    case Some(s) => LeaseRefused(d.bindings, id, command, d.sessions[s].attempt, s)
    case None =>
      CreateRefused(d, id, command.slot) ||
      (CompleteLease(command.payload) && LeaseIdsUsed(d.bindings, id, command.payload.correlation))
  }

  // A repeated exit: the area was left already, and the deadline of that exit is spent.
  ghost predicate ExitBlocked(d: Domain, command: Command)
    requires command.payload.Camera?
  {
    var active := FindActive(d.sessions, command.slot);
    command.payload.authoritativeExit && active.Some? && command.slot in d.observations &&
    d.sessions[active.value].entryAt <= OccurredAt(command) &&
    !AreaActive(d.observations[command.slot].areas, command.payload.area) &&
    !LiveOn(d.deadlines, command.slot) &&
    DeadlineId(command.slot, d.observations[command.slot].generation, active.value) in d.deadlines
  }

  ghost predicate EvidenceBlocked(d: Domain, id: CommandId, command: Command)
    requires command.payload.Camera?
  {
    var active := FindActive(d.sessions, command.slot);
    command.payload.action == Intrusion && command.payload.track.objectId != "" && active.Some? &&
    LeaseRefused(d.bindings, id, command, d.sessions[active.value].attempt, active.value)
  }

  ghost predicate CameraBlocked(d: Domain, id: CommandId, command: Command)
    requires command.payload.Camera?
  {
    var p := command.payload;
    p.configured != [] && p.area != "" &&
    if !p.authority then EvidenceBlocked(d, id, command)
    else
      TopologyChanged(d, command) ||
      (p.action == Intrusion && IntrusionBlocked(d, id, command)) ||
      (p.action == Exit && ExitBlocked(d, command))
  }

  // The deadline row that this command was made from is admitted.
  predicate OwnsDeadline(d: Domain, command: Command)
    requires command.payload.Deadline?
  {
    var p := command.payload;
    p.deadline in d.deadlines && d.deadlines[p.deadline].state == Admitted &&
    d.deadlines[p.deadline].attempt == p.attempt &&
    p.deadline == DeadlineId(command.slot, p.generation, p.session)
  }

  // A deadline that stands and would end its session, but falls due before the entry or has ended one before.
  ghost predicate DeadlineBlocked(d: Domain, id: CommandId, command: Command)
    requires command.payload.Deadline?
  {
    var p, slot := command.payload, command.slot;
    OwnsDeadline(d, command) && FindActive(d.sessions, slot) == Some(p.session) &&
    slot in d.observations && d.observations[slot].state == VacantPending &&
    d.observations[slot].session == Some(p.session) && d.observations[slot].generation == p.generation &&
    !(p.hybrid && d.sessions[p.session].hallOccupied) &&
    (OccurredAt(command) < d.sessions[p.session].entryAt || ExitUsed(d.sessions, id))
  }

  ghost predicate Blocked(d: Domain, id: CommandId, command: Command) {
    match command.payload
    case Hall(_, _, _, _, _) => HallBlocked(d, id, command)
    case Camera(_, _, _, _, _, _, _, _, _, _, _, _) => CameraBlocked(d, id, command)
    case Deadline(_, _, _, _, _) => DeadlineBlocked(d, id, command)
  }

  // ---------------------------------------------------------------- refused exactly when blocked

  lemma LeaseRefusedIff(d: Domain, id: CommandId, command: Command, attempt: Attempt, s: SessionId)
    requires command.payload.Camera? && BindingsOk(d.bindings, d.sessions) && attempt != NoAttempt
    ensures CommitCorrelation(d, id, command, attempt, s).None? <==>
            LeaseRefused(d.bindings, id, command, attempt, s)
  {
    hide BindingOk, SourceUsed, CompleteLease;
    var p := command.payload;
    match FindBinding(d.bindings, attempt, p.track)
    case None =>
    case Some(c) =>
      assert c in d.bindings && OnTrack(d.bindings[c], attempt, p.track);
      assert forall e :: e in d.bindings && OnTrack(d.bindings[e], attempt, p.track) ==> e == c;
  }

  lemma ActiveSession(d: Domain, slot: SlotId)
    requires DomainOk(d) && FindActive(d.sessions, slot).Some?
    ensures var session := d.sessions[FindActive(d.sessions, slot).value];
            slot in d.slots && SessionOk(session) && session.slot == slot && session.attempt != NoAttempt
  {
    hide ObservationsOk, DeadlinesOk, BindingsOk, CursorsOk, FindActive;
  }

  lemma HallRefusedIff(d: Domain, id: CommandId, row: Row)
    requires DomainOk(d) && row.command.payload.Hall?
    ensures ReduceHall(d, id, row) == Retry <==> HallBlocked(d, id, row.command)
  {
    hide DomainOk, FindActive, CommitSequence, ExitUsed, EntryUsed, Sequence.Evaluate, HallFrame;
    if FindActive(d.sessions, row.command.slot).Some? {
      ActiveSession(d, row.command.slot);
      var s := FindActive(d.sessions, row.command.slot).value;
      LoweredRefused(d, s, id, row.command, d.sessions[s].hallConfirmed);
    }
  }

  // Lowering a latch first does not change whether the session can be closed.
  lemma LoweredRefused(d: Domain, s: SessionId, id: CommandId, command: Command, confirmed: bool)
    requires s in d.sessions && command.slot in d.slots
    ensures CloseSession(UpdateHall(d, s, confirmed, false), s, id, command).None? <==>
            OccurredAt(command) < d.sessions[s].entryAt || ExitUsed(d.sessions, id)
    ensures CloseSession(UpdateIva(d, s, confirmed, false), s, id, command).None? <==>
            OccurredAt(command) < d.sessions[s].entryAt || ExitUsed(d.sessions, id)
  {
    hide EndBindings, ClearObservation, Closed, GenerationsGrow, ExitUsed;
    SameExits(d.sessions, UpdateHall(d, s, confirmed, false).sessions, id);
    SameExits(d.sessions, UpdateIva(d, s, confirmed, false).sessions, id);
  }

  // A track of an attempt is leased only after the command of the attempt started its session.
  lemma NewAttemptHasNoLease(d: Domain, id: CommandId, track: Track)
    requires DomainOk(d) && !EntryUsed(d.sessions, id)
    ensures forall c :: c in d.bindings ==> !OnTrack(d.bindings[c], Occupancy(id), track)
  {
    hide SlotsOk, ObservationsOk, DeadlinesOk, CursorsOk, FindActive;
    forall c | c in d.bindings ensures !OnTrack(d.bindings[c], Occupancy(id), track) {
      assert BindingOk(d.bindings[c], d.sessions);
      assert SessionOk(d.sessions[d.bindings[c].session]);
    }
  }

  lemma SafeBindings(d: Domain)
    requires DomainOk(d)
    ensures BindingsOk(d.bindings, d.sessions)
  {
  }

  lemma IntrusionOnRefusedIff(d: Domain, id: CommandId, row: Row, s: SessionId, attempt: Attempt, code: Code,
                              generation: nat, areas: map<string, bool>)
    requires row.command.payload.Camera?
    ensures var verdict := IntrusionOn(d, id, row, s, attempt, code, generation, areas);
            verdict != RejectInvalid &&
            (verdict == Retry <==> CommitCorrelation(d, id, row.command, attempt, s).None?)
  {
    hide SourceUsed, CompleteLease, ObservedAt;
  }

  lemma SameLeaseRefused(d: Domain, d': Domain, id: CommandId, command: Command, attempt: Attempt, s: SessionId)
    requires command.payload.Camera? && d'.bindings == d.bindings
    ensures CommitCorrelation(d', id, command, attempt, s).None? <==> CommitCorrelation(d, id, command, attempt, s).None?
  {
    hide SourceUsed, CompleteLease;
  }

  lemma IntrusionRefusedIff(d: Domain, id: CommandId, row: Row, generation: nat, areas: map<string, bool>)
    requires DomainOk(d) && row.command.payload.Camera?
    ensures var verdict := CameraIntrusion(d, id, row, generation, areas);
            verdict != RejectInvalid && (verdict == Retry <==> IntrusionBlocked(d, id, row.command))
  {
    hide DomainOk, FindActive, CommitCorrelation, IntrusionOn, ObservedAt, CreateSession, LeaseRefused, SupersedeScheduled;
    hide LeaseIdsUsed, CreateRefused;
    var c := row.command;
    var superseded := SupersedeScheduled(d, c.slot);
    assert superseded == d.(deadlines := superseded.deadlines) by { SupersededAlone(d, c.slot); }
    match FindActive(d.sessions, c.slot)
    case Some(s) =>
      ActiveSession(d, c.slot);
      LeaseStepRefusedIff(d, UpdateIva(superseded, s, true, true), id, row, s, d.sessions[s].attempt, NoChange, generation, areas);
    case None =>
      CreateRefusedIff(d, superseded, id, c);
      if !CreateRefused(d, id, c.slot) {
        LeaseStepRefusedIff(d, CreateSession(superseded, id, c).value, id, row, d.nextSession, Occupancy(id),
                            SessionStarted, generation, areas);
        UnleasedRefused(d, id, c, d.nextSession);
      }
  }

  lemma CreateRefusedIff(d: Domain, d': Domain, id: CommandId, command: Command)
    requires d' == d.(deadlines := d'.deadlines)
    ensures CreateSession(d', id, command).None? <==> CreateRefused(d, id, command.slot)
    ensures CreateSession(d', id, command).Some? ==> CreateSession(d', id, command).value.bindings == d.bindings
  {
    hide EntryUsed;
  }

  lemma LeaseStepRefusedIff(d: Domain, d': Domain, id: CommandId, row: Row, s: SessionId, attempt: Attempt, code: Code,
                            generation: nat, areas: map<string, bool>)
    requires DomainOk(d) && row.command.payload.Camera? && attempt != NoAttempt && d'.bindings == d.bindings
    ensures var verdict := IntrusionOn(d', id, row, s, attempt, code, generation, areas);
            verdict != RejectInvalid && (verdict == Retry <==> LeaseRefused(d.bindings, id, row.command, attempt, s))
  {
    hide DomainOk, IntrusionOn, CommitCorrelation, LeaseRefused, BindingsOk;
    SafeBindings(d);
    IntrusionOnRefusedIff(d', id, row, s, attempt, code, generation, areas);
    SameLeaseRefused(d, d', id, row.command, attempt, s);
    LeaseRefusedIff(d, id, row.command, attempt, s);
  }

  lemma UnleasedRefused(d: Domain, id: CommandId, command: Command, s: SessionId)
    requires DomainOk(d) && command.payload.Camera? && !CreateRefused(d, id, command.slot)
    ensures LeaseRefused(d.bindings, id, command, Occupancy(id), s) <==>
            CompleteLease(command.payload) && LeaseIdsUsed(d.bindings, id, command.payload.correlation)
  {
    hide DomainOk, EntryUsed, LeaseIdsUsed, CompleteLease, OnTrack;
    NewAttemptHasNoLease(d, id, command.payload.track);
  }

  lemma SupersededAlone(d: Domain, slot: SlotId)
    ensures SupersedeScheduled(d, slot) == d.(deadlines := SupersedeScheduled(d, slot).deadlines)
  {
  }

  lemma EvidenceRefusedIff(d: Domain, id: CommandId, row: Row)
    requires DomainOk(d) && row.command.payload.Camera?
    ensures CameraEvidence(d, id, row) == Retry <==> EvidenceBlocked(d, id, row.command)
  {
    hide DomainOk, FindActive, CommitCorrelation, LeaseRefused, BindingsOk;
    SafeBindings(d);
    if FindActive(d.sessions, row.command.slot).Some? {
      var s := FindActive(d.sessions, row.command.slot).value;
      ActiveSession(d, row.command.slot);
      LeaseRefusedIff(d, id, row.command, d.sessions[s].attempt, s);
    }
  }

  // No deadline of the slot is ahead of the camera row, and one that is level was scheduled by a complete exit.
  lemma DeadlinesBehind(d: Domain, x: DeadlineId)
    requires DomainOk(d) && x in d.deadlines
    ensures x.slot in d.observations && Outdated(x, d.observations[x.slot])
  {
    hide SessionsOk, SlotsOk, ObservationsOk, BindingsOk, CursorsOk, FindActive, OneLivePerSlot, Outdated;
    assert DeadlineOk(x, d.deadlines[x], d.observations, d.sessions);
  }

  lemma ExitRefusedIff(d: Domain, row: Row)
    requires DomainOk(d) && row.command.payload.Camera? && !TopologyChanged(d, row.command)
    requires row.command.payload.authoritativeExit
    requires var active := FindActive(d.sessions, row.command.slot);
             active.Some? ==> d.sessions[active.value].entryAt <= OccurredAt(row.command)
    ensures var slot, area := row.command.slot, row.command.payload.area;
            var known := slot in d.observations;
            var areas := if known then d.observations[slot].areas else map[];
            var generation := if known then d.observations[slot].generation else row.generation;
            var next := if AreaActive(areas, area) then generation + 1 else generation;
            CameraExit(d, row, next, areas[area := false]) == Retry <==> ExitBlocked(d, row.command)
  {
    hide DomainOk, FindActive, LiveOn, ObservedAt, AdmittedKept;
    var active := FindActive(d.sessions, row.command.slot);
    if active.Some? {
      forall generation | DeadlineId(row.command.slot, generation, active.value) in d.deadlines {
        DeadlinesBehind(d, DeadlineId(row.command.slot, generation, active.value));
      }
    }
  }

  lemma CameraRefusedIff(d: Domain, id: CommandId, row: Row)
    requires DomainOk(d) && row.command.payload.Camera?
    ensures ReduceCamera(d, id, row) == Retry <==> CameraBlocked(d, id, row.command)
  {
    hide DomainOk, FindActive, CameraEvidence, CameraIntrusion, CameraExit, EvidenceBlocked, IntrusionBlocked;
    hide GenerationsGrow, ObservedAt, AdmittedKept, LiveOn;
    var p, slot := row.command.payload, row.command.slot;
    EvidenceRefusedIff(d, id, row);
    forall generation, areas { IntrusionRefusedIff(d, id, row, generation, areas); }
    var active := FindActive(d.sessions, slot);
    if p.authoritativeExit && !TopologyChanged(d, row.command)
       && (active.Some? ==> d.sessions[active.value].entryAt <= OccurredAt(row.command)) {
      ExitRefusedIff(d, row);
    }
  }

  lemma StandsIff(d: Domain, row: Row)
    requires DomainOk(d) && row.command.payload.Deadline? && DeadlineOwnsSlot(d, row)
    ensures var p, slot := row.command.payload, row.command.slot;
            ExitStillStands(d, row) <==>
            FindActive(d.sessions, slot) == Some(p.session) && slot in d.observations &&
            d.observations[slot].state == VacantPending && d.observations[slot].session == Some(p.session) &&
            d.observations[slot].generation == p.generation
  {
    hide SessionsOk, SlotsOk, BindingsOk, CursorsOk, FindActive, OneLivePerSlot;
    var p, slot := row.command.payload, row.command.slot;
    assert DeadlineOk(p.deadline, d.deadlines[p.deadline], d.observations, d.sessions);
    assert slot in d.observations ==> ObservationOk(d.observations[slot], slot, d.sessions);
  }

  lemma DeadlineRefusedIff(d: Domain, id: CommandId, row: Row)
    requires DomainOk(d) && row.command.payload.Deadline?
    ensures ReduceDeadline(d, id, row) == Retry <==> DeadlineBlocked(d, id, row.command)
  {
    hide DomainOk, FindActive, ExitStillStands, CloseSession, GenerationsGrow, AdmittedKept, ExitUsed;
    var p, slot := row.command.payload, row.command.slot;
    assert DeadlineOwnsSlot(d, row) <==> OwnsDeadline(d, row.command);
    if DeadlineOwnsSlot(d, row) {
      StandsIff(d, row);
      if ExitStillStands(d, row) {
        assert p.session in d.sessions;
        ActiveSession(d, slot);
        var lowered := UpdateIva(d, p.session, d.sessions[p.session].ivaConfirmed, false);
        LoweredRefused(d, p.session, id, row.command, d.sessions[p.session].ivaConfirmed);
        SettledRefused(lowered, p.session, id, row.command, p.deadline);
      }
    }
  }

  lemma SettledRefused(d: Domain, s: SessionId, id: CommandId, command: Command, x: DeadlineId)
    requires s in d.sessions && x in d.deadlines
    ensures CloseSession(SettleDeadline(d, x, DeadlineApplied), s, id, command).None? <==>
            CloseSession(d, s, id, command).None?
  {
    hide EndBindings, ClearObservation, Closed, GenerationsGrow, ExitUsed;
  }

  /** Applying a command fails for the moment exactly when the command is blocked. */
  lemma {:induction false} RefusedIffBlocked(d: Domain, id: CommandId, row: Row)
    requires DomainOk(d)
    ensures Reduce(d, id, row) == Retry <==> Blocked(d, id, row.command)
  {
    hide DomainOk, ReduceHall, ReduceCamera, ReduceDeadline, HallBlocked, CameraBlocked, DeadlineBlocked;
    match row.command.payload
    case Hall(_, _, _, _, _) => HallRefusedIff(d, id, row);
    case Camera(_, _, _, _, _, _, _, _, _, _, _, _) => CameraRefusedIff(d, id, row);
    case Deadline(_, _, _, _, _) => DeadlineRefusedIff(d, id, row);
  }
}
