/**
  The invariant of the domain tables and the proof that every table operation of a
  transaction keeps it. Nothing here mentions the inbox: it is the part of the whole-run
  invariant that `OccupancyReducer.Reduce` is responsible for.
*/
module OccupancyDomain {
  import opened Options
  import opened OccupancyTables
  import opened OccupancyReducer
  import Sequence = SensorSequence

  // ---------------------------------------------------------------- the invariant, table by table

  // Active exactly while a latch is up, an occupied latch is a confirmed one, and exit follows entry.
  predicate SessionOk(session: Session) {
    (Active(session) <==> session.hallOccupied || session.ivaOccupied) &&
    (session.hallOccupied ==> session.hallConfirmed) &&
    (session.ivaOccupied ==> session.ivaConfirmed) &&
    session.attempt == Occupancy(session.entryCommand) &&
    (session.status == EndedStatus <==> session.exitAt.Some?) &&
    (session.exitCommand.Some? <==> session.exitAt.Some?) &&
    (session.exitAt.Some? ==> session.entryAt <= session.exitAt.value)
  }

  // The last conjunct says that a slot has at most one active session.
  ghost predicate SessionsOk(sessions: Sessions, next: SessionId) {
    forall s :: s in sessions ==>
      s < next && SessionOk(sessions[s]) &&
      (Active(sessions[s]) ==> FindActive(sessions, sessions[s].slot) == Some(s))
  }

  ghost predicate SlotsOk(slots: map<SlotId, SlotStatus>, sessions: Sessions) {
    (forall s :: s in sessions ==> sessions[s].slot in slots) &&
    (forall slot :: slot in slots ==> (slots[slot] == SlotOccupied <==> FindActive(sessions, slot).Some?))
  }

  predicate ObservationOk(o: Observation, slot: SlotId, sessions: Sessions) {
    (o.session.Some? ==>
       o.session.value in sessions && ActiveIn(sessions[o.session.value], slot) &&
       sessions[o.session.value].attempt == o.attempt) &&
    (o.state == VacantPending ==> o.session.Some? && AllInactive(o.configured, o.areas))
  }

  predicate ObservationsOk(observations: map<SlotId, Observation>, sessions: Sessions) {
    forall slot :: slot in observations ==> ObservationOk(observations[slot], slot, sessions)
  }

  // While the camera is still at the generation of a deadline, nothing has been seen since its exit.
  predicate DeadlineOk(x: DeadlineId, deadline: ExitDeadline, observations: map<SlotId, Observation>,
                       sessions: Sessions)
  {
    x.session in sessions && sessions[x.session].slot == x.slot &&
    sessions[x.session].attempt == deadline.attempt &&
    x.slot in observations && Outdated(x, observations[x.slot])
  }

  predicate Outdated(x: DeadlineId, o: Observation) {
    x.generation <= o.generation &&
    (x.generation == o.generation ==> o.state != ObservedOccupied && AllInactive(o.configured, o.areas))
  }

  ghost predicate DeadlinesOk(deadlines: Deadlines, observations: map<SlotId, Observation>, sessions: Sessions) {
    (forall x :: x in deadlines ==> DeadlineOk(x, deadlines[x], observations, sessions)) &&
    OneLivePerSlot(deadlines)
  }

  ghost predicate OneLivePerSlot(deadlines: Deadlines) {
    forall x, y :: x in deadlines && y in deadlines && x.slot == y.slot && Live(deadlines[x]) && Live(deadlines[y])
      ==> x == y
  }

  // A committed lease names the active session of its slot; a track has one lease per attempt.
  predicate BindingOk(binding: Binding, sessions: Sessions) {
    binding.revision > 0 &&
    binding.session in sessions && sessions[binding.session].attempt == binding.attempt &&
    (binding.state == Committed ==> ActiveIn(sessions[binding.session], binding.slot))
  }

  ghost predicate BindingsOk(bindings: Bindings, sessions: Sessions) {
    (forall c :: c in bindings ==> BindingOk(bindings[c], sessions)) &&
    (forall c, e :: c in bindings && e in bindings && OnTrack(bindings[c], bindings[e].attempt, bindings[e].track)
       ==> c == e)
  }

  predicate CursorsOk(cursors: map<SensorId, Sequence.Cursor>) {
    forall sensor :: sensor in cursors ==> Sequence.WellFormed(cursors[sensor])
  }

  ghost predicate DomainOk(d: Domain) {
    SessionsOk(d.sessions, d.nextSession) && SlotsOk(d.slots, d.sessions) &&
    ObservationsOk(d.observations, d.sessions) &&
    DeadlinesOk(d.deadlines, d.observations, d.sessions) &&
    BindingsOk(d.bindings, d.sessions) && CursorsOk(d.cursors)
  }

  // ---------------------------------------------------------------- who is active after a table update

  lemma ActiveAfterCreate(sessions: Sessions, s: SessionId, row: Session, slot: SlotId)
    requires s !in sessions && Active(row) && FindActive(sessions, row.slot) == None
    ensures FindActive(sessions[s := row], slot) == if slot == row.slot then Some(s) else FindActive(sessions, slot)
  {
    var after := sessions[s := row];
    assert after[s] == row;
    var found, before := FindActive(after, slot), FindActive(sessions, slot);
    if found.Some? && found.value != s { assert sessions[found.value] == after[found.value]; }
    if before.Some? { assert after[before.value] == sessions[before.value]; }
  }

  lemma ActiveAfterUpdate(sessions: Sessions, s: SessionId, row: Session, slot: SlotId)
    requires s in sessions && row.slot == sessions[s].slot && (Active(row) <==> Active(sessions[s]))
    ensures FindActive(sessions[s := row], slot) == FindActive(sessions, slot)
  {
    var after := sessions[s := row];
    assert after[s] == row;
    var found, before := FindActive(after, slot), FindActive(sessions, slot);
    if found.Some? { assert found.value in sessions && ActiveIn(sessions[found.value], slot); }
    if before.Some? { assert before.value in after && ActiveIn(after[before.value], slot); }
  }

  lemma ActiveAfterClose(sessions: Sessions, s: SessionId, row: Session, slot: SlotId)
    requires s in sessions && row.slot == sessions[s].slot && !Active(row)
    requires forall t :: t in sessions && ActiveIn(sessions[t], row.slot) ==> t == s
    ensures FindActive(sessions[s := row], slot) == if slot == row.slot then None else FindActive(sessions, slot)
  {
    var after := sessions[s := row];
    assert after[s] == row;
    var found, before := FindActive(after, slot), FindActive(sessions, slot);
    if found.Some? { assert found.value != s && sessions[found.value] == after[found.value]; }
    if before.Some? && slot != row.slot { assert after[before.value] == sessions[before.value]; }
  }

  // ---------------------------------------------------------------- operations keep the invariant

  // No session disappears, moves or stops being active.
  predicate Carries(before: Sessions, after: Sessions) {
    forall s :: s in before ==>
      s in after && after[s].slot == before[s].slot && after[s].attempt == before[s].attempt &&
      (Active(before[s]) ==> Active(after[s]))
  }

  lemma CarriedReferences(d: Domain, after: Sessions)
    requires Carries(d.sessions, after)
    ensures ObservationsOk(d.observations, d.sessions) ==> ObservationsOk(d.observations, after)
    ensures DeadlinesOk(d.deadlines, d.observations, d.sessions) ==> DeadlinesOk(d.deadlines, d.observations, after)
    ensures BindingsOk(d.bindings, d.sessions) ==> BindingsOk(d.bindings, after)
  {
    hide FindActive;
  }

  ghost predicate ActiveMoves(before: Sessions, after: Sessions, slot: SlotId, now: Option<SessionId>) {
    forall other :: FindActive(after, other) == if other == slot then now else FindActive(before, other)
  }

  lemma CreatedTables(slots: map<SlotId, SlotStatus>, sessions: Sessions, next: SessionId, row: Session)
    requires SessionsOk(sessions, next) && SlotsOk(slots, sessions)
    requires FindActive(sessions, row.slot) == None && row.slot in slots && SessionOk(row) && Active(row)
    ensures SessionsOk(sessions[next := row], next + 1) && SlotsOk(slots[row.slot := SlotOccupied], sessions[next := row])
    ensures Carries(sessions, sessions[next := row])
    ensures ActiveMoves(sessions, sessions[next := row], row.slot, Some(next))
  {
    forall slot ensures FindActive(sessions[next := row], slot) ==
      if slot == row.slot then Some(next) else FindActive(sessions, slot)
    {
      ActiveAfterCreate(sessions, next, row, slot);
    }
  }

  lemma CreateKeeps(d: Domain, id: CommandId, command: Command)
    requires DomainOk(d) && FindActive(d.sessions, command.slot) == None
    requires command.payload.Hall? || command.payload.Camera?
    requires CreateSession(d, id, command).Some?
    ensures var created := CreateSession(d, id, command).value;
            DomainOk(created) && ActiveMoves(d.sessions, created.sessions, command.slot, Some(d.nextSession))
  {
    hide SessionsOk, SlotsOk, ObservationsOk, DeadlinesOk, BindingsOk, CursorsOk, Carries, ActiveMoves, FindActive;
    var created := CreateSession(d, id, command).value;
    CreatedTables(d.slots, d.sessions, d.nextSession, created.sessions[d.nextSession]);
    CarriedReferences(d, created.sessions);
  }

  lemma UpdatedTables(slots: map<SlotId, SlotStatus>, sessions: Sessions, next: SessionId, s: SessionId, row: Session)
    requires SessionsOk(sessions, next) && SlotsOk(slots, sessions)
    requires s in sessions && Active(sessions[s]) && SessionOk(row) && Active(row)
    requires row.slot == sessions[s].slot && row.attempt == sessions[s].attempt
    ensures SessionsOk(sessions[s := row], next) && SlotsOk(slots, sessions[s := row])
    ensures Carries(sessions, sessions[s := row])
    ensures ActiveMoves(sessions, sessions[s := row], row.slot, FindActive(sessions, row.slot))
  {
    forall slot ensures FindActive(sessions[s := row], slot) == FindActive(sessions, slot) {
      ActiveAfterUpdate(sessions, s, row, slot);
    }
  }

  // A latch update of an active session that leaves one latch up.
  lemma UpdateKeeps(d: Domain, s: SessionId, row: Session)
    requires DomainOk(d) && s in d.sessions && Active(d.sessions[s])
    requires SessionOk(row) && Active(row)
    requires row.slot == d.sessions[s].slot && row.attempt == d.sessions[s].attempt
    ensures var after := d.(sessions := d.sessions[s := row]);
            DomainOk(after) &&
            ActiveMoves(d.sessions, after.sessions, row.slot, FindActive(d.sessions, row.slot))
  {
    hide SessionsOk, SlotsOk, ObservationsOk, DeadlinesOk, BindingsOk, CursorsOk, Carries, ActiveMoves, FindActive;
    UpdatedTables(d.slots, d.sessions, d.nextSession, s, row);
    CarriedReferences(d, d.sessions[s := row]);
  }

  // ---------------------------------------------------------------- closing a session

  lemma ClosedTables(slots: map<SlotId, SlotStatus>, sessions: Sessions, next: SessionId, s: SessionId, row: Session)
    requires SessionsOk(sessions, next) && SlotsOk(slots, sessions)
    requires FindActive(sessions, row.slot) == Some(s) && SessionOk(row) && !Active(row)
    ensures SessionsOk(sessions[s := row], next) && SlotsOk(slots[row.slot := SlotVacant], sessions[s := row])
    ensures ActiveMoves(sessions, sessions[s := row], row.slot, None)
  {
    var after := sessions[s := row];
    forall slot ensures FindActive(after, slot) == if slot == row.slot then None else FindActive(sessions, slot) {
      ActiveAfterClose(sessions, s, row, slot);
    }
    forall t | t in after && Active(after[t]) ensures FindActive(after, after[t].slot) == Some(t) {
      assert t != s && after[t] == sessions[t];
    }
  }

  lemma ClosedObservations(observations: map<SlotId, Observation>, sessions: Sessions, s: SessionId, row: Session)
    requires ObservationsOk(observations, sessions) && s in sessions
    requires row.slot == sessions[s].slot && row.attempt == sessions[s].attempt
    ensures ObservationsOk(ClearObservation(observations, row.slot, s), sessions[s := row])
  {
  }

  lemma ClosedDeadlines(deadlines: Deadlines, observations: map<SlotId, Observation>, sessions: Sessions,
                        s: SessionId, row: Session)
    requires DeadlinesOk(deadlines, observations, sessions) && s in sessions
    requires row.slot == sessions[s].slot && row.attempt == sessions[s].attempt
    ensures DeadlinesOk(deadlines, ClearObservation(observations, row.slot, s), sessions[s := row])
  {
  }

  lemma ClosedBindings(bindings: Bindings, sessions: Sessions, s: SessionId, row: Session)
    requires BindingsOk(bindings, sessions) && s in sessions
    requires row.slot == sessions[s].slot && row.attempt == sessions[s].attempt
    ensures BindingsOk(EndBindings(bindings, s, row.slot, row.attempt), sessions[s := row])
  {
    var after := EndBindings(bindings, s, row.slot, row.attempt);
    forall c | c in after ensures BindingOk(after[c], sessions[s := row]) {
      assert BindingOk(bindings[c], sessions);
    }
  }

  lemma CloseKeeps(d: Domain, s: SessionId, id: CommandId, command: Command)
    requires DomainOk(d) && FindActive(d.sessions, command.slot) == Some(s)
    requires CloseSession(d, s, id, command).Some?
    ensures var closed := CloseSession(d, s, id, command).value;
            DomainOk(closed) && ActiveMoves(d.sessions, closed.sessions, command.slot, None)
  {
    assert s < d.nextSession && SessionOk(d.sessions[s]);
    hide SessionsOk, SlotsOk, ObservationsOk, DeadlinesOk, BindingsOk, CursorsOk, ActiveMoves, FindActive;
    hide EndBindings, ClearObservation;
    var row := Closed(d.sessions[s], id, OccurredAt(command));
    ClosedTables(d.slots, d.sessions, d.nextSession, s, row);
    ClosedObservations(d.observations, d.sessions, s, row);
    ClosedDeadlines(d.deadlines, d.observations, d.sessions, s, row);
    ClosedBindings(d.bindings, d.sessions, s, row);
  }

  // Lowering a latch first makes no difference to the closed session.
  lemma CloseIgnoresLatches(d: Domain, s: SessionId, id: CommandId, command: Command)
    requires s in d.sessions
    ensures CloseSession(UpdateHall(d, s, d.sessions[s].hallConfirmed, false), s, id, command) ==
            CloseSession(d, s, id, command)
    ensures CloseSession(UpdateIva(d, s, d.sessions[s].ivaConfirmed, false), s, id, command) ==
            CloseSession(d, s, id, command)
  {
    var hall := UpdateHall(d, s, d.sessions[s].hallConfirmed, false).sessions;
    var iva := UpdateIva(d, s, d.sessions[s].ivaConfirmed, false).sessions;
    SameExits(d.sessions, hall, id);
    SameExits(d.sessions, iva, id);
    var row := Closed(d.sessions[s], id, OccurredAt(command));
    assert hall[s := row] == iva[s := row] == d.sessions[s := row];
  }

  lemma SameExits(before: Sessions, after: Sessions, id: CommandId)
    requires after.Keys == before.Keys
    requires forall s :: s in before ==> after[s].exitCommand == before[s].exitCommand
    ensures ExitUsed(before, id) <==> ExitUsed(after, id)
  {
    if ExitUsed(before, id) {
      var s :| s in before && before[s].exitCommand == Some(id);
      assert s in after && after[s].exitCommand == Some(id);
    }
    if ExitUsed(after, id) {
      var s :| s in after && after[s].exitCommand == Some(id);
      assert s in before && before[s].exitCommand == Some(id);
    }
  }

  // ---------------------------------------------------------------- observations, deadlines, leases, cursors

  // The camera row of a slot may move on to `o` without disturbing any deadline of the slot.
  ghost predicate CanObserve(d: Domain, slot: SlotId, o: Observation) {
    ObservationOk(o, slot, d.sessions) &&
    forall x :: x in d.deadlines && x.slot == slot ==> Outdated(x, o)
  }

  lemma ObserveKeeps(d: Domain, slot: SlotId, o: Observation)
    requires DomainOk(d) && CanObserve(d, slot, o)
    ensures DomainOk(Observe(d, slot, o))
  {
    hide SessionsOk, SlotsOk, BindingsOk, CursorsOk, FindActive, Outdated, ObservationOk;
  }

  lemma ScheduleKeeps(d: Domain, x: DeadlineId, deadline: ExitDeadline)
    requires DomainOk(d) && x !in d.deadlines && !LiveOn(d.deadlines, x.slot)
    requires DeadlineOk(x, deadline, d.observations, d.sessions)
    ensures DomainOk(d.(deadlines := d.deadlines[x := deadline]))
  {
    hide SessionsOk, SlotsOk, BindingsOk, CursorsOk, ObservationsOk, FindActive, DeadlineOk;
  }

  // Deadlines change only their state and none becomes live again.
  predicate Settles(before: Deadlines, after: Deadlines) {
    after.Keys == before.Keys &&
    forall x :: x in before ==>
      after[x].attempt == before[x].attempt && (Live(after[x]) ==> Live(before[x]))
  }

  lemma SettleKeeps(d: Domain, after: Deadlines)
    requires DomainOk(d) && Settles(d.deadlines, after)
    ensures DomainOk(d.(deadlines := after))
  {
    hide SessionsOk, SlotsOk, BindingsOk, CursorsOk, ObservationsOk, FindActive, Outdated, Live;
  }

  lemma RefreshedBindings(bindings: Bindings, sessions: Sessions, c: string, expiresAt: int)
    requires BindingsOk(bindings, sessions) && c in bindings
    ensures var b := bindings[c].(expiresAt := expiresAt, revision := bindings[c].revision + 1);
            BindingsOk(bindings[c := b], sessions)
  {
    assert BindingOk(bindings[c], sessions);
  }

  lemma InsertedBindings(bindings: Bindings, sessions: Sessions, c: string, b: Binding)
    requires BindingsOk(bindings, sessions) && c !in bindings && BindingOk(b, sessions)
    requires FindBinding(bindings, b.attempt, b.track).None?
    ensures BindingsOk(bindings[c := b], sessions)
  {
    hide BindingOk;
  }

  lemma CorrelationKeeps(d: Domain, id: CommandId, command: Command, s: SessionId)
    requires DomainOk(d) && command.payload.Camera? && FindActive(d.sessions, command.slot) == Some(s)
    requires CommitCorrelation(d, id, command, d.sessions[s].attempt, s).Some?
    ensures var leased := CommitCorrelation(d, id, command, d.sessions[s].attempt, s).value.0;
            DomainOk(leased) && leased == d.(bindings := leased.bindings)
  {
    hide SessionsOk, SlotsOk, DeadlinesOk, CursorsOk, ObservationsOk, BindingsOk, SourceUsed, FindActive;
    var p, attempt := command.payload, d.sessions[s].attempt;
    if CompleteLease(p) && attempt != NoAttempt {
      match FindBinding(d.bindings, attempt, p.track)
      case Some(c) => RefreshedBindings(d.bindings, d.sessions, c, p.expiresAt);
      case None =>
        var b := Binding(id, attempt, s, command.slot, p.track, p.channel, 1, p.expiresAt, Committed);
        InsertedBindings(d.bindings, d.sessions, p.correlation, b);
    }
  }

  lemma SequenceKeeps(d: Domain, command: Command)
    requires DomainOk(d) && command.payload.Hall?
    requires Sequence.Evaluate(CursorOf(d.cursors, command.sensor), FactOf(command)) == Sequence.Accept
    ensures DomainOk(CommitSequence(d, command))
  {
    hide SessionsOk, SlotsOk, DeadlinesOk, BindingsOk, ObservationsOk;
  }
}
