/**
  Applying one command keeps the domain invariant, and its result code says exactly what
  happened to the active session of the slot.
*/
module OccupancyStep {
  import opened Options
  import opened OccupancyTables
  import opened OccupancyReducer
  import opened OccupancyDomain
  import Sequence = SensorSequence

  // SessionStarted and SessionEnded name the session that appeared or disappeared; no other code moves one.
  ghost predicate Moves(before: Domain, after: Domain, slot: SlotId, outcome: Outcome) {
    var was := FindActive(before.sessions, slot);
    match outcome.code
    case SessionStarted =>
      was == None && outcome.session == Some(before.nextSession) &&
      ActiveMoves(before.sessions, after.sessions, slot, outcome.session)
    case SessionEnded =>
      was.Some? && outcome.session == was && ActiveMoves(before.sessions, after.sessions, slot, None)
    case _ =>
      ActiveMoves(before.sessions, after.sessions, slot, was)
  }

  // What every branch has to establish.
  ghost predicate Good(d: Domain, row: Row, verdict: Verdict) {
    verdict.Commit? ==>
      DomainOk(verdict.domain) && Moves(d, verdict.domain, row.command.slot, verdict.outcome) &&
      d.nextSession <= verdict.domain.nextSession && d.sessions.Keys <= verdict.domain.sessions.Keys
  }

  // ---------------------------------------------------------------- frames of the table operations

  lemma SequenceStep(d: Domain, command: Command)
    requires DomainOk(d) && command.payload.Hall?
    requires Sequence.Evaluate(CursorOf(d.cursors, command.sensor), FactOf(command)) == Sequence.Accept
    ensures DomainOk(CommitSequence(d, command))
    ensures CommitSequence(d, command) == d.(cursors := CommitSequence(d, command).cursors)
  {
    hide DomainOk;
    SequenceKeeps(d, command);
  }

  // Raising either latch of the active session, or lowering one while the other is up.
  lemma LatchStep(d: Domain, s: SessionId, slot: SlotId, row: Session)
    requires DomainOk(d) && FindActive(d.sessions, slot) == Some(s)
    requires Active(row) && row.slot == slot && row.attempt == d.sessions[s].attempt
    requires row.entryCommand == d.sessions[s].entryCommand && row.status == d.sessions[s].status
    requires row.exitCommand == d.sessions[s].exitCommand
    requires (row.hallOccupied && row.hallConfirmed) || (row.ivaOccupied && row.ivaConfirmed)
    requires (row.hallOccupied ==> row.hallConfirmed) && (row.ivaOccupied ==> row.ivaConfirmed)
    ensures var after := d.(sessions := d.sessions[s := row]);
            DomainOk(after) && ActiveMoves(d.sessions, after.sessions, slot, Some(s))
  {
    assert SessionOk(d.sessions[s]) by { hide FindActive, SlotsOk, ObservationsOk, DeadlinesOk, BindingsOk; }
    hide DomainOk, FindActive, ActiveMoves;
    UpdateKeeps(d, s, row);
  }

  lemma ActiveFacts(d: Domain, slot: SlotId)
    requires DomainOk(d)
    ensures FindActive(d.sessions, slot).Some? ==> SessionOk(d.sessions[FindActive(d.sessions, slot).value])
    ensures ActiveMoves(d.sessions, d.sessions, slot, FindActive(d.sessions, slot))
  {
    hide FindActive, SlotsOk, ObservationsOk, DeadlinesOk, BindingsOk;
  }

  lemma CloseStep(d: Domain, s: SessionId, id: CommandId, command: Command)
    requires DomainOk(d) && FindActive(d.sessions, command.slot) == Some(s)
    requires CloseSession(d, s, id, command).Some?
    ensures var closed := CloseSession(d, s, id, command).value;
            DomainOk(closed) && ActiveMoves(d.sessions, closed.sessions, command.slot, None) &&
            closed.sessions == d.sessions[s := Closed(d.sessions[s], id, OccurredAt(command))] &&
            closed.nextSession == d.nextSession && closed.cursors == d.cursors && closed.deadlines == d.deadlines &&
            d.sessions[s].entryAt <= OccurredAt(command)
  {
    hide DomainOk, FindActive, ActiveMoves;
    CloseKeeps(d, s, id, command);
  }

  // ---------------------------------------------------------------- Hall observations

  lemma HallArrivalKeeps(d: Domain, id: CommandId, row: Row)
    requires DomainOk(d) && row.command.payload.Hall?
    requires Sequence.Evaluate(CursorOf(d.cursors, row.command.sensor), FactOf(row.command)) == Sequence.Accept
    ensures Good(d, row, HallArrival(d, id, row))
  {
    hide DomainOk, ActiveMoves, FindActive, CommitSequence, CreateSession, Sequence.Evaluate;
    ActiveFacts(d, row.command.slot);
    if FindActive(d.sessions, row.command.slot).Some? {
      var s := FindActive(d.sessions, row.command.slot).value;
      var raised := UpdateHall(d, s, true, true);
      LatchStep(d, s, row.command.slot, raised.sessions[s]);
      SequenceStep(raised, row.command);
    } else if CreateSession(d, id, row.command).Some? {
      CreateStep(d, id, row.command);
      SequenceStep(CreateSession(d, id, row.command).value, row.command);
    }
  }

  lemma CreateStep(d: Domain, id: CommandId, command: Command)
    requires DomainOk(d) && FindActive(d.sessions, command.slot) == None
    requires command.payload.Hall? || command.payload.Camera?
    requires CreateSession(d, id, command).Some?
    ensures var created := CreateSession(d, id, command).value;
            DomainOk(created) && ActiveMoves(d.sessions, created.sessions, command.slot, Some(d.nextSession)) &&
            created.cursors == d.cursors && created.deadlines == d.deadlines && created.bindings == d.bindings &&
            created.observations == d.observations && created.nextSession == d.nextSession + 1 &&
            created.sessions.Keys == d.sessions.Keys + {d.nextSession} &&
            created.sessions[d.nextSession].attempt == Occupancy(id) &&
            ActiveIn(created.sessions[d.nextSession], command.slot)
  {
    hide DomainOk, FindActive, ActiveMoves;
    CreateKeeps(d, id, command);
  }

  lemma VacateKeeps(d: Domain, slot: SlotId)
    requires DomainOk(d) && FindActive(d.sessions, slot) == None && slot in d.slots
    ensures DomainOk(d.(slots := d.slots[slot := SlotVacant]))
  {
    hide SessionsOk, ObservationsOk, DeadlinesOk, BindingsOk, CursorsOk, FindActive;
  }

  lemma EmptyDepartureKeeps(d: Domain, id: CommandId, row: Row)
    requires DomainOk(d) && row.command.payload.Hall? && FindActive(d.sessions, row.command.slot) == None
    requires Sequence.Evaluate(CursorOf(d.cursors, row.command.sensor), FactOf(row.command)) == Sequence.Accept
    ensures Good(d, row, HallDeparture(d, id, row))
  {
    hide DomainOk, ActiveMoves, FindActive, CommitSequence, CloseSession, Sequence.Evaluate;
    var c := row.command;
    ActiveFacts(d, c.slot);
    var vacated := if c.slot in d.slots then d.(slots := d.slots[c.slot := SlotVacant]) else d;
    if c.slot in d.slots { VacateKeeps(d, c.slot); }
    SequenceStep(vacated, c);
  }

  lemma HallDepartureKeeps(d: Domain, id: CommandId, row: Row)
    requires DomainOk(d) && row.command.payload.Hall? && FindActive(d.sessions, row.command.slot).Some?
    requires Sequence.Evaluate(CursorOf(d.cursors, row.command.sensor), FactOf(row.command)) == Sequence.Accept
    ensures Good(d, row, HallDeparture(d, id, row))
  {
    hide DomainOk, ActiveMoves, FindActive, CommitSequence, CloseSession, Sequence.Evaluate;
    var c, s := row.command, FindActive(d.sessions, row.command.slot).value;
    ActiveFacts(d, c.slot);
    SequenceStep(d, c);
    var lowered := UpdateHall(d, s, d.sessions[s].hallConfirmed, false);
    if d.sessions[s].ivaOccupied {
      LatchStep(d, s, c.slot, lowered.sessions[s]);
      SequenceStep(lowered, c);
    }
    CloseIgnoresLatches(d, s, id, c);
    if CloseSession(d, s, id, c).Some? {
      CloseStep(d, s, id, c);
      SequenceStep(CloseSession(d, s, id, c).value, c);
    }
  }

  lemma HallKeeps(d: Domain, id: CommandId, row: Row)
    requires DomainOk(d) && row.command.payload.Hall?
    ensures Good(d, row, ReduceHall(d, id, row))
  {
    hide DomainOk, ActiveMoves, FindActive, HallArrival, HallDeparture, Sequence.Evaluate;
    ActiveFacts(d, row.command.slot);
    if Sequence.Evaluate(CursorOf(d.cursors, row.command.sensor), FactOf(row.command)) == Sequence.Accept {
      HallArrivalKeeps(d, id, row);
      if FindActive(d.sessions, row.command.slot).Some? {
        HallDepartureKeeps(d, id, row);
      } else {
        EmptyDepartureKeeps(d, id, row);
      }
    }
  }

  // ---------------------------------------------------------------- camera observations

  lemma SupersedeStep(d: Domain, slot: SlotId)
    requires DomainOk(d)
    ensures DomainOk(SupersedeScheduled(d, slot))
    ensures SupersedeScheduled(d, slot) == d.(deadlines := SupersedeScheduled(d, slot).deadlines)
    ensures SupersedeScheduled(d, slot).deadlines.Keys == d.deadlines.Keys
  {
    hide DomainOk;
    SettleKeeps(d, SupersedeScheduled(d, slot).deadlines);
  }

  // Every deadline of the slot belongs to an older generation of the camera row.
  ghost predicate Outdates(d: Domain, slot: SlotId, generation: nat) {
    forall x :: x in d.deadlines && x.slot == slot ==> x.generation < generation
  }

  lemma IntrusionOutdates(d: Domain, slot: SlotId, raised: bool)
    requires DomainOk(d)
    requires slot in d.observations && d.observations[slot].state != ObservedOccupied ==> raised
    ensures slot in d.observations ==>
      Outdates(d, slot, if raised then d.observations[slot].generation + 1 else d.observations[slot].generation)
    ensures slot !in d.observations ==> forall generation :: Outdates(d, slot, generation)
  {
    hide SessionsOk, SlotsOk, ObservationsOk, BindingsOk, FindActive, OneLivePerSlot;
  }

  lemma IntrusionOnKeeps(d: Domain, id: CommandId, row: Row, s: SessionId, code: Code, generation: nat,
                         areas: map<string, bool>)
    requires DomainOk(d) && row.command.payload.Camera? && FindActive(d.sessions, row.command.slot) == Some(s)
    requires Outdates(d, row.command.slot, generation)
    ensures var verdict := IntrusionOn(d, id, row, s, d.sessions[s].attempt, code, generation, areas);
            verdict.Commit? ==>
              DomainOk(verdict.domain) && verdict.domain.sessions == d.sessions &&
              verdict.domain.deadlines == d.deadlines && verdict.domain.nextSession == d.nextSession &&
              verdict.outcome.code == code && verdict.outcome.session == Some(s)
  {
    var slot, attempt := row.command.slot, d.sessions[s].attempt;
    var o := Observation(attempt, Some(s), generation, ObservedOccupied, row.command.payload.configured, areas);
    assert CanObserve(d, slot, o);
    hide DomainOk, FindActive, CommitCorrelation, CanObserve, Outdates;
    ObserveKeeps(d, slot, o);
    if CommitCorrelation(Observe(d, slot, o), id, row.command, attempt, s).Some? {
      CorrelationKeeps(Observe(d, slot, o), id, row.command, s);
    }
  }

  lemma CameraIntrusionKeeps(d: Domain, id: CommandId, row: Row, generation: nat, areas: map<string, bool>)
    requires DomainOk(d) && row.command.payload.Camera? && Outdates(d, row.command.slot, generation)
    ensures Good(d, row, CameraIntrusion(d, id, row, generation, areas))
  {
    hide DomainOk, FindActive, ActiveMoves, CreateSession, IntrusionOn, SupersedeScheduled;
    var slot := row.command.slot;
    var superseded := SupersedeScheduled(d, slot);
    SupersedeStep(d, slot);
    ActiveFacts(d, slot);
    if FindActive(d.sessions, slot).Some? {
      var s := FindActive(d.sessions, slot).value;
      var raised := UpdateIva(superseded, s, true, true);
      LatchStep(superseded, s, slot, raised.sessions[s]);
      assert FindActive(raised.sessions, slot) == Some(s) by { MovedTo(d.sessions, raised.sessions, slot, Some(s)); }
      IntrusionOnKeeps(raised, id, row, s, NoChange, generation, areas);
    } else if CreateSession(superseded, id, row.command).Some? {
      var created := CreateSession(superseded, id, row.command).value;
      CreateStep(superseded, id, row.command);
      MovedTo(d.sessions, created.sessions, slot, Some(d.nextSession));
      IntrusionOnKeeps(created, id, row, d.nextSession, SessionStarted, generation, areas);
    }
  }

  lemma MovedTo(before: Sessions, after: Sessions, slot: SlotId, now: Option<SessionId>)
    requires ActiveMoves(before, after, slot, now)
    ensures FindActive(after, slot) == now
  {
    hide FindActive;
  }

  lemma ExitCanObserve(d: Domain, slot: SlotId, o: Observation, area: string)
    requires DomainOk(d) && ObservationOk(o, slot, d.sessions)
    requires slot in d.observations ==>
      var prior := d.observations[slot];
      o.configured == prior.configured && o.areas == prior.areas[area := false] &&
      o.generation == if AreaActive(prior.areas, area) then prior.generation + 1 else prior.generation
    requires AllInactive(o.configured, o.areas) ==> o.state != ObservedOccupied
    ensures CanObserve(d, slot, o)
  {
    hide SessionsOk, SlotsOk, ObservationsOk, BindingsOk, FindActive, OneLivePerSlot;
    forall x | x in d.deadlines && x.slot == slot ensures Outdated(x, o) {
      assert Outdated(x, d.observations[slot]);
    }
  }

  // The exit is read against the camera row it was computed from.
  predicate ExitOf(d: Domain, command: Command, generation: nat, areas: map<string, bool>)
    requires command.payload.Camera?
  {
    command.slot in d.observations ==>
      var prior := d.observations[command.slot];
      command.payload.configured == prior.configured && areas == prior.areas[command.payload.area := false] &&
      generation == if AreaActive(prior.areas, command.payload.area) then prior.generation + 1 else prior.generation
  }

  lemma VacantExitKeeps(d: Domain, row: Row, generation: nat, areas: map<string, bool>)
    requires DomainOk(d) && row.command.payload.Camera? && ExitOf(d, row.command, generation, areas)
    requires FindActive(d.sessions, row.command.slot) == None
    ensures Good(d, row, CameraExit(d, row, generation, areas))
  {
    hide DomainOk, ActiveMoves, LiveOn, CanObserve, FindActive;
    var c := row.command;
    var o := Observation(NoAttempt, None, generation, ObservedVacant, c.payload.configured, areas);
    ActiveFacts(d, c.slot);
    ExitCanObserve(d, c.slot, o, c.payload.area);
    ObserveKeeps(d, c.slot, o);
  }

  lemma QuietExit(d: Domain, c: Command, generation: nat, areas: map<string, bool>, s: SessionId)
    requires DomainOk(d) && c.payload.Camera? && ExitOf(d, c, generation, areas)
    requires FindActive(d.sessions, c.slot) == Some(s)
    ensures var quiet := AllInactive(c.payload.configured, areas);
            var o := Observation(d.sessions[s].attempt, Some(s), generation,
                                 if quiet then VacantPending else ObservedOccupied, c.payload.configured, areas);
            ActiveIn(d.sessions[s], c.slot) && DomainOk(Observe(d, c.slot, o))
  {
    assert ActiveIn(d.sessions[s], c.slot);
    hide DomainOk, CanObserve, FindActive, AllInactive;
    var o := Observation(d.sessions[s].attempt, Some(s), generation,
                         if AllInactive(c.payload.configured, areas) then VacantPending else ObservedOccupied,
                         c.payload.configured, areas);
    ExitCanObserve(d, c.slot, o, c.payload.area);
    ObserveKeeps(d, c.slot, o);
  }

  lemma OccupiedExitKeeps(d: Domain, row: Row, generation: nat, areas: map<string, bool>, s: SessionId)
    requires DomainOk(d) && row.command.payload.Camera? && ExitOf(d, row.command, generation, areas)
    requires FindActive(d.sessions, row.command.slot) == Some(s)
    ensures Good(d, row, CameraExit(d, row, generation, areas))
  {
    hide DomainOk, ActiveMoves, LiveOn, CanObserve, FindActive, AllInactive;
    var c := row.command;
    ActiveFacts(d, c.slot);
    QuietExit(d, c, generation, areas, s);
    var quiet := AllInactive(c.payload.configured, areas);
    var o := Observation(d.sessions[s].attempt, Some(s), generation,
                         if quiet then VacantPending else ObservedOccupied, c.payload.configured, areas);
    if quiet && !LiveOn(d.deadlines, c.slot) && DeadlineId(c.slot, generation, s) !in d.deadlines {
      NewDeadlineKeeps(Observe(d, c.slot, o), c, generation, s);
    }
  }

  lemma NewDeadlineKeeps(d: Domain, c: Command, generation: nat, s: SessionId)
    requires DomainOk(d) && c.payload.Camera? && s in d.sessions && d.sessions[s].slot == c.slot
    requires c.slot in d.observations && d.observations[c.slot].generation == generation
    requires d.observations[c.slot].state == VacantPending
    requires AllInactive(d.observations[c.slot].configured, d.observations[c.slot].areas)
    requires !LiveOn(d.deadlines, c.slot) && DeadlineId(c.slot, generation, s) !in d.deadlines
    ensures forall due, hybrid ::
      DomainOk(d.(deadlines := d.deadlines[DeadlineId(c.slot, generation, s) :=
                                             ExitDeadline(d.sessions[s].attempt, due, hybrid, Scheduled)]))
  {
    hide DomainOk, LiveOn;
    forall due, hybrid ensures
      DomainOk(d.(deadlines := d.deadlines[DeadlineId(c.slot, generation, s) :=
                                             ExitDeadline(d.sessions[s].attempt, due, hybrid, Scheduled)]))
    {
      ScheduleKeeps(d, DeadlineId(c.slot, generation, s),
                    ExitDeadline(d.sessions[s].attempt, due, hybrid, Scheduled));
    }
  }

  lemma EvidenceKeeps(d: Domain, id: CommandId, row: Row)
    requires DomainOk(d) && row.command.payload.Camera?
    ensures Good(d, row, CameraEvidence(d, id, row))
  {
    hide DomainOk, FindActive, ActiveMoves, CommitCorrelation;
    ActiveFacts(d, row.command.slot);
    if FindActive(d.sessions, row.command.slot).Some? {
      var s := FindActive(d.sessions, row.command.slot).value;
      if CommitCorrelation(d, id, row.command, d.sessions[s].attempt, s).Some? {
        CorrelationKeeps(d, id, row.command, s);
      }
    }
  }

  lemma CameraKeeps(d: Domain, id: CommandId, row: Row)
    requires DomainOk(d) && row.command.payload.Camera?
    ensures Good(d, row, ReduceCamera(d, id, row))
  {
    hide DomainOk, FindActive, ActiveMoves, CameraEvidence, CameraIntrusion, CameraExit, Outdates;
    var p, slot := row.command.payload, row.command.slot;
    ActiveFacts(d, slot);
    EvidenceKeeps(d, id, row);
    var known := slot in d.observations;
    if p.authority && !(known && d.observations[slot].configured != p.configured) {
      var generation := if known then d.observations[slot].generation else row.generation;
      var areas := if known then d.observations[slot].areas else map[];
      if p.action == Intrusion {
        var raised := !AreaActive(areas, p.area) || !known || d.observations[slot].state != ObservedOccupied;
        IntrusionOutdates(d, slot, raised);
        CameraIntrusionKeeps(d, id, row, if raised then generation + 1 else generation, areas[p.area := true]);
      } else if p.action == Exit {
        var next := if AreaActive(areas, p.area) then generation + 1 else generation;
        match FindActive(d.sessions, slot)
        case None => VacantExitKeeps(d, row, next, areas[p.area := false]);
        case Some(s) => OccupiedExitKeeps(d, row, next, areas[p.area := false], s);
      }
    }
  }

  // ---------------------------------------------------------------- exit deadlines

  lemma SettleStep(d: Domain, x: DeadlineId, state: DeadlineState)
    requires DomainOk(d) && x in d.deadlines && state != Scheduled && state != Admitted
    ensures DomainOk(SettleDeadline(d, x, state))
  {
    hide DomainOk;
    SettleKeeps(d, SettleDeadline(d, x, state).deadlines);
  }

  lemma StandingExit(d: Domain, row: Row)
    requires DomainOk(d) && row.command.payload.Deadline? && ExitStillStands(d, row)
    ensures var o := d.observations[row.command.slot];
            ObservationOk(o, row.command.slot, d.sessions) && CanObserve(d, row.command.slot, o.(state := ObservedVacant))
  {
    hide SessionsOk, SlotsOk, BindingsOk, OneLivePerSlot, FindActive;
  }

  lemma HeldExitKeeps(d: Domain, row: Row)
    requires DomainOk(d) && row.command.payload.Deadline? && DeadlineOwnsSlot(d, row) && ExitStillStands(d, row)
    requires d.sessions[row.command.payload.session].hallConfirmed
    requires d.sessions[row.command.payload.session].hallOccupied
    ensures var p, slot := row.command.payload, row.command.slot;
            var lowered := SettleDeadline(UpdateIva(d, p.session, d.sessions[p.session].ivaConfirmed, false),
                                          p.deadline, DeadlineApplied);
            var held := Observe(lowered, slot, d.observations[slot].(state := ObservedVacant));
            DomainOk(held) && ActiveMoves(d.sessions, held.sessions, slot, Some(p.session))
  {
    hide DomainOk, FindActive, ActiveMoves, CanObserve;
    var p, slot := row.command.payload, row.command.slot;
    StandingExit(d, row);
    ObserveKeeps(d, slot, d.observations[slot].(state := ObservedVacant));
    var observed := Observe(d, slot, d.observations[slot].(state := ObservedVacant));
    SettleStep(observed, p.deadline, DeadlineApplied);
    var settled := SettleDeadline(observed, p.deadline, DeadlineApplied);
    var held := UpdateIva(settled, p.session, d.sessions[p.session].ivaConfirmed, false);
    LatchStep(settled, p.session, slot, held.sessions[p.session]);
  }

  lemma ClosedExitKeeps(d: Domain, id: CommandId, row: Row)
    requires DomainOk(d) && row.command.payload.Deadline? && DeadlineOwnsSlot(d, row) && ExitStillStands(d, row)
    ensures var p, slot := row.command.payload, row.command.slot;
            var lowered := SettleDeadline(UpdateIva(d, p.session, d.sessions[p.session].ivaConfirmed, false),
                                          p.deadline, DeadlineApplied);
            var closed := CloseSession(lowered, p.session, id, row.command);
            closed.Some? ==>
              var vacant := d.observations[slot].(attempt := NoAttempt, session := None, state := ObservedVacant);
              DomainOk(Observe(closed.value, slot, vacant)) &&
              ActiveMoves(d.sessions, closed.value.sessions, slot, None) &&
              closed.value.nextSession == d.nextSession && closed.value.sessions.Keys == d.sessions.Keys
  {
    hide DomainOk, FindActive, ActiveMoves, CloseSession, SettleDeadline;
    var p, slot := row.command.payload, row.command.slot;
    var settled := SettleDeadline(d, p.deadline, DeadlineApplied);
    SettleCommutes(d, p.session, p.deadline);
    SettleStep(d, p.deadline, DeadlineApplied);
    CloseIgnoresLatches(settled, p.session, id, row.command);
    if CloseSession(settled, p.session, id, row.command).Some? {
      ClearedAlready(settled, p.session, id, row.command);
      CloseStep(settled, p.session, id, row.command);
    }
  }

  lemma SettleCommutes(d: Domain, s: SessionId, x: DeadlineId)
    requires s in d.sessions && x in d.deadlines
    ensures SettleDeadline(UpdateIva(d, s, d.sessions[s].ivaConfirmed, false), x, DeadlineApplied)
         == UpdateIva(SettleDeadline(d, x, DeadlineApplied), s, d.sessions[s].ivaConfirmed, false)
    ensures SettleDeadline(d, x, DeadlineApplied)
         == d.(deadlines := SettleDeadline(d, x, DeadlineApplied).deadlines)
  {
  }

  // Closing already leaves the camera row as the deadline branch writes it.
  lemma ClearedAlready(d: Domain, s: SessionId, id: CommandId, command: Command)
    requires s in d.sessions && CloseSession(d, s, id, command).Some?
    requires command.slot in d.observations && d.observations[command.slot].session == Some(s)
    ensures var closed := CloseSession(d, s, id, command).value;
            Observe(closed, command.slot,
                    d.observations[command.slot].(attempt := NoAttempt, session := None, state := ObservedVacant)) == closed
  {
  }

  lemma DeadlineKeeps(d: Domain, id: CommandId, row: Row)
    requires DomainOk(d) && row.command.payload.Deadline?
    ensures Good(d, row, ReduceDeadline(d, id, row))
  {
    hide DomainOk, FindActive, ActiveMoves, CloseSession;
    ActiveFacts(d, row.command.slot);
    if DeadlineOwnsSlot(d, row) {
      var p := row.command.payload;
      SettleStep(d, p.deadline, Superseded);
      if ExitStillStands(d, row) {
        var active := d.sessions[p.session];
        if active.hallConfirmed && active.hallOccupied { HeldExitKeeps(d, row); }
        ClosedExitKeeps(d, id, row);
      }
    }
  }

  /** Every command, whatever it does, keeps the domain invariant and reports its session faithfully. */
  lemma {:induction false} ReduceKeeps(d: Domain, id: CommandId, row: Row)
    requires DomainOk(d)
    ensures Good(d, row, Reduce(d, id, row))
  {
    hide DomainOk, Good, ReduceHall, ReduceCamera, ReduceDeadline;
    match row.command.payload
    case Hall(_, _, _, _, _) => HallKeeps(d, id, row);
    case Camera(_, _, _, _, _, _, _, _, _, _, _, _) => CameraKeeps(d, id, row);
    case Deadline(_, _, _, _, _) => DeadlineKeeps(d, id, row);
  }
}
