/**
  The occupancy database as the program runs it: one field per table, updated in place.
  A transaction that throws half way is rolled back by its caller. Every method is proved
  to do to the tables exactly what the function of the same step says, so that a step of
  the program is a step of `OccupancyWorld.Exec`.
*/
module OccupancyStore {
  import opened Options
  import opened OccupancyTables
  import opened OccupancyReducer
  import opened OccupancyDomain
  import opened OccupancyInbox
  import opened OccupancyWorld
  import opened OccupancySafety
  import Sequence = SensorSequence

  // How the statements inside a transaction ended: with a result, or with an exception.
  datatype Attempted = Done(outcome: Outcome) | Invalid | Failed

  // The unique index of the lease table.
  ghost predicate UniqueTracks(bindings: Bindings) {
    forall c, e :: c in bindings && e in bindings && OnTrack(bindings[c], bindings[e].attempt, bindings[e].track)
      ==> c == e
  }

  class Store {
    var slots: map<SlotId, SlotStatus>
    var sessions: Sessions
    var nextSession: SessionId
    var observations: map<SlotId, Observation>
    var deadlines: Deadlines
    var bindings: Bindings
    var cursors: map<SensorId, Sequence.Cursor>
    var inbox: Inbox
    ghost var history: History

    function Dom(): Domain
      reads this
    {
      Domain(slots, sessions, nextSession, observations, deadlines, bindings, cursors)
    }

    function Contents(): Tables
      reads this
    {
      Tables(Dom(), inbox)
    }

    ghost function State(): World
      reads this
    {
      World(Contents(), history)
    }

    ghost predicate Valid()
      reads this
    {
      Invariant(State())
    }

    constructor (configured: map<SlotId, SlotStatus>)
      requires forall slot :: slot in configured ==> configured[slot] != SlotOccupied
      ensures Fresh(State()) && Valid() && slots == configured
    {
      slots, sessions, nextSession, observations := configured, map[], 0, map[];
      deadlines, bindings, cursors, inbox := map[], map[], map[], map[];
      history := History(0, map[], map[], map[], map[], []);
      new;
      FreshIsSafe(State());
    }

    // The statements of a transaction did what the reducer says, or threw where it says so.
    ghost predicate Did(verdict: Verdict, result: Attempted)
      reads this
    {
      match verdict
      case Commit(domain, outcome) => result == Done(outcome) && Dom() == domain
      case RejectInvalid => result == Invalid
      case Retry => result == Failed
    }

    // ---------------------------------------------------------------- lookups

    method LookupActive(slot: SlotId) returns (found: Option<SessionId>)
      ensures found == FindActive(sessions, slot)
    {
      found := None;
      var rest := sessions.Keys;
      while rest != {}
        invariant rest <= sessions.Keys
        invariant found.Some? ==> found.value in sessions && ActiveIn(sessions[found.value], slot)
        invariant forall s :: s in sessions && s !in rest && ActiveIn(sessions[s], slot) ==>
                                found.Some? && s <= found.value
        decreases rest
      {
        var s :| s in rest;
        if ActiveIn(sessions[s], slot) && (found.None? || found.value < s) {
          found := Some(s);
        }
        rest := rest - {s};
      }
    }

    method LookupBinding(attempt: Attempt, track: Track) returns (found: Option<string>)
      requires UniqueTracks(bindings)
      ensures found == FindBinding(bindings, attempt, track)
    {
      found := None;
      var rest := bindings.Keys;
      while rest != {} && found.None?
        invariant rest <= bindings.Keys
        invariant found.Some? ==> found.value in bindings && OnTrack(bindings[found.value], attempt, track)
        invariant found.None? ==> forall c :: c in bindings && c !in rest ==> !OnTrack(bindings[c], attempt, track)
        decreases rest
      {
        var c :| c in rest;
        if OnTrack(bindings[c], attempt, track) {
          found := Some(c);
        }
        rest := rest - {c};
      }
    }

    // ---------------------------------------------------------------- statements of a transaction

    method InsertSession(id: CommandId, command: Command) returns (created: Option<SessionId>)
      modifies `slots, `sessions, `nextSession
      ensures created.Some? <==> CreateSession(old(Dom()), id, command).Some?
      ensures created.Some? ==>
        created.value == old(nextSession) && Dom() == CreateSession(old(Dom()), id, command).value
    {
      if command.slot !in slots {
        return None;
      }
      slots := slots[command.slot := SlotOccupied];
      if EntryUsed(sessions, id) {
        return None;
      }
      var hall, camera := command.payload.Hall?, command.payload.Camera?;
      sessions := sessions[nextSession := Session(command.slot, ActiveStatus, Occupancy(id), id, OccurredAt(command),
                                                  None, None, hall, camera, hall, camera)];
      created := Some(nextSession);
      nextSession := nextSession + 1;
    }

    method EndSession(s: SessionId, id: CommandId, command: Command) returns (ended: bool)
      requires s in sessions
      modifies `slots, `sessions, `bindings, `observations
      ensures ended <==> CloseSession(old(Dom()), s, id, command).Some?
      ensures ended ==> Dom() == CloseSession(old(Dom()), s, id, command).value
    {
      var session := sessions[s];
      if OccurredAt(command) < session.entryAt || ExitUsed(sessions, id) {
        return false;
      }
      sessions := sessions[s := Closed(session, id, OccurredAt(command))];
      if command.slot !in slots {
        return false;
      }
      slots := slots[command.slot := SlotVacant];
      bindings := EndBindings(bindings, s, command.slot, session.attempt);
      observations := ClearObservation(observations, command.slot, s);
      ended := true;
    }

    method SetHall(s: SessionId, confirmed: bool, occupied: bool)
      requires s in sessions
      modifies `sessions
      ensures Dom() == UpdateHall(old(Dom()), s, confirmed, occupied)
    {
      sessions := sessions[s := sessions[s].(hallConfirmed := sessions[s].hallConfirmed || confirmed,
                                             hallOccupied := occupied)];
    }

    method SetIva(s: SessionId, confirmed: bool, occupied: bool)
      requires s in sessions
      modifies `sessions
      ensures Dom() == UpdateIva(old(Dom()), s, confirmed, occupied)
    {
      sessions := sessions[s := sessions[s].(ivaConfirmed := sessions[s].ivaConfirmed || confirmed,
                                             ivaOccupied := occupied)];
    }

    method SetCursor(command: Command)
      requires command.payload.Hall?
      modifies `cursors
      ensures Dom() == CommitSequence(old(Dom()), command)
    {
      if command.sequence.None? || command.sensor == "" {
        return;
      }
      var cursor, fact := CursorOf(cursors, command.sensor), FactOf(command);
      if fact.protocol == Sequence.BootEpochV2 && cursor.mode == Sequence.Versioned && cursor.activeBoot.Some?
         && fact.bootId.Some? && cursor.activeBoot.value != fact.bootId.value {
        cursor := cursor.(retired := cursor.retired + {cursor.activeBoot.value});
      }
      var versioned := fact.protocol == Sequence.BootEpochV2;
      cursor := cursor.(mode := if versioned then Sequence.Versioned else Sequence.Legacy,
                        activeBoot := if versioned then fact.bootId else None, last := fact.sequence);
      assert cursor.retired == Sequence.DurableCommitted(CursorOf(cursors, command.sensor), fact).retired;
      cursors := cursors[command.sensor := cursor];
    }

    method SetLease(id: CommandId, command: Command, attempt: Attempt, s: SessionId) returns (leased: Option<string>)
      requires command.payload.Camera? && UniqueTracks(bindings)
      modifies `bindings
      ensures leased.Some? <==> CommitCorrelation(old(Dom()), id, command, attempt, s).Some?
      ensures leased.Some? ==> (Dom(), leased.value) == CommitCorrelation(old(Dom()), id, command, attempt, s).value
    {
      var p := command.payload;
      if !CompleteLease(p) || attempt == NoAttempt {
        return Some("");
      }
      var found := LookupBinding(attempt, p.track);
      if found.Some? {
        var b := bindings[found.value];
        if b.state != Committed || b.session != s || b.slot != command.slot || b.channel != p.channel {
          return None;
        }
        if p.expiresAt > b.expiresAt {
          bindings := bindings[found.value := b.(expiresAt := p.expiresAt, revision := b.revision + 1)];
        }
        return found;
      }
      if p.correlation in bindings || SourceUsed(bindings, id) {
        return None;
      }
      bindings := bindings[p.correlation := Binding(id, attempt, s, command.slot, p.track, p.channel, 1,
                                                    p.expiresAt, Committed)];
      leased := Some(p.correlation);
    }

    // ---------------------------------------------------------------- Hall observations

    method ApplyHall(id: CommandId, row: Row) returns (result: Attempted)
      requires row.command.payload.Hall?
      modifies `slots, `sessions, `nextSession, `observations, `bindings, `cursors
      ensures Did(ReduceHall(old(Dom()), id, row), result)
    {
      hide CreateSession, CloseSession, CommitSequence, UpdateHall, FindActive, GenerationsGrow, Sequence.Evaluate;
      var c := row.command;
      if c.payload.state == HallUnsupported {
        return Invalid;
      }
      if Sequence.Evaluate(CursorOf(cursors, c.sensor), FactOf(c)) != Sequence.Accept {
        return Done(Outcome(NoChange, None, row.attempt, row.generation, row.correlation));
      }
      var active := LookupActive(c.slot);
      if c.payload.state == HallOccupied {
        if active.Some? {
          result := Done(Outcome(NoChange, active, sessions[active.value].attempt, row.generation, row.correlation));
          SetHall(active.value, true, true);
        } else {
          var created := InsertSession(id, c);
          if created.None? {
            return Failed;
          }
          result := Done(Outcome(SessionStarted, created, Occupancy(id), row.generation, row.correlation));
        }
        SetCursor(c);
      } else {
        result := ApplyDeparture(id, row, active);
      }
    }

    method ApplyDeparture(id: CommandId, row: Row, active: Option<SessionId>) returns (result: Attempted)
      requires row.command.payload.Hall? && active == FindActive(sessions, row.command.slot)
      modifies `slots, `sessions, `observations, `bindings, `cursors
      ensures Did(HallDeparture(old(Dom()), id, row), result)
    {
      hide CloseSession, CommitSequence, FindActive, GenerationsGrow;
      var c := row.command;
      if active.None? {
        if c.slot in slots {
          slots := slots[c.slot := SlotVacant];
        }
        SetCursor(c);
        return Done(Outcome(NoChange, None, row.attempt, row.generation, row.correlation));
      }
      var s, session := active.value, sessions[active.value];
      var kept := Outcome(NoChange, active, session.attempt, row.generation, row.correlation);
      if OccurredAt(c) < session.entryAt {
        return Done(kept.(code := RejectedInvalidTimestamp));
      }
      if c.payload.hybrid && !session.hallConfirmed {
        SetCursor(c);
        return Done(kept);
      }
      SetHall(s, session.hallConfirmed, false);
      if c.payload.hybrid && session.ivaConfirmed && session.ivaOccupied {
        SetCursor(c);
        return Done(kept);
      }
      var ended := EndSession(s, id, c);
      if !ended {
        return Failed;
      }
      SetCursor(c);
      result := Done(kept.(code := SessionEnded));
    }

    // ---------------------------------------------------------------- camera observations

    method ApplyCamera(id: CommandId, row: Row) returns (result: Attempted)
      requires row.command.payload.Camera? && UniqueTracks(bindings)
      modifies `slots, `sessions, `nextSession, `observations, `deadlines, `bindings
      ensures Did(ReduceCamera(old(Dom()), id, row), result)
    {
      hide CameraEvidence, CameraIntrusion, CameraExit, FindActive, GenerationsGrow, UniqueTracks;
      var c, p := row.command, row.command.payload;
      if p.configured == [] || p.area == "" {
        return Invalid;
      }
      var active := LookupActive(c.slot);
      if !p.authority {
        result := ApplyEvidence(id, row, active);
        return;
      }
      var generation, attempt, areas := row.generation, row.attempt, map[];
      var known := c.slot in observations;
      if known {
        var observation := observations[c.slot];
        if observation.configured != p.configured {
          return Failed;
        }
        generation, attempt, areas := observation.generation, observation.attempt, observation.areas;
      }
      if p.action == Exit && active.Some? && OccurredAt(c) < sessions[active.value].entryAt {
        return Done(Outcome(RejectedInvalidTimestamp, active, sessions[active.value].attempt, generation,
                            row.correlation));
      }
      if p.action == Enter || (p.action == Exit && !p.authoritativeExit) {
        return Done(Outcome(NoChange, None, attempt, generation, row.correlation));
      }
      if p.action == Intrusion {
        if !AreaActive(areas, p.area) || !known || observations[c.slot].state != ObservedOccupied {
          generation := generation + 1;
        }
        areas := areas[p.area := true];
        result := ApplyIntrusion(id, row, active, generation, areas);
      } else if p.action == Exit {
        if AreaActive(areas, p.area) {
          generation := generation + 1;
        }
        areas := areas[p.area := false];
        result := ApplyCameraExit(row, active, generation, areas);
      } else {
        result := Invalid;
      }
    }

    method ApplyEvidence(id: CommandId, row: Row, active: Option<SessionId>) returns (result: Attempted)
      requires row.command.payload.Camera? && UniqueTracks(bindings)
      requires active == FindActive(sessions, row.command.slot)
      modifies `bindings
      ensures Did(CameraEvidence(old(Dom()), id, row), result)
    {
      hide FindActive, CommitCorrelation, UniqueTracks;
      var p := row.command.payload;
      if p.action != Intrusion || p.track.objectId == "" {
        return Invalid;
      }
      if active.None? {
        return Done(Outcome(NoChange, None, row.attempt, row.generation, row.correlation));
      }
      var leased := SetLease(id, row.command, sessions[active.value].attempt, active.value);
      if leased.None? {
        return Failed;
      }
      result := Done(Outcome(NoChange, active, sessions[active.value].attempt, row.generation, leased.value));
    }

    method ApplyIntrusion(id: CommandId, row: Row, active: Option<SessionId>, generation: nat, areas: map<string, bool>)
      returns (result: Attempted)
      requires row.command.payload.Camera? && UniqueTracks(bindings)
      requires active == FindActive(sessions, row.command.slot)
      modifies `slots, `sessions, `nextSession, `observations, `deadlines, `bindings
      ensures Did(CameraIntrusion(old(Dom()), id, row, generation, areas), result)
    {
      hide FindActive, CommitCorrelation, CreateSession, UniqueTracks, ObservedAt;
      var c := row.command;
      SupersedeExits(c.slot);
      var s, attempt, code;
      if active.Some? {
        s, attempt, code := active.value, sessions[active.value].attempt, NoChange;
        SetIva(s, true, true);
      } else {
        var created := InsertSession(id, c);
        if created.None? {
          return Failed;
        }
        s, attempt, code := created.value, Occupancy(id), SessionStarted;
      }
      observations := observations[c.slot := Observation(attempt, Some(s), generation, ObservedOccupied,
                                                         c.payload.configured, areas)];
      var leased := SetLease(id, c, attempt, s);
      if leased.None? {
        return Failed;
      }
      result := Done(Outcome(code, Some(s), attempt, generation, leased.value));
    }

    method SupersedeExits(slot: SlotId)
      modifies `deadlines
      ensures Dom() == SupersedeScheduled(old(Dom()), slot)
    {
      deadlines := map x | x in deadlines ::
        if x.slot == slot && deadlines[x].state == Scheduled then deadlines[x].(state := Superseded) else deadlines[x];
    }

    method ApplyCameraExit(row: Row, active: Option<SessionId>, generation: nat, areas: map<string, bool>)
      returns (result: Attempted)
      requires row.command.payload.Camera? && active == FindActive(sessions, row.command.slot)
      modifies `observations, `deadlines
      ensures Did(CameraExit(old(Dom()), row, generation, areas), result)
    {
      hide FindActive, ObservedAt, AdmittedKept;
      var c := row.command;
      var configured := c.payload.configured;
      if active.None? {
        observations := observations[c.slot := Observation(NoAttempt, None, generation, ObservedVacant, configured, areas)];
        return Done(Outcome(NoChange, None, NoAttempt, generation, row.correlation));
      }
      var s, attempt := active.value, sessions[active.value].attempt;
      var inactive := AllInactive(configured, areas);
      observations := observations[c.slot := Observation(attempt, Some(s), generation,
                                                         if inactive then VacantPending else ObservedOccupied,
                                                         configured, areas)];
      if !inactive {
        return Done(Outcome(NoChange, Some(s), attempt, generation, row.correlation));
      }
      if !LiveOn(deadlines, c.slot) {
        var x := DeadlineId(c.slot, generation, s);
        if x in deadlines {
          return Failed;
        }
        var due := if c.payload.exitDue.Some? then c.payload.exitDue.value else c.dueAt;
        deadlines := deadlines[x := ExitDeadline(attempt, due, c.payload.hybrid, Scheduled)];
      }
      result := Done(Outcome(ExitScheduled, Some(s), attempt, generation, row.correlation));
    }

    // ---------------------------------------------------------------- exit deadlines

    method ApplyDeadline(id: CommandId, row: Row) returns (result: Attempted)
      requires row.command.payload.Deadline?
      modifies `slots, `sessions, `observations, `deadlines, `bindings
      ensures Did(ReduceDeadline(old(Dom()), id, row), result)
    {
      hide FindActive, AdmittedKept, GenerationsGrow, CloseSession;
      var p, c := row.command.payload, row.command;
      var stale := Outcome(StaleGeneration, None, row.attempt, row.generation, row.correlation);
      if !DeadlineOwnsSlot(Dom(), row) {
        return Done(stale);
      }
      var active := LookupActive(c.slot);
      if !(c.slot in observations && observations[c.slot].attempt == p.attempt
           && observations[c.slot].session == Some(p.session) && observations[c.slot].generation == p.generation
           && observations[c.slot].state == VacantPending
           && active == Some(p.session) && sessions[p.session].attempt == p.attempt) {
        deadlines := deadlines[p.deadline := deadlines[p.deadline].(state := Superseded)];
        return Done(stale);
      }
      result := ApplyStandingExit(id, row);
    }

    method ApplyStandingExit(id: CommandId, row: Row) returns (result: Attempted)
      requires row.command.payload.Deadline? && DeadlineOwnsSlot(Dom(), row) && ExitStillStands(Dom(), row)
      modifies `slots, `sessions, `observations, `deadlines, `bindings
      ensures Did(ApplyExit(old(Dom()), id, row), result)
    {
      hide FindActive, AdmittedKept, GenerationsGrow, CloseSession;
      var p, c := row.command.payload, row.command;
      var session, before := sessions[p.session], observations[c.slot];
      var outcome := Outcome(NoChange, Some(p.session), session.attempt, p.generation, row.correlation);
      SetIva(p.session, session.ivaConfirmed, false);
      deadlines := deadlines[p.deadline := deadlines[p.deadline].(state := DeadlineApplied)];
      if p.hybrid && session.hallConfirmed && session.hallOccupied {
        observations := observations[c.slot := before.(state := ObservedVacant)];
        return Done(outcome);
      }
      var ended := EndSession(p.session, id, c);
      if !ended {
        return Failed;
      }
      observations := observations[c.slot := before.(attempt := NoAttempt, session := None, state := ObservedVacant)];
      result := Done(outcome.(code := SessionEnded));
    }

    // ---------------------------------------------------------------- the apply transaction

    /** Applies one pending command, or rolls every table back to where the transaction began. */
    method ApplySlotTransition(id: CommandId, ghost now: int) returns (code: Option<Code>)
      requires Valid()
      modifies this
      ensures Contents() == Apply(old(Contents()), id)
      ensures code.Some? ==> id in inbox && inbox[id].result == code
      ensures Runnable(old(inbox), now, id) ==>
        Valid() && State() == Exec(old(State()), ApplyCommand(id, now))
    {
      hide Invariant, Exec, ReduceHall, ReduceCamera, ReduceDeadline, AppliedHistory, Runnable;
      ExecApplies(State(), id, now);
      if id !in inbox || inbox[id].status != Pending {
        return if id in inbox then inbox[id].result else None;
      }
      assert UniqueTracks(bindings) by { TracksAreUnique(State()); }
      var row, saved := inbox[id], Dom();
      var result;
      if row.command.payload.Hall? {
        result := ApplyHall(id, row);
      } else if row.command.payload.Camera? {
        result := ApplyCamera(id, row);
      } else {
        result := ApplyDeadline(id, row);
      }
      if result.Done? {
        inbox := inbox[id := Finished(row, result.outcome)];
        code := Some(result.outcome.code);
      } else {
        slots, sessions, nextSession, observations := saved.slots, saved.sessions, saved.nextSession, saved.observations;
        deadlines, bindings, cursors := saved.deadlines, saved.bindings, saved.cursors;
        code := None;
        if result.Invalid? {
          inbox := inbox[id := Rejected(row)];
          code := Some(RejectedInvalidTimestamp);
        }
      }
      history := AppliedHistory(old(State()), id);
      ExecKeeps(old(State()), Action.ApplyCommand(id, now));
    }

    // ---------------------------------------------------------------- admission

    method LookupIdentity(command: Command) returns (found: Option<CommandId>)
      requires UniqueIdentities(inbox)
      ensures found == FindIdentity(inbox, command)
    {
      found := None;
      var rest := inbox.Keys;
      while rest != {} && found.None?
        invariant rest <= inbox.Keys
        invariant found.Some? ==> found.value in inbox && SameIdentity(inbox[found.value].command, command)
        invariant found.None? ==> forall c :: c in inbox && c !in rest ==> !SameIdentity(inbox[c].command, command)
        decreases rest
      {
        var c :| c in rest;
        if SameIdentity(inbox[c].command, command) {
          found := Some(c);
        }
        rest := rest - {c};
      }
      ghost var spec := FindIdentity(inbox, command);
      if spec.Some? && found.Some? {
        assert SameIdentity(inbox[spec.value].command, inbox[found.value].command);
      }
    }

    method LookupCandidate(slot: SlotId) returns (found: Option<CommandId>)
      requires OneCandidatePerSlot(inbox)
      ensures found == FindCandidate(inbox, slot)
    {
      found := None;
      var rest := inbox.Keys;
      while rest != {} && found.None?
        invariant rest <= inbox.Keys
        invariant found.Some? ==> found.value in inbox && IsCandidate(inbox[found.value], slot)
        invariant found.None? ==> forall c :: c in inbox && c !in rest ==> !IsCandidate(inbox[c], slot)
        decreases rest
      {
        var c :| c in rest;
        if IsCandidate(inbox[c], slot) {
          found := Some(c);
        }
        rest := rest - {c};
      }
    }

    method LookupTopOrdinal() returns (top: nat)
      ensures top == TopOrdinal(inbox)
    {
      top := 0;
      var rest := inbox.Keys;
      while rest != {}
        invariant rest <= inbox.Keys
        invariant forall c :: c in inbox && c !in rest ==> inbox[c].ordinal <= top
        invariant top == 0 || exists c :: c in inbox && inbox[c].ordinal == top
        decreases rest
      {
        var c :| c in rest;
        if top < inbox[c].ordinal {
          top := inbox[c].ordinal;
        }
        rest := rest - {c};
      }
    }

    /** Admits one sensor command under the capacity, or says why not and leaves every table alone. */
    method AdmitSlotTransition(name: string, command: Command, capacity: nat, now: int)
      returns (code: AdmissionCode, id: CommandId)
      requires Valid() && !command.payload.Deadline?
      modifies this
      ensures code == Admit(old(Contents()), name, command, capacity, now).code
      ensures id == Admit(old(Contents()), name, command, capacity, now).id
      ensures Contents() == Admit(old(Contents()), name, command, capacity, now).tables
      ensures Valid() && State() == Exec(old(State()), Submit(name, command, capacity, now))
    {
      KeysAreUnique(State());
      ExecKeeps(State(), Submit(name, command, capacity, now));
      hide Invariant, UniqueIdentities, OneCandidatePerSlot, FindIdentity, FindCandidate, TopOrdinal, SourceFact, NewRow;
      hide SameIdentity, IsCandidate, Canceled, Sequence.Evaluate;
      code, id := AdmitInPlace(name, command, capacity, now);
      if code == NewlyAdmitted {
        history := Stamped(history, External(name));
      }
    }

    method AdmitInPlace(name: string, command: Command, capacity: nat, now: int)
      returns (code: AdmissionCode, id: CommandId)
      requires UniqueIdentities(inbox) && OneCandidatePerSlot(inbox) && !command.payload.Deadline?
      modifies `inbox
      ensures Admission(Contents(), code, id) == Admit(old(Contents()), name, command, capacity, now)
    {
      hide UniqueIdentities, OneCandidatePerSlot, FindIdentity, FindCandidate, TopOrdinal, SourceFact, NewRow, PendingIds;
      hide SameIdentity, IsCandidate, Canceled, Sequence.Evaluate;
      id := External(name);
      if name == "" || command.slot == "" || command.identity == "" || capacity == 0 {
        return Conflict, id;
      }
      var found := LookupIdentity(command);
      if found.Some? {
        var stored := inbox[found.value];
        if found.value != id || SourceFact(stored.command) != SourceFact(command) {
          return Conflict, found.value;
        }
        return if stored.status == Pending then Existing else AlreadyTerminal, id;
      }
      var saved, candidate := inbox, None;
      if command.payload.Hall? {
        if command.sensor == "" {
          return Conflict, id;
        }
        var decision := Sequence.Evaluate(CursorOf(cursors, command.sensor), FactOf(command));
        if decision != Sequence.Accept {
          return if decision == Sequence.Decision.Invalid then Conflict else RejectedStale, id;
        }
        if command.payload.state == HallUnsupported {
          return Conflict, id;
        }
        candidate := LookupCandidate(command.slot);
        if command.payload.state == HallOccupied && candidate.Some? {
          return Existing, candidate.value;
        }
        if command.payload.state == HallVacant && candidate.Some?
           && OccurredAt(command) < inbox[candidate.value].command.dueAt {
          inbox := inbox[candidate.value := Canceled(inbox[candidate.value])];
        }
      }
      if |PendingIds(inbox)| >= capacity {
        inbox := saved;
        return CapacityFull, id;
      }
      if id in inbox || command.slot !in slots {
        inbox := saved;
        return RetryableFailure, id;
      }
      var top := LookupTopOrdinal();
      inbox := inbox[id := NewRow(command, top + 1, now)];
      code := NewlyAdmitted;
    }

    // ---------------------------------------------------------------- due exit deadlines

    method EarliestDue(ids: set<DeadlineId>) returns (first: DeadlineId)
      requires ids != {} && ids <= deadlines.Keys
      ensures first in ids && forall x :: x in ids ==> deadlines[first].dueAt <= deadlines[x].dueAt
    {
      first :| first in ids;
      var rest := ids - {first};
      while rest != {}
        invariant rest <= ids && first in ids
        invariant forall x :: x in ids && x !in rest ==> deadlines[first].dueAt <= deadlines[x].dueAt
        decreases rest
      {
        var x :| x in rest;
        if deadlines[x].dueAt < deadlines[first].dueAt {
          first := x;
        }
        rest := rest - {x};
      }
    }

    method SelectDue(capacity: nat, blocked: set<SlotId>, now: int) returns (batch: seq<DeadlineId>)
      ensures DueBatch(Contents(), now, capacity, blocked, batch)
    {
      hide PendingIds;
      batch := [];
      var rest := set x | x in deadlines && IsDue(Dom(), x, now, blocked);
      var room := Room(Contents(), capacity);
      while rest != {} && |batch| < room
        invariant forall x :: x in deadlines && IsDue(Dom(), x, now, blocked) ==> x in rest || x in batch
        invariant forall x :: x in rest ==> IsDue(Dom(), x, now, blocked) && x !in batch
        invariant forall i :: 0 <= i < |batch| ==> IsDue(Dom(), batch[i], now, blocked)
        invariant forall i, j :: 0 <= i < j < |batch| ==>
                                   batch[i] != batch[j] && deadlines[batch[i]].dueAt <= deadlines[batch[j]].dueAt
        invariant forall i, x :: 0 <= i < |batch| && x in rest ==> deadlines[batch[i]].dueAt <= deadlines[x].dueAt
        invariant |batch| <= room
        decreases rest
      {
        var x := EarliestDue(rest);
        batch := batch + [x];
        rest := rest - {x};
      }
    }

    /** Turns the due deadlines, earliest first and as many as there is room for, into pending commands. */
    method AdmitDueDeadlines(capacity: nat, blocked: set<SlotId>, now: int) returns (batch: seq<DeadlineId>)
      requires Valid()
      modifies this
      ensures forall x :: x in batch ==>
        x in old(deadlines) && old(deadlines)[x].state == Scheduled && old(deadlines)[x].dueAt <= now && x.slot !in blocked
      ensures forall x, y :: x in old(deadlines) && old(deadlines)[x].state == Scheduled && old(deadlines)[x].dueAt <= now &&
                             x.slot !in blocked && x !in batch ==>
        |batch| + |PendingIds(old(inbox))| >= capacity &&
        (y in batch ==> old(deadlines)[y].dueAt <= old(deadlines)[x].dueAt)
      ensures batch != [] ==> |batch| + |PendingIds(old(inbox))| <= capacity
      ensures DueBatch(old(Contents()), now, capacity, blocked, batch)
      ensures Valid() && State() == Exec(old(State()), AdmitDeadlines(batch, capacity, blocked, now))
    {
      hide Invariant, DueBatch, AdmitBatch, StampedBatch, TopOrdinal;
      batch := SelectDue(capacity, blocked, now);
      ExecKeeps(State(), AdmitDeadlines(batch, capacity, blocked, now));
      BatchIsKnown(Contents(), now, capacity, blocked, batch);
      BatchSays(Contents(), now, capacity, blocked, batch);
      var ordinal := LookupTopOrdinal();
      InsertBatch(batch, ordinal, now);
      history := StampedBatch(history, batch);
    }

    method InsertBatch(batch: seq<DeadlineId>, top: nat, now: int)
      requires forall i :: 0 <= i < |batch| ==> batch[i] in deadlines
      modifies `deadlines, `inbox
      ensures Contents() == AdmitBatch(old(Contents()), batch, top, now)
    {
      hide NewRow;
      var i, ordinal := 0, top;
      while i < |batch|
        invariant i <= |batch| && ordinal == top + i
        invariant forall k :: 0 <= k < |batch| ==> batch[k] in deadlines
        invariant AdmitBatch(Contents(), batch[i..], ordinal, now) == AdmitBatch(old(Contents()), batch, top, now)
      {
        assert batch[i..][0] == batch[i] && batch[i..][1..] == batch[i + 1..];
        var x := batch[i];
        var id, deadline := ForDeadline(x), deadlines[x];
        ordinal := ordinal + 1;
        if id !in inbox {
          inbox := inbox[id := NewRow(DeadlineCommand(x, deadline), ordinal, now)];
        }
        if deadline.state == Scheduled {
          deadlines := deadlines[x := deadline.(state := Admitted)];
        }
        i := i + 1;
      }
    }

    // ---------------------------------------------------------------- what the actor may do next

    method LowestOrdinal(ids: set<CommandId>) returns (low: CommandId)
      requires ids != {} && ids <= inbox.Keys
      ensures low in ids && forall c :: c in ids ==> inbox[low].ordinal <= inbox[c].ordinal
    {
      low :| low in ids;
      var rest := ids - {low};
      while rest != {}
        invariant rest <= ids && low in ids
        invariant forall c :: c in ids && c !in rest ==> inbox[low].ordinal <= inbox[c].ordinal
        decreases rest
      {
        var c :| c in rest;
        if inbox[c].ordinal < inbox[low].ordinal {
          low := c;
        }
        rest := rest - {c};
      }
    }

    ghost predicate InOrder(ids: seq<CommandId>)
      reads this
    {
      (forall i :: 0 <= i < |ids| ==> ids[i] in inbox) &&
      forall i, j :: 0 <= i < j < |ids| ==> inbox[ids[i]].ordinal <= inbox[ids[j]].ordinal && ids[i] != ids[j]
    }

    method Sorted(chosen: set<CommandId>) returns (ids: seq<CommandId>)
      requires chosen <= inbox.Keys
      ensures forall c :: c in ids <==> c in chosen
      ensures InOrder(ids)
    {
      ids := [];
      var rest := chosen;
      while rest != {}
        invariant rest <= chosen
        invariant forall c :: c in ids <==> c in chosen && c !in rest
        invariant InOrder(ids)
        invariant forall i, c :: 0 <= i < |ids| && c in rest ==> inbox[ids[i]].ordinal <= inbox[c].ordinal
        decreases rest
      {
        var low := LowestOrdinal(rest);
        ids := ids + [low];
        rest := rest - {low};
      }
    }

    /** The heads of the slot queues that are due, in admission order: at most one per slot. */
    method ListRunnable(now: int) returns (ids: seq<CommandId>)
      requires Valid()
      ensures forall c :: c in ids <==>
        c in inbox && inbox[c].status == Pending && inbox[c].command.dueAt <= now && inbox[c].nextTryAt <= now &&
        forall e :: e in inbox && inbox[e].status == Pending && inbox[e].command.slot == inbox[c].command.slot ==>
          inbox[c].ordinal <= inbox[e].ordinal
      ensures forall c :: c in ids <==> Runnable(inbox, now, c)
      ensures InOrder(ids)
      ensures forall i, j :: 0 <= i < j < |ids| ==> inbox[ids[i]].command.slot != inbox[ids[j]].command.slot
    {
      OrdinalsAreUnique(State());
      hide Invariant;
      ids := Sorted(set c | c in inbox && Runnable(inbox, now, c));
      forall i, j | 0 <= i < j < |ids| ensures inbox[ids[i]].command.slot != inbox[ids[j]].command.slot {
        assert ids[i] in ids && ids[j] in ids;
      }
    }

    /** The first uncompleted effect of every slot that may be tried now, in admission order. */
    method ListPendingEffects(now: int) returns (ids: seq<CommandId>)
      requires Valid()
      ensures forall c :: c in ids <==>
        c in inbox && inbox[c].status == Applied && inbox[c].effect == EffectPending && inbox[c].effectAt <= now &&
        forall e :: e in inbox && inbox[e].status == Applied && inbox[e].effect == EffectPending &&
                    inbox[e].command.slot == inbox[c].command.slot ==>
          inbox[c].ordinal <= inbox[e].ordinal
      ensures forall c :: c in ids <==> EffectReady(inbox, now, c)
      ensures InOrder(ids)
      ensures forall i, j :: 0 <= i < j < |ids| ==> inbox[ids[i]].command.slot != inbox[ids[j]].command.slot
    {
      OrdinalsAreUnique(State());
      hide Invariant;
      ids := Sorted(set c | c in inbox && EffectReady(inbox, now, c));
      forall i, j | 0 <= i < j < |ids| ensures inbox[ids[i]].command.slot != inbox[ids[j]].command.slot {
        assert ids[i] in ids && ids[j] in ids;
      }
    }

    // ---------------------------------------------------------------- single-row updates and the purge

    method DeferTransition(id: CommandId, next: int) returns (deferred: bool)
      requires Valid()
      modifies `inbox
      ensures Valid() && State() == Exec(old(State()), DeferCommand(id, next))
      ensures deferred <==> id in old(inbox) && old(inbox)[id].status == Pending
      ensures inbox == if !deferred then old(inbox)
                       else old(inbox)[id := old(inbox)[id].(tries := old(inbox)[id].tries + 1, nextTryAt := next)]
    {
      hide Invariant;
      ExecKeeps(State(), DeferCommand(id, next));
      deferred := id in inbox && inbox[id].status == Pending;
      if deferred {
        inbox := inbox[id := inbox[id].(tries := inbox[id].tries + 1, nextTryAt := next)];
      }
    }

    method CompleteTransitionEffects(id: CommandId, ghost now: int) returns (completed: bool)
      requires Valid()
      modifies `inbox, `history
      ensures Contents() == CompleteEffect(old(Contents()), id)
      ensures completed <==> id in old(inbox) && old(inbox)[id].status == Applied && old(inbox)[id].effect == EffectPending
      ensures inbox == if !completed then old(inbox)
                       else old(inbox)[id := old(inbox)[id].(effect := EffectApplied, effectAt := 0)]
      ensures EffectReady(old(inbox), now, id) ==> Valid() && State() == Exec(old(State()), CompleteEffects(id, now))
    {
      hide Invariant, Exec, EffectReady;
      ExecCompletes(State(), id, now);
      ExecKeeps(State(), CompleteEffects(id, now));
      completed := id in inbox && AwaitsEffect(inbox[id]);
      if completed {
        var slot := inbox[id].command.slot;
        inbox := inbox[id := inbox[id].(effect := EffectApplied, effectAt := 0)];
        history := history.(completed := history.completed[slot := CompletedOf(history, slot) + 1]);
      }
    }

    method DeferTransitionEffects(id: CommandId, next: int) returns (deferred: bool)
      requires Valid()
      modifies `inbox
      ensures Valid() && State() == Exec(old(State()), DeferEffects(id, next))
      ensures deferred <==> id in old(inbox) && old(inbox)[id].status == Applied && old(inbox)[id].effect == EffectPending
      ensures inbox == if !deferred then old(inbox)
                       else old(inbox)[id := old(inbox)[id].(effectTries := old(inbox)[id].effectTries + 1, effectAt := next)]
    {
      hide Invariant;
      ExecKeeps(State(), DeferEffects(id, next));
      deferred := id in inbox && AwaitsEffect(inbox[id]);
      if deferred {
        inbox := inbox[id := inbox[id].(effectTries := inbox[id].effectTries + 1, effectAt := next)];
      }
    }

    method SelectSettled(cutoff: int, limit: nat) returns (doomed: set<CommandId>)
      requires forall c, e :: c in inbox && e in inbox && c != e ==> inbox[c].ordinal != inbox[e].ordinal
      ensures PurgeBatch(inbox, cutoff, limit, doomed)
    {
      doomed := {};
      var rest := set c | c in inbox && Purgeable(inbox[c], cutoff);
      while rest != {} && |doomed| < limit
        invariant rest !! doomed && |doomed| <= limit
        invariant forall c :: c in inbox && Purgeable(inbox[c], cutoff) <==> c in rest || c in doomed
        invariant forall c, e :: c in doomed && e in rest ==> inbox[c].ordinal < inbox[e].ordinal
        decreases rest
      {
        var low := LowestOrdinal(rest);
        rest := rest - {low};
        doomed := doomed + {low};
      }
    }

    /** Deletes the oldest settled rows before the cutoff, at most `limit` of them. */
    method PurgeSettledCommands(cutoff: int, limit: nat) returns (doomed: set<CommandId>)
      requires Valid()
      modifies `inbox
      ensures inbox == old(inbox) - doomed && |doomed| <= limit
      ensures forall c :: c in doomed ==>
        c in old(inbox) && old(inbox)[c].status == Applied && old(inbox)[c].effect != EffectPending &&
        old(inbox)[c].createdAt / 1000 < cutoff / 1000
      ensures forall c, e :: c in old(inbox) && c !in doomed && old(inbox)[c].status == Applied &&
                             old(inbox)[c].effect != EffectPending && old(inbox)[c].createdAt / 1000 < cutoff / 1000 ==>
        |doomed| == limit && (e in doomed ==> old(inbox)[e].ordinal < old(inbox)[c].ordinal)
      ensures PurgeBatch(old(inbox), cutoff, limit, doomed)
      ensures Valid() && State() == Exec(old(State()), PurgeSettled(doomed, cutoff, limit))
    {
      OrdinalsAreUnique(State());
      hide Invariant, PurgeBatch, Exec;
      doomed := SelectSettled(cutoff, limit);
      PurgeSays(inbox, cutoff, limit, doomed);
      ExecPurges(State(), doomed, cutoff, limit);
      ExecKeeps(State(), PurgeSettled(doomed, cutoff, limit));
      inbox := inbox - doomed;
    }
  }

  // The doomed rows are settled before the cutoff, the oldest first, and as many as the limit allows.
  lemma PurgeSays(inbox: Inbox, cutoff: int, limit: nat, doomed: set<CommandId>)
    requires PurgeBatch(inbox, cutoff, limit, doomed)
    ensures |doomed| <= limit
    ensures forall c :: c in doomed ==>
      c in inbox && inbox[c].status == Applied && inbox[c].effect != EffectPending && inbox[c].createdAt / 1000 < cutoff / 1000
    ensures forall c, e :: c in inbox && c !in doomed && inbox[c].status == Applied && inbox[c].effect != EffectPending &&
                           inbox[c].createdAt / 1000 < cutoff / 1000 ==>
      |doomed| == limit && (e in doomed ==> inbox[e].ordinal < inbox[c].ordinal)
  {
  }

  // The batch is due, the earliest first, and as long as the room allows.
  lemma BatchSays(t: Tables, now: int, capacity: nat, blocked: set<SlotId>, batch: seq<DeadlineId>)
    requires DueBatch(t, now, capacity, blocked, batch)
    ensures forall x :: x in batch ==>
      x in t.domain.deadlines && t.domain.deadlines[x].state == Scheduled && t.domain.deadlines[x].dueAt <= now &&
      x.slot !in blocked
    ensures forall x, y :: x in t.domain.deadlines && t.domain.deadlines[x].state == Scheduled &&
                           t.domain.deadlines[x].dueAt <= now && x.slot !in blocked && x !in batch ==>
      |batch| + |PendingIds(t.inbox)| >= capacity &&
      (y in batch ==> t.domain.deadlines[y].dueAt <= t.domain.deadlines[x].dueAt)
    ensures batch != [] ==> |batch| + |PendingIds(t.inbox)| <= capacity
  {
    hide PendingIds;
  }

  lemma BatchIsKnown(t: Tables, now: int, capacity: nat, blocked: set<SlotId>, batch: seq<DeadlineId>)
    requires DueBatch(t, now, capacity, blocked, batch)
    ensures forall i :: 0 <= i < |batch| ==> batch[i] in t.domain.deadlines
  {
    hide PendingIds;
  }

  lemma ExecCompletes(w: World, id: CommandId, now: int)
    ensures EffectReady(w.tables.inbox, now, id) ==>
      id in w.tables.inbox && AwaitsEffect(w.tables.inbox[id]) &&
      var slot := w.tables.inbox[id].command.slot;
      Exec(w, CompleteEffects(id, now)) ==
        World(CompleteEffect(w.tables, id),
              w.history.(completed := w.history.completed[slot := CompletedOf(w.history, slot) + 1]))
  {
  }

  lemma ExecPurges(w: World, doomed: set<CommandId>, cutoff: int, limit: nat)
    requires PurgeBatch(w.tables.inbox, cutoff, limit, doomed)
    ensures Exec(w, PurgeSettled(doomed, cutoff, limit)) == w.(tables := Purge(w.tables, doomed))
  {
    hide PurgeBatch;
  }

  lemma OrdinalsAreUnique(w: World)
    requires Invariant(w)
    ensures forall c, e :: c in w.tables.inbox && e in w.tables.inbox && c != e ==>
      w.tables.inbox[c].ordinal != w.tables.inbox[e].ordinal
  {
    hide DomainOk, InboxOk, LinkOk, HistoryOk, RunningOk, FramesOk;
  }

  lemma KeysAreUnique(w: World)
    requires Invariant(w)
    ensures UniqueIdentities(w.tables.inbox) && OneCandidatePerSlot(w.tables.inbox)
  {
    hide UniqueIdentities, OneCandidatePerSlot;
  }

  lemma TracksAreUnique(w: World)
    requires Invariant(w)
    ensures UniqueTracks(w.tables.domain.bindings)
  {
    hide InboxOk, OrderOk, LinkOk, HistoryOk, RunningOk, FramesOk, SessionsOk, SlotsOk, ObservationsOk, DeadlinesOk;
    hide CursorsOk, BindingOk, OnTrack;
  }

  lemma ExecApplies(w: World, id: CommandId, now: int)
    ensures Runnable(w.tables.inbox, now, id) ==>
      id in w.tables.inbox && w.tables.inbox[id].status == Pending &&
      Exec(w, Action.ApplyCommand(id, now)) == World(Apply(w.tables, id), AppliedHistory(w, id))
  {
    hide Runnable, Apply, AppliedHistory;
    if Runnable(w.tables.inbox, now, id) { RunnableIsPending(w.tables.inbox, now, id); }
  }
}
