/**
  What an applied command leaves behind in the camera row and the deadlines of its slot, in the
  leases, and in its own row of the inbox.
*/
module OccupancyRecords {
  import opened Options
  import opened OccupancyTables
  import opened OccupancyReducer
  import opened OccupancyDomain
  import opened OccupancyInbox
  import opened OccupancyWorld
  import opened OccupancySafety
  import opened OccupancyHybrid
  import opened OccupancyLocality
  import opened OccupancyBlocked
  import opened OccupancyOutcomes
  import Sequence = SensorSequence

  // ---------------------------------------------------------------- the camera row and the deadlines

  // The generation of the camera row, which rises by one with a change.
  function GenerationAfter(d: Domain, row: Row, change: bool): nat {
    var before := if row.command.slot in d.observations then d.observations[row.command.slot].generation else row.generation;
    if change then before + 1 else before
  }

  predicate WasActive(d: Domain, command: Command)
    requires command.payload.Camera?
  {
    command.slot in d.observations && command.payload.area in d.observations[command.slot].areas &&
    d.observations[command.slot].areas[command.payload.area]
  }

  // Nothing changes with an intrusion that only repeats what the camera row says.
  predicate RepeatsIntrusion(d: Domain, command: Command)
    requires command.payload.Camera?
  {
    WasActive(d, command) && d.observations[command.slot].state == ObservedOccupied
  }

  // The camera row after this action, and nothing else of its table.
  predicate CameraRowIs(before: Domain, after: Domain, command: Command, attempt: Attempt, session: Option<SessionId>,
                        generation: nat, state: Observed)
    requires command.payload.Camera?
  {
    after.observations == before.observations[command.slot :=
      Observation(attempt, session, generation, state, command.payload.configured,
                  AreasAfter(before, command, command.payload.action == Intrusion))]
  }

  predicate Superseding(before: Deadlines, after: Deadlines, slot: SlotId) {
    after.Keys == before.Keys &&
    forall x :: x in before ==>
      after[x] == if x.slot == slot && before[x].state == Scheduled then before[x].(state := Superseded) else before[x]
  }

  predicate Scheduling(before: Deadlines, after: Deadlines, x: DeadlineId, deadline: ExitDeadline) {
    if exists y :: y in before && y.slot == x.slot && (before[y].state == Scheduled || before[y].state == Admitted)
    then after == before else after == before[x := deadline]
  }

  ghost predicate IntrusionRecorded(d: Domain, row: Row, verdict: Verdict)
    requires row.command.payload.Camera?
  {
    verdict.Commit? && verdict.outcome.session.Some? && verdict.outcome.session.value in verdict.domain.sessions &&
    CameraRowIs(d, verdict.domain, row.command, verdict.domain.sessions[verdict.outcome.session.value].attempt,
                verdict.outcome.session, GenerationAfter(d, row, !RepeatsIntrusion(d, row.command)), ObservedOccupied) &&
    Superseding(d.deadlines, verdict.domain.deadlines, row.command.slot)
  }

  ghost predicate ExitRecorded(d: Domain, row: Row, verdict: Verdict)
    requires row.command.payload.Camera?
  {
    var c, active := row.command, FindActive(d.sessions, row.command.slot);
    var generation := GenerationAfter(d, row, WasActive(d, row.command));
    verdict.Commit? &&
    match active
    case None =>
      CameraRowIs(d, verdict.domain, c, NoAttempt, None, generation, ObservedVacant) && verdict.domain.deadlines == d.deadlines
    case Some(s) =>
      if Leaves(d, c) then
        CameraRowIs(d, verdict.domain, c, d.sessions[s].attempt, active, generation, VacantPending) &&
        Scheduling(d.deadlines, verdict.domain.deadlines, DeadlineId(c.slot, generation, s),
                   ExitDeadline(d.sessions[s].attempt,
                                if c.payload.exitDue.Some? then c.payload.exitDue.value else c.dueAt,
                                c.payload.hybrid, Scheduled))
      else
        CameraRowIs(d, verdict.domain, c, d.sessions[s].attempt, active, generation, ObservedOccupied) &&
        verdict.domain.deadlines == d.deadlines
  }

  lemma SupersedeIs(d: Domain, slot: SlotId)
    ensures Superseding(d.deadlines, SupersedeScheduled(d, slot).deadlines, slot)
    ensures SupersedeScheduled(d, slot) == d.(deadlines := SupersedeScheduled(d, slot).deadlines)
  {
  }

  lemma ObservingRecorded(d: Domain, before: Domain, id: CommandId, row: Row, s: SessionId, code: Code, generation: nat,
                          areas: map<string, bool>)
    requires row.command.payload.Camera? && s in before.sessions && before.observations == d.observations
    requires row.command.payload.action == Intrusion && areas == AreasAfter(d, row.command, true)
    ensures var verdict := IntrusionOn(before, id, row, s, before.sessions[s].attempt, code, generation, areas);
            verdict.Commit? ==>
              verdict.outcome.session == Some(s) && verdict.domain.sessions == before.sessions &&
              verdict.domain.deadlines == before.deadlines &&
              CameraRowIs(d, verdict.domain, row.command, before.sessions[s].attempt, Some(s), generation, ObservedOccupied)
  {
    hide CommitCorrelation, ObservedAt, AreasAfter;
  }

  lemma IntrudedRecorded(d: Domain, id: CommandId, row: Row, areas: map<string, bool>)
    requires row.command.payload.Camera? && row.command.payload.action == Intrusion
    requires areas == AreasAfter(d, row.command, true)
    ensures var generation := GenerationAfter(d, row, !RepeatsIntrusion(d, row.command));
            var verdict := CameraIntrusion(d, id, row, generation, areas);
            verdict.Commit? ==> IntrusionRecorded(d, row, verdict)
  {
    hide FindActive, CreateSession, SupersedeScheduled, IntrusionOn, ObservedAt, CameraRowIs, Superseding, EntryUsed;
    hide AreasAfter, GenerationAfter, RepeatsIntrusion;
    var slot := row.command.slot;
    var superseded := SupersedeScheduled(d, slot);
    SupersedeIs(d, slot);
    var generation := GenerationAfter(d, row, !RepeatsIntrusion(d, row.command));
    match FindActive(d.sessions, slot)
    case Some(s) => ObservingRecorded(d, UpdateIva(superseded, s, true, true), id, row, s, NoChange, generation, areas);
    case None =>
      if CreateSession(superseded, id, row.command).Some? {
        NewSession(superseded, id, row.command);
        ObservingRecorded(d, CreateSession(superseded, id, row.command).value, id, row, d.nextSession, SessionStarted,
                          generation, areas);
      }
  }

  lemma NewSession(d: Domain, id: CommandId, command: Command)
    requires CreateSession(d, id, command).Some?
    ensures var created := CreateSession(d, id, command).value;
            d.nextSession in created.sessions && created.sessions[d.nextSession].attempt == Occupancy(id) &&
            created.deadlines == d.deadlines && created.observations == d.observations
  {
    hide EntryUsed;
  }

  lemma LeftRecorded(d: Domain, row: Row, areas: map<string, bool>)
    requires Observes(d, row.command, Exit) && row.command.payload.authoritativeExit && !Early(d, row.command)
    requires areas == AreasAfter(d, row.command, false)
    ensures var generation := GenerationAfter(d, row, WasActive(d, row.command));
            CameraExit(d, row, generation, areas).Commit? ==>
              ExitRecorded(d, row, CameraExit(d, row, generation, areas))
  {
    hide FindActive, ObservedAt, AdmittedKept, AreasAfter, WasActive, GenerationAfter;
  }

  // What a camera command does to the camera rows and the deadlines.
  ghost predicate CameraRecorded(d: Domain, row: Row, verdict: Verdict) {
    verdict.Commit? && row.command.payload.Camera? ==>
      if Observes(d, row.command, Intrusion) then IntrusionRecorded(d, row, verdict)
      else if Observes(d, row.command, Exit) && row.command.payload.authoritativeExit && !Early(d, row.command)
      then ExitRecorded(d, row, verdict)
      else verdict.domain.observations == d.observations && verdict.domain.deadlines == d.deadlines
  }

  /**
    An applied camera action leaves exactly this in the camera row and the deadlines of its slot: an
    intrusion supersedes every scheduled deadline; an exit with every configured area inactive waits,
    and schedules one deadline at the time it carries unless one is live; other actions change nothing.
  */
  lemma {:induction false} CameraRowFollows(d: Domain, id: CommandId, row: Row)
    ensures CameraRecorded(d, row, Reduce(d, id, row))
  {
    hide FindActive, CameraEvidence, CameraIntrusion, CameraExit, GenerationsGrow, ObservedAt, AdmittedKept;
    hide IntrusionRecorded, ExitRecorded;
    if row.command.payload.Camera? {
      if Observes(d, row.command, Intrusion) {
        IntrudedRecorded(d, id, row, AreasAfter(d, row.command, true));
      } else if Observes(d, row.command, Exit) && row.command.payload.authoritativeExit && !Early(d, row.command) {
        LeftRecorded(d, row, AreasAfter(d, row.command, false));
      }
    }
  }

  /** An applied deadline settles its own row only: applied if its exit still stands, superseded if it is stale. */
  lemma {:induction false} DeadlineRowFollows(d: Domain, id: CommandId, row: Row)
    requires DomainOk(d) && row.command.payload.Deadline? && Reduce(d, id, row).Commit?
    ensures var x, after := row.command.payload.deadline, Reduce(d, id, row).domain;
            if !OwnsDeadline(d, row.command) then after == d
            else
              x in d.deadlines &&
              after.deadlines == d.deadlines[x := d.deadlines[x].(state := if Due(d, row.command) then DeadlineApplied
                                                                          else Superseded)] &&
              if !Due(d, row.command) then after == d.(deadlines := after.deadlines)
              else row.command.slot in after.observations && after.observations[row.command.slot].state == ObservedVacant
  {
    hide DomainOk, FindActive, ExitStillStands, CloseSession, GenerationsGrow, AdmittedKept;
    assert DeadlineOwnsSlot(d, row) <==> OwnsDeadline(d, row.command);
    if DeadlineOwnsSlot(d, row) { StandsIff(d, row); }
  }

  // ---------------------------------------------------------------- leases

  // The command names a camera track completely and an expiry.
  predicate NamesTrack(command: Command) {
    command.payload.Camera? && command.payload.correlation != "" && command.payload.channel != "" &&
    command.payload.track.camera != "" && command.payload.track.source != "" && command.payload.track.rule != "" &&
    command.payload.track.objectId != "" && command.payload.expiresAt > 0
  }

  // The track is leased to the session under this correlation, at least until the command says.
  predicate LeasedTo(before: Bindings, after: Bindings, c: string, id: CommandId, command: Command, s: SessionId, attempt: Attempt)
    requires command.payload.Camera?
  {
    var p := command.payload;
    c in after &&
    if c in before then
      after == before[c := before[c].(expiresAt := after[c].expiresAt, revision := after[c].revision)] &&
      before[c].attempt == attempt && before[c].track == p.track && before[c].session == s &&
      before[c].slot == command.slot && before[c].channel == p.channel && before[c].state == Committed &&
      (if p.expiresAt > before[c].expiresAt
       then after[c].expiresAt == p.expiresAt && after[c].revision == before[c].revision + 1
       else after[c].expiresAt == before[c].expiresAt && after[c].revision == before[c].revision)
    else
      c == p.correlation &&
      after == before[c := Binding(id, attempt, s, command.slot, p.track, p.channel, 1, p.expiresAt, Committed)]
  }

  lemma CorrelationFollows(d: Domain, id: CommandId, command: Command, attempt: Attempt, s: SessionId)
    requires command.payload.Camera? && attempt != NoAttempt && CommitCorrelation(d, id, command, attempt, s).Some?
    ensures var (after, c) := CommitCorrelation(d, id, command, attempt, s).value;
            if NamesTrack(command) then LeasedTo(d.bindings, after.bindings, c, id, command, s, attempt)
            else after.bindings == d.bindings && c == ""
  {
    hide SourceUsed;
    if NamesTrack(command) && FindBinding(d.bindings, attempt, command.payload.track).Some? {
      var c := FindBinding(d.bindings, attempt, command.payload.track).value;
      assert d.bindings[c := d.bindings[c].(expiresAt := d.bindings[c].expiresAt, revision := d.bindings[c].revision)] == d.bindings;
    }
  }

  // The lease that a camera command takes, if it is one that takes leases and a session runs for it.
  ghost predicate LeaseTaken(d: Domain, id: CommandId, command: Command, verdict: Verdict) {
    verdict.Commit? && command.payload.Camera? ==>
      if verdict.outcome.session.Some? && command.payload.action == Intrusion && NamesTrack(command)
      then
        verdict.outcome.session.value in verdict.domain.sessions &&
        LeasedTo(d.bindings, verdict.domain.bindings, verdict.outcome.correlation, id, command, verdict.outcome.session.value,
                 verdict.domain.sessions[verdict.outcome.session.value].attempt)
      else verdict.domain.bindings == d.bindings
  }

  lemma EvidenceTakes(d: Domain, id: CommandId, row: Row)
    requires DomainOk(d) && row.command.payload.Camera?
    ensures LeaseTaken(d, id, row.command, CameraEvidence(d, id, row))
  {
    hide DomainOk, FindActive, CommitCorrelation, LeasedTo, NamesTrack;
    if FindActive(d.sessions, row.command.slot).Some? {
      ActiveSession(d, row.command.slot);
      var s := FindActive(d.sessions, row.command.slot).value;
      if CommitCorrelation(d, id, row.command, d.sessions[s].attempt, s).Some? {
        CorrelationFollows(d, id, row.command, d.sessions[s].attempt, s);
      }
    }
  }

  lemma IntrusionOnTakes(d: Domain, before: Domain, id: CommandId, row: Row, s: SessionId, code: Code, generation: nat,
                         areas: map<string, bool>)
    requires row.command.payload.Camera? && row.command.payload.action == Intrusion
    requires s in before.sessions && before.bindings == d.bindings && before.sessions[s].attempt != NoAttempt
    ensures LeaseTaken(d, id, row.command,
                       IntrusionOn(before, id, row, s, before.sessions[s].attempt, code, generation, areas))
  {
    hide CommitCorrelation, LeasedTo, NamesTrack, ObservedAt;
    var attempt := before.sessions[s].attempt;
    var observed := Observe(before, row.command.slot,
                            Observation(attempt, Some(s), generation, ObservedOccupied, row.command.payload.configured, areas));
    if CommitCorrelation(observed, id, row.command, attempt, s).Some? {
      CorrelationFollows(observed, id, row.command, attempt, s);
    }
  }

  lemma IntrusionTakes(d: Domain, id: CommandId, row: Row, generation: nat, areas: map<string, bool>)
    requires DomainOk(d) && row.command.payload.Camera? && row.command.payload.action == Intrusion
    ensures LeaseTaken(d, id, row.command, CameraIntrusion(d, id, row, generation, areas))
  {
    hide DomainOk, FindActive, CreateSession, SupersedeScheduled, IntrusionOn, ObservedAt, LeaseTaken, EntryUsed;
    var slot := row.command.slot;
    var superseded := SupersedeScheduled(d, slot);
    SupersedeIs(d, slot);
    match FindActive(d.sessions, slot)
    case Some(s) =>
      ActiveSession(d, slot);
      IntrusionOnTakes(d, UpdateIva(superseded, s, true, true), id, row, s, NoChange, generation, areas);
    case None =>
      if CreateSession(superseded, id, row.command).Some? {
        NewSession(superseded, id, row.command);
        IntrusionOnTakes(d, CreateSession(superseded, id, row.command).value, id, row, d.nextSession, SessionStarted,
                         generation, areas);
      } else { assert LeaseTaken(d, id, row.command, Retry) by { RetryTakesNothing(d, id, row.command); } }
  }

  lemma RetryTakesNothing(d: Domain, id: CommandId, command: Command)
    ensures LeaseTaken(d, id, command, Retry) && LeaseTaken(d, id, command, RejectInvalid)
  {
  }

  /**
    An applied intrusion for which a session runs leases the camera track it names to that session:
    a new lease, or the old one, whose expiry only moves on and with its revision. Every other camera
    command leaves the leases alone.
  */
  lemma {:induction false} LeaseFollows(d: Domain, id: CommandId, row: Row)
    requires DomainOk(d)
    ensures LeaseTaken(d, id, row.command, Reduce(d, id, row))
  {
    hide DomainOk, FindActive, CameraEvidence, CameraIntrusion, CameraExit, GenerationsGrow, ObservedAt, AdmittedKept;
    hide LeasedTo, NamesTrack;
    if row.command.payload.Camera? {
      EvidenceTakes(d, id, row);
      if row.command.payload.action == Intrusion {
        forall generation, areas ensures LeaseTaken(d, id, row.command, CameraIntrusion(d, id, row, generation, areas)) {
          IntrusionTakes(d, id, row, generation, areas);
        }
      }
    }
  }

  // Every committed lease of the session ends, and no other lease changes.
  predicate LeasesEnded(before: Bindings, after: Bindings, s: SessionId) {
    after.Keys == before.Keys &&
    forall c :: c in before ==>
      after[c] == if before[c].session == s && before[c].state == Committed then before[c].(state := BindingEnded)
                  else before[c]
  }

  lemma ClosingEndsLeases(d: Domain, s: SessionId, id: CommandId, command: Command)
    requires DomainOk(d) && s in d.sessions && d.sessions[s].slot == command.slot
    requires CloseSession(d, s, id, command).Some?
    ensures LeasesEnded(d.bindings, CloseSession(d, s, id, command).value.bindings, s)
  {
    hide SessionsOk, SlotsOk, ObservationsOk, DeadlinesOk, CursorsOk, ExitUsed, ClearObservation, GenerationsGrow;
    forall c | c in d.bindings ensures BindingOk(d.bindings[c], d.sessions) {}
  }

  // A Hall frame or a deadline ends the leases of the session that it ends, and touches no other lease.
  ghost predicate LeasesEndWith(d: Domain, verdict: Verdict) {
    verdict.Commit? ==>
      if verdict.outcome.code == SessionEnded
      then verdict.outcome.session.Some? && LeasesEnded(d.bindings, verdict.domain.bindings, verdict.outcome.session.value)
      else verdict.domain.bindings == d.bindings
  }

  lemma HallEndsLeases(d: Domain, id: CommandId, row: Row)
    requires DomainOk(d) && row.command.payload.Hall?
    ensures LeasesEndWith(d, ReduceHall(d, id, row))
  {
    hide DomainOk, FindActive, HallFrame, CloseSession, CreateSession, LeasesEnded, Sequence.Evaluate, CommitSequence;
    if FindActive(d.sessions, row.command.slot).Some? {
      var s := FindActive(d.sessions, row.command.slot).value;
      ActiveSession(d, row.command.slot);
      CloseIgnoresLatches(d, s, id, row.command);
      if CloseSession(d, s, id, row.command).Some? { ClosingEndsLeases(d, s, id, row.command); }
    }
  }

  lemma DeadlineEndsLeases(d: Domain, id: CommandId, row: Row)
    requires DomainOk(d) && row.command.payload.Deadline?
    ensures LeasesEndWith(d, ReduceDeadline(d, id, row))
  {
    hide DomainOk, FindActive, CloseSession, LeasesEnded, GenerationsGrow, AdmittedKept;
    var p := row.command.payload;
    if DeadlineOwnsSlot(d, row) && ExitStillStands(d, row) {
      ActiveSession(d, row.command.slot);
      SettledClose(d, p.session, id, row.command, p.deadline);
      CloseIgnoresLatches(d, p.session, id, row.command);
      if CloseSession(d, p.session, id, row.command).Some? { ClosingEndsLeases(d, p.session, id, row.command); }
    }
  }

  /** The end of a session ends exactly its leases; no other Hall frame and no other deadline touches a lease. */
  lemma {:induction false} LeasesEndWithSession(d: Domain, id: CommandId, row: Row)
    requires DomainOk(d) && !row.command.payload.Camera?
    ensures LeasesEndWith(d, Reduce(d, id, row))
  {
    hide DomainOk, ReduceHall, ReduceDeadline, LeasesEndWith;
    if row.command.payload.Hall? { HallEndsLeases(d, id, row); } else { DeadlineEndsLeases(d, id, row); }
  }

  // ---------------------------------------------------------------- the row of the command

  /**
    An applied command becomes terminal with its result, session, attempt, generation and correlation,
    and waits for its effect exactly if it started or ended a session; a faulty one is rejected.
    No other row changes.
  */
  lemma {:induction false} AppliedRowSays(w: World, action: Action)
    requires Invariant(w) && StepApplies(w, action)
    ensures action.id in w.tables.inbox && action.id in Exec(w, action).tables.inbox
    ensures var before, after := w.tables.inbox[action.id], Exec(w, action).tables.inbox[action.id];
            match Reduce(w.tables.domain, action.id, before)
            case Commit(_, outcome) =>
              after.status == (if outcome.code == RejectedInvalidTimestamp then RejectedInvalid else Applied) &&
              after.result == Some(outcome.code) && after.session == outcome.session && after.attempt == outcome.attempt &&
              after.generation == outcome.generation && after.correlation == outcome.correlation &&
              after.effect == (if outcome.code == SessionStarted || outcome.code == SessionEnded then EffectPending
                               else NoEffect) &&
              after.effectAt == 0 && after.command == before.command && after.ordinal == before.ordinal
            case RejectInvalid =>
              after == before.(status := RejectedInvalid, result := Some(RejectedInvalidTimestamp))
            case Retry => after == before
    ensures Exec(w, action).tables.inbox ==
            w.tables.inbox[action.id := Exec(w, action).tables.inbox[action.id]]
  {
    RunnableIsPending(w.tables.inbox, action.now, action.id);
    hide Invariant, Reduce, AppliedHistory, Runnable;
  }

  /** The overstay timer marks a session that runs and is not marked yet, and changes nothing else. */
  lemma {:induction false} TimerMarks(w: World, s: SessionId)
    ensures var sessions := w.tables.domain.sessions; var after := Exec(w, OverstayTimer(s));
            after == if s in sessions && sessions[s].status == ActiveStatus && sessions[s].exitAt.None?
                     then w.(tables := w.tables.(domain := w.tables.domain.(
                            sessions := sessions[s := sessions[s].(status := ViolationStatus)])))
                     else w
  {
  }
}
