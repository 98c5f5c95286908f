/**
  What applying one command does to the domain tables. Every table operation of the
  transaction is one function; `Reduce` composes them branch by branch. A transaction
  that throws leaves no domain behind: it is `RejectInvalid` (the command is at fault
  and becomes terminal) or `Retry` (the command stays pending).
*/
module OccupancyReducer {
  import opened Options
  import opened OccupancyTables
  import Sequence = SensorSequence

  datatype Outcome = Outcome(code: Code, session: Option<SessionId>, attempt: Attempt, generation: nat,
                             correlation: string)
  datatype Verdict = Commit(domain: Domain, outcome: Outcome) | RejectInvalid | Retry

  // ---------------------------------------------------------------- table operations

  ghost function CreateSession(d: Domain, id: CommandId, command: Command): (created: Option<Domain>)
    ensures created.Some? ==>
      created.value == d.(slots := created.value.slots, sessions := created.value.sessions,
                          nextSession := d.nextSession + 1)
  {
    if command.slot !in d.slots || EntryUsed(d.sessions, id) then None
    else
      var session := Session(command.slot, ActiveStatus, Occupancy(id), id, OccurredAt(command), None, None,
                             command.payload.Hall?, command.payload.Camera?,
                             command.payload.Hall?, command.payload.Camera?);
      Some(d.(slots := d.slots[command.slot := SlotOccupied],
              sessions := d.sessions[d.nextSession := session],
              nextSession := d.nextSession + 1))
  }

  // The camera generation of a slot never falls.
  predicate GenerationsGrow(before: map<SlotId, Observation>, after: map<SlotId, Observation>) {
    forall slot :: slot in before ==> slot in after && before[slot].generation <= after[slot].generation
  }

  function EndBindings(bindings: Bindings, session: SessionId, slot: SlotId, attempt: Attempt): Bindings {
    map c | c in bindings ::
      if bindings[c].state == Committed && bindings[c].session == session &&
         bindings[c].slot == slot && bindings[c].attempt == attempt
      then bindings[c].(state := BindingEnded) else bindings[c]
  }

  function ClearObservation(observations: map<SlotId, Observation>, slot: SlotId, session: SessionId)
    : map<SlotId, Observation>
  {
    if slot in observations && observations[slot].session == Some(session)
    then observations[slot := observations[slot].(attempt := NoAttempt, session := None, state := ObservedVacant)]
    else observations
  }

  function Closed(session: Session, id: CommandId, at: int): Session {
    session.(status := EndedStatus, exitAt := Some(at), exitCommand := Some(id),
             hallOccupied := false, ivaOccupied := false)
  }

  // The whole closing step: the session, the slot row, its leases and its camera observation.
  ghost function CloseSession(d: Domain, s: SessionId, id: CommandId, command: Command): (closed: Option<Domain>)
    requires s in d.sessions
    ensures closed.Some? ==>
      closed.value.deadlines == d.deadlines && closed.value.cursors == d.cursors &&
      closed.value.nextSession == d.nextSession && GenerationsGrow(d.observations, closed.value.observations)
  {
    var session := d.sessions[s];
    if OccurredAt(command) < session.entryAt || ExitUsed(d.sessions, id) || command.slot !in d.slots then None
    else Some(d.(sessions := d.sessions[s := Closed(session, id, OccurredAt(command))],
                 slots := d.slots[command.slot := SlotVacant],
                 bindings := EndBindings(d.bindings, s, command.slot, session.attempt),
                 observations := ClearObservation(d.observations, command.slot, s)))
  }

  function UpdateHall(d: Domain, s: SessionId, confirmed: bool, occupied: bool): Domain
    requires s in d.sessions
  {
    var session := d.sessions[s];
    d.(sessions := d.sessions[s := session.(hallConfirmed := session.hallConfirmed || confirmed,
                                            hallOccupied := occupied)])
  }

  function UpdateIva(d: Domain, s: SessionId, confirmed: bool, occupied: bool): Domain
    requires s in d.sessions
  {
    var session := d.sessions[s];
    d.(sessions := d.sessions[s := session.(ivaConfirmed := session.ivaConfirmed || confirmed,
                                            ivaOccupied := occupied)])
  }

  function Observe(d: Domain, slot: SlotId, observation: Observation): Domain {
    d.(observations := d.observations[slot := observation])
  }

  function CommitSequence(d: Domain, command: Command): (committed: Domain)
    requires command.payload.Hall?
    ensures committed == d.(cursors := committed.cursors)
  {
    if command.sequence.None? || command.sensor == "" then d
    else d.(cursors := d.cursors[command.sensor :=
              Sequence.DurableCommitted(CursorOf(d.cursors, command.sensor), FactOf(command))])
  }

  function SupersedeScheduled(d: Domain, slot: SlotId): Domain {
    d.(deadlines := map x | x in d.deadlines ::
         if x.slot == slot && d.deadlines[x].state == Scheduled
         then d.deadlines[x].(state := Superseded) else d.deadlines[x])
  }

  function SettleDeadline(d: Domain, deadline: DeadlineId, state: DeadlineState): Domain
    requires deadline in d.deadlines
  {
    d.(deadlines := d.deadlines[deadline := d.deadlines[deadline].(state := state)])
  }

  predicate CompleteLease(payload: Payload)
    requires payload.Camera?
  {
    payload.correlation != "" && payload.track.camera != "" && payload.channel != "" &&
    payload.track.source != "" && payload.track.rule != "" && payload.track.objectId != "" &&
    payload.expiresAt > 0
  }

  // The lease of this camera track on session s: refreshed when it exists, inserted otherwise.
  ghost function CommitCorrelation(d: Domain, id: CommandId, command: Command, attempt: Attempt, s: SessionId)
    : (leased: Option<(Domain, string)>)
    requires command.payload.Camera?
    ensures leased.Some? ==> leased.value.0 == d.(bindings := leased.value.0.bindings)
  {
    var p := command.payload;
    if !CompleteLease(p) || attempt == NoAttempt then Some((d, ""))
    else match FindBinding(d.bindings, attempt, p.track)
      case Some(c) =>
        var b := d.bindings[c];
        if b.state != Committed || b.session != s || b.slot != command.slot || b.channel != p.channel then None
        else if p.expiresAt > b.expiresAt then
          Some((d.(bindings := d.bindings[c := b.(expiresAt := p.expiresAt, revision := b.revision + 1)]), c))
        else Some((d, c))
      case None =>
        if p.correlation in d.bindings || SourceUsed(d.bindings, id) then None
        else
          var b := Binding(id, attempt, s, command.slot, p.track, p.channel, 1, p.expiresAt, Committed);
          Some((d.(bindings := d.bindings[p.correlation := b]), p.correlation))
  }

  // What a transition may do to the exit deadlines: admitted ones stay so except `spent`, and a new
  // one is scheduled under the policy of the command that made it.
  predicate AdmittedKept(before: Deadlines, after: Deadlines, spent: set<DeadlineId>, hybrid: bool) {
    (forall x :: x in before ==>
       x in after && after[x].attempt == before[x].attempt && after[x].hybrid == before[x].hybrid &&
       after[x].dueAt == before[x].dueAt &&
       (after[x].state == Admitted <==> before[x].state == Admitted && x !in spent) &&
       (after[x].state == Scheduled ==> before[x].state == Scheduled)) &&
    (forall x :: x in after && x !in before ==> after[x].state == Scheduled && after[x].hybrid == hybrid)
  }

  // A Hall verdict leaves the deadlines alone, and it commits the cursor unless it changes nothing.
  predicate HallFrame(d: Domain, command: Command, verdict: Verdict)
    requires command.payload.Hall?
  {
    verdict.Commit? ==>
      verdict.domain.deadlines == d.deadlines && GenerationsGrow(d.observations, verdict.domain.observations) &&
      (verdict.domain == d || verdict.domain.cursors == CommitSequence(d, command).cursors)
  }

  // ---------------------------------------------------------------- Hall observations

  ghost function ReduceHall(d: Domain, id: CommandId, row: Row): (verdict: Verdict)
    requires row.command.payload.Hall?
    ensures HallFrame(d, row.command, verdict)
  {
    var c := row.command;
    if c.payload.state == HallUnsupported then RejectInvalid
    else if Sequence.Evaluate(CursorOf(d.cursors, c.sensor), FactOf(c)) != Sequence.Accept then
      Commit(d, Outcome(NoChange, None, row.attempt, row.generation, row.correlation))
    else if c.payload.state == HallOccupied then HallArrival(d, id, row)
    else HallDeparture(d, id, row)
  }

  ghost function HallArrival(d: Domain, id: CommandId, row: Row): (verdict: Verdict)
    requires row.command.payload.Hall?
    ensures HallFrame(d, row.command, verdict)
  {
    match FindActive(d.sessions, row.command.slot)
    case Some(s) =>
      Commit(CommitSequence(UpdateHall(d, s, true, true), row.command),
             Outcome(NoChange, Some(s), d.sessions[s].attempt, row.generation, row.correlation))
    case None =>
      match CreateSession(d, id, row.command)
      case None => Retry
      case Some(created) =>
        Commit(CommitSequence(created, row.command),
               Outcome(SessionStarted, Some(d.nextSession), Occupancy(id), row.generation, row.correlation))
  }

  ghost function HallDeparture(d: Domain, id: CommandId, row: Row): (verdict: Verdict)
    requires row.command.payload.Hall?
    ensures HallFrame(d, row.command, verdict)
  {
    var c := row.command;
    match FindActive(d.sessions, c.slot)
    case None =>
      var vacated := if c.slot in d.slots then d.(slots := d.slots[c.slot := SlotVacant]) else d;
      Commit(CommitSequence(vacated, c), Outcome(NoChange, None, row.attempt, row.generation, row.correlation))
    case Some(s) =>
      var active := d.sessions[s];
      if OccurredAt(c) < active.entryAt then
        Commit(d, Outcome(RejectedInvalidTimestamp, Some(s), active.attempt, row.generation, row.correlation))
      else if c.payload.hybrid && !active.hallConfirmed then
        Commit(CommitSequence(d, c), Outcome(NoChange, Some(s), active.attempt, row.generation, row.correlation))
      else
        var lowered := UpdateHall(d, s, active.hallConfirmed, false);
        if c.payload.hybrid && active.ivaConfirmed && active.ivaOccupied then
          Commit(CommitSequence(lowered, c),
                 Outcome(NoChange, Some(s), active.attempt, row.generation, row.correlation))
        else
          match CloseSession(lowered, s, id, c)
          case None => Retry
          case Some(closed) =>
            Commit(CommitSequence(closed, c),
                   Outcome(SessionEnded, Some(s), active.attempt, row.generation, row.correlation))
  }

  // ---------------------------------------------------------------- camera observations

  ghost function ReduceCamera(d: Domain, id: CommandId, row: Row): (verdict: Verdict)
    requires row.command.payload.Camera?
    ensures verdict.Commit? ==>
      verdict.domain.cursors == d.cursors && GenerationsGrow(d.observations, verdict.domain.observations)
    ensures verdict.Commit? && row.command.payload.authority && row.command.payload.action == Intrusion ==>
      row.command.slot in verdict.domain.observations &&
      verdict.domain.observations[row.command.slot].state == ObservedOccupied
  {
    var p := row.command.payload;
    if p.configured == [] || p.area == "" then RejectInvalid
    else if !p.authority then CameraEvidence(d, id, row)
    else
      var known := row.command.slot in d.observations;
      if known && d.observations[row.command.slot].configured != p.configured then Retry
      else
        var attempt := if known then d.observations[row.command.slot].attempt else row.attempt;
        var generation := if known then d.observations[row.command.slot].generation else row.generation;
        var areas := if known then d.observations[row.command.slot].areas else map[];
        var active := FindActive(d.sessions, row.command.slot);
        if p.action == Exit && active.Some? && OccurredAt(row.command) < d.sessions[active.value].entryAt then
          Commit(d, Outcome(RejectedInvalidTimestamp, active, d.sessions[active.value].attempt, generation,
                            row.correlation))
        else if p.action == Enter || (p.action == Exit && !p.authoritativeExit) then
          Commit(d, Outcome(NoChange, None, attempt, generation, row.correlation))
        else if p.action == Intrusion then
          var raised := !AreaActive(areas, p.area) || !known ||
                        d.observations[row.command.slot].state != ObservedOccupied;
          CameraIntrusion(d, id, row, if raised then generation + 1 else generation, areas[p.area := true])
        else if p.action == Exit then
          CameraExit(d, row, if AreaActive(areas, p.area) then generation + 1 else generation,
                     areas[p.area := false])
        else RejectInvalid
  }

  // Only the camera row of this slot was rewritten, at this generation.
  predicate ObservedAt(d: Domain, slot: SlotId, generation: nat, after: Domain) {
    slot in after.observations && after.observations[slot].generation == generation &&
    after.observations == d.observations[slot := after.observations[slot]]
  }

  // A camera without occupancy authority only attaches evidence to the active session.
  ghost function CameraEvidence(d: Domain, id: CommandId, row: Row): (verdict: Verdict)
    requires row.command.payload.Camera?
    ensures verdict.Commit? ==> verdict.domain == d.(bindings := verdict.domain.bindings)
  {
    var p := row.command.payload;
    if p.action != Intrusion || p.track.objectId == "" then RejectInvalid
    else match FindActive(d.sessions, row.command.slot)
      case None => Commit(d, Outcome(NoChange, None, row.attempt, row.generation, row.correlation))
      case Some(s) =>
        match CommitCorrelation(d, id, row.command, d.sessions[s].attempt, s)
        case None => Retry
        case Some((leased, correlation)) =>
          Commit(leased, Outcome(NoChange, Some(s), d.sessions[s].attempt, row.generation, correlation))
  }

  ghost function CameraIntrusion(d: Domain, id: CommandId, row: Row, generation: nat, areas: map<string, bool>)
    : (verdict: Verdict)
    requires row.command.payload.Camera?
    ensures verdict.Commit? ==>
      verdict.domain.deadlines == SupersedeScheduled(d, row.command.slot).deadlines &&
      verdict.domain.cursors == d.cursors && ObservedAt(d, row.command.slot, generation, verdict.domain) &&
      verdict.domain.observations[row.command.slot].state == ObservedOccupied
  {
    var superseded := SupersedeScheduled(d, row.command.slot);
    match FindActive(d.sessions, row.command.slot)
    case Some(s) =>
      IntrusionOn(UpdateIva(superseded, s, true, true), id, row, s, d.sessions[s].attempt, NoChange,
                  generation, areas)
    case None =>
      match CreateSession(superseded, id, row.command)
      case None => Retry
      case Some(created) =>
        IntrusionOn(created, id, row, d.nextSession, Occupancy(id), SessionStarted, generation, areas)
  }

  ghost function IntrusionOn(d: Domain, id: CommandId, row: Row, s: SessionId, attempt: Attempt, code: Code,
                             generation: nat, areas: map<string, bool>): (verdict: Verdict)
    requires row.command.payload.Camera?
    ensures verdict.Commit? ==>
      verdict.domain == d.(observations := verdict.domain.observations, bindings := verdict.domain.bindings) &&
      ObservedAt(d, row.command.slot, generation, verdict.domain) &&
      verdict.domain.observations[row.command.slot].state == ObservedOccupied
  {
    var observed := Observe(d, row.command.slot,
                            Observation(attempt, Some(s), generation, ObservedOccupied,
                                        row.command.payload.configured, areas));
    match CommitCorrelation(observed, id, row.command, attempt, s)
    case None => Retry
    case Some((leased, correlation)) => Commit(leased, Outcome(code, Some(s), attempt, generation, correlation))
  }

  ghost function CameraExit(d: Domain, row: Row, generation: nat, areas: map<string, bool>): (verdict: Verdict)
    requires row.command.payload.Camera?
    ensures verdict.Commit? ==>
      verdict.domain == d.(observations := verdict.domain.observations, deadlines := verdict.domain.deadlines) &&
      ObservedAt(d, row.command.slot, generation, verdict.domain) &&
      AdmittedKept(d.deadlines, verdict.domain.deadlines, {}, row.command.payload.hybrid)
  {
    var c := row.command;
    var configured := c.payload.configured;
    match FindActive(d.sessions, c.slot)
    case None =>
      Commit(Observe(d, c.slot, Observation(NoAttempt, None, generation, ObservedVacant, configured, areas)),
             Outcome(NoChange, None, NoAttempt, generation, row.correlation))
    case Some(s) =>
      var attempt := d.sessions[s].attempt;
      if !AllInactive(configured, areas) then
        Commit(Observe(d, c.slot, Observation(attempt, Some(s), generation, ObservedOccupied, configured, areas)),
               Outcome(NoChange, Some(s), attempt, generation, row.correlation))
      else
        var deadline := DeadlineId(c.slot, generation, s);
        var waiting := Observe(d, c.slot,
                               Observation(attempt, Some(s), generation, VacantPending, configured, areas));
        var outcome := Outcome(ExitScheduled, Some(s), attempt, generation, row.correlation);
        if LiveOn(d.deadlines, c.slot) then Commit(waiting, outcome)
        else if deadline in d.deadlines then Retry
        else
          var due := if c.payload.exitDue.Some? then c.payload.exitDue.value else c.dueAt;
          var scheduled := ExitDeadline(attempt, due, c.payload.hybrid, Scheduled);
          Commit(waiting.(deadlines := d.deadlines[deadline := scheduled]), outcome)
  }

  // ---------------------------------------------------------------- exit deadlines

  // The admitted deadline row that this command was made from, unchanged.
  predicate DeadlineOwnsSlot(d: Domain, row: Row)
    requires row.command.payload.Deadline?
  {
    var p := row.command.payload;
    p.deadline in d.deadlines && d.deadlines[p.deadline].state == Admitted &&
    p.deadline.slot == row.command.slot && d.deadlines[p.deadline].attempt == p.attempt &&
    p.deadline.session == p.session && p.deadline.generation == p.generation
  }

  // The camera still waits for exactly this exit of exactly the active session.
  ghost predicate ExitStillStands(d: Domain, row: Row)
    requires row.command.payload.Deadline?
  {
    var p := row.command.payload;
    var slot := row.command.slot;
    slot in d.observations && d.observations[slot].attempt == p.attempt &&
    d.observations[slot].session == Some(p.session) && d.observations[slot].generation == p.generation &&
    d.observations[slot].state == VacantPending &&
    FindActive(d.sessions, slot) == Some(p.session) && d.sessions[p.session].attempt == p.attempt
  }

  ghost function ReduceDeadline(d: Domain, id: CommandId, row: Row): (verdict: Verdict)
    requires row.command.payload.Deadline?
    ensures !verdict.RejectInvalid?
    ensures verdict.Commit? ==>
      verdict.domain.cursors == d.cursors && GenerationsGrow(d.observations, verdict.domain.observations)
    ensures verdict.Commit? && DeadlineOwnsSlot(d, row) ==>
      AdmittedKept(d.deadlines, verdict.domain.deadlines, {row.command.payload.deadline}, row.command.payload.hybrid)
  {
    var p := row.command.payload;
    var stale := Outcome(StaleGeneration, None, row.attempt, row.generation, row.correlation);
    if !DeadlineOwnsSlot(d, row) then Commit(d, stale)
    else if !ExitStillStands(d, row) then Commit(SettleDeadline(d, p.deadline, Superseded), stale)
    else ApplyExit(d, id, row)
  }

  ghost function ApplyExit(d: Domain, id: CommandId, row: Row): (verdict: Verdict)
    requires row.command.payload.Deadline? && DeadlineOwnsSlot(d, row) && ExitStillStands(d, row)
    ensures !verdict.RejectInvalid?
    ensures verdict.Commit? ==>
      verdict.domain.deadlines == SettleDeadline(d, row.command.payload.deadline, DeadlineApplied).deadlines &&
      verdict.domain.cursors == d.cursors && GenerationsGrow(d.observations, verdict.domain.observations)
  {
    var p := row.command.payload;
    var slot := row.command.slot;
    var active := d.sessions[p.session];
    var before := d.observations[slot];
    var lowered := SettleDeadline(UpdateIva(d, p.session, active.ivaConfirmed, false), p.deadline, DeadlineApplied);
    if p.hybrid && active.hallConfirmed && active.hallOccupied then
      Commit(Observe(lowered, slot, before.(state := ObservedVacant)),
             Outcome(NoChange, Some(p.session), active.attempt, p.generation, row.correlation))
    else
      match CloseSession(lowered, p.session, id, row.command)
      case None => Retry
      case Some(closed) =>
        Commit(Observe(closed, slot, before.(attempt := NoAttempt, session := None, state := ObservedVacant)),
               Outcome(SessionEnded, Some(p.session), active.attempt, p.generation, row.correlation))
  }

  ghost function Reduce(d: Domain, id: CommandId, row: Row): Verdict {
    match row.command.payload
    case Hall(_, _, _, _, _) => ReduceHall(d, id, row)
    case Camera(_, _, _, _, _, _, _, _, _, _, _, _) => ReduceCamera(d, id, row)
    case Deadline(_, _, _, _, _) => ReduceDeadline(d, id, row)
  }
}
