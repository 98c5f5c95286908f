/**
  The tables of the durable occupancy machine as values: one map per SQL table, one
  datatype per row. Identifiers that the program builds from parts keep their parts
  (a deadline id is its slot, generation and session), times are epoch milliseconds.
*/
module OccupancyTables {
  import opened Options
  import Sequence = SensorSequence

  type SlotId = string
  type SensorId = string
  type SessionId = nat

  datatype DeadlineId = DeadlineId(slot: SlotId, generation: nat, session: SessionId)
  datatype CommandId = External(name: string) | ForDeadline(deadline: DeadlineId)
  datatype Attempt = NoAttempt | Occupancy(command: CommandId)

  // ---------------------------------------------------------------- command payloads

  datatype HallState = HallOccupied | HallVacant | HallUnsupported
  datatype CameraAction = Enter | Intrusion | Exit | UnsupportedAction
  datatype Track = Track(camera: string, source: string, rule: string, objectId: string)

  datatype Payload =
    | Hall(state: HallState, hybrid: bool, protocol: Sequence.Protocol, bootId: Option<string>,
           occurredAt: Option<int>)
    | Camera(action: CameraAction, authoritativeExit: bool, authority: bool, hybrid: bool,
             area: string, configured: seq<string>, track: Track, channel: string,
             correlation: string, expiresAt: int, occurredAt: Option<int>, exitDue: Option<int>)
    | Deadline(deadline: DeadlineId, attempt: Attempt, session: SessionId, generation: nat, hybrid: bool)

  // ---------------------------------------------------------------- rows

  datatype Status = Pending | Applied | RejectedInvalid
  datatype EffectState = NoEffect | EffectPending | EffectApplied
  datatype Code = SessionStarted | SessionEnded | NoChange | ExitScheduled
                | RejectedInvalidTimestamp | StaleGeneration

  datatype Command = Command(slot: SlotId, sensor: SensorId, identity: string, sequence: Option<nat>,
                             payload: Payload, dueAt: int)

  datatype Row = Row(command: Command, ordinal: nat, createdAt: int, status: Status,
                     attempt: Attempt, correlation: string, generation: nat,
                     tries: nat, nextTryAt: int, result: Option<Code>, session: Option<SessionId>,
                     effect: EffectState, effectTries: nat, effectAt: int)

  datatype SlotStatus = SlotVacant | SlotOccupied | SlotError

  datatype SessionStatus = ActiveStatus | ViolationStatus | EndedStatus
  datatype Session = Session(slot: SlotId, status: SessionStatus, attempt: Attempt,
                             entryCommand: CommandId, entryAt: int,
                             exitCommand: Option<CommandId>, exitAt: Option<int>,
                             hallConfirmed: bool, ivaConfirmed: bool,
                             hallOccupied: bool, ivaOccupied: bool)

  datatype Observed = ObservedOccupied | VacantPending | ObservedVacant
  datatype Observation = Observation(attempt: Attempt, session: Option<SessionId>, generation: nat,
                                     state: Observed, configured: seq<string>, areas: map<string, bool>)

  datatype DeadlineState = Scheduled | Admitted | Superseded | DeadlineApplied
  datatype ExitDeadline = ExitDeadline(attempt: Attempt, dueAt: int, hybrid: bool, state: DeadlineState)

  datatype BindingState = Committed | BindingEnded
  datatype Binding = Binding(source: CommandId, attempt: Attempt, session: SessionId, slot: SlotId,
                             track: Track, channel: string, revision: nat, expiresAt: int,
                             state: BindingState)

  type Sessions = map<SessionId, Session>
  type Deadlines = map<DeadlineId, ExitDeadline>
  type Bindings = map<string, Binding>
  type Inbox = map<CommandId, Row>

  // Everything that applying a command may change, apart from the command's own row.
  datatype Domain = Domain(slots: map<SlotId, SlotStatus>, sessions: Sessions, nextSession: SessionId,
                           observations: map<SlotId, Observation>, deadlines: Deadlines,
                           bindings: Bindings, cursors: map<SensorId, Sequence.Cursor>)

  datatype Tables = Tables(domain: Domain, inbox: Inbox)

  // ---------------------------------------------------------------- queries

  predicate Active(session: Session) {
    session.status != EndedStatus && session.exitAt.None?
  }

  predicate ActiveIn(session: Session, slot: SlotId) {
    session.slot == slot && Active(session)
  }

  ghost function Latest(ids: set<nat>): (latest: nat)
    requires ids != {}
    ensures latest in ids && forall id :: id in ids ==> id <= latest
  {
    var id :| id in ids;
    var others := ids - {id};
    assert forall x :: x in ids ==> x == id || x in others;
    if others == {} then id
    else
      var rest := Latest(others);
      if id > rest then id else rest
  }

  // The active session with the highest id, as the lookup orders its rows.
  ghost function FindActive(sessions: Sessions, slot: SlotId): (found: Option<SessionId>)
    ensures found.None? ==> forall s :: s in sessions ==> !ActiveIn(sessions[s], slot)
    ensures found.Some? ==> found.value in sessions && ActiveIn(sessions[found.value], slot)
    ensures found.Some? ==> forall s :: s in sessions && ActiveIn(sessions[s], slot) ==> s <= found.value
  {
    var active := set s | s in sessions && ActiveIn(sessions[s], slot);
    assert forall s :: s in sessions && ActiveIn(sessions[s], slot) ==> s in active;
    if active == {} then None else Some(Latest(active))
  }

  predicate Live(deadline: ExitDeadline) {
    deadline.state == Scheduled || deadline.state == Admitted
  }

  predicate LiveOn(deadlines: Deadlines, slot: SlotId) {
    exists d :: d in deadlines && d.slot == slot && Live(deadlines[d])
  }

  predicate EntryUsed(sessions: Sessions, id: CommandId) {
    exists s :: s in sessions && sessions[s].entryCommand == id
  }

  predicate ExitUsed(sessions: Sessions, id: CommandId) {
    exists s :: s in sessions && sessions[s].exitCommand == Some(id)
  }

  predicate SourceUsed(bindings: Bindings, id: CommandId) {
    exists c :: c in bindings && bindings[c].source == id
  }

  predicate OnTrack(binding: Binding, attempt: Attempt, track: Track) {
    binding.attempt == attempt && binding.track == track
  }

  ghost function FindBinding(bindings: Bindings, attempt: Attempt, track: Track): (found: Option<string>)
    ensures found.None? ==> forall c :: c in bindings ==> !OnTrack(bindings[c], attempt, track)
    ensures found.Some? ==> found.value in bindings && OnTrack(bindings[found.value], attempt, track)
  {
    if c :| c in bindings && OnTrack(bindings[c], attempt, track) then Some(c) else None
  }

  function CursorOf(cursors: map<SensorId, Sequence.Cursor>, sensor: SensorId): Sequence.Cursor {
    if sensor in cursors then cursors[sensor] else Sequence.FRESH
  }

  function FactOf(command: Command): Sequence.Fact
    requires command.payload.Hall?
  {
    Sequence.Fact(command.payload.protocol, command.payload.bootId, command.sequence)
  }

  // The time of the observation; a deadline command happens when it falls due.
  function OccurredAt(command: Command): int {
    if command.payload.Deadline? || command.payload.occurredAt.None? then command.dueAt
    else command.payload.occurredAt.value
  }

  // A configured area that has not been reported yet is not known to be inactive.
  predicate AllInactive(configured: seq<string>, areas: map<string, bool>) {
    forall area :: area in configured ==> area in areas && !areas[area]
  }

  predicate AreaActive(areas: map<string, bool>, area: string) {
    area in areas && areas[area]
  }
}
