/**
  Runs of the occupancy machine. A world is the tables together with a history that no
  table keeps: when each command was admitted, which effects each slot produced and how
  many of them have been completed. `Exec` is one step of the program, `Run` any
  interleaving of steps; `Invariant` is what every reachable world satisfies.
*/
module OccupancyWorld {
  import opened Options
  import opened OccupancyTables
  import opened OccupancyReducer
  import opened OccupancyDomain
  import opened OccupancyInbox
  import Sequence = SensorSequence

  // `stamp` numbers the admissions of the run; ordinals may be reused after a purge, stamps never are.
  datatype Effect = Effect(command: CommandId, started: bool, session: SessionId, stamp: nat)

  // A Hall frame in a boot epoch, as the sensor numbered it.
  datatype Frame = Frame(sensor: SensorId, boot: string, sequence: nat)

  datatype History = History(clock: nat, stamps: map<CommandId, nat>,
                             effects: map<SlotId, seq<Effect>>, completed: map<SlotId, nat>,
                             position: map<CommandId, nat>, frames: seq<Frame>)

  datatype World = World(tables: Tables, history: History)

  datatype Action =
    | Submit(name: string, command: Command, capacity: nat, now: int)
    | AdmitDeadlines(batch: seq<DeadlineId>, capacity: nat, blocked: set<SlotId>, now: int)
    | ApplyCommand(id: CommandId, now: int)
    | DeferCommand(id: CommandId, next: int)
    | CompleteEffects(id: CommandId, now: int)
    | DeferEffects(id: CommandId, next: int)
    | PurgeSettled(doomed: set<CommandId>, cutoff: int, limit: nat)
    | OverstayTimer(session: SessionId)

  // ---------------------------------------------------------------- history

  function EffectsOf(h: History, slot: SlotId): seq<Effect> {
    if slot in h.effects then h.effects[slot] else []
  }

  function CompletedOf(h: History, slot: SlotId): nat {
    if slot in h.completed then h.completed[slot] else 0
  }

  function Stamped(h: History, id: CommandId): History {
    h.(clock := h.clock + 1, stamps := h.stamps[id := h.clock])
  }

  function StampedBatch(h: History, batch: seq<DeadlineId>): History
    decreases batch
  {
    if batch == [] then h else StampedBatch(Stamped(h, ForDeadline(batch[0])), batch[1..])
  }

  function WithEffect(h: History, id: CommandId, slot: SlotId, outcome: Outcome): History {
    if !HasEffect(outcome.code) || id !in h.stamps || outcome.session.None? then h
    else
      var effect := Effect(id, outcome.code == SessionStarted, outcome.session.value, h.stamps[id]);
      h.(effects := h.effects[slot := EffectsOf(h, slot) + [effect]],
         position := h.position[id := |EffectsOf(h, slot)|])
  }

  // The boot-epoch frame of a Hall command whose application changed any domain table.
  function WithFrame(h: History, command: Command, before: Domain, after: Domain): History {
    if command.payload.Hall? && command.payload.protocol == Sequence.BootEpochV2 && before != after &&
       command.payload.bootId.Some? && command.sequence.Some?
    then h.(frames := h.frames + [Frame(command.sensor, command.payload.bootId.value, command.sequence.value)])
    else h
  }

  ghost function AppliedHistory(w: World, id: CommandId): History
    requires id in w.tables.inbox
  {
    var row := w.tables.inbox[id];
    match Reduce(w.tables.domain, id, row)
    case Commit(domain, outcome) =>
      WithFrame(WithEffect(w.history, id, row.command.slot, outcome), row.command, w.tables.domain, domain)
    case _ => w.history
  }

  // ---------------------------------------------------------------- steps

  /** One step. A step that the actor would not take in this world leaves it as it is. */
  ghost function Exec(w: World, action: Action): World {
    match action
    case Submit(name, command, capacity, now) =>
      if command.payload.Deadline? then w
      else
        var admission := Admit(w.tables, name, command, capacity, now);
        World(admission.tables,
              if admission.code == NewlyAdmitted then Stamped(w.history, External(name)) else w.history)
    case AdmitDeadlines(batch, capacity, blocked, now) =>
      if !DueBatch(w.tables, now, capacity, blocked, batch) then w
      else World(AdmitDue(w.tables, batch, now), StampedBatch(w.history, batch))
    case ApplyCommand(id, now) =>
      if !Runnable(w.tables.inbox, now, id) then w
      else World(Apply(w.tables, id), AppliedHistory(w, id))
    case DeferCommand(id, next) => w.(tables := Defer(w.tables, id, next))
    case CompleteEffects(id, now) =>
      if !EffectReady(w.tables.inbox, now, id) then w
      else
        var slot := w.tables.inbox[id].command.slot;
        World(CompleteEffect(w.tables, id),
              w.history.(completed := w.history.completed[slot := CompletedOf(w.history, slot) + 1]))
    case DeferEffects(id, next) => w.(tables := DeferEffect(w.tables, id, next))
    case PurgeSettled(doomed, cutoff, limit) =>
      if PurgeBatch(w.tables.inbox, cutoff, limit, doomed) then w.(tables := Purge(w.tables, doomed)) else w
    case OverstayTimer(s) => w.(tables := MarkViolation(w.tables, s))
  }

  ghost function Run(w: World, actions: seq<Action>): World {
    if actions == [] then w else Exec(Run(w, actions[..|actions| - 1]), actions[|actions| - 1])
  }

  // A fresh database: the configured slots, none of them occupied.
  predicate Fresh(w: World) {
    var d := w.tables.domain;
    w.tables.inbox == map[] && w.history == History(0, map[], map[], map[], map[], []) &&
    d.sessions == map[] && d.observations == map[] && d.deadlines == map[] && d.bindings == map[] &&
    d.cursors == map[] && forall slot :: slot in d.slots ==> d.slots[slot] != SlotOccupied
  }

  // ---------------------------------------------------------------- the invariant

  // Ordinals are unique and order the rows as they were admitted.
  ghost predicate OrderOk(inbox: Inbox, h: History) {
    (forall c :: c in inbox ==> c in h.stamps && h.stamps[c] < h.clock) &&
    (forall c, e :: c in inbox && e in inbox && c != e ==>
       (inbox[c].ordinal < inbox[e].ordinal && h.stamps[c] < h.stamps[e]) ||
       (inbox[c].ordinal > inbox[e].ordinal && h.stamps[c] > h.stamps[e]))
  }

  // Identities are unique, a slot has one arrival candidate, and ids tell the kinds apart.
  ghost predicate InboxOk(inbox: Inbox) {
    UniqueIdentities(inbox) && OneCandidatePerSlot(inbox) && forall c :: c in inbox ==> RowOk(c, inbox[c])
  }

  ghost predicate UniqueIdentities(inbox: Inbox) {
    forall c, e :: c in inbox && e in inbox && SameIdentity(inbox[c].command, inbox[e].command) ==> c == e
  }

  ghost predicate OneCandidatePerSlot(inbox: Inbox) {
    forall slot, c, e :: c in inbox && e in inbox && IsCandidate(inbox[c], slot) && IsCandidate(inbox[e], slot)
      ==> c == e
  }

  predicate RowOk(id: CommandId, row: Row) {
    (row.command.payload.Deadline? <==> id.ForDeadline?) &&
    (row.command.payload.Hall? ==> row.command.sensor != "") &&
    (row.status != Applied ==> row.effect == NoEffect)
  }

  // Admitted deadlines and pending deadline commands correspond one to one.
  ghost predicate LinkOk(inbox: Inbox, d: Domain) {
    CommandsHaveDeadlines(inbox, d) && PendingOwn(inbox, d) && AdmittedPending(inbox, d)
  }

  predicate CommandsHaveDeadlines(inbox: Inbox, d: Domain) {
    forall c :: c in inbox && inbox[c].command.payload.Deadline? ==>
      c == ForDeadline(inbox[c].command.payload.deadline) && c.deadline in d.deadlines &&
      d.deadlines[c.deadline].state != Scheduled
  }

  predicate PendingOwn(inbox: Inbox, d: Domain) {
    forall c :: c in inbox && inbox[c].command.payload.Deadline? && inbox[c].status == Pending ==>
      DeadlineOwnsSlot(d, inbox[c]) && RepeatsDeadline(inbox[c].command, d)
  }

  // The command says when its deadline falls due and under which policy.
  predicate RepeatsDeadline(command: Command, d: Domain)
    requires command.payload.Deadline? && command.payload.deadline in d.deadlines
  {
    command.dueAt == d.deadlines[command.payload.deadline].dueAt &&
    command.payload.hybrid == d.deadlines[command.payload.deadline].hybrid
  }

  predicate AdmittedPending(inbox: Inbox, d: Domain) {
    forall x :: x in d.deadlines && d.deadlines[x].state == Admitted ==>
      ForDeadline(x) in inbox && inbox[ForDeadline(x)].status == Pending &&
      inbox[ForDeadline(x)].command.payload.Deadline?
  }

  predicate Alternates(effects: seq<Effect>) {
    (forall i :: 0 <= i < |effects| ==> effects[i].started == (i % 2 == 0)) &&
    (forall i :: 0 < i < |effects| && i % 2 == 1 ==> effects[i].session == effects[i - 1].session) &&
    (forall i, j :: 0 <= i < j < |effects| ==> effects[i].stamp < effects[j].stamp)
  }

  // An odd history is a session still running: the last one that started.
  function Running(effects: seq<Effect>): Option<SessionId> {
    if |effects| % 2 == 1 then Some(effects[|effects| - 1].session) else None
  }

  // The effects that are not completed yet are exactly the rows that wait for theirs.
  predicate EffectRowOk(inbox: Inbox, h: History, slot: SlotId, i: nat)
    requires i < |EffectsOf(h, slot)|
  {
    var effect := EffectsOf(h, slot)[i];
    var id := effect.command;
    id in inbox && AwaitsEffect(inbox[id]) && inbox[id].command.slot == slot &&
    inbox[id].result == Some(if effect.started then SessionStarted else SessionEnded) &&
    inbox[id].session == Some(effect.session) &&
    id in h.stamps && h.stamps[id] == effect.stamp && id in h.position && h.position[id] == i
  }

  predicate SlotHistoryOk(inbox: Inbox, h: History, slot: SlotId) {
    var effects := EffectsOf(h, slot);
    CompletedOf(h, slot) <= |effects| && Alternates(effects) &&
    (forall i :: 0 <= i < |effects| ==> effects[i].stamp < h.clock) &&
    forall i :: CompletedOf(h, slot) <= i < |effects| ==> EffectRowOk(inbox, h, slot, i)
  }

  // A waiting row stands in the history; a pending row was admitted after every effect of its slot.
  predicate RowHistoryOk(inbox: Inbox, h: History, c: CommandId)
    requires c in inbox
  {
    var slot := inbox[c].command.slot;
    (AwaitsEffect(inbox[c]) ==>
       c in h.position && CompletedOf(h, slot) <= h.position[c] < |EffectsOf(h, slot)| &&
       EffectsOf(h, slot)[h.position[c]].command == c) &&
    (inbox[c].status == Pending && c in h.stamps ==>
       forall i :: 0 <= i < |EffectsOf(h, slot)| ==> EffectsOf(h, slot)[i].stamp < h.stamps[c])
  }

  ghost predicate HistoryOk(inbox: Inbox, h: History) {
    (forall slot :: SlotHistoryOk(inbox, h, slot)) &&
    (forall c :: c in inbox ==> RowHistoryOk(inbox, h, c))
  }

  ghost predicate RunningOk(sessions: Sessions, h: History) {
    forall slot :: FindActive(sessions, slot) == Running(EffectsOf(h, slot))
  }

  // Frames that changed something lie behind the cursor of their sensor, so no frame is there twice.
  predicate FramesOk(cursors: map<SensorId, Sequence.Cursor>, frames: seq<Frame>) {
    (forall i :: 0 <= i < |frames| ==>
       Sequence.Spent(CursorOf(cursors, frames[i].sensor), frames[i].boot, frames[i].sequence)) &&
    (forall i, j :: 0 <= i < j < |frames| ==> frames[i] != frames[j])
  }

  ghost predicate Invariant(w: World) {
    DomainOk(w.tables.domain) && InboxOk(w.tables.inbox) && OrderOk(w.tables.inbox, w.history) &&
    LinkOk(w.tables.inbox, w.tables.domain) &&
    HistoryOk(w.tables.inbox, w.history) && RunningOk(w.tables.domain.sessions, w.history) &&
    FramesOk(w.tables.domain.cursors, w.history.frames)
  }
}
