/**
  The durable command inbox around the reducer: bounded admission, admission of due exit
  deadlines, head-of-line selection per slot, the effect outbox and the purge. Every
  function is one transaction on the tables; one that fails returns its argument.
*/
module OccupancyInbox {
  import opened Options
  import opened OccupancyTables
  import opened OccupancyReducer
  import Sequence = SensorSequence

  // ---------------------------------------------------------------- admission

  datatype AdmissionCode = NewlyAdmitted | Existing | AlreadyTerminal | RejectedStale | Conflict
                         | CapacityFull | RetryableFailure

  datatype Admission = Admission(tables: Tables, code: AdmissionCode, id: CommandId)

  predicate SameKind(left: Payload, right: Payload) {
    (left.Hall? && right.Hall?) || (left.Camera? && right.Camera?) || (left.Deadline? && right.Deadline?)
  }

  // The key (source kind, source identity); deadline commands are identified by their id alone.
  predicate SameIdentity(left: Command, right: Command) {
    SameKind(left.payload, right.payload) && !left.payload.Deadline? && left.identity == right.identity
  }

  ghost function FindIdentity(inbox: Inbox, command: Command): (found: Option<CommandId>)
    ensures found.Some? ==> found.value in inbox && SameIdentity(inbox[found.value].command, command)
    ensures found.None? ==> forall c :: c in inbox ==> !SameIdentity(inbox[c].command, command)
  {
    if c :| c in inbox && SameIdentity(inbox[c].command, command) then Some(c) else None
  }

  // What a redelivery must repeat: local receive times belong to the first admission.
  function SourceFact(command: Command): Command {
    match command.payload
    case Hall(state, hybrid, protocol, bootId, _) =>
      command.(dueAt := 0, payload := Hall(state, hybrid, protocol, bootId, None))
    case Camera(_, _, _, _, _, _, _, _, _, _, _, _) =>
      command.(dueAt := 0, payload := command.payload.(exitDue := None))
    case Deadline(_, _, _, _, _) => command
  }

  // A Hall arrival that waits for its confirmation time.
  predicate IsCandidate(row: Row, slot: SlotId) {
    row.command.slot == slot && row.status == Pending && row.command.payload.Hall? &&
    row.command.payload.state == HallOccupied && row.command.dueAt > 0
  }

  ghost function FindCandidate(inbox: Inbox, slot: SlotId): (found: Option<CommandId>)
    ensures found.Some? ==> found.value in inbox && IsCandidate(inbox[found.value], slot)
    ensures found.None? ==> forall c :: c in inbox ==> !IsCandidate(inbox[c], slot)
  {
    if c :| c in inbox && IsCandidate(inbox[c], slot) then Some(c) else None
  }

  function PendingIds(inbox: Inbox): set<CommandId> {
    set c | c in inbox && inbox[c].status == Pending
  }

  ghost function TopOrdinal(inbox: Inbox): (top: nat)
    ensures forall c :: c in inbox ==> inbox[c].ordinal <= top
  {
    var ordinals := set c | c in inbox :: inbox[c].ordinal;
    assert forall c :: c in inbox ==> inbox[c].ordinal in ordinals;
    if ordinals == {} then 0 else Latest(ordinals)
  }

  function NewRow(command: Command, ordinal: nat, now: int): Row {
    Row(command, ordinal, now, Pending,
        if command.payload.Deadline? then command.payload.attempt else NoAttempt,
        if command.payload.Camera? then command.payload.correlation else "",
        if command.payload.Deadline? then command.payload.generation else 0,
        0, 0, None, None, NoEffect, 0, 0)
  }

  function Canceled(row: Row): Row {
    row.(status := Applied, result := Some(NoChange))
  }

  // The sequence policy on a Hall frame at the door, before anything is written.
  predicate HallRefused(d: Domain, command: Command)
    requires command.payload.Hall?
  {
    Sequence.Evaluate(CursorOf(d.cursors, command.sensor), FactOf(command)) != Sequence.Accept
  }

  // A departure observed before the candidate's confirmation time cancels the candidate.
  ghost function AfterCancel(inbox: Inbox, command: Command): Inbox {
    if command.payload.Hall? && command.payload.state == HallVacant &&
       FindCandidate(inbox, command.slot).Some? &&
       OccurredAt(command) < inbox[FindCandidate(inbox, command.slot).value].command.dueAt
    then
      var c := FindCandidate(inbox, command.slot).value;
      inbox[c := Canceled(inbox[c])]
    else inbox
  }

  ghost function Admit(t: Tables, name: string, command: Command, capacity: nat, now: int): (admission: Admission)
    requires !command.payload.Deadline?
    ensures admission.code != NewlyAdmitted ==> admission.tables == t
    ensures admission.code == NewlyAdmitted ==>
      admission.id == External(name) && External(name) in admission.tables.inbox &&
      |PendingIds(AfterCancel(t.inbox, command))| < capacity
  {
    var id := External(name);
    var found := FindIdentity(t.inbox, command);
    if name == "" || command.slot == "" || command.identity == "" || capacity == 0 then Admission(t, Conflict, id)
    else if found.Some? then
      var stored := t.inbox[found.value];
      if found.value != id || SourceFact(stored.command) != SourceFact(command) then
        Admission(t, Conflict, found.value)
      else Admission(t, if stored.status == Pending then Existing else AlreadyTerminal, id)
    else if command.payload.Hall? && command.sensor == "" then Admission(t, Conflict, id)
    else if command.payload.Hall? && HallRefused(t.domain, command) then
      var decision := Sequence.Evaluate(CursorOf(t.domain.cursors, command.sensor), FactOf(command));
      Admission(t, if decision == Sequence.Invalid then Conflict else RejectedStale, id)
    else if command.payload.Hall? && command.payload.state == HallUnsupported then Admission(t, Conflict, id)
    else if command.payload.Hall? && command.payload.state == HallOccupied &&
            FindCandidate(t.inbox, command.slot).Some? then
      Admission(t, Existing, FindCandidate(t.inbox, command.slot).value)
    else
      var inbox := AfterCancel(t.inbox, command);
      if |PendingIds(inbox)| >= capacity then Admission(t, CapacityFull, id)
      else if id in inbox || command.slot !in t.domain.slots then Admission(t, RetryableFailure, id)
      else
        Admission(t.(inbox := inbox[id := NewRow(command, TopOrdinal(inbox) + 1, now)]), NewlyAdmitted, id)
  }

  // ---------------------------------------------------------------- due exit deadlines

  predicate IsDue(d: Domain, x: DeadlineId, now: int, blocked: set<SlotId>) {
    x in d.deadlines && d.deadlines[x].state == Scheduled && d.deadlines[x].dueAt <= now && x.slot !in blocked
  }

  // The due deadlines in due order, as many as the inbox has room for.
  predicate DueBatch(t: Tables, now: int, capacity: nat, blocked: set<SlotId>, batch: seq<DeadlineId>) {
    (forall i :: 0 <= i < |batch| ==> IsDue(t.domain, batch[i], now, blocked)) &&
    (forall i, j :: 0 <= i < j < |batch| ==>
       batch[i] != batch[j] && t.domain.deadlines[batch[i]].dueAt <= t.domain.deadlines[batch[j]].dueAt) &&
    (forall i, x :: 0 <= i < |batch| && x in t.domain.deadlines && IsDue(t.domain, x, now, blocked) && x !in batch ==>
       t.domain.deadlines[batch[i]].dueAt <= t.domain.deadlines[x].dueAt) &&
    |batch| <= Room(t, capacity) &&
    (|batch| < Room(t, capacity) ==>
       forall x :: x in t.domain.deadlines && IsDue(t.domain, x, now, blocked) ==> x in batch)
  }

  function Room(t: Tables, capacity: nat): nat {
    if |PendingIds(t.inbox)| < capacity then capacity - |PendingIds(t.inbox)| else 0
  }

  function DeadlineCommand(x: DeadlineId, deadline: ExitDeadline): Command {
    Command(x.slot, "", "", None, Deadline(x, deadline.attempt, x.session, x.generation, deadline.hybrid),
            deadline.dueAt)
  }

  // One row of the batch: insert the command unless its id exists, then mark the deadline.
  function AdmitDeadline(t: Tables, x: DeadlineId, ordinal: nat, now: int): Tables
    requires x in t.domain.deadlines
  {
    var deadline := t.domain.deadlines[x];
    var id := ForDeadline(x);
    Tables(if deadline.state == Scheduled then SettleDeadline(t.domain, x, Admitted) else t.domain,
           if id in t.inbox then t.inbox
           else t.inbox[id := NewRow(DeadlineCommand(x, deadline), ordinal, now)])
  }

  function AdmitBatch(t: Tables, batch: seq<DeadlineId>, ordinal: nat, now: int): Tables
    requires forall i :: 0 <= i < |batch| ==> batch[i] in t.domain.deadlines
    decreases batch
  {
    if batch == [] then t
    else AdmitBatch(AdmitDeadline(t, batch[0], ordinal + 1, now), batch[1..], ordinal + 1, now)
  }

  ghost function AdmitDue(t: Tables, batch: seq<DeadlineId>, now: int): Tables
    requires forall i :: 0 <= i < |batch| ==> batch[i] in t.domain.deadlines
  {
    AdmitBatch(t, batch, TopOrdinal(t.inbox), now)
  }

  // ---------------------------------------------------------------- selection and application

  // Due, not deferred, and no earlier command of the slot is still pending.
  predicate Runnable(inbox: Inbox, now: int, id: CommandId) {
    id in inbox && inbox[id].status == Pending && inbox[id].command.dueAt <= now && inbox[id].nextTryAt <= now &&
    forall e :: e in inbox && inbox[e].status == Pending && inbox[e].command.slot == inbox[id].command.slot ==>
      inbox[id].ordinal <= inbox[e].ordinal
  }

  predicate AwaitsEffect(row: Row) {
    row.status == Applied && row.effect == EffectPending
  }

  predicate EffectReady(inbox: Inbox, now: int, id: CommandId) {
    id in inbox && AwaitsEffect(inbox[id]) && inbox[id].effectAt <= now &&
    forall e :: e in inbox && AwaitsEffect(inbox[e]) && inbox[e].command.slot == inbox[id].command.slot ==>
      inbox[id].ordinal <= inbox[e].ordinal
  }

  function HasEffect(code: Code): bool {
    code == SessionStarted || code == SessionEnded
  }

  function Finished(row: Row, outcome: Outcome): Row {
    row.(status := if outcome.code == RejectedInvalidTimestamp then RejectedInvalid else Applied,
         attempt := outcome.attempt, correlation := outcome.correlation, generation := outcome.generation,
         result := Some(outcome.code), session := outcome.session,
         effect := if HasEffect(outcome.code) then EffectPending else NoEffect,
         effectTries := 0, effectAt := 0)
  }

  function Rejected(row: Row): Row {
    row.(status := RejectedInvalid, result := Some(RejectedInvalidTimestamp))
  }

  ghost function Apply(t: Tables, id: CommandId): Tables {
    if id !in t.inbox || t.inbox[id].status != Pending then t
    else
      match Reduce(t.domain, id, t.inbox[id])
      case Commit(domain, outcome) => Tables(domain, t.inbox[id := Finished(t.inbox[id], outcome)])
      case RejectInvalid => t.(inbox := t.inbox[id := Rejected(t.inbox[id])])
      case Retry => t
  }

  function Defer(t: Tables, id: CommandId, next: int): Tables {
    if id !in t.inbox || t.inbox[id].status != Pending then t
    else t.(inbox := t.inbox[id := t.inbox[id].(tries := t.inbox[id].tries + 1, nextTryAt := next)])
  }

  // ---------------------------------------------------------------- effects and purge

  function CompleteEffect(t: Tables, id: CommandId): Tables {
    if id !in t.inbox || !AwaitsEffect(t.inbox[id]) then t
    else t.(inbox := t.inbox[id := t.inbox[id].(effect := EffectApplied, effectAt := 0)])
  }

  function DeferEffect(t: Tables, id: CommandId, next: int): Tables {
    if id !in t.inbox || !AwaitsEffect(t.inbox[id]) then t
    else t.(inbox := t.inbox[id := t.inbox[id].(effectTries := t.inbox[id].effectTries + 1, effectAt := next)])
  }

  // Times are stored with a resolution of one second.
  predicate Purgeable(row: Row, cutoff: int) {
    row.status == Applied && row.effect != EffectPending && row.createdAt / 1000 < cutoff / 1000
  }

  // The settled rows before the cutoff, lowest ordinals first, at most `limit` of them.
  predicate PurgeBatch(inbox: Inbox, cutoff: int, limit: nat, doomed: set<CommandId>) {
    (forall c :: c in doomed ==> c in inbox && Purgeable(inbox[c], cutoff)) &&
    |doomed| <= limit &&
    (|doomed| < limit ==> forall c :: c in inbox && Purgeable(inbox[c], cutoff) ==> c in doomed) &&
    (forall c, e :: c in doomed && e in inbox && Purgeable(inbox[e], cutoff) && e !in doomed ==>
       inbox[c].ordinal < inbox[e].ordinal)
  }

  function Purge(t: Tables, doomed: set<CommandId>): Tables {
    t.(inbox := t.inbox - doomed)
  }

  // The overstay timer marks a running session; the session stays active.
  function MarkViolation(t: Tables, s: SessionId): Tables {
    if s !in t.domain.sessions || t.domain.sessions[s].status != ActiveStatus || t.domain.sessions[s].exitAt.Some?
    then t
    else t.(domain := t.domain.(sessions :=
              t.domain.sessions[s := t.domain.sessions[s].(status := ViolationStatus)]))
  }
}
