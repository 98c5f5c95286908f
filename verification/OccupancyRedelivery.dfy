/**
  The answers of an admission, each with its exact condition on the tables, and what they mean
  over runs: a report that was admitted is recognized whenever it is delivered again, until the
  purge forgets it, and never changes anything a second time.
*/
module OccupancyRedelivery {
  import opened Options
  import opened OccupancyTables
  import opened OccupancyReducer
  import opened OccupancyInbox
  import opened OccupancyWorld
  import opened OccupancySafety
  import opened OccupancyCapacity
  import opened OccupancyRuns
  import opened OccupancyReplay
  import Sequence = SensorSequence

  // The same physical report: local receive times may differ, the time a camera stamped may not.
  predicate SameReport(left: Command, right: Command) {
    left.slot == right.slot && left.sensor == right.sensor && left.identity == right.identity &&
    left.sequence == right.sequence &&
    match left.payload
    case Hall(state, hybrid, protocol, bootId, _) =>
      right.payload.Hall? && right.payload.state == state && right.payload.hybrid == hybrid &&
      right.payload.protocol == protocol && right.payload.bootId == bootId
    case Camera(action, authoritativeExit, authority, hybrid, area, configured, track, channel, correlation, expiresAt, at, _) =>
      right.payload.Camera? && right.payload.action == action && right.payload.authoritativeExit == authoritativeExit &&
      right.payload.authority == authority && right.payload.hybrid == hybrid && right.payload.area == area &&
      right.payload.configured == configured && right.payload.track == track && right.payload.channel == channel &&
      right.payload.correlation == correlation && right.payload.expiresAt == expiresAt && right.payload.occurredAt == at
    case Deadline(_, _, _, _, _) => left == right
  }

  lemma SameFactIff(left: Command, right: Command)
    ensures SourceFact(left) == SourceFact(right) <==> left.payload.Hall? == right.payload.Hall? && SameReport(left, right)
  {
  }

  // ---------------------------------------------------------------- every answer of an admission

  // The row that this command would repeat: the same kind of source and the same identity.
  predicate Repeats(inbox: Inbox, c: CommandId, command: Command) {
    c in inbox && inbox[c].command.identity == command.identity &&
    ((inbox[c].command.payload.Hall? && command.payload.Hall?) ||
     (inbox[c].command.payload.Camera? && command.payload.Camera?))
  }

  predicate Malformed(name: string, command: Command, capacity: nat) {
    name == "" || command.slot == "" || command.identity == "" || capacity == 0
  }

  // No row has this identity, and the command is complete.
  predicate IsNew(t: Tables, name: string, command: Command, capacity: nat) {
    !Malformed(name, command, capacity) && forall c :: c in t.inbox ==> !Repeats(t.inbox, c, command)
  }

  function DecisionOn(t: Tables, command: Command): Sequence.Decision
    requires command.payload.Hall?
  {
    Sequence.Evaluate(CursorOf(t.domain.cursors, command.sensor), FactOf(command))
  }

  // A Hall arrival of the slot that waits for its confirmation time.
  predicate Waits(inbox: Inbox, c: CommandId, slot: SlotId) {
    c in inbox && inbox[c].command.slot == slot && inbox[c].status == Pending && inbox[c].command.payload.Hall? &&
    inbox[c].command.payload.state == HallOccupied && inbox[c].command.dueAt > 0
  }

  // The command may go into the inbox, if there is room and its slot and id allow it.
  predicate Welcome(t: Tables, name: string, command: Command, capacity: nat) {
    IsNew(t, name, command, capacity) &&
    (command.payload.Hall? ==>
       command.sensor != "" && DecisionOn(t, command) == Sequence.Accept && command.payload.state != HallUnsupported &&
       (command.payload.state == HallOccupied ==> forall c :: c in t.inbox ==> !Waits(t.inbox, c, command.slot)))
  }

  // The rows that count against the capacity: the pending ones, without an arrival that this departure cancels.
  function Occupying(t: Tables, command: Command): set<CommandId> {
    set c | c in t.inbox && t.inbox[c].status == Pending &&
            !(command.payload.Hall? && command.payload.state == HallVacant && Waits(t.inbox, c, command.slot) &&
              OccurredAt(command) < t.inbox[c].command.dueAt)
  }

  lemma OccupyingIs(t: Tables, command: Command)
    requires OneCandidatePerSlot(t.inbox)
    ensures PendingIds(AfterCancel(t.inbox, command)) == Occupying(t, command)
  {
    var found := FindCandidate(t.inbox, command.slot);
    if found.Some? {
      assert IsCandidate(t.inbox[found.value], command.slot);
      assert forall c :: c in t.inbox && IsCandidate(t.inbox[c], command.slot) ==> c == found.value;
    }
    assert forall c :: c in t.inbox ==> (IsCandidate(t.inbox[c], command.slot) <==> Waits(t.inbox, c, command.slot));
    hide FindCandidate, OneCandidatePerSlot, OccurredAt;
  }

  lemma FindsRepeated(t: Tables, command: Command)
    requires UniqueIdentities(t.inbox) && !command.payload.Deadline?
    ensures FindIdentity(t.inbox, command).None? <==> forall c :: c in t.inbox ==> !Repeats(t.inbox, c, command)
    ensures forall c :: c in t.inbox && Repeats(t.inbox, c, command) ==> FindIdentity(t.inbox, command) == Some(c)
  {
    forall c | c in t.inbox ensures SameIdentity(t.inbox[c].command, command) <==> Repeats(t.inbox, c, command) {}
    var found := FindIdentity(t.inbox, command);
    forall c | c in t.inbox && Repeats(t.inbox, c, command) ensures found == Some(c) {
      assert SameIdentity(t.inbox[c].command, t.inbox[found.value].command);
    }
  }

  lemma FindsWaiting(t: Tables, slot: SlotId)
    ensures FindCandidate(t.inbox, slot).Some? <==> exists c :: c in t.inbox && Waits(t.inbox, c, slot)
  {
    forall c | c in t.inbox ensures IsCandidate(t.inbox[c], slot) <==> Waits(t.inbox, c, slot) {}
    hide IsCandidate, Waits;
  }

  // The row of a repeated report decides its answer.
  lemma RepeatedAnswer(t: Tables, name: string, command: Command, capacity: nat, now: int, c: CommandId)
    requires UniqueIdentities(t.inbox) && !command.payload.Deadline? && !Malformed(name, command, capacity)
    requires c in t.inbox && Repeats(t.inbox, c, command)
    ensures var answer := Admit(t, name, command, capacity, now);
            answer.tables == t && answer.id == c &&
            answer.code == if c != External(name) || !SameReport(t.inbox[c].command, command) then Conflict
                           else if t.inbox[c].status == Pending then Existing else AlreadyTerminal
  {
    FindsRepeated(t, command);
    SameFactIff(t.inbox[c].command, command);
    hide UniqueIdentities, FindIdentity, SourceFact, SameReport, FindCandidate, PendingIds, AfterCancel, TopOrdinal, NewRow;
    hide HallRefused;
  }

  // The order of the checks on a report that is not in the inbox.
  lemma NewAnswer(t: Tables, name: string, command: Command, capacity: nat, now: int)
    requires UniqueIdentities(t.inbox) && OneCandidatePerSlot(t.inbox) && !command.payload.Deadline?
    requires IsNew(t, name, command, capacity)
    ensures var code := Admit(t, name, command, capacity, now).code;
            if !Welcome(t, name, command, capacity) then
              command.payload.Hall? &&
              code == if command.sensor == "" then Conflict
                      else if DecisionOn(t, command) == Sequence.Invalid then Conflict
                      else if DecisionOn(t, command) != Sequence.Accept then RejectedStale
                      else if command.payload.state == HallUnsupported then Conflict else Existing
            else
              code == if |Occupying(t, command)| >= capacity then CapacityFull
                      else if External(name) in t.inbox || command.slot !in t.domain.slots then RetryableFailure
                      else NewlyAdmitted
  {
    FindsRepeated(t, command);
    FindsWaiting(t, command.slot);
    OccupyingIs(t, command);
    CancelKeepsRows(t.inbox, command, External(name));
    hide UniqueIdentities, OneCandidatePerSlot, FindIdentity, SourceFact, FindCandidate, PendingIds, AfterCancel, TopOrdinal;
    hide NewRow, Repeats, Waits, Occupying, Sequence.Evaluate;
  }

  /**
    Every answer of an admission, on tables of a reachable world. Nothing changes but by NewlyAdmitted.
  */
  lemma {:induction false} AdmissionAnswersExactly(w: World, name: string, command: Command, capacity: nat, now: int)
    requires Invariant(w) && !command.payload.Deadline?
    ensures var t, id := w.tables, External(name); var answer := Admit(t, name, command, capacity, now);
            (answer.code == Existing <==>
               (!Malformed(name, command, capacity) && Repeats(t.inbox, id, command) &&
                SameReport(t.inbox[id].command, command) && t.inbox[id].status == Pending) ||
               (IsNew(t, name, command, capacity) && command.payload.Hall? && command.sensor != "" &&
                DecisionOn(t, command) == Sequence.Accept && command.payload.state == HallOccupied &&
                exists c :: c in t.inbox && Waits(t.inbox, c, command.slot))) &&
            (answer.code == AlreadyTerminal <==>
               !Malformed(name, command, capacity) && Repeats(t.inbox, id, command) &&
               SameReport(t.inbox[id].command, command) && t.inbox[id].status != Pending) &&
            (answer.code == RejectedStale <==>
               IsNew(t, name, command, capacity) && command.payload.Hall? && command.sensor != "" &&
               DecisionOn(t, command) != Sequence.Accept && DecisionOn(t, command) != Sequence.Invalid) &&
            (answer.code == CapacityFull <==>
               Welcome(t, name, command, capacity) && |Occupying(t, command)| >= capacity) &&
            (answer.code == RetryableFailure <==>
               Welcome(t, name, command, capacity) && |Occupying(t, command)| < capacity &&
               (id in t.inbox || command.slot !in t.domain.slots)) &&
            (answer.code == NewlyAdmitted <==>
               Welcome(t, name, command, capacity) && |Occupying(t, command)| < capacity &&
               id !in t.inbox && command.slot in t.domain.slots) &&
            (answer.code != NewlyAdmitted ==> answer.tables == t)
  {
    var t := w.tables;
    assert UniqueIdentities(t.inbox) && OneCandidatePerSlot(t.inbox) by { SafeKeys(w); }
    hide Invariant, UniqueIdentities, OneCandidatePerSlot, Admit, SameReport, Occupying, Sequence.Evaluate, Waits;
    if Malformed(name, command, capacity) {
      MalformedAnswer(t, name, command, capacity, now);
    } else if c :| c in t.inbox && Repeats(t.inbox, c, command) {
      RepeatedAnswer(t, name, command, capacity, now, c);
      OneRepeated(t, command, c);
    } else {
      NewAnswer(t, name, command, capacity, now);
    }
    UnchangedUnlessNew(t, name, command, capacity, now);
  }

  lemma OneRepeated(t: Tables, command: Command, c: CommandId)
    requires UniqueIdentities(t.inbox) && !command.payload.Deadline? && c in t.inbox && Repeats(t.inbox, c, command)
    ensures forall e :: e in t.inbox && Repeats(t.inbox, e, command) ==> e == c
  {
    FindsRepeated(t, command);
  }

  lemma MalformedAnswer(t: Tables, name: string, command: Command, capacity: nat, now: int)
    requires Malformed(name, command, capacity) && !command.payload.Deadline?
    ensures Admit(t, name, command, capacity, now).code == Conflict
  {
  }

  lemma UnchangedUnlessNew(t: Tables, name: string, command: Command, capacity: nat, now: int)
    requires !command.payload.Deadline?
    ensures Admit(t, name, command, capacity, now).code != NewlyAdmitted ==> Admit(t, name, command, capacity, now).tables == t
  {
  }

  lemma SafeKeys(w: World)
    requires Invariant(w)
    ensures UniqueIdentities(w.tables.inbox) && OneCandidatePerSlot(w.tables.inbox)
  {
    hide UniqueIdentities, OneCandidatePerSlot;
  }

  // ---------------------------------------------------------------- what a new command brings

  /**
    A newly admitted command waits untouched behind every row of the inbox; of the other rows only an
    arrival that it cancels changes, which becomes terminal without an effect.
  */
  lemma {:induction false} NewCommandJoins(w: World, name: string, command: Command, capacity: nat, now: int)
    requires Invariant(w) && !command.payload.Deadline?
    requires Admit(w.tables, name, command, capacity, now).code == NewlyAdmitted
    ensures var t, after, id := w.tables, Exec(w, Submit(name, command, capacity, now)).tables, External(name);
            after.domain == t.domain && id !in t.inbox && after.inbox.Keys == t.inbox.Keys + {id} &&
            after.inbox[id].command == command && after.inbox[id].status == Pending &&
            after.inbox[id].createdAt == now && after.inbox[id].nextTryAt == 0 && after.inbox[id].tries == 0 &&
            after.inbox[id].effect == NoEffect && after.inbox[id].result.None? &&
            after.inbox[id].attempt == NoAttempt && after.inbox[id].generation == 0 &&
            after.inbox[id].correlation == (if command.payload.Camera? then command.payload.correlation else "") &&
            (forall c :: c in t.inbox ==> t.inbox[c].ordinal < after.inbox[id].ordinal) &&
            forall c :: c in t.inbox ==>
              if command.payload.Hall? && command.payload.state == HallVacant && Waits(t.inbox, c, command.slot) &&
                 OccurredAt(command) < t.inbox[c].command.dueAt
              then after.inbox[c] == t.inbox[c].(status := Applied, result := Some(NoChange))
              else after.inbox[c] == t.inbox[c]
  {
    hide Invariant, OneCandidatePerSlot, Exec, Admit, AfterCancel, Waits, TopOrdinal, OccurredAt, NewRow;
    SafeKeys(w);
    CancelsOne(w.tables.inbox, command);
    CancelOrdinalsStay(w.tables.inbox, command);
    AllBelowTop(AfterCancel(w.tables.inbox, command));
    AdmittedShape(w, name, command, capacity, now);
    NewRowSays(command, TopOrdinal(AfterCancel(w.tables.inbox, command)) + 1, now);
  }

  lemma AdmittedShape(w: World, name: string, command: Command, capacity: nat, now: int)
    requires !command.payload.Deadline? && Admit(w.tables, name, command, capacity, now).code == NewlyAdmitted
    ensures External(name) !in w.tables.inbox
    ensures var inbox := AfterCancel(w.tables.inbox, command);
            Exec(w, Submit(name, command, capacity, now)).tables ==
              w.tables.(inbox := inbox[External(name) := NewRow(command, TopOrdinal(inbox) + 1, now)])
  {
    CancelKeepsRows(w.tables.inbox, command, External(name));
    hide FindIdentity, SourceFact, TopOrdinal, PendingIds, FindCandidate, NewRow, HallRefused, AfterCancel;
  }

  lemma NewRowSays(command: Command, ordinal: nat, now: int)
    ensures var row := NewRow(command, ordinal, now);
            row.command == command && row.ordinal == ordinal && row.createdAt == now && row.status == Pending &&
            row.nextTryAt == 0 && row.tries == 0 && row.effect == NoEffect && row.result.None? &&
            (!command.payload.Deadline? ==> row.attempt == NoAttempt && row.generation == 0) &&
            row.correlation == if command.payload.Camera? then command.payload.correlation else ""
  {
  }

  lemma CancelsOne(inbox: Inbox, command: Command)
    requires OneCandidatePerSlot(inbox)
    ensures AfterCancel(inbox, command).Keys == inbox.Keys
    ensures forall c :: c in inbox ==>
      AfterCancel(inbox, command)[c] ==
      if command.payload.Hall? && command.payload.state == HallVacant && Waits(inbox, c, command.slot) &&
         OccurredAt(command) < inbox[c].command.dueAt
      then inbox[c].(status := Applied, result := Some(NoChange)) else inbox[c]
  {
    var found := FindCandidate(inbox, command.slot);
    forall c | c in inbox ensures IsCandidate(inbox[c], command.slot) <==> Waits(inbox, c, command.slot) {}
    hide OccurredAt;
  }

  lemma CancelOrdinalsStay(inbox: Inbox, command: Command)
    ensures AfterCancel(inbox, command).Keys == inbox.Keys
    ensures forall c :: c in inbox ==> AfterCancel(inbox, command)[c].ordinal == inbox[c].ordinal
  {
  }

  // The row of an admitted deadline: its command says what the deadline row says.
  predicate IsDeadlineRow(row: Row, x: DeadlineId, deadline: ExitDeadline, now: int) {
    row.command.slot == x.slot && row.command.dueAt == deadline.dueAt && row.command.payload.Deadline? &&
    row.command.payload.deadline == x && row.command.payload.attempt == deadline.attempt &&
    row.command.payload.session == x.session && row.command.payload.generation == x.generation &&
    row.command.payload.hybrid == deadline.hybrid && row.status == Pending && row.createdAt == now &&
    row.attempt == deadline.attempt && row.generation == x.generation && row.nextTryAt == 0 && row.effect == NoEffect
  }

  predicate DistinctNew(t: Tables, batch: seq<DeadlineId>) {
    (forall i :: 0 <= i < |batch| ==>
       batch[i] in t.domain.deadlines && t.domain.deadlines[batch[i]].state == Scheduled &&
       ForDeadline(batch[i]) !in t.inbox) &&
    forall i, j :: 0 <= i < j < |batch| ==> batch[i] != batch[j]
  }

  predicate BatchJoined(before: Tables, after: Tables, batch: seq<DeadlineId>, now: int) {
    after.domain == before.domain.(deadlines := after.domain.deadlines) &&
    after.domain.deadlines.Keys == before.domain.deadlines.Keys &&
    (forall x :: x in before.domain.deadlines ==>
       after.domain.deadlines[x] ==
       if x in batch then before.domain.deadlines[x].(state := Admitted) else before.domain.deadlines[x]) &&
    (forall c :: c in before.inbox ==> c in after.inbox && after.inbox[c] == before.inbox[c]) &&
    (forall c :: c in after.inbox && c !in before.inbox ==> c.ForDeadline? && c.deadline in batch) &&
    forall x :: x in batch ==>
      x in before.domain.deadlines && ForDeadline(x) in after.inbox &&
      IsDeadlineRow(after.inbox[ForDeadline(x)], x, before.domain.deadlines[x], now)
  }

  lemma FirstJoins(t: Tables, batch: seq<DeadlineId>, ordinal: nat, now: int)
    requires batch != [] && DistinctNew(t, batch)
    ensures var next := AdmitDeadline(t, batch[0], ordinal + 1, now);
            DistinctNew(next, batch[1..]) && BatchJoined(t, next, [batch[0]], now)
  {
  }

  lemma JoinedTwice(t: Tables, next: Tables, after: Tables, batch: seq<DeadlineId>, now: int)
    requires batch != [] && DistinctNew(t, batch)
    requires BatchJoined(t, next, [batch[0]], now) && BatchJoined(next, after, batch[1..], now)
    ensures BatchJoined(t, after, batch, now)
  {
    hide IsDeadlineRow;
    assert batch == [batch[0]] + batch[1..];
    assert batch[0] !in batch[1..];
  }

  lemma {:induction false} BatchJoins(t: Tables, batch: seq<DeadlineId>, ordinal: nat, now: int)
    requires DistinctNew(t, batch)
    ensures BatchJoined(t, AdmitBatch(t, batch, ordinal, now), batch, now)
    decreases batch
  {
    if batch != [] {
      var next := AdmitDeadline(t, batch[0], ordinal + 1, now);
      FirstJoins(t, batch, ordinal, now);
      BatchJoins(next, batch[1..], ordinal + 1, now);
      hide BatchJoined, AdmitDeadline;
      JoinedTwice(t, next, AdmitBatch(next, batch[1..], ordinal + 1, now), batch, now);
    }
  }

  /**
    Due deadlines join the inbox: each of the batch is admitted with a pending command that says what its
    row says; no other deadline and no row of the inbox changes.
  */
  lemma {:induction false} DueDeadlinesJoin(w: World, action: Action)
    requires Invariant(w) && action.AdmitDeadlines?
    requires DueBatch(w.tables, action.now, action.capacity, action.blocked, action.batch)
    ensures BatchJoined(w.tables, Exec(w, action).tables, action.batch, action.now)
  {
    hide Invariant, TopOrdinal, AdmitBatch, StampedBatch, BatchJoined, PendingIds;
    forall i | 0 <= i < |action.batch| ensures ForDeadline(action.batch[i]) !in w.tables.inbox {
      ScheduledIsNew(w, action.batch[i]);
    }
    BatchJoins(w.tables, action.batch, TopOrdinal(w.tables.inbox), action.now);
  }

  // ---------------------------------------------------------------- redelivery over a run

  lemma {:induction false} BatchKeepsCommands(t: Tables, batch: seq<DeadlineId>, ordinal: nat, now: int, c: CommandId)
    requires forall i :: 0 <= i < |batch| ==> batch[i] in t.domain.deadlines
    ensures c in t.inbox ==> c in AdmitBatch(t, batch, ordinal, now).inbox &&
                             AdmitBatch(t, batch, ordinal, now).inbox[c] == t.inbox[c]
    decreases batch
  {
    if batch != [] {
      BatchKeepsCommands(AdmitDeadline(t, batch[0], ordinal + 1, now), batch[1..], ordinal + 1, now, c);
    }
  }

  // A row keeps its command, and does not become pending again, until a purge deletes it.
  lemma RowStays(w: World, action: Action, c: CommandId)
    requires c in w.tables.inbox && !Forgets(w, action, c)
    ensures var after := Exec(w, action).tables.inbox;
            c in after && after[c].command == w.tables.inbox[c].command &&
            (w.tables.inbox[c].status != Pending ==> after[c].status != Pending)
  {
    hide Admit, AdmitBatch, StampedBatch, DueBatch, Apply, AppliedHistory, Runnable, EffectReady, PurgeBatch, TopOrdinal;
    if action.Submit? {
      if !action.command.payload.Deadline? { SubmitKeepsRow(w.tables, action, c); }
    } else if action.AdmitDeadlines? {
      if DueBatch(w.tables, action.now, action.capacity, action.blocked, action.batch) {
        BatchFits(w.tables, action.now, action.capacity, action.blocked, action.batch);
        BatchKeepsCommands(w.tables, action.batch, TopOrdinal(w.tables.inbox), action.now, c);
      }
    } else if action.ApplyCommand? {
      ApplyKeepsRow(w.tables, action.id, c);
    }
  }

  lemma SubmitKeepsRow(t: Tables, action: Action, c: CommandId)
    requires action.Submit? && !action.command.payload.Deadline? && c in t.inbox
    ensures var after := Admit(t, action.name, action.command, action.capacity, action.now).tables.inbox;
            c in after && after[c].command == t.inbox[c].command &&
            (t.inbox[c].status != Pending ==> after[c].status != Pending)
  {
    hide FindIdentity, HallRefused, SourceFact, TopOrdinal, PendingIds, FindCandidate, NewRow;
  }

  lemma ApplyKeepsRow(t: Tables, id: CommandId, c: CommandId)
    requires c in t.inbox
    ensures var after := Apply(t, id).inbox;
            c in after && after[c].command == t.inbox[c].command &&
            (t.inbox[c].status != Pending ==> after[c].status != Pending)
  {
    hide Reduce;
  }

  ghost predicate Purges(start: World, actions: seq<Action>, i: nat, c: CommandId) {
    i < |actions| && Forgets(Run(start, actions[..i]), actions[i], c)
  }

  lemma {:induction false} CommandStays(start: World, actions: seq<Action>, k: nat, c: CommandId)
    requires k <= |actions| && c in Run(start, actions[..k]).tables.inbox
    requires forall i: nat :: k <= i < |actions| ==> !Purges(start, actions, i, c)
    ensures var before, after := Run(start, actions[..k]).tables.inbox, Run(start, actions).tables.inbox;
            c in after && after[c].command == before[c].command &&
            (before[c].status != Pending ==> after[c].status != Pending)
    decreases |actions|
  {
    hide Exec, Forgets;
    var n := |actions| - 1;
    if k == |actions| {
      assert actions[..k] == actions;
    } else {
      assert actions[..n][..k] == actions[..k];
      forall i: nat | k <= i < n ensures !Purges(start, actions[..n], i, c) {
        assert actions[..n][..i] == actions[..i] && actions[..n][i] == actions[i] && !Purges(start, actions, i, c);
      }
      CommandStays(start, actions[..n], k, c);
      assert !Purges(start, actions, n, c);
      RowStays(Run(start, actions[..n]), actions[n], c);
    }
  }

  /**
    Once a report was newly admitted, and as long as no purge deletes its row, delivering the same
    report again under its name leaves the world as it is and is answered Existing while the command
    is pending and AlreadyTerminal afterwards, whatever capacity and receive times come with it;
    another report under its identity, or the same one under another name, is a Conflict.
  */
  lemma {:induction false} RedeliveryIsRecognized(start: World, actions: seq<Action>, k: nat, again: Action)
    requires Fresh(start) && k < |actions| && actions[k].Submit? && !actions[k].command.payload.Deadline?
    requires var w := Run(start, actions[..k]);
             Admit(w.tables, actions[k].name, actions[k].command, actions[k].capacity, actions[k].now).code == NewlyAdmitted
    requires forall i: nat :: k < i < |actions| ==> !Purges(start, actions, i, External(actions[k].name))
    requires again.Submit? && again.capacity > 0 && again.name != "" && again.command.slot != ""
    requires again.command.identity == actions[k].command.identity
    requires again.command.payload.Hall? == actions[k].command.payload.Hall? && !again.command.payload.Deadline?
    ensures var w, c := Run(start, actions), External(actions[k].name);
            var code := Admit(w.tables, again.name, again.command, again.capacity, again.now).code;
            c in w.tables.inbox && Exec(w, again) == w &&
            code == if again.name != actions[k].name || !SameReport(actions[k].command, again.command) then Conflict
                    else if w.tables.inbox[c].status == Pending then Existing else AlreadyTerminal
  {
    hide Exec, Run, Admit, Invariant, Forgets, SameReport;
    var before, c := Run(start, actions[..k]), External(actions[k].name);
    ReachableIsSafe(start, actions[..k]);
    ReachableIsSafe(start, actions);
    RunOne(start, actions, k);
    AdmittedIdentity(before.tables, actions[k]);
    NewCommandJoins(before, actions[k].name, actions[k].command, actions[k].capacity, actions[k].now);
    CommandStays(start, actions, k + 1, c);
    var w := Run(start, actions);
    SafeKeys(w);
    RepeatedAnswer(w.tables, again.name, again.command, again.capacity, again.now, c);
    RefusedSubmit(w, again);
  }

  lemma AdmittedIdentity(t: Tables, action: Action)
    requires action.Submit? && !action.command.payload.Deadline?
    requires Admit(t, action.name, action.command, action.capacity, action.now).code == NewlyAdmitted
    ensures action.command.identity != ""
  {
    hide FindIdentity, HallRefused, SourceFact, TopOrdinal, PendingIds, FindCandidate, NewRow, AfterCancel;
  }

  lemma RefusedSubmit(w: World, action: Action)
    requires action.Submit? && !action.command.payload.Deadline?
    requires Admit(w.tables, action.name, action.command, action.capacity, action.now).code != NewlyAdmitted
    ensures Exec(w, action) == w
  {
    UnchangedUnlessNew(w.tables, action.name, action.command, action.capacity, action.now);
    hide Admit;
  }
}
