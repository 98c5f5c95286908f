/**
  The bound of the pending inbox and the arrival candidates: the inbox never holds more
  pending rows than its capacity, a slot has one candidate, and a candidate that a departure
  canceled never starts a session.
*/
module OccupancyCapacity {
  import opened Options
  import opened OccupancyTables
  import opened OccupancyReducer
  import opened OccupancyInbox
  import opened OccupancyWorld
  import opened OccupancySafety
  import opened OccupancyHybrid
  import opened OccupancyRuns
  import Sequence = SensorSequence

  // ---------------------------------------------------------------- the bound

  predicate CapacityWithin(action: Action, bound: nat) {
    match action
    case Submit(_, _, capacity, _) => capacity <= bound
    case AdmitDeadlines(_, capacity, _, _) => capacity <= bound
    case _ => true
  }

  lemma SubsetSize(small: set<CommandId>, large: set<CommandId>)
    requires small <= large
    ensures |small| <= |large|
  {
    assert large == small + (large - small);
  }

  lemma FewerPending(before: Inbox, after: Inbox)
    requires forall c :: c in after && after[c].status == Pending ==> c in before && before[c].status == Pending
    ensures |PendingIds(after)| <= |PendingIds(before)|
  {
    SubsetSize(PendingIds(after), PendingIds(before));
  }

  lemma OneMorePending(inbox: Inbox, id: CommandId, row: Row)
    ensures |PendingIds(inbox[id := row])| <= |PendingIds(inbox)| + 1
  {
    SubsetSize(PendingIds(inbox[id := row]), PendingIds(inbox) + {id});
  }

  lemma {:induction false} BatchPending(t: Tables, batch: seq<DeadlineId>, ordinal: nat, now: int)
    requires forall i :: 0 <= i < |batch| ==> batch[i] in t.domain.deadlines
    ensures |PendingIds(AdmitBatch(t, batch, ordinal, now).inbox)| <= |PendingIds(t.inbox)| + |batch|
    decreases batch
  {
    hide PendingIds, NewRow;
    if batch != [] {
      var next := AdmitDeadline(t, batch[0], ordinal + 1, now);
      var command := DeadlineCommand(batch[0], t.domain.deadlines[batch[0]]);
      OneMorePending(t.inbox, ForDeadline(batch[0]), NewRow(command, ordinal + 1, now));
      BatchPending(next, batch[1..], ordinal + 1, now);
    }
  }

  lemma SubmitPending(t: Tables, name: string, command: Command, capacity: nat, now: int)
    requires !command.payload.Deadline? && Admit(t, name, command, capacity, now).code == NewlyAdmitted
    ensures |PendingIds(Admit(t, name, command, capacity, now).tables.inbox)| <= capacity
  {
    hide FindIdentity, HallRefused, SourceFact, TopOrdinal, PendingIds, FindCandidate, AfterCancel, NewRow;
    var inbox := AfterCancel(t.inbox, command);
    OneMorePending(inbox, External(name), NewRow(command, TopOrdinal(inbox) + 1, now));
  }

  // Rows become pending only by admission.
  lemma OthersAdmitNothing(w: World, action: Action)
    requires !action.Submit? && !action.AdmitDeadlines?
    ensures var before, after := w.tables.inbox, Exec(w, action).tables.inbox;
            forall c :: c in after && after[c].status == Pending ==> c in before && before[c].status == Pending
  {
    hide Reduce, AppliedHistory, Runnable, EffectReady, PurgeBatch;
  }

  lemma BoundStep(w: World, action: Action, bound: nat)
    requires |PendingIds(w.tables.inbox)| <= bound && CapacityWithin(action, bound)
    ensures |PendingIds(Exec(w, action).tables.inbox)| <= bound
  {
    hide PendingIds, Admit, AdmitBatch, StampedBatch, Apply, AppliedHistory, Runnable, EffectReady, PurgeBatch, TopOrdinal;
    hide Defer, CompleteEffect, DeferEffect, Purge, MarkViolation, DueBatch;
    match action
    case Submit(name, command, capacity, now) =>
      if !command.payload.Deadline? && Admit(w.tables, name, command, capacity, now).code == NewlyAdmitted {
        SubmitPending(w.tables, name, command, capacity, now);
      }
    case AdmitDeadlines(batch, capacity, blocked, now) =>
      if DueBatch(w.tables, now, capacity, blocked, batch) {
        BatchFits(w.tables, now, capacity, blocked, batch);
        BatchPending(w.tables, batch, TopOrdinal(w.tables.inbox), now);
      }
    case _ =>
      hide Exec;
      OthersAdmitNothing(w, action);
      FewerPending(w.tables.inbox, Exec(w, action).tables.inbox);
  }

  lemma BatchFits(t: Tables, now: int, capacity: nat, blocked: set<SlotId>, batch: seq<DeadlineId>)
    requires DueBatch(t, now, capacity, blocked, batch)
    ensures forall i :: 0 <= i < |batch| ==> batch[i] in t.domain.deadlines
    ensures batch == [] || |PendingIds(t.inbox)| + |batch| <= capacity
  {
    hide PendingIds;
  }

  /** While every admission is given a capacity of at most `bound`, at most `bound` commands are pending. */
  lemma {:induction false} PendingStaysBounded(start: World, actions: seq<Action>, bound: nat)
    requires Fresh(start) && forall i :: 0 <= i < |actions| ==> CapacityWithin(actions[i], bound)
    ensures |PendingIds(Run(start, actions).tables.inbox)| <= bound
  {
    hide Exec;
    if actions != [] {
      PendingStaysBounded(start, actions[..|actions| - 1], bound);
      hide PendingIds;
      BoundStep(Run(start, actions[..|actions| - 1]), actions[|actions| - 1], bound);
    }
  }

  // A refusal for lack of room leaves the whole world, canceled candidate included, as it was.
  lemma {:induction false} FullChangesNothing(w: World, action: Action)
    requires action.Submit? && !action.command.payload.Deadline?
    requires Admit(w.tables, action.name, action.command, action.capacity, action.now).code == CapacityFull
    ensures Exec(w, action) == w
    ensures |PendingIds(AfterCancel(w.tables.inbox, action.command))| >= action.capacity
    ensures FindIdentity(w.tables.inbox, action.command).None?
  {
    hide FindIdentity, HallRefused, SourceFact, TopOrdinal, PendingIds, FindCandidate, AfterCancel, NewRow;
  }

  // ---------------------------------------------------------------- candidates

  /** A slot never has two Hall arrivals waiting for their confirmation time. */
  lemma OneArrivalWaits(start: World, actions: seq<Action>, slot: SlotId, c: CommandId, e: CommandId)
    requires Fresh(start)
    requires var inbox := Run(start, actions).tables.inbox;
             c in inbox && e in inbox && IsCandidate(inbox[c], slot) && IsCandidate(inbox[e], slot)
    ensures c == e
  {
    hide Run, Fresh, IsCandidate;
    ReachableIsSafe(start, actions);
    SafeCandidates(Run(start, actions));
  }

  lemma SafeCandidates(w: World)
    requires Invariant(w)
    ensures OneCandidatePerSlot(w.tables.inbox) && forall c :: c in w.tables.inbox ==> RowOk(c, w.tables.inbox[c])
  {
    hide OneCandidatePerSlot, UniqueIdentities;
  }

  // A new VACANT on the slot that was observed before the candidate's confirmation time.
  ghost predicate Cancels(w: World, action: Action, c: CommandId) {
    action.Submit? && action.command.payload.Hall? && action.command.payload.state == HallVacant &&
    c in w.tables.inbox && IsCandidate(w.tables.inbox[c], action.command.slot) &&
    OccurredAt(action.command) < w.tables.inbox[c].command.dueAt &&
    Admit(w.tables, action.name, action.command, action.capacity, action.now).code == NewlyAdmitted
  }

  predicate NotPending(t: Tables, c: CommandId) {
    c in t.inbox ==> t.inbox[c].status != Pending
  }

  lemma CancelSettles(w: World, action: Action, c: CommandId)
    requires Invariant(w) && Cancels(w, action, c)
    ensures c.External?
    ensures var t := Exec(w, action).tables;
            c in t.inbox && t.inbox[c] == Canceled(w.tables.inbox[c]) && t.domain == w.tables.domain
  {
    hide Invariant, FindIdentity, FindCandidate, HallRefused, SourceFact, TopOrdinal, PendingIds, NewRow, Canceled;
    hide AfterCancel, IsCandidate, OneCandidatePerSlot, OccurredAt;
    SafeCandidates(w);
    assert w.tables.inbox[c].command.payload.Hall? by { CandidateIsHall(w.tables.inbox[c], action.command.slot); }
    CancelCancels(w.tables.inbox, action.command, c);
  }

  lemma CandidateIsHall(row: Row, slot: SlotId)
    requires IsCandidate(row, slot)
    ensures row.command.payload.Hall?
  {
  }

  lemma CancelCancels(inbox: Inbox, command: Command, c: CommandId)
    requires OneCandidatePerSlot(inbox) && c in inbox && IsCandidate(inbox[c], command.slot)
    requires command.payload.Hall? && command.payload.state == HallVacant
    requires OccurredAt(command) < inbox[c].command.dueAt
    ensures AfterCancel(inbox, command) == inbox[c := Canceled(inbox[c])]
  {
    hide Canceled;
    assert FindCandidate(inbox, command.slot) == Some(c);
  }

  // The row is still there and no longer pending.
  predicate SettledIn(t: Tables, c: CommandId) {
    c in t.inbox && t.inbox[c].status != Pending
  }

  lemma {:induction false} BatchKeepsSettled(t: Tables, batch: seq<DeadlineId>, ordinal: nat, now: int, c: CommandId)
    requires forall i :: 0 <= i < |batch| ==> batch[i] in t.domain.deadlines
    requires c.External?
    ensures NotPending(t, c) ==> NotPending(AdmitBatch(t, batch, ordinal, now), c)
    ensures SettledIn(t, c) ==> SettledIn(AdmitBatch(t, batch, ordinal, now), c)
    decreases batch
  {
    if batch != [] {
      BatchKeepsSettled(AdmitDeadline(t, batch[0], ordinal + 1, now), batch[1..], ordinal + 1, now, c);
    }
  }

  // A settled row keeps its id from being admitted again.
  lemma SubmitKeepsSettled(t: Tables, name: string, command: Command, capacity: nat, now: int, c: CommandId)
    requires !command.payload.Deadline?
    ensures SettledIn(t, c) ==> SettledIn(Admit(t, name, command, capacity, now).tables, c)
    ensures NotPending(t, c) && c != External(name) ==> NotPending(Admit(t, name, command, capacity, now).tables, c)
  {
    hide FindIdentity, HallRefused, SourceFact, TopOrdinal, PendingIds, FindCandidate;
  }

  // This step is a purge that deletes the row of c.
  ghost predicate Forgets(w: World, action: Action, c: CommandId) {
    action.PurgeSettled? && PurgeBatch(w.tables.inbox, action.cutoff, action.limit, action.doomed) && c in action.doomed
  }

  predicate Submits(action: Action, c: CommandId) {
    action.Submit? && External(action.name) == c
  }

  lemma StaysSettled(w: World, action: Action, c: CommandId)
    requires c.External? && NotPending(w.tables, c)
    requires c !in w.tables.inbox ==> !Submits(action, c)
    ensures NotPending(Exec(w, action).tables, c)
    ensures SettledIn(w.tables, c) ==> SettledIn(Exec(w, action).tables, c) || Forgets(w, action, c)
  {
    hide Admit, AdmitBatch, StampedBatch, Apply, AppliedHistory, Runnable, EffectReady, TopOrdinal, DueBatch;
    hide PurgeBatch;
    if action.Submit? {
      if !action.command.payload.Deadline? {
        SubmitKeepsSettled(w.tables, action.name, action.command, action.capacity, action.now, c);
      }
    } else if action.AdmitDeadlines? {
      if DueBatch(w.tables, action.now, action.capacity, action.blocked, action.batch) {
        BatchFits(w.tables, action.now, action.capacity, action.blocked, action.batch);
        BatchKeepsSettled(w.tables, action.batch, TopOrdinal(w.tables.inbox), action.now, c);
      }
    } else {
      OthersAdmitNothing(w, action);
      if c in w.tables.inbox { OthersKeepRows(w, action, c); }
    }
  }

  lemma OthersKeepRows(w: World, action: Action, c: CommandId)
    requires !action.Submit? && !action.AdmitDeadlines? && c in w.tables.inbox
    ensures c in Exec(w, action).tables.inbox || Forgets(w, action, c)
  {
    hide Reduce, AppliedHistory, Runnable, EffectReady, PurgeBatch;
  }

  // The sessions that command c started.
  function StartedBy(sessions: Sessions, c: CommandId): set<SessionId> {
    set s | s in sessions && sessions[s].entryCommand == c
  }

  lemma SettledStartsNothing(w: World, action: Action, c: CommandId)
    requires Invariant(w) && NotPending(w.tables, c)
    ensures StartedBy(Exec(w, action).tables.domain.sessions, c) == StartedBy(w.tables.domain.sessions, c)
  {
    hide Invariant, Exec;
    if StepApplies(w, action) {
      AppliedSessions(w, action);
    } else {
      QuietSessions(w, action);
    }
  }

  ghost predicate ForgetsAt(start: World, actions: seq<Action>, i: nat, c: CommandId) {
    i < |actions| && Forgets(Run(start, actions[..i]), actions[i], c)
  }

  // After step k, no purge of c is followed by a submission of c.
  ghost predicate NotRevived(start: World, actions: seq<Action>, k: nat, c: CommandId) {
    forall i, j :: k <= i < j < |actions| && ForgetsAt(start, actions, i, c) ==> !Submits(actions[j], c)
  }

  lemma {:induction false} SettledStays(start: World, actions: seq<Action>, k: nat, c: CommandId)
    requires Fresh(start) && c.External? && k <= |actions| && SettledIn(Run(start, actions[..k]).tables, c)
    requires NotRevived(start, actions, k, c)
    ensures NotPending(Run(start, actions).tables, c)
    ensures c in Run(start, actions).tables.inbox || exists i :: k <= i && ForgetsAt(start, actions, i, c)
    ensures StartedBy(Run(start, actions).tables.domain.sessions, c) ==
            StartedBy(Run(start, actions[..k]).tables.domain.sessions, c)
    decreases |actions|
  {
    hide Exec, Run, Invariant, StartedBy, Fresh, Forgets, Submits;
    if k == |actions| {
      assert actions[..k] == actions;
    } else {
      var n := |actions| - 1;
      var before, w := actions[..n], Run(start, actions[..n]);
      assert before[..k] == actions[..k];
      forall i | k <= i < n ensures ForgetsAt(start, before, i, c) <==> ForgetsAt(start, actions, i, c) {
        assert before[..i] == actions[..i];
      }
      SettledStays(start, before, k, c);
      ReachableIsSafe(start, before);
      StaysSettled(w, actions[n], c);
      SettledStartsNothing(w, actions[n], c);
      assert actions[..n + 1] == actions;
      RunOne(start, actions, n);
      if c in w.tables.inbox {
        assert Forgets(w, actions[n], c) ==> ForgetsAt(start, actions, n, c);
      } else {
        var i :| k <= i && ForgetsAt(start, before, i, c);
        assert ForgetsAt(start, actions, i, c);
      }
    }
  }

  /**
    A departure observed before the candidate's confirmation time, admitted while it waited,
    settles the candidate without an effect. It starts no session in any continuation of the run,
    however often it is delivered again, unless its row is purged first.
  */
  lemma {:induction false} CanceledCandidateStartsNothing(start: World, actions: seq<Action>, k: nat, c: CommandId)
    requires Fresh(start) && k < |actions| && Cancels(Run(start, actions[..k]), actions[k], c)
    requires NotRevived(start, actions, k + 1, c)
    ensures var row := Run(start, actions[..k + 1]).tables.inbox;
            c in row && row[c].status == Applied && row[c].result == Some(NoChange) && row[c].effect == NoEffect
    ensures NotPending(Run(start, actions).tables, c)
    ensures StartedBy(Run(start, actions).tables.domain.sessions, c) ==
            StartedBy(Run(start, actions[..k]).tables.domain.sessions, c)
  {
    hide Exec, Run, Invariant, Cancels, StartedBy, Fresh, NotRevived;
    var w := Run(start, actions[..k]);
    ReachableIsSafe(start, actions[..k]);
    RunOne(start, actions, k);
    CancelSettles(w, actions[k], c);
    CandidateHasNoEffect(w, actions[k], c);
    SettledStays(start, actions, k + 1, c);
  }

  lemma CandidateHasNoEffect(w: World, action: Action, c: CommandId)
    requires Invariant(w) && Cancels(w, action, c)
    ensures w.tables.inbox[c].effect == NoEffect
  {
    SafeCandidates(w);
    hide Invariant, Admit;
  }

  // The guards of an admission, in the order in which they are checked.
  ghost predicate Admissible(t: Tables, command: Command, capacity: nat) {
    command.slot != "" && command.identity != "" && capacity > 0 && FindIdentity(t.inbox, command).None? &&
    (command.payload.Hall? ==>
       command.sensor != "" && !HallRefused(t.domain, command) && command.payload.state != HallUnsupported &&
       (command.payload.state == HallOccupied ==> FindCandidate(t.inbox, command.slot).None?)) &&
    |PendingIds(AfterCancel(t.inbox, command))| < capacity && command.slot in t.domain.slots
  }

  /** A command that is not pending becomes pending again exactly when its row is gone and it is admissible as new. */
  lemma ResubmissionRevivesIff(t: Tables, name: string, command: Command, capacity: nat, now: int)
    requires !command.payload.Deadline? && name != "" && NotPending(t, External(name))
    ensures !NotPending(Admit(t, name, command, capacity, now).tables, External(name)) <==>
            External(name) !in t.inbox && Admissible(t, command, capacity)
  {
    hide FindIdentity, SourceFact, TopOrdinal, PendingIds, FindCandidate, Sequence.Evaluate;
    hide AfterCancel;
    CancelKeepsRows(t.inbox, command, External(name));
  }

  lemma CancelKeepsRows(inbox: Inbox, command: Command, c: CommandId)
    ensures c in AfterCancel(inbox, command) <==> c in inbox
    ensures c in inbox && inbox[c].status != Pending ==> AfterCancel(inbox, command)[c].status != Pending
  {
  }
}
