/**
  Admission ordinals and the purge. Ordinals are handed out above the highest one in the
  inbox, and the purge may delete the row that holds it; this module says exactly when, and
  that the ordinals of a run are strictly increasing exactly when no admission comes after that.
*/
module OccupancyOrdinals {
  import opened OccupancyTables
  import opened OccupancyReducer
  import opened OccupancyDomain
  import opened OccupancyInbox
  import opened OccupancyWorld
  import opened OccupancySafety
  import opened OccupancyCapacity
  import opened OccupancyReplay

  // ---------------------------------------------------------------- when the newest row is purged

  function SettledBefore(inbox: Inbox, cutoff: int): set<CommandId> {
    set c | c in inbox && Purgeable(inbox[c], cutoff)
  }

  predicate DistinctOrdinals(inbox: Inbox) {
    forall c, e :: c in inbox && e in inbox && inbox[c].ordinal == inbox[e].ordinal ==> c == e
  }

  lemma SubsetGrows(small: set<CommandId>, large: set<CommandId>, c: CommandId)
    requires small <= large && c in large && c !in small
    ensures |small| < |large|
  {
    SubsetSize(small + {c}, large);
  }

  /**
    A purge deletes the row with the highest ordinal exactly when that row is settled before the
    cutoff and the limit covers every row that is.
  */
  lemma {:induction false} NewestIsPurgedIff(inbox: Inbox, cutoff: int, limit: nat, doomed: set<CommandId>,
                                                 newest: CommandId)
    requires PurgeBatch(inbox, cutoff, limit, doomed) && DistinctOrdinals(inbox)
    requires newest in inbox && inbox[newest].ordinal == TopOrdinal(inbox)
    ensures newest in doomed <==> Purgeable(inbox[newest], cutoff) && |SettledBefore(inbox, cutoff)| <= limit
  {
    var all := SettledBefore(inbox, cutoff);
    AllBelowTop(inbox);
    hide TopOrdinal, Purgeable;
    if newest in doomed {
      forall e | e in all ensures e in doomed { assert inbox[e].ordinal <= inbox[newest].ordinal; }
      SubsetSize(all, doomed);
    } else if Purgeable(inbox[newest], cutoff) {
      SubsetGrows(doomed, all, newest);
    }
  }

  // ---------------------------------------------------------------- the ordinals that a run hands out

  function OrdinalIn(inbox: Inbox, c: CommandId): nat {
    if c in inbox then inbox[c].ordinal else 0
  }

  ghost function AssignedBy(w: World, action: Action): seq<nat> {
    var after := Exec(w, action).tables.inbox;
    match action
    case Submit(name, command, capacity, now) =>
      if command.payload.Deadline? || Admit(w.tables, name, command, capacity, now).code != NewlyAdmitted then []
      else [OrdinalIn(after, External(name))]
    case AdmitDeadlines(batch, capacity, blocked, now) =>
      if !DueBatch(w.tables, now, capacity, blocked, batch) then []
      else seq(|batch|, i requires 0 <= i < |batch| => OrdinalIn(after, ForDeadline(batch[i])))
    case _ => []
  }

  ghost function Assigned(start: World, actions: seq<Action>): seq<nat> {
    if actions == [] then []
    else
      var n := |actions| - 1;
      Assigned(start, actions[..n]) + AssignedBy(Run(start, actions[..n]), actions[n])
  }

  predicate Increasing(ordinals: seq<nat>) {
    forall i, j :: 0 <= i < j < |ordinals| ==> ordinals[i] < ordinals[j]
  }

  // This step is a purge that deletes the row with the highest ordinal.
  ghost predicate DropsTop(w: World, action: Action) {
    action.PurgeSettled? && PurgeBatch(w.tables.inbox, action.cutoff, action.limit, action.doomed) &&
    exists c :: c in action.doomed && c in w.tables.inbox && w.tables.inbox[c].ordinal == TopOrdinal(w.tables.inbox)
  }

  ghost predicate DropsAt(start: World, actions: seq<Action>, i: nat) {
    i < |actions| && DropsTop(Run(start, actions[..i]), actions[i])
  }

  ghost predicate AdmitsAt(start: World, actions: seq<Action>, j: nat) {
    j < |actions| && AssignedBy(Run(start, actions[..j]), actions[j]) != []
  }

  // The highest row was dropped and nothing has been admitted since.
  ghost predicate DroppedSince(start: World, actions: seq<Action>) {
    actions != [] &&
    var n := |actions| - 1;
    var w := Run(start, actions[..n]);
    AssignedBy(w, actions[n]) == [] && (DropsTop(w, actions[n]) || DroppedSince(start, actions[..n]))
  }

  // Some admission came after a drop.
  ghost predicate AdmittedAfterDrop(start: World, actions: seq<Action>) {
    exists i: nat, j: nat :: i < j && DropsAt(start, actions, i) && AdmitsAt(start, actions, j)
  }

  // ---------------------------------------------------------------- the highest ordinal after a step

  lemma TopIs(inbox: Inbox, n: nat)
    requires forall c :: c in inbox ==> inbox[c].ordinal <= n
    requires n == 0 || exists c :: c in inbox && inbox[c].ordinal == n
    ensures TopOrdinal(inbox) == n
  {
    AllBelowTop(inbox);
    TopIsHeld(inbox);
    hide TopOrdinal;
  }

  lemma TopIsHeld(inbox: Inbox)
    ensures TopOrdinal(inbox) == 0 || exists c :: c in inbox && inbox[c].ordinal == TopOrdinal(inbox)
  {
    var ordinals := set c | c in inbox :: inbox[c].ordinal;
    if ordinals != {} { assert Latest(ordinals) in ordinals; }
  }

  lemma TopSame(before: Inbox, after: Inbox)
    requires after.Keys == before.Keys && forall c :: c in before ==> after[c].ordinal == before[c].ordinal
    ensures TopOrdinal(after) == TopOrdinal(before)
  {
    AllBelowTop(before);
    TopIsHeld(before);
    hide TopOrdinal;
    if TopOrdinal(before) != 0 {
      var c :| c in before && before[c].ordinal == TopOrdinal(before);
      assert c in after;
    }
    TopIs(after, TopOrdinal(before));
  }

  predicate Positive(inbox: Inbox) {
    forall c :: c in inbox ==> inbox[c].ordinal > 0
  }

  lemma TopAfterPurge(inbox: Inbox, doomed: set<CommandId>)
    requires Positive(inbox) && DistinctOrdinals(inbox) && doomed <= inbox.Keys
    ensures TopOrdinal(inbox - doomed) <= TopOrdinal(inbox)
    ensures TopOrdinal(inbox - doomed) < TopOrdinal(inbox) <==>
            exists c :: c in doomed && c in inbox && inbox[c].ordinal == TopOrdinal(inbox)
  {
    AllBelowTop(inbox);
    TopIsHeld(inbox);
    TopIsHeld(inbox - doomed);
    AllBelowTop(inbox - doomed);
    hide TopOrdinal;
    var top, rest := TopOrdinal(inbox), TopOrdinal(inbox - doomed);
    if rest != 0 {
      var c :| c in inbox - doomed && (inbox - doomed)[c].ordinal == rest;
      assert c in inbox && inbox[c].ordinal == rest;
    }
    if top != 0 {
      var c :| c in inbox && inbox[c].ordinal == top;
      if c !in doomed { assert c in inbox - doomed; }
    }
  }

  // ---------------------------------------------------------------- what a step assigns

  // The step assigns the ordinals right above the highest one, or none; the highest one falls only by a drop.
  ghost predicate StepAssigns(w: World, action: Action) {
    var top, after := TopOrdinal(w.tables.inbox), Exec(w, action).tables.inbox;
    var ordinals := AssignedBy(w, action);
    (forall i :: 0 <= i < |ordinals| ==> ordinals[i] == top + 1 + i) &&
    (ordinals != [] ==> TopOrdinal(after) == top + |ordinals|) &&
    (ordinals == [] ==> TopOrdinal(after) <= top && (TopOrdinal(after) < top <==> DropsTop(w, action)))
  }

  lemma SubmitAssigns(w: World, action: Action)
    requires action.Submit? && !action.command.payload.Deadline? && Positive(w.tables.inbox)
    requires Admit(w.tables, action.name, action.command, action.capacity, action.now).code == NewlyAdmitted
    ensures StepAssigns(w, action) && Positive(Exec(w, action).tables.inbox)
  {
    hide FindIdentity, HallRefused, SourceFact, TopOrdinal, PendingIds, FindCandidate, AfterCancel, DropsTop;
    var inbox, canceled := w.tables.inbox, AfterCancel(w.tables.inbox, action.command);
    assert canceled.Keys == inbox.Keys && forall c :: c in inbox ==> canceled[c].ordinal == inbox[c].ordinal
      by { CancelOrdinals(inbox, action.command); }
    TopSame(inbox, canceled);
    AllBelowTop(canceled);
    var id, after := External(action.name), Exec(w, action).tables.inbox;
    assert after == canceled[id := NewRow(action.command, TopOrdinal(inbox) + 1, action.now)];
    TopIs(after, TopOrdinal(inbox) + 1);
  }

  lemma CancelOrdinals(inbox: Inbox, command: Command)
    ensures AfterCancel(inbox, command).Keys == inbox.Keys
    ensures forall c :: c in inbox ==> AfterCancel(inbox, command)[c].ordinal == inbox[c].ordinal
  {
  }

  lemma {:induction false} BatchOrdinals(w: World, batch: seq<DeadlineId>, ordinal: nat, now: int)
    requires Invariant(w) && Waiting(w.tables, batch, ordinal)
    ensures BatchInserted(w.tables.inbox, AdmitBatch(w.tables, batch, ordinal, now).inbox, batch, ordinal)
    decreases batch
  {
    hide Invariant, Waiting, AdmitDeadline, BatchInserted;
    if batch != [] {
      FirstWaits(w.tables, batch, ordinal);
      var next := World(AdmitDeadline(w.tables, batch[0], ordinal + 1, now),
                        Stamped(w.history, ForDeadline(batch[0])));
      AdmitOneKeeps(w, batch[0], ordinal + 1, now);
      ScheduledIsNew(w, batch[0]);
      WaitingOn(w.tables, batch, ordinal, now);
      BatchOrdinals(next, batch[1..], ordinal + 1, now);
      OneInserted(w.tables, batch, ordinal, now);
    } else {
      NoneInserted(w.tables.inbox, ordinal);
    }
  }

  lemma FirstWaits(t: Tables, batch: seq<DeadlineId>, ordinal: nat)
    requires Waiting(t, batch, ordinal) && batch != []
    ensures forall i :: 0 <= i < |batch| ==> batch[i] in t.domain.deadlines
    ensures t.domain.deadlines[batch[0]].state == Scheduled
    ensures forall c :: c in t.inbox ==> t.inbox[c].ordinal < ordinal + 1
  {
  }

  lemma NoneInserted(inbox: Inbox, ordinal: nat)
    ensures BatchInserted(inbox, inbox, [], ordinal)
  {
  }

  lemma OneInserted(t: Tables, batch: seq<DeadlineId>, ordinal: nat, now: int)
    requires batch != [] && forall i :: 0 <= i < |batch| ==> batch[i] in t.domain.deadlines
    requires ForDeadline(batch[0]) !in t.inbox
    requires var next := AdmitDeadline(t, batch[0], ordinal + 1, now);
             BatchInserted(next.inbox, AdmitBatch(next, batch[1..], ordinal + 1, now).inbox, batch[1..], ordinal + 1)
    ensures BatchInserted(t.inbox, AdmitBatch(t, batch, ordinal, now).inbox, batch, ordinal)
  {
    var next, after := AdmitDeadline(t, batch[0], ordinal + 1, now), AdmitBatch(t, batch, ordinal, now).inbox;
    assert next.inbox.Keys == t.inbox.Keys + {ForDeadline(batch[0])};
    hide AdmitBatch;
    forall i | 0 <= i < |batch|
      ensures ForDeadline(batch[i]) in after && after[ForDeadline(batch[i])].ordinal == ordinal + 1 + i
    {
      if i > 0 { assert batch[1..][i - 1] == batch[i]; }
    }
  }

  // What inserting a batch of fresh deadline commands does to the ordinals.
  predicate BatchInserted(before: Inbox, after: Inbox, batch: seq<DeadlineId>, top: nat) {
    (forall c :: c in before ==> c in after && after[c].ordinal == before[c].ordinal) &&
    (forall i :: 0 <= i < |batch| ==>
       ForDeadline(batch[i]) in after && after[ForDeadline(batch[i])].ordinal == top + 1 + i) &&
    forall c :: c in after && c !in before ==> top < after[c].ordinal <= top + |batch|
  }

  lemma BatchTop(before: Inbox, after: Inbox, batch: seq<DeadlineId>)
    requires BatchInserted(before, after, batch, TopOrdinal(before)) && Positive(before)
    ensures TopOrdinal(after) == TopOrdinal(before) + |batch| && Positive(after)
  {
    AllBelowTop(before);
    hide TopOrdinal;
    var top := TopOrdinal(before);
    if batch == [] {
      assert after.Keys == before.Keys;
      TopSame(before, after);
    } else {
      assert ForDeadline(batch[|batch| - 1]) in after;
      TopIs(after, top + |batch|);
    }
  }

  lemma ExecAdmits(w: World, action: Action)
    requires action.AdmitDeadlines?
    requires DueBatch(w.tables, action.now, action.capacity, action.blocked, action.batch)
    ensures forall i :: 0 <= i < |action.batch| ==> action.batch[i] in w.tables.domain.deadlines
    ensures var after := AdmitBatch(w.tables, action.batch, TopOrdinal(w.tables.inbox), action.now).inbox;
            Exec(w, action).tables.inbox == after && |AssignedBy(w, action)| == |action.batch| &&
            forall i :: 0 <= i < |action.batch| ==>
              AssignedBy(w, action)[i] == OrdinalIn(after, ForDeadline(action.batch[i]))
  {
    hide TopOrdinal, AdmitBatch, StampedBatch, PendingIds;
  }

  lemma AdmitAssigns(w: World, action: Action)
    requires action.AdmitDeadlines? && Invariant(w) && Positive(w.tables.inbox)
    requires DueBatch(w.tables, action.now, action.capacity, action.blocked, action.batch)
    ensures StepAssigns(w, action) && Positive(Exec(w, action).tables.inbox)
  {
    hide Invariant, TopOrdinal, Waiting, AdmitBatch, StampedBatch, DueBatch, DropsTop, Exec, AssignedBy, Positive;
    DueIsWaiting(w.tables, action);
    ExecAdmits(w, action);
    OnlyPurgeDrops(w, action);
    var inbox, batch, top := w.tables.inbox, action.batch, TopOrdinal(w.tables.inbox);
    BatchOrdinals(w, batch, top, action.now);
    BatchTop(inbox, AdmitBatch(w.tables, batch, top, action.now).inbox, batch);
  }

  lemma OnlyPurgeDrops(w: World, action: Action)
    requires !action.PurgeSettled?
    ensures !DropsTop(w, action)
  {
  }

  lemma DueIsWaiting(t: Tables, action: Action)
    requires action.AdmitDeadlines? && DueBatch(t, action.now, action.capacity, action.blocked, action.batch)
    ensures Waiting(t, action.batch, TopOrdinal(t.inbox))
  {
    AllBelowTop(t.inbox);
    hide TopOrdinal, PendingIds;
  }

  lemma OrdinalsStay(w: World, action: Action)
    requires !action.Submit? && !action.AdmitDeadlines? && !action.PurgeSettled?
    ensures var before, after := w.tables.inbox, Exec(w, action).tables.inbox;
            after.Keys == before.Keys && forall c :: c in before ==> after[c].ordinal == before[c].ordinal
  {
    hide EffectReady, Runnable, Reduce, AppliedHistory;
  }

  lemma QuietAssigns(w: World, action: Action)
    requires Positive(w.tables.inbox) && DistinctOrdinals(w.tables.inbox) && AssignedBy(w, action) == []
    requires !(action.AdmitDeadlines? && DueBatch(w.tables, action.now, action.capacity, action.blocked, action.batch))
    ensures StepAssigns(w, action) && Positive(Exec(w, action).tables.inbox)
  {
    hide TopOrdinal, AssignedBy, PurgeBatch;
    var inbox, after := w.tables.inbox, Exec(w, action).tables.inbox;
    if action.PurgeSettled? {
      if PurgeBatch(inbox, action.cutoff, action.limit, action.doomed) {
        assert action.doomed <= inbox.Keys by { DoomedAreRows(inbox, action); }
        TopAfterPurge(inbox, action.doomed);
      }
    } else {
      OnlyPurgeDrops(w, action);
      assert after.Keys == inbox.Keys && forall c :: c in inbox ==> after[c].ordinal == inbox[c].ordinal by {
        if action.Submit? || action.AdmitDeadlines? { NothingAdmitted(w, action); } else { OrdinalsStay(w, action); }
      }
      TopSame(inbox, after);
    }
  }

  lemma DoomedAreRows(inbox: Inbox, action: Action)
    requires action.PurgeSettled? && PurgeBatch(inbox, action.cutoff, action.limit, action.doomed)
    ensures action.doomed <= inbox.Keys
  {
  }

  lemma NothingAdmitted(w: World, action: Action)
    requires (action.Submit? && AssignedBy(w, action) == []) ||
             (action.AdmitDeadlines? && !DueBatch(w.tables, action.now, action.capacity, action.blocked, action.batch))
    ensures Exec(w, action).tables == w.tables
  {
    hide Admit, DueBatch, AdmitDue, StampedBatch;
  }

  lemma OrdinalFacts(w: World)
    requires Invariant(w)
    ensures DistinctOrdinals(w.tables.inbox)
  {
    hide DomainOk, InboxOk, LinkOk, HistoryOk, RunningOk, FramesOk;
  }

  lemma StepOrdinals(w: World, action: Action)
    requires Invariant(w) && Positive(w.tables.inbox)
    ensures StepAssigns(w, action) && Positive(Exec(w, action).tables.inbox)
  {
    OrdinalFacts(w);
    hide Invariant, StepAssigns, Exec, Positive, DistinctOrdinals, DueBatch, Admit;
    if action.AdmitDeadlines? && DueBatch(w.tables, action.now, action.capacity, action.blocked, action.batch) {
      AdmitAssigns(w, action);
    } else if action.Submit? && AssignedBy(w, action) != [] {
      SubmitAssigns(w, action);
    } else {
      QuietAssigns(w, action);
    }
  }

  // ---------------------------------------------------------------- whole runs

  function LastOf(ordinals: seq<nat>): nat {
    if ordinals == [] then 0 else ordinals[|ordinals| - 1]
  }

  // While ordinals have only increased, the highest one in the inbox is the last assigned unless it was dropped.
  ghost predicate InStep(start: World, actions: seq<Action>) {
    var ordinals, inbox := Assigned(start, actions), Run(start, actions).tables.inbox;
    Positive(inbox) &&
    (Increasing(ordinals) ==>
       TopOrdinal(inbox) <= LastOf(ordinals) &&
       (TopOrdinal(inbox) < LastOf(ordinals) <==> DroppedSince(start, actions)))
  }

  // Some admission came right after a drop: the definition by recursion on the run.
  ghost predicate Reused(start: World, actions: seq<Action>) {
    actions != [] &&
    var n := |actions| - 1;
    Reused(start, actions[..n]) ||
    (AssignedBy(Run(start, actions[..n]), actions[n]) != [] && DroppedSince(start, actions[..n]))
  }

  lemma ExtendIncreasing(ordinals: seq<nat>, more: seq<nat>, top: nat)
    requires forall i :: 0 <= i < |more| ==> more[i] == top + 1 + i
    requires Increasing(ordinals) ==> top <= LastOf(ordinals)
    ensures Increasing(ordinals + more) <==>
            Increasing(ordinals) && (more == [] || !(top < LastOf(ordinals)))
    ensures more != [] ==> LastOf(ordinals + more) == top + |more|
  {
    var all := ordinals + more;
    if Increasing(all) {
      forall i, j | 0 <= i < j < |ordinals| ensures ordinals[i] < ordinals[j] { assert all[i] < all[j]; }
      if more != [] && ordinals != [] { assert all[|ordinals| - 1] < all[|ordinals|]; }
    }
  }

  lemma {:induction false} RunInStep(start: World, actions: seq<Action>)
    requires Fresh(start)
    ensures InStep(start, actions)
    ensures Increasing(Assigned(start, actions)) <==> !Reused(start, actions)
  {
    if actions == [] {
      assert TopOrdinal(start.tables.inbox) == 0 by { TopIs(start.tables.inbox, 0); }
    } else {
      var n := |actions| - 1;
      var w := Run(start, actions[..n]);
      RunInStep(start, actions[..n]);
      ReachableIsSafe(start, actions[..n]);
      hide Invariant, Exec, TopOrdinal, Positive, Increasing, AssignedBy, DropsTop, Fresh;
      StepOrdinals(w, actions[n]);
      ExtendIncreasing(Assigned(start, actions[..n]), AssignedBy(w, actions[n]), TopOrdinal(w.tables.inbox));
      EmptyEnd(Assigned(start, actions[..n]));
    }
  }

  lemma EmptyEnd(ordinals: seq<nat>)
    ensures ordinals + [] == ordinals
  {
  }

  lemma PrefixAt(start: World, actions: seq<Action>, i: nat)
    requires actions != [] && i < |actions| - 1
    ensures DropsAt(start, actions[..|actions| - 1], i) <==> DropsAt(start, actions, i)
    ensures AdmitsAt(start, actions[..|actions| - 1], i) <==> AdmitsAt(start, actions, i)
  {
    hide Run, DropsTop, AssignedBy;
    assert actions[..|actions| - 1][..i] == actions[..i];
  }

  lemma {:induction false} DropIsRemembered(start: World, actions: seq<Action>, i: nat)
    requires DropsAt(start, actions, i)
    ensures DroppedSince(start, actions) || Reused(start, actions)
    decreases |actions|
  {
    hide Run, AssignedBy, DropsTop;
    var n := |actions| - 1;
    if i < n {
      PrefixAt(start, actions, i);
      DropIsRemembered(start, actions[..n], i);
    } else {
      PurgeAssignsNothing(Run(start, actions[..n]), actions[n]);
    }
  }

  lemma PurgeAssignsNothing(w: World, action: Action)
    ensures DropsTop(w, action) ==> AssignedBy(w, action) == []
  {
    hide Exec;
  }

  lemma {:induction false} RememberedDrop(start: World, actions: seq<Action>)
    requires DroppedSince(start, actions)
    ensures exists i: nat :: DropsAt(start, actions, i)
  {
    hide Run, AssignedBy, DropsTop;
    var n := |actions| - 1;
    if DropsTop(Run(start, actions[..n]), actions[n]) {
      assert DropsAt(start, actions, n);
    } else {
      RememberedDrop(start, actions[..n]);
      var i: nat :| DropsAt(start, actions[..n], i);
      PrefixAt(start, actions, i);
    }
  }

  lemma {:induction false} ReusedIff(start: World, actions: seq<Action>)
    ensures Reused(start, actions) <==> AdmittedAfterDrop(start, actions)
  {
    hide Run, AssignedBy, DropsAt, AdmitsAt, DroppedSince;
    if actions != [] {
      var n := |actions| - 1;
      ReusedIff(start, actions[..n]);
      if AdmittedAfterDrop(start, actions) {
        var i: nat, j: nat :| i < j && DropsAt(start, actions, i) && AdmitsAt(start, actions, j);
        assert j <= n by { AdmitsInside(start, actions, j); }
        PrefixAt(start, actions, i);
        if j < n {
          PrefixAt(start, actions, j);
        } else {
          DropIsRemembered(start, actions[..n], i);
          AdmitsInside(start, actions, n);
        }
      }
      if Reused(start, actions) { ReusedHasDrop(start, actions); }
    } else if AdmittedAfterDrop(start, actions) {
      var i: nat, j: nat :| i < j && DropsAt(start, actions, i) && AdmitsAt(start, actions, j);
      AdmitsInside(start, actions, j);
    }
  }

  lemma AdmitsInside(start: World, actions: seq<Action>, j: nat)
    requires AdmitsAt(start, actions, j)
    ensures j < |actions| && AssignedBy(Run(start, actions[..j]), actions[j]) != []
  {
  }

  lemma ReusedHasDrop(start: World, actions: seq<Action>)
    requires actions != [] && Reused(start, actions)
    requires Reused(start, actions[..|actions| - 1]) <==> AdmittedAfterDrop(start, actions[..|actions| - 1])
    ensures AdmittedAfterDrop(start, actions)
  {
    hide Run, AssignedBy, DropsTop;
    var n := |actions| - 1;
    if Reused(start, actions[..n]) {
      var i: nat, j: nat :| i < j && DropsAt(start, actions[..n], i) && AdmitsAt(start, actions[..n], j);
      PrefixAt(start, actions, i);
      PrefixAt(start, actions, j);
    } else {
      RememberedDrop(start, actions[..n]);
      var i: nat :| DropsAt(start, actions[..n], i);
      PrefixAt(start, actions, i);
      assert AdmitsAt(start, actions, n);
    }
  }

  /**
    The ordinals that a run hands out are strictly increasing, each above all earlier ones, exactly
    when no admission comes after a purge that deleted the row with the highest ordinal.
  */
  lemma {:induction false} OrdinalsIncreaseIff(start: World, actions: seq<Action>)
    requires Fresh(start)
    ensures Increasing(Assigned(start, actions)) <==> !AdmittedAfterDrop(start, actions)
  {
    hide Assigned, Reused, AdmittedAfterDrop, InStep, Fresh;
    RunInStep(start, actions);
    ReusedIff(start, actions);
  }
}
