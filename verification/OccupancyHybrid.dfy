/**
  Runs in which every command carries the HYBRID_OR policy: a session that both sensors
  confirmed ends only after the Hall sensor reported VACANT and the camera's exit came due.
*/
module OccupancyHybrid {
  import opened Options
  import opened OccupancyTables
  import opened OccupancyReducer
  import opened OccupancyDomain
  import opened OccupancyInbox
  import opened OccupancyWorld
  import opened OccupancyInvariant
  import opened OccupancySafety
  import opened OccupancySessions
  import opened OccupancyExit
  import opened OccupancyRuns

  // ---------------------------------------------------------------- how steps move sessions

  lemma AppliedSessions(w: World, action: Action)
    requires Invariant(w) && action.ApplyCommand? && Runnable(w.tables.inbox, action.now, action.id)
    ensures SessionsMove(w.tables.domain.sessions, Exec(w, action).tables.domain.sessions, action.id,
                         w.tables.inbox[action.id].command)
  {
    assert DomainOk(w.tables.domain);
    hide Invariant, DomainOk, SessionsMove, Reduce, Runnable, AppliedHistory;
    var row := w.tables.inbox[action.id];
    RunnableIsPending(w.tables.inbox, action.now, action.id);
    StillSessions(w.tables.domain.sessions, action.id, row.command);
    if Reduce(w.tables.domain, action.id, row).Commit? { ReduceSessions(w.tables.domain, action.id, row); }
  }

  predicate SameLatches(before: Session, after: Session) {
    SameSession(before, after) && after.hallOccupied == before.hallOccupied && after.ivaOccupied == before.ivaOccupied
  }

  // Steps that apply nothing leave every latch where it is.
  predicate StepApplies(w: World, action: Action) {
    action.ApplyCommand? && Runnable(w.tables.inbox, action.now, action.id)
  }

  lemma QuietSessions(w: World, action: Action)
    requires !StepApplies(w, action)
    ensures var before, after := w.tables.domain.sessions, Exec(w, action).tables.domain.sessions;
            after.Keys == before.Keys && forall s :: s in before ==> SameLatches(before[s], after[s])
  {
    hide EffectReady, PurgeBatch, PendingIds, FindIdentity, FindCandidate, HallRefused, SourceFact;
    hide AfterCancel, TopOrdinal, NewRow, AdmitBatch, StampedBatch, Runnable;
    if action.AdmitDeadlines? && DueBatch(w.tables, action.now, action.capacity, action.blocked, action.batch) {
      BatchDomain(w.tables, action.batch, TopOrdinal(w.tables.inbox), action.now);
    }
  }

  // ---------------------------------------------------------------- everything carries the policy

  predicate HybridAction(action: Action) {
    action.Submit? ==> action.command.payload.hybrid
  }

  predicate HybridRun(actions: seq<Action>) {
    forall i :: 0 <= i < |actions| ==> HybridAction(actions[i])
  }

  predicate AllHybrid(t: Tables) {
    (forall c :: c in t.inbox ==> t.inbox[c].command.payload.hybrid) &&
    (forall x :: x in t.domain.deadlines ==> t.domain.deadlines[x].hybrid)
  }

  lemma {:induction false} HybridBatch(t: Tables, batch: seq<DeadlineId>, ordinal: nat, now: int)
    requires AllHybrid(t) && forall i :: 0 <= i < |batch| ==> batch[i] in t.domain.deadlines
    ensures AllHybrid(AdmitBatch(t, batch, ordinal, now))
    decreases batch
  {
    if batch != [] {
      HybridBatch(AdmitDeadline(t, batch[0], ordinal + 1, now), batch[1..], ordinal + 1, now);
    }
  }

  lemma HybridApply(w: World, id: CommandId, now: int)
    requires Invariant(w) && AllHybrid(w.tables) && Runnable(w.tables.inbox, now, id)
    ensures AllHybrid(Apply(w.tables, id))
  {
    hide Invariant, Reduce;
    RowFacts(w, id);
    if Reduce(w.tables.domain, id, w.tables.inbox[id]).Commit? {
      ReduceAdmitted(w.tables.domain, id, w.tables.inbox[id]);
    }
  }

  lemma HybridSubmit(t: Tables, name: string, command: Command, capacity: nat, now: int)
    requires AllHybrid(t) && command.payload.hybrid && !command.payload.Deadline?
    ensures AllHybrid(Admit(t, name, command, capacity, now).tables)
  {
    hide FindIdentity, HallRefused, SourceFact, TopOrdinal, PendingIds;
    hide FindCandidate;
  }

  lemma HybridStep(w: World, action: Action)
    requires Invariant(w) && AllHybrid(w.tables) && HybridAction(action)
    ensures AllHybrid(Exec(w, action).tables)
  {
    hide Invariant, Runnable, Apply, AppliedHistory, Admit, StampedBatch, TopOrdinal, EffectReady, PurgeBatch;
    hide AdmitBatch;
    match action
    case Submit(name, command, capacity, now) =>
      if !command.payload.Deadline? { HybridSubmit(w.tables, name, command, capacity, now); }
    case AdmitDeadlines(batch, capacity, blocked, now) =>
      if DueBatch(w.tables, now, capacity, blocked, batch) {
        HybridBatch(w.tables, batch, TopOrdinal(w.tables.inbox), now);
      }
    case ApplyCommand(id, now) =>
      if Runnable(w.tables.inbox, now, id) { HybridApply(w, id, now); }
    case _ =>
  }

  lemma {:induction false} HybridRunStays(start: World, actions: seq<Action>)
    requires Fresh(start) && HybridRun(actions)
    ensures AllHybrid(Run(start, actions).tables)
  {
    hide Exec, Invariant;
    if actions != [] {
      var before := actions[..|actions| - 1];
      HybridRunStays(start, before);
      ReachableIsSafe(start, before);
      HybridStep(Run(start, before), actions[|actions| - 1]);
    }
  }

  // ---------------------------------------------------------------- a latch falls by its own sensor

  // This step applies a Hall VACANT on the slot.
  predicate HallVacates(w: World, action: Action, slot: SlotId) {
    StepApplies(w, action) && w.tables.inbox[action.id].command.slot == slot &&
    HallLeft(w.tables.inbox[action.id].command)
  }

  // This step applies an exit deadline of the slot, which is not stale.
  ghost predicate CameraVacates(w: World, action: Action, slot: SlotId) {
    StepApplies(w, action) && w.tables.inbox[action.id].command.slot == slot &&
    w.tables.inbox[action.id].command.payload.Deadline? &&
    Exec(w, action).tables.inbox[action.id].result != Some(StaleGeneration)
  }

  predicate HallFell(w: World, w': World, s: SessionId) {
    s in w.tables.domain.sessions && s in w'.tables.domain.sessions &&
    w.tables.domain.sessions[s].hallOccupied && !w'.tables.domain.sessions[s].hallOccupied
  }

  predicate IvaFell(w: World, w': World, s: SessionId) {
    s in w.tables.domain.sessions && s in w'.tables.domain.sessions &&
    w.tables.domain.sessions[s].ivaOccupied && !w'.tables.domain.sessions[s].ivaOccupied
  }

  lemma HallFallsByVacant(w: World, action: Action, s: SessionId)
    requires Invariant(w) && AllHybrid(w.tables) && HallFell(w, Exec(w, action), s)
    ensures HallVacates(w, action, w.tables.domain.sessions[s].slot)
  {
    hide Invariant, Exec, Runnable;
    if StepApplies(w, action) {
      AppliedSessions(w, action);
      RunnableIsPending(w.tables.inbox, action.now, action.id);
    } else {
      QuietSessions(w, action);
    }
  }

  lemma StaleKeepsSessions(w: World, action: Action)
    requires Invariant(w) && StepApplies(w, action) && w.tables.inbox[action.id].command.payload.Deadline?
    requires Exec(w, action).tables.inbox[action.id].result == Some(StaleGeneration)
    ensures Exec(w, action).tables.domain.sessions == w.tables.domain.sessions
  {
    hide Invariant, AppliedHistory, Runnable, AdmittedKept, GenerationsGrow, DeadlineOwnsSlot, ExitStillStands;
    hide CloseSession;
    RunnableIsPending(w.tables.inbox, action.now, action.id);
  }

  lemma AppliedRowStays(w: World, action: Action)
    requires StepApplies(w, action)
    ensures action.id in Exec(w, action).tables.inbox
  {
    hide Reduce, AppliedHistory;
  }

  lemma IvaFallsByExit(w: World, action: Action, s: SessionId)
    requires Invariant(w) && AllHybrid(w.tables) && IvaFell(w, Exec(w, action), s)
    ensures CameraVacates(w, action, w.tables.domain.sessions[s].slot)
  {
    hide Invariant, Exec, Runnable;
    if StepApplies(w, action) {
      AppliedSessions(w, action);
      RunnableIsPending(w.tables.inbox, action.now, action.id);
      assert action.id in Exec(w, action).tables.inbox by { AppliedRowStays(w, action); }
      if Exec(w, action).tables.inbox[action.id].result == Some(StaleGeneration) { StaleKeepsSessions(w, action); }
    } else {
      QuietSessions(w, action);
    }
  }

  // ---------------------------------------------------------------- whole runs

  // Step k of the run lowers the Hall latch of session s, because a Hall VACANT is applied on its slot.
  ghost predicate HallReported(start: World, actions: seq<Action>, k: nat, s: SessionId) {
    k < |actions| &&
    var w, w' := Run(start, actions[..k]), Run(start, actions[..k + 1]);
    HallFell(w, w', s) && HallVacates(w, actions[k], w.tables.domain.sessions[s].slot)
  }

  ghost predicate IvaReported(start: World, actions: seq<Action>, k: nat, s: SessionId) {
    k < |actions| &&
    var w, w' := Run(start, actions[..k]), Run(start, actions[..k + 1]);
    IvaFell(w, w', s) && CameraVacates(w, actions[k], w.tables.domain.sessions[s].slot)
  }

  // One sensor of one session, seen over one step: confirming raises the latch.
  lemma ConfirmedStep(w: World, action: Action, s: SessionId)
    requires Invariant(w) && s in Exec(w, action).tables.domain.sessions
    ensures var before, after := w.tables.domain.sessions, Exec(w, action).tables.domain.sessions;
            (s in before ==>
               Confirms(before[s].hallConfirmed, after[s].hallConfirmed, after[s].hallOccupied) &&
               Confirms(before[s].ivaConfirmed, after[s].ivaConfirmed, after[s].ivaOccupied)) &&
            (s !in before ==>
               after[s].hallConfirmed == after[s].hallOccupied && after[s].ivaConfirmed == after[s].ivaOccupied)
  {
    hide Invariant, Exec, Runnable;
    if StepApplies(w, action) {
      AppliedSessions(w, action);
    } else {
      QuietSessions(w, action);
    }
  }

  lemma EarlierReport(start: World, actions: seq<Action>, k: nat, s: SessionId)
    requires actions != []
    requires HallReported(start, actions[..|actions| - 1], k, s) || IvaReported(start, actions[..|actions| - 1], k, s)
    ensures HallReported(start, actions[..|actions| - 1], k, s) ==> HallReported(start, actions, k, s)
    ensures IvaReported(start, actions[..|actions| - 1], k, s) ==> IvaReported(start, actions, k, s)
  {
    hide Run, HallVacates, CameraVacates;
    var before := actions[..|actions| - 1];
    assert before[..k] == actions[..k] && before[..k + 1] == actions[..k + 1];
  }

  lemma FreshHasNoSession(start: World, actions: seq<Action>, s: SessionId)
    requires Fresh(start) && s in Run(start, actions).tables.domain.sessions
    ensures actions != []
  {
  }

  lemma {:induction false} HallMustReport(start: World, actions: seq<Action>, s: SessionId) returns (k: nat)
    requires Fresh(start) && HybridRun(actions) && s in Run(start, actions).tables.domain.sessions
    requires var row := Run(start, actions).tables.domain.sessions[s]; row.hallConfirmed && !row.hallOccupied
    ensures HallReported(start, actions, k, s)
  {
    hide Exec, Invariant, HallVacates, AllHybrid;
    assert actions != [] by { FreshHasNoSession(start, actions, s); }
    var n := |actions| - 1;
    var w, action := Run(start, actions[..n]), actions[n];
    ReachableIsSafe(start, actions[..n]);
    HybridRunStays(start, actions[..n]);
    ConfirmedStep(w, action, s);
    assert actions[..n + 1] == actions;
    if w.tables.domain.sessions[s].hallOccupied {
      HallFallsByVacant(w, action, s);
      k := n;
    } else {
      hide HallReported;
      k := HallMustReport(start, actions[..n], s);
      EarlierReport(start, actions, k, s);
    }
  }

  lemma {:induction false} IvaMustReport(start: World, actions: seq<Action>, s: SessionId) returns (k: nat)
    requires Fresh(start) && HybridRun(actions) && s in Run(start, actions).tables.domain.sessions
    requires var row := Run(start, actions).tables.domain.sessions[s]; row.ivaConfirmed && !row.ivaOccupied
    ensures IvaReported(start, actions, k, s)
  {
    hide Exec, Invariant, CameraVacates, AllHybrid;
    assert actions != [] by { FreshHasNoSession(start, actions, s); }
    var n := |actions| - 1;
    var w, action := Run(start, actions[..n]), actions[n];
    ReachableIsSafe(start, actions[..n]);
    HybridRunStays(start, actions[..n]);
    ConfirmedStep(w, action, s);
    assert actions[..n + 1] == actions;
    if w.tables.domain.sessions[s].ivaOccupied {
      IvaFallsByExit(w, action, s);
      k := n;
    } else {
      hide IvaReported;
      k := IvaMustReport(start, actions[..n], s);
      EarlierReport(start, actions, k, s);
    }
  }

  /**
    In a run where every command carries HYBRID_OR, a session that both sensors confirmed is
    over only after its Hall latch fell to a Hall VACANT and its camera latch to an exit deadline.
  */
  lemma {:induction false} BothSensorsMustLeave(start: World, actions: seq<Action>, s: SessionId)
    requires Fresh(start) && HybridRun(actions) && s in Run(start, actions).tables.domain.sessions
    requires var row := Run(start, actions).tables.domain.sessions[s];
             row.hallConfirmed && row.ivaConfirmed && !Active(row)
    ensures exists k :: HallReported(start, actions, k, s)
    ensures exists k :: IvaReported(start, actions, k, s)
  {
    hide Run, Fresh, Invariant, HybridRun, HallReported, IvaReported;
    SlotsAreConsistent(start, actions);
    var hall := HallMustReport(start, actions, s);
    var iva := IvaMustReport(start, actions, s);
  }
}
