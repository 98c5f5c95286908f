/**
  Exit deadlines and camera generations. A deadline ends a session only while the camera
  is still at the generation of the exit that scheduled it; an intrusion applied in between
  moves the slot past that generation for the rest of the run.
*/
module OccupancyExit {
  import opened Options
  import opened OccupancyTables
  import opened OccupancyReducer
  import opened OccupancyDomain
  import opened OccupancyInbox
  import opened OccupancyWorld
  import opened OccupancyInvariant
  import opened OccupancySafety
  import opened OccupancyRuns

  // ---------------------------------------------------------------- generations over a run

  // No deadline row is removed and no camera generation falls.
  predicate GenerationStep(before: Domain, after: Domain) {
    before.deadlines.Keys <= after.deadlines.Keys && GenerationsGrow(before.observations, after.observations)
  }

  lemma ReduceGenerations(d: Domain, id: CommandId, row: Row)
    requires Reduce(d, id, row).Commit?
    requires row.command.payload.Deadline? ==> DeadlineOwnsSlot(d, row)
    ensures GenerationStep(d, Reduce(d, id, row).domain)
  {
    ReduceAdmitted(d, id, row);
    hide ReduceHall, ReduceCamera, ReduceDeadline;
  }

  lemma {:induction false} BatchDomain(t: Tables, batch: seq<DeadlineId>, ordinal: nat, now: int)
    requires forall i :: 0 <= i < |batch| ==> batch[i] in t.domain.deadlines
    ensures var d := AdmitBatch(t, batch, ordinal, now).domain;
            d == t.domain.(deadlines := d.deadlines) && d.deadlines.Keys == t.domain.deadlines.Keys
    decreases batch
  {
    if batch != [] {
      var next := AdmitDeadline(t, batch[0], ordinal + 1, now);
      BatchDomain(next, batch[1..], ordinal + 1, now);
    }
  }

  // Only applying a command touches the camera rows.
  lemma OnlyApplyObserves(w: World, action: Action)
    requires !action.ApplyCommand?
    ensures var d, d' := w.tables.domain, Exec(w, action).tables.domain;
            d'.observations == d.observations && d'.deadlines.Keys == d.deadlines.Keys
  {
    hide Runnable, EffectReady, PurgeBatch, PendingIds, FindIdentity, FindCandidate, HallRefused, SourceFact;
    hide AfterCancel, TopOrdinal, NewRow, AdmitBatch, StampedBatch;
    if action.AdmitDeadlines? && DueBatch(w.tables, action.now, action.capacity, action.blocked, action.batch) {
      BatchDomain(w.tables, action.batch, TopOrdinal(w.tables.inbox), action.now);
    }
  }

  lemma ApplyGenerations(w: World, id: CommandId, now: int)
    requires Invariant(w) && Runnable(w.tables.inbox, now, id)
    ensures GenerationStep(w.tables.domain, Apply(w.tables, id).domain)
  {
    hide Reduce, Invariant;
    RowFacts(w, id);
    if Reduce(w.tables.domain, id, w.tables.inbox[id]).Commit? {
      ReduceGenerations(w.tables.domain, id, w.tables.inbox[id]);
    }
  }

  lemma ExecGenerations(w: World, action: Action)
    requires Invariant(w)
    ensures GenerationStep(w.tables.domain, Exec(w, action).tables.domain)
  {
    hide Invariant;
    if action.ApplyCommand? {
      hide Runnable, Apply, AppliedHistory;
      if Runnable(w.tables.inbox, action.now, action.id) { ApplyGenerations(w, action.id, action.now); }
    } else {
      hide Exec;
      OnlyApplyObserves(w, action);
    }
  }

  lemma {:induction false} RunGenerations(w: World, actions: seq<Action>)
    requires Invariant(w)
    ensures GenerationStep(w.tables.domain, Run(w, actions).tables.domain)
  {
    hide Invariant, Exec;
    if actions != [] {
      var before := actions[..|actions| - 1];
      RunGenerations(w, before);
      RunKeeps(w, before);
      ExecGenerations(Run(w, before), actions[|actions| - 1]);
    }
  }

  // ---------------------------------------------------------------- an intrusion outdates every earlier exit

  // This step applies an authoritative INTRUSION on the slot.
  ghost predicate Intrudes(w: World, action: Action, slot: SlotId) {
    action.ApplyCommand? && Runnable(w.tables.inbox, action.now, action.id) &&
    var row := w.tables.inbox[action.id];
    row.command.slot == slot && row.command.payload.Camera? && row.command.payload.authority &&
    row.command.payload.action == Intrusion && Reduce(w.tables.domain, action.id, row).Commit?
  }

  // This step applies the command of deadline x and ends a session with it.
  ghost predicate EndsBy(w: World, action: Action, x: DeadlineId) {
    action.ApplyCommand? && action.id == ForDeadline(x) && Runnable(w.tables.inbox, action.now, action.id) &&
    var verdict := Reduce(w.tables.domain, action.id, w.tables.inbox[action.id]);
    verdict.Commit? && verdict.outcome.code == SessionEnded
  }

  lemma IntrusionOccupies(w: World, action: Action, slot: SlotId)
    requires Intrudes(w, action, slot)
    ensures var d := Exec(w, action).tables.domain;
            slot in d.observations && d.observations[slot].state == ObservedOccupied
  {
    hide ReduceCamera, Runnable;
    assert w.tables.inbox[action.id].status == Pending by { RunnableIsPending(w.tables.inbox, action.now, action.id); }
  }

  lemma OccupiedOutdates(w: World, x: DeadlineId)
    requires Invariant(w) && x in w.tables.domain.deadlines
    requires w.tables.domain.observations[x.slot].state == ObservedOccupied
    ensures x.slot in w.tables.domain.observations
    ensures x.generation < w.tables.domain.observations[x.slot].generation
  {
    hide InboxOk, OrderOk, LinkOk, HistoryOk, RunningOk, FramesOk, SessionsOk, SlotsOk, ObservationsOk, BindingsOk;
  }

  lemma StepOutdates(w: World, action: Action, x: DeadlineId)
    requires Invariant(w) && x in w.tables.domain.deadlines && Intrudes(w, action, x.slot)
    ensures var d := Exec(w, action).tables.domain;
            x.slot in d.observations && x.generation < d.observations[x.slot].generation
  {
    hide Invariant, Exec, Intrudes;
    IntrusionOccupies(w, action, x.slot);
    ExecKeeps(w, action);
    ExecGenerations(w, action);
    OccupiedOutdates(Exec(w, action), x);
  }

  // A session ends by a deadline only while the camera waits at the deadline's own generation.
  lemma EndsAtGeneration(w: World, action: Action, x: DeadlineId)
    requires Invariant(w) && EndsBy(w, action, x)
    ensures x in w.tables.domain.deadlines && x.slot in w.tables.domain.observations
    ensures var row := w.tables.inbox[action.id];
            row.command.payload.Deadline? && row.command.payload.deadline == x && row.command.slot == x.slot &&
            row.status == Pending && DeadlineOwnsSlot(w.tables.domain, row) && ExitStillStands(w.tables.domain, row)
    ensures w.tables.domain.observations[x.slot].generation == x.generation
  {
    hide DomainOk, OrderOk, HistoryOk, RunningOk, FramesOk, UniqueIdentities, OneCandidatePerSlot, PendingOwn;
    hide AdmittedPending, ReduceHall, ReduceCamera, ApplyExit, AdmittedKept, GenerationsGrow, FindActive;
    RowFacts(w, action.id);
  }

  /**
    A deadline that exists when an authoritative INTRUSION is applied on its slot never ends a
    session afterwards, whatever else happens in between.
  */
  lemma {:induction false} IntrusionCancelsExit(start: World, actions: seq<Action>, intrusion: nat, exit: nat, x: DeadlineId)
    requires Fresh(start) && intrusion < exit < |actions|
    requires x in Run(start, actions[..intrusion]).tables.domain.deadlines
    requires Intrudes(Run(start, actions[..intrusion]), actions[intrusion], x.slot)
    ensures !EndsBy(Run(start, actions[..exit]), actions[exit], x)
  {
    hide Exec, Run, Fresh, Invariant, Intrudes, EndsBy;
    var before, after := Run(start, actions[..intrusion]), Run(start, actions[..intrusion + 1]);
    var between := actions[intrusion + 1..exit];
    ReachableIsSafe(start, actions[..intrusion]);
    ReachableIsSafe(start, actions[..intrusion + 1]);
    RunOne(start, actions, intrusion);
    StepOutdates(before, actions[intrusion], x);
    RunSplit(start, actions[..intrusion + 1], between);
    assert actions[..intrusion + 1] + between == actions[..exit];
    RunGenerations(after, between);
    ReachableIsSafe(start, actions[..exit]);
    if EndsBy(Run(start, actions[..exit]), actions[exit], x) {
      EndsAtGeneration(Run(start, actions[..exit]), actions[exit], x);
      assert false;
    }
  }

  /** Such a deadline is stale: applying its command changes no session and no slot. */
  lemma {:induction false} StaleExitIsHarmless(w: World, action: Action, x: DeadlineId)
    requires Invariant(w) && action.ApplyCommand? && action.id == ForDeadline(x)
    requires Runnable(w.tables.inbox, action.now, action.id)
    requires x.slot in w.tables.domain.observations && x.generation < w.tables.domain.observations[x.slot].generation
    ensures var after := Exec(w, action).tables;
            after.inbox[action.id].result == Some(StaleGeneration) && after.inbox[action.id].effect == NoEffect &&
            after.domain == w.tables.domain.(deadlines := after.domain.deadlines) &&
            x in after.domain.deadlines && after.domain.deadlines[x].state == Superseded
  {
    hide DomainOk, OrderOk, HistoryOk, RunningOk, FramesOk, UniqueIdentities, OneCandidatePerSlot, PendingOwn;
    hide AdmittedPending, ReduceHall, ReduceCamera, ApplyExit, AdmittedKept, GenerationsGrow, FindActive;
    hide AppliedHistory, WithEffect, WithFrame;
    RowFacts(w, action.id);
  }

  /**
    When a deadline does end a session, every configured area was known to be inactive, the
    camera row waited for exactly this exit, and the session it names was the active one; that
    session ends, no other one changes, and the slot becomes vacant.
  */
  lemma {:induction false} ExitEndsQuietSlot(start: World, actions: seq<Action>, exit: nat, x: DeadlineId)
    requires Fresh(start) && exit < |actions|
    requires EndsBy(Run(start, actions[..exit]), actions[exit], x)
    ensures var d, d' := Run(start, actions[..exit]).tables.domain, Run(start, actions[..exit + 1]).tables.domain;
            QuietAt(d, x) && ClosedBy(d, d', x)
  {
    hide Exec, Run, Fresh, Invariant, EndsBy, QuietAt, ClosedBy;
    var w := Run(start, actions[..exit]);
    ReachableIsSafe(start, actions[..exit]);
    RunOne(start, actions, exit);
    EndsAtGeneration(w, actions[exit], x);
    EndsQuietly(w, actions[exit], x);
    EndsTheSession(w, actions[exit], x);
  }

  // The camera waits for the exit of session x.session with every configured area reported inactive.
  predicate QuietAt(d: Domain, x: DeadlineId) {
    x in d.deadlines && d.deadlines[x].state == Admitted && x.slot in d.observations && x.session in d.sessions &&
    ActiveIn(d.sessions[x.session], x.slot) &&
    d.observations[x.slot].session == Some(x.session) && d.observations[x.slot].state == VacantPending &&
    AllInactive(d.observations[x.slot].configured, d.observations[x.slot].areas)
  }

  predicate ClosedBy(d: Domain, d': Domain, x: DeadlineId) {
    x.session in d.sessions && x.session in d'.sessions && x in d'.deadlines &&
    d'.sessions[x.session].status == EndedStatus &&
    d'.sessions[x.session].exitCommand == Some(ForDeadline(x)) &&
    (forall s :: s in d'.sessions && s != x.session ==> s in d.sessions && d'.sessions[s] == d.sessions[s]) &&
    x.slot in d'.slots && d'.slots[x.slot] == SlotVacant && d'.deadlines[x].state == DeadlineApplied
  }

  lemma EndsQuietly(w: World, action: Action, x: DeadlineId)
    requires Invariant(w) && EndsBy(w, action, x)
    ensures QuietAt(w.tables.domain, x)
  {
    hide OrderOk, HistoryOk, RunningOk, FramesOk, InboxOk, LinkOk, SessionsOk, SlotsOk, DeadlinesOk, BindingsOk;
    hide CursorsOk, Runnable, EndsBy;
    EndsAtGeneration(w, action, x);
    assert ObservationOk(w.tables.domain.observations[x.slot], x.slot, w.tables.domain.sessions);
  }

  lemma EndsTheSession(w: World, action: Action, x: DeadlineId)
    requires Invariant(w) && EndsBy(w, action, x)
    ensures ClosedBy(w.tables.domain, Exec(w, action).tables.domain, x)
  {
    hide Invariant, ReduceHall, ReduceCamera, AdmittedKept, GenerationsGrow, FindActive, AppliedHistory, Runnable;
    EndsAtGeneration(w, action, x);
    RunnableIsPending(w.tables.inbox, action.now, action.id);
  }

  // ---------------------------------------------------------------- whose deadline an exit waits for

  // The deadline that an exit of this generation would schedule for session s.
  predicate HasLive(deadlines: Deadlines, x: DeadlineId) {
    x in deadlines && Live(deadlines[x])
  }

  /**
    An applied EXIT that waits for its deadline leaves the camera row waiting at its generation. It
    leaves a live deadline of that generation exactly when that one or none was live on the slot
    before; otherwise the exit waits behind the live deadline of another generation.
  */
  lemma {:induction false} ExitHasItsDeadlineIff(d: Domain, id: CommandId, row: Row)
    requires row.command.payload.Camera? && ReduceCamera(d, id, row).Commit?
    requires ReduceCamera(d, id, row).outcome.code == ExitScheduled
    ensures var verdict := ReduceCamera(d, id, row); var slot := row.command.slot;
            verdict.outcome.session.Some? && slot in verdict.domain.observations &&
            verdict.domain.observations[slot].state == VacantPending &&
            verdict.domain.observations[slot].generation == verdict.outcome.generation &&
            LiveOn(verdict.domain.deadlines, slot) &&
            var own := DeadlineId(slot, verdict.outcome.generation, verdict.outcome.session.value);
            HasLive(verdict.domain.deadlines, own) <==> HasLive(d.deadlines, own) || !LiveOn(d.deadlines, slot)
  {
    hide FindActive, CameraEvidence, CameraIntrusion, CameraExit, GenerationsGrow, ObservedAt, AdmittedKept, LiveOn;
    IntrusionsSchedule(d, id, row);
    forall generation, areas | CameraExit(d, row, generation, areas).Commit?
                               && CameraExit(d, row, generation, areas).outcome.code == ExitScheduled
      ensures ExitOutcome(d, row, CameraExit(d, row, generation, areas))
    {
      CameraExitDeadline(d, row, generation, areas);
    }
  }

  predicate ExitOutcome(d: Domain, row: Row, verdict: Verdict) {
    var slot := row.command.slot;
    verdict.Commit? && verdict.outcome.session.Some? && slot in verdict.domain.observations &&
    verdict.domain.observations[slot].state == VacantPending &&
    verdict.domain.observations[slot].generation == verdict.outcome.generation &&
    LiveOn(verdict.domain.deadlines, slot) &&
    var own := DeadlineId(slot, verdict.outcome.generation, verdict.outcome.session.value);
    (HasLive(verdict.domain.deadlines, own) <==> HasLive(d.deadlines, own) || !LiveOn(d.deadlines, slot))
  }

  lemma CameraExitDeadline(d: Domain, row: Row, generation: nat, areas: map<string, bool>)
    requires row.command.payload.Camera? && CameraExit(d, row, generation, areas).Commit?
    requires CameraExit(d, row, generation, areas).outcome.code == ExitScheduled
    ensures ExitOutcome(d, row, CameraExit(d, row, generation, areas))
  {
    hide FindActive, ObservedAt, AdmittedKept, AllInactive;
    var verdict := CameraExit(d, row, generation, areas);
    var own := DeadlineId(row.command.slot, generation, verdict.outcome.session.value);
    if LiveOn(d.deadlines, row.command.slot) {
      assert verdict.domain.deadlines == d.deadlines;
    } else {
      assert HasLive(verdict.domain.deadlines, own);
    }
  }

  // Only an exit schedules an exit.
  lemma IntrusionsSchedule(d: Domain, id: CommandId, row: Row)
    requires row.command.payload.Camera?
    ensures CameraEvidence(d, id, row).Commit? ==> CameraEvidence(d, id, row).outcome.code != ExitScheduled
    ensures forall generation, areas :: CameraIntrusion(d, id, row, generation, areas).Commit? ==>
      CameraIntrusion(d, id, row, generation, areas).outcome.code != ExitScheduled
  {
    hide FindActive, CommitCorrelation, CreateSession, SupersedeScheduled, ObservedAt;
  }
}
