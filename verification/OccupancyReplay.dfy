/**
  Commands that can never be applied. The session table remembers every command that started a
  session, so no command starts two; but a command that is blocked at the head of its slot's
  queue stays there, since nothing behind it is applied and nothing else unblocks it.
*/
module OccupancyReplay {
  import opened Options
  import opened OccupancyTables
  import opened OccupancyReducer
  import opened OccupancyDomain
  import opened OccupancyInbox
  import opened OccupancyWorld
  import opened OccupancySafety
  import opened OccupancySessions
  import opened OccupancyLeases
  import opened OccupancyHybrid
  import opened OccupancyBlocked
  import opened OccupancyLocality
  import opened OccupancyCapacity
  import Sequence = SensorSequence

  // ---------------------------------------------------------------- one session per command

  predicate OneEntryEach(sessions: Sessions) {
    forall s, t :: s in sessions && t in sessions && sessions[s].entryCommand == sessions[t].entryCommand ==> s == t
  }

  lemma MovesKeepEntries(before: Sessions, after: Sessions, id: CommandId, command: Command)
    requires SessionsMove(before, after, id, command) && OneEntryEach(before)
    ensures OneEntryEach(after)
    ensures forall c :: EntryUsed(before, c) ==> EntryUsed(after, c)
  {
    hide LatchFall, Confirms;
    forall c | EntryUsed(before, c) ensures EntryUsed(after, c) {
      var s :| s in before && before[s].entryCommand == c;
      assert s in after && after[s].entryCommand == c;
    }
    assert forall s :: s in before && after[s].entryCommand == id ==> EntryUsed(before, id);
  }

  lemma StepKeepsEntries(w: World, action: Action)
    requires Invariant(w) && OneEntryEach(w.tables.domain.sessions)
    ensures OneEntryEach(Exec(w, action).tables.domain.sessions)
    ensures forall c :: EntryUsed(w.tables.domain.sessions, c) ==> EntryUsed(Exec(w, action).tables.domain.sessions, c)
  {
    hide Invariant, Exec, Runnable;
    var before, after := w.tables.domain.sessions, Exec(w, action).tables.domain.sessions;
    if StepApplies(w, action) {
      hide SessionsMove;
      RunnableIsPending(w.tables.inbox, action.now, action.id);
      AppliedSessions(w, action);
      MovesKeepEntries(before, after, action.id, w.tables.inbox[action.id].command);
    } else {
      QuietSessions(w, action);
      forall c | EntryUsed(before, c) ensures EntryUsed(after, c) {
        var s :| s in before && before[s].entryCommand == c;
        assert s in after && after[s].entryCommand == c;
      }
    }
  }

  lemma {:induction false} EntriesStayUnique(start: World, actions: seq<Action>)
    requires Fresh(start)
    ensures OneEntryEach(Run(start, actions).tables.domain.sessions)
  {
    hide Exec, Invariant;
    if actions != [] {
      EntriesStayUnique(start, actions[..|actions| - 1]);
      ReachableIsSafe(start, actions[..|actions| - 1]);
      StepKeepsEntries(Run(start, actions[..|actions| - 1]), actions[|actions| - 1]);
    }
  }

  /** A command of any kind starts at most one session in a run, also when it was purged and admitted again. */
  lemma {:induction false} CommandStartsOneSession(start: World, actions: seq<Action>, c: CommandId)
    requires Fresh(start)
    ensures |StartedBy(Run(start, actions).tables.domain.sessions, c)| <= 1
  {
    hide Run;
    EntriesStayUnique(start, actions);
    var started := StartedBy(Run(start, actions).tables.domain.sessions, c);
    if s :| s in started { assert started == {s}; }
  }

  // ---------------------------------------------------------------- what blocks a command stays

  lemma ActiveStays(before: Sessions, after: Sessions, slot: SlotId)
    requires SessionsStay(before, after, slot)
    ensures FindActive(after, slot) == FindActive(before, slot)
  {
    var was, now := FindActive(before, slot), FindActive(after, slot);
    if was.Some? { assert ActiveIn(after[was.value], slot); }
    if now.Some? { assert now.value in before && ActiveIn(before[now.value], slot); }
  }

  lemma UsedStays(before: Sessions, after: Sessions, slot: SlotId, id: CommandId)
    requires SessionsStay(before, after, slot)
    ensures EntryUsed(before, id) ==> EntryUsed(after, id)
    ensures ExitUsed(before, id) ==> ExitUsed(after, id)
  {
    if EntryUsed(before, id) {
      var s :| s in before && before[s].entryCommand == id;
      assert s in after && after[s].entryCommand == id;
    }
    if ExitUsed(before, id) {
      var s :| s in before && before[s].exitCommand == Some(id);
      assert s in after && after[s].exitCommand == Some(id);
    }
  }

  lemma LiveStays(before: Deadlines, after: Deadlines, slot: SlotId)
    requires DeadlinesStay(before, after, slot)
    ensures LiveOn(after, slot) <==> LiveOn(before, slot)
  {
  }

  lemma IdsStayUsed(before: Bindings, after: Bindings, id: CommandId, correlation: string)
    requires LeasesKept(before, after) && LeaseIdsUsed(before, id, correlation)
    ensures LeaseIdsUsed(after, id, correlation)
  {
    if SourceUsed(before, id) {
      var c :| c in before && before[c].source == id;
      assert c in after && after[c].source == id;
    }
  }

  // No other slot leases a track under the attempt of the session that runs here.
  lemma NoLeaseFromElsewhere(before: Domain, after: Domain, s: SessionId, slot: SlotId, c: string)
    requires DomainOk(after) && OneEntryEach(after.sessions) && LeasesElsewhere(before.bindings, after.bindings, slot)
    requires s in after.sessions && after.sessions[s].slot == slot && c in after.bindings && c !in before.bindings
    ensures after.bindings[c].attempt != after.sessions[s].attempt
  {
    hide SlotsOk, ObservationsOk, DeadlinesOk, CursorsOk, FindActive, LeasesKept;
    assert BindingOk(after.bindings[c], after.sessions);
    assert SessionOk(after.sessions[s]) && SessionOk(after.sessions[after.bindings[c].session]);
  }

  lemma LeaseStaysRefused(before: Domain, after: Domain, id: CommandId, command: Command, s: SessionId)
    requires DomainOk(after) && OneEntryEach(after.sessions) && LeasesElsewhere(before.bindings, after.bindings, command.slot)
    requires s in after.sessions && after.sessions[s].slot == command.slot && command.payload.Camera?
    requires LeaseRefused(before.bindings, id, command, after.sessions[s].attempt, s)
    ensures LeaseRefused(after.bindings, id, command, after.sessions[s].attempt, s)
  {
    hide DomainOk, OneEntryEach, CompleteLease, LeaseIdsUsed;
    var attempt, track := after.sessions[s].attempt, command.payload.track;
    if c :| c in before.bindings && OnTrack(before.bindings[c], attempt, track) {
      var e :| e in before.bindings && OnTrack(before.bindings[e], attempt, track) &&
               !LeasedAs(before.bindings[e], s, command.slot, command.payload.channel);
      assert e in after.bindings && OnTrack(after.bindings[e], attempt, track) &&
             !LeasedAs(after.bindings[e], s, command.slot, command.payload.channel);
    } else {
      forall c | c in after.bindings ensures !OnTrack(after.bindings[c], attempt, track) {
        if c !in before.bindings { NoLeaseFromElsewhere(before, after, s, command.slot, c); }
      }
      IdsStayUsed(before.bindings, after.bindings, id, command.payload.correlation);
    }
  }

  lemma CameraStaysBlocked(before: Domain, after: Domain, id: CommandId, command: Command)
    requires DomainOk(after) && OneEntryEach(after.sessions) && SlotStays(before, after, command.slot)
    requires command.payload.Camera? && CameraBlocked(before, id, command)
    ensures CameraBlocked(after, id, command)
  {
    hide DomainOk, OneEntryEach, FindActive, EntryUsed, LiveOn, LeaseRefused, LeasesKept, LeaseIdsUsed, CompleteLease;
    ActiveStays(before.sessions, after.sessions, command.slot);
    UsedStays(before.sessions, after.sessions, command.slot, id);
    LiveStays(before.deadlines, after.deadlines, command.slot);
    var active := FindActive(before.sessions, command.slot);
    if active.Some? && LeaseRefused(before.bindings, id, command, before.sessions[active.value].attempt, active.value) {
      LeaseStaysRefused(before, after, id, command, active.value);
    }
    if LeaseIdsUsed(before.bindings, id, command.payload.correlation) {
      IdsStayUsed(before.bindings, after.bindings, id, command.payload.correlation);
    }
  }

  lemma HallStaysBlocked(before: Domain, after: Domain, id: CommandId, command: Command)
    requires SlotStays(before, after, command.slot) && HallStands(after, command)
    requires command.payload.Hall? && HallBlocked(before, id, command)
    ensures HallBlocked(after, id, command)
  {
    hide FindActive, EntryUsed, ExitUsed, LeasesElsewhere, DeadlinesStay, Sequence.Evaluate;
    ActiveStays(before.sessions, after.sessions, command.slot);
    UsedStays(before.sessions, after.sessions, command.slot, id);
  }

  lemma DeadlineStaysBlocked(before: Domain, after: Domain, id: CommandId, command: Command)
    requires SlotStays(before, after, command.slot)
    requires command.payload.Deadline? && DeadlineBlocked(before, id, command)
    ensures DeadlineBlocked(after, id, command)
  {
    hide FindActive, ExitUsed, LeasesElsewhere;
    ActiveStays(before.sessions, after.sessions, command.slot);
    UsedStays(before.sessions, after.sessions, command.slot, id);
  }

  // While nothing of its slot is applied, a command stays blocked as long as its sensor's cursor accepts it.
  lemma StaysBlocked(before: Domain, after: Domain, id: CommandId, command: Command)
    requires DomainOk(after) && OneEntryEach(after.sessions) && SlotStays(before, after, command.slot)
    requires Blocked(before, id, command) && HallStands(after, command)
    ensures Blocked(after, id, command)
  {
    hide DomainOk, OneEntryEach, SlotStays, HallBlocked, CameraBlocked, DeadlineBlocked, HallStands;
    match command.payload
    case Hall(_, _, _, _, _) => HallStaysBlocked(before, after, id, command);
    case Camera(_, _, _, _, _, _, _, _, _, _, _, _) => CameraStaysBlocked(before, after, id, command);
    case Deadline(_, _, _, _, _) => DeadlineStaysBlocked(before, after, id, command);
  }

  // ---------------------------------------------------------------- a blocked head stays the head

  predicate Heads(inbox: Inbox, c: CommandId) {
    c in inbox && inbox[c].status == Pending &&
    forall e :: e in inbox && inbox[e].status == Pending && inbox[e].command.slot == inbox[c].command.slot ==>
      inbox[c].ordinal <= inbox[e].ordinal
  }

  // The first command of its slot, and applying it fails.
  ghost predicate Stuck(w: World, c: CommandId) {
    c in w.tables.inbox && Heads(w.tables.inbox, c) && Blocked(w.tables.domain, c, w.tables.inbox[c].command)
  }

  // Steps that leave this row alone and put new rows of the slot behind it.
  lemma HeadsStays(before: Inbox, after: Inbox, c: CommandId)
    requires Heads(before, c) && c in after && after[c].command == before[c].command
    requires after[c].ordinal == before[c].ordinal && after[c].status == Pending
    requires forall e :: e in after && after[e].status == Pending && e in before ==>
      before[e].status == Pending && after[e].ordinal == before[e].ordinal && after[e].command == before[e].command
    requires forall e :: e in after && e !in before ==> before[c].ordinal <= after[e].ordinal
    ensures Heads(after, c)
  {
  }

  lemma {:induction false} BatchHeads(t: Tables, batch: seq<DeadlineId>, ordinal: nat, now: int, c: CommandId)
    requires forall i :: 0 <= i < |batch| ==> batch[i] in t.domain.deadlines
    requires Heads(t.inbox, c) && t.inbox[c].ordinal <= ordinal
    ensures var after := AdmitBatch(t, batch, ordinal, now).inbox;
            c in after && Heads(after, c) && after[c] == t.inbox[c]
    decreases batch
  {
    if batch != [] {
      var next := AdmitDeadline(t, batch[0], ordinal + 1, now);
      HeadsStays(t.inbox, next.inbox, c);
      BatchHeads(next, batch[1..], ordinal + 1, now, c);
    }
  }

  // An admission puts its row behind; it takes a head away only by canceling it.
  lemma SubmitHeads(w: World, action: Action, c: CommandId)
    requires action.Submit? && !action.command.payload.Deadline? && c in w.tables.inbox && Heads(w.tables.inbox, c)
    ensures var after := Exec(w, action).tables.inbox;
            !Cancels(w, action, c) ==> c in after && Heads(after, c) && after[c] == w.tables.inbox[c]
  {
    hide FindIdentity, HallRefused, SourceFact, TopOrdinal, PendingIds, FindCandidate, Heads, AfterCancel, IsCandidate;
    var inbox, command := w.tables.inbox, action.command;
    if !Cancels(w, action, c)
       && Admit(w.tables, action.name, command, action.capacity, action.now).code == NewlyAdmitted {
      CancelHeads(inbox, command, c);
      hide NewRow;
      InsertedHeads(AfterCancel(inbox, command), External(action.name), command, action.now, c);
    }
  }

  lemma CancelHeads(inbox: Inbox, command: Command, c: CommandId)
    requires Heads(inbox, c)
    requires !(command.payload.Hall? && command.payload.state == HallVacant && IsCandidate(inbox[c], command.slot) &&
               OccurredAt(command) < inbox[c].command.dueAt)
    ensures var after := AfterCancel(inbox, command); c in after && Heads(after, c) && after[c] == inbox[c]
  {
  }

  lemma InsertedHeads(inbox: Inbox, id: CommandId, command: Command, now: int, c: CommandId)
    requires Heads(inbox, c) && id !in inbox
    ensures var after := inbox[id := NewRow(command, TopOrdinal(inbox) + 1, now)];
            c in after && Heads(after, c) && after[c] == inbox[c]
  {
    hide TopOrdinal;
  }

  // Apart from admissions and applications, a step only deletes rows or touches what does not order them.
  lemma OtherRows(w: World, action: Action)
    requires !action.Submit? && !action.AdmitDeadlines? && !action.ApplyCommand?
    ensures var before, after := w.tables.inbox, Exec(w, action).tables.inbox;
            (forall e :: e in after ==>
               e in before && after[e].command == before[e].command && after[e].ordinal == before[e].ordinal &&
               after[e].status == before[e].status) &&
            forall e :: e in before && before[e].status == Pending ==> e in after
  {
    hide EffectReady;
  }

  lemma OtherHeads(w: World, action: Action, c: CommandId)
    requires !action.Submit? && !action.AdmitDeadlines? && !action.ApplyCommand?
    requires c in w.tables.inbox && Heads(w.tables.inbox, c)
    ensures var after := Exec(w, action).tables.inbox;
            c in after && Heads(after, c) && after[c].command == w.tables.inbox[c].command
  {
    hide Exec;
    OtherRows(w, action);
  }

  lemma RunnableSharesHead(w: World, now: int, id: CommandId, c: CommandId)
    requires Invariant(w) && Runnable(w.tables.inbox, now, id) && Heads(w.tables.inbox, c)
    requires w.tables.inbox[id].command.slot == w.tables.inbox[c].command.slot
    ensures id == c
  {
    hide DomainOk, InboxOk, LinkOk, HistoryOk, RunningOk, FramesOk;
  }

  lemma AppliedHeads(w: World, id: CommandId, now: int, c: CommandId)
    requires Runnable(w.tables.inbox, now, id) && Heads(w.tables.inbox, c) && id != c
    ensures var after := Apply(w.tables, id).inbox;
            c in after && Heads(after, c) && after[c] == w.tables.inbox[c]
  {
    hide Reduce;
  }

  lemma HeadBelowTop(inbox: Inbox, c: CommandId)
    requires Heads(inbox, c)
    ensures inbox[c].ordinal <= TopOrdinal(inbox)
  {
  }

  lemma HeadStays(w: World, action: Action, c: CommandId)
    requires Invariant(w) && c in w.tables.inbox && Heads(w.tables.inbox, c) && !Cancels(w, action, c)
    requires !AppliesOn(w, action, w.tables.inbox[c].command.slot)
    ensures var after := Exec(w, action).tables.inbox;
            c in after && Heads(after, c) && after[c].command == w.tables.inbox[c].command
  {
    hide Invariant, Heads, Admit, AdmitBatch, StampedBatch, DueBatch, Stamped, Cancels, Runnable, Apply, AppliedHistory;
    if action.Submit? {
      if !action.command.payload.Deadline? { SubmitHeads(w, action, c); }
    } else if action.AdmitDeadlines? {
      if DueBatch(w.tables, action.now, action.capacity, action.blocked, action.batch) {
        BatchFits(w.tables, action.now, action.capacity, action.blocked, action.batch);
        HeadBelowTop(w.tables.inbox, c);
        hide TopOrdinal;
        BatchHeads(w.tables, action.batch, TopOrdinal(w.tables.inbox), action.now, c);
      }
    } else if action.ApplyCommand? {
      if Runnable(w.tables.inbox, action.now, action.id) {
        RunnableIsPending(w.tables.inbox, action.now, action.id);
        AppliedHeads(w, action.id, action.now, c);
      }
    } else {
      hide Exec;
      OtherHeads(w, action, c);
    }
  }

  // ---------------------------------------------------------------- refused exactly while blocked

  /** A command that is selected fails exactly when it is blocked, and then nothing changes; otherwise it becomes terminal. */
  lemma {:induction false} SelectedFailsIffBlocked(w: World, id: CommandId, now: int)
    requires Invariant(w) && id in w.tables.inbox && Runnable(w.tables.inbox, now, id)
    ensures var after := Exec(w, ApplyCommand(id, now));
            if Blocked(w.tables.domain, id, w.tables.inbox[id].command) then after == w
            else id in after.tables.inbox && after.tables.inbox[id].status != Pending
  {
    hide Invariant, DomainOk, Runnable, Reduce, Blocked, WithEffect, WithFrame;
    SafeDomain(w);
    RunnableIsPending(w.tables.inbox, now, id);
    RefusedIffBlocked(w.tables.domain, id, w.tables.inbox[id]);
  }

  // The two ways to lift a block from outside the queue: the cancellation of a Hall candidate, and a
  // frame of the same sensor on another slot after which the blocked frame is refused.
  ghost predicate Lifts(w: World, action: Action, c: CommandId)
    requires c in w.tables.inbox
  {
    Cancels(w, action, c) || !HallStands(Exec(w, action).tables.domain, w.tables.inbox[c].command)
  }

  lemma OnlyHallIsLifted(w: World, action: Action, c: CommandId)
    requires c in w.tables.inbox && Lifts(w, action, c)
    ensures w.tables.inbox[c].command.payload.Hall?
  {
    hide Exec, Admit, Sequence.Evaluate;
  }

  lemma BlockedStands(d: Domain, id: CommandId, command: Command)
    requires Blocked(d, id, command)
    ensures HallStands(d, command)
  {
    hide Sequence.Evaluate, CameraBlocked, DeadlineBlocked, FindActive;
  }

  // A step that lifts nothing leaves the head where it is, blocked, and the session of its slot running.
  lemma StuckStep(w: World, action: Action, c: CommandId)
    requires Invariant(w) && OneEntryEach(w.tables.domain.sessions) && Stuck(w, c) && !Lifts(w, action, c)
    ensures var after := Exec(w, action);
            Stuck(after, c) && after.tables.inbox[c].command == w.tables.inbox[c].command &&
            FindActive(after.tables.domain.sessions, w.tables.inbox[c].command.slot) ==
            FindActive(w.tables.domain.sessions, w.tables.inbox[c].command.slot)
  {
    hide Invariant, DomainOk, OneEntryEach, Heads, Exec, Runnable, Blocked, FindActive, HallStands, Cancels, SlotStays;
    var slot := w.tables.inbox[c].command.slot;
    if AppliesOn(w, action, slot) {
      RunnableSharesHead(w, action.now, action.id, c);
      SelectedFailsIffBlocked(w, c, action.now);
    } else {
      HeadStays(w, action, c);
      StepStays(w, action, slot);
      StepKeepsEntries(w, action);
      ExecKeeps(w, action);
      SafeDomain(Exec(w, action));
      StaysBlocked(w.tables.domain, Exec(w, action).tables.domain, c, w.tables.inbox[c].command);
      StaysActive(w.tables.domain, Exec(w, action).tables.domain, slot);
    }
  }

  lemma StaysActive(before: Domain, after: Domain, slot: SlotId)
    requires SlotStays(before, after, slot)
    ensures FindActive(after.sessions, slot) == FindActive(before.sessions, slot)
  {
    hide ObservationStays, DeadlinesStay, LeasesElsewhere, FindActive, SessionsStay;
    ActiveStays(before.sessions, after.sessions, slot);
  }

  /** One step unblocks the head of a slot, or takes it away, exactly when it lifts the block. */
  lemma {:induction false} StuckUnlessLifted(w: World, action: Action, c: CommandId)
    requires Invariant(w) && OneEntryEach(w.tables.domain.sessions) && Stuck(w, c)
    ensures Stuck(Exec(w, action), c) <==> !Lifts(w, action, c)
  {
    hide Invariant, Exec, Blocked, Cancels, HallStands, OneEntryEach;
    if !Lifts(w, action, c) {
      StuckStep(w, action, c);
    } else if Cancels(w, action, c) {
      CancelSettles(w, action, c);
    } else if Stuck(Exec(w, action), c) {
      StuckRow(w, action, c);
      BlockedStands(Exec(w, action).tables.domain, c, Exec(w, action).tables.inbox[c].command);
    }
  }

  // A row that stays keeps its command.
  lemma StuckRow(w: World, action: Action, c: CommandId)
    requires Invariant(w) && Stuck(w, c) && !Cancels(w, action, c)
    requires c in Exec(w, action).tables.inbox && Heads(Exec(w, action).tables.inbox, c)
    ensures Exec(w, action).tables.inbox[c].command == w.tables.inbox[c].command
  {
    hide Invariant, Exec, Blocked, Cancels, Heads, Runnable;
    var slot := w.tables.inbox[c].command.slot;
    if AppliesOn(w, action, slot) {
      RunnableSharesHead(w, action.now, action.id, c);
      SelectedFailsIffBlocked(w, c, action.now);
    } else {
      HeadStays(w, action, c);
    }
  }

  // ---------------------------------------------------------------- for the rest of the run

  ghost predicate LiftedAt(start: World, before: seq<Action>, after: seq<Action>, k: nat, c: CommandId) {
    k < |after| && c in Run(start, before + after[..k]).tables.inbox && Lifts(Run(start, before + after[..k]), after[k], c)
  }

  lemma {:induction false} StuckStays(start: World, before: seq<Action>, after: seq<Action>, c: CommandId)
    requires Fresh(start) && Stuck(Run(start, before), c)
    requires Run(start, before).tables.inbox[c].command.payload.Hall? ==>
               forall k: nat :: !LiftedAt(start, before, after, k, c)
    ensures var w, w' := Run(start, before), Run(start, before + after); var slot := w.tables.inbox[c].command.slot;
            Stuck(w', c) && w'.tables.inbox[c].command == w.tables.inbox[c].command &&
            FindActive(w'.tables.domain.sessions, slot) == FindActive(w.tables.domain.sessions, slot)
  {
    hide Exec, Invariant, Blocked, Fresh, Lifts, FindActive, OneEntryEach;
    if after == [] {
      assert before + after == before;
    } else {
      var n := |after| - 1;
      assert (before + after)[..|before + after| - 1] == before + after[..n];
      forall k: nat ensures LiftedAt(start, before, after[..n], k, c) ==> LiftedAt(start, before, after, k, c) {
        if k < n { assert after[..n][..k] == after[..k]; }
      }
      StuckStays(start, before, after[..n], c);
      var w := Run(start, before + after[..n]);
      ReachableIsSafe(start, before + after[..n]);
      EntriesStayUnique(start, before + after[..n]);
      assert !LiftedAt(start, before, after, n, c) ==> !Lifts(w, after[n], c);
      if Lifts(w, after[n], c) { OnlyHallIsLifted(w, after[n], c); }
      StuckStep(w, after[n], c);
    }
  }

  /**
    A camera or deadline command that is blocked at the head of its slot holds it for the rest of
    the run, whatever happens elsewhere, and so does a Hall frame until its block is lifted:
    applying it changes nothing, no other command of the slot is applied, and the slot keeps its
    session or stays without one.
  */
  lemma {:induction false} StuckForever(start: World, before: seq<Action>, after: seq<Action>, c: CommandId)
    requires Fresh(start) && Stuck(Run(start, before), c)
    requires Run(start, before).tables.inbox[c].command.payload.Hall? ==>
               forall k: nat :: !LiftedAt(start, before, after, k, c)
    ensures var w, w' := Run(start, before), Run(start, before + after); var slot := w.tables.inbox[c].command.slot;
            Stuck(w', c) && w'.tables.inbox[c].command == w.tables.inbox[c].command &&
            FindActive(w'.tables.domain.sessions, slot) == FindActive(w.tables.domain.sessions, slot) &&
            forall id, now ::
              id in w'.tables.inbox && Runnable(w'.tables.inbox, now, id) && w'.tables.inbox[id].command.slot == slot ==>
                id == c && Exec(w', ApplyCommand(id, now)) == w'
  {
    hide Exec, Run, Invariant, Blocked, Heads, Fresh, Runnable, LiftedAt, FindActive;
    StuckStays(start, before, after, c);
    var w := Run(start, before + after);
    ReachableIsSafe(start, before + after);
    forall id, now | id in w.tables.inbox && Runnable(w.tables.inbox, now, id)
                     && w.tables.inbox[id].command.slot == w.tables.inbox[c].command.slot
      ensures id == c && Exec(w, ApplyCommand(id, now)) == w
    {
      RunnableSharesHead(w, now, id, c);
      SelectedFailsIffBlocked(w, c, now);
    }
  }

  // ---------------------------------------------------------------- a starter that comes again

  // An authoritative intrusion that could start a session.
  predicate Starter(command: Command) {
    command.payload.Camera? && command.payload.authority && command.payload.action == Intrusion &&
    command.payload.configured != [] && command.payload.area != ""
  }

  // The lease that an intrusion wants on the running session is refused.
  ghost predicate LeaseBlocked(d: Domain, id: CommandId, command: Command)
    requires command.payload.Camera?
  {
    var active := FindActive(d.sessions, command.slot);
    active.Some? && LeaseRefused(d.bindings, id, command, d.sessions[active.value].attempt, active.value)
  }

  lemma StarterIsBlockedIff(d: Domain, id: CommandId, command: Command)
    requires Starter(command) && EntryUsed(d.sessions, id)
    ensures Blocked(d, id, command) <==>
            FindActive(d.sessions, command.slot) == None || TopologyChanged(d, command) || LeaseBlocked(d, id, command)
  {
    hide FindActive, EntryUsed, LeaseRefused, LeaseIdsUsed, CompleteLease;
  }

  /**
    An intrusion that once started a session and comes again blocks its slot exactly when, as it
    heads the queue, the slot has no session, its configured areas changed, or its lease is refused.
  */
  lemma {:induction false} StarterAgainIsStuckIff(w: World, c: CommandId)
    requires c in w.tables.inbox && Heads(w.tables.inbox, c) && Starter(w.tables.inbox[c].command)
    requires EntryUsed(w.tables.domain.sessions, c)
    ensures var d, command := w.tables.domain, w.tables.inbox[c].command;
            Stuck(w, c) <==>
            FindActive(d.sessions, command.slot) == None || TopologyChanged(d, command) || LeaseBlocked(d, c, command)
  {
    hide Heads, FindActive, EntryUsed, Blocked, LeaseBlocked;
    StarterIsBlockedIff(w.tables.domain, c, w.tables.inbox[c].command);
  }

  /** It is stuck as soon as it is admitted again exactly when, besides, nothing else of its slot is pending. */
  lemma {:induction false} ReadmittedStarterIsStuck(w: World, action: Action)
    requires Invariant(w) && action.Submit? && Starter(action.command)
    requires EntryUsed(w.tables.domain.sessions, External(action.name))
    requires Admit(w.tables, action.name, action.command, action.capacity, action.now).code == NewlyAdmitted
    ensures var d := w.tables.domain;
            Stuck(Exec(w, action), External(action.name)) <==>
            (FindActive(d.sessions, action.command.slot) == None || TopologyChanged(d, action.command) ||
             LeaseBlocked(d, External(action.name), action.command)) &&
            forall e :: e in w.tables.inbox && w.tables.inbox[e].status == Pending ==>
              w.tables.inbox[e].command.slot != action.command.slot
  {
    hide Invariant, FindActive, EntryUsed, FindIdentity, HallRefused, SourceFact, TopOrdinal, PendingIds, FindCandidate;
    hide Exec, Heads, Starter, Blocked, LeaseBlocked;
    var inbox, c := w.tables.inbox, External(action.name);
    StarterIsCamera(action.command);
    assert AfterCancel(inbox, action.command) == inbox;
    var row := NewRow(action.command, TopOrdinal(inbox) + 1, action.now);
    assert c !in inbox && Exec(w, action).tables == w.tables.(inbox := inbox[c := row]) by { InsertedNew(w, action); }
    NewHeadsIff(inbox, c, action.command, action.now);
    StarterIsBlockedIff(w.tables.domain, c, action.command);
  }

  lemma StarterIsCamera(command: Command)
    requires Starter(command)
    ensures command.payload.Camera?
  {
  }

  lemma InsertedNew(w: World, action: Action)
    requires action.Submit? && !action.command.payload.Deadline?
    requires AfterCancel(w.tables.inbox, action.command) == w.tables.inbox
    requires Admit(w.tables, action.name, action.command, action.capacity, action.now).code == NewlyAdmitted
    ensures External(action.name) !in w.tables.inbox
    ensures var row := NewRow(action.command, TopOrdinal(w.tables.inbox) + 1, action.now);
            Exec(w, action).tables == w.tables.(inbox := w.tables.inbox[External(action.name) := row])
  {
    hide FindIdentity, HallRefused, SourceFact, TopOrdinal, PendingIds, FindCandidate, NewRow, AfterCancel;
  }

  // A new row heads its slot exactly when nothing else is pending there.
  lemma NewHeadsIff(inbox: Inbox, c: CommandId, command: Command, now: int)
    requires c !in inbox
    ensures Heads(inbox[c := NewRow(command, TopOrdinal(inbox) + 1, now)], c) <==>
            forall e :: e in inbox && inbox[e].status == Pending ==> inbox[e].command.slot != command.slot
  {
    AllBelowTop(inbox);
    hide TopOrdinal;
    var after := inbox[c := NewRow(command, TopOrdinal(inbox) + 1, now)];
    forall e | e in inbox && inbox[e].status == Pending && inbox[e].command.slot == command.slot
      ensures !Heads(after, c)
    {
      assert after[e] == inbox[e];
    }
  }

  lemma AllBelowTop(inbox: Inbox)
    ensures forall e :: e in inbox ==> inbox[e].ordinal <= TopOrdinal(inbox)
  {
  }
}
