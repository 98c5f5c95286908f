/**
  What holds in every run of the occupancy machine, stated on the tables and on the steps
  of the run: effects alternate, slots are consistent, deadlines match their commands, a
  Hall frame counts once, the inbox stays within its capacity.
*/
module OccupancyRuns {
  import opened Options
  import opened OccupancyTables
  import opened OccupancyReducer
  import opened OccupancyDomain
  import opened OccupancyInbox
  import opened OccupancyWorld
  import opened OccupancySafety
  import Sequence = SensorSequence

  lemma RunSplit(w: World, before: seq<Action>, after: seq<Action>)
    ensures Run(w, before + after) == Run(Run(w, before), after)
  {
    hide Exec;
    if after == [] {
      assert before + after == before;
    } else {
      var n := |after| - 1;
      RunSplit(w, before, after[..n]);
      assert (before + after)[..|before + after| - 1] == before + after[..n];
    }
  }

  lemma RunOne(w: World, actions: seq<Action>, k: nat)
    requires k < |actions|
    ensures Run(w, actions[..k + 1]) == Exec(Run(w, actions[..k]), actions[k])
  {
    hide Exec;
    assert actions[..k + 1][..k] == actions[..k];
  }

  // ---------------------------------------------------------------- effects alternate

  // What the effect sink was told by one completed step.
  datatype Completion = Completion(command: CommandId, result: Option<Code>, session: Option<SessionId>, stamp: nat)

  function CompletedNow(w: World, action: Action, slot: SlotId): seq<Completion> {
    if action.CompleteEffects? && EffectReady(w.tables.inbox, action.now, action.id) &&
       w.tables.inbox[action.id].command.slot == slot && action.id in w.history.stamps
    then
      var row := w.tables.inbox[action.id];
      [Completion(action.id, row.result, row.session, w.history.stamps[action.id])]
    else []
  }

  ghost function Completions(start: World, actions: seq<Action>, slot: SlotId): seq<Completion> {
    if actions == [] then []
    else
      var n := |actions| - 1;
      Completions(start, actions[..n], slot) + CompletedNow(Run(start, actions[..n]), actions[n], slot)
  }

  function Told(effect: Effect): Completion {
    Completion(effect.command, Some(if effect.started then SessionStarted else SessionEnded), Some(effect.session),
               effect.stamp)
  }

  lemma EffectsGrow(w: World, action: Action, slot: SlotId)
    ensures EffectsOf(w.history, slot) <= EffectsOf(Exec(w, action).history, slot)
  {
    hide Admit, AdmitDue, DueBatch, Runnable, EffectReady, PurgeBatch, Reduce, Apply, CompleteEffect, Purge;
    hide MarkViolation, Defer, DeferEffect;
    if action.AdmitDeadlines? { BatchEffects(w.history, action.batch, slot); }
  }

  lemma BatchEffects(h: History, batch: seq<DeadlineId>, slot: SlotId)
    ensures EffectsOf(StampedBatch(h, batch), slot) == EffectsOf(h, slot)
    ensures CompletedOf(StampedBatch(h, batch), slot) == CompletedOf(h, slot)
    decreases batch
  {
    if batch != [] { BatchEffects(Stamped(h, ForDeadline(batch[0])), batch[1..], slot); }
  }

  lemma CompletedCount(w: World, action: Action, slot: SlotId)
    requires OrderOk(w.tables.inbox, w.history)
    ensures CompletedOf(Exec(w, action).history, slot) ==
            CompletedOf(w.history, slot) + |CompletedNow(w, action, slot)|
  {
    hide Admit, AdmitDue, DueBatch, Runnable, PurgeBatch, Reduce, Apply, CompleteEffect, Purge;
    hide MarkViolation, Defer, DeferEffect;
    if action.AdmitDeadlines? { BatchEffects(w.history, action.batch, slot); }
  }

  lemma CompletedIsNext(w: World, action: Action, slot: SlotId)
    requires OrderOk(w.tables.inbox, w.history) && HistoryOk(w.tables.inbox, w.history)
    requires CompletedNow(w, action, slot) != []
    ensures CompletedOf(w.history, slot) < |EffectsOf(w.history, slot)|
    ensures CompletedNow(w, action, slot) == [Told(EffectsOf(w.history, slot)[CompletedOf(w.history, slot)])]
  {
    var inbox, h := w.tables.inbox, w.history;
    ReadyIsNext(inbox, h, action.now, action.id);
    assert SlotHistoryOk(inbox, h, slot);
    assert EffectRowOk(inbox, h, slot, CompletedOf(h, slot));
  }

  lemma {:induction false} CompletionsFollowHistory(start: World, actions: seq<Action>, slot: SlotId)
    requires Fresh(start)
    ensures var h, told := Run(start, actions).history, Completions(start, actions, slot);
            |told| == CompletedOf(h, slot) <= |EffectsOf(h, slot)| &&
            forall i :: 0 <= i < |told| ==> told[i] == Told(EffectsOf(h, slot)[i])
  {
    hide Exec, Fresh, CompletedNow, Invariant;
    if actions == [] {
      FreshEffects(start, slot);
    } else {
      var n := |actions| - 1;
      var w, action := Run(start, actions[..n]), actions[n];
      CompletionsFollowHistory(start, actions[..n], slot);
      ReachableIsSafe(start, actions[..n]);
      assert OrderOk(w.tables.inbox, w.history) && HistoryOk(w.tables.inbox, w.history) by { SafeHistory(w); }
      hide OrderOk, HistoryOk;
      EffectsGrow(w, action, slot);
      CompletedCount(w, action, slot);
      if CompletedNow(w, action, slot) != [] { CompletedIsNext(w, action, slot); }
    }
  }

  lemma SafeHistory(w: World)
    requires Invariant(w)
    ensures OrderOk(w.tables.inbox, w.history) && HistoryOk(w.tables.inbox, w.history)
  {
  }

  lemma FreshEffects(w: World, slot: SlotId)
    requires Fresh(w)
    ensures EffectsOf(w.history, slot) == [] && CompletedOf(w.history, slot) == 0
  {
  }

  /**
    In every run the completed effects of a slot strictly alternate between a started and an
    ended session, an end names the session that started just before it, and they come in
    the order in which their commands were admitted.
  */
  lemma CompletedEffectsAlternate(start: World, actions: seq<Action>, slot: SlotId)
    requires Fresh(start)
    ensures var told := Completions(start, actions, slot);
            (forall i :: 0 <= i < |told| ==>
               told[i].result == Some(if i % 2 == 0 then SessionStarted else SessionEnded)) &&
            (forall i :: 0 < i < |told| && i % 2 == 1 ==> told[i].session == told[i - 1].session) &&
            (forall i, j :: 0 <= i < j < |told| ==> told[i].stamp < told[j].stamp)
  {
    hide Run, Completions, Fresh, Invariant;
    CompletionsFollowHistory(start, actions, slot);
    ReachableIsSafe(start, actions);
    SafeAlternation(Run(start, actions), slot);
  }

  lemma SafeAlternation(w: World, slot: SlotId)
    requires Invariant(w)
    ensures Alternates(EffectsOf(w.history, slot))
  {
    hide DomainOk, InboxOk, OrderOk, LinkOk, FramesOk, RunningOk, Alternates;
    assert SlotHistoryOk(w.tables.inbox, w.history, slot);
  }

  // ---------------------------------------------------------------- slots, sessions, deadlines

  predicate OneActivePerSlot(sessions: Sessions) {
    forall s, t :: s in sessions && t in sessions && sessions[s].slot == sessions[t].slot
                   && Active(sessions[s]) && Active(sessions[t])
      ==> s == t
  }

  predicate TruthfulSlots(d: Domain) {
    forall slot :: slot in d.slots ==>
      (d.slots[slot] == SlotOccupied <==> exists s :: s in d.sessions && ActiveIn(d.sessions[s], slot))
  }

  // A camera row that names a session names the active session of its slot.
  predicate ObservationsFollow(d: Domain) {
    forall slot :: slot in d.observations && d.observations[slot].session.Some? ==>
      var s := d.observations[slot].session.value;
      s in d.sessions && ActiveIn(d.sessions[s], slot) && d.sessions[s].attempt == d.observations[slot].attempt
  }

  predicate ExitsFollowEntries(sessions: Sessions) {
    forall s :: s in sessions && sessions[s].exitAt.Some? ==>
      sessions[s].status == EndedStatus && sessions[s].entryAt <= sessions[s].exitAt.value
  }

  predicate LatchesTell(sessions: Sessions) {
    forall s :: s in sessions ==>
      (Active(sessions[s]) <==> sessions[s].hallOccupied || sessions[s].ivaOccupied) &&
      (sessions[s].hallOccupied ==> sessions[s].hallConfirmed) &&
      (sessions[s].ivaOccupied ==> sessions[s].ivaConfirmed)
  }

  /**
    In every reachable world a slot has at most one active session, the slot row says OCCUPIED
    exactly when it has one, no camera row is on an ended session, no session exits before it
    entered, and a session is active exactly while one of its (confirmed) latches is up.
  */
  lemma SlotsAreConsistent(start: World, actions: seq<Action>)
    requires Fresh(start)
    ensures var d := Run(start, actions).tables.domain;
            OneActivePerSlot(d.sessions) && TruthfulSlots(d) && ObservationsFollow(d) &&
            ExitsFollowEntries(d.sessions) && LatchesTell(d.sessions)
  {
    hide Run, Fresh, Invariant;
    ReachableIsSafe(start, actions);
    SafeSlots(Run(start, actions));
  }

  lemma SafeSlots(w: World)
    requires Invariant(w)
    ensures var d := w.tables.domain;
            OneActivePerSlot(d.sessions) && TruthfulSlots(d) && ObservationsFollow(d) &&
            ExitsFollowEntries(d.sessions) && LatchesTell(d.sessions)
  {
    hide InboxOk, OrderOk, LinkOk, HistoryOk, RunningOk, FramesOk, DeadlinesOk, BindingsOk, CursorsOk;
  }

  // The admitted deadlines are those with a pending command, which repeats what they say.
  predicate CommandsMatch(t: Tables) {
    (forall x :: x in t.domain.deadlines ==>
       (t.domain.deadlines[x].state == Admitted <==>
        ForDeadline(x) in t.inbox && t.inbox[ForDeadline(x)].status == Pending)) &&
    (forall c :: c in t.inbox && c.ForDeadline? && t.inbox[c].status == Pending ==>
       var p := t.inbox[c].command.payload;
       c.deadline in t.domain.deadlines && p.Deadline? && p.deadline == c.deadline &&
       p.attempt == t.domain.deadlines[c.deadline].attempt &&
       p.session == c.deadline.session && p.generation == c.deadline.generation &&
       p.hybrid == t.domain.deadlines[c.deadline].hybrid &&
       t.inbox[c].command.dueAt == t.domain.deadlines[c.deadline].dueAt)
  }

  /** A slot has at most one live deadline, and no admitted deadline is ever without its pending command. */
  lemma {:induction false} DeadlinesMatchCommands(start: World, actions: seq<Action>)
    requires Fresh(start)
    ensures OneLivePerSlot(Run(start, actions).tables.domain.deadlines) && CommandsMatch(Run(start, actions).tables)
  {
    hide Run, Fresh, Invariant;
    ReachableIsSafe(start, actions);
    SafeDeadlines(Run(start, actions));
  }

  lemma SafeDeadlines(w: World)
    requires Invariant(w)
    ensures OneLivePerSlot(w.tables.domain.deadlines) && CommandsMatch(w.tables)
  {
    hide OrderOk, HistoryOk, RunningOk, FramesOk, SessionsOk, SlotsOk, ObservationsOk, BindingsOk, CursorsOk;
    hide UniqueIdentities, OneCandidatePerSlot, DeadlineOk;
    forall c | c in w.tables.inbox ensures RowOk(c, w.tables.inbox[c]) {}
  }

  // ---------------------------------------------------------------- a Hall frame counts once

  // This step applies the versioned Hall frame and changes some domain table.
  ghost predicate ChangesBy(w: World, action: Action, frame: Frame) {
    action.ApplyCommand? && Runnable(w.tables.inbox, action.now, action.id) &&
    var command := w.tables.inbox[action.id].command;
    command.payload.Hall? && command.payload.protocol == Sequence.BootEpochV2 &&
    command.sensor == frame.sensor && command.payload.bootId == Some(frame.boot) &&
    command.sequence == Some(frame.sequence) && Exec(w, action).tables.domain != w.tables.domain
  }

  lemma FramesGrow(w: World, action: Action)
    ensures w.history.frames <= Exec(w, action).history.frames
  {
    hide Admit, AdmitDue, DueBatch, Runnable, EffectReady, PurgeBatch, Reduce, Apply, CompleteEffect, Purge;
    hide MarkViolation, Defer, DeferEffect;
    if action.AdmitDeadlines? { BatchFrames(w.history, action.batch); }
  }

  lemma BatchFrames(h: History, batch: seq<DeadlineId>)
    ensures StampedBatch(h, batch).frames == h.frames
    decreases batch
  {
    if batch != [] { BatchFrames(Stamped(h, ForDeadline(batch[0])), batch[1..]); }
  }

  lemma {:induction false} FramesStay(w: World, actions: seq<Action>)
    ensures w.history.frames <= Run(w, actions).history.frames
  {
    hide Exec;
    if actions != [] {
      FramesStay(w, actions[..|actions| - 1]);
      FramesGrow(Run(w, actions[..|actions| - 1]), actions[|actions| - 1]);
    }
  }

  lemma ChangeIsRecorded(w: World, action: Action, frame: Frame)
    requires ChangesBy(w, action, frame)
    ensures Exec(w, action).history.frames == w.history.frames + [frame]
  {
    hide Runnable, Reduce;
  }

  /** A versioned Hall frame changes the tables at most once in a run, even when its row was purged and admitted again. */
  lemma {:induction false} FrameCountsOnce(start: World, actions: seq<Action>, i: nat, j: nat, frame: Frame)
    requires Fresh(start) && i < j < |actions|
    requires ChangesBy(Run(start, actions[..i]), actions[i], frame)
    ensures !ChangesBy(Run(start, actions[..j]), actions[j], frame)
  {
    hide Exec, Run, Fresh, Invariant, ChangesBy;
    var first, second := Run(start, actions[..i]), Run(start, actions[..j]);
    if ChangesBy(second, actions[j], frame) {
      ChangeIsRecorded(first, actions[i], frame);
      ChangeIsRecorded(second, actions[j], frame);
      RunOne(start, actions, i);
      RunOne(start, actions, j);
      RunSplit(start, actions[..i + 1], actions[i + 1..j]);
      assert actions[..i + 1] + actions[i + 1..j] == actions[..j];
      FramesStay(Run(start, actions[..i + 1]), actions[i + 1..j]);
      ReachableIsSafe(start, actions[..j + 1]);
      SafeFrames(Run(start, actions[..j + 1]));
      RecordedTwice(Run(start, actions[..i + 1]).history.frames, second.history.frames, frame);
      assert false;
    }
  }

  lemma RecordedTwice(first: seq<Frame>, second: seq<Frame>, frame: Frame)
    requires first != [] && first[|first| - 1] == frame && first <= second
    ensures var frames := second + [frame]; exists i, j :: 0 <= i < j < |frames| && frames[i] == frames[j]
  {
    var frames := second + [frame];
    assert frames[|first| - 1] == frames[|second|];
  }

  lemma SafeFrames(w: World)
    requires Invariant(w)
    ensures forall i, j :: 0 <= i < j < |w.history.frames| ==> w.history.frames[i] != w.history.frames[j]
  {
    hide DomainOk, InboxOk, OrderOk, LinkOk, HistoryOk, RunningOk;
  }
}
