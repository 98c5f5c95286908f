/**
  Every step of the occupancy machine keeps the whole-run invariant. The steps fall into
  a few shapes of change to the inbox; each shape is proved once per part of the invariant.
*/
module OccupancyInvariant {
  import opened Options
  import opened OccupancyTables
  import opened OccupancyReducer
  import opened OccupancyDomain
  import opened OccupancyInbox
  import opened OccupancyWorld
  import Sequence = SensorSequence

  // ---------------------------------------------------------------- the history outlives changes of the inbox

  predicate SameRow(left: Row, right: Row) {
    left.command == right.command && left.ordinal == right.ordinal && left.status == right.status &&
    left.effect == right.effect && left.result == right.result && left.session == right.session
  }

  // Rows that wait for their effect stay; no row becomes pending or waiting again.
  predicate WaitingKept(before: Inbox, after: Inbox) {
    (forall c :: c in before && AwaitsEffect(before[c]) ==> c in after && SameRow(before[c], after[c])) &&
    (forall c :: c in before && c in after ==>
       after[c].command == before[c].command &&
       (AwaitsEffect(after[c]) ==> AwaitsEffect(before[c])) &&
       (after[c].status == Pending ==> before[c].status == Pending))
  }

  // Only commands that were not in the inbox got a stamp, and a new one.
  predicate StampsKept(before: Inbox, h: History, after: History) {
    after == h.(clock := after.clock, stamps := after.stamps) && h.clock <= after.clock &&
    forall c :: c in before && c in h.stamps ==> c in after.stamps && after.stamps[c] == h.stamps[c]
  }

  lemma HistoryCarries(before: Inbox, after: Inbox, h: History, h': History)
    requires HistoryOk(before, h) && WaitingKept(before, after) && StampsKept(before, h, h')
    requires forall c :: c in after && c !in before ==>
      after[c].status == Pending && c in h'.stamps && h.clock <= h'.stamps[c]
    requires forall c :: c in before ==> c in h.stamps
    ensures HistoryOk(after, h')
  {
    forall slot ensures SlotHistoryOk(after, h', slot) {
      assert SlotHistoryOk(before, h, slot);
      forall i | CompletedOf(h, slot) <= i < |EffectsOf(h, slot)| ensures EffectRowOk(after, h', slot, i) {
        assert EffectRowOk(before, h, slot, i);
      }
    }
    forall c | c in after ensures RowHistoryOk(after, h', c) {
      assert EffectsOf(h', after[c].command.slot) == EffectsOf(h, after[c].command.slot);
      if c in before {
        assert RowHistoryOk(before, h, c);
      } else {
        assert SlotHistoryOk(before, h, after[c].command.slot);
      }
    }
  }

  // ---------------------------------------------------------------- rows keep their place

  // Every row that is left is an old one, and none has become pending again.
  predicate Shrinks(before: Inbox, after: Inbox) {
    forall c :: c in after ==>
      c in before && after[c].command == before[c].command && after[c].ordinal == before[c].ordinal &&
      (after[c].status == Pending ==> before[c].status == Pending) &&
      (after[c].status != Applied ==> after[c].effect == NoEffect)
  }

  lemma ShrunkIdentities(before: Inbox, after: Inbox)
    requires Shrinks(before, after) && UniqueIdentities(before)
    ensures UniqueIdentities(after)
  {
    hide SameIdentity;
  }

  lemma ShrunkCandidates(before: Inbox, after: Inbox)
    requires Shrinks(before, after) && OneCandidatePerSlot(before)
    ensures OneCandidatePerSlot(after)
  {
    assert forall slot, c :: c in after && IsCandidate(after[c], slot) ==> IsCandidate(before[c], slot);
    hide IsCandidate;
  }

  lemma ShrunkOrder(before: Inbox, after: Inbox, h: History)
    requires Shrinks(before, after) && OrderOk(before, h)
    ensures OrderOk(after, h)
  {
  }

  lemma ShrunkInbox(before: Inbox, after: Inbox, h: History)
    requires Shrinks(before, after) && InboxOk(before) && OrderOk(before, h)
    ensures InboxOk(after) && OrderOk(after, h)
  {
    hide UniqueIdentities, OneCandidatePerSlot, OrderOk;
    ShrunkIdentities(before, after);
    ShrunkCandidates(before, after);
    ShrunkOrder(before, after, h);
  }

  // ---------------------------------------------------------------- rows that only count retries

  lemma InertLink(inbox: Inbox, c: CommandId, row: Row, d: Domain)
    requires c in inbox && SameRow(inbox[c], row) && LinkOk(inbox, d)
    ensures LinkOk(inbox[c := row], d)
  {
  }

  // ---------------------------------------------------------------- a row is admitted

  predicate Fresher(inbox: Inbox, row: Row) {
    row.status == Pending && row.effect == NoEffect && forall c :: c in inbox ==> inbox[c].ordinal < row.ordinal
  }

  lemma InsertOrder(inbox: Inbox, c: CommandId, row: Row, h: History)
    requires c !in inbox && Fresher(inbox, row) && OrderOk(inbox, h)
    ensures OrderOk(inbox[c := row], Stamped(h, c))
  {
  }

  lemma InsertHistory(inbox: Inbox, c: CommandId, row: Row, h: History)
    requires c !in inbox && Fresher(inbox, row) && HistoryOk(inbox, h) && OrderOk(inbox, h)
    ensures HistoryOk(inbox[c := row], Stamped(h, c))
  {
    hide HistoryOk;
    HistoryCarries(inbox, inbox[c := row], h, Stamped(h, c));
  }

  lemma InsertInbox(inbox: Inbox, c: CommandId, row: Row)
    requires c !in inbox && InboxOk(inbox) && RowOk(c, row)
    requires forall e :: e in inbox ==> !SameIdentity(inbox[e].command, row.command)
    requires forall slot, e :: e in inbox && IsCandidate(row, slot) ==> !IsCandidate(inbox[e], slot)
    ensures InboxOk(inbox[c := row])
  {
  }

  // ---------------------------------------------------------------- a pending row becomes terminal

  // The row keeps its place; only its outcome is written.
  predicate Settled(before: Row, after: Row) {
    before.status == Pending && after.status != Pending && after.command == before.command &&
    after.ordinal == before.ordinal && (after.status != Applied ==> after.effect == NoEffect)
  }

  lemma RowsShrink(inbox: Inbox)
    requires InboxOk(inbox)
    ensures Shrinks(inbox, inbox)
  {
    hide UniqueIdentities, OneCandidatePerSlot;
    forall c | c in inbox ensures inbox[c].status != Applied ==> inbox[c].effect == NoEffect {
      assert RowOk(c, inbox[c]);
    }
  }

  lemma SettleInbox(inbox: Inbox, c: CommandId, row: Row, h: History)
    requires c in inbox && Settled(inbox[c], row) && InboxOk(inbox) && OrderOk(inbox, h)
    ensures InboxOk(inbox[c := row]) && OrderOk(inbox[c := row], h)
  {
    RowsShrink(inbox);
    hide InboxOk, OrderOk;
    ShrunkInbox(inbox, inbox[c := row], h);
  }

  lemma SettleHistory(inbox: Inbox, c: CommandId, row: Row, h: History)
    requires c in inbox && Settled(inbox[c], row) && row.effect == NoEffect
    requires HistoryOk(inbox, h) && OrderOk(inbox, h)
    ensures HistoryOk(inbox[c := row], h)
  {
    hide HistoryOk;
    HistoryCarries(inbox, inbox[c := row], h, h);
  }

  // ---------------------------------------------------------------- settled rows disappear

  predicate Gone(inbox: Inbox, doomed: set<CommandId>) {
    forall c :: c in doomed ==> c in inbox && inbox[c].status == Applied && inbox[c].effect != EffectPending
  }

  lemma PurgeInbox(inbox: Inbox, doomed: set<CommandId>, d: Domain, h: History)
    requires Gone(inbox, doomed) && InboxOk(inbox) && OrderOk(inbox, h) && LinkOk(inbox, d)
    ensures InboxOk(inbox - doomed) && OrderOk(inbox - doomed, h) && LinkOk(inbox - doomed, d)
  {
    RowsShrink(inbox);
    hide InboxOk, OrderOk;
    ShrunkInbox(inbox, inbox - doomed, h);
  }

  lemma PurgeHistory(inbox: Inbox, doomed: set<CommandId>, h: History)
    requires Gone(inbox, doomed) && HistoryOk(inbox, h) && OrderOk(inbox, h)
    ensures HistoryOk(inbox - doomed, h)
  {
    hide HistoryOk;
    HistoryCarries(inbox, inbox - doomed, h, h);
  }

  // ---------------------------------------------------------------- applying: deadlines and commands stay linked

  lemma SupersedeAdmitted(d: Domain, slot: SlotId, hybrid: bool)
    ensures AdmittedKept(d.deadlines, SupersedeScheduled(d, slot).deadlines, {}, hybrid)
  {
  }

  lemma CameraDeadlines(d: Domain, id: CommandId, row: Row)
    requires row.command.payload.Camera?
    ensures ReduceCamera(d, id, row).Commit? ==>
      AdmittedKept(d.deadlines, ReduceCamera(d, id, row).domain.deadlines, {}, row.command.payload.hybrid)
  {
    hide FindActive, CameraIntrusion, CameraEvidence, CameraExit, SupersedeScheduled, AdmittedKept;
    SupersedeAdmitted(d, row.command.slot, row.command.payload.hybrid);
    AdmittedSame(d.deadlines, row.command.payload.hybrid);
  }

  lemma ReduceAdmitted(d: Domain, id: CommandId, row: Row)
    requires row.command.payload.Deadline? ==> DeadlineOwnsSlot(d, row)
    ensures Reduce(d, id, row).Commit? ==>
      AdmittedKept(d.deadlines, Reduce(d, id, row).domain.deadlines,
                   if row.command.payload.Deadline? then {row.command.payload.deadline} else {},
                   row.command.payload.hybrid)
  {
    hide AdmittedKept, ReduceHall, ReduceCamera, ReduceDeadline;
    match row.command.payload
    case Hall(_, _, _, _, _) => AdmittedSame(d.deadlines, row.command.payload.hybrid);
    case Camera(_, _, _, _, _, _, _, _, _, _, _, _) => CameraDeadlines(d, id, row);
    case Deadline(_, _, _, _, _) =>
  }

  lemma AdmittedSame(deadlines: Deadlines, hybrid: bool)
    ensures AdmittedKept(deadlines, deadlines, {}, hybrid)
  {
  }

  lemma SettleLink(inbox: Inbox, c: CommandId, row: Row, d: Domain, d': Domain)
    requires c in inbox && Settled(inbox[c], row) && LinkOk(inbox, d)
    requires AdmittedKept(d.deadlines, d'.deadlines,
                          if row.command.payload.Deadline? then {row.command.payload.deadline} else {},
                          row.command.payload.hybrid)
    ensures LinkOk(inbox[c := row], d')
  {
    var after := inbox[c := row];
    var spent := if row.command.payload.Deadline? then {row.command.payload.deadline} else {};
    assert CommandsHaveDeadlines(after, d');
    assert PendingOwn(after, d') by {
      forall e | e in after && after[e].command.payload.Deadline? && after[e].status == Pending
        ensures DeadlineOwnsSlot(d', after[e]) && RepeatsDeadline(after[e].command, d')
      {
        StillOwned(d, d', spent, inbox[e]);
      }
    }
    assert AdmittedPending(after, d');
  }

  lemma StillOwned(d: Domain, d': Domain, spent: set<DeadlineId>, row: Row)
    requires row.command.payload.Deadline? && DeadlineOwnsSlot(d, row) && row.command.payload.deadline !in spent
    requires exists hybrid :: AdmittedKept(d.deadlines, d'.deadlines, spent, hybrid)
    requires RepeatsDeadline(row.command, d)
    ensures DeadlineOwnsSlot(d', row) && RepeatsDeadline(row.command, d')
  {
  }

  // ---------------------------------------------------------------- applying: an effect joins the history

  lemma AppendAlternates(effects: seq<Effect>, effect: Effect)
    requires Alternates(effects)
    requires if effect.started then Running(effects) == None else Running(effects) == Some(effect.session)
    requires forall i :: 0 <= i < |effects| ==> effects[i].stamp < effect.stamp
    ensures Alternates(effects + [effect])
    ensures Running(effects + [effect]) == if effect.started then Some(effect.session) else None
  {
  }

  // The command that is applied is the earliest pending one of its slot.
  predicate Earliest(inbox: Inbox, h: History, id: CommandId) {
    id in inbox && id in h.stamps && inbox[id].status == Pending && h.stamps[id] < h.clock &&
    forall e :: e in inbox && e != id && inbox[e].status == Pending && e in h.stamps
                && inbox[e].command.slot == inbox[id].command.slot
      ==> h.stamps[id] < h.stamps[e]
  }

  // The session of an effect is the one that started, or the one that was running.
  predicate Continues(h: History, slot: SlotId, outcome: Outcome) {
    HasEffect(outcome.code) && outcome.session.Some? &&
    Running(EffectsOf(h, slot)) == if outcome.code == SessionStarted then None else outcome.session
  }

  lemma EffectSlot(inbox: Inbox, id: CommandId, h: History, outcome: Outcome)
    requires HistoryOk(inbox, h) && Earliest(inbox, h, id) && Continues(h, inbox[id].command.slot, outcome)
    ensures var slot := inbox[id].command.slot;
            SlotHistoryOk(inbox[id := Finished(inbox[id], outcome)], WithEffect(h, id, slot, outcome), slot)
  {
    var slot := inbox[id].command.slot;
    var after, h' := inbox[id := Finished(inbox[id], outcome)], WithEffect(h, id, slot, outcome);
    var effects := EffectsOf(h, slot);
    assert RowHistoryOk(inbox, h, id) && SlotHistoryOk(inbox, h, slot);
    AppendAlternates(effects, EffectsOf(h', slot)[|effects|]);
    forall i | CompletedOf(h', slot) <= i < |EffectsOf(h', slot)| ensures EffectRowOk(after, h', slot, i) {
      if i < |effects| { assert EffectRowOk(inbox, h, slot, i); }
    }
  }

  lemma EffectOtherSlots(inbox: Inbox, id: CommandId, h: History, outcome: Outcome, slot: SlotId)
    requires HistoryOk(inbox, h) && Earliest(inbox, h, id) && slot != inbox[id].command.slot
    ensures SlotHistoryOk(inbox[id := Finished(inbox[id], outcome)],
                          WithEffect(h, id, inbox[id].command.slot, outcome), slot)
  {
    var after := inbox[id := Finished(inbox[id], outcome)];
    var h' := WithEffect(h, id, inbox[id].command.slot, outcome);
    assert SlotHistoryOk(inbox, h, slot) && EffectsOf(h', slot) == EffectsOf(h, slot);
    forall i | CompletedOf(h', slot) <= i < |EffectsOf(h', slot)| ensures EffectRowOk(after, h', slot, i) {
      assert EffectRowOk(inbox, h, slot, i);
    }
  }

  lemma EffectRows(inbox: Inbox, id: CommandId, h: History, outcome: Outcome, c: CommandId)
    requires HistoryOk(inbox, h) && Earliest(inbox, h, id) && Continues(h, inbox[id].command.slot, outcome)
    requires c in inbox
    ensures RowHistoryOk(inbox[id := Finished(inbox[id], outcome)],
                         WithEffect(h, id, inbox[id].command.slot, outcome), c)
  {
    var slot := inbox[id].command.slot;
    var h' := WithEffect(h, id, slot, outcome);
    assert RowHistoryOk(inbox, h, c) && RowHistoryOk(inbox, h, id);
    var other := inbox[c].command.slot;
    if c == id {
      assert SlotHistoryOk(inbox, h, slot);
    } else if other == slot {
      assert forall i :: 0 <= i < |EffectsOf(h, slot)| ==> EffectsOf(h', slot)[i] == EffectsOf(h, slot)[i];
    } else {
      assert EffectsOf(h', other) == EffectsOf(h, other);
    }
  }

  lemma EffectHistory(inbox: Inbox, id: CommandId, h: History, outcome: Outcome)
    requires HistoryOk(inbox, h) && Earliest(inbox, h, id) && Continues(h, inbox[id].command.slot, outcome)
    ensures HistoryOk(inbox[id := Finished(inbox[id], outcome)], WithEffect(h, id, inbox[id].command.slot, outcome))
  {
    hide SlotHistoryOk, RowHistoryOk, Finished, WithEffect;
    var after := inbox[id := Finished(inbox[id], outcome)];
    var h' := WithEffect(h, id, inbox[id].command.slot, outcome);
    forall slot ensures SlotHistoryOk(after, h', slot) {
      if slot == inbox[id].command.slot { EffectSlot(inbox, id, h, outcome); }
      else { EffectOtherSlots(inbox, id, h, outcome, slot); }
    }
    forall c | c in after ensures RowHistoryOk(after, h', c) { EffectRows(inbox, id, h, outcome, c); }
  }

  lemma RunnableIsEarliest(inbox: Inbox, h: History, now: int, id: CommandId)
    requires OrderOk(inbox, h) && Runnable(inbox, now, id)
    ensures Earliest(inbox, h, id)
  {
  }

  // ---------------------------------------------------------------- applying: who is running

  lemma RunningAfter(before: Sessions, after: Sessions, inbox: Inbox, id: CommandId, h: History, outcome: Outcome)
    requires RunningOk(before, h) && id in inbox && id in h.stamps && Continues(h, inbox[id].command.slot, outcome)
    requires ActiveMoves(before, after, inbox[id].command.slot,
                         if outcome.code == SessionStarted then outcome.session else None)
    ensures RunningOk(after, WithEffect(h, id, inbox[id].command.slot, outcome))
  {
    hide FindActive;
    var slot := inbox[id].command.slot;
    var h' := WithEffect(h, id, slot, outcome);
    forall other ensures FindActive(after, other) == Running(EffectsOf(h', other)) {
      if other == slot {
        assert |EffectsOf(h', slot)| == |EffectsOf(h, slot)| + 1;
      } else {
        assert EffectsOf(h', other) == EffectsOf(h, other);
      }
    }
  }

  lemma RunningSame(before: Sessions, after: Sessions, h: History, slot: SlotId)
    requires RunningOk(before, h) && ActiveMoves(before, after, slot, FindActive(before, slot))
    ensures RunningOk(after, h)
  {
    hide FindActive;
  }

  // ---------------------------------------------------------------- applying: frames are used once

  lemma SpentStays(cursor: Sequence.Cursor, fact: Sequence.Fact, boot: string, sequence: nat)
    requires Sequence.WellFormed(cursor) && Sequence.Evaluate(cursor, fact) == Sequence.Accept
    requires Sequence.Spent(cursor, boot, sequence)
    ensures Sequence.Spent(Sequence.DurableCommitted(cursor, fact), boot, sequence)
  {
  }

  lemma FrameIsSpent(cursor: Sequence.Cursor, fact: Sequence.Fact)
    requires Sequence.WellFormed(cursor) && Sequence.Evaluate(cursor, fact) == Sequence.Accept
    requires fact.protocol == Sequence.BootEpochV2
    ensures Sequence.Spent(Sequence.DurableCommitted(cursor, fact), fact.bootId.value, fact.sequence.value)
    ensures !Sequence.Spent(cursor, fact.bootId.value, fact.sequence.value)
  {
  }

  lemma FramesAfterCommit(d: Domain, command: Command, frames: seq<Frame>)
    requires command.payload.Hall? && command.sensor != "" && CursorsOk(d.cursors)
    requires Sequence.Evaluate(CursorOf(d.cursors, command.sensor), FactOf(command)) == Sequence.Accept
    requires FramesOk(d.cursors, frames)
    ensures FramesOk(CommitSequence(d, command).cursors, frames)
    ensures command.payload.protocol == Sequence.BootEpochV2 ==>
      command.payload.bootId.Some? && command.sequence.Some? &&
      FramesOk(CommitSequence(d, command).cursors,
               frames + [Frame(command.sensor, command.payload.bootId.value, command.sequence.value)])
  {
    hide Sequence.Evaluate, Sequence.DurableCommitted, Sequence.Spent;
    var cursor, fact := CursorOf(d.cursors, command.sensor), FactOf(command);
    var cursors := CommitSequence(d, command).cursors;
    forall i | 0 <= i < |frames|
      ensures Sequence.Spent(CursorOf(cursors, frames[i].sensor), frames[i].boot, frames[i].sequence)
    {
      if frames[i].sensor == command.sensor && command.sequence.Some? {
        SpentStays(cursor, fact, frames[i].boot, frames[i].sequence);
      }
    }
    if command.payload.protocol == Sequence.BootEpochV2 {
      AcceptedFacts(cursor, fact);
      FrameIsSpent(cursor, fact);
    }
  }

  lemma AcceptedFacts(cursor: Sequence.Cursor, fact: Sequence.Fact)
    requires fact.protocol == Sequence.BootEpochV2 && Sequence.Evaluate(cursor, fact) == Sequence.Accept
    ensures fact.bootId.Some? && fact.sequence.Some?
  {
  }

  lemma HallAccepted(d: Domain, id: CommandId, row: Row)
    requires row.command.payload.Hall?
    ensures var verdict := ReduceHall(d, id, row);
            verdict.Commit? && verdict.domain != d ==>
              Sequence.Evaluate(CursorOf(d.cursors, row.command.sensor), FactOf(row.command)) == Sequence.Accept
  {
    hide HallArrival, HallDeparture, Sequence.Evaluate;
  }

  lemma FramesAfterApply(w: World, id: CommandId)
    requires id in w.tables.inbox && RowOk(id, w.tables.inbox[id]) && CursorsOk(w.tables.domain.cursors)
    requires FramesOk(w.tables.domain.cursors, w.history.frames)
    requires Reduce(w.tables.domain, id, w.tables.inbox[id]).Commit?
    ensures FramesOk(Reduce(w.tables.domain, id, w.tables.inbox[id]).domain.cursors, AppliedHistory(w, id).frames)
  {
    hide FramesOk, CursorsOk, HallFrame, ReduceHall, ReduceCamera, ReduceDeadline, Sequence.Evaluate, CommitSequence;
    var d, row := w.tables.domain, w.tables.inbox[id];
    if row.command.payload.Hall? {
      HallAccepted(d, id, row);
      HallFrames(d, id, row, w.history.frames);
    }
  }

  lemma HallFrames(d: Domain, id: CommandId, row: Row, frames: seq<Frame>)
    requires row.command.payload.Hall? && row.command.sensor != "" && CursorsOk(d.cursors)
    requires FramesOk(d.cursors, frames) && ReduceHall(d, id, row).Commit?
    ensures var after, c := ReduceHall(d, id, row).domain, row.command;
            FramesOk(after.cursors,
                     if c.payload.protocol == Sequence.BootEpochV2 && d != after &&
                        c.payload.bootId.Some? && c.sequence.Some?
                     then frames + [Frame(c.sensor, c.payload.bootId.value, c.sequence.value)] else frames)
  {
    hide FramesOk, CursorsOk, ReduceHall, Sequence.Evaluate, CommitSequence;
    HallAccepted(d, id, row);
    if ReduceHall(d, id, row).domain != d {
      FramesAfterCommit(d, row.command, frames);
    }
  }
}
