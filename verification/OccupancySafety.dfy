/**
  The invariant holds in every reachable world: it holds in a fresh database and every
  step keeps it, in whatever order the steps come.
*/
module OccupancySafety {
  import opened OccupancyTables
  import opened OccupancyReducer
  import opened OccupancyDomain
  import opened OccupancyStep
  import opened OccupancyInbox
  import opened OccupancyWorld
  import opened OccupancyInvariant
  import Sequence = SensorSequence

  // ---------------------------------------------------------------- apply

  // Finishing a row whose result has no effect leaves the history alone.
  lemma QuietFinish(w: World, id: CommandId, now: int, domain: Domain, outcome: Outcome)
    requires Invariant(w) && Runnable(w.tables.inbox, now, id) && !HasEffect(outcome.code)
    requires DomainOk(domain) && Moves(w.tables.domain, domain, w.tables.inbox[id].command.slot, outcome)
    ensures var inbox := w.tables.inbox[id := Finished(w.tables.inbox[id], outcome)];
            HistoryOk(inbox, w.history) && RunningOk(domain.sessions, w.history)
  {
    hide DomainOk, InboxOk, OrderOk, LinkOk, HistoryOk, RunningOk, FramesOk, FindActive, ActiveMoves;
    SettleHistory(w.tables.inbox, id, Finished(w.tables.inbox[id], outcome), w.history);
    RunningSame(w.tables.domain.sessions, domain.sessions, w.history, w.tables.inbox[id].command.slot);
  }

  lemma LoudFinish(w: World, id: CommandId, now: int, domain: Domain, outcome: Outcome)
    requires Invariant(w) && Runnable(w.tables.inbox, now, id) && HasEffect(outcome.code)
    requires DomainOk(domain) && Moves(w.tables.domain, domain, w.tables.inbox[id].command.slot, outcome)
    ensures var slot := w.tables.inbox[id].command.slot;
            var inbox := w.tables.inbox[id := Finished(w.tables.inbox[id], outcome)];
            HistoryOk(inbox, WithEffect(w.history, id, slot, outcome)) &&
            RunningOk(domain.sessions, WithEffect(w.history, id, slot, outcome))
  {
    var slot := w.tables.inbox[id].command.slot;
    assert Continues(w.history, slot, outcome) by {
      hide DomainOk, InboxOk, OrderOk, LinkOk, HistoryOk, FramesOk, ActiveMoves;
      assert FindActive(w.tables.domain.sessions, slot) == Running(EffectsOf(w.history, slot));
    }
    hide DomainOk, InboxOk, OrderOk, LinkOk, HistoryOk, RunningOk, FramesOk, FindActive, ActiveMoves;
    RunnableIsEarliest(w.tables.inbox, w.history, now, id);
    EffectHistory(w.tables.inbox, id, w.history, outcome);
    RunningAfter(w.tables.domain.sessions, domain.sessions, w.tables.inbox, id, w.history, outcome);
  }

  lemma FrameHistory(inbox: Inbox, sessions: Sessions, h: History, frames: seq<Frame>)
    ensures HistoryOk(inbox, h) ==> HistoryOk(inbox, h.(frames := frames))
    ensures OrderOk(inbox, h) ==> OrderOk(inbox, h.(frames := frames))
    ensures RunningOk(sessions, h) ==> RunningOk(sessions, h.(frames := frames))
  {
    hide FindActive;
    if HistoryOk(inbox, h) {
      var h' := h.(frames := frames);
      assert forall slot :: EffectsOf(h', slot) == EffectsOf(h, slot) && CompletedOf(h', slot) == CompletedOf(h, slot);
      forall slot ensures SlotHistoryOk(inbox, h', slot) {
        assert SlotHistoryOk(inbox, h, slot);
        forall i | CompletedOf(h, slot) <= i < |EffectsOf(h, slot)| ensures EffectRowOk(inbox, h', slot, i) {
          assert EffectRowOk(inbox, h, slot, i);
        }
      }
      forall c | c in inbox ensures RowHistoryOk(inbox, h', c) { assert RowHistoryOk(inbox, h, c); }
    }
    if RunningOk(sessions, h) {
      forall slot ensures FindActive(sessions, slot) == Running(EffectsOf(h.(frames := frames), slot)) {
        assert EffectsOf(h.(frames := frames), slot) == EffectsOf(h, slot);
      }
    }
  }

  lemma EffectOrder(inbox: Inbox, h: History, id: CommandId, slot: SlotId, outcome: Outcome)
    requires OrderOk(inbox, h)
    ensures OrderOk(inbox, WithEffect(h, id, slot, outcome))
  {
  }

  lemma CommitKeeps(w: World, id: CommandId, now: int)
    requires Invariant(w) && Runnable(w.tables.inbox, now, id)
    requires Reduce(w.tables.domain, id, w.tables.inbox[id]).Commit?
    ensures Invariant(World(Apply(w.tables, id), AppliedHistory(w, id)))
  {
    hide DomainOk, InboxOk, OrderOk, LinkOk, HistoryOk, RunningOk, FramesOk, Reduce, Moves, WithEffect;
    var d, inbox, h, row := w.tables.domain, w.tables.inbox, w.history, w.tables.inbox[id];
    var verdict := Reduce(d, id, row);
    var outcome, slot := verdict.outcome, row.command.slot;
    RowFacts(w, id);
    ReduceKeeps(d, id, row);
    ReduceAdmitted(d, id, row);
    SettleInbox(inbox, id, Finished(row, outcome), h);
    SettleLink(inbox, id, Finished(row, outcome), d, verdict.domain);
    EffectOrder(inbox[id := Finished(row, outcome)], h, id, slot, outcome);
    if HasEffect(outcome.code) {
      LoudFinish(w, id, now, verdict.domain, outcome);
    } else {
      QuietFinish(w, id, now, verdict.domain, outcome);
      assert WithEffect(h, id, slot, outcome) == h by { QuietEffect(h, id, slot, outcome); }
    }
    FramesAfterApply(w, id);
    FrameHistory(inbox[id := Finished(row, outcome)], verdict.domain.sessions, WithEffect(h, id, slot, outcome),
                 AppliedHistory(w, id).frames);
  }

  lemma QuietEffect(h: History, id: CommandId, slot: SlotId, outcome: Outcome)
    requires !HasEffect(outcome.code)
    ensures WithEffect(h, id, slot, outcome) == h
  {
  }

  lemma RowFacts(w: World, id: CommandId)
    requires Invariant(w) && id in w.tables.inbox
    ensures RowOk(id, w.tables.inbox[id]) && CursorsOk(w.tables.domain.cursors)
    ensures w.tables.inbox[id].command.payload.Deadline? && w.tables.inbox[id].status == Pending ==>
      DeadlineOwnsSlot(w.tables.domain, w.tables.inbox[id])
  {
    hide OrderOk, HistoryOk, RunningOk, FramesOk, SessionsOk, SlotsOk, ObservationsOk, DeadlinesOk, BindingsOk;
  }

  lemma SafeDomain(w: World)
    requires Invariant(w)
    ensures DomainOk(w.tables.domain)
  {
  }

  lemma RejectKeeps(w: World, id: CommandId, now: int)
    requires Invariant(w) && Runnable(w.tables.inbox, now, id)
    requires Reduce(w.tables.domain, id, w.tables.inbox[id]).RejectInvalid?
    ensures Invariant(World(Apply(w.tables, id), AppliedHistory(w, id)))
  {
    hide DomainOk, InboxOk, OrderOk, LinkOk, HistoryOk, RunningOk, FramesOk, Reduce;
    var inbox, row := w.tables.inbox, w.tables.inbox[id];
    RowFacts(w, id);
    DeadlineIsNotRejected(w.tables.domain, id, row);
    SettleInbox(inbox, id, Rejected(row), w.history);
    AdmittedSame(w.tables.domain.deadlines, row.command.payload.hybrid);
    SettleLink(inbox, id, Rejected(row), w.tables.domain, w.tables.domain);
    SettleHistory(inbox, id, Rejected(row), w.history);
  }

  lemma DeadlineIsNotRejected(d: Domain, id: CommandId, row: Row)
    ensures row.command.payload.Deadline? ==> !Reduce(d, id, row).RejectInvalid?
  {
    hide ReduceDeadline;
  }

  lemma ApplyKeeps(w: World, id: CommandId, now: int)
    requires Invariant(w)
    ensures Runnable(w.tables.inbox, now, id) ==> Invariant(World(Apply(w.tables, id), AppliedHistory(w, id)))
  {
    hide Invariant, Reduce, Runnable;
    if Runnable(w.tables.inbox, now, id) {
      RunnableIsPending(w.tables.inbox, now, id);
      match Reduce(w.tables.domain, id, w.tables.inbox[id])
      case Commit(_, _) => CommitKeeps(w, id, now);
      case RejectInvalid => RejectKeeps(w, id, now);
      case Retry =>
    }
  }

  lemma RunnableIsPending(inbox: Inbox, now: int, id: CommandId)
    requires Runnable(inbox, now, id)
    ensures id in inbox && inbox[id].status == Pending
  {
  }

  // ---------------------------------------------------------------- submit

  lemma CancelKeeps(w: World, c: CommandId)
    requires Invariant(w) && c in w.tables.inbox && w.tables.inbox[c].status == Pending
    requires !w.tables.inbox[c].command.payload.Deadline?
    ensures Invariant(w.(tables := w.tables.(inbox := w.tables.inbox[c := Canceled(w.tables.inbox[c])])))
  {
    hide DomainOk, OrderOk, LinkOk, HistoryOk, RunningOk, FramesOk;
    var inbox, row := w.tables.inbox, w.tables.inbox[c];
    RowFacts(w, c);
    hide InboxOk;
    SettleInbox(inbox, c, Canceled(row), w.history);
    AdmittedSame(w.tables.domain.deadlines, row.command.payload.hybrid);
    SettleLink(inbox, c, Canceled(row), w.tables.domain, w.tables.domain);
    SettleHistory(inbox, c, Canceled(row), w.history);
  }

  lemma InsertKeeps(w: World, name: string, command: Command, now: int)
    requires Invariant(w) && !command.payload.Deadline? && External(name) !in w.tables.inbox
    requires command.payload.Hall? ==> command.sensor != ""
    requires forall e :: e in w.tables.inbox ==> !SameIdentity(w.tables.inbox[e].command, command)
    requires command.payload.Hall? && command.payload.state == HallOccupied ==>
      FindCandidate(w.tables.inbox, command.slot).None?
    ensures var row := NewRow(command, TopOrdinal(w.tables.inbox) + 1, now);
            Invariant(World(w.tables.(inbox := w.tables.inbox[External(name) := row]), Stamped(w.history, External(name))))
  {
    hide DomainOk, InboxOk, OrderOk, LinkOk, HistoryOk, RunningOk, FramesOk, FindCandidate, TopOrdinal;
    hide Fresher, IsCandidate, SameIdentity;
    var inbox, id := w.tables.inbox, External(name);
    var row := NewRow(command, TopOrdinal(inbox) + 1, now);
    NewRowFacts(inbox, command, now);
    InsertInbox(inbox, id, row);
    InsertOrder(inbox, id, row, w.history);
    InsertHistory(inbox, id, row, w.history);
    InsertLink(inbox, id, row, w.tables.domain);
    StampedRunning(w.tables.domain.sessions, w.history, id);
  }

  lemma NewRowFacts(inbox: Inbox, command: Command, now: int)
    requires command.payload.Hall? && command.payload.state == HallOccupied ==> FindCandidate(inbox, command.slot).None?
    ensures var row := NewRow(command, TopOrdinal(inbox) + 1, now);
            Fresher(inbox, row) &&
            forall slot, e :: e in inbox && IsCandidate(row, slot) ==> !IsCandidate(inbox[e], slot)
  {
  }

  lemma InsertLink(inbox: Inbox, id: CommandId, row: Row, d: Domain)
    requires LinkOk(inbox, d) && id !in inbox && !row.command.payload.Deadline? && id.External?
    ensures LinkOk(inbox[id := row], d)
  {
  }

  lemma StampedRunning(sessions: Sessions, h: History, id: CommandId)
    requires RunningOk(sessions, h)
    ensures RunningOk(sessions, Stamped(h, id))
  {
    hide FindActive;
    forall slot ensures FindActive(sessions, slot) == Running(EffectsOf(Stamped(h, id), slot)) {
      assert EffectsOf(Stamped(h, id), slot) == EffectsOf(h, slot);
    }
  }

  lemma SubmitKeeps(w: World, name: string, command: Command, capacity: nat, now: int)
    requires Invariant(w) && !command.payload.Deadline?
    ensures var admission := Admit(w.tables, name, command, capacity, now);
            Invariant(World(admission.tables,
                            if admission.code == NewlyAdmitted then Stamped(w.history, External(name)) else w.history))
  {
    hide Invariant, Stamped, NewRow, TopOrdinal, FindCandidate, FindIdentity, HallRefused, Sequence.Evaluate, PendingIds;
    hide SourceFact, AfterCancel;
    if Admit(w.tables, name, command, capacity, now).code == NewlyAdmitted {
      AdmittedKeeps(w, name, command, now);
    }
  }

  lemma AdmittedKeeps(w: World, name: string, command: Command, now: int)
    requires Invariant(w) && !command.payload.Deadline? && External(name) !in AfterCancel(w.tables.inbox, command)
    requires command.payload.Hall? ==> command.sensor != ""
    requires FindIdentity(w.tables.inbox, command).None?
    requires command.payload.Hall? && command.payload.state == HallOccupied ==>
      FindCandidate(w.tables.inbox, command.slot).None?
    ensures var inbox := AfterCancel(w.tables.inbox, command);
            Invariant(World(w.tables.(inbox := inbox[External(name) := NewRow(command, TopOrdinal(inbox) + 1, now)]),
                            Stamped(w.history, External(name))))
  {
    hide Invariant, Stamped, NewRow, TopOrdinal, Canceled;
    var inbox := AfterCancel(w.tables.inbox, command);
    var canceled := w.(tables := w.tables.(inbox := inbox));
    if inbox != w.tables.inbox {
      CancelKeeps(w, FindCandidate(w.tables.inbox, command.slot).value);
    }
    assert Invariant(canceled);
    forall e | e in inbox ensures !SameIdentity(inbox[e].command, command) {
      assert inbox[e].command == w.tables.inbox[e].command by { CancelCommands(w.tables.inbox, command, e); }
    }
    InsertKeeps(canceled, name, command, now);
  }

  lemma CancelCommands(inbox: Inbox, command: Command, e: CommandId)
    requires e in AfterCancel(inbox, command)
    ensures e in inbox && AfterCancel(inbox, command)[e].command == inbox[e].command
  {
  }

  // ---------------------------------------------------------------- due deadlines

  predicate Waiting(t: Tables, batch: seq<DeadlineId>, ordinal: nat) {
    (forall i :: 0 <= i < |batch| ==>
       batch[i] in t.domain.deadlines && t.domain.deadlines[batch[i]].state == Scheduled) &&
    (forall i, j :: 0 <= i < j < |batch| ==> batch[i] != batch[j]) &&
    (forall c :: c in t.inbox ==> t.inbox[c].ordinal <= ordinal)
  }

  lemma AdmitOneKeeps(w: World, x: DeadlineId, ordinal: nat, now: int)
    requires Invariant(w) && x in w.tables.domain.deadlines && w.tables.domain.deadlines[x].state == Scheduled
    requires forall c :: c in w.tables.inbox ==> w.tables.inbox[c].ordinal < ordinal
    ensures Invariant(World(AdmitDeadline(w.tables, x, ordinal, now), Stamped(w.history, ForDeadline(x))))
  {
    var inbox, d, id := w.tables.inbox, w.tables.domain, ForDeadline(x);
    var row := NewRow(DeadlineCommand(x, d.deadlines[x]), ordinal, now);
    hide DomainOk, InboxOk, OrderOk, LinkOk, HistoryOk, RunningOk, FramesOk;
    hide Fresher, IsCandidate, SameIdentity, AdmittedKept;
    ScheduledIsNew(w, x);
    DeadlineRowFacts(inbox, x, d.deadlines[x], ordinal, now);
    AdmitKeepsDomain(d, x);
    InsertInbox(inbox, id, row);
    InsertOrder(inbox, id, row, w.history);
    InsertHistory(inbox, id, row, w.history);
    AdmittedLink(inbox, d, x, row);
    StampedRunning(d.sessions, w.history, id);
  }

  lemma AdmitKeepsDomain(d: Domain, x: DeadlineId)
    requires DomainOk(d) && x in d.deadlines && d.deadlines[x].state == Scheduled
    ensures DomainOk(SettleDeadline(d, x, Admitted))
  {
    hide DomainOk;
    SettleKeeps(d, SettleDeadline(d, x, Admitted).deadlines);
  }

  lemma DeadlineRowFacts(inbox: Inbox, x: DeadlineId, deadline: ExitDeadline, ordinal: nat, now: int)
    requires forall c :: c in inbox ==> inbox[c].ordinal < ordinal
    ensures var row := NewRow(DeadlineCommand(x, deadline), ordinal, now);
            Fresher(inbox, row) && RowOk(ForDeadline(x), row) &&
            (forall e :: e in inbox ==> !SameIdentity(inbox[e].command, row.command)) &&
            forall slot :: !IsCandidate(row, slot)
  {
  }

  lemma ScheduledIsNew(w: World, x: DeadlineId)
    requires Invariant(w) && x in w.tables.domain.deadlines && w.tables.domain.deadlines[x].state == Scheduled
    ensures ForDeadline(x) !in w.tables.inbox
  {
    hide DomainOk, OrderOk, HistoryOk, RunningOk, FramesOk;
  }

  lemma AdmittedLink(inbox: Inbox, d: Domain, x: DeadlineId, row: Row)
    requires LinkOk(inbox, d) && ForDeadline(x) !in inbox && x in d.deadlines && d.deadlines[x].state == Scheduled
    requires row.command == DeadlineCommand(x, d.deadlines[x]) && row.status == Pending
    ensures LinkOk(inbox[ForDeadline(x) := row], SettleDeadline(d, x, Admitted))
  {
  }

  lemma {:induction false} BatchKeeps(w: World, batch: seq<DeadlineId>, ordinal: nat, now: int)
    requires Invariant(w) && Waiting(w.tables, batch, ordinal)
    ensures Invariant(World(AdmitBatch(w.tables, batch, ordinal, now), StampedBatch(w.history, batch)))
    decreases batch
  {
    hide Invariant;
    if batch != [] {
      var next := World(AdmitDeadline(w.tables, batch[0], ordinal + 1, now),
                        Stamped(w.history, ForDeadline(batch[0])));
      AdmitOneKeeps(w, batch[0], ordinal + 1, now);
      WaitingOn(w.tables, batch, ordinal, now);
      BatchKeeps(next, batch[1..], ordinal + 1, now);
    }
  }

  lemma WaitingOn(t: Tables, batch: seq<DeadlineId>, ordinal: nat, now: int)
    requires Waiting(t, batch, ordinal) && batch != []
    ensures Waiting(AdmitDeadline(t, batch[0], ordinal + 1, now), batch[1..], ordinal + 1)
  {
  }

  lemma AdmitDeadlinesKeeps(w: World, batch: seq<DeadlineId>, capacity: nat, blocked: set<SlotId>, now: int)
    requires Invariant(w) && DueBatch(w.tables, now, capacity, blocked, batch)
    ensures Invariant(World(AdmitDue(w.tables, batch, now), StampedBatch(w.history, batch)))
  {
    hide Invariant;
    assert Waiting(w.tables, batch, TopOrdinal(w.tables.inbox));
    BatchKeeps(w, batch, TopOrdinal(w.tables.inbox), now);
  }

  // ---------------------------------------------------------------- effects

  // The effect that may be completed is the first one of its slot that is not completed yet.
  lemma ReadyIsNext(inbox: Inbox, h: History, now: int, id: CommandId)
    requires OrderOk(inbox, h) && HistoryOk(inbox, h) && EffectReady(inbox, now, id)
    ensures var slot := inbox[id].command.slot;
            CompletedOf(h, slot) < |EffectsOf(h, slot)| &&
            EffectsOf(h, slot)[CompletedOf(h, slot)].command == id &&
            id in h.position && h.position[id] == CompletedOf(h, slot)
  {
    var slot := inbox[id].command.slot;
    assert RowHistoryOk(inbox, h, id) && SlotHistoryOk(inbox, h, slot);
    assert EffectRowOk(inbox, h, slot, h.position[id]);
    assert EffectRowOk(inbox, h, slot, CompletedOf(h, slot));
  }

  lemma CompleteHistory(inbox: Inbox, h: History, now: int, id: CommandId, row: Row)
    requires OrderOk(inbox, h) && HistoryOk(inbox, h) && EffectReady(inbox, now, id)
    requires row.command == inbox[id].command && row.status == Applied && row.effect == EffectApplied
    ensures var slot := inbox[id].command.slot;
            HistoryOk(inbox[id := row], h.(completed := h.completed[slot := CompletedOf(h, slot) + 1]))
  {
    hide OrderOk, SlotHistoryOk, RowHistoryOk;
    var slot := inbox[id].command.slot;
    var after, h' := inbox[id := row], h.(completed := h.completed[slot := CompletedOf(h, slot) + 1]);
    ReadyIsNext(inbox, h, now, id);
    forall other ensures SlotHistoryOk(after, h', other) {
      CompleteSlot(inbox, h, id, row, other);
    }
    forall c | c in after ensures RowHistoryOk(after, h', c) {
      CompleteRow(inbox, h, id, row, c);
    }
  }

  lemma CompleteRow(inbox: Inbox, h: History, id: CommandId, row: Row, c: CommandId)
    requires HistoryOk(inbox, h) && id in inbox && row.command == inbox[id].command && c in inbox
    requires row.status == Applied && row.effect == EffectApplied
    requires var slot := inbox[id].command.slot;
             CompletedOf(h, slot) < |EffectsOf(h, slot)| && EffectsOf(h, slot)[CompletedOf(h, slot)].command == id
    ensures var slot := inbox[id].command.slot;
            RowHistoryOk(inbox[id := row], h.(completed := h.completed[slot := CompletedOf(h, slot) + 1]), c)
  {
    var slot := inbox[id].command.slot;
    var h' := h.(completed := h.completed[slot := CompletedOf(h, slot) + 1]);
    assert RowHistoryOk(inbox, h, c);
    assert EffectsOf(h', inbox[c].command.slot) == EffectsOf(h, inbox[c].command.slot);
  }

  lemma CompleteSlot(inbox: Inbox, h: History, id: CommandId, row: Row, other: SlotId)
    requires HistoryOk(inbox, h) && id in inbox && row.command == inbox[id].command
    requires var slot := inbox[id].command.slot;
             CompletedOf(h, slot) < |EffectsOf(h, slot)| && id in h.position && h.position[id] == CompletedOf(h, slot)
    ensures var slot := inbox[id].command.slot;
            SlotHistoryOk(inbox[id := row], h.(completed := h.completed[slot := CompletedOf(h, slot) + 1]), other)
  {
    var slot := inbox[id].command.slot;
    var after, h' := inbox[id := row], h.(completed := h.completed[slot := CompletedOf(h, slot) + 1]);
    assert SlotHistoryOk(inbox, h, other) && EffectsOf(h', other) == EffectsOf(h, other);
    forall i | CompletedOf(h', other) <= i < |EffectsOf(h', other)| ensures EffectRowOk(after, h', other, i) {
      assert EffectRowOk(inbox, h, other, i);
    }
  }

  lemma CompleteKeeps(w: World, id: CommandId, now: int)
    requires Invariant(w) && EffectReady(w.tables.inbox, now, id)
    ensures var slot := w.tables.inbox[id].command.slot;
            Invariant(World(CompleteEffect(w.tables, id),
                            w.history.(completed := w.history.completed[slot := CompletedOf(w.history, slot) + 1])))
  {
    hide DomainOk, InboxOk, OrderOk, LinkOk, HistoryOk, RunningOk, FramesOk;
    var inbox, slot := w.tables.inbox, w.tables.inbox[id].command.slot;
    var row := inbox[id].(effect := EffectApplied, effectAt := 0);
    var h' := w.history.(completed := w.history.completed[slot := CompletedOf(w.history, slot) + 1]);
    CompleteHistory(inbox, w.history, now, id, row);
    CompleteInbox(inbox, id, row, w.history);
    CompleteLink(inbox, id, row, w.tables.domain);
    CompletedOrder(inbox[id := row], w.history, h');
    CompletedRunning(w.tables.domain.sessions, w.history, h');
  }

  lemma CompletedOrder(inbox: Inbox, h: History, h': History)
    requires OrderOk(inbox, h) && h' == h.(completed := h'.completed)
    ensures OrderOk(inbox, h')
  {
  }

  lemma CompletedRunning(sessions: Sessions, h: History, h': History)
    requires RunningOk(sessions, h) && h' == h.(completed := h'.completed)
    ensures RunningOk(sessions, h')
  {
    hide FindActive;
    forall slot ensures FindActive(sessions, slot) == Running(EffectsOf(h', slot)) {
      assert EffectsOf(h', slot) == EffectsOf(h, slot);
    }
  }

  lemma CompleteInbox(inbox: Inbox, id: CommandId, row: Row, h: History)
    requires id in inbox && row.command == inbox[id].command && row.ordinal == inbox[id].ordinal
    requires inbox[id].status == Applied == row.status && InboxOk(inbox) && OrderOk(inbox, h)
    ensures InboxOk(inbox[id := row]) && OrderOk(inbox[id := row], h)
  {
    RowsShrink(inbox);
    hide InboxOk, OrderOk;
    ShrunkInbox(inbox, inbox[id := row], h);
  }

  lemma CompleteLink(inbox: Inbox, id: CommandId, row: Row, d: Domain)
    requires id in inbox && row.command == inbox[id].command && inbox[id].status == Applied == row.status
    requires LinkOk(inbox, d)
    ensures LinkOk(inbox[id := row], d)
  {
  }

  // ---------------------------------------------------------------- retries, purge, overstay

  lemma InertKeeps(w: World, id: CommandId, row: Row)
    requires Invariant(w) && id in w.tables.inbox && SameRow(w.tables.inbox[id], row)
    ensures Invariant(w.(tables := w.tables.(inbox := w.tables.inbox[id := row])))
  {
    hide DomainOk, InboxOk, OrderOk, LinkOk, HistoryOk, RunningOk, FramesOk;
    var inbox := w.tables.inbox;
    OrderStamps(inbox, w.history);
    RowsShrink(inbox);
    ShrunkInbox(inbox, inbox[id := row], w.history);
    InertLink(inbox, id, row, w.tables.domain);
    HistoryCarries(inbox, inbox[id := row], w.history, w.history);
  }

  lemma OrderStamps(inbox: Inbox, h: History)
    requires OrderOk(inbox, h)
    ensures forall c :: c in inbox ==> c in h.stamps
  {
  }

  lemma PurgeKeeps(w: World, doomed: set<CommandId>, cutoff: int, limit: nat)
    requires Invariant(w) && PurgeBatch(w.tables.inbox, cutoff, limit, doomed)
    ensures Invariant(w.(tables := Purge(w.tables, doomed)))
  {
    hide DomainOk, InboxOk, OrderOk, LinkOk, HistoryOk, RunningOk, FramesOk;
    assert Gone(w.tables.inbox, doomed);
    PurgeInbox(w.tables.inbox, doomed, w.tables.domain, w.history);
    PurgeHistory(w.tables.inbox, doomed, w.history);
  }

  lemma OverstayKeeps(w: World, s: SessionId)
    requires Invariant(w)
    ensures Invariant(w.(tables := MarkViolation(w.tables, s)))
  {
    var d := w.tables.domain;
    if s in d.sessions && d.sessions[s].status == ActiveStatus && d.sessions[s].exitAt.None? {
      hide DomainOk, InboxOk, OrderOk, LinkOk, HistoryOk, RunningOk, FramesOk, FindActive, ActiveMoves;
      var row := d.sessions[s].(status := ViolationStatus);
      SessionFacts(d, s);
      UpdateKeeps(d, s, row);
      RunningSame(d.sessions, d.sessions[s := row], w.history, row.slot);
      OverstayLink(w.tables.inbox, d, d.(sessions := d.sessions[s := row]));
    }
  }

  lemma SessionFacts(d: Domain, s: SessionId)
    requires DomainOk(d) && s in d.sessions
    ensures SessionOk(d.sessions[s])
  {
    hide SlotsOk, ObservationsOk, DeadlinesOk, BindingsOk, CursorsOk, FindActive;
  }

  lemma OverstayLink(inbox: Inbox, d: Domain, d': Domain)
    requires LinkOk(inbox, d) && d'.deadlines == d.deadlines
    ensures LinkOk(inbox, d')
  {
  }

  // ---------------------------------------------------------------- every step, every run

  lemma {:induction false} ExecKeeps(w: World, action: Action)
    requires Invariant(w)
    ensures Invariant(Exec(w, action))
  {
    hide Invariant, Runnable, DueBatch, EffectReady, PurgeBatch, Apply, AppliedHistory, Admit, AdmitDue, StampedBatch;
    hide CompleteEffect, Purge, MarkViolation, Stamped;
    match action
    case Submit(name, command, capacity, now) =>
      if !command.payload.Deadline? { SubmitKeeps(w, name, command, capacity, now); }
    case AdmitDeadlines(batch, capacity, blocked, now) =>
      if DueBatch(w.tables, now, capacity, blocked, batch) { AdmitDeadlinesKeeps(w, batch, capacity, blocked, now); }
    case ApplyCommand(id, now) => ApplyKeeps(w, id, now);
    case DeferCommand(id, next) =>
      if id in w.tables.inbox && w.tables.inbox[id].status == Pending {
        InertKeeps(w, id, w.tables.inbox[id].(tries := w.tables.inbox[id].tries + 1, nextTryAt := next));
      }
    case CompleteEffects(id, now) =>
      if EffectReady(w.tables.inbox, now, id) { CompleteKeeps(w, id, now); }
    case DeferEffects(id, next) =>
      if id in w.tables.inbox && AwaitsEffect(w.tables.inbox[id]) {
        InertKeeps(w, id, w.tables.inbox[id].(effectTries := w.tables.inbox[id].effectTries + 1, effectAt := next));
      }
    case PurgeSettled(doomed, cutoff, limit) =>
      if PurgeBatch(w.tables.inbox, cutoff, limit, doomed) { PurgeKeeps(w, doomed, cutoff, limit); }
    case OverstayTimer(s) => OverstayKeeps(w, s);
  }

  lemma {:induction false} RunKeeps(w: World, actions: seq<Action>)
    requires Invariant(w)
    ensures Invariant(Run(w, actions))
  {
    hide Invariant, Exec;
    if actions != [] {
      RunKeeps(w, actions[..|actions| - 1]);
      ExecKeeps(Run(w, actions[..|actions| - 1]), actions[|actions| - 1]);
    }
  }

  lemma FreshIsSafe(w: World)
    requires Fresh(w)
    ensures Invariant(w)
  {
  }

  /** Every world that a fresh database can reach, by any interleaving of steps, satisfies the invariant. */
  lemma {:induction false} ReachableIsSafe(start: World, actions: seq<Action>)
    requires Fresh(start)
    ensures Invariant(Run(start, actions))
  {
    FreshIsSafe(start);
    RunKeeps(start, actions);
  }
}
