/**
  The durable cursor of a Hall sensor over a run. It counts the frames that were applied, except
  those that were refused because they were observed before the entry of the running session.
*/
module OccupancyCursors {
  import opened OccupancyTables
  import opened OccupancyReducer
  import opened OccupancyInbox
  import opened OccupancyWorld
  import opened OccupancySafety
  import opened OccupancyHybrid
  import opened OccupancyLocality
  import Sequence = SensorSequence

  // The frame of this sensor that the step applies without refusing its time.
  ghost function CountedBy(w: World, action: Action, sensor: SensorId): seq<Sequence.Fact> {
    if !StepApplies(w, action) || action.id !in w.tables.inbox then []
    else
      var command := w.tables.inbox[action.id].command;
      var verdict := Reduce(w.tables.domain, action.id, w.tables.inbox[action.id]);
      if command.payload.Hall? && command.sensor == sensor && verdict.Commit? &&
         verdict.outcome.code != RejectedInvalidTimestamp
      then [FactOf(command)] else []
  }

  ghost function Counted(start: World, actions: seq<Action>, sensor: SensorId): seq<Sequence.Fact> {
    if actions == [] then []
    else
      var n := |actions| - 1;
      Counted(start, actions[..n], sensor) + CountedBy(Run(start, actions[..n]), actions[n], sensor)
  }

  // ---------------------------------------------------------------- one Hall frame

  // A frame that is refused or comes before the entry changes nothing; any other one moves the cursor.
  predicate CountsFrame(d: Domain, command: Command, verdict: Verdict)
    requires command.payload.Hall?
  {
    verdict.Commit? ==>
      if HallAccepted(d, command) && verdict.outcome.code != RejectedInvalidTimestamp
      then verdict.domain.cursors == CommitSequence(d, command).cursors
      else verdict.domain == d
  }

  predicate HallAccepted(d: Domain, command: Command)
    requires command.payload.Hall?
  {
    Sequence.Evaluate(CursorOf(d.cursors, command.sensor), FactOf(command)) == Sequence.Accept
  }

  lemma ArrivalCounts(d: Domain, id: CommandId, row: Row)
    requires row.command.payload.Hall? && HallAccepted(d, row.command)
    ensures CountsFrame(d, row.command, HallArrival(d, id, row))
  {
    hide FindActive, HallFrame, EntryUsed, Sequence.DurableCommitted, HallAccepted;
  }

  lemma DepartureCounts(d: Domain, id: CommandId, row: Row)
    requires row.command.payload.Hall? && HallAccepted(d, row.command)
    ensures CountsFrame(d, row.command, HallDeparture(d, id, row))
  {
    hide FindActive, HallFrame, CloseSession, Sequence.DurableCommitted, HallAccepted;
  }

  lemma HallCounts(d: Domain, id: CommandId, row: Row)
    requires row.command.payload.Hall?
    ensures CountsFrame(d, row.command, ReduceHall(d, id, row))
  {
    hide HallFrame, HallArrival, HallDeparture, CountsFrame, CommitSequence;
    if HallAccepted(d, row.command) {
      ArrivalCounts(d, id, row);
      DepartureCounts(d, id, row);
    }
    RefusedCounts(d, row.command);
  }

  lemma RefusedCounts(d: Domain, command: Command)
    requires command.payload.Hall?
    ensures forall outcome :: !HallAccepted(d, command) ==> CountsFrame(d, command, Commit(d, outcome))
    ensures CountsFrame(d, command, RejectInvalid)
  {
    hide HallAccepted, CommitSequence;
  }

  // ---------------------------------------------------------------- every run

  lemma QuietCursors(w: World, action: Action)
    requires !StepApplies(w, action)
    ensures Exec(w, action).tables.domain.cursors == w.tables.domain.cursors
  {
    hide EffectReady, PurgeBatch, PendingIds, FindIdentity, FindCandidate, HallRefused, SourceFact;
    hide AfterCancel, TopOrdinal, NewRow, AdmitBatch, StampedBatch, Runnable;
    if action.AdmitDeadlines? && DueBatch(w.tables, action.now, action.capacity, action.blocked, action.batch) {
      BatchDeadlines(w.tables, action.batch, TopOrdinal(w.tables.inbox), action.now, "");
    }
  }

  lemma OthersKeepCursors(d: Domain, id: CommandId, row: Row)
    requires !row.command.payload.Hall? && Reduce(d, id, row).Commit?
    ensures Reduce(d, id, row).domain.cursors == d.cursors
  {
    hide ReduceCamera, ReduceDeadline;
  }

  lemma CommittedCursor(d: Domain, command: Command, sensor: SensorId)
    requires command.payload.Hall? && command.sensor != ""
    ensures CursorOf(CommitSequence(d, command).cursors, sensor) ==
            if command.sensor == sensor then Sequence.DurableCommitted(CursorOf(d.cursors, sensor), FactOf(command))
            else CursorOf(d.cursors, sensor)
  {
  }

  lemma StepCounts(w: World, action: Action, sensor: SensorId)
    requires Invariant(w)
    ensures var counted := CountedBy(w, action, sensor);
            var before, after := CursorOf(w.tables.domain.cursors, sensor), CursorOf(Exec(w, action).tables.domain.cursors, sensor);
            |counted| <= 1 &&
            after == if counted == [] || Sequence.Evaluate(before, counted[0]) != Sequence.Accept then before
                     else Sequence.DurableCommitted(before, counted[0])
  {
    hide Invariant, Exec, Runnable, Reduce, CommitSequence, Sequence.Evaluate, Sequence.DurableCommitted, CursorOf;
    if StepApplies(w, action) {
      RunnableIsPending(w.tables.inbox, action.now, action.id);
      RowFacts(w, action.id);
      AppliedDomain(w, action);
      if Reduce(w.tables.domain, action.id, w.tables.inbox[action.id]).Commit? {
        AppliedCounts(w.tables.domain, action.id, w.tables.inbox[action.id], sensor);
      }
    } else {
      QuietCursors(w, action);
    }
  }

  lemma AppliedCounts(d: Domain, id: CommandId, row: Row, sensor: SensorId)
    requires RowOk(id, row) && Reduce(d, id, row).Commit?
    ensures var verdict, before := Reduce(d, id, row), CursorOf(d.cursors, sensor);
            CursorOf(verdict.domain.cursors, sensor) ==
            if row.command.payload.Hall? && row.command.sensor == sensor &&
               verdict.outcome.code != RejectedInvalidTimestamp &&
               Sequence.Evaluate(before, FactOf(row.command)) == Sequence.Accept
            then Sequence.DurableCommitted(before, FactOf(row.command)) else before
  {
    hide ReduceHall, ReduceCamera, ReduceDeadline, CommitSequence, Sequence.Evaluate, Sequence.DurableCommitted, CursorOf;
    if row.command.payload.Hall? {
      HallCounts(d, id, row);
      CommittedCursor(d, row.command, sensor);
    } else {
      OthersKeepCursors(d, id, row);
    }
  }

  lemma DurablyOne(cursor: Sequence.Cursor, facts: seq<Sequence.Fact>, more: seq<Sequence.Fact>)
    requires |more| <= 1
    ensures var before := Sequence.ObserveDurably(cursor, facts);
            Sequence.ObserveDurably(cursor, facts + more) ==
            if more == [] || Sequence.Evaluate(before, more[0]) != Sequence.Accept then before
            else Sequence.DurableCommitted(before, more[0])
  {
    hide Sequence.Evaluate, Sequence.DurableCommitted;
    if more == [] { assert facts + more == facts; } else { assert (facts + more)[..|facts + more| - 1] == facts; }
  }

  /**
    In every run the durable cursor of a sensor is the one that its counted frames give, so it decides
    the next frame as a guard in memory does that has seen exactly those frames.
  */
  lemma {:induction false} CursorFollowsCountedFrames(start: World, actions: seq<Action>, sensor: SensorId,
                                                      next: Sequence.Fact)
    requires Fresh(start)
    ensures var cursor := CursorOf(Run(start, actions).tables.domain.cursors, sensor);
            cursor == Sequence.ObserveDurably(Sequence.FRESH, Counted(start, actions, sensor)) &&
            Sequence.Evaluate(cursor, next) ==
            Sequence.Evaluate(Sequence.ObserveAll(Sequence.FRESH, Counted(start, actions, sensor)), next)
  {
    hide Exec, Invariant, CountedBy, Sequence.Evaluate, Sequence.DurableCommitted;
    if actions != [] {
      var n := |actions| - 1;
      var w := Run(start, actions[..n]);
      CursorFollowsCountedFrames(start, actions[..n], sensor, next);
      ReachableIsSafe(start, actions[..n]);
      StepCounts(w, actions[n], sensor);
      DurablyOne(Sequence.FRESH, Counted(start, actions[..n], sensor), CountedBy(w, actions[n], sensor));
    }
    Sequence.DurableCursorAgrees(Counted(start, actions, sensor), next);
  }

  /**
    A VACANT that was observed before the entry of the running session is not counted: the durable
    cursor accepts the same counter again, which a guard in memory refuses that has seen the frame.
  */
  lemma {:induction false} EarlyVacantIsNotCounted(d: Domain, id: CommandId, row: Row)
    requires row.command.payload.Hall? && row.command.payload.state == HallVacant
    requires HallAccepted(d, row.command) && row.command.sequence.Some?
    requires var active := FindActive(d.sessions, row.command.slot);
             active.Some? && OccurredAt(row.command) < d.sessions[active.value].entryAt
    ensures var verdict := Reduce(d, id, row); var cursor := CursorOf(d.cursors, row.command.sensor);
            verdict.Commit? && verdict.outcome.code == RejectedInvalidTimestamp && verdict.domain == d &&
            HallAccepted(verdict.domain, row.command) &&
            Sequence.Evaluate(Sequence.Committed(cursor, FactOf(row.command)), FactOf(row.command)) != Sequence.Accept
  {
    hide FindActive, HallArrival;
  }
}
