/**
  Nothing happens before its time. A session starts or ends only through a command that has fallen
  due, and carries the time at which that command was observed; an exit deadline falls due when the
  EXIT that scheduled it said.
*/
module OccupancyTiming {
  import opened Options
  import opened OccupancyTables
  import opened OccupancyReducer
  import opened OccupancyDomain
  import opened OccupancyInbox
  import opened OccupancyWorld
  import opened OccupancyInvariant
  import opened OccupancySafety
  import opened OccupancySessions
  import opened OccupancyHybrid
  import opened OccupancyRuns
  import opened OccupancyLocality
  import Sequence = SensorSequence

  // The step applies a pending command of the inbox at or after its due time and its next try.
  predicate AppliesDue(w: World, action: Action, id: CommandId) {
    action.ApplyCommand? && action.id == id && id in w.tables.inbox && w.tables.inbox[id].status == Pending &&
    w.tables.inbox[id].command.dueAt <= action.now && w.tables.inbox[id].nextTryAt <= action.now &&
    forall e :: e in w.tables.inbox && w.tables.inbox[e].status == Pending
                && w.tables.inbox[e].command.slot == w.tables.inbox[id].command.slot ==>
      w.tables.inbox[id].ordinal <= w.tables.inbox[e].ordinal
  }

  lemma RunnableIsDue(w: World, action: Action)
    requires StepApplies(w, action)
    ensures AppliesDue(w, action, action.id)
  {
  }

  // ---------------------------------------------------------------- sessions

  // The start of session s: its entry command is applied on time, and its observation is the entry.
  predicate StartsAt(w: World, action: Action, s: SessionId, session: Session) {
    s !in w.tables.domain.sessions && AppliesDue(w, action, session.entryCommand) &&
    session.slot == w.tables.inbox[session.entryCommand].command.slot &&
    session.entryAt == TimeOf(w.tables.inbox[session.entryCommand].command)
  }

  // The end of session s: its exit command is applied on time, and its observation is the exit.
  predicate EndsAt(w: World, action: Action, s: SessionId, session: Session) {
    s in w.tables.domain.sessions && Active(w.tables.domain.sessions[s]) && session.exitCommand.Some? &&
    AppliesDue(w, action, session.exitCommand.value) &&
    session.slot == w.tables.inbox[session.exitCommand.value].command.slot &&
    session.exitAt == Some(TimeOf(w.tables.inbox[session.exitCommand.value].command))
  }

  predicate SameEntry(before: Session, after: Session) {
    after.slot == before.slot && after.entryCommand == before.entryCommand && after.entryAt == before.entryAt
  }

  predicate SameExit(before: Session, after: Session) {
    after.slot == before.slot && after.exitCommand == before.exitCommand && after.exitAt == before.exitAt
  }

  lemma StepTimes(w: World, action: Action, s: SessionId)
    requires Invariant(w) && s in Exec(w, action).tables.domain.sessions
    ensures var before, after := w.tables.domain.sessions, Exec(w, action).tables.domain.sessions;
            (if s in before then SameEntry(before[s], after[s]) else StartsAt(w, action, s, after[s])) &&
            (after[s].exitCommand.Some? ==>
               if s in before && before[s].exitCommand.Some? then SameExit(before[s], after[s])
               else EndsAt(w, action, s, after[s]))
  {
    hide Invariant, DomainOk, Exec, Runnable, AppliesDue, TimeOf, LatchFall, Confirms;
    assert s in w.tables.domain.sessions ==> SessionOk(w.tables.domain.sessions[s]) by {
      SafeDomain(w);
      if s in w.tables.domain.sessions { SessionFacts(w.tables.domain, s); }
    }
    if StepApplies(w, action) {
      RunnableIsPending(w.tables.inbox, action.now, action.id);
      RunnableIsDue(w, action);
      AppliedSessions(w, action);
    } else {
      QuietSessions(w, action);
      QuietExits(w, action, s);
    }
  }

  lemma QuietExits(w: World, action: Action, s: SessionId)
    requires !StepApplies(w, action) && s in w.tables.domain.sessions && s in Exec(w, action).tables.domain.sessions
    ensures SameExit(w.tables.domain.sessions[s], Exec(w, action).tables.domain.sessions[s])
  {
    hide Exec, Runnable, Live;
    QuietStays(w, action, w.tables.domain.sessions[s].slot);
  }

  /**
    Every session of a run was started by applying its entry command when that had fallen due: a Hall
    arrival never before its confirmation time. Its entry is the time of that observation.
  */
  lemma {:induction false} SessionStartedOnTime(start: World, actions: seq<Action>, s: SessionId) returns (k: nat)
    requires Fresh(start) && s in Run(start, actions).tables.domain.sessions
    ensures k < |actions| && StartsAt(Run(start, actions[..k]), actions[k], s, Run(start, actions).tables.domain.sessions[s])
  {
    hide Exec, Invariant, AppliesDue, TimeOf;
    if actions == [] {
      assert false;
    } else {
      var n := |actions| - 1;
      var w := Run(start, actions[..n]);
      ReachableIsSafe(start, actions[..n]);
      StepTimes(w, actions[n], s);
      if s in w.tables.domain.sessions {
        k := SessionStartedOnTime(start, actions[..n], s);
        assert actions[..n][..k] == actions[..k];
      } else {
        k := n;
      }
    }
  }

  /** Every session that ended in a run was ended by applying its exit command when that had fallen due, with its time. */
  lemma {:induction false} SessionEndedOnTime(start: World, actions: seq<Action>, s: SessionId) returns (k: nat)
    requires Fresh(start) && s in Run(start, actions).tables.domain.sessions
    requires Run(start, actions).tables.domain.sessions[s].exitCommand.Some?
    ensures k < |actions| && EndsAt(Run(start, actions[..k]), actions[k], s, Run(start, actions).tables.domain.sessions[s])
  {
    hide Exec, Invariant, AppliesDue, TimeOf;
    if actions == [] {
      assert false;
    } else {
      var n := |actions| - 1;
      var w := Run(start, actions[..n]);
      ReachableIsSafe(start, actions[..n]);
      StepTimes(w, actions[n], s);
      if s in w.tables.domain.sessions && w.tables.domain.sessions[s].exitCommand.Some? {
        k := SessionEndedOnTime(start, actions[..n], s);
        assert actions[..n][..k] == actions[..k];
      } else {
        k := n;
      }
    }
  }

  // ---------------------------------------------------------------- exit deadlines

  // The authoritative EXIT that makes this deadline, with the time at which it lets the deadline fall due.
  predicate MakesDeadline(command: Command, x: DeadlineId, deadline: ExitDeadline) {
    command.slot == x.slot && command.payload.Camera? && command.payload.authority && command.payload.authoritativeExit &&
    command.payload.action == Exit && deadline.hybrid == command.payload.hybrid &&
    deadline.dueAt == if command.payload.exitDue.Some? then command.payload.exitDue.value else command.dueAt
  }

  predicate OnlyMade(before: Deadlines, after: Deadlines, command: Command) {
    forall x :: x in after && x !in before ==> MakesDeadline(command, x, after[x])
  }

  lemma SupersedeMakesNone(d: Domain, slot: SlotId)
    ensures SupersedeScheduled(d, slot).deadlines.Keys == d.deadlines.Keys
  {
  }

  lemma ExitMakes(d: Domain, row: Row, generation: nat, areas: map<string, bool>)
    requires row.command.payload.Camera? && row.command.payload.authority && row.command.payload.authoritativeExit
    requires row.command.payload.action == Exit && CameraExit(d, row, generation, areas).Commit?
    ensures OnlyMade(d.deadlines, CameraExit(d, row, generation, areas).domain.deadlines, row.command)
  {
    hide FindActive, AllInactive, LiveOn, ObservedAt, AdmittedKept;
  }

  lemma ReduceMakes(d: Domain, id: CommandId, row: Row)
    requires Reduce(d, id, row).Commit? && (row.command.payload.Deadline? ==> DeadlineOwnsSlot(d, row))
    ensures OnlyMade(d.deadlines, Reduce(d, id, row).domain.deadlines, row.command)
  {
    hide FindActive, CameraExit, CameraIntrusion, CameraEvidence, HallArrival, HallDeparture, ApplyExit, ExitStillStands;
    hide GenerationsGrow, ObservedAt, AdmittedKept, Sequence.Evaluate, MakesDeadline, SupersedeScheduled;
    SupersedeMakesNone(d, row.command.slot);
    if row.command.payload.Camera? && row.command.payload.authority && row.command.payload.authoritativeExit
       && row.command.payload.action == Exit {
      forall generation, areas | CameraExit(d, row, generation, areas).Commit?
        ensures OnlyMade(d.deadlines, CameraExit(d, row, generation, areas).domain.deadlines, row.command)
      {
        ExitMakes(d, row, generation, areas);
      }
    }
  }

  predicate SameTerms(before: ExitDeadline, after: ExitDeadline) {
    after.attempt == before.attempt && after.dueAt == before.dueAt && after.hybrid == before.hybrid
  }

  // The step applies, on time, the EXIT that makes this deadline.
  predicate Makes(w: World, action: Action, x: DeadlineId, deadline: ExitDeadline) {
    action.ApplyCommand? && AppliesDue(w, action, action.id) &&
    MakesDeadline(w.tables.inbox[action.id].command, x, deadline)
  }

  // A deadline row keeps its terms; a new one is made by the EXIT that this step applies.
  predicate KeepsOrMakes(w: World, action: Action, after: Deadlines, x: DeadlineId) {
    x in after ==>
      if x in w.tables.domain.deadlines then SameTerms(w.tables.domain.deadlines[x], after[x])
      else Makes(w, action, x, after[x])
  }

  lemma StepMakes(w: World, action: Action, x: DeadlineId)
    requires Invariant(w)
    ensures KeepsOrMakes(w, action, Exec(w, action).tables.domain.deadlines, x)
  {
    hide Invariant, Exec, Runnable, AppliesDue, MakesDeadline, Reduce, Live;
    if StepApplies(w, action) {
      RunnableIsPending(w.tables.inbox, action.now, action.id);
      RunnableIsDue(w, action);
      RowFacts(w, action.id);
      AppliedDomain(w, action);
      var row := w.tables.inbox[action.id];
      if Reduce(w.tables.domain, action.id, row).Commit? {
        ReduceAdmitted(w.tables.domain, action.id, row);
        ReduceMakes(w.tables.domain, action.id, row);
      }
    } else {
      QuietStays(w, action, x.slot);
    }
  }

  /** Every deadline row of a run was made by applying an authoritative EXIT of its slot, and falls due when that said. */
  lemma {:induction false} DeadlineWasScheduled(start: World, actions: seq<Action>, x: DeadlineId) returns (k: nat)
    requires Fresh(start) && x in Run(start, actions).tables.domain.deadlines
    ensures k < |actions| && x !in Run(start, actions[..k]).tables.domain.deadlines
    ensures Makes(Run(start, actions[..k]), actions[k], x, Run(start, actions).tables.domain.deadlines[x])
  {
    hide Exec, Invariant, AppliesDue;
    if actions == [] {
      assert false;
    } else {
      var n := |actions| - 1;
      var w := Run(start, actions[..n]);
      ReachableIsSafe(start, actions[..n]);
      StepMakes(w, actions[n], x);
      if x in w.tables.domain.deadlines {
        k := DeadlineWasScheduled(start, actions[..n], x);
        assert actions[..n][..k] == actions[..k];
      } else {
        k := n;
      }
    }
  }

  // A pending deadline command falls due with its deadline.
  lemma CommandFallsDue(start: World, actions: seq<Action>, x: DeadlineId)
    requires Fresh(start) && var inbox := Run(start, actions).tables.inbox;
             ForDeadline(x) in inbox && inbox[ForDeadline(x)].status == Pending
    ensures var t := Run(start, actions).tables; var command := t.inbox[ForDeadline(x)].command;
            x in t.domain.deadlines && command.payload.Deadline? && command.dueAt == t.domain.deadlines[x].dueAt
  {
    hide Run, OneLivePerSlot;
    DeadlinesMatchCommands(start, actions);
  }

  /**
    A session that a deadline ended was left by an EXIT earlier in the run; the deadline was applied no
    earlier than that EXIT had said, and that time is the exit time of the session.
  */
  lemma {:induction false} ExitWaitsItsTime(start: World, actions: seq<Action>, s: SessionId, x: DeadlineId)
    returns (exit: nat, end: nat)
    requires Fresh(start) && s in Run(start, actions).tables.domain.sessions
    requires Run(start, actions).tables.domain.sessions[s].exitCommand == Some(ForDeadline(x))
    ensures exit < end < |actions| && actions[exit].ApplyCommand? && actions[end].ApplyCommand?
    ensures EndsAt(Run(start, actions[..end]), actions[end], s, Run(start, actions).tables.domain.sessions[s])
    ensures var w := Run(start, actions[..exit]);
            AppliesDue(w, actions[exit], actions[exit].id) &&
            var command := w.tables.inbox[actions[exit].id].command;
            command.slot == x.slot && command.payload.Camera? && command.payload.action == Exit &&
            var due := if command.payload.exitDue.Some? then command.payload.exitDue.value else command.dueAt;
            due <= actions[end].now && Run(start, actions).tables.domain.sessions[s].exitAt == Some(due)
  {
    hide Run;
    end := SessionEndedOnTime(start, actions, s);
    CommandFallsDue(start, actions[..end], x);
    exit := DeadlineWasScheduled(start, actions[..end], x);
    assert actions[..end][..exit] == actions[..exit];
  }
}
