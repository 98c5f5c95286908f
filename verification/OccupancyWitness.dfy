/**
  Runs that show where an expectation ends: an ordinal handed out twice, and a canceled candidate
  that starts a session after its row was purged.
*/
module OccupancyWitness {
  import opened Options
  import opened OccupancyTables
  import opened OccupancyReducer
  import opened OccupancyInbox
  import opened OccupancyWorld
  import opened OccupancyCapacity
  import opened OccupancyOrdinals
  import opened OccupancyRuns
  import opened OccupancyScript
  import Sequence = SensorSequence

  // A Hall frame without a counter.
  function HallFrame(slot: SlotId, identity: string, state: HallState, at: int, due: int): Command {
    Command(slot, "hall", identity, None, Hall(state, false, Sequence.LegacyV1, None, Some(at)), due)
  }

  predicate PlainFrame(command: Command) {
    command.payload.Hall? && command.payload.state != HallUnsupported &&
    command == HallFrame(command.slot, command.identity, command.payload.state, OccurredAt(command), command.dueAt)
  }

  // A frame without a counter is admissible while the sensor is new, nothing has its identity and there is room.
  lemma FrameIsAdmissible(t: Tables, command: Command, capacity: nat)
    requires PlainFrame(command) && command.slot != "" && command.identity != "" && command.slot in t.domain.slots
    requires t.domain.cursors == map[] && |t.inbox| < capacity
    requires forall c :: c in t.inbox ==> t.inbox[c].command.identity != command.identity
    requires command.payload.state == HallOccupied ==> forall c :: c in t.inbox ==> !IsCandidate(t.inbox[c], command.slot)
    ensures Admissible(t, command, capacity)
  {
    hide AfterCancel, IsCandidate;
    var inbox := AfterCancel(t.inbox, command);
    assert inbox.Keys == t.inbox.Keys by { CancelOrdinals(t.inbox, command); }
    SubsetSize(PendingIds(inbox), inbox.Keys);
    assert |inbox.Keys| == |t.inbox.Keys| == |t.inbox|;
  }

  lemma NoCancel(inbox: Inbox, command: Command)
    requires forall c :: c in inbox ==> !IsCandidate(inbox[c], command.slot)
    ensures AfterCancel(inbox, command) == inbox
  {
  }

  // The first admission into an empty inbox.
  lemma FirstSubmit(w: World, name: string, command: Command, capacity: nat)
    requires w.tables.inbox == map[] && w.tables.domain.cursors == map[] && capacity > 0 && name != ""
    requires PlainFrame(command) && command.slot != "" && command.identity != ""
    requires command.slot in w.tables.domain.slots
    ensures Admit(w.tables, name, command, capacity, 0).code == NewlyAdmitted
    ensures Exec(w, Submit(name, command, capacity, 0)).tables ==
            w.tables.(inbox := map[External(name) := NewRow(command, 1, 0)])
  {
    hide Exec, TopOrdinal, AfterCancel, NewRow, Admissible, Admit;
    FrameIsAdmissible(w.tables, command, capacity);
    NoCancel(w.tables.inbox, command);
    SubmitRuns(w, name, command, capacity, 0);
    TopIs(w.tables.inbox, 0);
  }

  // A departure from an empty slot changes no table but the slot row.
  lemma EmptyDeparture(d: Domain, id: CommandId, row: Row)
    requires PlainFrame(row.command) && row.command.payload.state == HallVacant
    requires d.sessions == map[] && d.cursors == map[]
    ensures var slots := if row.command.slot in d.slots then d.slots[row.command.slot := SlotVacant] else d.slots;
            Reduce(d, id, row) == Commit(d.(slots := slots),
                                         Outcome(NoChange, None, row.attempt, row.generation, row.correlation))
  {
    assert FindActive(d.sessions, row.command.slot) == None;
  }

  // ---------------------------------------------------------------- an ordinal handed out twice

  function ReuseRun(slot: SlotId): seq<Action> {
    [Submit("a", HallFrame(slot, "a", HallVacant, 0, 0), 1, 0), ApplyCommand(External("a"), 0),
     PurgeSettled({External("a")}, 1000, 1), Submit("b", HallFrame(slot, "b", HallVacant, 0, 0), 1, 0)]
  }

  lemma ReuseApply(w: World, slot: SlotId)
    requires w.tables.inbox == map[External("a") := NewRow(HallFrame(slot, "a", HallVacant, 0, 0), 1, 0)]
    requires w.tables.domain.sessions == map[] && w.tables.domain.cursors == map[] && slot in w.tables.domain.slots
    ensures var t := Exec(w, ApplyCommand(External("a"), 0)).tables;
            t.inbox.Keys == {External("a")} && t.inbox[External("a")].ordinal == 1 &&
            Purgeable(t.inbox[External("a")], 1000) &&
            t.domain == w.tables.domain.(slots := t.domain.slots) && slot in t.domain.slots
  {
    hide Exec, Reduce;
    var a := External("a");
    ApplyRuns(w, a, 0);
    EmptyDeparture(w.tables.domain, a, w.tables.inbox[a]);
  }

  lemma ReusePurge(w: World)
    requires var a := External("a");
             w.tables.inbox.Keys == {a} && w.tables.inbox[a].ordinal == 1 && Purgeable(w.tables.inbox[a], 1000)
    ensures DropsTop(w, PurgeSettled({External("a")}, 1000, 1))
    ensures Exec(w, PurgeSettled({External("a")}, 1000, 1)).tables == w.tables.(inbox := map[])
  {
    var a := External("a");
    assert forall c :: c in w.tables.inbox ==> c == a;
    TopIs(w.tables.inbox, 1);
    hide TopOrdinal;
    assert w.tables.inbox - {a} == map[];
    assert a in {a};
  }

  lemma SubmitAssignsOne(w: World, name: string, command: Command)
    requires !command.payload.Deadline? && Admit(w.tables, name, command, 1, 0).code == NewlyAdmitted
    requires Exec(w, Submit(name, command, 1, 0)).tables.inbox == map[External(name) := NewRow(command, 1, 0)]
    ensures AssignedBy(w, Submit(name, command, 1, 0)) == [1]
  {
    hide Exec, Admit;
  }

  lemma OthersAssignNothing(w: World, action: Action)
    requires !action.Submit? && !action.AdmitDeadlines?
    ensures AssignedBy(w, action) == []
  {
    hide Exec;
  }

  lemma AssignedStep(start: World, actions: seq<Action>, k: nat)
    requires k < |actions|
    ensures Assigned(start, actions[..k + 1]) ==
            Assigned(start, actions[..k]) + AssignedBy(Run(start, actions[..k]), actions[k])
  {
    hide Run, AssignedBy;
    assert actions[..k + 1][..k] == actions[..k];
  }

  /** The purge may delete the newest row of the inbox, and then its ordinal is handed out again. */
  lemma {:induction false} PurgedOrdinalIsReused(start: World, slot: SlotId)
    requires Fresh(start) && slot in start.tables.domain.slots && slot != ""
    ensures DropsAt(start, ReuseRun(slot), 2) && Assigned(start, ReuseRun(slot)) == [1, 1]
  {
    hide Exec, Run, Reduce, NewRow, AssignedBy, Admit, DropsTop, Purgeable;
    var actions := ReuseRun(slot);
    assert actions[..0] == [] && actions[..4] == actions;
    assert Run(start, actions[..0]) == start by { RunNothing(start); }
    RunOne(start, actions, 0);
    RunOne(start, actions, 1);
    RunOne(start, actions, 2);
    RunOne(start, actions, 3);
    FirstSubmit(start, "a", actions[0].command, 1);
    ReuseApply(Run(start, actions[..1]), slot);
    ReusePurge(Run(start, actions[..2]));
    FirstSubmit(Run(start, actions[..3]), "b", actions[3].command, 1);
    AssignedStep(start, actions, 0);
    AssignedStep(start, actions, 1);
    AssignedStep(start, actions, 2);
    AssignedStep(start, actions, 3);
    SubmitAssignsOne(start, "a", actions[0].command);
    OthersAssignNothing(Run(start, actions[..1]), actions[1]);
    OthersAssignNothing(Run(start, actions[..2]), actions[2]);
    SubmitAssignsOne(Run(start, actions[..3]), "b", actions[3].command);
  }

  lemma RunNothing(start: World)
    ensures Run(start, []) == start
  {
  }

  // ---------------------------------------------------------------- a canceled candidate that comes back

  function Candidate(slot: SlotId): Command {
    HallFrame(slot, "c", HallOccupied, 0, 100)
  }

  function Departure(slot: SlotId): Command {
    HallFrame(slot, "v", HallVacant, 50, 0)
  }

  function RevivalRun(slot: SlotId): seq<Action> {
    [Submit("c", Candidate(slot), 10, 0), Submit("v", Departure(slot), 10, 0), PurgeSettled({External("c")}, 1000, 1),
     Submit("c", Candidate(slot), 10, 0), ApplyCommand(External("v"), 200), ApplyCommand(External("c"), 200)]
  }

  lemma RevivalCancel(w: World, slot: SlotId)
    requires w.tables.inbox == map[External("c") := NewRow(Candidate(slot), 1, 0)] && w.tables.domain.cursors == map[]
    requires slot in w.tables.domain.slots && slot != ""
    ensures Cancels(w, Submit("v", Departure(slot), 10, 0), External("c"))
    ensures Exec(w, Submit("v", Departure(slot), 10, 0)).tables ==
            w.tables.(inbox := map[External("c") := Canceled(NewRow(Candidate(slot), 1, 0)),
                                   External("v") := NewRow(Departure(slot), 2, 0)])
  {
    hide Exec, TopOrdinal, AfterCancel, Admissible, Admit;
    var inbox, c := w.tables.inbox, External("c");
    FrameIsAdmissible(w.tables, Departure(slot), 10);
    SubmitRuns(w, "v", Departure(slot), 10, 0);
    assert forall e :: e in inbox ==> e == c;
    CancelCancels(inbox, Departure(slot), c);
    TopIs(inbox[c := Canceled(inbox[c])], 1);
  }

  lemma RevivalPurge(w: World, slot: SlotId)
    requires w.tables.inbox == map[External("c") := Canceled(NewRow(Candidate(slot), 1, 0)),
                                   External("v") := NewRow(Departure(slot), 2, 0)]
    ensures Exec(w, PurgeSettled({External("c")}, 1000, 1)).tables ==
            w.tables.(inbox := map[External("v") := NewRow(Departure(slot), 2, 0)])
  {
    var c := External("c");
    assert PurgeBatch(w.tables.inbox, 1000, 1, {c});
    assert w.tables.inbox - {c} == map[External("v") := NewRow(Departure(slot), 2, 0)];
  }

  lemma RevivalSubmit(w: World, slot: SlotId)
    requires w.tables.inbox == map[External("v") := NewRow(Departure(slot), 2, 0)] && w.tables.domain.cursors == map[]
    requires slot in w.tables.domain.slots && slot != ""
    ensures Exec(w, Submit("c", Candidate(slot), 10, 0)).tables ==
            w.tables.(inbox := map[External("v") := NewRow(Departure(slot), 2, 0),
                                   External("c") := NewRow(Candidate(slot), 3, 0)])
  {
    hide Exec, TopOrdinal, AfterCancel, Admissible, Admit;
    assert forall e :: e in w.tables.inbox ==> !IsCandidate(w.tables.inbox[e], slot);
    FrameIsAdmissible(w.tables, Candidate(slot), 10);
    SubmitRuns(w, "c", Candidate(slot), 10, 0);
    NoCancel(w.tables.inbox, Candidate(slot));
    assert External("v") in w.tables.inbox;
    TopIs(w.tables.inbox, 2);
  }

  // The departure is applied first: it is the head of the queue.
  lemma RevivalDeparture(w: World, slot: SlotId)
    requires w.tables.inbox == map[External("v") := NewRow(Departure(slot), 2, 0),
                                   External("c") := NewRow(Candidate(slot), 3, 0)]
    requires w.tables.domain.sessions == map[] && w.tables.domain.cursors == map[] && slot in w.tables.domain.slots
    ensures var t := Exec(w, ApplyCommand(External("v"), 200)).tables;
            t.inbox.Keys == {External("v"), External("c")} && t.inbox[External("v")].status == Applied &&
            t.inbox[External("c")] == NewRow(Candidate(slot), 3, 0) &&
            t.domain == w.tables.domain.(slots := t.domain.slots) && slot in t.domain.slots
  {
    hide Exec, Reduce;
    var v := External("v");
    ApplyRuns(w, v, 200);
    EmptyDeparture(w.tables.domain, v, w.tables.inbox[v]);
  }

  lemma RevivalArrival(w: World, slot: SlotId)
    requires w.tables.inbox.Keys == {External("v"), External("c")} && w.tables.inbox[External("v")].status == Applied
    requires w.tables.inbox[External("c")] == NewRow(Candidate(slot), 3, 0)
    requires w.tables.domain.sessions == map[] && w.tables.domain.cursors == map[] && slot in w.tables.domain.slots
    ensures StartedBy(Exec(w, ApplyCommand(External("c"), 200)).tables.domain.sessions, External("c")) ==
            {w.tables.domain.nextSession}
  {
    hide Exec, Reduce;
    var c, d := External("c"), w.tables.domain;
    assert forall e :: e in w.tables.inbox ==> e == c || e == External("v");
    ApplyRuns(w, c, 200);
    FirstArrival(d, c, w.tables.inbox[c]);
  }

  lemma FirstArrival(d: Domain, id: CommandId, row: Row)
    requires PlainFrame(row.command) && row.command.payload.state == HallOccupied
    requires d.sessions == map[] && d.cursors == map[] && row.command.slot in d.slots
    ensures var verdict := Reduce(d, id, row);
            verdict.Commit? && StartedBy(verdict.domain.sessions, id) == {d.nextSession}
  {
    assert FindActive(d.sessions, row.command.slot) == None;
  }

  /**
    A canceled candidate whose row was purged is admitted as new when it is delivered again, and then
    starts a session.
  */
  lemma {:induction false} PurgedCandidateRevives(start: World, slot: SlotId)
    requires Fresh(start) && slot in start.tables.domain.slots && slot != ""
    ensures Cancels(Run(start, RevivalRun(slot)[..1]), RevivalRun(slot)[1], External("c"))
    ensures Forgets(Run(start, RevivalRun(slot)[..2]), RevivalRun(slot)[2], External("c"))
    ensures StartedBy(Run(start, RevivalRun(slot)).tables.domain.sessions, External("c")) != {}
  {
    hide Exec, Run, Reduce, NewRow, Admit, Cancels, Canceled, StartedBy, Forgets;
    var actions := RevivalRun(slot);
    assert actions[..0] == [] && actions[..6] == actions;
    RunNothing(start);
    RunOne(start, actions, 0);
    RunOne(start, actions, 1);
    RunOne(start, actions, 2);
    RunOne(start, actions, 3);
    RunOne(start, actions, 4);
    RunOne(start, actions, 5);
    FirstSubmit(start, "c", Candidate(slot), 10);
    RevivalCancel(Run(start, actions[..1]), slot);
    RevivalPurge(Run(start, actions[..2]), slot);
    RevivalForgets(Run(start, actions[..2]), slot);
    RevivalSubmit(Run(start, actions[..3]), slot);
    RevivalDeparture(Run(start, actions[..4]), slot);
    RevivalArrival(Run(start, actions[..5]), slot);
  }

  lemma RevivalForgets(w: World, slot: SlotId)
    requires w.tables.inbox == map[External("c") := Canceled(NewRow(Candidate(slot), 1, 0)),
                                   External("v") := NewRow(Departure(slot), 2, 0)]
    ensures Forgets(w, PurgeSettled({External("c")}, 1000, 1), External("c"))
  {
  }
}
