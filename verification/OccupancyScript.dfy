/**
  Runs on one slot step by step, for the witnesses: the inbox is a line of commands in admission
  order, of which a front part is settled and the rest still pending as admitted.
*/
module OccupancyScript {
  import opened OccupancyTables
  import opened OccupancyReducer
  import opened OccupancyInbox
  import opened OccupancyWorld
  import opened OccupancyCapacity
  import opened OccupancyOrdinals
  import opened OccupancyRuns
  import Sequence = SensorSequence

  const ROOM: nat := 100

  predicate LineRow(inbox: Inbox, id: CommandId, command: Command, ordinal: nat, settled: bool) {
    id in inbox && inbox[id].command == command && inbox[id].ordinal == ordinal &&
    if settled then inbox[id].status == Applied && inbox[id].createdAt == 0 && inbox[id].effectAt == 0
    else inbox[id] == NewRow(command, ordinal, 0)
  }

  ghost predicate Line(inbox: Inbox, ids: seq<CommandId>, commands: seq<Command>, first: nat, settled: nat) {
    |ids| == |commands| && settled <= |ids| < ROOM && (ids == [] ==> first == 1) &&
    (forall c :: c in inbox ==> c in ids) &&
    (forall i, j :: 0 <= i < j < |ids| ==> ids[i] != ids[j]) &&
    forall i :: 0 <= i < |ids| ==> LineRow(inbox, ids[i], commands[i], first + i, i < settled)
  }

  lemma {:induction false} FewOf(some: set<CommandId>, ids: seq<CommandId>)
    requires forall c :: c in some ==> c in ids
    ensures |some| <= |ids|
  {
    if ids == [] {
      assert some == {};
    } else {
      FewOf(some - {ids[0]}, ids[1..]);
      if ids[0] in some { assert |some - {ids[0]}| == |some| - 1; } else { assert some - {ids[0]} == some; }
    }
  }

  lemma LineTop(inbox: Inbox, ids: seq<CommandId>, commands: seq<Command>, first: nat, settled: nat)
    requires Line(inbox, ids, commands, first, settled) && first > 0
    ensures TopOrdinal(inbox) == first + |ids| - 1
    ensures |PendingIds(inbox)| <= |ids|
  {
    hide TopOrdinal;
    FewOf(PendingIds(inbox), ids);
    forall c | c in inbox ensures inbox[c].ordinal <= first + |ids| - 1 {
      var i :| 0 <= i < |ids| && ids[i] == c;
      assert LineRow(inbox, ids[i], commands[i], first + i, i < settled);
    }
    if ids != [] {
      var i := |ids| - 1;
      assert LineRow(inbox, ids[i], commands[i], first + i, i < settled);
      assert ids[i] in inbox && inbox[ids[i]].ordinal == first + i;
    }
    TopIs(inbox, first + |ids| - 1);
  }

  lemma LineExtends(inbox: Inbox, ids: seq<CommandId>, commands: seq<Command>, first: nat, settled: nat,
                    id: CommandId, command: Command)
    requires Line(inbox, ids, commands, first, settled) && id !in ids && |ids| + 1 < ROOM
    ensures Line(inbox[id := NewRow(command, first + |ids|, 0)], ids + [id], commands + [command], first, settled)
  {
    hide NewRow;
    var after, ids', commands' := inbox[id := NewRow(command, first + |ids|, 0)], ids + [id], commands + [command];
    forall i | 0 <= i < |ids'| ensures LineRow(after, ids'[i], commands'[i], first + i, i < settled) {
      if i < |ids| {
        assert LineRow(inbox, ids[i], commands[i], first + i, i < settled);
      } else {
        NewRowIs(command, first + i);
      }
    }
  }

  lemma NewRowIs(command: Command, ordinal: nat)
    ensures NewRow(command, ordinal, 0).command == command && NewRow(command, ordinal, 0).ordinal == ordinal
    ensures NewRow(command, ordinal, 0).status == Pending && NewRow(command, ordinal, 0).nextTryAt == 0
    ensures NewRow(command, ordinal, 0).createdAt == 0
  {
  }

  // A camera action, or a Hall frame without counter and confirmation time.
  predicate Plain(command: Command) {
    command.dueAt == 0 && command.slot != "" && command.identity != "" &&
    match command.payload
    case Hall(state, _, protocol, bootId, _) =>
      state != HallUnsupported && protocol == Sequence.LegacyV1 && bootId.None? && command.sequence.None? &&
      command.sensor != ""
    case Camera(_, _, _, _, _, _, _, _, _, _, _, _) => true
    case Deadline(_, _, _, _, _) => false
  }

  lemma LineAdmissible(t: Tables, ids: seq<CommandId>, commands: seq<Command>, first: nat, settled: nat, command: Command)
    requires Line(t.inbox, ids, commands, first, settled) && first > 0
    requires Plain(command) && command.slot in t.domain.slots && t.domain.cursors == map[]
    requires forall i :: 0 <= i < |commands| ==> commands[i].identity != command.identity && commands[i].dueAt <= 0
    ensures Admissible(t, command, ROOM) && AfterCancel(t.inbox, command) == t.inbox
  {
    LineTop(t.inbox, ids, commands, first, settled);
    hide TopOrdinal, PendingIds;
    forall c | c in t.inbox ensures t.inbox[c].command.identity != command.identity && t.inbox[c].command.dueAt <= 0 {
      var i :| 0 <= i < |ids| && ids[i] == c;
      assert LineRow(t.inbox, ids[i], commands[i], first + i, i < settled);
    }
  }

  /** One more command at the end of the line. */
  lemma LineSubmit(w: World, ids: seq<CommandId>, commands: seq<Command>, first: nat, settled: nat, name: string,
                   command: Command)
    requires Line(w.tables.inbox, ids, commands, first, settled) && first > 0 && |ids| + 1 < ROOM
    requires Plain(command) && command.slot in w.tables.domain.slots && w.tables.domain.cursors == map[]
    requires name != "" && External(name) !in ids
    requires forall i :: 0 <= i < |commands| ==> commands[i].identity != command.identity && commands[i].dueAt <= 0
    ensures var t := Exec(w, Submit(name, command, ROOM, 0)).tables;
            t.domain == w.tables.domain &&
            Line(t.inbox, ids + [External(name)], commands + [command], first, settled)
  {
    hide Exec, Admissible, Line, AfterCancel, TopOrdinal, NewRow;
    assert External(name) !in w.tables.inbox by { NotInLine(w.tables.inbox, ids, commands, first, settled, External(name)); }
    LineAdmissible(w.tables, ids, commands, first, settled, command);
    LineTop(w.tables.inbox, ids, commands, first, settled);
    SubmitRuns(w, name, command, ROOM, 0);
    LineExtends(w.tables.inbox, ids, commands, first, settled, External(name), command);
  }

  lemma NotInLine(inbox: Inbox, ids: seq<CommandId>, commands: seq<Command>, first: nat, settled: nat, c: CommandId)
    requires Line(inbox, ids, commands, first, settled) && c !in ids
    ensures c !in inbox
  {
  }

  lemma SubmitRuns(w: World, name: string, command: Command, capacity: nat, now: int)
    requires !command.payload.Deadline? && name != "" && External(name) !in w.tables.inbox
    requires Admissible(w.tables, command, capacity)
    ensures Admit(w.tables, name, command, capacity, now).code == NewlyAdmitted
    ensures var inbox := AfterCancel(w.tables.inbox, command);
            Exec(w, Submit(name, command, capacity, now)).tables ==
              w.tables.(inbox := inbox[External(name) := NewRow(command, TopOrdinal(inbox) + 1, now)])
  {
    hide FindIdentity, SourceFact, TopOrdinal, PendingIds, FindCandidate, NewRow;
    assert External(name) !in AfterCancel(w.tables.inbox, command) by {
      CancelKeepsRows(w.tables.inbox, command, External(name));
    }
    hide AfterCancel;
  }

  lemma ApplyRuns(w: World, id: CommandId, now: int)
    requires Runnable(w.tables.inbox, now, id)
    ensures Exec(w, ApplyCommand(id, now)).tables == Apply(w.tables, id)
  {
    hide Apply, AppliedHistory, Runnable;
  }

  lemma LineRunnable(inbox: Inbox, ids: seq<CommandId>, commands: seq<Command>, first: nat, settled: nat)
    requires Line(inbox, ids, commands, first, settled) && settled < |ids| && commands[settled].dueAt <= 0
    ensures Runnable(inbox, 0, ids[settled])
    ensures inbox[ids[settled]] == NewRow(commands[settled], first + settled, 0)
  {
    var id := ids[settled];
    assert LineRow(inbox, id, commands[settled], first + settled, false);
    forall e | e in inbox && inbox[e].status == Pending ensures inbox[id].ordinal <= inbox[e].ordinal {
      var i :| 0 <= i < |ids| && ids[i] == e;
      assert LineRow(inbox, ids[i], commands[i], first + i, i < settled);
    }
  }

  lemma LineSettles(inbox: Inbox, ids: seq<CommandId>, commands: seq<Command>, first: nat, settled: nat, row: Row)
    requires Line(inbox, ids, commands, first, settled) && settled < |ids|
    requires row.command == commands[settled] && row.ordinal == first + settled && row.status == Applied
    requires row.createdAt == 0 && row.effectAt == 0
    ensures Line(inbox[ids[settled] := row], ids, commands, first, settled + 1)
  {
    hide NewRow;
    var after := inbox[ids[settled] := row];
    forall i | 0 <= i < |ids| ensures LineRow(after, ids[i], commands[i], first + i, i < settled + 1) {
      assert LineRow(inbox, ids[i], commands[i], first + i, i < settled);
    }
  }

  /** The first command that is not settled is applied. */
  lemma LineApply(w: World, ids: seq<CommandId>, commands: seq<Command>, first: nat, settled: nat, domain: Domain)
    requires Line(w.tables.inbox, ids, commands, first, settled) && settled < |ids|
    requires settled < |commands| && commands[settled].dueAt <= 0
    requires var verdict := Reduce(w.tables.domain, ids[settled], NewRow(commands[settled], first + settled, 0));
             verdict.Commit? && verdict.domain == domain && verdict.outcome.code != RejectedInvalidTimestamp
    ensures var t := Exec(w, ApplyCommand(ids[settled], 0)).tables;
            t.domain == domain && Line(t.inbox, ids, commands, first, settled + 1)
  {
    hide Exec, Reduce, Line, NewRow, Runnable;
    LineRunnable(w.tables.inbox, ids, commands, first, settled);
    ApplyRuns(w, ids[settled], 0);
    NewRowIs(commands[settled], first + settled);
    var outcome := Reduce(w.tables.domain, ids[settled], NewRow(commands[settled], first + settled, 0)).outcome;
    LineSettles(w.tables.inbox, ids, commands, first, settled,
                Finished(NewRow(commands[settled], first + settled, 0), outcome));
  }

  /** The one deadline, which is due, is admitted at the end of the line. */
  lemma LineAdmits(w: World, ids: seq<CommandId>, commands: seq<Command>, first: nat, settled: nat, x: DeadlineId)
    requires Line(w.tables.inbox, ids, commands, first, settled) && first > 0 && |ids| + 1 < ROOM
    requires w.tables.domain.deadlines.Keys == {x} && w.tables.domain.deadlines[x].state == Scheduled
    requires w.tables.domain.deadlines[x].dueAt <= 0 && ForDeadline(x) !in ids
    ensures var t := Exec(w, AdmitDeadlines([x], ROOM, {}, 0)).tables;
            var command := DeadlineCommand(x, w.tables.domain.deadlines[x]);
            t.domain == SettleDeadline(w.tables.domain, x, Admitted) &&
            Line(t.inbox, ids + [ForDeadline(x)], commands + [command], first, settled)
  {
    hide TopOrdinal, PendingIds, Line, NewRow;
    var t, d := w.tables, w.tables.domain;
    NotInLine(t.inbox, ids, commands, first, settled, ForDeadline(x));
    LineTop(t.inbox, ids, commands, first, settled);
    assert DueBatch(t, 0, ROOM, {}, [x]) by {
      assert forall y :: y in d.deadlines ==> y == x;
      LineShort(t.inbox, ids, commands, first, settled);
    }
    var next := AdmitDeadline(t, x, TopOrdinal(t.inbox) + 1, 0);
    assert [x][1..] == [];
    assert AdmitBatch(next, [], TopOrdinal(t.inbox) + 1, 0) == next;
    assert AdmitDue(t, [x], 0) == next;
    LineExtends(t.inbox, ids, commands, first, settled, ForDeadline(x), DeadlineCommand(x, d.deadlines[x]));
  }

  lemma LineShort(inbox: Inbox, ids: seq<CommandId>, commands: seq<Command>, first: nat, settled: nat)
    requires Line(inbox, ids, commands, first, settled)
    ensures |ids| < ROOM
  {
  }

  lemma LineIsFirst(inbox: Inbox, ids: seq<CommandId>, commands: seq<Command>, first: nat, settled: nat)
    requires Line(inbox, ids, commands, first, settled) && settled > 0
    ensures ids[0] in inbox && inbox[ids[0]].status == Applied && inbox[ids[0]].createdAt == 0 && inbox[ids[0]].effectAt == 0
    ensures forall c :: c in inbox ==> inbox[ids[0]].ordinal <= inbox[c].ordinal
    ensures forall c :: c in inbox && c != ids[0] ==> inbox[ids[0]].ordinal < inbox[c].ordinal
  {
    assert LineRow(inbox, ids[0], commands[0], first, true);
    forall c | c in inbox ensures inbox[ids[0]].ordinal <= inbox[c].ordinal
                          ensures c != ids[0] ==> inbox[ids[0]].ordinal < inbox[c].ordinal
    {
      var i :| 0 <= i < |ids| && ids[i] == c;
      assert LineRow(inbox, ids[i], commands[i], first + i, i < settled);
    }
  }

  lemma LineCompleted(inbox: Inbox, ids: seq<CommandId>, commands: seq<Command>, first: nat, settled: nat)
    requires Line(inbox, ids, commands, first, settled) && settled > 0 && ids[0] in inbox
    ensures Line(inbox[ids[0] := inbox[ids[0]].(effect := EffectApplied, effectAt := 0)], ids, commands, first, settled)
  {
    hide NewRow;
    var after := inbox[ids[0] := inbox[ids[0]].(effect := EffectApplied, effectAt := 0)];
    forall i | 0 <= i < |ids| ensures LineRow(after, ids[i], commands[i], first + i, i < settled) {
      assert LineRow(inbox, ids[i], commands[i], first + i, i < settled);
    }
  }

  /** The effect of the first command is completed, if it has one. */
  lemma LineCompletes(w: World, ids: seq<CommandId>, commands: seq<Command>, first: nat, settled: nat)
    requires Line(w.tables.inbox, ids, commands, first, settled) && settled > 0 && ids != []
    ensures var t := Exec(w, CompleteEffects(ids[0], 0)).tables;
            t.domain == w.tables.domain && Line(t.inbox, ids, commands, first, settled) &&
            ids[0] in t.inbox && t.inbox[ids[0]].effect != EffectPending
  {
    hide Line;
    LineIsFirst(w.tables.inbox, ids, commands, first, settled);
    LineCompleted(w.tables.inbox, ids, commands, first, settled);
  }

  lemma LineTail(inbox: Inbox, ids: seq<CommandId>, commands: seq<Command>, first: nat, settled: nat)
    requires Line(inbox, ids, commands, first, settled) && settled > 0 && |ids| > 1
    ensures Line(inbox - {ids[0]}, ids[1..], commands[1..], first + 1, settled - 1)
  {
    var after := inbox - {ids[0]};
    forall i | 0 <= i < |ids| - 1 ensures LineRow(after, ids[1..][i], commands[1..][i], first + 1 + i, i < settled - 1) {
      assert LineRow(inbox, ids[i + 1], commands[i + 1], first + (i + 1), i + 1 < settled);
    }
    hide LineRow;
    forall c | c in after ensures c in ids[1..] {
      var i :| 0 <= i < |ids| && ids[i] == c;
      assert ids[1..][i - 1] == c;
    }
  }

  /** The first command is purged. */
  lemma LinePurges(w: World, ids: seq<CommandId>, commands: seq<Command>, first: nat, settled: nat)
    requires Line(w.tables.inbox, ids, commands, first, settled) && settled > 0 && |ids| > 1 && |ids| == |commands|
    requires ids[0] in w.tables.inbox && w.tables.inbox[ids[0]].effect != EffectPending
    ensures var t := Exec(w, PurgeSettled({ids[0]}, 1000, 1)).tables;
            t.domain == w.tables.domain && Line(t.inbox, ids[1..], commands[1..], first + 1, settled - 1)
  {
    hide Line;
    LineIsFirst(w.tables.inbox, ids, commands, first, settled);
    assert PurgeBatch(w.tables.inbox, 1000, 1, {ids[0]});
    hide PurgeBatch;
    LineTail(w.tables.inbox, ids, commands, first, settled);
  }

  // ---------------------------------------------------------------- the same over a run

  // The world has these domain tables and this line.
  ghost predicate At(w: World, d: Domain, ids: seq<CommandId>, commands: seq<Command>, first: nat, settled: nat) {
    w.tables.domain == d && Line(w.tables.inbox, ids, commands, first, settled)
  }

  lemma RunStarts(start: World, actions: seq<Action>)
    requires start.tables.inbox == map[]
    ensures At(Run(start, actions[..0]), start.tables.domain, [], [], 1, 0)
  {
    assert actions[..0] == [];
  }

  lemma RunSubmits(start: World, actions: seq<Action>, k: nat, d: Domain, ids: seq<CommandId>, commands: seq<Command>,
                   first: nat, settled: nat, name: string, command: Command)
    requires k < |actions| && actions[k] == Submit(name, command, ROOM, 0)
    requires At(Run(start, actions[..k]), d, ids, commands, first, settled) && first > 0 && |ids| + 1 < ROOM
    requires Plain(command) && command.slot in d.slots && d.cursors == map[] && name != "" && External(name) !in ids
    requires forall i :: 0 <= i < |commands| ==> commands[i].identity != command.identity && commands[i].dueAt <= 0
    ensures At(Run(start, actions[..k + 1]), d, ids + [External(name)], commands + [command], first, settled)
  {
    hide Exec, Run, Line, Plain;
    RunOne(start, actions, k);
    LineSubmit(Run(start, actions[..k]), ids, commands, first, settled, name, command);
  }

  lemma RunApplies(start: World, actions: seq<Action>, k: nat, d: Domain, ids: seq<CommandId>, commands: seq<Command>,
                   first: nat, settled: nat, domain: Domain)
    requires k < |actions| && settled < |ids| && actions[k] == ApplyCommand(ids[settled], 0)
    requires At(Run(start, actions[..k]), d, ids, commands, first, settled)
    requires settled < |commands| && commands[settled].dueAt <= 0
    requires var verdict := Reduce(d, ids[settled], NewRow(commands[settled], first + settled, 0));
             verdict.Commit? && verdict.domain == domain && verdict.outcome.code != RejectedInvalidTimestamp
    ensures At(Run(start, actions[..k + 1]), domain, ids, commands, first, settled + 1)
  {
    hide Exec, Run, Line, Reduce, NewRow;
    RunOne(start, actions, k);
    LineApply(Run(start, actions[..k]), ids, commands, first, settled, domain);
  }

  lemma RunAdmits(start: World, actions: seq<Action>, k: nat, d: Domain, ids: seq<CommandId>, commands: seq<Command>,
                  first: nat, settled: nat, x: DeadlineId)
    requires k < |actions| && actions[k] == AdmitDeadlines([x], ROOM, {}, 0)
    requires At(Run(start, actions[..k]), d, ids, commands, first, settled) && first > 0 && |ids| + 1 < ROOM
    requires d.deadlines.Keys == {x} && d.deadlines[x].state == Scheduled && d.deadlines[x].dueAt <= 0
    requires ForDeadline(x) !in ids
    ensures At(Run(start, actions[..k + 1]), SettleDeadline(d, x, Admitted), ids + [ForDeadline(x)],
               commands + [DeadlineCommand(x, d.deadlines[x])], first, settled)
  {
    hide Exec, Run, Line;
    RunOne(start, actions, k);
    LineAdmits(Run(start, actions[..k]), ids, commands, first, settled, x);
  }

  // The effect of the first command is completed, and the command is purged.
  lemma RunForgets(start: World, actions: seq<Action>, k: nat, d: Domain, ids: seq<CommandId>, commands: seq<Command>,
                   first: nat, settled: nat)
    requires k + 1 < |actions| && settled > 0 && |ids| > 1 && |ids| == |commands|
    requires actions[k] == CompleteEffects(ids[0], 0) && actions[k + 1] == PurgeSettled({ids[0]}, 1000, 1)
    requires At(Run(start, actions[..k]), d, ids, commands, first, settled)
    ensures At(Run(start, actions[..k + 2]), d, ids[1..], commands[1..], first + 1, settled - 1)
  {
    hide Exec, Run, Line;
    RunOne(start, actions, k);
    RunOne(start, actions, k + 1);
    LineCompletes(Run(start, actions[..k]), ids, commands, first, settled);
    LinePurges(Run(start, actions[..k + 1]), ids, commands, first, settled);
  }
}
