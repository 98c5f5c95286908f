/**
  Boot ids in the fire store over runs. A source that has moved to boot epochs never falls back,
  its counter only rises within an epoch, and a boot id that another one replaced never commits again.
*/
module FireRetirement {
  import opened Options
  import opened FireStore
  import opened FireRuns
  import Sequence = SensorSequence

  // The channel is in the epoch of this boot id, at this counter or beyond.
  predicate Holds(t: Tables, channel: string, boot: string, counter: nat) {
    channel in t.states &&
    var s := t.states[channel];
    s.mode == Sequence.Versioned && s.activeBoot == Some(boot) && s.sequence.Some? && counter <= s.sequence.value
  }

  // The epoch of this boot id is over.
  predicate Closed(t: Tables, channel: string, boot: string) {
    channel in t.states &&
    var s := t.states[channel];
    s.mode == Sequence.Versioned && s.activeBoot != Some(boot) && (s.sensor, boot) in t.retired
  }

  // ---------------------------------------------------------------- one committed mutation

  // An accepted change of a versioned cursor opens a new epoch or counts up in its own.
  lemma AcceptedChange(t: Tables, current: State, next: State)
    requires current.mode == Sequence.Versioned && CursorChanged(current, next) && !CursorRefused(t, current, next)
    ensures next.mode == Sequence.Versioned && next.activeBoot.Some? && next.sequence.Some? && current.activeBoot.Some?
    ensures (next.sensor, next.activeBoot.value) !in t.retired
    ensures next.activeBoot == current.activeBoot ==>
              current.sequence.Some? && current.sequence.value < next.sequence.value
  {
  }

  lemma CommittedHolds(t: Tables, m: Mutation, boot: string, counter: nat)
    requires Commits(t, m) && Holds(t, m.next.channel, boot, counter)
    ensures var after := Apply(t, m).1;
            if m.next.activeBoot == Some(boot) then Holds(after, m.next.channel, boot, counter)
            else Closed(after, m.next.channel, boot)
    ensures m.next.mode == Sequence.Versioned
    ensures m.next.activeBoot == Some(boot) && CursorChanged(t.states[m.next.channel], m.next) ==>
              m.next.sequence.Some? && counter < m.next.sequence.value
  {
    hide Apply, OutboxAfter, ValidMutation, CursorRefused;
    CommitFacts(t, m);
    var current := t.states[m.next.channel];
    if CursorChanged(current, m.next) { AcceptedChange(t, current, m.next); }
  }

  lemma CommittedClosed(t: Tables, m: Mutation, boot: string)
    requires Commits(t, m) && Closed(t, m.next.channel, boot)
    ensures m.next.activeBoot != Some(boot) && m.next.mode == Sequence.Versioned
    ensures Closed(Apply(t, m).1, m.next.channel, boot)
  {
    hide Apply, OutboxAfter, ValidMutation, CursorRefused;
    CommitFacts(t, m);
    var current := t.states[m.next.channel];
    if CursorChanged(current, m.next) { AcceptedChange(t, current, m.next); }
  }

  // A channel that is versioned after a commit was accepted in that epoch, or was in it before.
  lemma CommittedEnters(t: Tables, m: Mutation)
    requires Commits(t, m) && m.next.activeBoot.Some? && m.next.sequence.Some? && m.next.mode == Sequence.Versioned
    ensures Holds(Apply(t, m).1, m.next.channel, m.next.activeBoot.value, m.next.sequence.value)
  {
    hide Apply, OutboxAfter, ValidMutation, CursorRefused;
    CommitFacts(t, m);
  }

  // ---------------------------------------------------------------- every step

  // Other steps leave the cursor of the channel alone; no step takes a retired pair away.
  predicate SourceStays(before: Tables, after: Tables, channel: string) {
    before.retired <= after.retired &&
    (channel in before.states ==>
       channel in after.states &&
       var s, s' := before.states[channel], after.states[channel];
       s'.sensor == s.sensor && s'.mode == s.mode && s'.activeBoot == s.activeBoot && s'.sequence == s.sequence)
  }

  lemma {:induction false} EnrolledStays(t: Tables, topology: seq<Bootstrap>, channel: string)
    ensures EnrollAll(t, topology).Enrolled? ==> SourceStays(t, EnrollAll(t, topology).tables, channel)
  {
    hide Announces, Insertable, StateInsertable;
    if topology != [] {
      EnrolledStays(t, topology[..|topology| - 1], channel);
      var e := EnrollAll(t, topology[..|topology| - 1]);
      if e.Enrolled? { EnrollOneStays(e, topology[|topology| - 1], channel); }
    }
  }

  lemma EnrollOneStays(e: Enrollment, b: Bootstrap, channel: string)
    requires e.Enrolled?
    ensures EnrollOne(e, b).Enrolled? ==> SourceStays(e.tables, EnrollOne(e, b).tables, channel)
  {
    hide Announces, Insertable;
  }

  predicate CommitsOn(t: Tables, step: Step, channel: string) {
    step.Mutate? && Commits(t, step.m) && step.m.next.channel == channel
  }

  lemma OtherSteps(t: Tables, step: Step, channel: string)
    requires !CommitsOn(t, step, channel)
    ensures SourceStays(t, TablesAfter(t, step), channel)
  {
    if step.Boot? {
      hide EnrollAll, ValidTopology;
      EnrolledStays(t, step.topology, channel);
    } else if step.Mutate? {
      hide Apply, OutboxAfter, ValidMutation, CursorRefused;
      if Commits(t, step.m) { CommitFacts(t, step.m); } else { NoCommitNoChange(t, step.m); }
    } else {
      hide TablesAfter;
      MarksKeepIntents(t, step);
    }
  }

  lemma StepKeepsRetired(t: Tables, step: Step)
    ensures t.retired <= TablesAfter(t, step).retired
  {
    if step.Mutate? && Commits(t, step.m) {
      hide Apply, OutboxAfter, ValidMutation, CursorRefused;
      CommitFacts(t, step.m);
    } else {
      hide TablesAfter, Apply;
      OtherSteps(t, step, "");
    }
  }

  // An epoch that a channel is in stays its epoch until a commit carries another boot id, and is closed then.
  lemma StepKeepsEpoch(t: Tables, step: Step, channel: string, boot: string, counter: nat)
    requires Holds(t, channel, boot, counter) || Closed(t, channel, boot)
    ensures var after := TablesAfter(t, step);
            Holds(after, channel, boot, counter) || Closed(after, channel, boot)
    ensures Closed(t, channel, boot) || (CommitsOn(t, step, channel) && step.m.next.activeBoot != Some(boot)) ==>
              Closed(TablesAfter(t, step), channel, boot)
  {
    if CommitsOn(t, step, channel) {
      hide Apply, Commits;
      if Holds(t, channel, boot, counter) { CommittedHolds(t, step.m, boot, counter); } else { CommittedClosed(t, step.m, boot); }
    } else {
      hide TablesAfter, CommitsOn;
      OtherSteps(t, step, channel);
    }
  }

  // ---------------------------------------------------------------- every run

  lemma {:induction false} RunKeepsEpoch(before: seq<Step>, after: seq<Step>, channel: string, boot: string, counter: nat)
    requires var t := Run(EMPTY, before).tables; Holds(t, channel, boot, counter) || Closed(t, channel, boot)
    ensures var t, t' := Run(EMPTY, before).tables, Run(EMPTY, before + after).tables;
            (Holds(t', channel, boot, counter) || Closed(t', channel, boot)) &&
            (Closed(t, channel, boot) ==> Closed(t', channel, boot)) && t.retired <= t'.retired
  {
    hide TablesAfter, Holds, Closed;
    if after == [] {
      assert before + after == before;
    } else {
      var n := |after| - 1;
      assert (before + after)[..|before + after| - 1] == before + after[..n];
      RunKeepsEpoch(before, after[..n], channel, boot, counter);
      StepKeepsEpoch(Run(EMPTY, before + after[..n]).tables, after[n], channel, boot, counter);
      StepKeepsRetired(Run(EMPTY, before + after[..n]).tables, after[n]);
    }
  }

  /** No step of a run takes a retired pair of sensor and boot id away. */
  lemma {:induction false} RetiredPairsStay(before: seq<Step>, after: seq<Step>)
    ensures Run(EMPTY, before).tables.retired <= Run(EMPTY, before + after).tables.retired
  {
    hide TablesAfter;
    if after == [] {
      assert before + after == before;
    } else {
      var n := |after| - 1;
      assert (before + after)[..|before + after| - 1] == before + after[..n];
      RetiredPairsStay(before, after[..n]);
      StepKeepsRetired(Run(EMPTY, before + after[..n]).tables, after[n]);
    }
  }

  // Step i commits this boot id and counter for the channel.
  predicate CommitsFrame(steps: seq<Step>, i: nat, channel: string, boot: string, counter: nat) {
    CommitsAt(steps, i) && steps[i].m.next.channel == channel && steps[i].m.next.mode == Sequence.Versioned &&
    steps[i].m.next.activeBoot == Some(boot) && steps[i].m.next.sequence == Some(counter)
  }

  lemma EpochAt(steps: seq<Step>, i: nat, j: nat, channel: string, boot: string, counter: nat)
    requires i < j <= |steps| && CommitsFrame(steps, i, channel, boot, counter)
    ensures var t := Run(EMPTY, steps[..j]).tables; Holds(t, channel, boot, counter) || Closed(t, channel, boot)
  {
    hide Run, Exec, Apply, Holds, Closed;
    CommittedEnters(Run(EMPTY, steps[..i]).tables, steps[i].m);
    RunOne(EMPTY, steps, i);
    ExecMutates(Run(EMPTY, steps[..i]), steps[i].m);
    assert steps[..i + 1] + steps[i + 1..j] == steps[..j];
    RunKeepsEpoch(steps[..i + 1], steps[i + 1..j], channel, boot, counter);
  }

  /**
    After a commit that carries a boot id and a counter, every later commit of the channel is
    versioned, and one that changes the cursor under the same boot id carries a higher counter.
  */
  lemma {:induction false} CountersRise(steps: seq<Step>, i: nat, j: nat, channel: string, boot: string, counter: nat)
    requires i < j && CommitsFrame(steps, i, channel, boot, counter)
    requires CommitsAt(steps, j) && steps[j].m.next.channel == channel
    ensures var next, t := steps[j].m.next, Run(EMPTY, steps[..j]).tables;
            next.mode == Sequence.Versioned && channel in t.states &&
            (next.activeBoot == Some(boot) && CursorChanged(t.states[channel], next) ==>
               next.sequence.Some? && counter < next.sequence.value)
  {
    hide Run, Apply, CursorChanged;
    EpochAt(steps, i, j, channel, boot, counter);
    var t := Run(EMPTY, steps[..j]).tables;
    if Holds(t, channel, boot, counter) {
      CommittedHolds(t, steps[j].m, boot, counter);
    } else {
      CommittedClosed(t, steps[j].m, boot);
    }
  }

  /** Once another boot id has replaced it, no later commit of the channel carries the boot id, with whatever counter. */
  lemma {:induction false} ReplacedBootNeverReturns(steps: seq<Step>, i: nat, k: nat, j: nat, channel: string, boot: string,
                                                    counter: nat)
    requires i < k < j && CommitsFrame(steps, i, channel, boot, counter)
    requires CommitsAt(steps, k) && steps[k].m.next.channel == channel && steps[k].m.next.activeBoot != Some(boot)
    requires CommitsAt(steps, j) && steps[j].m.next.channel == channel
    ensures steps[j].m.next.activeBoot != Some(boot)
    ensures channel in Run(EMPTY, steps[..j]).tables.states
    ensures (Run(EMPTY, steps[..j]).tables.states[channel].sensor, boot) in Run(EMPTY, steps[..j]).tables.retired
  {
    hide Run, Exec, Apply, TablesAfter, Holds;
    EpochAt(steps, i, k, channel, boot, counter);
    var t := Run(EMPTY, steps[..k]).tables;
    StepKeepsEpoch(t, steps[k], channel, boot, counter);
    RunOne(EMPTY, steps, k);
    assert Closed(Run(EMPTY, steps[..k + 1]).tables, channel, boot) by { ExecTables(Run(EMPTY, steps[..k]), steps[k]); }
    assert steps[..k + 1] + steps[k + 1..j] == steps[..j];
    RunKeepsEpoch(steps[..k + 1], steps[k + 1..j], channel, boot, counter);
    CommittedClosed(Run(EMPTY, steps[..j]).tables, steps[j].m, boot);
  }

  lemma ExecTables(w: World, step: Step)
    ensures Exec(w, step).tables == TablesAfter(w.tables, step)
  {
    hide TablesAfter, BaseOf;
  }
}
