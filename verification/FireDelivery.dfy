/**
  What repeats and late messages do to the fire store: repeating the latest mutation or the
  bootstrap, acknowledgements that come late, and when each of them is harmless.
*/
module FireDelivery {
  import opened Options
  import opened FireStore
  import opened FireRuns
  import Sequence = SensorSequence

  // ---------------------------------------------------------------- repeating a mutation

  // The mutation is the last one of its channel: its state stands and its deliveries are recorded.
  predicate Latest(t: Tables, m: Mutation) {
    ValidMutation(m) && m.next.channel in t.states && SameState(t.states[m.next.channel], m.next) &&
    (IsTransition(m) ==> Recorded(t.outbox, m.retained.value) && Recorded(t.outbox, m.lifecycle.value))
  }

  lemma LatestIsIdempotent(t: Tables, m: Mutation)
    requires Latest(t, m)
    ensures Apply(t, m) == (Outcome(Idempotent, m.next.revision), t)
  {
    hide ValidMutation, OutboxAfter, CursorRefused, RetiredAfter, Recorded;
  }

  lemma CommittedIsLatest(w: World, m: Mutation)
    requires Invariant(w) && Commits(w.tables, m)
    ensures Latest(Apply(w.tables, m).1, m)
  {
    hide Invariant, Apply, CursorRefused, RetiredAfter, Delivered, RowsOk;
    CommitFacts(w.tables, m);
    if IsTransition(m) {
      InvariantRows(w);
      TransitionRows(w.tables, w.base, m);
    }
  }

  // A delivery that another channel's transition cannot touch.
  lemma RecordedStays(t: Tables, t': Tables, m: Mutation, d: Delivery)
    requires Transitioned(t, t', m) && Recorded(t.outbox, d) && d.intent.channel != m.next.channel
    ensures Recorded(t'.outbox, d)
  {
  }

  lemma OtherMutationKeepsLatest(w: World, other: Mutation, m: Mutation)
    requires Invariant(w) && Latest(w.tables, m)
    requires Commits(w.tables, other) ==> other.next.channel != m.next.channel
    ensures Latest(Apply(w.tables, other).1, m)
  {
    hide Invariant, Apply, CursorRefused, RetiredAfter, Delivered, RowsOk, Transitioned, Recorded;
    if Commits(w.tables, other) {
      CommitFacts(w.tables, other);
      if IsTransition(other) {
        InvariantRows(w);
        TransitionRows(w.tables, w.base, other);
        if IsTransition(m) {
          RecordedStays(w.tables, Apply(w.tables, other).1, other, m.retained.value);
          RecordedStays(w.tables, Apply(w.tables, other).1, other, m.lifecycle.value);
        }
      }
    } else {
      NoCommitNoChange(w.tables, other);
    }
  }

  // Bootstraps only add rows.
  predicate Extends(before: Tables, after: Tables) {
    (forall c :: c in before.states ==> c in after.states && after.states[c] == before.states[c]) &&
    (forall k :: k in before.outbox ==> k in after.outbox && after.outbox[k] == before.outbox[k])
  }

  lemma {:induction false} EnrollExtends(t: Tables, topology: seq<Bootstrap>)
    ensures EnrollAll(t, topology).Enrolled? ==> Extends(t, EnrollAll(t, topology).tables)
  {
    hide StateInsertable, Announces;
    if topology != [] { EnrollExtends(t, topology[..|topology| - 1]); }
  }

  lemma BootExtends(t: Tables, topology: seq<Bootstrap>)
    ensures Extends(t, Initialize(t, topology).1)
  {
    hide EnrollAll, ValidTopology;
    EnrollExtends(t, topology);
  }

  lemma ExtendsKeepsLatest(t: Tables, t': Tables, m: Mutation)
    requires Extends(t, t') && Latest(t, m)
    ensures Latest(t', m)
  {
    hide ValidMutation;
  }

  lemma IntentsKeepLatest(t: Tables, t': Tables, m: Mutation)
    requires t'.states == t.states && SameIntents(t.outbox, t'.outbox) && Latest(t, m)
    ensures Latest(t', m)
  {
    hide ValidMutation;
  }

  // The step does not commit another mutation of this channel.
  predicate Spares(t: Tables, step: Step, channel: string) {
    step.Mutate? && Commits(t, step.m) ==> step.m.next.channel != channel
  }

  lemma StepKeepsLatest(w: World, step: Step, m: Mutation)
    requires Invariant(w) && Latest(w.tables, m) && Spares(w.tables, step, m.next.channel)
    ensures Latest(Exec(w, step).tables, m)
  {
    hide Invariant, Latest, Apply, Initialize, BaseOf;
    if step.Boot? {
      BootExtends(w.tables, step.topology);
      ExtendsKeepsLatest(w.tables, Initialize(w.tables, step.topology).1, m);
    } else if step.Mutate? {
      OtherMutationKeepsLatest(w, step.m, m);
    } else {
      hide TablesAfter;
      MarksKeepIntents(w.tables, step);
      IntentsKeepLatest(w.tables, TablesAfter(w.tables, step), m);
    }
  }

  ghost predicate SparedRun(before: seq<Step>, after: seq<Step>, channel: string) {
    forall i :: 0 <= i < |after| ==> Spares(Run(EMPTY, before + after[..i]).tables, after[i], channel)
  }

  lemma {:induction false} RunKeepsLatest(before: seq<Step>, after: seq<Step>, m: Mutation)
    requires Latest(Run(EMPTY, before).tables, m) && SparedRun(before, after, m.next.channel)
    ensures Latest(Run(EMPTY, before + after).tables, m)
  {
    hide Exec, Invariant, Latest, Spares;
    if after == [] {
      assert before + after == before;
    } else {
      var n := |after| - 1;
      assert (before + after)[..|before + after| - 1] == before + after[..n];
      forall i | 0 <= i < n ensures Spares(Run(EMPTY, before + after[..n][..i]).tables, after[..n][i], m.next.channel) {
        assert after[..n][..i] == after[..i];
      }
      RunKeepsLatest(before, after[..n], m);
      ReachableIsSafe(before + after[..n]);
      StepKeepsLatest(Run(EMPTY, before + after[..n]), after[n], m);
    }
  }

  /**
    Repeating the latest committed mutation of a channel, after any delivery marks, bootstraps
    and mutations of other channels, is Idempotent and changes no row.
  */
  lemma {:induction false} RepeatIsIdempotent(before: seq<Step>, m: Mutation, after: seq<Step>)
    requires Commits(Run(EMPTY, before).tables, m)
    requires SparedRun(before + [Mutate(m)], after, m.next.channel)
    ensures var t := Run(EMPTY, before + [Mutate(m)] + after).tables;
            Apply(t, m) == (Outcome(Idempotent, m.next.revision), t)
  {
    hide Run, Exec, Invariant, Latest, SparedRun, Apply;
    var w := Run(EMPTY, before);
    ReachableIsSafe(before);
    CommittedIsLatest(w, m);
    assert (before + [Mutate(m)])[..|before|] == before && (before + [Mutate(m)])[..|before| + 1] == before + [Mutate(m)];
    RunOne(EMPTY, before + [Mutate(m)], |before|);
    ExecMutates(w, m);
    RunKeepsLatest(before + [Mutate(m)], after, m);
    LatestIsIdempotent(Run(EMPTY, before + [Mutate(m)] + after).tables, m);
  }

  // ---------------------------------------------------------------- acknowledgements

  // The acknowledged revision never runs ahead of the row, and an acknowledged row was acknowledged at its own.
  predicate Honest(d: Delivery) {
    (d.progress.acked.Some? ==> d.progress.acked.value <= d.intent.revision) &&
    (d.progress.state == Acked ==> d.progress.acked == Some(d.intent.revision))
  }

  predicate AllHonest(outbox: Outbox) {
    forall k :: k in outbox ==> Honest(outbox[k])
  }

  lemma MarksStayHonest(t: Tables, step: Step)
    requires !step.Boot? && !step.Mutate? && AllHonest(t.outbox)
    ensures AllHonest(TablesAfter(t, step).outbox)
  {
  }

  lemma {:induction false} EnrollHonest(t: Tables, topology: seq<Bootstrap>)
    requires AllHonest(t.outbox) && forall i :: 0 <= i < |topology| ==> ValidBootstrap(topology[i])
    ensures EnrollAll(t, topology).Enrolled? ==> AllHonest(EnrollAll(t, topology).tables.outbox)
  {
    hide StateInsertable, Insertable;
    if topology != [] {
      var n := |topology| - 1;
      EnrollHonest(t, topology[..n]);
      assert ValidBootstrap(topology[n]);
    }
  }

  // The retained row that a transition rewrites is Pending again and keeps an older acknowledgement.
  lemma RenewedIsHonest(row: Delivery, d: Delivery)
    requires Honest(row) && row.intent.revision <= d.intent.revision
    ensures Honest(Renewed(row, d))
  {
  }

  /**
    A committed transition stores its lifecycle delivery with the progress it was given, so it keeps
    every row honest exactly when that delivery is honest.
  */
  lemma TransitionIsAsHonestAsItsDelivery(w: World, m: Mutation)
    requires Invariant(w) && Commits(w.tables, m) && IsTransition(m) && AllHonest(w.tables.outbox)
    ensures AllHonest(Apply(w.tables, m).1.outbox) <==> Honest(m.lifecycle.value)
  {
    hide Invariant, Apply, CursorRefused, RetiredAfter, RowsOk, Honest, ValidDelivery;
    CommitFacts(w.tables, m);
    InvariantRows(w);
    TransitionRows(w.tables, w.base, m);
    RetainedIsCurrent(w, m);
    var retained, lifecycle := m.retained.value, m.lifecycle.value;
    var before, after := w.tables.outbox, Apply(w.tables, m).1.outbox;
    assert after[lifecycle.intent.key] == lifecycle &&
           after[retained.intent.key] == Renewed(before[retained.intent.key], retained)
      by { hide Transitioned; StoredRows(w.tables, m); }
    RenewedIsHonest(before[retained.intent.key], retained);
  }

  lemma StoredRows(t: Tables, m: Mutation)
    requires Commits(t, m) && IsTransition(m) && m.lifecycle.value.intent.key !in t.outbox
    ensures m.retained.value.intent.key in t.outbox
    ensures var outbox := Apply(t, m).1.outbox;
            m.lifecycle.value.intent.key in outbox && m.retained.value.intent.key in outbox &&
            outbox[m.lifecycle.value.intent.key] == m.lifecycle.value &&
            outbox[m.retained.value.intent.key] == Renewed(t.outbox[m.retained.value.intent.key], m.retained.value)
  {
    hide Apply, Insertable, CursorRefused, RetiredAfter, Renewed;
    CommitFacts(t, m);
  }

  predicate HonestStep(step: Step) {
    step.Mutate? && step.m.lifecycle.Some? ==> Honest(step.m.lifecycle.value)
  }

  lemma StepStaysHonest(w: World, step: Step)
    requires Invariant(w) && AllHonest(w.tables.outbox) && HonestStep(step)
    ensures AllHonest(Exec(w, step).tables.outbox)
  {
    hide Invariant, Apply, EnrollAll, BaseOf, AllHonest, ValidBootstrap;
    if step.Boot? {
      if ValidTopology(step.topology) { EnrollHonest(w.tables, step.topology); }
    } else if step.Mutate? {
      if Commits(w.tables, step.m) {
        hide ValidMutation, CursorRefused, RetiredAfter;
        CommitFacts(w.tables, step.m);
        if IsTransition(step.m) { TransitionIsAsHonestAsItsDelivery(w, step.m); }
      } else {
        NoCommitNoChange(w.tables, step.m);
      }
    } else {
      MarksStayHonest(w.tables, step);
    }
  }

  /** In a run whose mutations bring honest deliveries, no row is ever acknowledged beyond its own revision. */
  lemma {:induction false} AcknowledgementsStayHonest(steps: seq<Step>)
    requires forall i :: 0 <= i < |steps| ==> HonestStep(steps[i])
    ensures AllHonest(Run(EMPTY, steps).tables.outbox)
  {
    hide Exec, Invariant, HonestStep;
    if steps != [] {
      var n := |steps| - 1;
      AcknowledgementsStayHonest(steps[..n]);
      ReachableIsSafe(steps[..n]);
      StepStaysHonest(Run(EMPTY, steps[..n]), steps[n]);
    }
  }

  // What a row remembers as acknowledged does not fall.
  predicate AckedGrows(before: Outbox, after: Outbox) {
    forall k :: k in before ==>
      k in after && (before[k].progress.acked.Some? ==>
        after[k].progress.acked.Some? && before[k].progress.acked.value <= after[k].progress.acked.value)
  }

  lemma MarksGrowAcked(t: Tables, step: Step)
    requires !step.Boot? && !step.Mutate? && AllHonest(t.outbox)
    ensures AckedGrows(t.outbox, TablesAfter(t, step).outbox)
  {
  }

  lemma TransitionGrowsAcked(w: World, m: Mutation)
    requires Invariant(w) && Commits(w.tables, m)
    ensures AckedGrows(w.tables.outbox, Apply(w.tables, m).1.outbox)
  {
    hide Invariant, Apply, CursorRefused, RetiredAfter, RowsOk, ValidMutation;
    CommitFacts(w.tables, m);
    if IsTransition(m) {
      InvariantRows(w);
      TransitionRows(w.tables, w.base, m);
      hide Transitioned;
      assert m.lifecycle.value.intent.key !in w.tables.outbox by { FreshKey(w.tables, m); }
      StoredRows(w.tables, m);
      OtherRowsStay(w.tables, m);
    }
  }

  lemma FreshKey(t: Tables, m: Mutation)
    requires Transitioned(t, Apply(t, m).1, m)
    ensures m.lifecycle.value.intent.key !in t.outbox
  {
    hide Apply;
  }

  lemma OtherRowsStay(t: Tables, m: Mutation)
    requires Transitioned(t, Apply(t, m).1, m)
    ensures forall k :: k in t.outbox && k != m.retained.value.intent.key ==>
      k in Apply(t, m).1.outbox && Apply(t, m).1.outbox[k] == t.outbox[k]
  {
    hide Apply;
  }

  lemma StepGrowsAcked(w: World, step: Step)
    requires Invariant(w) && AllHonest(w.tables.outbox)
    ensures AckedGrows(w.tables.outbox, Exec(w, step).tables.outbox)
  {
    hide Invariant, Apply, Initialize, BaseOf, AllHonest;
    if step.Boot? {
      BootExtends(w.tables, step.topology);
    } else if step.Mutate? {
      if Commits(w.tables, step.m) { TransitionGrowsAcked(w, step.m); } else { NoCommitNoChange(w.tables, step.m); }
    } else {
      hide AckedGrows;
      MarksGrowAcked(w.tables, step);
    }
  }

  /** In such a run the acknowledged revision of a row never falls, whatever transitions, retries and restarts come. */
  lemma {:induction false} AckedNeverFalls(before: seq<Step>, after: seq<Step>)
    requires forall i :: 0 <= i < |before + after| ==> HonestStep((before + after)[i])
    ensures AckedGrows(Run(EMPTY, before).tables.outbox, Run(EMPTY, before + after).tables.outbox)
  {
    hide Exec, Invariant, HonestStep, AllHonest;
    if after == [] {
      assert before + after == before;
    } else {
      var n := |after| - 1;
      var steps := before + after[..n];
      assert (before + after)[..|before + after| - 1] == steps;
      forall i | 0 <= i < |steps| ensures HonestStep(steps[i]) { assert steps[i] == (before + after)[i]; }
      AckedNeverFalls(before, after[..n]);
      ReachableIsSafe(steps);
      AcknowledgementsStayHonest(steps);
      StepGrowsAcked(Run(EMPTY, steps), after[n]);
    }
  }

  /**
    An acknowledgement that arrives after its row moved on to a newer revision changes nothing, at
    any later point of the run.
  */
  lemma LateAckIsIgnored(before: seq<Step>, after: seq<Step>, key: string, revision: nat, now: string)
    requires var outbox := Run(EMPTY, before).tables.outbox;
             key in outbox && revision < outbox[key].intent.revision
    ensures Exec(Run(EMPTY, before + after), Settle(key, revision, now)).tables == Run(EMPTY, before + after).tables
  {
    hide Run;
    RunGrows(before, after);
  }

  // ---------------------------------------------------------------- repeating the bootstrap

  // The configured channels are the durable ones, each with a retained row under the configured key.
  predicate Configured(t: Tables, topology: seq<Bootstrap>) {
    ValidTopology(topology) && |t.states| == |topology| && |RetainedKeys(t.outbox)| == |topology| &&
    forall i :: 0 <= i < |topology| ==> MappedIn(t, topology[i])
  }

  predicate MappedIn(t: Tables, b: Bootstrap) {
    b.initial.channel in t.states && t.states[b.initial.channel].sensor == b.initial.sensor &&
    t.states[b.initial.channel].topic == b.initial.topic && b.retained.intent.key in t.outbox
  }

  predicate Agrees(t: Tables, b: Bootstrap) {
    b.initial.channel in t.states && b.retained.intent.key in t.outbox &&
    Announces(t.outbox[b.retained.intent.key], t.states[b.initial.channel])
  }

  lemma {:induction false} EnrollConfigured(t: Tables, topology: seq<Bootstrap>)
    requires forall i :: 0 <= i < |topology| ==> MappedIn(t, topology[i])
    ensures var e := EnrollAll(t, topology);
            if forall i :: 0 <= i < |topology| ==> Agrees(t, topology[i])
            then e.Enrolled? && e.tables == t && !e.inserted
            else e == Refused(Outcome(Failed, 0))
  {
    hide Announces;
    if topology != [] {
      var n := |topology| - 1;
      EnrollConfigured(t, topology[..n]);
      assert forall i :: 0 <= i < n ==> topology[..n][i] == topology[i];
      assert MappedIn(t, topology[n]);
    }
  }

  /** Bootstrapping a configured store again is Idempotent exactly while every retained row announces its state. */
  lemma RebootIsIdempotentIff(t: Tables, topology: seq<Bootstrap>)
    requires Configured(t, topology)
    ensures Initialize(t, topology).1 == t
    ensures (forall i :: 0 <= i < |topology| ==> Agrees(t, topology[i])) <==>
            Initialize(t, topology).0.code == Idempotent
    ensures !(forall i :: 0 <= i < |topology| ==> Agrees(t, topology[i])) ==>
            Initialize(t, topology).0 == Outcome(Failed, 0)
  {
    hide ValidTopology, EnrollAll, Agrees, MappedIn;
    EnrollConfigured(t, topology);
  }

  // What the store does not check: the deliveries describe the state, and a cursor-only mutation keeps the last event.
  predicate WellFormed(t: Tables, m: Mutation)
    requires m.next.channel in t.states
  {
    if IsTransition(m) then
      m.retained.value.intent.sensor == m.next.sensor && m.retained.value.intent.event == m.next.lastEvent &&
      m.retained.value.intent.topic == m.next.topic
    else m.next.lastEvent == t.states[m.next.channel].lastEvent
  }

  lemma MarksKeepAgreement(t: Tables, t': Tables, topology: seq<Bootstrap>)
    requires Configured(t, topology) && t'.states == t.states && SameIntents(t.outbox, t'.outbox)
    ensures Configured(t', topology)
    ensures forall i :: 0 <= i < |topology| && Agrees(t, topology[i]) ==> Agrees(t', topology[i])
  {
    hide ValidTopology;
    assert RetainedKeys(t'.outbox) == RetainedKeys(t.outbox);
    assert forall i :: 0 <= i < |topology| ==> MappedIn(t, topology[i]);
  }

  // The keys of the retained rows survive a transition.
  lemma TransitionKeepsConfiguration(t: Tables, t': Tables, m: Mutation, topology: seq<Bootstrap>)
    requires Configured(t, topology) && Transitioned(t, t', m)
    requires t.states[m.next.channel].sensor == m.next.sensor && t.states[m.next.channel].topic == m.next.topic
    ensures Configured(t', topology)
  {
    hide ValidTopology;
    assert RetainedKeys(t'.outbox) == RetainedKeys(t.outbox);
    assert t'.states.Keys == t.states.Keys;
    SameSize(t.states, t'.states);
    forall i | 0 <= i < |topology| ensures MappedIn(t', topology[i]) { assert MappedIn(t, topology[i]); }
  }

  lemma SameSize(before: map<string, State>, after: map<string, State>)
    requires after.Keys == before.Keys
    ensures |after| == |before|
  {
    assert |after.Keys| == |after| && |before.Keys| == |before|;
  }

  // What one committed mutation does to a channel whose retained row announced its state.
  lemma TransitionAgreement(w: World, t': Tables, m: Mutation, b: Bootstrap)
    requires Invariant(w) && Transitioned(w.tables, t', m) && Agrees(w.tables, b)
    requires w.tables.states[m.next.channel].topic == m.next.topic
    requires m.next.channel == w.tables.states[m.next.channel].channel
    requires w.tables.states[b.initial.channel].channel == b.initial.channel
    ensures b.initial.channel == m.next.channel ==> (Agrees(t', b) <==> WellFormed(w.tables, m))
    ensures b.initial.channel != m.next.channel ==> Agrees(t', b)
  {
    assert OneRetained(w.tables.outbox) by { InvariantRows(w); }
    hide Invariant;
  }

  lemma CursorOnlyAgreement(t: Tables, t': Tables, m: Mutation, b: Bootstrap)
    requires m.next.channel in t.states && !IsTransition(m)
    requires t' == t.(states := t.states[m.next.channel := m.next], retired := t'.retired)
    requires Agrees(t, b)
    requires var current := t.states[m.next.channel];
             m.next.revision == current.revision && m.next.sensor == current.sensor && m.next.topic == current.topic &&
             m.next.channel == current.channel
    requires t.states[b.initial.channel].channel == b.initial.channel
    ensures b.initial.channel == m.next.channel ==> (Agrees(t', b) <==> WellFormed(t, m))
    ensures b.initial.channel != m.next.channel ==> Agrees(t', b)
  {
  }

  lemma ChannelNames(w: World, c: string)
    requires Invariant(w) && c in w.tables.states
    ensures w.tables.states[c].channel == c
  {
    InvariantRows(w);
    hide OneRetained, OneLifecycle, LifecycleRange, BaseOk, Invariant;
  }

  lemma CommitAgreement(w: World, m: Mutation, b: Bootstrap)
    requires Invariant(w) && Commits(w.tables, m) && Agrees(w.tables, b) && m.next.channel in w.tables.states
    ensures b.initial.channel == m.next.channel ==> (Agrees(Apply(w.tables, m).1, b) <==> WellFormed(w.tables, m))
    ensures b.initial.channel != m.next.channel ==> Agrees(Apply(w.tables, m).1, b)
  {
    hide Invariant, Apply, CursorRefused, RetiredAfter, RowsOk, Transitioned, Delivered, Announces;
    CommitFacts(w.tables, m);
    ChannelNames(w, m.next.channel);
    ChannelNames(w, b.initial.channel);
    hide WellFormed, Agrees;
    if IsTransition(m) {
      InvariantRows(w);
      TransitionRows(w.tables, w.base, m);
      TransitionAgreement(w, Apply(w.tables, m).1, m, b);
    } else {
      CursorOnlyAgreement(w.tables, Apply(w.tables, m).1, m, b);
    }
  }

  lemma CommitKeepsConfiguration(w: World, m: Mutation, topology: seq<Bootstrap>)
    requires Invariant(w) && Commits(w.tables, m) && Configured(w.tables, topology)
    ensures m.next.channel in w.tables.states && Configured(Apply(w.tables, m).1, topology)
  {
    hide Invariant, Apply, CursorRefused, RetiredAfter, RowsOk, Transitioned, Delivered, ValidTopology;
    CommitFacts(w.tables, m);
    var t' := Apply(w.tables, m).1;
    if IsTransition(m) {
      hide Configured;
      InvariantRows(w);
      TransitionRows(w.tables, w.base, m);
      TransitionKeepsConfiguration(w.tables, t', m, topology);
    } else {
      assert t'.states.Keys == w.tables.states.Keys && t'.outbox == w.tables.outbox;
      SameSize(w.tables.states, t'.states);
      forall i | 0 <= i < |topology| ensures MappedIn(t', topology[i]) { assert MappedIn(w.tables, topology[i]); }
    }
  }

  predicate AllAgree(t: Tables, topology: seq<Bootstrap>) {
    forall i :: 0 <= i < |topology| ==> Agrees(t, topology[i])
  }

  /**
    After one committed mutation of a configured store whose retained rows all announce their
    states, the next bootstrap is Idempotent exactly when the mutation was well formed.
  */
  lemma RebootAfterCommit(w: World, m: Mutation, topology: seq<Bootstrap>)
    requires Invariant(w) && Configured(w.tables, topology) && AllAgree(w.tables, topology) && Commits(w.tables, m)
    requires exists i :: 0 <= i < |topology| && topology[i].initial.channel == m.next.channel
    ensures m.next.channel in w.tables.states
    ensures Initialize(Apply(w.tables, m).1, topology).0.code == Idempotent <==> WellFormed(w.tables, m)
  {
    hide Invariant, Apply, Agrees, WellFormed, Initialize, Configured;
    CommitKeepsConfiguration(w, m, topology);
    forall i | 0 <= i < |topology|
      ensures topology[i].initial.channel == m.next.channel ==>
                (Agrees(Apply(w.tables, m).1, topology[i]) <==> WellFormed(w.tables, m))
      ensures topology[i].initial.channel != m.next.channel ==> Agrees(Apply(w.tables, m).1, topology[i])
    {
      assert Agrees(w.tables, topology[i]);
      CommitAgreement(w, m, topology[i]);
    }
    RebootIsIdempotentIff(Apply(w.tables, m).1, topology);
  }

  // The step is no bootstrap, and a mutation that it commits is well formed.
  predicate Careful(t: Tables, step: Step) {
    !step.Boot? &&
    (step.Mutate? && Commits(t, step.m) && step.m.next.channel in t.states ==> WellFormed(t, step.m))
  }

  lemma StepKeepsAgreement(w: World, step: Step, topology: seq<Bootstrap>)
    requires Invariant(w) && Configured(w.tables, topology) && AllAgree(w.tables, topology) && Careful(w.tables, step)
    ensures Configured(Exec(w, step).tables, topology) && AllAgree(Exec(w, step).tables, topology)
  {
    hide Invariant, Apply, Agrees, WellFormed, Configured, BaseOf;
    if step.Mutate? {
      if Commits(w.tables, step.m) {
        CommitKeepsConfiguration(w, step.m, topology);
        forall i | 0 <= i < |topology| ensures Agrees(Apply(w.tables, step.m).1, topology[i]) {
          assert Agrees(w.tables, topology[i]);
          CommitAgreement(w, step.m, topology[i]);
        }
      } else {
        NoCommitNoChange(w.tables, step.m);
      }
    } else {
      hide TablesAfter;
      MarksKeepIntents(w.tables, step);
      MarksKeepAgreement(w.tables, TablesAfter(w.tables, step), topology);
    }
  }

  ghost predicate CarefulRun(before: seq<Step>, after: seq<Step>) {
    forall i :: 0 <= i < |after| ==> Careful(Run(EMPTY, before + after[..i]).tables, after[i])
  }

  lemma {:induction false} RunKeepsAgreement(before: seq<Step>, after: seq<Step>, topology: seq<Bootstrap>)
    requires var t := Run(EMPTY, before).tables; Configured(t, topology) && AllAgree(t, topology)
    requires CarefulRun(before, after)
    ensures var t := Run(EMPTY, before + after).tables; Configured(t, topology) && AllAgree(t, topology)
  {
    hide Exec, Invariant, Configured, AllAgree, Careful;
    if after == [] {
      assert before + after == before;
    } else {
      var n := |after| - 1;
      assert (before + after)[..|before + after| - 1] == before + after[..n];
      forall i | 0 <= i < n ensures Careful(Run(EMPTY, before + after[..n][..i]).tables, after[..n][i]) {
        assert after[..n][..i] == after[..i];
      }
      RunKeepsAgreement(before, after[..n], topology);
      ReachableIsSafe(before + after[..n]);
      StepKeepsAgreement(Run(EMPTY, before + after[..n]), after[n], topology);
    }
  }

  lemma {:induction false} EnrollAgrees(t: Tables, topology: seq<Bootstrap>)
    requires forall i :: 0 <= i < |topology| ==> ValidBootstrap(topology[i])
    ensures var e := EnrollAll(t, topology);
            e.Enrolled? ==>
              forall i :: 0 <= i < |topology| ==> MappedIn(e.tables, topology[i]) && Agrees(e.tables, topology[i])
  {
    hide Insertable, StateInsertable, Announces, ValidBootstrap;
    if topology != [] {
      var n := |topology| - 1;
      EnrollAgrees(t, topology[..n]);
      var e := EnrollAll(t, topology[..n]);
      if e.Enrolled? && EnrollOne(e, topology[n]).Enrolled? {
        var after := EnrollOne(e, topology[n]).tables;
        OneAgrees(e, topology[n]);
        forall i | 0 <= i < n ensures MappedIn(after, topology[i]) && Agrees(after, topology[i]) {
          assert topology[..n][i] == topology[i];
          ExtendsAgrees(e.tables, after, topology[i]);
        }
      }
    }
  }

  lemma OneAgrees(e: Enrollment, b: Bootstrap)
    requires e.Enrolled? && EnrollOne(e, b).Enrolled? && ValidBootstrap(b)
    ensures Extends(e.tables, EnrollOne(e, b).tables)
    ensures MappedIn(EnrollOne(e, b).tables, b) && Agrees(EnrollOne(e, b).tables, b)
  {
    hide ValidDelivery;
  }

  lemma ExtendsAgrees(t: Tables, t': Tables, b: Bootstrap)
    requires Extends(t, t') && MappedIn(t, b) && Agrees(t, b)
    ensures MappedIn(t', b) && Agrees(t', b)
  {
    hide Announces;
  }

  /**
    After a successful bootstrap and any run of marks and well-formed mutations, bootstrapping the
    same topology again is Idempotent and changes nothing.
  */
  lemma {:induction false} RebootStaysIdempotent(before: seq<Step>, topology: seq<Bootstrap>, after: seq<Step>)
    requires Initialize(Run(EMPTY, before).tables, topology).0.code in {Committed, Idempotent}
    requires CarefulRun(before + [Boot(topology)], after)
    ensures var t := Run(EMPTY, before + [Boot(topology)] + after).tables;
            Initialize(t, topology).0.code == Idempotent && Initialize(t, topology).1 == t
  {
    hide Run, Exec, Configured, AllAgree, CarefulRun, Initialize;
    var w, booted := Run(EMPTY, before), before + [Boot(topology)];
    assert booted[..|before|] == before && booted[..|before| + 1] == booted;
    RunOne(EMPTY, booted, |before|);
    BootConfigures(w.tables, topology);
    assert Run(EMPTY, booted).tables == Initialize(w.tables, topology).1 by { ExecBoots(w, topology); }
    RunKeepsAgreement(booted, after, topology);
    var t := Run(EMPTY, booted + after).tables;
    assert Configured(t, topology) && AllAgree(t, topology);
    RebootOf(t, topology);
  }

  lemma ExecBoots(w: World, topology: seq<Bootstrap>)
    ensures Exec(w, Boot(topology)).tables == Initialize(w.tables, topology).1
  {
    hide Initialize;
  }

  lemma RebootOf(t: Tables, topology: seq<Bootstrap>)
    requires Configured(t, topology) && AllAgree(t, topology)
    ensures Initialize(t, topology).0.code == Idempotent && Initialize(t, topology).1 == t
  {
    hide Initialize, Configured, Agrees;
    RebootIsIdempotentIff(t, topology);
  }

  lemma BootConfigures(t: Tables, topology: seq<Bootstrap>)
    requires Initialize(t, topology).0.code in {Committed, Idempotent}
    ensures var t' := Initialize(t, topology).1; Configured(t', topology) && AllAgree(t', topology)
  {
    hide ValidBootstrap, MappedIn, Agrees;
    RefusalCodes(t, topology);
    if ValidTopology(topology) {
      EnrollAgrees(t, topology);
      EnrolledUnchanged(t, topology);
    }
  }

  lemma {:induction false} RefusalCodes(t: Tables, topology: seq<Bootstrap>)
    ensures var e := EnrollAll(t, topology); e.Refused? ==> e.outcome.code in {Conflict, Failed}
  {
    hide Insertable, StateInsertable, Announces;
    if topology != [] { RefusalCodes(t, topology[..|topology| - 1]); }
  }

  lemma {:induction false} EnrolledUnchanged(t: Tables, topology: seq<Bootstrap>)
    ensures var e := EnrollAll(t, topology); e.Enrolled? && !e.inserted ==> e.tables == t
  {
    hide Insertable, StateInsertable, Announces;
    if topology != [] { EnrolledUnchanged(t, topology[..|topology| - 1]); }
  }

  // ---------------------------------------------------------------- what the store does not check

  // A store with the one channel of this bootstrap.
  function Alone(b: Bootstrap): Tables {
    Tables(map[b.initial.channel := b.initial], map[b.retained.intent.key := b.retained], {})
  }

  lemma AloneIsBootstrapped(b: Bootstrap)
    requires ValidBootstrap(b)
    ensures Initialize(EMPTY.tables, [b]) == (Outcome(Committed, b.initial.revision), Alone(b))
    ensures Configured(Alone(b), [b])
  {
    assert [b][..0] == [];
    assert EnrollAll(EMPTY.tables, [b]) == EnrollOne(Enrolled(EMPTY.tables, false, 0), b);
    assert RetainedKeys(Alone(b).outbox) == {b.retained.intent.key};
    assert Alone(b).states.Keys == {b.initial.channel};
  }

  /**
    A mutation that only moves the cursor may name another last event: the store commits it, and
    from then on the same bootstrap fails.
  */
  lemma ForeignEventBreaksReboot(b: Bootstrap, event: string)
    requires ValidBootstrap(b) && event != "" && event != b.initial.lastEvent
    ensures var m := Mutation(b.initial.revision, b.initial.(lastEvent := event), None, None);
            Commits(Alone(b), m) && Initialize(Apply(Alone(b), m).1, [b]).0 == Outcome(Failed, 0)
  {
    var m := Mutation(b.initial.revision, b.initial.(lastEvent := event), None, None);
    assert ValidMutation(m) by { hide ValidDelivery; }
    var t' := Apply(Alone(b), m).1;
    assert t' == Alone(b).(states := map[b.initial.channel := m.next]);
    AloneIsBootstrapped(b);
    hide Apply, ValidBootstrap, ValidDelivery, ValidTopology, Initialize;
    assert Configured(t', [b]) by {
      assert t'.states.Keys == Alone(b).states.Keys;
      SameSize(Alone(b).states, t'.states);
    }
    assert !Agrees(t', [b][0]) by { BootstrapAnnounces(b); }
    RebootIsIdempotentIff(t', [b]);
  }

  lemma BootstrapAnnounces(b: Bootstrap)
    requires ValidBootstrap(b)
    ensures Announces(b.retained, b.initial)
  {
  }

  // The first transition of a channel, with a lifecycle delivery that claims an acknowledged revision.
  function FirstTransition(b: Bootstrap, acked: nat): Mutation {
    var r, s, d := b.initial.revision + 1, b.initial, b.retained;
    var lifecycle := Delivery(d.intent.(key := d.intent.key + "/1", sink := LifecycleEvent, revision := r, retain := false),
                              d.progress.(acked := Some(acked)));
    Mutation(s.revision, s.(revision := r), Some(d.(intent := d.intent.(revision := r))), Some(lifecycle))
  }

  /** A lifecycle delivery that arrives with an acknowledged revision beyond its own is stored as it is. */
  lemma ForeignAcknowledgementIsStored(b: Bootstrap, acked: nat)
    requires ValidBootstrap(b) && b.initial.revision < MAX_REVISION && b.initial.revision + 1 < acked <= MAX_REVISION
    ensures var m := FirstTransition(b, acked); Commits(Alone(b), m) && !AllHonest(Apply(Alone(b), m).1.outbox)
  {
    var m := FirstTransition(b, acked);
    var retained, lifecycle := m.retained.value, m.lifecycle.value;
    assert |lifecycle.intent.key| != |retained.intent.key|;
    assert ValidMutation(m);
    assert Delivered(Alone(b).outbox, retained, lifecycle, m.next.channel).Some?;
    var after := Apply(Alone(b), m).1.outbox;
    assert lifecycle.intent.key in after && !Honest(after[lifecycle.intent.key]);
  }

  // ---------------------------------------------------------------- the boot id lookup

  /** Loading only the boot id that the mutation carries gives the decision of the full set of retired boot ids. */
  lemma {:induction false} OneBootIdSuffices(t: Tables, current: State, next: State)
    ensures Sequence.Evaluate(CursorOf(current, LookedUp(t.retired, next)), FactOf(next)) ==
            Sequence.Evaluate(CursorOf(current, RetiredOf(t.retired, next.sensor)), FactOf(next))
  {
    var full := CursorOf(current, RetiredOf(t.retired, next.sensor));
    Sequence.OneRetiredBootSuffices(full, FactOf(next));
    if next.activeBoot.Some? && (next.sensor, next.activeBoot.value) in t.retired {
      assert next.activeBoot.value in full.retired;
    }
    assert LookedUp(t.retired, next) ==
           if next.activeBoot.Some? then full.retired * {next.activeBoot.value} else {};
  }
}
