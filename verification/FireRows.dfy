/**
  What every state and every delivery of the fire store satisfies in every run, and how a channel
  comes into being.
*/
module FireRows {
  import opened FireStore
  import opened FireRuns
  import Sequence = SensorSequence

  predicate CompleteState(s: State) {
    s.channel != "" && s.sensor != "" && s.topic != "" && s.lastEvent != "" && s.signal != "" && s.updatedAt != "" &&
    s.revision <= 0x7FFF_FFFF_FFFF_FFFF
  }

  predicate CompleteIntent(i: Intent) {
    i.key != "" && i.logical != "" && i.sensor != "" && i.channel != "" && i.event != "" && i.alarm != "" &&
    0 < i.revision <= 0x7FFF_FFFF_FFFF_FFFF && i.topic != "" && i.payload != "" && i.qos == 1 &&
    (i.retain <==> i.sink == RetainedState)
  }

  predicate StatesComplete(t: Tables) {
    forall c :: c in t.states ==> CompleteState(t.states[c])
  }

  predicate IntentsComplete(t: Tables) {
    forall k :: k in t.outbox ==> CompleteIntent(t.outbox[k].intent)
  }

  // No two channels share a sensor or a topic.
  predicate ChannelsApart(t: Tables) {
    forall c, e :: c in t.states && e in t.states && c != e ==>
      t.states[c].sensor != t.states[e].sensor && t.states[c].topic != t.states[e].topic
  }

  // No two rows of one sink share their logical id, and no two lifecycle rows their event.
  predicate RowsApart(t: Tables) {
    forall k, l :: k in t.outbox && l in t.outbox && k != l && t.outbox[k].intent.sink == t.outbox[l].intent.sink ==>
      t.outbox[k].intent.logical != t.outbox[l].intent.logical &&
      (t.outbox[k].intent.sink == LifecycleEvent ==> t.outbox[k].intent.event != t.outbox[l].intent.event)
  }

  predicate RowsAreGood(t: Tables) {
    StatesComplete(t) && IntentsComplete(t) && ChannelsApart(t) && RowsApart(t)
  }

  // ---------------------------------------------------------------- steps

  lemma InsertedApart(t: Tables, d: Delivery)
    requires RowsApart(t) && Insertable(t.outbox, d)
    ensures RowsApart(t.(outbox := t.outbox[d.intent.key := d]))
  {
  }

  lemma RenewedApart(t: Tables, d: Delivery, channel: string)
    requires RowsApart(t) && IntentsComplete(t) && ValidDelivery(d) && RetainedMatches(t.outbox, d, channel)
    ensures var after := t.(outbox := t.outbox[d.intent.key := Renewed(t.outbox[d.intent.key], d)]);
            RowsApart(after) && IntentsComplete(after)
  {
    hide ValidDelivery;
    assert CompleteIntent(d.intent) by { ValidIsComplete(d); }
  }

  lemma ValidIsComplete(d: Delivery)
    requires ValidDelivery(d)
    ensures CompleteIntent(d.intent)
  {
  }

  lemma DeliveredIsGood(t: Tables, retained: Delivery, lifecycle: Delivery, channel: string)
    requires RowsApart(t) && IntentsComplete(t) && ValidDelivery(retained) && ValidDelivery(lifecycle)
    requires Delivered(t.outbox, retained, lifecycle, channel).Some?
    ensures var after := t.(outbox := Delivered(t.outbox, retained, lifecycle, channel).value);
            RowsApart(after) && IntentsComplete(after)
  {
    hide RowsApart, ValidDelivery, Insertable, CompleteIntent;
    RenewedApart(t, retained, channel);
    ValidIsComplete(lifecycle);
    var renewed := t.(outbox := t.outbox[retained.intent.key := Renewed(t.outbox[retained.intent.key], retained)]);
    if lifecycle.intent.key !in renewed.outbox { InsertedApart(renewed, lifecycle); }
  }

  lemma MutationIsGood(t: Tables, m: Mutation)
    requires RowsAreGood(t)
    ensures RowsAreGood(Apply(t, m).1)
  {
    hide Apply, Delivered, CursorRefused, RetiredAfter, RowsApart, IntentsComplete;
    if Commits(t, m) {
      CommitFacts(t, m);
      if IsTransition(m) { DeliveredIsGood(t, m.retained.value, m.lifecycle.value, m.next.channel); }
      SameRowsGood(t.(outbox := OutboxAfter(t, m).value), Apply(t, m).1);
    } else {
      NoCommitNoChange(t, m);
    }
  }

  lemma SameRowsGood(t: Tables, t': Tables)
    requires t'.outbox == t.outbox && RowsApart(t) && IntentsComplete(t)
    ensures RowsApart(t') && IntentsComplete(t')
  {
  }

  lemma NewStateIsGood(t: Tables, s: State)
    requires StatesComplete(t) && ChannelsApart(t) && CompleteState(s) && StateInsertable(t.states, s)
    ensures var after := t.(states := t.states[s.channel := s]); StatesComplete(after) && ChannelsApart(after)
  {
    hide CompleteState;
  }

  lemma NewRowIsGood(t: Tables, d: Delivery)
    requires RowsApart(t) && IntentsComplete(t) && CompleteIntent(d.intent) && Insertable(t.outbox, d)
    ensures var after := t.(outbox := t.outbox[d.intent.key := d]); RowsApart(after) && IntentsComplete(after)
  {
    hide RowsApart, Insertable, CompleteIntent;
    InsertedApart(t, d);
  }

  lemma EnrollOneIsGood(e: Enrollment, b: Bootstrap)
    requires e.Enrolled? && RowsAreGood(e.tables) && ValidBootstrap(b) && EnrollOne(e, b).Enrolled?
    ensures RowsAreGood(EnrollOne(e, b).tables)
  {
    hide RowsApart, IntentsComplete, StatesComplete, ChannelsApart, Insertable, StateInsertable, Announces;
    if b.initial.channel !in e.tables.states {
      ValidBootstrapIsComplete(b);
      NewStateIsGood(e.tables, b.initial);
      NewRowIsGood(e.tables, b.retained);
      var t, after := e.tables, EnrollOne(e, b).tables;
      SameRowsGood(t.(outbox := t.outbox[b.retained.intent.key := b.retained]), after);
      SameStatesGood(t.(states := t.states[b.initial.channel := b.initial]), after);
    }
  }

  lemma ValidBootstrapIsComplete(b: Bootstrap)
    requires ValidBootstrap(b)
    ensures CompleteState(b.initial) && CompleteIntent(b.retained.intent)
  {
  }

  lemma SameStatesGood(t: Tables, t': Tables)
    requires t'.states == t.states && StatesComplete(t) && ChannelsApart(t)
    ensures StatesComplete(t') && ChannelsApart(t')
  {
  }

  lemma {:induction false} EnrollAllIsGood(t: Tables, topology: seq<Bootstrap>)
    requires RowsAreGood(t) && forall i :: 0 <= i < |topology| ==> ValidBootstrap(topology[i])
    ensures EnrollAll(t, topology).Enrolled? ==> RowsAreGood(EnrollAll(t, topology).tables)
  {
    hide RowsAreGood, EnrollOne, ValidBootstrap;
    if topology != [] {
      var n := |topology| - 1;
      EnrollAllIsGood(t, topology[..n]);
      var e := EnrollAll(t, topology[..n]);
      if e.Enrolled? {
        if EnrollOne(e, topology[n]).Enrolled? { EnrollOneIsGood(e, topology[n]); }
      } else {
        RefusedOne(e, topology[n]);
      }
    }
  }

  lemma StepIsGood(t: Tables, step: Step)
    requires RowsAreGood(t)
    ensures RowsAreGood(TablesAfter(t, step))
  {
    if step.Boot? {
      hide RowsAreGood, EnrollAll, ValidBootstrap;
      if ValidTopology(step.topology) { EnrollAllIsGood(t, step.topology); }
    } else if step.Mutate? {
      hide RowsAreGood, Apply;
      MutationIsGood(t, step.m);
    } else {
      hide TablesAfter;
      MarksKeepIntents(t, step);
    }
  }

  /**
    In every run all states and deliveries are complete; no two channels share a sensor or a topic, no
    two rows of a sink a logical id, and no two lifecycle rows an event.
  */
  lemma {:induction false} RowsStayGood(steps: seq<Step>)
    ensures var t := Run(EMPTY, steps).tables;
            StatesComplete(t) && IntentsComplete(t) && ChannelsApart(t) && RowsApart(t)
  {
    if steps != [] {
      hide TablesAfter, RowsAreGood;
      RowsStayGood(steps[..|steps| - 1]);
      assert RowsAreGood(Run(EMPTY, steps[..|steps| - 1]).tables) by { GoodAgain(Run(EMPTY, steps[..|steps| - 1]).tables); }
      StepIsGood(Run(EMPTY, steps[..|steps| - 1]).tables, steps[|steps| - 1]);
      GoodMeans(Run(EMPTY, steps).tables);
    }
  }

  lemma GoodAgain(t: Tables)
    requires StatesComplete(t) && IntentsComplete(t) && ChannelsApart(t) && RowsApart(t)
    ensures RowsAreGood(t)
  {
  }

  lemma GoodMeans(t: Tables)
    requires RowsAreGood(t)
    ensures StatesComplete(t) && IntentsComplete(t) && ChannelsApart(t) && RowsApart(t)
  {
  }

  // ---------------------------------------------------------------- how a channel begins

  // One entry of a topology, as the configuration gives it.
  predicate Begins(b: Bootstrap, c: string, t: Tables) {
    c in t.states && b.initial.channel == c && t.states[c] == b.initial && b.initial.lifecycle == Resolved &&
    b.initial.alarm == "" && b.initial.mode == Sequence.Unseen && b.initial.activeBoot.None? && b.initial.sequence.None? &&
    0 < b.initial.revision && b.retained.intent.key in t.outbox && t.outbox[b.retained.intent.key] == b.retained &&
    b.retained.progress.state == Pending && b.retained.progress.acked.None? && b.retained.progress.attempts == 0 &&
    b.retained.intent.sink == RetainedState && b.retained.intent.channel == c &&
    b.retained.intent.sensor == b.initial.sensor && b.retained.intent.event == b.initial.lastEvent &&
    b.retained.intent.revision == b.initial.revision && b.retained.intent.topic == b.initial.topic
  }

  lemma {:induction false} EnrolledBegins(t: Tables, topology: seq<Bootstrap>, c: string)
    requires forall i :: 0 <= i < |topology| ==> ValidBootstrap(topology[i])
    requires EnrollAll(t, topology).Enrolled? && c in EnrollAll(t, topology).tables.states && c !in t.states
    ensures exists i :: 0 <= i < |topology| && Begins(topology[i], c, EnrollAll(t, topology).tables)
  {
    if topology == [] {
    } else {
      hide Begins, ValidBootstrap, EnrollOne;
      var n := |topology| - 1;
      var e, b := EnrollAll(t, topology[..n]), topology[n];
      if e.Refused? {
        RefusedOne(e, b);
      } else if c in e.tables.states {
        EnrolledBegins(t, topology[..n], c);
        var i :| 0 <= i < n && Begins(topology[..n][i], c, e.tables);
        BeginsStays(e, b, topology[i], c);
      } else {
        NewBegins(e, b, c);
      }
    }
  }

  lemma BeginsStays(e: Enrollment, b: Bootstrap, earlier: Bootstrap, c: string)
    requires e.Enrolled? && EnrollOne(e, b).Enrolled? && Begins(earlier, c, e.tables)
    ensures Begins(earlier, c, EnrollOne(e, b).tables)
  {
    hide StateInsertable, Announces;
  }

  lemma NewBegins(e: Enrollment, b: Bootstrap, c: string)
    requires e.Enrolled? && EnrollOne(e, b).Enrolled? && ValidBootstrap(b)
    requires c !in e.tables.states && c in EnrollOne(e, b).tables.states
    ensures Begins(b, c, EnrollOne(e, b).tables)
  {
    hide StateInsertable, Insertable;
  }

  /** Only a bootstrap makes a channel: resolved, without an alarm and unseen, with a retained delivery that announces it. */
  lemma {:induction false} ChannelBegins(w: World, step: Step, c: string)
    requires Invariant(w) && c !in w.tables.states && c in Exec(w, step).tables.states
    ensures step.Boot? && exists i :: 0 <= i < |step.topology| && Begins(step.topology[i], c, Exec(w, step).tables)
  {
    if step.Boot? {
      hide Invariant, EnrollAll, Begins, ValidBootstrap, BaseOf;
      if ValidTopology(step.topology) { EnrolledBegins(w.tables, step.topology, c); }
    } else if step.Mutate? {
      hide Invariant, Apply;
      MutationKeeps(w, step.m);
    } else {
      hide Invariant, TablesAfter;
      MarksKeepIntents(w.tables, step);
    }
  }

  // ---------------------------------------------------------------- the answers of a bootstrap

  // A channel that exists agrees with its configuration, and its retained delivery with it.
  predicate Agreed(t: Tables, b: Bootstrap) {
    b.initial.channel in t.states &&
    t.states[b.initial.channel].sensor == b.initial.sensor && t.states[b.initial.channel].topic == b.initial.topic &&
    b.retained.intent.key in t.outbox && Announces(t.outbox[b.retained.intent.key], t.states[b.initial.channel])
  }

  function RevisionIn(t: Tables, b: Bootstrap): nat {
    if b.initial.channel in t.states then t.states[b.initial.channel].revision else 0
  }

  lemma {:induction false} AllAgreed(t: Tables, topology: seq<Bootstrap>)
    requires forall i :: 0 <= i < |topology| ==> Agreed(t, topology[i])
    ensures EnrollAll(t, topology).Enrolled? && EnrollAll(t, topology).tables == t && !EnrollAll(t, topology).inserted
    ensures forall i :: 0 <= i < |topology| ==> RevisionIn(t, topology[i]) <= EnrollAll(t, topology).highest
    ensures topology != [] ==>
      exists i :: 0 <= i < |topology| && RevisionIn(t, topology[i]) == EnrollAll(t, topology).highest
  {
    hide Announces;
    if topology != [] {
      var n := |topology| - 1;
      AllAgreed(t, topology[..n]);
      assert topology[..n + 1] == topology && Agreed(t, topology[n]);
      var before := EnrollAll(t, topology[..n]).highest;
      if n > 0 && before >= RevisionIn(t, topology[n]) {
        var i :| 0 <= i < n && RevisionIn(t, topology[..n][i]) == before;
        assert topology[i] == topology[..n][i];
      } else {
        assert RevisionIn(t, topology[n]) == EnrollAll(t, topology).highest;
      }
      forall i | 0 <= i < |topology| ensures RevisionIn(t, topology[i]) <= EnrollAll(t, topology).highest {
        if i < n { assert RevisionIn(t, topology[..n][i]) <= before; }
      }
    }
  }

  /**
    A bootstrap that finds every configured channel as configured, and nothing else, is Idempotent and
    answers the highest revision; one with an invalid entry, or with two entries that share a channel, a
    sensor, a topic or a retained key, is Invalid. Only Committed writes anything.
  */
  lemma {:induction false} BootstrapAnswers(t: Tables, topology: seq<Bootstrap>)
    ensures var (outcome, after) := Initialize(t, topology);
            (outcome.code == Invalid <==>
               topology == [] || (exists i :: 0 <= i < |topology| && !ValidBootstrap(topology[i])) ||
               exists i, j :: 0 <= i < j < |topology| && Clash(topology[i], topology[j])) &&
            (outcome.code != Committed ==> after == t) &&
            (outcome.code != Invalid && (forall i :: 0 <= i < |topology| ==> Agreed(t, topology[i])) &&
             |t.states| == |topology| && |RetainedKeys(t.outbox)| == |topology| ==>
               outcome.code == Idempotent && after == t &&
               (exists i :: 0 <= i < |topology| && RevisionIn(t, topology[i]) == outcome.revision) &&
               forall j :: 0 <= j < |topology| ==> RevisionIn(t, topology[j]) <= outcome.revision)
  {
    hide ValidBootstrap, EnrollAll, Agreed;
    NeverInvalid(t, topology);
    if forall i :: 0 <= i < |topology| ==> Agreed(t, topology[i]) { AllAgreed(t, topology); }
  }

  predicate Clash(a: Bootstrap, b: Bootstrap) {
    a.initial.channel == b.initial.channel || a.initial.sensor == b.initial.sensor || a.initial.topic == b.initial.topic ||
    a.retained.intent.key == b.retained.intent.key
  }

  lemma {:induction false} NeverInvalid(t: Tables, topology: seq<Bootstrap>)
    ensures EnrollAll(t, topology).Refused? ==>
              EnrollAll(t, topology).outcome.code == Conflict || EnrollAll(t, topology).outcome.code == Failed
  {
    if topology != [] {
      hide Insertable, StateInsertable, Announces;
      NeverInvalid(t, topology[..|topology| - 1]);
    }
  }
}
