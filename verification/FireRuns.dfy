/**
  Runs of the fire store: any interleaving of bootstraps, mutations and delivery marks. The
  history keeps, per channel, the revision it was created at.
*/
module FireRuns {
  import opened FireStore

  datatype World = World(tables: Tables, base: map<string, nat>)

  datatype Step =
    | Boot(topology: seq<Bootstrap>)
    | Mutate(m: Mutation)
    | SetInFlight(key: string, revision: nat, now: string)
    | SetPending(key: string, revision: nat, error: string, now: string)
    | Settle(key: string, revision: nat, now: string)
    | Restart(now: string)

  function BaseOf(base: map<string, nat>, t: Tables): map<string, nat> {
    map c | c in t.states :: if c in base then base[c] else t.states[c].revision
  }

  function TablesAfter(t: Tables, step: Step): Tables {
    match step
    case Boot(topology) => Initialize(t, topology).1
    case Mutate(m) => Apply(t, m).1
    case SetInFlight(key, revision, now) => t.(outbox := MarkInFlight(t.outbox, key, revision, now))
    case SetPending(key, revision, error, now) => t.(outbox := MarkPending(t.outbox, key, revision, error, now))
    case Settle(key, revision, now) => t.(outbox := Acknowledge(t.outbox, key, revision, now))
    case Restart(now) => t.(outbox := ResetInFlight(t.outbox, now))
  }

  function Exec(w: World, step: Step): World {
    World(TablesAfter(w.tables, step), BaseOf(w.base, TablesAfter(w.tables, step)))
  }

  function Run(w: World, steps: seq<Step>): World {
    if steps == [] then w else Exec(Run(w, steps[..|steps| - 1]), steps[|steps| - 1])
  }

  const EMPTY: World := World(Tables(map[], map[], {}), map[])

  lemma {:induction false} RunSplit(w: World, before: seq<Step>, after: seq<Step>)
    ensures Run(w, before + after) == Run(Run(w, before), after)
  {
    hide Exec;
    if after == [] {
      assert before + after == before;
    } else {
      var n := |after| - 1;
      RunSplit(w, before, after[..n]);
      assert (before + after)[..|before + after| - 1] == before + after[..n];
    }
  }

  lemma RunOne(w: World, steps: seq<Step>, k: nat)
    requires k < |steps|
    ensures Run(w, steps[..k + 1]) == Exec(Run(w, steps[..k]), steps[k])
  {
    hide Exec;
    assert steps[..k + 1][..k] == steps[..k];
  }

  // ---------------------------------------------------------------- the invariant

  predicate RetainedRow(outbox: Outbox, k: string, c: string, r: nat) {
    k in outbox && outbox[k].intent.sink == RetainedState && outbox[k].intent.channel == c &&
    outbox[k].intent.revision == r
  }

  predicate LifecycleRow(outbox: Outbox, k: string, c: string, r: nat) {
    k in outbox && outbox[k].intent.sink == LifecycleEvent && outbox[k].intent.channel == c &&
    outbox[k].intent.revision == r
  }

  predicate KeysOk(t: Tables) {
    (forall c :: c in t.states ==> t.states[c].channel == c) &&
    forall k :: k in t.outbox ==> t.outbox[k].intent.key == k && t.outbox[k].intent.channel in t.states
  }

  predicate OneRetained(outbox: Outbox) {
    forall k, l :: k in outbox && l in outbox && outbox[k].intent.sink == RetainedState
                   && outbox[l].intent.sink == RetainedState && outbox[k].intent.channel == outbox[l].intent.channel
      ==> k == l
  }

  predicate OneLifecycle(outbox: Outbox) {
    forall k, l :: k in outbox && l in outbox && outbox[k].intent.sink == LifecycleEvent
                   && outbox[l].intent.sink == LifecycleEvent && outbox[k].intent.channel == outbox[l].intent.channel
                   && outbox[k].intent.revision == outbox[l].intent.revision
      ==> k == l
  }

  // Lifecycle rows lie between the revision a channel was created at and its current one.
  predicate LifecycleRange(t: Tables, base: map<string, nat>) {
    forall k :: k in t.outbox && t.outbox[k].intent.sink == LifecycleEvent ==>
      var c, r := t.outbox[k].intent.channel, t.outbox[k].intent.revision;
      c in t.states && c in base && base[c] < r <= t.states[c].revision
  }

  ghost predicate HasRetained(outbox: Outbox, c: string, r: nat) {
    exists k :: RetainedRow(outbox, k, c, r)
  }

  ghost predicate HasLifecycle(outbox: Outbox, c: string, r: nat) {
    exists k :: LifecycleRow(outbox, k, c, r)
  }

  ghost predicate ChannelOk(outbox: Outbox, c: string, from: nat, to: nat) {
    HasRetained(outbox, c, to) && forall r :: from < r <= to ==> HasLifecycle(outbox, c, r)
  }

  ghost predicate ChannelsOk(t: Tables, base: map<string, nat>) {
    forall c :: c in t.states ==> c in base && ChannelOk(t.outbox, c, base[c], t.states[c].revision)
  }

  predicate BaseOk(t: Tables, base: map<string, nat>) {
    forall c :: c in t.states ==> c in base && base[c] <= t.states[c].revision
  }

  ghost predicate RowsOk(t: Tables, base: map<string, nat>) {
    BaseOk(t, base) && KeysOk(t) && OneRetained(t.outbox) && OneLifecycle(t.outbox) && LifecycleRange(t, base)
  }

  ghost predicate Invariant(w: World) {
    RowsOk(w.tables, w.base) && ChannelsOk(w.tables, w.base) && w.base.Keys == w.tables.states.Keys
  }

  // ---------------------------------------------------------------- steps that leave every intent alone

  predicate SameIntents(before: Outbox, after: Outbox) {
    after.Keys == before.Keys && forall k :: k in before ==> after[k].intent == before[k].intent
  }

  lemma MarksKeepIntents(t: Tables, step: Step)
    requires !step.Boot? && !step.Mutate?
    ensures TablesAfter(t, step) == t.(outbox := TablesAfter(t, step).outbox)
    ensures SameIntents(t.outbox, TablesAfter(t, step).outbox)
  {
  }

  lemma SameBase(base: map<string, nat>, t: Tables)
    requires base.Keys == t.states.Keys
    ensures BaseOf(base, t) == base
  {
  }

  // Lifecycle rows stay what they are.
  predicate LifecyclesStay(before: Outbox, after: Outbox) {
    forall k :: k in before && before[k].intent.sink == LifecycleEvent ==> k in after && after[k].intent == before[k].intent
  }

  lemma LifecycleCarries(before: Outbox, after: Outbox, c: string, r: nat)
    requires LifecyclesStay(before, after) && HasLifecycle(before, c, r)
    ensures HasLifecycle(after, c, r)
  {
    var k :| LifecycleRow(before, k, c, r);
    assert LifecycleRow(after, k, c, r);
  }

  lemma ChannelCarries(before: Outbox, after: Outbox, c: string, from: nat, to: nat)
    requires LifecyclesStay(before, after) && ChannelOk(before, c, from, to) && HasRetained(after, c, to)
    ensures ChannelOk(after, c, from, to)
  {
    hide HasRetained, HasLifecycle, LifecyclesStay;
    forall r | from < r <= to ensures HasLifecycle(after, c, r) {
      assert HasLifecycle(before, c, r);
      LifecycleCarries(before, after, c, r);
    }
  }

  lemma RetainedCarries(before: Outbox, after: Outbox, c: string, r: nat)
    requires HasRetained(before, c, r)
    requires forall k :: RetainedRow(before, k, c, r) ==> k in after && after[k].intent == before[k].intent
    ensures HasRetained(after, c, r)
  {
    var k :| RetainedRow(before, k, c, r);
    assert RetainedRow(after, k, c, r);
  }

  lemma IntentsCarry(w: World, outbox: Outbox)
    requires Invariant(w) && SameIntents(w.tables.outbox, outbox)
    ensures Invariant(World(w.tables.(outbox := outbox), w.base))
  {
    var before, t := w.tables.outbox, w.tables.(outbox := outbox);
    hide HasRetained, HasLifecycle, ChannelOk;
    assert RowsOk(t, w.base) by { hide ChannelsOk; }
    forall c | c in t.states ensures ChannelOk(outbox, c, w.base[c], t.states[c].revision) {
      ChannelRetained(before, c, w.base[c], t.states[c].revision);
      RetainedCarries(before, outbox, c, t.states[c].revision);
      ChannelCarries(before, outbox, c, w.base[c], t.states[c].revision);
    }
  }

  lemma ChannelRetained(outbox: Outbox, c: string, from: nat, to: nat)
    requires ChannelOk(outbox, c, from, to)
    ensures HasRetained(outbox, c, to)
  {
    hide HasRetained, HasLifecycle;
  }

  // ---------------------------------------------------------------- mutations

  predicate Commits(t: Tables, m: Mutation) {
    Apply(t, m).0.code == Committed
  }

  lemma CommitFacts(t: Tables, m: Mutation)
    requires Commits(t, m)
    ensures ValidMutation(m) && m.next.channel in t.states && OutboxAfter(t, m).Some?
    ensures var current := t.states[m.next.channel];
            current.revision == m.expected && current.sensor == m.next.sensor && current.topic == m.next.topic &&
            !CursorRefused(t, current, m.next) &&
            Apply(t, m) == (Outcome(Committed, m.next.revision),
                            Tables(t.states[m.next.channel := m.next], OutboxAfter(t, m).value,
                                   RetiredAfter(t, current, m.next)))
  {
    hide ValidMutation, OutboxAfter, CursorRefused, RetiredAfter, SameState, Recorded;
  }

  lemma NoCommitNoChange(t: Tables, m: Mutation)
    requires !Commits(t, m)
    ensures Apply(t, m).1 == t
  {
    hide ValidMutation, OutboxAfter, CursorRefused, RetiredAfter, SameState, Recorded;
  }

  // What a committed transition does to the outbox: its retained row is rewritten and its lifecycle row is there.
  lemma DeliveredRows(outbox: Outbox, m: Mutation)
    requires ValidMutation(m) && IsTransition(m)
    requires Delivered(outbox, m.retained.value, m.lifecycle.value, m.next.channel).Some?
    ensures var after := Delivered(outbox, m.retained.value, m.lifecycle.value, m.next.channel).value;
            var retained, lifecycle := m.retained.value.intent, m.lifecycle.value.intent;
            retained.key in outbox && outbox[retained.key].intent.sink == RetainedState &&
            outbox[retained.key].intent.channel == m.next.channel && lifecycle.key != retained.key &&
            outbox[retained.key].intent.logical == retained.logical &&
            after.Keys == outbox.Keys + {lifecycle.key} &&
            (outbox[retained.key].intent.key == retained.key ==> after[retained.key].intent == retained) &&
            after[lifecycle.key].intent == lifecycle &&
            (lifecycle.key in outbox ==> outbox[lifecycle.key].intent == lifecycle) &&
            forall k :: k in outbox && k != retained.key ==> after[k] == outbox[k]
  {
    hide Insertable;
  }

  // The tables around a committed transition.
  predicate Transitioned(t: Tables, after: Tables, m: Mutation) {
    IsTransition(m) &&
    var retained, lifecycle := m.retained.value.intent, m.lifecycle.value.intent;
    m.next.channel in t.states && t.states[m.next.channel].revision + 1 == m.next.revision &&
    retained.sink == RetainedState && retained.channel == m.next.channel && retained.revision == m.next.revision &&
    lifecycle.sink == LifecycleEvent && lifecycle.channel == m.next.channel && lifecycle.revision == m.next.revision &&
    retained.key in t.outbox && lifecycle.key !in t.outbox &&
    t.outbox[retained.key].intent.sink == RetainedState &&
    t.outbox[retained.key].intent.channel == m.next.channel &&
    t.outbox[retained.key].intent.logical == retained.logical &&
    after.states == t.states[m.next.channel := m.next] &&
    after.outbox.Keys == t.outbox.Keys + {lifecycle.key} &&
    after.outbox[retained.key].intent == retained && after.outbox[lifecycle.key].intent == lifecycle &&
    forall k :: k in t.outbox && k != retained.key ==> after.outbox[k] == t.outbox[k]
  }

  lemma TransitionRows(t: Tables, base: map<string, nat>, m: Mutation)
    requires RowsOk(t, base) && Commits(t, m) && IsTransition(m)
    ensures Transitioned(t, Apply(t, m).1, m)
  {
    hide Apply, Delivered, OneRetained, OneLifecycle, CursorRefused, RetiredAfter;
    CommitFacts(t, m);
    DeliveredRows(t.outbox, m);
  }

  lemma TransitionUnique(t: Tables, t': Tables, base: map<string, nat>, m: Mutation)
    requires RowsOk(t, base) && Transitioned(t, t', m)
    ensures RowsOk(t', base)
  {
    hide OneRetained, OneLifecycle, LifecycleRange, BaseOk, KeysOk, Transitioned;
    TransitionKeys(t, t', base, m);
    TransitionRanges(t, t', base, m);
    TransitionOneLifecycle(t, t', base, m);
  }

  lemma TransitionKeys(t: Tables, t': Tables, base: map<string, nat>, m: Mutation)
    requires Transitioned(t, t', m) && KeysOk(t) && OneRetained(t.outbox)
    ensures KeysOk(t') && OneRetained(t'.outbox)
  {
  }

  lemma TransitionRanges(t: Tables, t': Tables, base: map<string, nat>, m: Mutation)
    requires Transitioned(t, t', m) && LifecycleRange(t, base) && BaseOk(t, base)
    ensures LifecycleRange(t', base) && BaseOk(t', base)
  {
  }

  lemma TransitionOneLifecycle(t: Tables, t': Tables, base: map<string, nat>, m: Mutation)
    requires Transitioned(t, t', m) && LifecycleRange(t, base) && OneLifecycle(t.outbox)
    ensures OneLifecycle(t'.outbox)
  {
    var newest := m.lifecycle.value.intent.key;
    forall k | k in t'.outbox && t'.outbox[k].intent.sink == LifecycleEvent && k != newest
      ensures k in t.outbox && t'.outbox[k] == t.outbox[k] && !LifecycleRow(t'.outbox, k, m.next.channel, m.next.revision)
    {
    }
    hide Transitioned, LifecycleRange;
    assert LifecycleRow(t'.outbox, newest, m.next.channel, m.next.revision) by { NewLifecycleRow(t, t', m); }
  }

  lemma NewLifecycleRow(t: Tables, t': Tables, m: Mutation)
    requires Transitioned(t, t', m)
    ensures LifecycleRow(t'.outbox, m.lifecycle.value.intent.key, m.next.channel, m.next.revision)
  {
  }

  lemma TransitionChannels(w: World, t': Tables, m: Mutation)
    requires Invariant(w) && Transitioned(w.tables, t', m)
    ensures ChannelsOk(t', w.base)
  {
    hide RowsOk, HasRetained, HasLifecycle, ChannelOk, LifecyclesStay;
    var before, changed := w.tables.outbox, m.next.channel;
    assert LifecyclesStay(before, t'.outbox) by { TransitionedRows(w.tables, t', m, changed); }
    forall c | c in t'.states ensures ChannelOk(t'.outbox, c, w.base[c], t'.states[c].revision) {
      var r := w.tables.states[c].revision;
      TransitionedRows(w.tables, t', m, c);
      if c == changed {
        ChannelGrows(before, t'.outbox, c, w.base[c], r);
      } else {
        ChannelRetained(before, c, w.base[c], r);
        RetainedCarries(before, t'.outbox, c, r);
        ChannelCarries(before, t'.outbox, c, w.base[c], r);
      }
    }
  }

  lemma TransitionedRows(t: Tables, t': Tables, m: Mutation, c: string)
    requires Transitioned(t, t', m)
    ensures LifecyclesStay(t.outbox, t'.outbox)
    ensures c == m.next.channel ==>
      HasRetained(t'.outbox, c, m.next.revision) && HasLifecycle(t'.outbox, c, m.next.revision)
    ensures c != m.next.channel ==>
      forall k, r :: RetainedRow(t.outbox, k, c, r) ==> k in t'.outbox && t'.outbox[k].intent == t.outbox[k].intent
  {
    if c == m.next.channel {
      assert RetainedRow(t'.outbox, m.retained.value.intent.key, c, m.next.revision);
      assert LifecycleRow(t'.outbox, m.lifecycle.value.intent.key, c, m.next.revision);
    }
  }

  lemma ChannelGrows(before: Outbox, after: Outbox, c: string, from: nat, to: nat)
    requires LifecyclesStay(before, after) && ChannelOk(before, c, from, to)
    requires HasRetained(after, c, to + 1) && HasLifecycle(after, c, to + 1)
    ensures ChannelOk(after, c, from, to + 1)
  {
    hide HasRetained, HasLifecycle, LifecyclesStay;
    forall r | from < r <= to + 1 ensures HasLifecycle(after, c, r) {
      if r <= to {
        assert HasLifecycle(before, c, r);
        LifecycleCarries(before, after, c, r);
      }
    }
  }

  lemma CursorOnlyKeeps(w: World, m: Mutation)
    requires Invariant(w) && Commits(w.tables, m) && !IsTransition(m)
    ensures Invariant(World(Apply(w.tables, m).1, w.base))
  {
    hide Apply, CursorRefused, RetiredAfter, ChannelOk, OneRetained, OneLifecycle;
    CommitFacts(w.tables, m);
    assert Apply(w.tables, m).1.outbox == w.tables.outbox && m.next.revision == m.expected;
  }

  lemma InvariantRows(w: World)
    requires Invariant(w)
    ensures RowsOk(w.tables, w.base) && w.base.Keys == w.tables.states.Keys
  {
  }

  lemma InvariantFrom(w': World, w: World)
    requires RowsOk(w'.tables, w'.base) && ChannelsOk(w'.tables, w'.base)
    requires Invariant(w) && w'.base == w.base && w'.tables.states.Keys == w.tables.states.Keys
    ensures Invariant(w')
  {
    hide RowsOk, ChannelsOk;
  }

  lemma MutationKeeps(w: World, m: Mutation)
    requires Invariant(w)
    ensures Invariant(World(Apply(w.tables, m).1, w.base))
    ensures Apply(w.tables, m).1.states.Keys == w.tables.states.Keys
  {
    hide Apply, Invariant, RowsOk, ChannelsOk, Transitioned, CursorRefused, RetiredAfter, OutboxAfter, ValidMutation;
    if Commits(w.tables, m) {
      CommitFacts(w.tables, m);
      if IsTransition(m) {
        assert RowsOk(w.tables, w.base) by { InvariantRows(w); }
        var t' := Apply(w.tables, m).1;
        TransitionRows(w.tables, w.base, m);
        TransitionUnique(w.tables, t', w.base, m);
        TransitionChannels(w, t', m);
        InvariantFrom(World(t', w.base), w);
      } else {
        CursorOnlyKeeps(w, m);
      }
    } else {
      NoCommitNoChange(w.tables, m);
    }
  }

  // ---------------------------------------------------------------- bootstraps

  lemma EnrollOneKeeps(base: map<string, nat>, e: Enrollment, b: Bootstrap)
    requires e.Enrolled? && Invariant(World(e.tables, BaseOf(base, e.tables))) && ValidBootstrap(b)
    requires EnrollOne(e, b).Enrolled? && base.Keys <= e.tables.states.Keys
    ensures var t := EnrollOne(e, b).tables;
            Invariant(World(t, BaseOf(base, t))) && e.tables.states.Keys <= t.states.Keys
  {
    hide Invariant, ValidBootstrap, Announces, With, BaseOf;
    if b.initial.channel !in e.tables.states {
      assert EnrollOne(e, b).tables == With(e.tables, b) by { hide StateInsertable, Insertable; EnrolledIsWith(e, b); }
      EnrolledKeys(e, b);
      NewChannelKeeps(e.tables, base, b);
    }
  }

  function With(t: Tables, b: Bootstrap): Tables {
    t.(states := t.states[b.initial.channel := b.initial], outbox := t.outbox[b.retained.intent.key := b.retained])
  }

  lemma EnrolledIsWith(e: Enrollment, b: Bootstrap)
    requires e.Enrolled? && EnrollOne(e, b).Enrolled? && b.initial.channel !in e.tables.states
    ensures EnrollOne(e, b).tables == With(e.tables, b)
  {
    hide StateInsertable, Insertable;
  }

  lemma EnrolledKeys(e: Enrollment, b: Bootstrap)
    requires e.Enrolled? && EnrollOne(e, b).Enrolled? && b.initial.channel !in e.tables.states
    ensures b.retained.intent.key !in e.tables.outbox
    ensures With(e.tables, b).states.Keys == e.tables.states.Keys + {b.initial.channel}
  {
  }

  lemma NewChannelKeeps(t: Tables, base: map<string, nat>, b: Bootstrap)
    requires Invariant(World(t, BaseOf(base, t))) && ValidBootstrap(b) && base.Keys <= t.states.Keys
    requires b.initial.channel !in t.states && b.retained.intent.key !in t.outbox
    ensures Invariant(World(With(t, b), BaseOf(base, With(t, b))))
  {
    hide RowsOk, ChannelsOk, With, ValidBootstrap;
    NewChannelRows(t, base, b);
    NewChannelChannels(t, base, b);
  }

  lemma NewChannelChannels(t: Tables, base: map<string, nat>, b: Bootstrap)
    requires ChannelsOk(t, BaseOf(base, t)) && ValidBootstrap(b) && base.Keys <= t.states.Keys
    requires b.initial.channel !in t.states && b.retained.intent.key !in t.outbox
    ensures ChannelsOk(With(t, b), BaseOf(base, With(t, b)))
  {
    hide HasRetained, HasLifecycle, ChannelOk, LifecyclesStay, ValidBootstrap;
    var t' := With(t, b);
    NewRowStays(t.outbox, b);
    forall c | c in t'.states ensures ChannelOk(t'.outbox, c, BaseOf(base, t')[c], t'.states[c].revision) {
      if c == b.initial.channel {
        NewChannelOk(t'.outbox, b);
      } else {
        var from, to := BaseOf(base, t)[c], t.states[c].revision;
        ChannelRetained(t.outbox, c, from, to);
        RetainedCarries(t.outbox, t'.outbox, c, to);
        ChannelCarries(t.outbox, t'.outbox, c, from, to);
      }
    }
  }

  lemma NewRowStays(outbox: Outbox, b: Bootstrap)
    requires b.retained.intent.key !in outbox
    ensures LifecyclesStay(outbox, outbox[b.retained.intent.key := b.retained])
  {
  }

  lemma NewChannelOk(outbox: Outbox, b: Bootstrap)
    requires ValidBootstrap(b) && b.retained.intent.key in outbox && outbox[b.retained.intent.key] == b.retained
    ensures ChannelOk(outbox, b.initial.channel, b.initial.revision, b.initial.revision)
  {
    assert RetainedRow(outbox, b.retained.intent.key, b.initial.channel, b.initial.revision);
  }

  lemma NewChannelRows(t: Tables, base: map<string, nat>, b: Bootstrap)
    requires RowsOk(t, BaseOf(base, t)) && ValidBootstrap(b) && base.Keys <= t.states.Keys
    requires b.initial.channel !in t.states && b.retained.intent.key !in t.outbox
    ensures RowsOk(With(t, b), BaseOf(base, With(t, b)))
  {
    assert b.retained.intent.sink == RetainedState && b.retained.intent.channel == b.initial.channel;
    hide ValidBootstrap;
    hide OneRetained, OneLifecycle, LifecycleRange, BaseOk, KeysOk, With, BaseOf;
    NewChannelUnique(t, base, b);
    NewChannelRanges(t, base, b);
  }

  lemma NewChannelUnique(t: Tables, base: map<string, nat>, b: Bootstrap)
    requires KeysOk(t) && OneRetained(t.outbox) && OneLifecycle(t.outbox)
    requires b.initial.channel !in t.states && b.retained.intent.key !in t.outbox
    requires b.retained.intent.sink == RetainedState && b.retained.intent.channel == b.initial.channel
    ensures KeysOk(With(t, b)) && OneRetained(With(t, b).outbox) && OneLifecycle(With(t, b).outbox)
  {
  }

  lemma NewChannelRanges(t: Tables, base: map<string, nat>, b: Bootstrap)
    requires LifecycleRange(t, BaseOf(base, t)) && BaseOk(t, BaseOf(base, t)) && base.Keys <= t.states.Keys
    requires b.initial.channel !in t.states && b.retained.intent.key !in t.outbox
    requires b.retained.intent.sink == RetainedState
    ensures LifecycleRange(With(t, b), BaseOf(base, With(t, b))) && BaseOk(With(t, b), BaseOf(base, With(t, b)))
  {
  }

  lemma {:induction false} EnrollAllKeeps(w: World, topology: seq<Bootstrap>)
    requires Invariant(w) && forall i :: 0 <= i < |topology| ==> ValidBootstrap(topology[i])
    ensures var e := EnrollAll(w.tables, topology);
            e.Enrolled? ==>
              Invariant(World(e.tables, BaseOf(w.base, e.tables))) && w.base.Keys <= e.tables.states.Keys
  {
    assert w.base.Keys == w.tables.states.Keys by { InvariantRows(w); }
    hide Invariant, EnrollOne, BaseOf, ValidBootstrap;
    if topology == [] {
      SameBase(w.base, w.tables);
    } else {
      var n := |topology| - 1;
      EnrollAllKeeps(w, topology[..n]);
      var e := EnrollAll(w.tables, topology[..n]);
      if e.Refused? {
        RefusedOne(e, topology[n]);
      } else if EnrollOne(e, topology[n]).Enrolled? {
        EnrollOneKeeps(w.base, e, topology[n]);
      }
    }
  }

  lemma BootKeeps(w: World, topology: seq<Bootstrap>)
    requires Invariant(w)
    ensures Invariant(Exec(w, Boot(topology)))
  {
    assert w.base.Keys == w.tables.states.Keys by { InvariantRows(w); }
    SameBase(w.base, w.tables);
    hide Invariant, EnrollAll, BaseOf, ValidBootstrap;
    if ValidTopology(topology) { EnrollAllKeeps(w, topology); }
  }

  lemma ExecKeeps(w: World, step: Step)
    requires Invariant(w)
    ensures Invariant(Exec(w, step))
  {
    assert w.base.Keys == w.tables.states.Keys by { InvariantRows(w); }
    hide Invariant, TablesAfter, BaseOf;
    if step.Boot? {
      BootKeeps(w, step.topology);
    } else if step.Mutate? {
      MutationKeeps(w, step.m);
      SameBase(w.base, Apply(w.tables, step.m).1);
      assert TablesAfter(w.tables, step) == Apply(w.tables, step.m).1 by { MutateIsApply(w.tables, step.m); }
    } else {
      MarksKeepIntents(w.tables, step);
      IntentsCarry(w, TablesAfter(w.tables, step).outbox);
      SameBase(w.base, TablesAfter(w.tables, step));
    }
  }

  lemma MutateIsApply(t: Tables, m: Mutation)
    ensures TablesAfter(t, Mutate(m)) == Apply(t, m).1
  {
    hide Apply;
  }

  /** Every world that an empty database can reach satisfies the invariant. */
  lemma {:induction false} ReachableIsSafe(steps: seq<Step>)
    ensures Invariant(Run(EMPTY, steps))
  {
    if steps == [] {
    } else {
      hide Invariant, Exec;
      ReachableIsSafe(steps[..|steps| - 1]);
      ExecKeeps(Run(EMPTY, steps[..|steps| - 1]), steps[|steps| - 1]);
    }
  }

  // ---------------------------------------------------------------- one lifecycle row per revision

  /**
    After any run, a channel that was created at revision r0 and now stands at R has exactly one
    lifecycle row for every revision r0+1..R, none for any other, and exactly one retained row,
    which carries R.
  */
  lemma {:induction false} LifecycleRowsMatchRevisions(steps: seq<Step>, c: string)
    requires c in Run(EMPTY, steps).tables.states
    ensures var w := Run(EMPTY, steps); var outbox, to := w.tables.outbox, w.tables.states[c].revision;
            c in w.base && w.base[c] <= to &&
            (forall r: nat :: HasLifecycle(outbox, c, r) <==> w.base[c] < r <= to) &&
            (forall k, l, r :: LifecycleRow(outbox, k, c, r) && LifecycleRow(outbox, l, c, r) ==> k == l) &&
            (forall r: nat :: HasRetained(outbox, c, r) <==> r == to) &&
            (forall k, l, r :: RetainedRow(outbox, k, c, r) && RetainedRow(outbox, l, c, r) ==> k == l)
  {
    hide Run, Invariant;
    ReachableIsSafe(steps);
    SafeRows(Run(EMPTY, steps), c);
  }

  lemma SafeRows(w: World, c: string)
    requires Invariant(w) && c in w.tables.states
    ensures var outbox, to := w.tables.outbox, w.tables.states[c].revision;
            c in w.base && w.base[c] <= to &&
            (forall r: nat :: HasLifecycle(outbox, c, r) <==> w.base[c] < r <= to) &&
            (forall k, l, r :: LifecycleRow(outbox, k, c, r) && LifecycleRow(outbox, l, c, r) ==> k == l) &&
            (forall r: nat :: HasRetained(outbox, c, r) <==> r == to) &&
            (forall k, l, r :: RetainedRow(outbox, k, c, r) && RetainedRow(outbox, l, c, r) ==> k == l)
  {
    var outbox, from, to := w.tables.outbox, w.base[c], w.tables.states[c].revision;
    assert ChannelOk(outbox, c, from, to);
    forall r | HasLifecycle(outbox, c, r) ensures from < r <= to {
      var k :| LifecycleRow(outbox, k, c, r);
    }
    forall r | HasRetained(outbox, c, r) ensures r == to {
      var k :| RetainedRow(outbox, k, c, r);
      var l :| RetainedRow(outbox, l, c, to);
      assert k == l;
    }
  }

  // ---------------------------------------------------------------- revisions only grow

  // Rows are never deleted, and neither channels nor rows go back in revision.
  predicate Grows(before: Tables, after: Tables) {
    (forall c :: c in before.states ==> c in after.states && before.states[c].revision <= after.states[c].revision) &&
    (forall k :: k in before.outbox ==>
       k in after.outbox && before.outbox[k].intent.revision <= after.outbox[k].intent.revision)
  }

  lemma GrowsTwice(a: Tables, b: Tables, c: Tables)
    requires Grows(a, b) && Grows(b, c)
    ensures Grows(a, c)
  {
  }

  lemma MutationGrows(w: World, m: Mutation)
    requires Invariant(w)
    ensures Grows(w.tables, Apply(w.tables, m).1)
  {
    hide Apply, Invariant, RowsOk, ChannelsOk, Transitioned, CursorRefused, RetiredAfter, Grows, Delivered;
    if Commits(w.tables, m) {
      CommitFacts(w.tables, m);
      assert RowsOk(w.tables, w.base) by { InvariantRows(w); }
      if IsTransition(m) {
        TransitionRows(w.tables, w.base, m);
        RetainedIsCurrent(w, m);
        TransitionGrows(w.tables, Apply(w.tables, m).1, m);
      } else {
        assert Grows(w.tables, Apply(w.tables, m).1) by { CursorOnlyGrows(w.tables, m); }
      }
    } else {
      NoCommitNoChange(w.tables, m);
      SelfGrows(w.tables);
    }
  }

  lemma SelfGrows(t: Tables)
    ensures Grows(t, t)
  {
  }

  lemma CursorOnlyGrows(t: Tables, m: Mutation)
    requires Commits(t, m) && !IsTransition(m)
    ensures Grows(t, Apply(t, m).1)
  {
    hide Apply, CursorRefused, RetiredAfter;
    CommitFacts(t, m);
  }

  // The retained row of a transition carries the current revision of its channel.
  lemma RetainedIsCurrent(w: World, m: Mutation)
    requires Invariant(w) && Transitioned(w.tables, Apply(w.tables, m).1, m)
    ensures w.tables.outbox[m.retained.value.intent.key].intent.revision ==
            w.tables.states[m.next.channel].revision
  {
    hide Apply, Invariant;
    SafeRows(w, m.next.channel);
    var row := w.tables.outbox[m.retained.value.intent.key].intent;
    assert RetainedRow(w.tables.outbox, m.retained.value.intent.key, m.next.channel, row.revision);
    assert HasRetained(w.tables.outbox, m.next.channel, row.revision);
  }

  lemma TransitionGrows(t: Tables, t': Tables, m: Mutation)
    requires Transitioned(t, t', m)
    requires t.outbox[m.retained.value.intent.key].intent.revision == t.states[m.next.channel].revision
    ensures Grows(t, t')
  {
  }

  lemma {:induction false} EnrollGrows(t: Tables, topology: seq<Bootstrap>)
    ensures EnrollAll(t, topology).Enrolled? ==> Grows(t, EnrollAll(t, topology).tables)
  {
    hide Insertable, StateInsertable, Announces;
    if topology == [] {
    } else {
      hide Grows;
      var n := |topology| - 1;
      EnrollGrows(t, topology[..n]);
      var e := EnrollAll(t, topology[..n]);
      if e.Enrolled? && EnrollOne(e, topology[n]).Enrolled? {
        EnrollOneGrows(e, topology[n]);
        GrowsTwice(t, e.tables, EnrollOne(e, topology[n]).tables);
      }
    }
  }

  lemma EnrollOneGrows(e: Enrollment, b: Bootstrap)
    requires e.Enrolled? && EnrollOne(e, b).Enrolled?
    ensures Grows(e.tables, EnrollOne(e, b).tables)
  {
    hide StateInsertable, Announces;
  }

  lemma ExecGrows(w: World, step: Step)
    requires Invariant(w)
    ensures Grows(w.tables, Exec(w, step).tables)
  {
    hide Invariant, Grows, BaseOf;
    SelfGrows(w.tables);
    if step.Boot? {
      hide EnrollAll, ValidTopology;
      EnrollGrows(w.tables, step.topology);
    } else if step.Mutate? {
      hide Apply;
      MutationGrows(w, step.m);
    } else {
      hide TablesAfter;
      MarksKeepIntents(w.tables, step);
      MarksGrow(w.tables, TablesAfter(w.tables, step));
    }
  }

  lemma MarksGrow(t: Tables, t': Tables)
    requires t'.states == t.states && SameIntents(t.outbox, t'.outbox)
    ensures Grows(t, t')
  {
  }

  lemma {:induction false} RunGrows(before: seq<Step>, after: seq<Step>)
    ensures Grows(Run(EMPTY, before).tables, Run(EMPTY, before + after).tables)
  {
    hide Exec, Invariant, Grows;
    if after == [] {
      assert before + after == before;
      SelfGrows(Run(EMPTY, before).tables);
    } else {
      var n := |after| - 1;
      assert (before + after)[..|before + after| - 1] == before + after[..n];
      RunGrows(before, after[..n]);
      ReachableIsSafe(before + after[..n]);
      ExecGrows(Run(EMPTY, before + after[..n]), after[n]);
      GrowsTwice(Run(EMPTY, before).tables, Run(EMPTY, before + after[..n]).tables, Run(EMPTY, before + after).tables);
    }
  }

  predicate CommitsAt(steps: seq<Step>, i: nat) {
    i < |steps| && steps[i].Mutate? && Commits(Run(EMPTY, steps[..i]).tables, steps[i].m)
  }

  /** Of two transitions of one channel that expect the same revision, at most one commits in a run. */
  lemma OneCommitPerRevision(steps: seq<Step>, i: nat, j: nat)
    requires i < j && CommitsAt(steps, i) && CommitsAt(steps, j)
    requires IsTransition(steps[i].m) && steps[i].m.next.channel == steps[j].m.next.channel
    ensures steps[i].m.expected < steps[j].m.expected
  {
    hide Run, Exec, Apply, Delivered, CursorRefused, RetiredAfter;
    var c := steps[i].m.next.channel;
    CommitFacts(Run(EMPTY, steps[..i]).tables, steps[i].m);
    CommitFacts(Run(EMPTY, steps[..j]).tables, steps[j].m);
    RunOne(EMPTY, steps, i);
    assert Run(EMPTY, steps[..i + 1]).tables == Apply(Run(EMPTY, steps[..i]).tables, steps[i].m).1 by {
      ExecMutates(Run(EMPTY, steps[..i]), steps[i].m);
    }
    assert steps[..i + 1] + steps[i + 1..j] == steps[..j];
    RunGrows(steps[..i + 1], steps[i + 1..j]);
  }

  lemma ExecMutates(w: World, m: Mutation)
    ensures Exec(w, Mutate(m)).tables == Apply(w.tables, m).1
  {
    hide Apply;
  }
}
