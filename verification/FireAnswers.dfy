/**
  The answers of the fire store to one mutation, each with its exact condition on the tables and the
  mutation. Nothing is written but by Committed.
*/
module FireAnswers {
  import opened FireStore
  import opened FireRuns
  import opened FireDelivery
  import Sequence = SensorSequence

  // The channel already is in the state that the mutation asks for; only the time of the update may differ.
  predicate AlreadyThere(t: Tables, m: Mutation) {
    m.next.channel in t.states &&
    var s, next := t.states[m.next.channel], m.next;
    s.channel == next.channel && s.sensor == next.sensor && s.topic == next.topic && s.lifecycle == next.lifecycle &&
    s.alarm == next.alarm && s.lastEvent == next.lastEvent && s.revision == next.revision && s.mode == next.mode &&
    s.activeBoot == next.activeBoot && s.sequence == next.sequence && s.signal == next.signal
  }

  predicate IsStored(outbox: Outbox, d: Delivery) {
    d.intent.key in outbox && outbox[d.intent.key].intent == d.intent
  }

  // Both deliveries of a transition are in the outbox as it brings them.
  predicate Stored(t: Tables, m: Mutation) {
    m.retained.Some? && m.lifecycle.Some? ==> IsStored(t.outbox, m.retained.value) && IsStored(t.outbox, m.lifecycle.value)
  }

  // The mutation was computed from the current row of its channel.
  predicate Current(t: Tables, m: Mutation) {
    m.next.channel in t.states && t.states[m.next.channel].revision == m.expected &&
    t.states[m.next.channel].sensor == m.next.sensor && t.states[m.next.channel].topic == m.next.topic
  }

  // The source cursor stays, or the sequence policy accepts the step with all retired boot ids of the sensor.
  predicate CursorAllowed(t: Tables, m: Mutation)
    requires m.next.channel in t.states
  {
    var s, next := t.states[m.next.channel], m.next;
    (s.mode == next.mode && s.activeBoot == next.activeBoot && s.sequence == next.sequence && s.signal == next.signal) ||
    (next.mode != Sequence.Unseen &&
     Sequence.Evaluate(
       Sequence.Cursor(s.mode, s.activeBoot, s.sequence, set r | r in t.retired && r.0 == next.sensor :: r.1),
       Sequence.Fact(if next.mode == Sequence.Versioned then Sequence.BootEpochV2 else Sequence.LegacyV1,
                     next.activeBoot, next.sequence)) == Sequence.Accept)
  }

  // The retained row is there to be rewritten, and the lifecycle row is there already or can be inserted.
  predicate Deliverable(t: Tables, m: Mutation) {
    m.retained.Some? && m.lifecycle.Some? ==>
      var r, l := m.retained.value.intent, m.lifecycle.value.intent;
      r.key in t.outbox && t.outbox[r.key].intent.sink == RetainedState && t.outbox[r.key].intent.channel == m.next.channel &&
      t.outbox[r.key].intent.logical == r.logical &&
      var renewed := t.outbox[r.key := Renewed(t.outbox[r.key], m.retained.value)];
      if l.key in renewed then renewed[l.key].intent == l else Unclaimed(renewed, m.lifecycle.value)
  }

  // The numbers fit their columns, and no other row claims the logical id, or the event of a lifecycle delivery.
  predicate Unclaimed(outbox: Outbox, d: Delivery) {
    d.intent.revision <= 0x7FFF_FFFF_FFFF_FFFF && d.progress.attempts <= 0x7FFF_FFFF_FFFF_FFFF &&
    (d.progress.acked.Some? ==> d.progress.acked.value <= 0x7FFF_FFFF_FFFF_FFFF) &&
    (forall k :: k in outbox && outbox[k].intent.sink == d.intent.sink ==> outbox[k].intent.logical != d.intent.logical) &&
    (d.intent.sink == LifecycleEvent ==>
       forall k :: k in outbox && outbox[k].intent.sink == LifecycleEvent ==> outbox[k].intent.event != d.intent.event)
  }

  lemma RefusedIff(t: Tables, m: Mutation)
    requires m.next.channel in t.states
    ensures CursorRefused(t, t.states[m.next.channel], m.next) <==> !CursorAllowed(t, m)
  {
    hide Sequence.Evaluate;
    OneBootIdSuffices(t, t.states[m.next.channel], m.next);
  }

  lemma OutboxFits(t: Tables, m: Mutation)
    ensures OutboxAfter(t, m).Some? <==> Deliverable(t, m)
  {
    forall outbox, d: Delivery | d.intent.key !in outbox ensures Insertable(outbox, d) <==> Unclaimed(outbox, d) {}
    hide Insertable, Unclaimed;
  }

  /** Every answer to a mutation, in the order of the checks, with the revision it reports. */
  lemma {:induction false} MutationAnswersExactly(t: Tables, m: Mutation)
    ensures var (outcome, after) := Apply(t, m); var c := m.next.channel;
            (outcome.code == Committed <==>
               ValidMutation(m) && !AlreadyThere(t, m) && Current(t, m) && CursorAllowed(t, m) && Deliverable(t, m)) &&
            (outcome.code == Idempotent <==> ValidMutation(m) && AlreadyThere(t, m) && Stored(t, m)) &&
            (outcome.code == Conflict <==> ValidMutation(m) && !AlreadyThere(t, m) && !Current(t, m)) &&
            (outcome.code == Invalid <==>
               !ValidMutation(m) || (!AlreadyThere(t, m) && Current(t, m) && !CursorAllowed(t, m))) &&
            (outcome.code != Committed ==> after == t) &&
            (outcome.code == Committed || outcome.code == Idempotent ==> outcome.revision == m.next.revision) &&
            (outcome.code == Conflict ==> outcome.revision == if c in t.states then t.states[c].revision else 0)
  {
    hide ValidMutation, OutboxAfter, Deliverable, CursorRefused, CursorAllowed, RetiredAfter;
    if m.next.channel in t.states { RefusedIff(t, m); }
    OutboxFits(t, m);
  }

  /**
    What a commit writes: the state as the mutation asks for; the retained row says what its delivery
    says and waits from scratch, keeping what was acknowledged; the lifecycle row is there; every other
    row is as before.
  */
  lemma {:induction false} CommitWrites(t: Tables, m: Mutation)
    requires Commits(t, m)
    ensures var after := Apply(t, m).1;
            after.states == t.states[m.next.channel := m.next] &&
            if m.retained.Some? && m.lifecycle.Some? then
              var r, l := m.retained.value, m.lifecycle.value;
              r.intent.key in t.outbox && r.intent.key in after.outbox && l.intent.key in after.outbox &&
              after.outbox.Keys == t.outbox.Keys + {l.intent.key} &&
              after.outbox[r.intent.key].intent ==
                r.intent.(key := t.outbox[r.intent.key].intent.key, qos := 1, retain := true) &&
              after.outbox[r.intent.key].progress ==
                Progress(0, r.progress.nextAttemptAt, "", Pending, t.outbox[r.intent.key].progress.acked,
                         t.outbox[r.intent.key].progress.createdAt, r.progress.updatedAt) &&
              after.outbox[l.intent.key].intent == l.intent &&
              (l.intent.key !in t.outbox ==> after.outbox[l.intent.key] == l) &&
              forall k :: k in t.outbox && k != r.intent.key ==> after.outbox[k] == t.outbox[k]
            else after.outbox == t.outbox
  {
    hide Apply, CursorRefused, RetiredAfter, Insertable;
    CommitFacts(t, m);
  }
}
