/**
  The durable store of the fire alarms: one state row per channel, one outbox row per
  delivery, and the boot ids that may never return. A mutation names the revision it was
  computed from; it commits only on that revision and then writes the state and both of
  its deliveries together.
*/
module FireStore {
  import opened Options
  import Sequence = SensorSequence

  const MAX_REVISION: nat := 0x7FFF_FFFF_FFFF_FFFF

  // ---------------------------------------------------------------- rows

  datatype Lifecycle = Open | Acknowledged | Resolved

  datatype State = State(channel: string, sensor: string, topic: string, lifecycle: Lifecycle, alarm: string,
                         lastEvent: string, revision: nat, mode: Sequence.Mode, activeBoot: Option<string>,
                         sequence: Option<nat>, signal: string, updatedAt: string)

  datatype Sink = RetainedState | LifecycleEvent
  datatype DeliveryState = Pending | InFlight | Acked

  // What a delivery says, and how far its transmission has come.
  datatype Intent = Intent(key: string, sink: Sink, logical: string, sensor: string, channel: string, event: string,
                           alarm: string, revision: nat, topic: string, payload: string, qos: int, retain: bool)
  datatype Progress = Progress(attempts: nat, nextAttemptAt: string, lastError: string, state: DeliveryState,
                               acked: Option<nat>, createdAt: string, updatedAt: string)
  datatype Delivery = Delivery(intent: Intent, progress: Progress)

  type Outbox = map<string, Delivery>

  datatype Tables = Tables(states: map<string, State>, outbox: Outbox, retired: set<(string, string)>)

  datatype Bootstrap = Bootstrap(initial: State, retained: Delivery)
  datatype Mutation = Mutation(expected: nat, next: State, retained: Option<Delivery>, lifecycle: Option<Delivery>)

  datatype Code = Committed | Idempotent | Conflict | Invalid | Failed
  datatype Outcome = Outcome(code: Code, revision: nat)

  // ---------------------------------------------------------------- predicates on rows

  predicate SameState(left: State, right: State) {
    left.(updatedAt := right.updatedAt) == right
  }

  predicate ValidDelivery(d: Delivery) {
    d.intent.key != "" && d.intent.logical != "" && d.intent.sensor != "" && d.intent.channel != "" &&
    d.intent.event != "" && d.intent.alarm != "" && 0 < d.intent.revision <= MAX_REVISION && d.intent.topic != "" &&
    d.intent.payload != "" && d.intent.qos == 1 && d.intent.retain == (d.intent.sink == RetainedState) &&
    d.progress.nextAttemptAt != "" && d.progress.createdAt != "" && d.progress.updatedAt != ""
  }

  // The retained delivery announces exactly this state.
  predicate Announces(d: Delivery, s: State) {
    d.intent.sink == RetainedState && d.intent.logical == s.topic && d.intent.sensor == s.sensor &&
    d.intent.channel == s.channel && d.intent.event == s.lastEvent && d.intent.revision == s.revision &&
    d.intent.topic == s.topic
  }

  predicate ValidBootstrap(b: Bootstrap) {
    var s, d := b.initial, b.retained;
    s.channel != "" && s.sensor != "" && s.topic != "" && 0 < s.revision <= MAX_REVISION &&
    s.lifecycle == Resolved && s.alarm == "" && s.lastEvent != "" && s.mode == Sequence.Unseen &&
    s.activeBoot.None? && s.sequence.None? && s.signal != "" && s.updatedAt != "" &&
    ValidDelivery(d) && Announces(d, s) && d.progress.attempts == 0 && d.progress.lastError == "" &&
    d.progress.state == Pending && d.progress.acked.None?
  }

  predicate IsTransition(m: Mutation) {
    m.retained.Some? && m.lifecycle.Some?
  }

  // The mutation is consistent in itself.
  predicate ValidMutation(m: Mutation) {
    var s := m.next;
    m.expected <= MAX_REVISION && s.revision <= MAX_REVISION && s.channel != "" && s.sensor != "" && s.topic != "" &&
    s.lastEvent != "" && s.signal != "" && s.updatedAt != "" && m.retained.Some? == m.lifecycle.Some? &&
    (if IsTransition(m) then
       m.expected != MAX_REVISION && s.revision == m.expected + 1 &&
       ValidDelivery(m.retained.value) && ValidDelivery(m.lifecycle.value) &&
       m.retained.value.intent.sink == RetainedState && m.lifecycle.value.intent.sink == LifecycleEvent &&
       m.retained.value.intent.revision == s.revision && m.lifecycle.value.intent.revision == s.revision &&
       m.retained.value.intent.channel == s.channel && m.lifecycle.value.intent.channel == s.channel
     else s.revision == m.expected)
  }

  // ---------------------------------------------------------------- the source cursor

  predicate CursorChanged(current: State, next: State) {
    current.mode != next.mode || current.activeBoot != next.activeBoot || current.sequence != next.sequence ||
    current.signal != next.signal
  }

  function RetiredOf(retired: set<(string, string)>, sensor: string): set<string> {
    set r | r in retired && r.0 == sensor :: r.1
  }

  // The lookup loads at most the one boot id that the next state carries.
  function LookedUp(retired: set<(string, string)>, next: State): set<string> {
    if next.activeBoot.Some? && (next.sensor, next.activeBoot.value) in retired then {next.activeBoot.value} else {}
  }

  function FactOf(next: State): Sequence.Fact {
    Sequence.Fact(if next.mode == Sequence.Versioned then Sequence.BootEpochV2 else Sequence.LegacyV1,
                  next.activeBoot, next.sequence)
  }

  function CursorOf(current: State, retired: set<string>): Sequence.Cursor {
    Sequence.Cursor(current.mode, current.activeBoot, current.sequence, retired)
  }

  predicate CursorRefused(t: Tables, current: State, next: State) {
    CursorChanged(current, next) &&
    (next.mode == Sequence.Unseen ||
     Sequence.Evaluate(CursorOf(current, LookedUp(t.retired, next)), FactOf(next)) != Sequence.Accept)
  }

  function RetiredAfter(t: Tables, current: State, next: State): set<(string, string)> {
    if CursorChanged(current, next) && current.mode == Sequence.Versioned && current.activeBoot.Some? &&
       next.activeBoot.Some? && current.activeBoot != next.activeBoot
    then t.retired + {(next.sensor, current.activeBoot.value)}
    else t.retired
  }

  // ---------------------------------------------------------------- one mutation

  predicate Recorded(outbox: Outbox, d: Delivery) {
    d.intent.key in outbox && outbox[d.intent.key].intent == d.intent
  }

  predicate RetainedMatches(outbox: Outbox, d: Delivery, channel: string) {
    d.intent.key in outbox &&
    var row := outbox[d.intent.key];
    row.intent.sink == RetainedState && row.intent.channel == channel && row.intent.logical == d.intent.logical
  }

  // The row takes over what the delivery says and starts over; it keeps what was acknowledged and when it was created.
  function Renewed(row: Delivery, d: Delivery): Delivery {
    Delivery(row.intent.(sensor := d.intent.sensor, channel := d.intent.channel, event := d.intent.event,
                         alarm := d.intent.alarm, revision := d.intent.revision, topic := d.intent.topic,
                         payload := d.intent.payload, qos := 1, retain := true),
             row.progress.(attempts := 0, nextAttemptAt := d.progress.nextAttemptAt, lastError := "",
                           state := Pending, updatedAt := d.progress.updatedAt))
  }

  // The unique indexes of the outbox, and the integer columns.
  predicate Insertable(outbox: Outbox, d: Delivery) {
    d.intent.key !in outbox && d.intent.revision <= MAX_REVISION && d.progress.attempts <= MAX_REVISION &&
    (d.progress.acked.Some? ==> d.progress.acked.value <= MAX_REVISION) &&
    forall k :: k in outbox && outbox[k].intent.sink == d.intent.sink ==>
      outbox[k].intent.logical != d.intent.logical &&
      (d.intent.sink == LifecycleEvent ==> outbox[k].intent.event != d.intent.event)
  }

  // The outbox after both deliveries of a transition, or nothing if one of them does not fit.
  function Delivered(outbox: Outbox, retained: Delivery, lifecycle: Delivery, channel: string): Option<Outbox> {
    if !RetainedMatches(outbox, retained, channel) then None
    else
      var renewed := outbox[retained.intent.key := Renewed(outbox[retained.intent.key], retained)];
      if lifecycle.intent.key in renewed then
        if renewed[lifecycle.intent.key].intent == lifecycle.intent then Some(renewed) else None
      else if Insertable(renewed, lifecycle) then Some(renewed[lifecycle.intent.key := lifecycle])
      else None
  }

  function OutboxAfter(t: Tables, m: Mutation): Option<Outbox> {
    if IsTransition(m) then Delivered(t.outbox, m.retained.value, m.lifecycle.value, m.next.channel)
    else Some(t.outbox)
  }

  function Apply(t: Tables, m: Mutation): (Outcome, Tables) {
    if !ValidMutation(m) then (Outcome(Invalid, m.expected), t)
    else if m.next.channel !in t.states then (Outcome(Conflict, 0), t)
    else
      var current := t.states[m.next.channel];
      if current.revision == m.next.revision && SameState(current, m.next) then
        if IsTransition(m) && !(Recorded(t.outbox, m.retained.value) && Recorded(t.outbox, m.lifecycle.value))
        then (Outcome(Failed, m.expected), t)
        else (Outcome(Idempotent, current.revision), t)
      else if current.revision != m.expected then (Outcome(Conflict, current.revision), t)
      else if current.sensor != m.next.sensor || current.topic != m.next.topic then
        (Outcome(Conflict, current.revision), t)
      else if CursorRefused(t, current, m.next) then (Outcome(Invalid, current.revision), t)
      else match OutboxAfter(t, m)
        case None => (Outcome(Failed, m.expected), t)
        case Some(outbox) =>
          (Outcome(Committed, m.next.revision),
           Tables(t.states[m.next.channel := m.next], outbox, RetiredAfter(t, current, m.next)))
  }

  // ---------------------------------------------------------------- the configured topology

  predicate ValidTopology(topology: seq<Bootstrap>) {
    topology != [] && (forall i :: 0 <= i < |topology| ==> ValidBootstrap(topology[i])) &&
    forall i, j :: 0 <= i < j < |topology| ==>
      topology[i].initial.channel != topology[j].initial.channel &&
      topology[i].initial.sensor != topology[j].initial.sensor &&
      topology[i].initial.topic != topology[j].initial.topic &&
      topology[i].retained.intent.key != topology[j].retained.intent.key
  }

  datatype Enrollment = Enrolled(tables: Tables, inserted: bool, highest: nat) | Refused(outcome: Outcome)

  function Max(a: nat, b: nat): nat {
    if a > b then a else b
  }

  predicate StateInsertable(states: map<string, State>, s: State) {
    s.channel !in states && forall c :: c in states ==> states[c].sensor != s.sensor && states[c].topic != s.topic
  }

  // A channel is new, or its durable row must agree with its configuration and its retained delivery with the row.
  function EnrollOne(e: Enrollment, b: Bootstrap): Enrollment {
    if e.Refused? then e
    else
      var t, channel := e.tables, b.initial.channel;
      if channel in t.states then
        var existing := t.states[channel];
        if existing.sensor != b.initial.sensor || existing.topic != b.initial.topic then
          Refused(Outcome(Conflict, existing.revision))
        else if b.retained.intent.key !in t.outbox || !Announces(t.outbox[b.retained.intent.key], existing) then
          Refused(Outcome(Failed, 0))
        else e.(highest := Max(e.highest, existing.revision))
      else if !StateInsertable(t.states, b.initial) || !Insertable(t.outbox, b.retained) then
        Refused(Outcome(Failed, 0))
      else
        Enrolled(t.(states := t.states[channel := b.initial], outbox := t.outbox[b.retained.intent.key := b.retained]),
                 true, Max(e.highest, b.initial.revision))
  }

  function EnrollAll(t: Tables, topology: seq<Bootstrap>): Enrollment {
    if topology == [] then Enrolled(t, false, 0)
    else EnrollOne(EnrollAll(t, topology[..|topology| - 1]), topology[|topology| - 1])
  }

  function RetainedKeys(outbox: Outbox): set<string> {
    set k | k in outbox && outbox[k].intent.sink == RetainedState
  }

  function Initialize(t: Tables, topology: seq<Bootstrap>): (Outcome, Tables) {
    if !ValidTopology(topology) then (Outcome(Invalid, 0), t)
    else match EnrollAll(t, topology)
      case Refused(outcome) => (outcome, t)
      case Enrolled(after, inserted, highest) =>
        if |after.states| != |topology| || |RetainedKeys(after.outbox)| != |topology| then
          (Outcome(Conflict, highest), t)
        else if inserted then (Outcome(Committed, highest), after)
        else (Outcome(Idempotent, highest), t)
  }

  // ---------------------------------------------------------------- marks

  // The row that the mark names by key and revision.
  predicate Named(outbox: Outbox, key: string, revision: nat) {
    key != "" && 0 < revision <= MAX_REVISION && key in outbox && outbox[key].intent.revision == revision
  }

  function MarkInFlight(outbox: Outbox, key: string, revision: nat, now: string): Outbox {
    if !Named(outbox, key, revision) then outbox
    else
      var p := outbox[key].progress;
      outbox[key := outbox[key].(progress :=
        p.(state := InFlight, attempts := p.attempts + 1, lastError := "", updatedAt := now))]
  }

  function MarkPending(outbox: Outbox, key: string, revision: nat, error: string, now: string): Outbox {
    if !Named(outbox, key, revision) then outbox
    else
      outbox[key := outbox[key].(progress :=
        outbox[key].progress.(state := Pending, lastError := error, nextAttemptAt := now, updatedAt := now))]
  }

  // Only the delivery that is in flight at this revision is settled.
  function Acknowledge(outbox: Outbox, key: string, revision: nat, now: string): Outbox {
    if !Named(outbox, key, revision) || outbox[key].progress.state != InFlight then outbox
    else
      outbox[key := outbox[key].(progress :=
        outbox[key].progress.(state := Acked, acked := Some(revision), lastError := "", updatedAt := now))]
  }

  function ResetInFlight(outbox: Outbox, now: string): Outbox {
    map k | k in outbox ::
      if outbox[k].progress.state == InFlight
      then outbox[k].(progress := outbox[k].progress.(state := Pending, lastError := "process restart before PUBACK",
                                                      nextAttemptAt := now, updatedAt := now))
      else outbox[k]
  }

  // ---------------------------------------------------------------- the database methods

  class Database {
    var states: map<string, State>
    var outbox: Outbox
    var retired: set<(string, string)>

    function Contents(): Tables
      reads this
    {
      Tables(states, outbox, retired)
    }

    constructor ()
      ensures Contents() == Tables(map[], map[], {})
    {
      states, outbox, retired := map[], map[], {};
    }

    // The statements of a mutation after its checks; `false` stands for an exception.
    method WriteDeliveries(retained: Delivery, lifecycle: Delivery, channel: string) returns (written: bool)
      modifies `outbox
      ensures written <==> Delivered(old(outbox), retained, lifecycle, channel).Some?
      ensures written ==> outbox == Delivered(old(outbox), retained, lifecycle, channel).value
    {
      if !RetainedMatches(outbox, retained, channel) {
        return false;
      }
      outbox := outbox[retained.intent.key := Renewed(outbox[retained.intent.key], retained)];
      if lifecycle.intent.key in outbox {
        return outbox[lifecycle.intent.key].intent == lifecycle.intent;
      }
      if !Insertable(outbox, lifecycle) {
        return false;
      }
      outbox := outbox[lifecycle.intent.key := lifecycle];
      written := true;
    }

    /** Commits one mutation on the revision it expects, or rolls everything back. */
    method ApplyFireStateMutation(m: Mutation) returns (outcome: Outcome)
      modifies this
      ensures (outcome, Contents()) == Apply(old(Contents()), m)
    {
      hide ValidMutation, Delivered, Sequence.Evaluate, SameState;
      if !ValidMutation(m) {
        return Outcome(Invalid, m.expected);
      }
      var channel := m.next.channel;
      if channel !in states {
        return Outcome(Conflict, 0);
      }
      var current := states[channel];
      if current.revision == m.next.revision && SameState(current, m.next) {
        var recorded := true;
        if IsTransition(m) {
          recorded := Recorded(outbox, m.retained.value) && Recorded(outbox, m.lifecycle.value);
        }
        return if recorded then Outcome(Idempotent, current.revision) else Outcome(Failed, m.expected);
      }
      if current.revision != m.expected {
        return Outcome(Conflict, current.revision);
      }
      if current.sensor != m.next.sensor || current.topic != m.next.topic {
        return Outcome(Conflict, current.revision);
      }
      var saved := Contents();
      if CursorChanged(current, m.next) {
        if m.next.mode == Sequence.Unseen {
          return Outcome(Invalid, current.revision);
        }
        var cursor := CursorOf(current, LookedUp(retired, m.next));
        if Sequence.Evaluate(cursor, FactOf(m.next)) != Sequence.Accept {
          return Outcome(Invalid, current.revision);
        }
        if cursor.mode == Sequence.Versioned && cursor.activeBoot.Some? && m.next.activeBoot.Some?
           && cursor.activeBoot.value != m.next.activeBoot.value {
          retired := retired + {(m.next.sensor, cursor.activeBoot.value)};
        }
      }
      states := states[channel := m.next];
      if IsTransition(m) {
        var written := WriteDeliveries(m.retained.value, m.lifecycle.value, channel);
        if !written {
          states, outbox, retired := saved.states, saved.outbox, saved.retired;
          return Outcome(Failed, m.expected);
        }
      }
      outcome := Outcome(Committed, m.next.revision);
    }

    /** Creates the missing channels of the configured topology, or checks the durable ones against it. */
    method InitializeFireTopology(topology: seq<Bootstrap>) returns (outcome: Outcome)
      modifies this
      ensures (outcome, Contents()) == Initialize(old(Contents()), topology)
    {
      hide ValidTopology, Insertable, StateInsertable, Announces;
      if !ValidTopology(topology) {
        return Outcome(Invalid, 0);
      }
      var saved := Contents();
      var inserted, highest := false, 0;
      for i := 0 to |topology|
        invariant EnrollAll(old(Contents()), topology[..i]) == Enrolled(Contents(), inserted, highest)
        invariant !inserted ==> Contents() == old(Contents())
      {
        assert topology[..i + 1][..i] == topology[..i];
        var b := topology[i];
        var channel := b.initial.channel;
        var refused: Option<Outcome> := None;
        if channel in states {
          var existing := states[channel];
          highest := Max(highest, existing.revision);
          if existing.sensor != b.initial.sensor || existing.topic != b.initial.topic {
            refused := Some(Outcome(Conflict, existing.revision));
          } else if b.retained.intent.key !in outbox || !Announces(outbox[b.retained.intent.key], existing) {
            refused := Some(Outcome(Failed, 0));
          }
        } else if !StateInsertable(states, b.initial) || !Insertable(outbox, b.retained) {
          refused := Some(Outcome(Failed, 0));
        } else {
          states := states[channel := b.initial];
          outbox := outbox[b.retained.intent.key := b.retained];
          inserted := true;
          highest := Max(highest, b.initial.revision);
        }
        if refused.Some? {
          assert EnrollAll(old(Contents()), topology[..i + 1]) == Refused(refused.value);
          RefusedStays(old(Contents()), topology, i + 1);
          states, outbox, retired := saved.states, saved.outbox, saved.retired;
          return refused.value;
        }
      }
      assert topology[..|topology|] == topology;
      if |states| != |topology| || |RetainedKeys(outbox)| != |topology| {
        states, outbox, retired := saved.states, saved.outbox, saved.retired;
        return Outcome(Conflict, highest);
      }
      outcome := Outcome(if inserted then Committed else Idempotent, highest);
    }

    method MarkFireDeliveryInFlight(key: string, revision: nat, now: string) returns (marked: bool)
      modifies `outbox
      ensures marked <==>
        key != "" && 0 < revision <= 0x7FFF_FFFF_FFFF_FFFF && key in old(outbox) &&
        old(outbox)[key].intent.revision == revision
      ensures if !marked then outbox == old(outbox) else
        key in old(outbox) &&
        outbox == old(outbox)[key := old(outbox)[key].(progress := old(outbox)[key].progress.(
          state := InFlight, attempts := old(outbox)[key].progress.attempts + 1, lastError := "", updatedAt := now))]
      ensures outbox == MarkInFlight(old(outbox), key, revision, now)
    {
      marked := Named(outbox, key, revision);
      if marked {
        var p := outbox[key].progress;
        outbox := outbox[key := outbox[key].(progress :=
          p.(state := InFlight, attempts := p.attempts + 1, lastError := "", updatedAt := now))];
      }
    }

    method MarkFireDeliveryPending(key: string, revision: nat, error: string, now: string) returns (marked: bool)
      modifies `outbox
      ensures marked <==>
        key != "" && 0 < revision <= 0x7FFF_FFFF_FFFF_FFFF && key in old(outbox) &&
        old(outbox)[key].intent.revision == revision
      ensures if !marked then outbox == old(outbox) else
        key in old(outbox) &&
        outbox == old(outbox)[key := old(outbox)[key].(progress := old(outbox)[key].progress.(
          state := Pending, lastError := error, nextAttemptAt := now, updatedAt := now))]
      ensures outbox == MarkPending(old(outbox), key, revision, error, now)
    {
      marked := Named(outbox, key, revision);
      if marked {
        var p := outbox[key].progress;
        outbox := outbox[key := outbox[key].(progress :=
          p.(state := Pending, lastError := error, nextAttemptAt := now, updatedAt := now))];
      }
    }

    method AcknowledgeFireDelivery(key: string, revision: nat, now: string) returns (settled: bool)
      modifies `outbox
      ensures settled <==>
        key != "" && 0 < revision <= 0x7FFF_FFFF_FFFF_FFFF && key in old(outbox) &&
        old(outbox)[key].intent.revision == revision &&
        old(outbox)[key].progress.state == InFlight
      ensures if !settled then outbox == old(outbox) else
        key in old(outbox) &&
        outbox == old(outbox)[key := old(outbox)[key].(progress := old(outbox)[key].progress.(
          state := Acked, acked := Some(revision), lastError := "", updatedAt := now))]
      ensures outbox == Acknowledge(old(outbox), key, revision, now)
    {
      settled := Named(outbox, key, revision) && outbox[key].progress.state == InFlight;
      if settled {
        var p := outbox[key].progress;
        outbox := outbox[key := outbox[key].(progress :=
          p.(state := Acked, acked := Some(revision), lastError := "", updatedAt := now))];
      }
    }

    method ResetFireInFlightDeliveries(now: string)
      modifies `outbox
      ensures outbox.Keys == old(outbox).Keys
      ensures forall k :: k in outbox ==>
        outbox[k].progress.state != InFlight && outbox[k].intent == old(outbox)[k].intent &&
        outbox[k].progress.acked == old(outbox)[k].progress.acked &&
        outbox[k].progress.attempts == old(outbox)[k].progress.attempts &&
        (old(outbox)[k].progress.state == InFlight ==>
           outbox[k].progress.state == Pending && outbox[k].progress.nextAttemptAt == now) &&
        (old(outbox)[k].progress.state != InFlight ==> outbox[k] == old(outbox)[k])
      ensures outbox == ResetInFlight(old(outbox), now)
    {
      outbox := map k | k in outbox ::
        if outbox[k].progress.state == InFlight
        then outbox[k].(progress := outbox[k].progress.(state := Pending, lastError := "process restart before PUBACK",
                                                        nextAttemptAt := now, updatedAt := now))
        else outbox[k];
    }
  }

  lemma {:induction false} RefusedStays(t: Tables, topology: seq<Bootstrap>, i: nat)
    requires i <= |topology| && EnrollAll(t, topology[..i]).Refused?
    ensures EnrollAll(t, topology) == EnrollAll(t, topology[..i])
    decreases |topology|
  {
    hide EnrollOne;
    if i < |topology| {
      var n := |topology| - 1;
      assert topology[..n][..i] == topology[..i];
      RefusedStays(t, topology[..n], i);
      RefusedOne(EnrollAll(t, topology[..n]), topology[n]);
    } else {
      assert topology[..i] == topology;
    }
  }

  lemma RefusedOne(e: Enrollment, b: Bootstrap)
    requires e.Refused?
    ensures EnrollOne(e, b) == e
  {
  }
}
