/**
  The parking alert device: a set of active slots and a generation counter that the readers
  of the device compare with the last one their open file returned. Threads may share an
  open file, and the driver compares the counters before it takes the lock, so a read is
  three steps: it samples the generation, compares it, and fills its buffer under the lock.
*/
module AlertDevice {
  import opened Options

  const API_VERSION: nat := 1
  const MAX_SLOTS: nat := 32

  datatype Operation = SetSlot | ClearSlot | ClearAll | Unknown
  datatype Command = Command(version: nat, operation: Operation, slot: nat, event: nat)

  // What a reader is given.
  datatype Snapshot = Snapshot(active: set<nat>, lastOperation: Option<Operation>, lastSlot: Option<nat>,
                               generation: nat, lastEvent: nat)

  const INITIAL: Snapshot := Snapshot({}, None, None, 0, 0)

  predicate ValidCommand(c: Command) {
    c.version == API_VERSION && c.operation != Unknown && (c.operation == ClearAll || c.slot < MAX_SLOTS)
  }

  function ActiveAfter(active: set<nat>, c: Command): set<nat> {
    match c.operation
    case SetSlot => active + {c.slot}
    case ClearSlot => active - {c.slot}
    case ClearAll => {}
    case Unknown => active
  }

  // Only a change of the active slots is an event.
  function Applied(d: Snapshot, c: Command): Snapshot {
    var active := ActiveAfter(d.active, c);
    if !ValidCommand(c) || active == d.active then d
    else
      Snapshot(active, Some(c.operation), if c.operation == ClearAll then None else Some(c.slot), d.generation + 1,
               c.event)
  }

  // ---------------------------------------------------------------- the driver

  class Device {
    var active: set<nat>
    var lastOperation: Option<Operation>
    var lastSlot: Option<nat>
    var generation: nat
    var lastEvent: nat

    function State(): Snapshot
      reads this
    {
      Snapshot(active, lastOperation, lastSlot, generation, lastEvent)
    }

    constructor ()
      ensures State() == INITIAL
    {
      active, lastOperation, lastSlot, generation, lastEvent := {}, None, None, 0, 0;
    }

    method ApplyCommand(c: Command) returns (accepted: bool)
      modifies this
      ensures accepted <==> c.version == 1 && c.operation != Unknown && (c.operation != ClearAll ==> c.slot < 32)
      ensures forall s :: s in active <==>
        if !accepted then s in old(active)
        else match c.operation
          case SetSlot => s == c.slot || s in old(active)
          case ClearSlot => s != c.slot && s in old(active)
          case _ => false
      ensures active == old(active) ==> State() == old(State())
      ensures active != old(active) ==>
        generation == old(generation) + 1 && lastEvent == c.event && lastOperation == Some(c.operation) &&
        lastSlot == if c.operation == ClearAll then None else Some(c.slot)
      ensures State() == Applied(old(State()), c)
    {
      if !ValidCommand(c) {
        return false;
      }
      var previous := active;
      match c.operation {
        case SetSlot => active := active + {c.slot};
        case ClearSlot => active := active - {c.slot};
        case ClearAll => active := {};
      }
      if previous != active {
        lastOperation := Some(c.operation);
        lastSlot := if c.operation == ClearAll then None else Some(c.slot);
        lastEvent := c.event;
        generation := generation + 1;
      }
      accepted := true;
    }
  }

  // ---------------------------------------------------------------- what the commands leave active

  function Commanded(d: Snapshot, commands: seq<Command>): Snapshot {
    if commands == [] then d else Applied(Commanded(d, commands[..|commands| - 1]), commands[|commands| - 1])
  }

  // A command that the device takes and that decides about this slot.
  predicate Decides(c: Command, slot: nat) {
    c.version == 1 && (c.operation == ClearAll || ((c.operation == SetSlot || c.operation == ClearSlot) && c.slot == slot && slot < 32))
  }

  /**
    A slot is active exactly when the last command that decides about it set it, or when none did and
    it was active before.
  */
  lemma {:induction false} LastCommandDecides(d: Snapshot, commands: seq<Command>, slot: nat)
    ensures slot in Commanded(d, commands).active <==>
            (slot in d.active && forall i :: 0 <= i < |commands| ==> !Decides(commands[i], slot)) ||
            exists i :: 0 <= i < |commands| && Decides(commands[i], slot) && commands[i].operation == SetSlot &&
                        forall j :: i < j < |commands| ==> !Decides(commands[j], slot)
  {
    if commands != [] {
      var n := |commands| - 1;
      LastCommandDecides(d, commands[..n], slot);
      assert forall i :: 0 <= i < n ==> commands[..n][i] == commands[i];
      var before := Commanded(d, commands[..n]).active;
      if Decides(commands[n], slot) {
        assert slot in Commanded(d, commands).active <==> commands[n].operation == SetSlot;
      } else {
        assert slot in Commanded(d, commands).active <==> slot in before;
        if i :| 0 <= i < |commands| && Decides(commands[i], slot) && commands[i].operation == SetSlot &&
                forall j :: i < j < |commands| ==> !Decides(commands[j], slot) {
          assert i < n && Decides(commands[..n][i], slot);
        }
      }
    }
  }

  // ---------------------------------------------------------------- one open file, any number of reads

  // A read in flight: it has sampled the generation, or its check has passed.
  datatype Read = Sampled(generation: nat) | Passed

  // `seen` is what the file has returned so far, `changes` counts the changes of the active slots.
  datatype World = World(device: Snapshot, observed: nat, initialPending: bool, inFlight: seq<Read>,
                         seen: seq<Snapshot>, changes: nat)

  datatype Step = Issue(command: Command) | BeginRead | CompareRead(read: nat) | FillRead(read: nat)

  function Opened(d: Snapshot): World {
    World(d, 0, true, [], [], d.generation)
  }

  predicate Readable(w: World) {
    w.initialPending || w.device.generation != w.observed
  }

  function Without(inFlight: seq<Read>, i: nat): seq<Read>
    requires i < |inFlight|
  {
    inFlight[..i] + inFlight[i + 1..]
  }

  // A read that finds its sample already observed is turned away; one that passed returns the state at its turn.
  function Exec(w: World, step: Step): World {
    match step
    case Issue(c) =>
      var d := Applied(w.device, c);
      w.(device := d, changes := w.changes + if d.active != w.device.active then 1 else 0)
    case BeginRead =>
      w.(inFlight := w.inFlight + [if w.initialPending then Passed else Sampled(w.device.generation)])
    case CompareRead(i) =>
      if i >= |w.inFlight| || w.inFlight[i].Passed? then w
      else if w.inFlight[i].generation == w.observed then w.(inFlight := Without(w.inFlight, i))
      else w.(inFlight := w.inFlight[i := Passed])
    case FillRead(i) =>
      if i >= |w.inFlight| || !w.inFlight[i].Passed? then w
      else
        w.(observed := w.device.generation, initialPending := false, inFlight := Without(w.inFlight, i),
           seen := w.seen + [w.device])
  }

  function Run(w: World, steps: seq<Step>): World {
    if steps == [] then w else Exec(Run(w, steps[..|steps| - 1]), steps[|steps| - 1])
  }

  // Each state returned is the device of its generation, later ones are no older, the last one is the observed one.
  predicate FileOk(w: World) {
    (w.initialPending <==> w.seen == []) &&
    (w.seen != [] ==> w.observed == w.seen[|w.seen| - 1].generation) &&
    (forall i :: 0 <= i < |w.seen| ==>
       w.seen[i].generation <= w.device.generation &&
       (w.seen[i].generation == w.device.generation ==> w.seen[i] == w.device)) &&
    (forall i, j :: 0 <= i < j < |w.seen| ==>
       w.seen[i].generation <= w.seen[j].generation &&
       (w.seen[i].generation == w.seen[j].generation ==> w.seen[i] == w.seen[j])) &&
    w.changes == w.device.generation
  }

  lemma {:induction false} RunIsOk(d: Snapshot, steps: seq<Step>)
    ensures FileOk(Run(Opened(d), steps))
  {
    hide Exec;
    if steps != [] {
      RunIsOk(d, steps[..|steps| - 1]);
      StepIsOk(Run(Opened(d), steps[..|steps| - 1]), steps[|steps| - 1]);
    }
  }

  lemma StepIsOk(w: World, step: Step)
    requires FileOk(w)
    ensures FileOk(Exec(w, step))
  {
  }

  /**
    Whatever commands and however many reads overlap: a file is not readable exactly when the state
    it returned last is the current one, so no change is ever missed; what it returns never grows
    older, and one generation is always one state; the generation counts the changes.
  */
  lemma NoChangeIsMissed(d: Snapshot, steps: seq<Step>)
    ensures var w := Run(Opened(d), steps);
            (!Readable(w) <==> w.seen != [] && w.seen[|w.seen| - 1] == w.device) &&
            (forall i, j :: 0 <= i < j < |w.seen| ==>
               w.seen[i].generation <= w.seen[j].generation &&
               (w.seen[i].generation == w.seen[j].generation ==> w.seen[i] == w.seen[j])) &&
            w.device.generation == w.changes
  {
    hide Run;
    RunIsOk(d, steps);
  }

  /** A read returns a state that the file has not returned before exactly when the file is readable as it fills. */
  lemma FillIsFreshIffReadable(d: Snapshot, steps: seq<Step>, read: nat)
    requires var inFlight := Run(Opened(d), steps).inFlight; read < |inFlight| && inFlight[read].Passed?
    ensures var w := Run(Opened(d), steps); var w' := Exec(w, FillRead(read));
            w'.seen == w.seen + [w.device] && !Readable(w') && (w.device !in w.seen <==> Readable(w))
  {
    hide Run;
    RunIsOk(d, steps);
  }

  /** A read that is turned away had sampled the generation of the state returned last. */
  lemma RefusalIsJustified(d: Snapshot, steps: seq<Step>, read: nat)
    requires var w := Run(Opened(d), steps); read < |w.inFlight| && w.inFlight[read] == Sampled(w.observed)
    ensures var w := Run(Opened(d), steps);
            w.seen != [] && w.seen[|w.seen| - 1].generation == w.inFlight[read].generation <= w.device.generation
  {
    hide Run;
    RunIsOk(d, steps);
    SamplesNeedAReturn(d, steps);
  }

  predicate SamplesOk(w: World) {
    forall i :: 0 <= i < |w.inFlight| && w.inFlight[i].Sampled? ==>
      !w.initialPending && w.inFlight[i].generation <= w.device.generation
  }

  lemma StepSamples(w: World, step: Step)
    requires SamplesOk(w)
    ensures SamplesOk(Exec(w, step))
  {
    var w' := Exec(w, step);
    if (step.CompareRead? || step.FillRead?) && step.read < |w.inFlight| && |w'.inFlight| < |w.inFlight| {
      forall i | 0 <= i < |w'.inFlight|
        ensures w'.inFlight[i] == w.inFlight[if i < step.read then i else i + 1]
      {
      }
    }
  }

  lemma {:induction false} SamplesNeedAReturn(d: Snapshot, steps: seq<Step>)
    ensures SamplesOk(Run(Opened(d), steps))
  {
    hide Exec;
    if steps != [] {
      SamplesNeedAReturn(d, steps[..|steps| - 1]);
      StepSamples(Run(Opened(d), steps[..|steps| - 1]), steps[|steps| - 1]);
    }
  }

  // ---------------------------------------------------------------- one read at a time

  predicate OneReader(d: Snapshot, steps: seq<Step>) {
    forall i :: 0 <= i <= |steps| ==> |Run(Opened(d), steps[..i]).inFlight| <= 1
  }

  // The only read in flight has passed for a reason that still stands.
  predicate PassStands(w: World) {
    |w.inFlight| == 1 ==>
      match w.inFlight[0]
      case Passed => Readable(w)
      case Sampled(g) => w.observed <= g <= w.device.generation
  }

  lemma {:induction false} OneReaderPasses(d: Snapshot, steps: seq<Step>)
    requires OneReader(d, steps)
    ensures PassStands(Run(Opened(d), steps))
  {
    if steps != [] {
      var n := |steps| - 1;
      forall i | 0 <= i <= n ensures |Run(Opened(d), steps[..n][..i]).inFlight| <= 1 {
        assert steps[..n][..i] == steps[..i];
      }
      OneReaderPasses(d, steps[..n]);
      assert steps[..|steps|] == steps;
      RunIsOk(d, steps[..n]);
      hide Run;
      StepPasses(Run(Opened(d), steps[..n]), steps[n]);
      assert Run(Opened(d), steps) == Exec(Run(Opened(d), steps[..n]), steps[n]) by { RunLast(Opened(d), steps); }
    }
  }

  lemma RunLast(w: World, steps: seq<Step>)
    requires steps != []
    ensures Run(w, steps) == Exec(Run(w, steps[..|steps| - 1]), steps[|steps| - 1])
  {
  }

  lemma StepPasses(w: World, step: Step)
    requires FileOk(w) && PassStands(w) && |w.inFlight| <= 1
    ensures PassStands(Exec(w, step))
  {
  }

  /** While a file has at most one read in flight, every read returns a state it has not returned before. */
  lemma OneReaderIsFresh(d: Snapshot, steps: seq<Step>)
    requires OneReader(d, steps)
    requires var inFlight := Run(Opened(d), steps).inFlight; |inFlight| == 1 && inFlight[0].Passed?
    ensures var w := Run(Opened(d), steps); Exec(w, FillRead(0)).seen == w.seen + [w.device] && w.device !in w.seen
  {
    hide Run;
    OneReaderPasses(d, steps);
    FillIsFreshIffReadable(d, steps, 0);
  }

  /** Two reads that share a file may both pass before either fills, and then return one state twice. */
  lemma SharedFileRepeats(d: Snapshot)
    ensures Run(Opened(d), [BeginRead, BeginRead, FillRead(0), FillRead(0)]).seen == [d, d]
  {
    var steps := [BeginRead, BeginRead, FillRead(0), FillRead(0)];
    assert steps[..1][..0] == [] && steps[..2][..1] == steps[..1] && steps[..3][..2] == steps[..2];
    var first := Opened(d);
    assert Run(first, steps[..1]) == first.(inFlight := [Passed]);
    assert Run(first, steps[..2]) == first.(inFlight := [Passed, Passed]);
    assert Without([Passed, Passed], 0) == [Passed];
    RunLast(first, steps[..3]);
    RunLast(first, steps);
  }
}
