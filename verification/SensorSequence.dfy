/**
  The sequence policy shared by the Hall and the Fire inputs. A sensor first speaks
  the legacy protocol (a bare counter) and may then move to boot epochs (a boot id and
  a counter per boot). `Evaluate` decides one frame against a cursor, `Committed` is
  the cursor after an accepted frame.
*/
module SensorSequence {
  import opened Options

  // A legacy counter that falls by more than this is a rebooted node, not a late frame.
  const LEGACY_REBOOT_DROP: nat := 1000

  datatype Mode = Unseen | Legacy | Versioned
  datatype Protocol = LegacyV1 | BootEpochV2

  datatype Cursor = Cursor(mode: Mode, activeBoot: Option<string>, last: Option<nat>, retired: set<string>)
  datatype Fact = Fact(protocol: Protocol, bootId: Option<string>, sequence: Option<nat>)
  datatype Decision = Accept | Duplicate | Stale | LegacyDowngrade | RetiredBootId | Invalid

  const FRESH: Cursor := Cursor(Unseen, None, None, {})

  predicate Blank(text: Option<string>) {
    text.None? || text.value == ""
  }

  function Evaluate(cursor: Cursor, fact: Fact): Decision {
    match fact.protocol
    case LegacyV1 =>
      if !Blank(fact.bootId) then Invalid
      else if cursor.mode == Versioned then LegacyDowngrade
      else if fact.sequence.None? || cursor.mode == Unseen || cursor.last.None? then Accept
      else CompareLegacy(cursor.last.value, fact.sequence.value)
    case BootEpochV2 =>
      if Blank(fact.bootId) || fact.sequence.None? then Invalid
      else if fact.bootId.value in cursor.retired then RetiredBootId
      else if cursor.mode != Versioned then Accept
      else if Blank(cursor.activeBoot) || cursor.last.None? then Invalid
      else if fact.bootId != cursor.activeBoot then Accept
      else if fact.sequence.value == cursor.last.value then Duplicate
      else if fact.sequence.value < cursor.last.value then Stale
      else Accept
  }

  function CompareLegacy(last: nat, next: nat): Decision {
    if next == last then Duplicate
    else if next < last && last - next <= LEGACY_REBOOT_DROP then Stale
    else Accept
  }

  function Committed(cursor: Cursor, fact: Fact): Cursor {
    match fact.protocol
    case LegacyV1 =>
      Cursor(Legacy, None, if fact.sequence.Some? then fact.sequence else cursor.last, cursor.retired)
    case BootEpochV2 =>
      Cursor(Versioned, fact.bootId, fact.sequence, cursor.retired + Displaced(cursor, fact))
  }

  // The boot id that this versioned frame closes, if it opens a new epoch.
  function Displaced(cursor: Cursor, fact: Fact): set<string> {
    if cursor.mode == Versioned && cursor.activeBoot.Some? && fact.bootId.Some? && cursor.activeBoot != fact.bootId
    then {cursor.activeBoot.value} else {}
  }

  // One frame as every user of the policy handles it: commit exactly the accepted ones.
  function Observe(cursor: Cursor, fact: Fact): Cursor {
    if Evaluate(cursor, fact) == Accept then Committed(cursor, fact) else cursor
  }

  function ObserveAll(cursor: Cursor, facts: seq<Fact>): Cursor {
    if facts == [] then cursor else Observe(ObserveAll(cursor, facts[..|facts| - 1]), facts[|facts| - 1])
  }

  // ---------------------------------------------------------------- the in-memory guard

  /** One cursor per sensor, updated in place by every accepted frame. */
  class SequenceGuard {
    var cursors: map<string, Cursor>

    constructor ()
      ensures cursors == map[]
    {
      cursors := map[];
    }

    function CursorOf(sensor: string): Cursor
      reads this
    {
      if sensor in cursors then cursors[sensor] else FRESH
    }

    method Accept(sensor: string, fact: Fact) returns (accepted: bool)
      modifies this
      ensures accepted <==> Evaluate(old(CursorOf(sensor)), fact) == Decision.Accept
      ensures CursorOf(sensor) == Observe(old(CursorOf(sensor)), fact)
      ensures forall other :: other != sensor ==> CursorOf(other) == old(CursorOf(other))
    {
      if sensor !in cursors {
        cursors := cursors[sensor := FRESH];
      }
      accepted := Evaluate(cursors[sensor], fact) == Decision.Accept;
      if accepted {
        Commit(sensor, fact);
      }
    }

    method Commit(sensor: string, fact: Fact)
      requires sensor in cursors
      modifies this
      ensures cursors == old(cursors)[sensor := Committed(old(cursors[sensor]), fact)]
    {
      var cursor := cursors[sensor];
      if fact.protocol == LegacyV1 {
        cursor := cursor.(mode := Legacy, activeBoot := None);
        if fact.sequence.Some? {
          cursor := cursor.(last := fact.sequence);
        }
      } else {
        if cursor.mode == Versioned && cursor.activeBoot.Some? && fact.bootId.Some?
           && cursor.activeBoot.value != fact.bootId.value {
          cursor := cursor.(retired := cursor.retired + {cursor.activeBoot.value});
        }
        cursor := cursor.(mode := Versioned, activeBoot := fact.bootId, last := fact.sequence);
      }
      assert cursor.retired == Committed(old(cursors[sensor]), fact).retired;
      cursors := cursors[sensor := cursor];
    }

    method Reset(sensor: string)
      modifies this
      ensures CursorOf(sensor) == FRESH
      ensures forall other :: other != sensor ==> CursorOf(other) == old(CursorOf(other))
    {
      cursors := cursors - {sensor};
    }
  }

  // ---------------------------------------------------------------- whole runs

  function Rank(mode: Mode): nat {
    match mode case Unseen => 0 case Legacy => 1 case Versioned => 2
  }

  // A versioned cursor always knows its epoch and its counter.
  predicate WellFormed(cursor: Cursor) {
    cursor.mode == Versioned ==> !Blank(cursor.activeBoot) && cursor.last.Some?
  }

  predicate Known(cursor: Cursor, boot: string) {
    boot in cursor.retired || (cursor.mode == Versioned && cursor.activeBoot == Some(boot))
  }

  // (boot, sequence) lies behind the cursor: its epoch is closed or its counter was passed.
  predicate Spent(cursor: Cursor, boot: string, sequence: nat) {
    cursor.mode == Versioned &&
    (boot in cursor.retired ||
     (cursor.activeBoot == Some(boot) && cursor.last.Some? && sequence <= cursor.last.value))
  }

  lemma ObserveAllSplit(cursor: Cursor, before: seq<Fact>, after: seq<Fact>)
    ensures ObserveAll(cursor, before + after) == ObserveAll(ObserveAll(cursor, before), after)
  {
    hide Observe;
    if after == [] {
      assert before + after == before;
    } else {
      var n := |after| - 1;
      ObserveAllSplit(cursor, before, after[..n]);
      assert (before + after)[..|before + after| - 1] == before + after[..n];
    }
  }

  /** The mode only climbs Unseen, Legacy, Versioned, and no known boot id is forgotten. */
  lemma {:induction false} RunIsMonotone(cursor: Cursor, facts: seq<Fact>)
    requires WellFormed(cursor)
    ensures WellFormed(ObserveAll(cursor, facts))
    ensures Rank(cursor.mode) <= Rank(ObserveAll(cursor, facts).mode)
    ensures cursor.retired <= ObserveAll(cursor, facts).retired
    ensures forall boot :: Known(cursor, boot) ==> Known(ObserveAll(cursor, facts), boot)
    ensures forall boot, sequence :: Spent(cursor, boot, sequence) ==> Spent(ObserveAll(cursor, facts), boot, sequence)
  {
    if facts != [] {
      RunIsMonotone(cursor, facts[..|facts| - 1]);
    }
  }

  /**
    A versioned frame is accepted exactly when it is complete, its epoch is not retired, and it does
    not lie behind the cursor.
  */
  lemma {:induction false} VersionedAcceptedExactly(cursor: Cursor, fact: Fact)
    requires WellFormed(cursor) && fact.protocol == BootEpochV2
    ensures Evaluate(cursor, fact) == Accept <==>
            !Blank(fact.bootId) && fact.sequence.Some? && fact.bootId.value !in cursor.retired &&
            !Spent(cursor, fact.bootId.value, fact.sequence.value)
  {
  }

  /** Which refusal a versioned frame gets. */
  lemma VersionedRefusals(cursor: Cursor, fact: Fact)
    requires WellFormed(cursor) && fact.protocol == BootEpochV2
    ensures Evaluate(cursor, fact) == Invalid <==> Blank(fact.bootId) || fact.sequence.None?
    ensures Evaluate(cursor, fact) == RetiredBootId <==>
            !Blank(fact.bootId) && fact.sequence.Some? && fact.bootId.value in cursor.retired
    ensures Evaluate(cursor, fact) == Duplicate <==>
            !Blank(fact.bootId) && fact.sequence.Some? && fact.bootId.value !in cursor.retired &&
            cursor.mode == Versioned && cursor.activeBoot == fact.bootId && fact.sequence == cursor.last
    ensures Evaluate(cursor, fact) == Stale <==>
            !Blank(fact.bootId) && fact.sequence.Some? && fact.bootId.value !in cursor.retired &&
            cursor.mode == Versioned && cursor.activeBoot == fact.bootId && fact.sequence.value < cursor.last.value
    ensures Evaluate(cursor, fact) != LegacyDowngrade
  {
  }

  /**
    A legacy frame is accepted exactly when it carries no boot id, the sensor has not moved to boot
    epochs, and its counter, if both sides have one, is higher or lower by more than 1000.
  */
  lemma LegacyAcceptedExactly(cursor: Cursor, fact: Fact)
    requires fact.protocol == LegacyV1
    ensures Evaluate(cursor, fact) == Accept <==>
            Blank(fact.bootId) && cursor.mode != Versioned &&
            (fact.sequence.None? || cursor.mode == Unseen || cursor.last.None? ||
             fact.sequence.value > cursor.last.value || cursor.last.value - fact.sequence.value > 1000)
  {
  }

  /** Which refusal a legacy frame gets. */
  lemma LegacyRefusals(cursor: Cursor, fact: Fact)
    requires fact.protocol == LegacyV1
    ensures Evaluate(cursor, fact) == Invalid <==> !Blank(fact.bootId)
    ensures Evaluate(cursor, fact) == LegacyDowngrade <==> Blank(fact.bootId) && cursor.mode == Versioned
    ensures Evaluate(cursor, fact) == Duplicate <==>
            Blank(fact.bootId) && cursor.mode == Legacy && fact.sequence.Some? && fact.sequence == cursor.last
    ensures Evaluate(cursor, fact) == Stale <==>
            Blank(fact.bootId) && cursor.mode == Legacy && fact.sequence.Some? && cursor.last.Some? &&
            0 < cursor.last.value - fact.sequence.value <= 1000
    ensures Evaluate(cursor, fact) != RetiredBootId
  {
  }

  // The frames of a rebooted legacy sensor, counted up from a number.
  function Rebooted(from: nat, n: nat): seq<Fact> {
    if n == 0 then [] else Rebooted(from, n - 1) + [Fact(LegacyV1, None, Some(from + n - 1))]
  }

  /**
    A legacy sensor that reboots is heard again at once: when its frames restart more than 1000 below
    its last counter and count up, the next one is accepted at every point.
  */
  lemma {:induction false} RebootIsHeard(cursor: Cursor, from: nat, n: nat)
    requires cursor.mode == Legacy && cursor.last.Some? && from + 1000 < cursor.last.value
    ensures var after := ObserveAll(cursor, Rebooted(from, n));
            Evaluate(after, Fact(LegacyV1, None, Some(from + n))) == Accept && after.mode == Legacy &&
            (n > 0 ==> after.last == Some(from + n - 1))
  {
    if n > 0 {
      RebootIsHeard(cursor, from, n - 1);
      assert Rebooted(from, n)[..|Rebooted(from, n)| - 1] == Rebooted(from, n - 1);
    }
  }

  /** A pair (boot, sequence) that one frame of a run committed is refused at every later point of it. */
  lemma NoReplay(start: Cursor, before: seq<Fact>, fact: Fact, after: seq<Fact>, replay: Fact)
    requires WellFormed(start)
    requires fact.protocol == BootEpochV2 && Evaluate(ObserveAll(start, before), fact) == Accept
    requires replay.protocol == BootEpochV2 && replay.bootId == fact.bootId && replay.sequence == fact.sequence
    ensures Evaluate(ObserveAll(start, before + [fact] + after), replay) != Accept
  {
    var committed := ObserveAll(start, before + [fact]);
    assert (before + [fact])[..|before|] == before;
    RunIsMonotone(start, before);
    assert Spent(committed, fact.bootId.value, fact.sequence.value);
    RunIsMonotone(committed, after);
    ObserveAllSplit(start, before + [fact], after);
  }

  /** A boot id committed by a versioned frame stays the active or a retired one for the rest of the run. */
  lemma BootIdsStayKnown(start: Cursor, before: seq<Fact>, fact: Fact, after: seq<Fact>)
    requires WellFormed(start)
    requires fact.protocol == BootEpochV2 && Evaluate(ObserveAll(start, before), fact) == Accept
    ensures Known(ObserveAll(start, before + [fact] + after), fact.bootId.value)
  {
    var committed := ObserveAll(start, before + [fact]);
    assert (before + [fact])[..|before|] == before;
    RunIsMonotone(start, before);
    RunIsMonotone(committed, after);
    ObserveAllSplit(start, before + [fact], after);
  }

  /** A legacy counter that is lower after a run than before it was lowered by one frame beyond the reboot threshold. */
  lemma {:induction false} LegacyFallsOnlyByReboot(start: Cursor, facts: seq<Fact>) returns (fall: nat)
    requires start.mode == Legacy && start.last.Some? && ObserveAll(start, facts).mode == Legacy
    ensures ObserveAll(start, facts).last.Some?
    ensures ObserveAll(start, facts).last.value < start.last.value ==>
              fall < |facts| &&
              var before := ObserveAll(start, facts[..fall]);
              var after := ObserveAll(start, facts[..fall + 1]);
              before.last.Some? && after.last.Some? &&
              before.last.value > after.last.value + 1000
  {
    fall := 0;
    if facts != [] {
      var n := |facts| - 1;
      RunIsMonotone(start, facts[..n]);
      fall := LegacyFallsOnlyByReboot(start, facts[..n]);
      assert facts[..n + 1] == facts;
      if ObserveAll(start, facts[..n]).last.value >= start.last.value {
        fall := n;
      } else {
        assert facts[..n][..fall] == facts[..fall] && facts[..n][..fall + 1] == facts[..fall + 1];
      }
    }
  }

  // ---------------------------------------------------------------- the durable Hall cursor

  /** The database commit of a Hall frame: a frame without a counter leaves the row as it is. */
  function DurableCommitted(cursor: Cursor, fact: Fact): Cursor {
    if fact.sequence.None? then cursor
    else if fact.protocol == BootEpochV2 then
      Cursor(Versioned, fact.bootId, fact.sequence, cursor.retired + Displaced(cursor, fact))
    else
      Cursor(Legacy, None, fact.sequence, cursor.retired)
  }

  function ObserveDurably(cursor: Cursor, facts: seq<Fact>): Cursor {
    if facts == [] then cursor
    else
      var before := ObserveDurably(cursor, facts[..|facts| - 1]);
      var fact := facts[|facts| - 1];
      if Evaluate(before, fact) == Accept then DurableCommitted(before, fact) else before
  }

  // The durable cursor may still be unseen where the memory is legacy without a counter.
  predicate SameDecisions(memory: Cursor, durable: Cursor) {
    memory.retired == durable.retired &&
    (memory == durable ||
     (memory.mode == Legacy && durable.mode == Unseen && memory.last.None? && durable.last.None?))
  }

  /** On every stream of frames the durable cursor and the in-memory one give the same decision to every frame. */
  lemma {:induction false} DurableCursorAgrees(facts: seq<Fact>, next: Fact)
    ensures SameDecisions(ObserveAll(FRESH, facts), ObserveDurably(FRESH, facts))
    ensures Evaluate(ObserveAll(FRESH, facts), next) == Evaluate(ObserveDurably(FRESH, facts), next)
  {
    if facts != [] {
      DurableCursorAgrees(facts[..|facts| - 1], facts[|facts| - 1]);
      UnseenCursorsAreBlank(facts[..|facts| - 1]);
    }
  }

  lemma {:induction false} UnseenCursorsAreBlank(facts: seq<Fact>)
    ensures ObserveDurably(FRESH, facts).mode == Unseen ==> ObserveDurably(FRESH, facts).last.None?
    ensures ObserveDurably(FRESH, facts).mode != Versioned ==> ObserveDurably(FRESH, facts).activeBoot.None?
  {
    if facts != [] {
      UnseenCursorsAreBlank(facts[..|facts| - 1]);
    }
  }

  /** It is enough to look up the one boot id that the frame carries. */
  lemma OneRetiredBootSuffices(cursor: Cursor, fact: Fact)
    ensures var looked := if fact.bootId.Some? then cursor.retired * {fact.bootId.value} else {};
            Evaluate(cursor.(retired := looked), fact) == Evaluate(cursor, fact)
  {
  }
}
