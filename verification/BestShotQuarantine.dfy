/**
  BestShot metadata that waits for its correlation to commit. Items leave the queue while a
  reconciliation works on them, possibly several at once, and their identities stay reserved;
  other threads enqueue meanwhile. Every step below is one locked region of the program.
*/
module BestShotQuarantine {

  // ---------------------------------------------------------------- identities

  datatype Kind = Vehicle | Plate
  datatype Metadata = Metadata(camera: string, channel: string, target: string, kind: Kind, reference: string,
                               createdAt: int)

  function KindName(kind: Kind): string {
    match kind case Vehicle => "BESTSHOT_VEHICLE" case Plate => "BESTSHOT_PLATE"
  }

  function Digit(n: nat): char
    requires n < 10
  {
    ('0' as int + n) as char
  }

  function Decimal(n: nat): string {
    if n < 10 then [Digit(n)] else Decimal(n / 10) + [Digit(n % 10)]
  }

  // A value behind its length, so that no value can imitate a separator.
  function Field(value: string): string {
    Decimal(|value|) + ":" + value + "|"
  }

  function Fields(values: seq<string>): string {
    if values == [] then "" else Field(values[0]) + Fields(values[1..])
  }

  function Parts(m: Metadata): seq<string> {
    [m.camera, m.channel, m.target, KindName(m.kind), m.reference]
  }

  function IdentityKey(m: Metadata): string {
    Fields(Parts(m))
  }

  function Value(digits: string): int {
    if digits == [] then 0 else 10 * Value(digits[..|digits| - 1]) + (digits[|digits| - 1] as int - '0' as int)
  }

  lemma {:induction false} DecimalTellsNumber(n: nat)
    ensures Value(Decimal(n)) == n && ':' !in Decimal(n)
  {
    if n >= 10 {
      DecimalTellsNumber(n / 10);
      assert Decimal(n)[..|Decimal(n)| - 1] == Decimal(n / 10);
    }
  }

  lemma FirstColon(p: string, q: string, u: string, v: string)
    requires p + (":" + u) == q + (":" + v) && ':' !in q
    ensures |q| <= |p|
  {
    assert (p + (":" + u))[|p|] == ':' && (q + (":" + v))[..|q|] == q;
  }

  lemma SamePrefix(p: string, q: string, u: string, v: string)
    requires |p| == |q| && p + u == q + v
    ensures p == q && u == v
  {
    assert (p + u)[..|p|] == p && (q + v)[..|p|] == q && (p + u)[|p|..] == u && (q + v)[|p|..] == v;
  }

  lemma FieldLayout(value: string, tail: string)
    ensures Field(value) + tail == Decimal(|value|) + (":" + (value + ("|" + tail)))
  {
    hide Decimal;
  }

  lemma FieldIsPrefixFree(a: string, b: string, x: string, y: string)
    requires Field(a) + x == Field(b) + y
    ensures a == b && x == y
  {
    DecimalTellsNumber(|a|);
    DecimalTellsNumber(|b|);
    hide Decimal, Value, Field;
    FieldLayout(a, x);
    FieldLayout(b, y);
    var p, q := Decimal(|a|), Decimal(|b|);
    var u, v := a + ("|" + x), b + ("|" + y);
    FirstColon(p, q, u, v);
    FirstColon(q, p, v, u);
    SamePrefix(p, q, ":" + u, ":" + v);
    SamePrefix(":", ":", u, v);
    SamePrefix(a, b, "|" + x, "|" + y);
    SamePrefix("|", "|", x, y);
  }

  lemma {:induction false} FieldsTellValues(a: seq<string>, b: seq<string>)
    requires |a| == |b| && Fields(a) == Fields(b)
    ensures a == b
  {
    hide Field;
    if a != [] {
      FieldIsPrefixFree(a[0], b[0], Fields(a[1..]), Fields(b[1..]));
      FieldsTellValues(a[1..], b[1..]);
      assert a == [a[0]] + a[1..] && b == [b[0]] + b[1..];
    }
  }

  /** Two metadata items have one identity key exactly when they agree on everything but the time. */
  lemma IdentityIsExact(a: Metadata, b: Metadata)
    ensures IdentityKey(a) == IdentityKey(b) <==> a.(createdAt := b.createdAt) == b
  {
    hide Fields;
    if IdentityKey(a) == IdentityKey(b) {
      FieldsTellValues(Parts(a), Parts(b));
      var p, q := Parts(a), Parts(b);
      assert p[0] == q[0] && p[1] == q[1] && p[2] == q[2] && p[3] == q[3] && p[4] == q[4];
      assert |KindName(Vehicle)| != |KindName(Plate)|;
    }
    assert a.(createdAt := b.createdAt) == b ==> Parts(a) == Parts(b);
  }

  // ---------------------------------------------------------------- the quarantine and its steps

  datatype Quarantine = Quarantine(queue: seq<Metadata>, out: seq<Metadata>, index: set<string>)

  datatype Step = Enqueue(item: Metadata) | TakeAll | Settle(position: nat, retry: bool)

  function Enqueued(q: Quarantine, item: Metadata, capacity: nat): Quarantine {
    var key := IdentityKey(item);
    if key in q.index then q
    else if |q.index| >= capacity then
      if q.queue == [] then q
      else q.(queue := q.queue[1..] + [item], index := q.index - {IdentityKey(q.queue[0])} + {key})
    else q.(queue := q.queue + [item], index := q.index + {key})
  }

  // The item at this position comes back from its reconciliation, to wait on or for good.
  function Settled(q: Quarantine, position: nat, retry: bool): Quarantine {
    if position >= |q.out| then q
    else
      var item, others := q.out[position], q.out[..position] + q.out[position + 1..];
      if retry then q.(queue := q.queue + [item], out := others)
      else q.(out := others, index := q.index - {IdentityKey(item)})
  }

  function Exec(q: Quarantine, step: Step, capacity: nat): Quarantine {
    match step
    case Enqueue(item) => Enqueued(q, item, capacity)
    case TakeAll => q.(queue := [], out := q.out + q.queue)
    case Settle(position, retry) => Settled(q, position, retry)
  }

  function Run(steps: seq<Step>, capacity: nat): Quarantine {
    if steps == [] then Quarantine([], [], {})
    else Exec(Run(steps[..|steps| - 1], capacity), steps[|steps| - 1], capacity)
  }

  function Bag(items: seq<Metadata>): multiset<string> {
    if items == [] then multiset{} else Bag(items[..|items| - 1]) + multiset{IdentityKey(items[|items| - 1])}
  }

  // The index holds exactly the identities of what waits and of what is out, each of them once.
  predicate Consistent(q: Quarantine) {
    Bag(q.queue) + Bag(q.out) == multiset(q.index)
  }

  predicate Holds(q: Quarantine, item: Metadata) {
    item in q.queue || item in q.out
  }

  lemma {:induction false} BagSize(items: seq<Metadata>)
    ensures |Bag(items)| == |items|
  {
    if items != [] { BagSize(items[..|items| - 1]); }
  }

  lemma {:induction false} BagSum(left: seq<Metadata>, right: seq<Metadata>)
    ensures Bag(left + right) == Bag(left) + Bag(right)
  {
    hide IdentityKey;
    if right == [] {
      assert left + right == left;
    } else {
      var n := |right| - 1;
      BagSum(left, right[..n]);
      assert (left + right)[..|left + right| - 1] == left + right[..n];
    }
  }

  lemma BagOfOne(item: Metadata)
    ensures Bag([item]) == multiset{IdentityKey(item)}
  {
    hide IdentityKey;
    assert [item][..0] == [];
  }

  lemma {:induction false} HeldInBag(items: seq<Metadata>, i: nat)
    requires i < |items|
    ensures IdentityKey(items[i]) in Bag(items)
  {
    hide IdentityKey;
    if i < |items| - 1 { HeldInBag(items[..|items| - 1], i); }
  }

  lemma IndexSize(q: Quarantine)
    requires Consistent(q)
    ensures |q.index| == |q.queue| + |q.out|
  {
    BagSize(q.queue);
    BagSize(q.out);
    assert |multiset(q.index)| == |q.index|;
  }

  lemma KeyIsIndexed(q: Quarantine, item: Metadata)
    requires Consistent(q) && Holds(q, item)
    ensures IdentityKey(item) in q.index
  {
    hide IdentityKey, Bag;
    if item in q.queue {
      var i :| 0 <= i < |q.queue| && q.queue[i] == item;
      HeldInBag(q.queue, i);
    } else {
      var i :| 0 <= i < |q.out| && q.out[i] == item;
      HeldInBag(q.out, i);
    }
    assert IdentityKey(item) in multiset(q.index);
  }

  lemma IndexGrows(index: set<string>, key: string)
    requires key !in index
    ensures multiset(index + {key}) == multiset(index) + multiset{key} && |index + {key}| == |index| + 1
  {
  }

  lemma IndexShrinks(index: set<string>, key: string)
    requires key in index
    ensures multiset(index - {key}) == multiset(index) - multiset{key} && |index - {key}| == |index| - 1
  {
  }

  lemma Appended(items: seq<Metadata>, item: Metadata)
    ensures Bag(items + [item]) == Bag(items) + multiset{IdentityKey(item)}
  {
    hide IdentityKey;
    assert (items + [item])[..|items|] == items;
  }

  lemma Headed(items: seq<Metadata>)
    requires items != []
    ensures Bag(items) == multiset{IdentityKey(items[0])} + Bag(items[1..])
  {
    hide IdentityKey;
    assert [items[0]] + items[1..] == items;
    BagSum([items[0]], items[1..]);
    BagOfOne(items[0]);
  }

  lemma EnqueueKeeps(q: Quarantine, item: Metadata, capacity: nat)
    requires Consistent(q) && |q.index| <= capacity && capacity > 0
    ensures Consistent(Enqueued(q, item, capacity)) && |Enqueued(q, item, capacity).index| <= capacity
  {
    hide IdentityKey, Bag;
    var key := IdentityKey(item);
    if key !in q.index {
      if |q.index| < capacity {
        Appended(q.queue, item);
        IndexGrows(q.index, key);
      } else if q.queue != [] {
        var oldest := IdentityKey(q.queue[0]);
        KeyIsIndexed(q, q.queue[0]);
        Headed(q.queue);
        Appended(q.queue[1..], item);
        IndexShrinks(q.index, oldest);
        IndexGrows(q.index - {oldest}, key);
      }
    }
  }

  lemma Removed(items: seq<Metadata>, position: nat)
    requires position < |items|
    ensures Bag(items) == Bag(items[..position] + items[position + 1..]) + multiset{IdentityKey(items[position])}
  {
    hide IdentityKey;
    var item, front, back := items[position], items[..position], items[position + 1..];
    assert front + ([item] + back) == items;
    BagSum(front, [item] + back);
    BagSum([item], back);
    BagOfOne(item);
    BagSum(front, back);
  }

  lemma SettleKeeps(q: Quarantine, position: nat, retry: bool)
    requires Consistent(q)
    ensures Consistent(Settled(q, position, retry)) && |Settled(q, position, retry).index| <= |q.index|
  {
    hide IdentityKey, Bag;
    if position < |q.out| {
      var item := q.out[position];
      Removed(q.out, position);
      KeyIsIndexed(q, item);
      Appended(q.queue, item);
      IndexShrinks(q.index, IdentityKey(item));
    }
  }

  /**
    In every interleaving of arrivals and reconciliations the index is exact, every identity is held
    once, and no more than `capacity` items are held, counting those that are out.
  */
  lemma {:induction false} QuarantineIsBounded(steps: seq<Step>, capacity: nat)
    requires capacity > 0
    ensures var q := Run(steps, capacity); Consistent(q) && |q.queue| + |q.out| == |q.index| <= capacity
  {
    hide Enqueued, Settled, Consistent;
    if steps == [] {
      assert Consistent(Run(steps, capacity)) by { NothingHeld(); }
    } else {
      var q, step := Run(steps[..|steps| - 1], capacity), steps[|steps| - 1];
      QuarantineIsBounded(steps[..|steps| - 1], capacity);
      match step {
        case Enqueue(item) => EnqueueKeeps(q, item, capacity);
        case TakeAll => assert Consistent(Exec(q, step, capacity)) by { TakeKeeps(q); }
        case Settle(position, retry) => SettleKeeps(q, position, retry);
      }
    }
    IndexSize(Run(steps, capacity));
  }

  lemma NothingHeld()
    ensures Consistent(Quarantine([], [], {}))
  {
    var index: set<string> := {};
    assert multiset(index) == multiset{};
  }

  lemma TakeKeeps(q: Quarantine)
    requires Consistent(q)
    ensures Consistent(q.(queue := [], out := q.out + q.queue))
  {
    BagSum(q.out, q.queue);
  }

  // No step replaces a held item by another of its identity.
  lemma HeldItemStays(q: Quarantine, step: Step, capacity: nat, item: Metadata)
    requires Consistent(q) && Holds(q, item) && IdentityKey(item) in Exec(q, step, capacity).index
    ensures Holds(Exec(q, step, capacity), item)
  {
    hide IdentityKey, Consistent, Bag;
    match step {
      case Enqueue(_) =>
        if q.queue != [] {
          assert q.queue == [q.queue[0]] + q.queue[1..];
          KeyIsIndexed(q, q.queue[0]);
        }
      case TakeAll =>
      case Settle(position, retry) =>
        if position < |q.out| {
          assert q.out == q.out[..position] + [q.out[position]] + q.out[position + 1..];
        }
    }
  }

  /**
    As long as an identity stays held, it is held with the first-seen time it came with: however often
    its evidence is delivered again, its expiry does not move.
  */
  lemma {:induction false} RedeliveryCannotExtend(before: seq<Step>, after: seq<Step>, capacity: nat, item: Metadata)
    requires capacity > 0 && Holds(Run(before, capacity), item)
    requires forall i :: 0 <= i <= |after| ==> IdentityKey(item) in Run(before + after[..i], capacity).index
    ensures Holds(Run(before + after, capacity), item)
  {
    hide IdentityKey, Exec, Consistent, Holds;
    if after == [] {
      assert before + after == before;
    } else {
      var n := |after| - 1;
      assert (before + after)[..|before + after| - 1] == before + after[..n] && after[..|after|] == after;
      forall i | 0 <= i <= n ensures IdentityKey(item) in Run(before + after[..n][..i], capacity).index {
        assert after[..n][..i] == after[..i];
      }
      RedeliveryCannotExtend(before, after[..n], capacity, item);
      QuarantineIsBounded(before + after[..n], capacity);
      HeldItemStays(Run(before + after[..n], capacity), after[n], capacity, item);
    }
  }

  // ---------------------------------------------------------------- the receiver's locked regions

  class Pending {
    const capacity: nat
    var queue: seq<Metadata>
    var index: set<string>
    ghost var out: seq<Metadata>

    ghost function State(): Quarantine
      reads this
    {
      Quarantine(queue, out, index)
    }

    constructor (capacity: nat)
      ensures this.capacity == (if capacity > 1 then capacity else 1) && State() == Quarantine([], [], {})
    {
      this.capacity := if capacity > 1 then capacity else 1;
      queue, index, out := [], {}, [];
    }

    method EnqueuePending(item: Metadata) returns (queued: bool)
      modifies this
      ensures queued <==> IdentityKey(item) !in old(index) && (|old(index)| < capacity || old(queue) != [])
      ensures !queued ==> State() == old(State())
      ensures queued && |old(index)| < capacity ==>
        queue == old(queue) + [item] && index == old(index) + {IdentityKey(item)} && out == old(out)
      ensures queued && |old(index)| >= capacity ==>
        old(queue) != [] && queue == old(queue)[1..] + [item] && out == old(out) &&
        index == old(index) - {IdentityKey(old(queue)[0])} + {IdentityKey(item)}
      ensures State() == Exec(old(State()), Enqueue(item), capacity)
    {
      hide IdentityKey;
      var key := IdentityKey(item);
      if key in index {
        return false;
      }
      if |index| >= capacity {
        if queue == [] {
          return false;
        }
        index := index - {IdentityKey(queue[0])};
        queue := queue[1..];
      }
      index := index + {key};
      queue := queue + [item];
      assert key in index && key !in old(index);
      queued := true;
    }

    method TakePending() returns (taken: seq<Metadata>)
      modifies this
      ensures taken == old(queue) && queue == [] && out == old(out) + taken && index == old(index)
      ensures State() == Exec(old(State()), TakeAll, capacity)
    {
      taken := queue;
      queue := [];
      out := out + taken;
    }

    method SettleItem(item: Metadata, retry: bool, ghost position: nat)
      requires position < |out| && out[position] == item
      modifies this
      ensures out == old(out)[..position] + old(out)[position + 1..]
      ensures if retry then queue == old(queue) + [item] && index == old(index)
              else queue == old(queue) && index == old(index) - {IdentityKey(item)}
      ensures State() == Exec(old(State()), Settle(position, retry), capacity)
    {
      out := out[..position] + out[position + 1..];
      if retry {
        queue := queue + [item];
      } else {
        index := index - {IdentityKey(item)};
      }
    }
  }
}
