/**
  BestShot evidence and the parking session it belongs to. A camera object is resolved to
  the lease of one running session, and an image is attached only under exactly that lease.
  A system here is the occupancy world together with the image table.
*/
module Correlation {
  import opened Options
  import opened OccupancyTables
  import opened OccupancyDomain
  import opened OccupancyWorld
  import opened OccupancySafety
  import opened OccupancyLeases
  import opened OccupancyStore

  datatype Lease = Lease(correlation: string, attempt: Attempt, session: int, slot: SlotId, track: Track,
                         channel: string, revision: nat, expiresAt: int)

  // ---------------------------------------------------------------- resolving a camera object

  datatype Match = Unmatched | Ambiguous(candidates: set<string>) | PendingMatch(correlation: string)
                 | Unique(lease: Lease)

  predicate PendingCandidate(row: Row, camera: string, channel: string, target: string, now: int) {
    row.command.payload.Camera? && row.status == Pending && row.correlation != "" &&
    row.command.payload.action == Intrusion && row.command.payload.track.camera == camera &&
    row.command.payload.channel == channel && row.command.payload.track.objectId == target &&
    row.command.payload.expiresAt > now
  }

  predicate CommittedCandidate(b: Binding, camera: string, channel: string, target: string, now: int) {
    b.state == Committed && b.track.camera == camera && b.channel == channel && b.track.objectId == target &&
    b.expiresAt > now
  }

  function LeaseOf(correlation: string, b: Binding): Lease {
    Lease(correlation, b.attempt, b.session, b.slot, b.track, b.channel, b.revision, b.expiresAt)
  }

  // One correlation may be waiting in the inbox and committed at the same time; it is one candidate.
  function Candidates(t: Tables, camera: string, channel: string, target: string, now: int): set<string> {
    (set c | c in t.inbox && PendingCandidate(t.inbox[c], camera, channel, target, now) :: t.inbox[c].correlation) +
    (set k | k in t.domain.bindings && CommittedCandidate(t.domain.bindings[k], camera, channel, target, now))
  }

  // What a match says about the tables it was read from.
  predicate Resolves(t: Tables, camera: string, channel: string, target: string, now: int, found: Match) {
    var candidates := Candidates(t, camera, channel, target, now);
    if camera == "" || channel == "" || target == "" then found == Unmatched
    else match found
      case Unmatched => candidates == {}
      case Ambiguous(ids) => ids == candidates && |candidates| > 1
      case PendingMatch(k) =>
        candidates == {k} &&
        !(k in t.domain.bindings && CommittedCandidate(t.domain.bindings[k], camera, channel, target, now))
      case Unique(lease) =>
        var k := lease.correlation;
        candidates == {k} && k in t.domain.bindings &&
        CommittedCandidate(t.domain.bindings[k], camera, channel, target, now) &&
        lease == LeaseOf(k, t.domain.bindings[k])
  }

  // A row of the inbox or a lease serves this camera object now, under this correlation.
  predicate ServesNow(t: Tables, k: string, camera: string, channel: string, target: string, now: int) {
    (exists c :: c in t.inbox && t.inbox[c].correlation == k && k != "" && t.inbox[c].status == Pending &&
                 var p := t.inbox[c].command.payload;
                 p.Camera? && p.action == Intrusion && p.track.camera == camera && p.channel == channel &&
                 p.track.objectId == target && p.expiresAt > now) ||
    IsLeased(t, k, camera, channel, target, now)
  }

  predicate IsLeased(t: Tables, k: string, camera: string, channel: string, target: string, now: int) {
    k in t.domain.bindings &&
    var b := t.domain.bindings[k];
    b.state == Committed && b.track.camera == camera && b.channel == channel && b.track.objectId == target && b.expiresAt > now
  }

  /**
    What an answer says: a unique match is the one correlation that serves the object, and it is leased
    to it and unexpired; a pending one is the only one and waits in the inbox; an ambiguous one lists
    all of several; unmatched says that there is none.
  */
  lemma {:induction false} MatchSays(t: Tables, camera: string, channel: string, target: string, now: int, found: Match)
    requires camera != "" && channel != "" && target != "" && Resolves(t, camera, channel, target, now, found)
    ensures found.Unmatched? <==> forall k :: !ServesNow(t, k, camera, channel, target, now)
    ensures found.Ambiguous? ==>
      (forall k :: k in found.candidates <==> ServesNow(t, k, camera, channel, target, now)) && |found.candidates| > 1
    ensures found.PendingMatch? ==>
      (forall k :: ServesNow(t, k, camera, channel, target, now) <==> k == found.correlation) &&
      !IsLeased(t, found.correlation, camera, channel, target, now)
    ensures found.Unique? ==>
      var k := found.lease.correlation;
      (forall e :: ServesNow(t, e, camera, channel, target, now) <==> e == k) &&
      IsLeased(t, k, camera, channel, target, now) &&
      var b := t.domain.bindings[k];
      found.lease == Lease(k, b.attempt, b.session, b.slot, b.track, b.channel, b.revision, b.expiresAt)
  {
    forall k ensures k in Candidates(t, camera, channel, target, now) <==> ServesNow(t, k, camera, channel, target, now) {
      InInbox(t, k, camera, channel, target, now);
    }
    hide Candidates, ServesNow;
  }

  lemma InInbox(t: Tables, k: string, camera: string, channel: string, target: string, now: int)
    ensures k in Candidates(t, camera, channel, target, now) <==> ServesNow(t, k, camera, channel, target, now)
  {
    if c :| c in t.inbox && PendingCandidate(t.inbox[c], camera, channel, target, now) && t.inbox[c].correlation == k {
      assert ServesNow(t, k, camera, channel, target, now);
    }
    if c :| c in t.inbox && t.inbox[c].correlation == k && k != "" && t.inbox[c].status == Pending &&
            var p := t.inbox[c].command.payload;
            p.Camera? && p.action == Intrusion && p.track.camera == camera && p.channel == channel &&
            p.track.objectId == target && p.expiresAt > now {
      assert PendingCandidate(t.inbox[c], camera, channel, target, now);
    }
  }

  // ---------------------------------------------------------------- attaching an image

  datatype Kind = VehicleShot | PlateShot
  datatype Image = Image(session: SessionId, path: string, kind: Kind, plate: string, capturedAt: int,
                         correlation: string, target: string, reference: string, revision: nat)
  type Images = map<nat, Image>

  datatype Shelf = Shelf(images: Images, next: nat)
  datatype Attachment = Attached(id: nat) | AlreadyAttached(id: nat) | AttachConflict | NoBinding | Expired | Inactive

  datatype Evidence = Evidence(kind: Kind, reference: string, path: string, plate: string)

  predicate Complete(lease: Lease, evidence: Evidence) {
    lease.correlation != "" && lease.attempt != NoAttempt && lease.session >= 0 && lease.slot != "" &&
    lease.track.camera != "" && lease.track.source != "" && lease.track.rule != "" && lease.track.objectId != "" &&
    lease.channel != "" && lease.revision != 0 && evidence.reference != "" && evidence.path != ""
  }

  predicate IsImageOf(image: Image, correlation: string, evidence: Evidence) {
    image.correlation == correlation && image.kind == evidence.kind && image.reference == evidence.reference
  }

  ghost function FindImage(images: Images, correlation: string, evidence: Evidence): (found: Option<nat>)
    ensures found.None? ==> forall i :: i in images ==> !IsImageOf(images[i], correlation, evidence)
    ensures found.Some? ==> found.value in images && IsImageOf(images[found.value], correlation, evidence)
  {
    if i :| i in images && IsImageOf(images[i], correlation, evidence) then Some(i) else None
  }

  predicate Canonical(image: Image, lease: Lease, evidence: Evidence) {
    image.session == lease.session && image.path == evidence.path && image.target == lease.track.objectId &&
    image.revision == lease.revision && image.plate == evidence.plate
  }

  function NewImage(lease: Lease, evidence: Evidence, now: int): Image
    requires lease.session >= 0
  {
    Image(lease.session, evidence.path, evidence.kind, evidence.plate, now, lease.correlation, lease.track.objectId,
          evidence.reference, lease.revision)
  }

  ghost function Attach(d: Domain, shelf: Shelf, lease: Lease, evidence: Evidence, now: int): (Attachment, Shelf) {
    var k := lease.correlation;
    if !Complete(lease, evidence) then (AttachConflict, shelf)
    else if k !in d.bindings then (NoBinding, shelf)
    else if lease != LeaseOf(k, d.bindings[k]) then (AttachConflict, shelf)
    else
      var found := FindImage(shelf.images, k, evidence);
      if found.Some? then
        (if Canonical(shelf.images[found.value], lease, evidence) then AlreadyAttached(found.value) else AttachConflict,
         shelf)
      else if lease.expiresAt <= now then (Expired, shelf)
      else if d.bindings[k].state != Committed then (Inactive, shelf)
      else if lease.session !in d.sessions then (Inactive, shelf)
      else if d.sessions[lease.session].slot != lease.slot || d.sessions[lease.session].attempt != lease.attempt then
        (AttachConflict, shelf)
      else if !Active(d.sessions[lease.session]) then (Inactive, shelf)
      else
        (Attached(shelf.next),
         Shelf(shelf.images[shelf.next := NewImage(lease, evidence, now)], shelf.next + 1))
  }

  // ---------------------------------------------------------------- runs of the whole system

  datatype System = System(world: World, shelf: Shelf)

  datatype Deed =
    | Occupy(action: Action)
    | AttachEvidence(lease: Lease, evidence: Evidence, now: int)
    | RecognizePlate(path: string, plate: string)

  // Plate recognition rewrites the plate of every image with the path.
  function Recognized(images: Images, path: string, plate: string): Images {
    map i | i in images :: if images[i].path == path then images[i].(plate := plate) else images[i]
  }

  ghost function Step(s: System, deed: Deed): System {
    match deed
    case Occupy(action) => s.(world := Exec(s.world, action))
    case AttachEvidence(lease, evidence, now) =>
      s.(shelf := Attach(s.world.tables.domain, s.shelf, lease, evidence, now).1)
    case RecognizePlate(path, plate) =>
      s.(shelf := s.shelf.(images := Recognized(s.shelf.images, path, plate)))
  }

  ghost function Play(s: System, deeds: seq<Deed>): System {
    if deeds == [] then s else Step(Play(s, deeds[..|deeds| - 1]), deeds[|deeds| - 1])
  }

  predicate FreshSystem(s: System) {
    Fresh(s.world) && s.shelf.images == map[]
  }

  predicate OneImageEach(images: Images) {
    forall i, j :: i in images && j in images && images[i].correlation == images[j].correlation
                   && images[i].kind == images[j].kind && images[i].reference == images[j].reference
      ==> i == j
  }

  predicate ShelfOk(shelf: Shelf) {
    OneImageEach(shelf.images) && forall i :: i in shelf.images ==> i < shelf.next
  }

  lemma AttachKeepsShelf(d: Domain, shelf: Shelf, lease: Lease, evidence: Evidence, now: int)
    requires ShelfOk(shelf)
    ensures ShelfOk(Attach(d, shelf, lease, evidence, now).1)
  {
  }

  lemma StepKeeps(s: System, deed: Deed)
    requires Invariant(s.world) && ShelfOk(s.shelf)
    ensures Invariant(Step(s, deed).world) && ShelfOk(Step(s, deed).shelf)
  {
    hide Invariant, Exec, Attach;
    match deed
    case Occupy(action) => ExecKeeps(s.world, action);
    case AttachEvidence(lease, evidence, now) => AttachKeepsShelf(s.world.tables.domain, s.shelf, lease, evidence, now);
    case RecognizePlate(_, _) =>
  }

  lemma {:induction false} PlayKeeps(start: System, deeds: seq<Deed>)
    requires FreshSystem(start)
    ensures Invariant(Play(start, deeds).world) && ShelfOk(Play(start, deeds).shelf)
  {
    hide Invariant, Step;
    if deeds == [] {
      FreshIsSafe(start.world);
    } else {
      PlayKeeps(start, deeds[..|deeds| - 1]);
      StepKeeps(Play(start, deeds[..|deeds| - 1]), deeds[|deeds| - 1]);
    }
  }

  /** Recognizing a plate rewrites the plate of exactly the images with that path; the occupancy tables stay. */
  lemma RecognitionRewrites(s: System, path: string, plate: string)
    ensures var after := Step(s, RecognizePlate(path, plate));
            after.world == s.world && after.shelf.next == s.shelf.next && after.shelf.images.Keys == s.shelf.images.Keys &&
            forall i :: i in s.shelf.images ==>
              after.shelf.images[i] ==
              if s.shelf.images[i].path == path then s.shelf.images[i].(plate := plate) else s.shelf.images[i]
  {
  }

  // ---------------------------------------------------------------- leases name the running session

  predicate RunsUnder(d: Domain, lease: Lease) {
    0 <= lease.session && lease.session in d.sessions && ActiveIn(d.sessions[lease.session], lease.slot) &&
    d.sessions[lease.session].attempt == lease.attempt
  }

  lemma CommittedRuns(d: Domain, k: string)
    requires DomainOk(d) && k in d.bindings && d.bindings[k].state == Committed
    ensures RunsUnder(d, LeaseOf(k, d.bindings[k]))
  {
    hide SessionsOk, SlotsOk, ObservationsOk, DeadlinesOk, CursorsOk;
    assert BindingOk(d.bindings[k], d.sessions);
  }

  /**
    In every reachable system, a unique match is the lease of the one active session of its
    slot, under the attempt that started it.
  */
  lemma {:induction false} UniqueMatchIsActive(start: System, deeds: seq<Deed>, camera: string, channel: string,
                                                   target: string, now: int, lease: Lease)
    requires FreshSystem(start)
    requires Resolves(Play(start, deeds).world.tables, camera, channel, target, now, Unique(lease))
    ensures var d := Play(start, deeds).world.tables.domain;
            RunsUnder(d, lease) && FindActive(d.sessions, lease.slot) == Some(lease.session)
  {
    hide Invariant, Play, FreshSystem, Candidates, DomainOk, FindActive;
    PlayKeeps(start, deeds);
    var d := Play(start, deeds).world.tables.domain;
    SafeDomain(Play(start, deeds).world);
    CommittedRuns(d, lease.correlation);
    OneSession(d, lease.session);
  }

  lemma OneSession(d: Domain, s: SessionId)
    requires DomainOk(d) && s in d.sessions && Active(d.sessions[s])
    ensures FindActive(d.sessions, d.sessions[s].slot) == Some(s)
  {
    hide SlotsOk, ObservationsOk, DeadlinesOk, BindingsOk, CursorsOk;
  }

  // A new image is stored exactly under these conditions, which a reader of the binding row can check.
  predicate Attachable(d: Domain, lease: Lease, evidence: Evidence, now: int) {
    Complete(lease, evidence) && lease.correlation in d.bindings &&
    lease == LeaseOf(lease.correlation, d.bindings[lease.correlation]) &&
    d.bindings[lease.correlation].state == Committed && now < lease.expiresAt
  }

  /**
    In a reachable system new evidence is attached exactly when the binding row still holds
    this lease, committed and unexpired; and then its session is the active one of the slot.
  */
  lemma AttachesExactlyUnderLease(start: System, deeds: seq<Deed>, lease: Lease, evidence: Evidence, now: int)
    requires FreshSystem(start)
    requires FindImage(Play(start, deeds).shelf.images, lease.correlation, evidence).None?
    ensures var s := Play(start, deeds);
            var (outcome, shelf) := Attach(s.world.tables.domain, s.shelf, lease, evidence, now);
            (outcome.Attached? <==> Attachable(s.world.tables.domain, lease, evidence, now)) &&
            (!outcome.Attached? ==> shelf == s.shelf) &&
            (outcome.Attached? ==> RunsUnder(s.world.tables.domain, lease) && outcome.id !in s.shelf.images)
  {
    hide Invariant, Play, FreshSystem, DomainOk, FindImage;
    PlayKeeps(start, deeds);
    var d := Play(start, deeds).world.tables.domain;
    SafeDomain(Play(start, deeds).world);
    if Attachable(d, lease, evidence, now) { CommittedRuns(d, lease.correlation); }
  }

  /**
    The answers to new evidence in a reachable system, and the image that is stored: it names session,
    object, revision, path and plate as the lease and the evidence do.
  */
  lemma {:induction false} NewEvidenceAnswers(start: System, deeds: seq<Deed>, lease: Lease, evidence: Evidence, now: int)
    requires FreshSystem(start) && Complete(lease, evidence)
    requires FindImage(Play(start, deeds).shelf.images, lease.correlation, evidence).None?
    ensures var s, k := Play(start, deeds), lease.correlation; var bindings := s.world.tables.domain.bindings;
            var (outcome, shelf) := Attach(s.world.tables.domain, s.shelf, lease, evidence, now);
            (outcome.NoBinding? <==> k !in bindings) &&
            (outcome.AttachConflict? <==> k in bindings && lease != LeaseOf(k, bindings[k])) &&
            (outcome.Expired? <==> k in bindings && lease == LeaseOf(k, bindings[k]) && lease.expiresAt <= now) &&
            (outcome.Inactive? <==>
               k in bindings && lease == LeaseOf(k, bindings[k]) && lease.expiresAt > now && bindings[k].state != Committed) &&
            (outcome.Attached? ==>
               shelf.images == s.shelf.images[outcome.id :=
                 Image(lease.session, evidence.path, evidence.kind, evidence.plate, now, k, lease.track.objectId,
                       evidence.reference, lease.revision)])
  {
    hide Invariant, Play, FreshSystem, DomainOk, FindImage, Complete;
    PlayKeeps(start, deeds);
    var d := Play(start, deeds).world.tables.domain;
    SafeDomain(Play(start, deeds).world);
    if lease.correlation in d.bindings && d.bindings[lease.correlation].state == Committed { CommittedRuns(d, lease.correlation); }
    assert lease.session >= 0 by { CompleteSession(lease, evidence); }
  }

  lemma CompleteSession(lease: Lease, evidence: Evidence)
    requires Complete(lease, evidence)
    ensures lease.session >= 0
  {
  }

  /** No evidence ever has two image rows. */
  lemma {:induction false} EvidenceIsStoredOnce(start: System, deeds: seq<Deed>, i: nat, j: nat,
                                                    evidence: Evidence, k: string)
    requires FreshSystem(start)
    requires var images := Play(start, deeds).shelf.images;
             i in images && j in images && IsImageOf(images[i], k, evidence) && IsImageOf(images[j], k, evidence)
    ensures i == j
  {
    hide Invariant, Play, FreshSystem;
    PlayKeeps(start, deeds);
  }

  // ---------------------------------------------------------------- repeating an attach

  // An image stays where it was stored; only its plate can be rewritten.
  predicate ImageKept(before: Image, after: Image) {
    after == before.(plate := after.plate)
  }

  predicate SystemKept(before: System, after: System) {
    LeasesKept(before.world.tables.domain.bindings, after.world.tables.domain.bindings) &&
    forall i :: i in before.shelf.images ==>
      i in after.shelf.images && ImageKept(before.shelf.images[i], after.shelf.images[i])
  }

  lemma StepKept(s: System, deed: Deed)
    requires ShelfOk(s.shelf)
    ensures SystemKept(s, Step(s, deed))
  {
    hide Exec, LeasesKept, FindImage;
    SameLeases(s.world.tables.domain.bindings);
    if deed.Occupy? { ExecLeases(s.world, deed.action); }
  }

  lemma KeptTwice(a: System, b: System, c: System)
    requires SystemKept(a, b) && SystemKept(b, c)
    ensures SystemKept(a, c)
  {
  }

  lemma PlaySplit(s: System, before: seq<Deed>, after: seq<Deed>)
    ensures Play(s, before + after) == Play(Play(s, before), after)
  {
    hide Step;
    if after == [] {
      assert before + after == before;
    } else {
      var n := |after| - 1;
      PlaySplit(s, before, after[..n]);
      assert (before + after)[..|before + after| - 1] == before + after[..n];
    }
  }

  lemma {:induction false} PlayKept(start: System, before: seq<Deed>, after: seq<Deed>)
    requires FreshSystem(start)
    ensures SystemKept(Play(start, before), Play(start, before + after))
  {
    hide Step, Invariant, SystemKept, FreshSystem;
    if after == [] {
      assert before + after == before;
      SelfKept(Play(start, before));
    } else {
      var n := |after| - 1;
      assert (before + after)[..|before + after| - 1] == before + after[..n];
      PlayKept(start, before, after[..n]);
      PlayKeeps(start, before + after[..n]);
      StepKept(Play(start, before + after[..n]), after[n]);
      KeptTwice(Play(start, before), Play(start, before + after[..n]), Play(start, before + after));
    }
  }

  lemma SelfKept(s: System)
    ensures SystemKept(s, s)
  {
  }

  /**
    Repeating an attach that stored image `id`, at any time and after any further run, answers
    AlreadyAttached with the same id exactly while the lease revision and the stored plate are
    unchanged, and Conflict otherwise; it stores nothing.
  */
  lemma RepeatedAttachIsRecognized(start: System, before: seq<Deed>, after: seq<Deed>, lease: Lease, evidence: Evidence,
                                   now: int, later: int, id: nat)
    requires FreshSystem(start)
    requires var s := Play(start, before);
             Attach(s.world.tables.domain, s.shelf, lease, evidence, now).0 == Attached(id)
    ensures var s := Play(start, before + [AttachEvidence(lease, evidence, now)] + after);
            var d := s.world.tables.domain;
            lease.correlation in d.bindings && id in s.shelf.images &&
            var same := d.bindings[lease.correlation].revision == lease.revision &&
                        s.shelf.images[id].plate == evidence.plate;
            Attach(d, s.shelf, lease, evidence, later) ==
              (if same then AlreadyAttached(id) else AttachConflict, s.shelf)
  {
    hide Invariant, Play, FreshSystem, FindImage;
    var deed := AttachEvidence(lease, evidence, now);
    var s, stored := Play(start, before), Play(start, before + [deed]);
    assert stored == Step(s, deed) by { PlaySplit(start, before, [deed]); PlayOne(s, deed); }
    PlayKept(start, before + [deed], after);
    PlayKeeps(start, before + [deed] + after);
    var d, shelf := Play(start, before + [deed] + after).world.tables.domain, Play(start, before + [deed] + after).shelf;
    assert id in stored.shelf.images && IsImageOf(stored.shelf.images[id], lease.correlation, evidence);
    assert FindImage(shelf.images, lease.correlation, evidence) == Some(id);
  }

  lemma PlayOne(s: System, deed: Deed)
    ensures Play(s, [deed]) == Step(s, deed)
  {
    hide Step;
    assert [deed][..0] == [];
  }

  // ---------------------------------------------------------------- the database methods

  class EvidenceLog {
    const store: Store
    var images: Images
    var next: nat

    constructor (store: Store)
      ensures this.store == store && images == map[] && next == 1
    {
      this.store := store;
      images, next := map[], 1;
    }

    ghost function Waiting(rows: set<CommandId>, camera: string, channel: string, target: string, now: int): set<string>
      reads store
    {
      set c | c in rows && c in store.inbox && PendingCandidate(store.inbox[c], camera, channel, target, now)
        :: store.inbox[c].correlation
    }

    method CollectPending(camera: string, channel: string, target: string, now: int)
      returns (candidates: map<string, Option<Lease>>)
      ensures candidates.Keys == Waiting(store.inbox.Keys, camera, channel, target, now)
      ensures forall k :: k in candidates ==> candidates[k] == None
    {
      candidates := map[];
      var rows := store.inbox.Keys;
      while rows != {}
        invariant rows <= store.inbox.Keys
        invariant candidates.Keys == Waiting(store.inbox.Keys - rows, camera, channel, target, now)
        invariant forall k :: k in candidates ==> candidates[k] == None
        decreases rows
      {
        var c :| c in rows;
        assert store.inbox.Keys - (rows - {c}) == (store.inbox.Keys - rows) + {c};
        if PendingCandidate(store.inbox[c], camera, channel, target, now)
           && store.inbox[c].correlation !in candidates {
          candidates := candidates[store.inbox[c].correlation := None];
        }
        rows := rows - {c};
      }
    }

    predicate Serves(k: string, camera: string, channel: string, target: string, now: int)
      reads store
    {
      k in store.bindings && CommittedCandidate(store.bindings[k], camera, channel, target, now)
    }

    method CollectCommitted(pending: map<string, Option<Lease>>, camera: string, channel: string, target: string,
                            now: int)
      returns (candidates: map<string, Option<Lease>>)
      requires forall k :: k in pending ==> pending[k] == None
      ensures forall k :: k in candidates <==> k in pending || Serves(k, camera, channel, target, now)
      ensures forall k :: k in candidates ==>
        candidates[k] == if Serves(k, camera, channel, target, now) then Some(LeaseOf(k, store.bindings[k])) else None
    {
      candidates := pending;
      var rest := store.bindings.Keys;
      while rest != {}
        invariant rest <= store.bindings.Keys
        invariant forall k :: k in candidates <==>
                                k in pending || (k !in rest && Serves(k, camera, channel, target, now))
        invariant forall k :: k in candidates ==>
                                candidates[k] == if k !in rest && Serves(k, camera, channel, target, now)
                                                 then Some(LeaseOf(k, store.bindings[k])) else None
        decreases rest
      {
        var k :| k in rest;
        if Serves(k, camera, channel, target, now) {
          candidates := candidates[k := Some(LeaseOf(k, store.bindings[k]))];
        }
        rest := rest - {k};
      }
    }

    /** Collects the candidates of the inbox and of the lease table in one map, which merges an id found in both. */
    method ResolveParkingCorrelation(camera: string, channel: string, target: string, now: int) returns (found: Match)
      ensures Resolves(store.Contents(), camera, channel, target, now, found)
    {
      hide PendingCandidate, CommittedCandidate;
      if camera == "" || channel == "" || target == "" {
        return Unmatched;
      }
      var pending := CollectPending(camera, channel, target, now);
      var candidates := CollectCommitted(pending, camera, channel, target, now);
      assert candidates.Keys == Candidates(store.Contents(), camera, channel, target, now);
      if candidates.Keys == {} {
        return Unmatched;
      }
      if |candidates.Keys| > 1 {
        return Ambiguous(candidates.Keys);
      }
      var k :| k in candidates.Keys;
      Singleton(candidates.Keys, k);
      found := if candidates[k].Some? then Unique(candidates[k].value) else PendingMatch(k);
    }

    ghost function Stored(): Shelf
      reads this
    {
      Shelf(images, next)
    }

    method LookupImage(correlation: string, evidence: Evidence) returns (found: Option<nat>)
      requires OneImageEach(images)
      ensures found == FindImage(images, correlation, evidence)
    {
      found := None;
      var rest := images.Keys;
      while rest != {} && found.None?
        invariant rest <= images.Keys
        invariant found.Some? ==> found.value in images && IsImageOf(images[found.value], correlation, evidence)
        invariant found.None? ==> forall i :: i in images && i !in rest ==> !IsImageOf(images[i], correlation, evidence)
        decreases rest
      {
        var i :| i in rest;
        if IsImageOf(images[i], correlation, evidence) {
          found := Some(i);
        }
        rest := rest - {i};
      }
    }

    method AttachBestShotIfActive(lease: Lease, evidence: Evidence, now: int) returns (outcome: Attachment)
      requires ShelfOk(Stored())
      modifies this
      ensures (outcome, Stored()) == Attach(store.Dom(), old(Stored()), lease, evidence, now)
      ensures ShelfOk(Stored())
    {
      hide FindImage;
      AttachKeepsShelf(store.Dom(), Stored(), lease, evidence, now);
      if !Complete(lease, evidence) {
        return AttachConflict;
      }
      if lease.correlation !in store.bindings {
        return NoBinding;
      }
      var binding := store.bindings[lease.correlation];
      if lease != LeaseOf(lease.correlation, binding) {
        return AttachConflict;
      }
      var existing := LookupImage(lease.correlation, evidence);
      if existing.Some? {
        return if Canonical(images[existing.value], lease, evidence) then AlreadyAttached(existing.value)
               else AttachConflict;
      }
      if binding.expiresAt <= now {
        return Expired;
      }
      if binding.state != Committed || lease.session !in store.sessions {
        return Inactive;
      }
      var session := store.sessions[lease.session];
      if session.slot != lease.slot || session.attempt != lease.attempt {
        return AttachConflict;
      }
      if !Active(session) {
        return Inactive;
      }
      images := images[next := NewImage(lease, evidence, now)];
      outcome := Attached(next);
      next := next + 1;
    }
  }

  lemma Singleton(s: set<string>, k: string)
    requires k in s && |s| <= 1
    ensures s == {k}
  {
    assert |s - {k}| == |s| - 1;
  }
}
