/**
  Correlation leases over a run: a lease is never deleted or handed to another session or
  track, its revision never falls, and its expiry moves only together with its revision.
*/
module OccupancyLeases {
  import opened Options
  import opened OccupancyTables
  import opened OccupancyReducer
  import opened OccupancyInbox
  import opened OccupancyWorld
  import opened OccupancySafety
  import opened OccupancyExit
  import Sequence = SensorSequence

  predicate LeaseKept(before: Binding, after: Binding) {
    after.source == before.source && after.attempt == before.attempt && after.session == before.session &&
    after.slot == before.slot &&
    after.track == before.track && after.channel == before.channel && before.revision <= after.revision &&
    (after.revision == before.revision ==> after.expiresAt == before.expiresAt) &&
    (after.state == Committed ==> before.state == Committed)
  }

  predicate LeasesKept(before: Bindings, after: Bindings) {
    forall c :: c in before ==> c in after && LeaseKept(before[c], after[c])
  }

  lemma SameLeases(bindings: Bindings)
    ensures LeasesKept(bindings, bindings)
  {
  }

  lemma CloseLeases(d: Domain, s: SessionId, id: CommandId, command: Command)
    requires s in d.sessions && CloseSession(d, s, id, command).Some?
    ensures LeasesKept(d.bindings, CloseSession(d, s, id, command).value.bindings)
  {
    hide ExitUsed, ClearObservation, Closed, GenerationsGrow;
  }

  lemma CorrelationLeases(d: Domain, id: CommandId, command: Command, attempt: Attempt, s: SessionId)
    requires command.payload.Camera? && CommitCorrelation(d, id, command, attempt, s).Some?
    ensures LeasesKept(d.bindings, CommitCorrelation(d, id, command, attempt, s).value.0.bindings)
  {
    hide SourceUsed;
  }

  lemma HallLeases(d: Domain, id: CommandId, row: Row)
    requires row.command.payload.Hall? && ReduceHall(d, id, row).Commit?
    ensures LeasesKept(d.bindings, ReduceHall(d, id, row).domain.bindings)
  {
    hide HallFrame, FindActive, CloseSession, LeasesKept, EntryUsed, Sequence.Evaluate, Sequence.DurableCommitted;
    SameLeases(d.bindings);
    var c := row.command;
    if FindActive(d.sessions, c.slot).Some? {
      var s := FindActive(d.sessions, c.slot).value;
      var lowered := UpdateHall(d, s, d.sessions[s].hallConfirmed, false);
      if CloseSession(lowered, s, id, c).Some? { CloseLeases(lowered, s, id, c); }
    }
  }

  lemma IntrusionOnLeases(d: Domain, id: CommandId, row: Row, s: SessionId, attempt: Attempt, code: Code,
                          generation: nat, areas: map<string, bool>)
    requires row.command.payload.Camera? && IntrusionOn(d, id, row, s, attempt, code, generation, areas).Commit?
    ensures LeasesKept(d.bindings, IntrusionOn(d, id, row, s, attempt, code, generation, areas).domain.bindings)
  {
    hide CommitCorrelation, LeasesKept, ObservedAt;
    var observed := Observe(d, row.command.slot, Observation(attempt, Some(s), generation, ObservedOccupied,
                                                             row.command.payload.configured, areas));
    CorrelationLeases(observed, id, row.command, attempt, s);
  }

  lemma IntrusionLeases(d: Domain, id: CommandId, row: Row, generation: nat, areas: map<string, bool>)
    requires row.command.payload.Camera? && CameraIntrusion(d, id, row, generation, areas).Commit?
    ensures LeasesKept(d.bindings, CameraIntrusion(d, id, row, generation, areas).domain.bindings)
  {
    hide FindActive, LeasesKept, CreateSession, SupersedeScheduled, ObservedAt, IntrusionOn;
    var c := row.command;
    var superseded := SupersedeScheduled(d, c.slot);
    SupersedeBindings(d, c.slot);
    var active := FindActive(d.sessions, c.slot);
    if active.Some? {
      IntrusionOnLeases(UpdateIva(superseded, active.value, true, true), id, row, active.value,
                        d.sessions[active.value].attempt, NoChange, generation, areas);
    } else {
      IntrusionOnLeases(CreateSession(superseded, id, c).value, id, row, d.nextSession, Occupancy(id),
                        SessionStarted, generation, areas);
    }
  }

  lemma SupersedeBindings(d: Domain, slot: SlotId)
    ensures SupersedeScheduled(d, slot) == d.(deadlines := SupersedeScheduled(d, slot).deadlines)
  {
  }

  lemma EvidenceLeases(d: Domain, id: CommandId, row: Row)
    requires row.command.payload.Camera? && CameraEvidence(d, id, row).Commit?
    ensures LeasesKept(d.bindings, CameraEvidence(d, id, row).domain.bindings)
  {
    hide FindActive, CommitCorrelation, LeasesKept;
    SameLeases(d.bindings);
    if FindActive(d.sessions, row.command.slot).Some? {
      var s := FindActive(d.sessions, row.command.slot).value;
      if CommitCorrelation(d, id, row.command, d.sessions[s].attempt, s).Some? {
        CorrelationLeases(d, id, row.command, d.sessions[s].attempt, s);
      }
    }
  }

  lemma CameraLeases(d: Domain, id: CommandId, row: Row)
    requires row.command.payload.Camera? && ReduceCamera(d, id, row).Commit?
    ensures LeasesKept(d.bindings, ReduceCamera(d, id, row).domain.bindings)
  {
    hide FindActive, LeasesKept, CameraEvidence, CameraIntrusion, CameraExit, GenerationsGrow, ObservedAt, AdmittedKept;
    SameLeases(d.bindings);
    if CameraEvidence(d, id, row).Commit? { EvidenceLeases(d, id, row); }
    forall generation, areas | CameraIntrusion(d, id, row, generation, areas).Commit? {
      IntrusionLeases(d, id, row, generation, areas);
    }
  }

  lemma DeadlineLeases(d: Domain, id: CommandId, row: Row)
    requires row.command.payload.Deadline? && ReduceDeadline(d, id, row).Commit?
    ensures LeasesKept(d.bindings, ReduceDeadline(d, id, row).domain.bindings)
  {
    hide FindActive, LeasesKept, CloseSession, GenerationsGrow, AdmittedKept;
    SameLeases(d.bindings);
    if DeadlineOwnsSlot(d, row) && ExitStillStands(d, row) {
      var p := row.command.payload;
      var lowered := SettleDeadline(UpdateIva(d, p.session, d.sessions[p.session].ivaConfirmed, false), p.deadline,
                                    DeadlineApplied);
      if CloseSession(lowered, p.session, id, row.command).Some? {
        CloseLeases(lowered, p.session, id, row.command);
      }
    }
  }

  lemma ReduceLeases(d: Domain, id: CommandId, row: Row)
    requires Reduce(d, id, row).Commit?
    ensures LeasesKept(d.bindings, Reduce(d, id, row).domain.bindings)
  {
    hide LeasesKept, ReduceHall, ReduceCamera, ReduceDeadline;
    match row.command.payload
    case Hall(_, _, _, _, _) => HallLeases(d, id, row);
    case Camera(_, _, _, _, _, _, _, _, _, _, _, _) => CameraLeases(d, id, row);
    case Deadline(_, _, _, _, _) => DeadlineLeases(d, id, row);
  }

  lemma QuietLeases(w: World, action: Action)
    requires !action.ApplyCommand?
    ensures Exec(w, action).tables.domain.bindings == w.tables.domain.bindings
  {
    hide Runnable, EffectReady, PurgeBatch, PendingIds, FindIdentity, FindCandidate, HallRefused, SourceFact;
    hide AfterCancel, TopOrdinal, NewRow, AdmitBatch, StampedBatch;
    if action.AdmitDeadlines? && DueBatch(w.tables, action.now, action.capacity, action.blocked, action.batch) {
      BatchDomain(w.tables, action.batch, TopOrdinal(w.tables.inbox), action.now);
    }
  }

  /** No step of the occupancy machine deletes a lease, moves it or turns its revision back. */
  lemma {:induction false} ExecLeases(w: World, action: Action)
    ensures LeasesKept(w.tables.domain.bindings, Exec(w, action).tables.domain.bindings)
  {
    hide LeasesKept;
    SameLeases(w.tables.domain.bindings);
    if action.ApplyCommand? {
      hide Runnable, Reduce, AppliedHistory;
      if Runnable(w.tables.inbox, action.now, action.id) {
        RunnableIsPending(w.tables.inbox, action.now, action.id);
        if Reduce(w.tables.domain, action.id, w.tables.inbox[action.id]).Commit? {
          ReduceLeases(w.tables.domain, action.id, w.tables.inbox[action.id]);
        }
      }
    } else {
      hide Exec;
      QuietLeases(w, action);
    }
  }
}
