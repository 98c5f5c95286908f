/**
  Runs of one slot watched by a camera that show where an expectation ends: an exit that waits
  behind the deadline of another exit until no deadline is left, a repeated exit that blocks a
  slot whose Hall sensor held it, and an intrusion that comes again and blocks an empty slot.
*/
module OccupancyCameraWitness {
  import opened Options
  import opened OccupancyTables
  import opened OccupancyReducer
  import opened OccupancyInbox
  import opened OccupancyWorld
  import opened OccupancyBlocked
  import opened OccupancyReplay
  import opened OccupancyLostExit
  import opened OccupancyScript
  import Sequence = SensorSequence

  // ---------------------------------------------------------------- one slot and its camera

  // What the camera of the slot's only area reports, without a track to lease.
  function Shot(slot: SlotId, name: string, action: CameraAction, hybrid: bool): Command {
    Command(slot, "", name, None,
            Camera(action, true, true, hybrid, "area", ["area"], Track("", "", "", ""), "", "", 0, Some(0), Some(0)), 0)
  }

  function Reading(slot: SlotId, name: string, state: HallState, hybrid: bool): Command {
    Command(slot, "hall", name, None, Hall(state, hybrid, Sequence.LegacyV1, None, Some(0)), 0)
  }

  function Parked(slot: SlotId, name: string, hall: bool, iva: bool, latched: bool): Session {
    Session(slot, ActiveStatus, Occupancy(External(name)), External(name), 0, None, None, hall, iva, hall, latched)
  }

  // The slot with this session only, its camera row and its deadlines; the rest as in d.
  function Watched(d: Domain, session: Session, generation: nat, state: Observed, deadlines: Deadlines): Domain {
    d.(slots := d.slots[session.slot := SlotOccupied],
       sessions := map[d.nextSession := session],
       nextSession := d.nextSession + 1,
       observations := map[session.slot := Observation(session.attempt, Some(d.nextSession), generation, state, ["area"],
                                                       map["area" := state == ObservedOccupied])],
       deadlines := deadlines)
  }

  predicate EmptyDomain(d: Domain) {
    d.sessions == map[] && d.observations == map[] && d.deadlines == map[] && d.bindings == map[] && d.cursors == map[]
  }

  predicate Commits(verdict: Verdict, domain: Domain) {
    verdict.Commit? && verdict.domain == domain && verdict.outcome.code != RejectedInvalidTimestamp
  }

  lemma OneActive(sessions: Sessions, s: SessionId, slot: SlotId)
    requires sessions.Keys == {s} && ActiveIn(sessions[s], slot)
    ensures FindActive(sessions, slot) == Some(s)
  {
  }

  lemma NothingSuperseded(d: Domain, slot: SlotId)
    requires forall x :: x in d.deadlines ==> d.deadlines[x].state != Scheduled
    ensures SupersedeScheduled(d, slot) == d
  {
    assert SupersedeScheduled(d, slot).deadlines == d.deadlines;
  }

  // An intrusion on the empty slot.
  lemma FirstIntrusion(d: Domain, slot: SlotId, name: string, n: nat)
    requires EmptyDomain(d) && slot in d.slots
    ensures Commits(Reduce(d, External(name), NewRow(Shot(slot, name, Intrusion, false), n, 0)),
                    Watched(d, Parked(slot, name, false, true, true), 1, ObservedOccupied, map[]))
  {
    hide GenerationsGrow, ObservedAt;
    assert FindActive(d.sessions, slot) == None;
    NothingSuperseded(d, slot);
  }

  // Which of the two branches of the reducer an authoritative action takes on an observed slot.
  lemma KnownAction(d: Domain, id: CommandId, row: Row)
    requires row.command.payload.Camera? && row.command.payload.authority && row.command.payload.authoritativeExit
    requires row.command.payload.configured != [] && row.command.payload.area != "" && row.command.slot in d.observations
    requires d.observations[row.command.slot].configured == row.command.payload.configured
    requires FindActive(d.sessions, row.command.slot).Some? ==>
               d.sessions[FindActive(d.sessions, row.command.slot).value].entryAt <= OccurredAt(row.command)
    ensures var o, area := d.observations[row.command.slot], row.command.payload.area;
            var left, entered := AreaActive(o.areas, area), AreaActive(o.areas, area) && o.state == ObservedOccupied;
            (row.command.payload.action == Exit ==>
               Reduce(d, id, row) ==
               CameraExit(d, row, if left then o.generation + 1 else o.generation, o.areas[area := false])) &&
            (row.command.payload.action == Intrusion ==>
               Reduce(d, id, row) ==
               CameraIntrusion(d, id, row, if entered then o.generation else o.generation + 1, o.areas[area := true]))
  {
    hide FindActive, CameraExit, CameraIntrusion, CameraEvidence, GenerationsGrow, ObservedAt, AdmittedKept;
  }

  lemma OnlySession(d: Domain, session: Session, generation: nat, state: Observed, deadlines: Deadlines)
    requires Active(session)
    ensures var w := Watched(d, session, generation, state, deadlines);
            FindActive(w.sessions, session.slot) == Some(d.nextSession) && w.sessions[d.nextSession] == session
    ensures var w := Watched(d, session, generation, state, deadlines);
            session.slot in w.observations && w.observations[session.slot].generation == generation &&
            w.observations[session.slot].configured == ["area"] && w.observations[session.slot].state == state &&
            w.observations[session.slot].areas == map["area" := state == ObservedOccupied]
  {
    OneActive(map[d.nextSession := session], d.nextSession, session.slot);
  }

  lemma Reobserved(d: Domain, session: Session, generation: nat, state: Observed, deadlines: Deadlines,
                   generation': nat, state': Observed)
    ensures var o := Observation(session.attempt, Some(d.nextSession), generation', state', ["area"],
                                 map["area" := state' == ObservedOccupied]);
            Observe(Watched(d, session, generation, state, deadlines), session.slot, o) ==
            Watched(d, session, generation', state', deadlines)
  {
    var o := Observation(session.attempt, Some(d.nextSession), generation', state', ["area"],
                         map["area" := state' == ObservedOccupied]);
    assert map[session.slot := Observation(session.attempt, Some(d.nextSession), generation, state, ["area"],
                                           map["area" := state == ObservedOccupied])][session.slot := o] ==
           map[session.slot := o];
  }

  // An intrusion while the camera waits; nothing is scheduled.
  lemma LaterIntrusion(d: Domain, session: Session, id: CommandId, name: string, n: nat, generation: nat, deadlines: Deadlines)
    requires Active(session) && session.ivaConfirmed && session.ivaOccupied && session.entryAt <= 0
    requires forall x :: x in deadlines ==> deadlines[x].state != Scheduled
    ensures Commits(Reduce(Watched(d, session, generation, VacantPending, deadlines), id,
                           NewRow(Shot(session.slot, name, Intrusion, false), n, 0)),
                    Watched(d, session, generation + 1, ObservedOccupied, deadlines))
  {
    hide Reduce, FindActive, Watched, SupersedeScheduled, ObservedAt, AllInactive, CommitCorrelation, Observe;
    var w := Watched(d, session, generation, VacantPending, deadlines);
    var row := NewRow(Shot(session.slot, name, Intrusion, false), n, 0);
    OnlySession(d, session, generation, VacantPending, deadlines);
    KnownAction(w, id, row);
    assert w.deadlines == deadlines by { WatchedFacts(d, session, generation, VacantPending, deadlines); }
    NothingSuperseded(w, session.slot);
    assert w.sessions[d.nextSession := session] == w.sessions;
    assert UpdateIva(w, d.nextSession, true, true) == w;
    assert map["area" := false]["area" := true] == map["area" := true];
    Reobserved(d, session, generation, VacantPending, deadlines, generation + 1, ObservedOccupied);
    NoLease(Watched(d, session, generation + 1, ObservedOccupied, deadlines), id, row.command, session.attempt, d.nextSession);
  }

  lemma NoLease(d: Domain, id: CommandId, command: Command, attempt: Attempt, s: SessionId)
    requires command.payload.Camera? && command.payload.correlation == ""
    ensures CommitCorrelation(d, id, command, attempt, s) == Some((d, ""))
  {
  }

  // An exit from the occupied slot.
  lemma Leaving(d: Domain, session: Session, id: CommandId, name: string, n: nat, hybrid: bool, generation: nat,
                deadlines: Deadlines)
    requires Active(session) && session.entryAt <= 0
    requires LiveOn(deadlines, session.slot) || DeadlineId(session.slot, generation + 1, d.nextSession) !in deadlines
    ensures var own := DeadlineId(session.slot, generation + 1, d.nextSession);
            var scheduled := ExitDeadline(session.attempt, 0, hybrid, Scheduled);
            Commits(Reduce(Watched(d, session, generation, ObservedOccupied, deadlines), id,
                           NewRow(Shot(session.slot, name, Exit, hybrid), n, 0)),
                    Watched(d, session, generation + 1, VacantPending,
                            if LiveOn(deadlines, session.slot) then deadlines else deadlines[own := scheduled]))
  {
    hide Reduce, FindActive, Watched, ObservedAt, AdmittedKept, LiveOn, Observe;
    var w := Watched(d, session, generation, ObservedOccupied, deadlines);
    var row := NewRow(Shot(session.slot, name, Exit, hybrid), n, 0);
    OnlySession(d, session, generation, ObservedOccupied, deadlines);
    KnownAction(w, id, row);
    WatchedFacts(d, session, generation, ObservedOccupied, deadlines);
    assert map["area" := true]["area" := false] == map["area" := false];
    assert AllInactive(["area"], map["area" := false]);
    Reobserved(d, session, generation, ObservedOccupied, deadlines, generation + 1, VacantPending);
    WatchedDeadlines(d, session, generation + 1, VacantPending, deadlines,
                     deadlines[DeadlineId(session.slot, generation + 1, d.nextSession) :=
                                 ExitDeadline(session.attempt, 0, hybrid, Scheduled)]);
  }

  lemma WatchedDeadlines(d: Domain, session: Session, generation: nat, state: Observed, deadlines: Deadlines, after: Deadlines)
    ensures Watched(d, session, generation, state, deadlines).(deadlines := after) ==
            Watched(d, session, generation, state, after)
  {
  }

  lemma NothingLive(slot: SlotId)
    ensures !LiveOn(map[], slot)
  {
  }

  lemma OneLive(x: DeadlineId, deadline: ExitDeadline)
    ensures LiveOn(map[x := deadline], x.slot) <==> Live(deadline)
  {
    assert x in map[x := deadline];
  }

  lemma SettledOne(d: Domain, session: Session, generation: nat, state: Observed, x: DeadlineId, deadline: ExitDeadline,
                   next: DeadlineState)
    ensures x in Watched(d, session, generation, state, map[x := deadline]).deadlines
    ensures SettleDeadline(Watched(d, session, generation, state, map[x := deadline]), x, next) ==
            Watched(d, session, generation, state, map[x := deadline.(state := next)])
  {
    assert map[x := deadline][x := deadline.(state := next)] == map[x := deadline.(state := next)];
  }

  // ---------------------------------------------------------------- an exit behind an older deadline

  function Older(n: SessionId, slot: SlotId): DeadlineId {
    DeadlineId(slot, 2, n)
  }

  // The exit deadline of the first exit, in this state.
  function OlderRow(state: DeadlineState): ExitDeadline {
    ExitDeadline(Occupancy(External("first")), 0, false, state)
  }

  function LateRun(n: SessionId, slot: SlotId): seq<Action> {
    [Submit("first", Shot(slot, "first", Intrusion, false), ROOM, 0), ApplyCommand(External("first"), 0),
     Submit("leave", Shot(slot, "leave", Exit, false), ROOM, 0), ApplyCommand(External("leave"), 0),
     Submit("again", Shot(slot, "again", Intrusion, false), ROOM, 0),
     Submit("gone", Shot(slot, "gone", Exit, false), ROOM, 0),
     AdmitDeadlines([Older(n, slot)], ROOM, {}, 0),
     ApplyCommand(External("again"), 0), ApplyCommand(External("gone"), 0),
     ApplyCommand(ForDeadline(Older(n, slot)), 0)]
  }

  function LateIds(n: SessionId, slot: SlotId): seq<CommandId> {
    [External("first"), External("leave"), External("again"), External("gone"), ForDeadline(Older(n, slot))]
  }

  function LateCommands(n: SessionId, slot: SlotId): seq<Command> {
    [Shot(slot, "first", Intrusion, false), Shot(slot, "leave", Exit, false), Shot(slot, "again", Intrusion, false),
     Shot(slot, "gone", Exit, false), DeadlineCommand(Older(n, slot), OlderRow(Scheduled))]
  }

  function Late(d: Domain, slot: SlotId, generation: nat, state: Observed, deadlines: Deadlines): Domain {
    Watched(d, Parked(slot, "first", false, true, true), generation, state, deadlines)
  }

  lemma ShotIsPlain(slot: SlotId, name: string, action: CameraAction, hybrid: bool)
    requires slot != "" && name != ""
    ensures var command := Shot(slot, name, action, hybrid);
            Plain(command) && command.slot == slot && command.identity == name && command.dueAt == 0 &&
            command.payload.Camera?
  {
  }

  lemma LateEnters(start: World, slot: SlotId)
    requires Fresh(start) && slot in start.tables.domain.slots && slot != ""
    ensures var d := start.tables.domain; var n := d.nextSession;
            At(Run(start, LateRun(n, slot)[..2]), Late(d, slot, 1, ObservedOccupied, map[]),
               LateIds(n, slot)[..1], LateCommands(n, slot)[..1], 1, 1)
  {
    hide Run, At, Reduce, Watched, Plain, Shot;
    var d := start.tables.domain;
    var actions, ids, commands := LateRun(d.nextSession, slot), LateIds(d.nextSession, slot), LateCommands(d.nextSession, slot);
    assert ids[..1] == [] + [ids[0]] && commands[..1] == [] + [commands[0]];
    ShotIsPlain(slot, "first", Intrusion, false);
    RunStarts(start, actions);
    RunSubmits(start, actions, 0, d, [], [], 1, 0, "first", commands[0]);
    FirstIntrusion(d, slot, "first", 1);
    RunApplies(start, actions, 1, d, ids[..1], commands[..1], 1, 0, Late(d, slot, 1, ObservedOccupied, map[]));
  }

  lemma LateLeaves(start: World, slot: SlotId)
    requires Fresh(start) && slot in start.tables.domain.slots && slot != ""
    ensures var d := start.tables.domain; var n := d.nextSession;
            At(Run(start, LateRun(n, slot)[..4]), Late(d, slot, 2, VacantPending, map[Older(n, slot) := OlderRow(Scheduled)]),
               LateIds(n, slot)[..2], LateCommands(n, slot)[..2], 1, 2)
  {
    hide Run, At, Reduce, Watched, Plain, Shot, LiveOn;
    var d, session := start.tables.domain, Parked(slot, "first", false, true, true);
    var actions, ids, commands := LateRun(d.nextSession, slot), LateIds(d.nextSession, slot), LateCommands(d.nextSession, slot);
    var older, before := Older(d.nextSession, slot), Late(d, slot, 1, ObservedOccupied, map[]);
    assert ids[..2] == ids[..1] + [ids[1]] && commands[..2] == commands[..1] + [commands[1]];
    ShotIsPlain(slot, "first", Intrusion, false);
    ShotIsPlain(slot, "leave", Exit, false);
    WatchedFacts(d, session, 1, ObservedOccupied, map[]);
    LateEnters(start, slot);
    RunSubmits(start, actions, 2, before, ids[..1], commands[..1], 1, 1, "leave", commands[1]);
    NothingLive(slot);
    Leaving(d, session, ids[1], "leave", 2, false, 1, map[]);
    assert map[][older := OlderRow(Scheduled)] == map[older := OlderRow(Scheduled)];
    RunApplies(start, actions, 3, before, ids[..2], commands[..2], 1, 1,
               Late(d, slot, 2, VacantPending, map[older := OlderRow(Scheduled)]));
  }

  // Two more commands wait when the deadline of the first exit is admitted behind them.
  lemma LateWaits(start: World, slot: SlotId)
    requires Fresh(start) && slot in start.tables.domain.slots && slot != ""
    ensures var d := start.tables.domain; var n := d.nextSession;
            At(Run(start, LateRun(n, slot)[..7]), Late(d, slot, 2, VacantPending, map[Older(n, slot) := OlderRow(Admitted)]),
               LateIds(n, slot), LateCommands(n, slot), 1, 2)
  {
    hide Run, At, Reduce, Watched, Plain, Shot, LiveOn;
    var d, session := start.tables.domain, Parked(slot, "first", false, true, true);
    var actions, ids, commands := LateRun(d.nextSession, slot), LateIds(d.nextSession, slot), LateCommands(d.nextSession, slot);
    var older := Older(d.nextSession, slot);
    var before := Late(d, slot, 2, VacantPending, map[older := OlderRow(Scheduled)]);
    assert ids[..3] == ids[..2] + [ids[2]] && commands[..3] == commands[..2] + [commands[2]];
    assert ids[..4] == ids[..3] + [ids[3]] && commands[..4] == commands[..3] + [commands[3]];
    assert ids == ids[..4] + [ids[4]] && commands == commands[..4] + [commands[4]];
    ShotIsPlain(slot, "first", Intrusion, false);
    ShotIsPlain(slot, "leave", Exit, false);
    ShotIsPlain(slot, "again", Intrusion, false);
    ShotIsPlain(slot, "gone", Exit, false);
    WatchedFacts(d, session, 2, VacantPending, map[older := OlderRow(Scheduled)]);
    LateLeaves(start, slot);
    RunSubmits(start, actions, 4, before, ids[..2], commands[..2], 1, 2, "again", commands[2]);
    RunSubmits(start, actions, 5, before, ids[..3], commands[..3], 1, 2, "gone", commands[3]);
    RunAdmits(start, actions, 6, before, ids[..4], commands[..4], 1, 2, older);
    SettledOne(d, session, 2, VacantPending, older, OlderRow(Scheduled), Admitted);
  }

  // Both are applied: the slot is entered and left again behind the admitted deadline.
  lemma LateApplies(start: World, slot: SlotId)
    requires Fresh(start) && slot in start.tables.domain.slots && slot != ""
    ensures var d := start.tables.domain; var n := d.nextSession;
            At(Run(start, LateRun(n, slot)[..9]), Late(d, slot, 4, VacantPending, map[Older(n, slot) := OlderRow(Admitted)]),
               LateIds(n, slot), LateCommands(n, slot), 1, 4)
  {
    hide Run, At, Reduce, Watched, Plain, Shot, LiveOn;
    var d, session := start.tables.domain, Parked(slot, "first", false, true, true);
    var actions, ids, commands := LateRun(d.nextSession, slot), LateIds(d.nextSession, slot), LateCommands(d.nextSession, slot);
    var older := Older(d.nextSession, slot);
    var deadlines := map[older := OlderRow(Admitted)];
    ShotIsPlain(slot, "again", Intrusion, false);
    ShotIsPlain(slot, "gone", Exit, false);
    LateWaits(start, slot);
    LaterIntrusion(d, session, ids[2], "again", 3, 2, deadlines);
    RunApplies(start, actions, 7, Late(d, slot, 2, VacantPending, deadlines), ids, commands, 1, 2,
               Late(d, slot, 3, ObservedOccupied, deadlines));
    OneLive(older, OlderRow(Admitted));
    Leaving(d, session, ids[3], "gone", 4, false, 3, deadlines);
    RunApplies(start, actions, 8, Late(d, slot, 3, ObservedOccupied, deadlines), ids, commands, 1, 3,
               Late(d, slot, 4, VacantPending, deadlines));
  }

  lemma OlderIsStale(d: Domain, slot: SlotId, n: nat)
    ensures var older := Older(d.nextSession, slot);
            Commits(Reduce(Late(d, slot, 4, VacantPending, map[older := OlderRow(Admitted)]), ForDeadline(older),
                           NewRow(DeadlineCommand(older, OlderRow(Scheduled)), n, 0)),
                    Late(d, slot, 4, VacantPending, map[older := OlderRow(Superseded)]))
  {
    hide FindActive, ApplyExit, GenerationsGrow, AdmittedKept;
    var older := Older(d.nextSession, slot);
    SettledOne(d, Parked(slot, "first", false, true, true), 4, VacantPending, older, OlderRow(Admitted), Superseded);
  }

  /**
    A second intrusion and exit are applied while the deadline of the first exit is admitted behind
    them. The camera then waits at generation 4 with only the deadline of generation 2 live; once that
    one is applied, the camera still waits, the session runs on, and no deadline is live.
  */
  lemma {:induction false} ExitWaitsBehindOlderDeadline(start: World, slot: SlotId)
    requires Fresh(start) && slot in start.tables.domain.slots && slot != ""
    ensures var n := start.tables.domain.nextSession; var actions := LateRun(n, slot);
            var waiting, lost := Run(start, actions[..9]).tables.domain, Run(start, actions).tables.domain;
            slot in waiting.observations && waiting.observations[slot].state == VacantPending &&
            waiting.observations[slot].generation == 4 && waiting.deadlines.Keys == {Older(n, slot)} &&
            waiting.deadlines[Older(n, slot)].state == Admitted && Older(n, slot).generation == 2 &&
            Lost(lost, slot) && n in lost.sessions && ActiveIn(lost.sessions[n], slot) &&
            lost.deadlines.Keys == {Older(n, slot)}
  {
    hide Run, Reduce, Watched, Plain, Shot, LiveOn, Line;
    var d, session := start.tables.domain, Parked(slot, "first", false, true, true);
    var actions, ids, commands := LateRun(d.nextSession, slot), LateIds(d.nextSession, slot), LateCommands(d.nextSession, slot);
    var older := Older(d.nextSession, slot);
    LateApplies(start, slot);
    OlderIsStale(d, slot, 5);
    RunApplies(start, actions, 9, Late(d, slot, 4, VacantPending, map[older := OlderRow(Admitted)]), ids, commands, 1, 4,
               Late(d, slot, 4, VacantPending, map[older := OlderRow(Superseded)]));
    assert actions[..10] == actions;
    WatchedFacts(d, session, 4, VacantPending, map[older := OlderRow(Admitted)]);
    WatchedFacts(d, session, 4, VacantPending, map[older := OlderRow(Superseded)]);
    OneLive(older, OlderRow(Superseded));
  }

  lemma WatchedFacts(d: Domain, session: Session, generation: nat, state: Observed, deadlines: Deadlines)
    ensures var w := Watched(d, session, generation, state, deadlines);
            w.slots.Keys == d.slots.Keys + {session.slot} && session.slot in w.observations &&
            w.observations[session.slot].state == state && w.observations[session.slot].generation == generation &&
            w.deadlines == deadlines && w.cursors == d.cursors && w.sessions == map[d.nextSession := session]
  {
  }

  // ---------------------------------------------------------------- a repeated exit from a held slot

  function HeldDeadline(n: SessionId, slot: SlotId): DeadlineId {
    DeadlineId(slot, 2, n)
  }

  function HeldRow(state: DeadlineState): ExitDeadline {
    ExitDeadline(Occupancy(External("hall")), 0, true, state)
  }

  function HeldRun(n: SessionId, slot: SlotId): seq<Action> {
    [Submit("hall", Reading(slot, "hall", HallOccupied, true), ROOM, 0), ApplyCommand(External("hall"), 0),
     Submit("enter", Shot(slot, "enter", Intrusion, true), ROOM, 0), ApplyCommand(External("enter"), 0),
     Submit("leave", Shot(slot, "leave", Exit, true), ROOM, 0), ApplyCommand(External("leave"), 0),
     AdmitDeadlines([HeldDeadline(n, slot)], ROOM, {}, 0), ApplyCommand(ForDeadline(HeldDeadline(n, slot)), 0),
     Submit("repeat", Shot(slot, "repeat", Exit, true), ROOM, 0)]
  }

  function HeldIds(n: SessionId, slot: SlotId): seq<CommandId> {
    [External("hall"), External("enter"), External("leave"), ForDeadline(HeldDeadline(n, slot)), External("repeat")]
  }

  function HeldCommands(n: SessionId, slot: SlotId): seq<Command> {
    [Reading(slot, "hall", HallOccupied, true), Shot(slot, "enter", Intrusion, true), Shot(slot, "leave", Exit, true),
     DeadlineCommand(HeldDeadline(n, slot), HeldRow(Scheduled)), Shot(slot, "repeat", Exit, true)]
  }

  // The session that the Hall sensor started, before and while the camera sees it, and after the camera let go.
  function HeldBy(slot: SlotId, seen: bool, latched: bool): Session {
    Parked(slot, "hall", true, seen, latched)
  }

  function Entered(d: Domain, session: Session): Domain {
    d.(slots := d.slots[session.slot := SlotOccupied], sessions := map[d.nextSession := session],
       nextSession := d.nextSession + 1)
  }

  lemma HallEnters(d: Domain, slot: SlotId, n: nat)
    requires EmptyDomain(d) && slot in d.slots
    ensures Commits(Reduce(d, External("hall"), NewRow(Reading(slot, "hall", HallOccupied, true), n, 0)),
                    Entered(d, HeldBy(slot, false, false)))
  {
    assert FindActive(d.sessions, slot) == None;
  }

  lemma CameraConfirms(d: Domain, slot: SlotId, n: nat)
    requires EmptyDomain(d) && slot in d.slots
    ensures Commits(Reduce(Entered(d, HeldBy(slot, false, false)), External("enter"),
                           NewRow(Shot(slot, "enter", Intrusion, true), n, 0)),
                    Watched(d, HeldBy(slot, true, true), 1, ObservedOccupied, map[]))
  {
    hide GenerationsGrow, ObservedAt;
    var w := Entered(d, HeldBy(slot, false, false));
    OneActive(w.sessions, d.nextSession, slot);
    hide FindActive;
    NothingSuperseded(w, slot);
    hide SupersedeScheduled;
    assert w.sessions[d.nextSession := HeldBy(slot, true, true)] == map[d.nextSession := HeldBy(slot, true, true)];
  }

  // The deadline falls due while the Hall sensor still holds the session.
  lemma HallHolds(d: Domain, slot: SlotId, n: nat)
    ensures var x := HeldDeadline(d.nextSession, slot);
            Commits(Reduce(Watched(d, HeldBy(slot, true, true), 2, VacantPending, map[x := HeldRow(Admitted)]), ForDeadline(x),
                           NewRow(DeadlineCommand(x, HeldRow(Scheduled)), n, 0)),
                    Watched(d, HeldBy(slot, true, false), 2, ObservedVacant, map[x := HeldRow(DeadlineApplied)]))
  {
    hide FindActive, GenerationsGrow, AdmittedKept, CloseSession;
    var x := HeldDeadline(d.nextSession, slot);
    var w := Watched(d, HeldBy(slot, true, true), 2, VacantPending, map[x := HeldRow(Admitted)]);
    OnlySession(d, HeldBy(slot, true, true), 2, VacantPending, map[x := HeldRow(Admitted)]);
    assert map[d.nextSession := HeldBy(slot, true, true)][d.nextSession := HeldBy(slot, true, false)]
        == map[d.nextSession := HeldBy(slot, true, false)];
    assert map[x := HeldRow(Admitted)][x := HeldRow(DeadlineApplied)] == map[x := HeldRow(DeadlineApplied)];
    var o := w.observations[slot].(state := ObservedVacant);
    assert w.observations[slot := o] == map[slot := o];
  }

  lemma HeldEnters(start: World, slot: SlotId)
    requires Fresh(start) && slot in start.tables.domain.slots && slot != ""
    ensures var d := start.tables.domain; var n := d.nextSession;
            At(Run(start, HeldRun(n, slot)[..4]), Watched(d, HeldBy(slot, true, true), 1, ObservedOccupied, map[]),
               HeldIds(n, slot)[..2], HeldCommands(n, slot)[..2], 1, 2)
  {
    hide Run, At, Reduce, Watched, Shot;
    var d := start.tables.domain;
    var actions, ids, commands := HeldRun(d.nextSession, slot), HeldIds(d.nextSession, slot), HeldCommands(d.nextSession, slot);
    var entered := Entered(d, HeldBy(slot, false, false));
    assert ids[..1] == [] + [ids[0]] && commands[..1] == [] + [commands[0]];
    assert ids[..2] == ids[..1] + [ids[1]] && commands[..2] == commands[..1] + [commands[1]];
    assert Plain(commands[0]);
    ShotIsPlain(slot, "enter", Intrusion, true);
    hide Plain;
    RunStarts(start, actions);
    RunSubmits(start, actions, 0, d, [], [], 1, 0, "hall", commands[0]);
    HallEnters(d, slot, 1);
    RunApplies(start, actions, 1, d, ids[..1], commands[..1], 1, 0, entered);
    RunSubmits(start, actions, 2, entered, ids[..1], commands[..1], 1, 1, "enter", commands[1]);
    CameraConfirms(d, slot, 2);
    RunApplies(start, actions, 3, entered, ids[..2], commands[..2], 1, 1,
               Watched(d, HeldBy(slot, true, true), 1, ObservedOccupied, map[]));
  }

  lemma HeldLeaves(start: World, slot: SlotId)
    requires Fresh(start) && slot in start.tables.domain.slots && slot != ""
    ensures var d := start.tables.domain; var n := d.nextSession;
            At(Run(start, HeldRun(n, slot)[..6]),
               Watched(d, HeldBy(slot, true, true), 2, VacantPending, map[HeldDeadline(n, slot) := HeldRow(Scheduled)]),
               HeldIds(n, slot)[..3], HeldCommands(n, slot)[..3], 1, 3)
  {
    hide Run, At, Reduce, Watched, Plain, Shot, LiveOn;
    var d, session := start.tables.domain, HeldBy(slot, true, true);
    var actions, ids, commands := HeldRun(d.nextSession, slot), HeldIds(d.nextSession, slot), HeldCommands(d.nextSession, slot);
    var x, before := HeldDeadline(d.nextSession, slot), Watched(d, session, 1, ObservedOccupied, map[]);
    var after := Watched(d, session, 2, VacantPending, map[x := HeldRow(Scheduled)]);
    assert ids[..3] == ids[..2] + [ids[2]] && commands[..3] == commands[..2] + [commands[2]];
    ShotIsPlain(slot, "enter", Intrusion, true);
    ShotIsPlain(slot, "leave", Exit, true);
    WatchedFacts(d, session, 1, ObservedOccupied, map[]);
    HeldEnters(start, slot);
    RunSubmits(start, actions, 4, before, ids[..2], commands[..2], 1, 2, "leave", commands[2]);
    NothingLive(slot);
    Leaving(d, session, ids[2], "leave", 3, true, 1, map[]);
    assert map[][x := HeldRow(Scheduled)] == map[x := HeldRow(Scheduled)];
    RunApplies(start, actions, 5, before, ids[..3], commands[..3], 1, 2, after);
  }

  lemma HeldAdmits(start: World, slot: SlotId)
    requires Fresh(start) && slot in start.tables.domain.slots && slot != ""
    ensures var d := start.tables.domain; var n := d.nextSession;
            At(Run(start, HeldRun(n, slot)[..7]),
               Watched(d, HeldBy(slot, true, true), 2, VacantPending, map[HeldDeadline(n, slot) := HeldRow(Admitted)]),
               HeldIds(n, slot)[..4], HeldCommands(n, slot)[..4], 1, 3)
  {
    hide Run, At, Reduce, Watched, Plain, Shot, LiveOn;
    var d, session := start.tables.domain, HeldBy(slot, true, true);
    var actions, ids, commands := HeldRun(d.nextSession, slot), HeldIds(d.nextSession, slot), HeldCommands(d.nextSession, slot);
    var x := HeldDeadline(d.nextSession, slot);
    var after := Watched(d, session, 2, VacantPending, map[x := HeldRow(Scheduled)]);
    assert ids[..4] == ids[..3] + [ids[3]] && commands[..4] == commands[..3] + [commands[3]];
    WatchedFacts(d, session, 2, VacantPending, map[x := HeldRow(Scheduled)]);
    HeldLeaves(start, slot);
    RunAdmits(start, actions, 6, after, ids[..3], commands[..3], 1, 3, x);
    SettledOne(d, session, 2, VacantPending, x, HeldRow(Scheduled), Admitted);
  }

  lemma HeldRepeats(start: World, slot: SlotId)
    requires Fresh(start) && slot in start.tables.domain.slots && slot != ""
    ensures var d := start.tables.domain; var n := d.nextSession;
            At(Run(start, HeldRun(n, slot)),
               Watched(d, HeldBy(slot, true, false), 2, ObservedVacant, map[HeldDeadline(n, slot) := HeldRow(DeadlineApplied)]),
               HeldIds(n, slot), HeldCommands(n, slot), 1, 4)
  {
    hide Run, At, Reduce, Watched, Plain, Shot, LiveOn;
    var d := start.tables.domain;
    var actions, ids, commands := HeldRun(d.nextSession, slot), HeldIds(d.nextSession, slot), HeldCommands(d.nextSession, slot);
    var x := HeldDeadline(d.nextSession, slot);
    var before := Watched(d, HeldBy(slot, true, true), 2, VacantPending, map[x := HeldRow(Admitted)]);
    var after := Watched(d, HeldBy(slot, true, false), 2, ObservedVacant, map[x := HeldRow(DeadlineApplied)]);
    assert ids == ids[..4] + [ids[4]] && commands == commands[..4] + [commands[4]];
    ShotIsPlain(slot, "enter", Intrusion, true);
    ShotIsPlain(slot, "leave", Exit, true);
    ShotIsPlain(slot, "repeat", Exit, true);
    WatchedFacts(d, HeldBy(slot, true, false), 2, ObservedVacant, map[x := HeldRow(DeadlineApplied)]);
    HeldAdmits(start, slot);
    HallHolds(d, slot, 4);
    RunApplies(start, actions, 7, before, ids[..4], commands[..4], 1, 3, after);
    RunSubmits(start, actions, 8, after, ids[..4], commands[..4], 1, 4, "repeat", commands[4]);
    assert actions[..9] == actions;
  }

  lemma LineHeads(w: World, d: Domain, ids: seq<CommandId>, commands: seq<Command>, first: nat, settled: nat)
    requires At(w, d, ids, commands, first, settled) && settled < |ids| && settled < |commands|
    requires commands[settled].dueAt <= 0
    ensures ids[settled] in w.tables.inbox && Heads(w.tables.inbox, ids[settled])
    ensures w.tables.inbox[ids[settled]].command == commands[settled]
  {
    hide Line, NewRow;
    LineRunnable(w.tables.inbox, ids, commands, first, settled);
    NewRowIs(commands[settled], first + settled);
  }

  lemma RepeatIsBlocked(d: Domain, slot: SlotId)
    ensures var x := HeldDeadline(d.nextSession, slot);
            Blocked(Watched(d, HeldBy(slot, true, false), 2, ObservedVacant, map[x := HeldRow(DeadlineApplied)]),
                    External("repeat"), Shot(slot, "repeat", Exit, true))
  {
    hide FindActive, LiveOn, IntrusionBlocked, EvidenceBlocked, Watched;
    var x := HeldDeadline(d.nextSession, slot);
    OnlySession(d, HeldBy(slot, true, false), 2, ObservedVacant, map[x := HeldRow(DeadlineApplied)]);
    WatchedFacts(d, HeldBy(slot, true, false), 2, ObservedVacant, map[x := HeldRow(DeadlineApplied)]);
    OneLive(x, HeldRow(DeadlineApplied));
  }

  /**
    Under HYBRID_OR the Hall sensor holds a session whose exit deadline was applied. When the camera
    then repeats its EXIT, that command blocks the slot: whatever follows, VACANT frames of the Hall
    sensor included, the session of the slot never ends.
  */
  lemma {:induction false} RepeatedExitBlocks(start: World, slot: SlotId)
    requires Fresh(start) && slot in start.tables.domain.slots && slot != ""
    ensures var n := start.tables.domain.nextSession; var actions := HeldRun(n, slot);
            Stuck(Run(start, actions), External("repeat")) &&
            forall after :: FindActive(Run(start, actions + after).tables.domain.sessions, slot) == Some(n)
  {
    hide Run, Reduce, Watched, Line, LiveOn, FindActive, Blocked, Heads, Shot;
    var d := start.tables.domain;
    var actions, x := HeldRun(d.nextSession, slot), HeldDeadline(d.nextSession, slot);
    var w := Run(start, actions);
    HeldRepeats(start, slot);
    ShotIsPlain(slot, "repeat", Exit, true);
    LineHeads(w, w.tables.domain, HeldIds(d.nextSession, slot), HeldCommands(d.nextSession, slot), 1, 4);
    RepeatIsBlocked(d, slot);
    OnlySession(d, HeldBy(slot, true, false), 2, ObservedVacant, map[x := HeldRow(DeadlineApplied)]);
    forall after ensures FindActive(Run(start, actions + after).tables.domain.sessions, slot) == Some(d.nextSession) {
      StuckForever(start, actions, after, External("repeat"));
    }
  }

  // ---------------------------------------------------------------- an intrusion that comes again

  function AgainRun(slot: SlotId): seq<Action> {
    [Submit("first", Shot(slot, "first", Intrusion, false), ROOM, 0), ApplyCommand(External("first"), 0),
     Submit("vacant", Reading(slot, "vacant", HallVacant, false), ROOM, 0), ApplyCommand(External("vacant"), 0),
     CompleteEffects(External("first"), 0), PurgeSettled({External("first")}, 1000, 1),
     Submit("first", Shot(slot, "first", Intrusion, false), ROOM, 0)]
  }

  function AgainIds(): seq<CommandId> {
    [External("first"), External("vacant"), External("first")]
  }

  function AgainCommands(slot: SlotId): seq<Command> {
    [Shot(slot, "first", Intrusion, false), Reading(slot, "vacant", HallVacant, false), Shot(slot, "first", Intrusion, false)]
  }

  // The session of the camera, ended by the Hall sensor.
  function Emptied(d: Domain, slot: SlotId): Domain {
    var w := Watched(d, Parked(slot, "first", false, true, true), 1, ObservedOccupied, map[]);
    w.(slots := d.slots[slot := SlotVacant],
       sessions := map[d.nextSession := Closed(Parked(slot, "first", false, true, true), External("vacant"), 0)],
       observations := map[slot := w.observations[slot].(attempt := NoAttempt, session := None, state := ObservedVacant)])
  }

  lemma HallEmpties(d: Domain, slot: SlotId, n: nat)
    requires EmptyDomain(d) && slot in d.slots
    ensures Commits(Reduce(Watched(d, Parked(slot, "first", false, true, true), 1, ObservedOccupied, map[]), External("vacant"),
                           NewRow(Reading(slot, "vacant", HallVacant, false), n, 0)),
                    Emptied(d, slot))
  {
    hide GenerationsGrow;
    var session := Parked(slot, "first", false, true, true);
    var w := Watched(d, session, 1, ObservedOccupied, map[]);
    OneActive(w.sessions, d.nextSession, slot);
    hide FindActive;
    assert UpdateHall(w, d.nextSession, false, false) == w;
    assert EndBindings(w.bindings, d.nextSession, slot, session.attempt) == map[];
    assert w.slots[slot := SlotVacant] == d.slots[slot := SlotVacant];
    assert w.sessions[d.nextSession := Closed(session, External("vacant"), 0)] ==
           map[d.nextSession := Closed(session, External("vacant"), 0)];
    assert ClearObservation(w.observations, slot, d.nextSession) == Emptied(d, slot).observations;
  }

  lemma AgainEnters(start: World, slot: SlotId)
    requires Fresh(start) && slot in start.tables.domain.slots && slot != ""
    ensures var d := start.tables.domain;
            At(Run(start, AgainRun(slot)[..2]),
               Watched(d, Parked(slot, "first", false, true, true), 1, ObservedOccupied, map[]),
               AgainIds()[..1], AgainCommands(slot)[..1], 1, 1)
  {
    hide Run, At, Reduce, Watched, Plain, Shot;
    var d, actions, ids, commands := start.tables.domain, AgainRun(slot), AgainIds(), AgainCommands(slot);
    assert ids[..1] == [] + [ids[0]] && commands[..1] == [] + [commands[0]];
    ShotIsPlain(slot, "first", Intrusion, false);
    RunStarts(start, actions);
    RunSubmits(start, actions, 0, d, [], [], 1, 0, "first", commands[0]);
    FirstIntrusion(d, slot, "first", 1);
    RunApplies(start, actions, 1, d, ids[..1], commands[..1], 1, 0,
               Watched(d, Parked(slot, "first", false, true, true), 1, ObservedOccupied, map[]));
  }

  lemma AgainEmpties(start: World, slot: SlotId)
    requires Fresh(start) && slot in start.tables.domain.slots && slot != ""
    ensures At(Run(start, AgainRun(slot)[..6]), Emptied(start.tables.domain, slot), AgainIds()[1..2],
               AgainCommands(slot)[1..2], 2, 1)
  {
    hide Run, At, Reduce, Watched, Emptied, Shot;
    var d, actions, ids, commands := start.tables.domain, AgainRun(slot), AgainIds(), AgainCommands(slot);
    var before := Watched(d, Parked(slot, "first", false, true, true), 1, ObservedOccupied, map[]);
    assert ids[..2] == ids[..1] + [ids[1]] && commands[..2] == commands[..1] + [commands[1]];
    assert ids[..2][1..] == ids[1..2] && commands[..2][1..] == commands[1..2];
    assert Plain(commands[1]);
    hide Plain;
    ShotIsPlain(slot, "first", Intrusion, false);
    WatchedFacts(d, Parked(slot, "first", false, true, true), 1, ObservedOccupied, map[]);
    AgainEnters(start, slot);
    RunSubmits(start, actions, 2, before, ids[..1], commands[..1], 1, 1, "vacant", commands[1]);
    HallEmpties(d, slot, 2);
    RunApplies(start, actions, 3, before, ids[..2], commands[..2], 1, 1, Emptied(d, slot));
    RunForgets(start, actions, 4, Emptied(d, slot), ids[..2], commands[..2], 1, 2);
  }

  lemma EmptiedFacts(d: Domain, slot: SlotId)
    requires slot in d.slots && d.cursors == map[]
    ensures slot in Emptied(d, slot).slots && Emptied(d, slot).cursors == map[]
    ensures FindActive(Emptied(d, slot).sessions, slot) == None && EntryUsed(Emptied(d, slot).sessions, External("first"))
  {
    assert d.nextSession in Emptied(d, slot).sessions;
  }

  /**
    An intrusion starts a session, the session ends, and the row of the intrusion is purged. When the
    intrusion is delivered once more, it blocks its slot: whatever follows, the slot stays without a
    session.
  */
  lemma {:induction false} ReadmittedStarterBlocks(start: World, slot: SlotId)
    requires Fresh(start) && slot in start.tables.domain.slots && slot != ""
    ensures Stuck(Run(start, AgainRun(slot)), External("first"))
    ensures forall after :: FindActive(Run(start, AgainRun(slot) + after).tables.domain.sessions, slot) == None
  {
    hide Run, At, Emptied, Plain, FindActive, EntryUsed, Blocked, Heads;
    var d, actions, ids, commands := start.tables.domain, AgainRun(slot), AgainIds(), AgainCommands(slot);
    assert ids[1..] == ids[1..2] + [ids[2]] && commands[1..] == commands[1..2] + [commands[2]];
    ShotIsPlain(slot, "first", Intrusion, false);
    AgainEmpties(start, slot);
    EmptiedFacts(d, slot);
    RunSubmits(start, actions, 6, Emptied(d, slot), ids[1..2], commands[1..2], 2, 1, "first", commands[2]);
    assert actions[..7] == actions;
    var w := Run(start, actions);
    LineHeads(w, Emptied(d, slot), ids[1..], commands[1..], 2, 1);
    AtDomain(w, Emptied(d, slot), ids[1..], commands[1..], 2, 1);
    StarterAgainIsStuckIff(w, External("first"));
    forall after ensures FindActive(Run(start, actions + after).tables.domain.sessions, slot) == None {
      StuckForever(start, actions, after, External("first"));
    }
  }

  lemma AtDomain(w: World, d: Domain, ids: seq<CommandId>, commands: seq<Command>, first: nat, settled: nat)
    requires At(w, d, ids, commands, first, settled)
    ensures w.tables.domain == d
  {
  }
}
