/**
  The login rate limiter: a bounded table that remembers, per source and account, the
  failures of the last window and until when further attempts are refused.
*/
module LoginRates {
  import opened Options

  const MAX_ENTRIES: nat := 4096
  const INT_MAX: int := 0x7FFF_FFFF

  datatype Config = Config(window: int, maxFailures: int, cooldown: int)

  // The constructor refuses every other configuration.
  predicate ValidConfig(config: Config) {
    config.window > 0 && config.maxFailures > 0 && config.cooldown > 0
  }

  datatype RateState = RateState(failures: seq<int>, blockedUntil: int, lastSeen: int)
  type Table = map<string, RateState>

  const BLANK: RateState := RateState([], 0, 0)

  // ---------------------------------------------------------------- one key

  function DropOld(failures: seq<int>, cutoff: int): seq<int> {
    if failures != [] && failures[0] <= cutoff then DropOld(failures[1..], cutoff) else failures
  }

  function Pruned(config: Config, s: RateState, now: int): RateState {
    s.(failures := DropOld(s.failures, now - config.window),
       blockedUntil := if s.blockedUntil <= now then 0 else s.blockedUntil)
  }

  function Seen(config: Config, s: RateState, now: int): RateState {
    Pruned(config, s, now).(lastSeen := now)
  }

  function Failed(config: Config, s: RateState, now: int): RateState {
    var seen := Seen(config, s, now);
    var failures := seen.failures + [now];
    RateState(failures, if |failures| >= config.maxFailures then now + config.cooldown else seen.blockedUntil, now)
  }

  predicate Forgotten(s: RateState) {
    s.failures == [] && s.blockedUntil == 0
  }

  // ---------------------------------------------------------------- the table

  function Swept(config: Config, t: Table, now: int): Table {
    map k | k in t && !Forgotten(Pruned(config, t[k], now)) :: Pruned(config, t[k], now)
  }

  // What the eviction loop may remove from a full table: the longest unseen entries, until there is room.
  predicate EvictionOk(t: Table, evicted: set<string>) {
    evicted <= t.Keys && |t| - |evicted| == MAX_ENTRIES - 1 &&
    forall k, e :: k in t && k !in evicted && e in evicted ==> t[e].lastSeen <= t[k].lastSeen
  }

  function Bounded(config: Config, t: Table, now: int, evicted: set<string>): Table {
    var swept := Swept(config, t, now);
    if |swept| < MAX_ENTRIES then swept else swept - evicted
  }

  function RetryAfter(config: Config, t: Table, key: string, now: int): Option<int> {
    if key in t && Seen(config, t[key], now).blockedUntil > now then
      var remaining := Seen(config, t[key], now).blockedUntil - now;
      Some(if remaining < INT_MAX then remaining else INT_MAX)
    else None
  }

  function Checked(config: Config, t: Table, key: string, now: int): Table {
    if key in t then t[key := Seen(config, t[key], now)] else t
  }

  function Recorded(config: Config, t: Table, key: string, now: int, evicted: set<string>): Table {
    var room := if key in t then t else Bounded(config, t, now, evicted);
    room[key := Failed(config, if key in room then room[key] else BLANK, now)]
  }

  // ---------------------------------------------------------------- logins

  datatype Check = Wrong | Right | Broken
  datatype Attempt = Attempt(key: string, now: int, check: Check, evicted: set<string>)
  datatype Answer = RateLimited(retryAfter: int) | InvalidCredentials | Success | Unavailable

  function AnswerTo(config: Config, t: Table, a: Attempt): Answer {
    match RetryAfter(config, t, a.key, a.now)
    case Some(retry) => RateLimited(retry)
    case None => match a.check case Wrong => InvalidCredentials case Right => Success case Broken => Unavailable
  }

  function After(config: Config, t: Table, a: Attempt): Table {
    var checked := Checked(config, t, a.key, a.now);
    match AnswerTo(config, t, a)
    case InvalidCredentials => Recorded(config, checked, a.key, a.now, a.evicted)
    case Success => checked - {a.key}
    case _ => checked
  }

  // An attempt names an eviction that the loop could make, if it has to make one.
  predicate EvictsProperly(config: Config, t: Table, a: Attempt) {
    var swept := Swept(config, t, a.now);
    AnswerTo(config, t, a) == InvalidCredentials && a.key !in t && |swept| >= MAX_ENTRIES ==>
      EvictionOk(swept, a.evicted)
  }

  function Run(config: Config, t: Table, attempts: seq<Attempt>): Table {
    if attempts == [] then t else After(config, Run(config, t, attempts[..|attempts| - 1]), attempts[|attempts| - 1])
  }

  function Answers(config: Config, t: Table, attempts: seq<Attempt>): seq<Answer> {
    if attempts == [] then []
    else
      var n := |attempts| - 1;
      Answers(config, t, attempts[..n]) + [AnswerTo(config, Run(config, t, attempts[..n]), attempts[n])]
  }

  // ---------------------------------------------------------------- the table is bounded

  ghost predicate ProperRun(config: Config, t: Table, attempts: seq<Attempt>) {
    forall i :: 0 <= i < |attempts| ==> EvictsProperly(config, Run(config, t, attempts[..i]), attempts[i])
  }

  lemma DroppedSize(t: Table, gone: set<string>)
    requires gone <= t.Keys
    ensures |t - gone| == |t| - |gone|
  {
    assert (t - gone).Keys == t.Keys - gone;
    assert t.Keys == (t.Keys - gone) + gone;
  }

  lemma KeptSize(t: Table, key: string, s: RateState)
    ensures key in t ==> |t[key := s]| == |t|
    ensures key !in t ==> |t[key := s]| == |t| + 1
  {
    if key in t {
      assert t[key := s].Keys == t.Keys;
    } else {
      assert t[key := s].Keys == t.Keys + {key};
    }
  }

  lemma BoundMakesRoom(config: Config, t: Table, now: int, evicted: set<string>)
    requires var swept := Swept(config, t, now); |swept| >= MAX_ENTRIES ==> EvictionOk(swept, evicted)
    ensures |Bounded(config, t, now, evicted)| < MAX_ENTRIES
  {
    hide Swept;
    var swept := Swept(config, t, now);
    if |swept| >= MAX_ENTRIES { DroppedSize(swept, evicted); }
  }

  lemma AfterIsBounded(config: Config, t: Table, a: Attempt)
    requires |t| <= MAX_ENTRIES && EvictsProperly(config, t, a)
    ensures |After(config, t, a)| <= MAX_ENTRIES
  {
    hide Swept, Bounded, Failed, Seen, RetryAfter;
    var checked := Checked(config, t, a.key, a.now);
    if a.key in t { KeptSize(t, a.key, Seen(config, t[a.key], a.now)); }
    match AnswerTo(config, t, a)
    case InvalidCredentials =>
      if a.key !in t { BoundMakesRoom(config, t, a.now, a.evicted); }
      var room := if a.key in checked then checked else Bounded(config, checked, a.now, a.evicted);
      KeptSize(room, a.key, Failed(config, if a.key in room then room[a.key] else BLANK, a.now));
    case Success =>
      if a.key in checked {
        DroppedSize(checked, {a.key});
      } else {
        assert checked - {a.key} == checked;
      }
    case _ =>
  }

  lemma ProperBefore(config: Config, t: Table, attempts: seq<Attempt>)
    requires attempts != [] && ProperRun(config, t, attempts)
    ensures var n := |attempts| - 1;
            ProperRun(config, t, attempts[..n]) && EvictsProperly(config, Run(config, t, attempts[..n]), attempts[n])
  {
    hide Run, EvictsProperly;
    var n := |attempts| - 1;
    forall i | 0 <= i < n ensures EvictsProperly(config, Run(config, t, attempts[..n][..i]), attempts[..n][i]) {
      assert attempts[..n][..i] == attempts[..i];
    }
  }

  /** The table never holds more than 4096 keys. */
  lemma {:induction false} TableStaysBounded(config: Config, t: Table, attempts: seq<Attempt>)
    requires |t| <= MAX_ENTRIES && ProperRun(config, t, attempts)
    ensures |Run(config, t, attempts)| <= MAX_ENTRIES
  {
    hide After, EvictsProperly;
    if attempts != [] {
      var n := |attempts| - 1;
      ProperBefore(config, t, attempts);
      TableStaysBounded(config, t, attempts[..n]);
      AfterIsBounded(config, Run(config, t, attempts[..n]), attempts[n]);
    }
  }

  // ---------------------------------------------------------------- how many failures fit in a window

  // The times at which attempts for the key were answered with InvalidCredentials.
  function FailureTimes(config: Config, t: Table, attempts: seq<Attempt>, key: string): seq<int> {
    if attempts == [] then []
    else
      var n := |attempts| - 1;
      var a := attempts[n];
      FailureTimes(config, t, attempts[..n], key) +
      if a.key == key && AnswerTo(config, Run(config, t, attempts[..n]), a) == InvalidCredentials then [a.now] else []
  }

  predicate Ascending(times: seq<int>) {
    forall i, j :: 0 <= i < j < |times| ==> times[i] <= times[j]
  }

  predicate ClockGoesOn(attempts: seq<Attempt>) {
    forall i, j :: 0 <= i < j < |attempts| ==> attempts[i].now <= attempts[j].now
  }

  // The key neither logs in nor is evicted.
  predicate Persistent(attempts: seq<Attempt>, key: string) {
    forall i :: 0 <= i < |attempts| ==>
      key !in attempts[i].evicted && (attempts[i].key == key ==> attempts[i].check != Right)
  }

  // The last `maxFailures` failures up to position i fall in one window.
  predicate Full(config: Config, times: seq<int>, i: nat)
    requires i < |times|
  {
    0 < config.maxFailures <= i + 1 && times[i] - times[i + 1 - config.maxFailures] < config.window
  }

  // After a full window the next failure waits for the cooldown.
  predicate Spaced(config: Config, times: seq<int>) {
    forall i :: 0 <= i < |times| - 1 && Full(config, times, i) ==> times[i] + config.cooldown <= times[i + 1]
  }

  function StateOf(t: Table, key: string): RateState {
    if key in t then t[key] else BLANK
  }

  // What an entry remembers of all failures of its key, at time `now`.
  predicate Remembers(config: Config, s: RateState, times: seq<int>, now: int) {
    var gone := |times| - |s.failures|;
    gone >= 0 && s.failures == times[gone..] &&
    (forall i :: 0 <= i < gone ==> times[i] <= now - config.window) &&
    (times != [] && Full(config, times, |times| - 1) ==>
       s.blockedUntil == times[|times| - 1] + config.cooldown || times[|times| - 1] + config.cooldown <= now) &&
    (s.blockedUntil > now ==>
       times != [] && Full(config, times, |times| - 1) && s.blockedUntil == times[|times| - 1] + config.cooldown)
  }

  lemma {:induction false} DropOldKeeps(failures: seq<int>, cutoff: int)
    ensures var kept := DropOld(failures, cutoff); var gone := |failures| - |kept|;
            gone >= 0 && kept == failures[gone..] && forall i :: 0 <= i < gone ==> failures[i] <= cutoff
  {
    if failures != [] && failures[0] <= cutoff {
      DropOldKeeps(failures[1..], cutoff);
      var gone := |failures| - |DropOld(failures, cutoff)|;
      forall i | 0 <= i < gone ensures failures[i] <= cutoff {
        if i > 0 { assert failures[1..][i - 1] == failures[i]; }
      }
    }
  }

  lemma PrunedRemembers(config: Config, s: RateState, times: seq<int>, before: int, now: int)
    requires Remembers(config, s, times, before) && before <= now && now >= 0
    ensures Remembers(config, Pruned(config, s, now), times, now)
  {
    hide Full;
    DropOldKeeps(s.failures, now - config.window);
    var kept := DropOld(s.failures, now - config.window);
    var gone := |times| - |kept|;
    forall i | 0 <= i < gone ensures times[i] <= now - config.window {
      if i >= |times| - |s.failures| { assert s.failures[i - (|times| - |s.failures|)] == times[i]; }
    }
  }

  lemma FullPrefix(config: Config, times: seq<int>, now: int, i: nat)
    requires i < |times|
    ensures Full(config, times + [now], i) <==> Full(config, times, i)
  {
  }

  lemma SpacedGrows(config: Config, s: RateState, times: seq<int>, before: int, now: int)
    requires Remembers(config, s, times, before) && before <= now && s.blockedUntil <= now && Spaced(config, times)
    ensures Spaced(config, times + [now])
  {
    var after := times + [now];
    hide Full;
    forall i | 0 <= i < |after| - 1 && Full(config, after, i) ensures after[i] + config.cooldown <= after[i + 1] {
      FullPrefix(config, times, now, i);
    }
  }

  // A full window up to now is still remembered whole, so the failure that fills it blocks the key.
  lemma FullIsCounted(config: Config, failures: seq<int>, times: seq<int>, now: int)
    requires ValidConfig(config) && times != [] && times[|times| - 1] == now && Full(config, times, |times| - 1)
    requires |failures| <= |times| && failures == times[|times| - |failures|..]
    requires forall i :: 0 <= i < |times| - |failures| ==> times[i] <= now - config.window
    ensures |failures| >= config.maxFailures
  {
    assert times[|times| - config.maxFailures] > now - config.window;
  }

  // Only a full window up to now is counted as full.
  lemma CountedIsFull(config: Config, failures: seq<int>, times: seq<int>, now: int)
    requires ValidConfig(config) && times != [] && times[|times| - 1] == now && Ascending(times)
    requires |failures| <= |times| && failures == times[|times| - |failures|..] && |failures| >= config.maxFailures
    requires failures[0] > now - config.window
    ensures Full(config, times, |times| - 1)
  {
    assert failures[0] == times[|times| - |failures|] <= times[|times| - config.maxFailures];
  }

  lemma {:induction false} DropOldKeepsNew(failures: seq<int>, cutoff: int)
    ensures DropOld(failures, cutoff) != [] ==> DropOld(failures, cutoff)[0] > cutoff
  {
    if failures != [] && failures[0] <= cutoff { DropOldKeepsNew(failures[1..], cutoff); }
  }

  // The failures that are kept, and the new one, are the last ones of the key, and all lie in the window.
  lemma KeptFailures(config: Config, s: RateState, times: seq<int>, before: int, now: int)
    requires ValidConfig(config) && Remembers(config, s, times, before) && 0 <= before <= now
    ensures var failures, after := Pruned(config, s, now).failures + [now], times + [now];
            |failures| <= |after| && failures == after[|after| - |failures|..] && failures[0] > now - config.window &&
            forall i :: 0 <= i < |after| - |failures| ==> after[i] <= now - config.window
  {
    hide DropOld, Full;
    PrunedRemembers(config, s, times, before, now);
    DropOldKeepsNew(s.failures, now - config.window);
  }

  lemma FailedRemembers(config: Config, s: RateState, times: seq<int>, before: int, now: int)
    requires ValidConfig(config) && Remembers(config, s, times, before) && 0 <= before <= now && s.blockedUntil <= now
    requires Ascending(times + [now])
    ensures Remembers(config, Failed(config, s, now), times + [now], now)
  {
    KeptFailures(config, s, times, before, now);
    hide DropOld, Full, Ascending;
    var after, failures := times + [now], Pruned(config, s, now).failures + [now];
    if Full(config, after, |after| - 1) { FullIsCounted(config, failures, after, now); }
    if |failures| >= config.maxFailures { CountedIsFull(config, failures, after, now); }
  }

  lemma BlankRemembers(config: Config, s: RateState, times: seq<int>, now: int)
    requires Remembers(config, s, times, now) && Forgotten(s) && now >= 0
    requires times != [] ==> times[|times| - 1] >= 0 && config.cooldown > 0
    ensures Remembers(config, BLANK, times, now)
  {
  }

  lemma SweptState(config: Config, t: Table, now: int, key: string, times: seq<int>, before: int)
    requires ValidConfig(config) && Remembers(config, StateOf(t, key), times, before) && 0 <= before <= now
    requires times != [] ==> times[|times| - 1] >= 0
    ensures Remembers(config, StateOf(Swept(config, t, now), key), times, now)
  {
    PrunedRemembers(config, StateOf(t, key), times, before, now);
    if key in t && Forgotten(Pruned(config, t[key], now)) {
      BlankRemembers(config, Pruned(config, t[key], now), times, now);
    }
  }

  // What a whole run keeps for one key that neither logs in nor is evicted.
  predicate Tracks(config: Config, t: Table, key: string, times: seq<int>, now: int) {
    Remembers(config, StateOf(t, key), times, now) && Spaced(config, times) && Ascending(times) &&
    forall i :: 0 <= i < |times| ==> 0 <= times[i] <= now
  }

  lemma TracksLater(config: Config, t: Table, key: string, times: seq<int>, before: int, now: int)
    requires ValidConfig(config) && Tracks(config, t, key, times, before) && 0 <= before <= now
    ensures Tracks(config, t, key, times, now)
    ensures Tracks(config, Swept(config, t, now), key, times, now)
    ensures key in t ==> Remembers(config, Seen(config, t[key], now), times, now)
  {
    PrunedRemembers(config, StateOf(t, key), times, before, now);
    SweptState(config, t, now, key, times, before);
  }

  // Attempts for other keys.
  lemma OtherAttempt(config: Config, t: Table, a: Attempt, key: string, times: seq<int>, before: int)
    requires ValidConfig(config) && Tracks(config, t, key, times, before) && 0 <= before <= a.now
    requires a.key != key && key !in a.evicted
    ensures Tracks(config, After(config, t, a), key, times, a.now)
  {
    hide Swept, Failed, Seen, Spaced, Ascending, Remembers, Tracks;
    TracksLater(config, t, key, times, before, a.now);
    var checked := Checked(config, t, a.key, a.now);
    assert StateOf(checked, key) == StateOf(t, key);
    SameState(config, t, After(config, t, a), key, times, a.now);
    SameState(config, Swept(config, checked, a.now), After(config, t, a), key, times, a.now);
    if a.key !in t { assert checked == t; }
  }

  lemma SameState(config: Config, t: Table, t': Table, key: string, times: seq<int>, now: int)
    ensures StateOf(t, key) == StateOf(t', key) && Tracks(config, t, key, times, now) ==>
      Tracks(config, t', key, times, now)
  {
  }

  // A refused or unavailable attempt for the key itself.
  lemma QuietAttempt(config: Config, t: Table, a: Attempt, times: seq<int>, before: int)
    requires ValidConfig(config) && Tracks(config, t, a.key, times, before) && 0 <= before <= a.now
    requires AnswerTo(config, t, a).RateLimited? || AnswerTo(config, t, a).Unavailable?
    ensures Tracks(config, After(config, t, a), a.key, times, a.now)
  {
    hide Swept, Pruned, Spaced, Ascending, Remembers;
    TracksLater(config, t, a.key, times, before, a.now);
  }

  lemma FailedAttempt(config: Config, t: Table, a: Attempt, times: seq<int>, before: int)
    requires ValidConfig(config) && Tracks(config, t, a.key, times, before) && 0 <= before <= a.now
    requires a.key !in a.evicted && AnswerTo(config, t, a) == InvalidCredentials
    ensures Tracks(config, After(config, t, a), a.key, times + [a.now], a.now)
  {
    hide Swept, DropOld, Spaced, Remembers;
    TracksLater(config, t, a.key, times, before, a.now);
    var checked := Checked(config, t, a.key, a.now);
    var room := if a.key in checked then checked else Bounded(config, checked, a.now, a.evicted);
    assert Remembers(config, StateOf(room, a.key), times, a.now) by { RoomRemembers(config, t, a, times); }
    assert StateOf(room, a.key).blockedUntil <= a.now by { RoomIsOpen(config, t, a); }
    SpacedGrows(config, StateOf(room, a.key), times, a.now, a.now);
    FailedRemembers(config, StateOf(room, a.key), times, a.now, a.now);
  }

  lemma RoomRemembers(config: Config, t: Table, a: Attempt, times: seq<int>)
    requires a.key !in a.evicted
    requires Remembers(config, StateOf(Swept(config, t, a.now), a.key), times, a.now)
    requires a.key in t ==> Remembers(config, Seen(config, t[a.key], a.now), times, a.now)
    ensures var checked := Checked(config, t, a.key, a.now);
            var room := if a.key in checked then checked else Bounded(config, checked, a.now, a.evicted);
            Remembers(config, StateOf(room, a.key), times, a.now)
  {
    hide Remembers, Swept, Seen;
  }

  lemma RoomIsOpen(config: Config, t: Table, a: Attempt)
    requires AnswerTo(config, t, a) == InvalidCredentials && a.now >= 0
    ensures var checked := Checked(config, t, a.key, a.now);
            var room := if a.key in checked then checked else Bounded(config, checked, a.now, a.evicted);
            StateOf(room, a.key).blockedUntil <= a.now
  {
    hide DropOld;
  }

  lemma {:induction false} RunTracks(config: Config, start: Table, attempts: seq<Attempt>, key: string)
    requires ValidConfig(config) && ClockGoesOn(attempts) && Persistent(attempts, key) && key !in start
    requires forall i :: 0 <= i < |attempts| ==> attempts[i].now >= 0
    ensures var now := if attempts == [] then 0 else attempts[|attempts| - 1].now;
            Tracks(config, Run(config, start, attempts), key, FailureTimes(config, start, attempts, key), now)
  {
    hide After, Tracks, AnswerTo;
    if attempts == [] {
      assert Tracks(config, start, key, [], 0) by { NothingToTrack(config, start, key); }
    } else {
      var n := |attempts| - 1;
      var t, a := Run(config, start, attempts[..n]), attempts[n];
      RunTracks(config, start, attempts[..n], key);
      var times := FailureTimes(config, start, attempts[..n], key);
      var before := if n == 0 then 0 else attempts[n - 1].now;
      AnswerKinds(config, t, a);
      if a.key != key {
        OtherAttempt(config, t, a, key, times, before);
        assert FailureTimes(config, start, attempts, key) == times;
      } else if AnswerTo(config, t, a) == InvalidCredentials {
        FailedAttempt(config, t, a, times, before);
      } else {
        QuietAttempt(config, t, a, times, before);
        assert FailureTimes(config, start, attempts, key) == times;
      }
    }
  }

  lemma AnswerKinds(config: Config, t: Table, a: Attempt)
    ensures AnswerTo(config, t, a) == Success ==> a.check == Right
  {
  }

  lemma NothingToTrack(config: Config, start: Table, key: string)
    requires key !in start
    ensures Tracks(config, start, key, [], 0)
  {
  }

  lemma {:induction false} CooldownsAddUp(config: Config, times: seq<int>, i: nat, extra: nat)
    requires ValidConfig(config) && Spaced(config, times) && Ascending(times)
    requires var last := i + config.maxFailures - 1 + extra;
             last < |times| && times[last] - times[i] < config.window
    ensures times[i + config.maxFailures - 1] + extra * config.cooldown <= times[i + config.maxFailures - 1 + extra]
  {
    hide Full, Spaced;
    if extra == 0 {
      assert extra * config.cooldown == 0;
    } else {
      var last := i + config.maxFailures - 1 + extra;
      assert times[last - 1] <= times[last];
      CooldownsAddUp(config, times, i, extra - 1);
      FullBefore(config, times, i, last - 1);
      assert times[last - 1] + config.cooldown <= times[last] by { SpacedAt(config, times, last - 1); }
      OneMoreCooldown(extra - 1, config.cooldown);
    }
  }

  lemma SpacedAt(config: Config, times: seq<int>, i: nat)
    requires Spaced(config, times) && i + 1 < |times| && Full(config, times, i)
    ensures times[i] + config.cooldown <= times[i + 1]
  {
    hide Full;
  }

  lemma FullBefore(config: Config, times: seq<int>, i: nat, j: nat)
    requires ValidConfig(config) && Ascending(times)
    requires i + config.maxFailures - 1 <= j < |times| && times[j] - times[i] < config.window
    ensures Full(config, times, j)
  {
    assert times[i] <= times[j + 1 - config.maxFailures];
  }

  lemma OneMoreCooldown(n: int, cooldown: int)
    ensures (n + 1) * cooldown == n * cooldown + cooldown
  {
  }

  /**
    For a key that neither logs in nor is evicted, the n failures inside any one window satisfy
    n <= maxFailures or (n - maxFailures) * cooldown < window, however the attempts are spread.
  */
  lemma FailuresInAWindow(config: Config, attempts: seq<Attempt>, key: string, i: nat, j: nat)
    requires ValidConfig(config) && ClockGoesOn(attempts) && Persistent(attempts, key)
    requires forall k :: 0 <= k < |attempts| ==> attempts[k].now >= 0
    requires var times := FailureTimes(config, map[], attempts, key);
             i <= j < |times| && times[j] - times[i] < config.window
    ensures var n := j + 1 - i;
            n <= config.maxFailures || (n - config.maxFailures) * config.cooldown < config.window
  {
    hide Run, After, FailureTimes;
    RunTracks(config, map[], attempts, key);
    var times := FailureTimes(config, map[], attempts, key);
    if j + 1 - i > config.maxFailures {
      CooldownsAddUp(config, times, i, j + 1 - i - config.maxFailures);
      assert times[i] <= times[i + config.maxFailures - 1];
    }
  }

  // ---------------------------------------------------------------- exactly when a key is refused

  // A failure comes after a full one only when the cooldown is over.
  lemma LastBlocks(config: Config, times: seq<int>, i: nat, now: int)
    requires Spaced(config, times) && i < |times| && Full(config, times, i) && now < times[i] + config.cooldown
    ensures i == |times| - 1 || now < times[i + 1]
  {
    hide Full;
    if i < |times| - 1 { SpacedAt(config, times, i); }
  }

  lemma RefusedByState(config: Config, t: Table, a: Attempt)
    requires a.now >= 0
    ensures var s, answer := StateOf(t, a.key), AnswerTo(config, t, a);
            if s.blockedUntil > a.now
            then answer == RateLimited(if s.blockedUntil - a.now < 0x7FFF_FFFF then s.blockedUntil - a.now else 0x7FFF_FFFF)
            else answer == match a.check case Wrong => InvalidCredentials case Right => Success case Broken => Unavailable
  {
    hide DropOld;
  }

  // The failure at position i and the maxFailures - 1 before it lie in one window, and its cooldown is not over.
  predicate StillBlocks(config: Config, times: seq<int>, i: int, now: int) {
    0 < config.maxFailures <= i + 1 <= |times| &&
    times[i] - times[i + 1 - config.maxFailures] < config.window && now < times[i] + config.cooldown
  }

  /**
    A key that was not in the table when the run began and has neither logged in nor been evicted since
    is refused exactly while some failure of it completed a window of maxFailures less than the cooldown
    ago; the answer is what is left of that cooldown. Any other attempt is answered by its credentials.
  */
  lemma {:induction false} RefusedExactly(config: Config, start: Table, attempts: seq<Attempt>, a: Attempt)
    requires ValidConfig(config) && a.key !in start && ClockGoesOn(attempts + [a]) && Persistent(attempts, a.key)
    requires forall k :: 0 <= k < |attempts| ==> attempts[k].now >= 0
    requires a.now >= 0
    ensures var times := FailureTimes(config, start, attempts, a.key);
            var answer := AnswerTo(config, Run(config, start, attempts), a);
            (answer.RateLimited? <==> exists i :: StillBlocks(config, times, i, a.now)) &&
            (forall i :: StillBlocks(config, times, i, a.now) ==>
               answer == RateLimited(if times[i] + config.cooldown - a.now < 0x7FFF_FFFF
                                     then times[i] + config.cooldown - a.now else 0x7FFF_FFFF)) &&
            (!answer.RateLimited? ==>
               answer == match a.check case Wrong => InvalidCredentials case Right => Success case Broken => Unavailable)
  {
    hide Run, After, FailureTimes, AnswerTo, Persistent;
    ClockBefore(attempts, a);
    RunTracks(config, start, attempts, a.key);
    var t, times := Run(config, start, attempts), FailureTimes(config, start, attempts, a.key);
    RefusedByState(config, t, a);
    forall i | StillBlocks(config, times, i, a.now) ensures i == |times| - 1 && Full(config, times, i) {
      LastBlocks(config, times, i, a.now);
    }
    if StateOf(t, a.key).blockedUntil > a.now { assert StillBlocks(config, times, |times| - 1, a.now); }
  }

  lemma ClockBefore(attempts: seq<Attempt>, a: Attempt)
    requires ClockGoesOn(attempts + [a])
    ensures ClockGoesOn(attempts) && (attempts != [] ==> attempts[|attempts| - 1].now <= a.now)
  {
    var all := attempts + [a];
    assert forall k :: 0 <= k < |attempts| ==> all[k] == attempts[k];
    assert all[|attempts|] == a;
  }

  /** A success takes its key out of the table, so that the theorem above begins anew: every failure is forgotten. */
  lemma SuccessForgets(config: Config, t: Table, a: Attempt)
    requires AnswerTo(config, t, a) == Success
    ensures a.key !in After(config, t, a)
    ensures forall k :: k in t && k != a.key ==> k in After(config, t, a) && After(config, t, a)[k] == t[k]
  {
    hide Seen;
  }

  // ---------------------------------------------------------------- who is evicted

  // The entry was last seen with the latest attempt for its key.
  predicate SeenLast(attempts: seq<Attempt>, key: string, lastSeen: int) {
    exists i :: 0 <= i < |attempts| && attempts[i].key == key && attempts[i].now == lastSeen &&
                forall j :: i < j < |attempts| ==> attempts[j].key != key
  }

  lemma SeenLater(attempts: seq<Attempt>, a: Attempt, key: string, lastSeen: int)
    ensures a.key != key && SeenLast(attempts, key, lastSeen) ==> SeenLast(attempts + [a], key, lastSeen)
    ensures SeenLast(attempts + [a], a.key, a.now)
  {
    var all := attempts + [a];
    assert all[|attempts|] == a;
    if a.key != key && SeenLast(attempts, key, lastSeen) {
      var i :| 0 <= i < |attempts| && attempts[i].key == key && attempts[i].now == lastSeen &&
               forall j :: i < j < |attempts| ==> attempts[j].key != key;
      assert all[i] == attempts[i];
    }
  }

  lemma AfterSeen(config: Config, t: Table, a: Attempt, key: string)
    requires key in After(config, t, a)
    ensures if key == a.key then After(config, t, a)[key].lastSeen == a.now
            else key in t && After(config, t, a)[key].lastSeen == t[key].lastSeen
  {
    hide DropOld, Forgotten;
  }

  lemma {:induction false} EntriesWereSeen(config: Config, attempts: seq<Attempt>, key: string)
    requires key in Run(config, map[], attempts)
    ensures SeenLast(attempts, key, Run(config, map[], attempts)[key].lastSeen)
  {
    hide After, SeenLast;
    if attempts != [] {
      var n := |attempts| - 1;
      var t := Run(config, map[], attempts[..n]);
      assert attempts == attempts[..n] + [attempts[n]];
      AfterSeen(config, t, attempts[n], key);
      if key != attempts[n].key { EntriesWereSeen(config, attempts[..n], key); }
      SeenLater(attempts[..n], attempts[n], key, Run(config, map[], attempts)[key].lastSeen);
    }
  }

  /**
    A key is pushed out only by a failure of a new key that finds 4096 others, and only keys whose
    latest attempt is no later than that of any key that stays.
  */
  lemma {:induction false} LongestUnseenGo(config: Config, attempts: seq<Attempt>, a: Attempt, gone: string, kept: string)
    requires var t := Run(config, map[], attempts);
             EvictsProperly(config, t, a) && gone in t && gone != a.key && gone !in After(config, t, a) &&
             gone in Swept(config, t, a.now) && kept in t && kept != a.key && kept in After(config, t, a)
    ensures var t := Run(config, map[], attempts);
            a.key !in t && |Swept(config, t, a.now)| >= 4096 && t[gone].lastSeen <= t[kept].lastSeen &&
            SeenLast(attempts, gone, t[gone].lastSeen) && SeenLast(attempts, kept, t[kept].lastSeen)
  {
    hide Run, DropOld, Forgotten, SeenLast;
    EntriesWereSeen(config, attempts, gone);
    EntriesWereSeen(config, attempts, kept);
  }
}
