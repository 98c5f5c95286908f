/**
  Sweeping expired entries is invisible: two tables that sweep to the same entries give the
  same answers to every later sequence of attempts.
*/
module LoginSweep {
  import opened LoginRates

  predicate Alike(config: Config, left: Table, right: Table, now: int) {
    Swept(config, left, now) == Swept(config, right, now)
  }

  lemma {:induction false} DropTwice(failures: seq<int>, early: int, late: int)
    requires early <= late
    ensures DropOld(DropOld(failures, early), late) == DropOld(failures, late)
  {
    if failures != [] && failures[0] <= early { DropTwice(failures[1..], early, late); }
  }

  lemma PrunedTwice(config: Config, s: RateState, early: int, late: int)
    requires 0 <= early <= late
    ensures Pruned(config, Pruned(config, s, early), late) == Pruned(config, s, late)
    ensures Forgotten(Pruned(config, s, early)) ==> Forgotten(Pruned(config, s, late))
  {
    DropTwice(s.failures, early - config.window, late - config.window);
  }

  lemma SweptTwice(config: Config, t: Table, early: int, late: int)
    requires 0 <= early <= late
    ensures Swept(config, Swept(config, t, early), late) == Swept(config, t, late)
  {
    hide Pruned, Forgotten;
    forall k | k in t
      ensures Pruned(config, Pruned(config, t[k], early), late) == Pruned(config, t[k], late)
      ensures Forgotten(Pruned(config, t[k], early)) ==> Forgotten(Pruned(config, t[k], late))
    {
      PrunedTwice(config, t[k], early, late);
    }
  }

  lemma AlikeLater(config: Config, left: Table, right: Table, early: int, late: int)
    requires 0 <= early <= late && Alike(config, left, right, early)
    ensures Alike(config, left, right, late)
  {
    hide Swept;
    SweptTwice(config, left, early, late);
    SweptTwice(config, right, early, late);
  }

  // ---------------------------------------------------------------- one key in two alike tables

  // Both entries are pruned to the same state, or each is missing or forgotten.
  lemma AlikeEntries(config: Config, left: Table, right: Table, key: string, now: int)
    requires Alike(config, left, right, now)
    ensures key in left && !Forgotten(Pruned(config, left[key], now)) ==>
      key in right && Pruned(config, right[key], now) == Pruned(config, left[key], now)
    ensures key in right && !Forgotten(Pruned(config, right[key], now)) ==>
      key in left && Pruned(config, right[key], now) == Pruned(config, left[key], now)
  {
    hide Pruned, Forgotten;
    var swept := Swept(config, left, now);
    if key in left && !Forgotten(Pruned(config, left[key], now)) { assert key in swept; }
    if key in right && !Forgotten(Pruned(config, right[key], now)) { assert key in Swept(config, right, now); }
  }

  lemma AlikeAnswers(config: Config, left: Table, right: Table, a: Attempt)
    requires Alike(config, left, right, a.now) && a.now >= 0
    ensures AnswerTo(config, left, a) == AnswerTo(config, right, a)
  {
    hide Swept, DropOld;
    AlikeEntries(config, left, right, a.key, a.now);
  }

  // Rewriting one key alike keeps the tables alike.
  lemma AlikeUpdate(config: Config, left: Table, right: Table, key: string, s: RateState, now: int)
    requires Alike(config, left, right, now)
    ensures Alike(config, left[key := s], right[key := s], now)
  {
    hide Pruned, Forgotten;
    var l, r := left[key := s], right[key := s];
    forall k ensures k in Swept(config, l, now) <==> k in Swept(config, r, now) {
      if k != key { AlikeEntries(config, left, right, k, now); }
    }
    forall k | k in Swept(config, l, now) ensures Swept(config, l, now)[k] == Swept(config, r, now)[k] {
      if k != key { AlikeEntries(config, left, right, k, now); }
    }
  }

  lemma AlikeRemoval(config: Config, left: Table, right: Table, key: string, now: int)
    requires Alike(config, left, right, now)
    ensures Alike(config, left - {key}, right - {key}, now)
  {
    hide Pruned, Forgotten;
    var l, r := left - {key}, right - {key};
    forall k ensures k in Swept(config, l, now) <==> k in Swept(config, r, now) {
      if k != key { AlikeEntries(config, left, right, k, now); }
    }
    forall k | k in Swept(config, l, now) ensures Swept(config, l, now)[k] == Swept(config, r, now)[k] {
      if k != key { AlikeEntries(config, left, right, k, now); }
    }
  }

  lemma AlikeChecked(config: Config, left: Table, right: Table, key: string, now: int)
    requires Alike(config, left, right, now) && now >= 0
    ensures Alike(config, Checked(config, left, key, now), Checked(config, right, key, now), now)
  {
    hide Swept, DropOld;
    AlikeEntries(config, left, right, key, now);
    if key in left && !Forgotten(Pruned(config, left[key], now)) {
      AlikeUpdate(config, left, right, key, Seen(config, left[key], now), now);
    } else {
      CheckedForgotten(config, left, key, now);
      CheckedForgotten(config, right, key, now);
    }
  }

  // Looking at a forgotten entry changes nothing that a sweep keeps.
  lemma CheckedForgotten(config: Config, t: Table, key: string, now: int)
    requires key in t ==> Forgotten(Pruned(config, t[key], now))
    requires now >= 0
    ensures Alike(config, Checked(config, t, key, now), t, now)
  {
    hide DropOld;
    if key in t {
      assert Pruned(config, Seen(config, t[key], now), now) == Seen(config, t[key], now) by {
        PrunedTwice(config, t[key], now, now);
      }
      assert Swept(config, Checked(config, t, key, now), now) == Swept(config, t, now);
    }
  }

  // ---------------------------------------------------------------- recording in alike tables

  lemma SweptSize(config: Config, t: Table, now: int)
    ensures Swept(config, t, now).Keys <= t.Keys && |Swept(config, t, now)| <= |t|
    ensures forall k :: k in t && k !in Swept(config, t, now) ==> |Swept(config, t, now)| < |t|
  {
    hide Pruned, Forgotten;
    var kept := Swept(config, t, now).Keys;
    assert t.Keys == kept + (t.Keys - kept);
    assert |t.Keys| == |kept| + |t.Keys - kept|;
    forall k | k in t && k !in Swept(config, t, now) ensures |kept| < |t| { assert k in t.Keys - kept; }
  }

  // The entries that the failure is recorded among.
  function Room(config: Config, t: Table, a: Attempt): Table {
    if a.key in t then t else Bounded(config, t, a.now, a.evicted)
  }

  lemma RoomSwept(config: Config, t: Table, a: Attempt)
    requires a.now >= 0
    ensures a.key in t ==> Swept(config, Room(config, t, a), a.now) == Swept(config, t, a.now)
    ensures a.key !in t && |Swept(config, t, a.now)| < MAX_ENTRIES ==>
      Swept(config, Room(config, t, a), a.now) == Swept(config, t, a.now)
  {
    hide Swept;
    SweptTwice(config, t, a.now, a.now);
  }

  // Evictions depend only on what is left after the sweep.
  lemma AlikeRooms(config: Config, left: Table, right: Table, a: Attempt)
    requires Alike(config, left, right, a.now) && a.now >= 0
    requires |left| <= MAX_ENTRIES && |right| <= MAX_ENTRIES
    ensures Alike(config, Room(config, left, a), Room(config, right, a), a.now)
  {
    hide Swept, Pruned, Forgotten, EvictionOk;
    RoomSwept(config, left, a);
    RoomSwept(config, right, a);
    SweptSize(config, left, a.now);
    SweptSize(config, right, a.now);
    if a.key in left && a.key !in right {
      assert a.key !in Swept(config, right, a.now);
    }
    if a.key in right && a.key !in left {
      assert a.key !in Swept(config, left, a.now);
    }
  }

  lemma AlikeFailures(config: Config, left: Table, right: Table, key: string, now: int)
    requires Alike(config, left, right, now) && now >= 0
    ensures Failed(config, StateOf(left, key), now) == Failed(config, StateOf(right, key), now)
  {
    hide Swept, DropOld;
    AlikeEntries(config, left, right, key, now);
    assert DropOld([], now - config.window) == [] by { DropNothing(now - config.window); }
  }

  lemma DropNothing(cutoff: int)
    ensures DropOld([], cutoff) == []
  {
  }

  lemma AlikeRecorded(config: Config, left: Table, right: Table, a: Attempt)
    requires Alike(config, left, right, a.now) && a.now >= 0
    requires |left| <= MAX_ENTRIES && |right| <= MAX_ENTRIES
    ensures Alike(config, Recorded(config, left, a.key, a.now, a.evicted),
                  Recorded(config, right, a.key, a.now, a.evicted), a.now)
  {
    hide Alike, Failed, Bounded;
    AlikeRooms(config, left, right, a);
    var l, r := Room(config, left, a), Room(config, right, a);
    AlikeFailures(config, l, r, a.key, a.now);
    AlikeUpdate(config, l, r, a.key, Failed(config, StateOf(l, a.key), a.now), a.now);
  }

  lemma AlikeAfter(config: Config, left: Table, right: Table, a: Attempt)
    requires Alike(config, left, right, a.now) && a.now >= 0
    requires |left| <= MAX_ENTRIES && |right| <= MAX_ENTRIES
    ensures Alike(config, After(config, left, a), After(config, right, a), a.now)
  {
    hide Alike, Recorded, AnswerTo;
    AlikeAnswers(config, left, right, a);
    AlikeChecked(config, left, right, a.key, a.now);
    var l, r := Checked(config, left, a.key, a.now), Checked(config, right, a.key, a.now);
    CheckedSize(config, left, a.key, a.now);
    CheckedSize(config, right, a.key, a.now);
    AlikeRecorded(config, l, r, a);
    AlikeRemoval(config, l, r, a.key, a.now);
  }

  lemma CheckedSize(config: Config, t: Table, key: string, now: int)
    ensures |Checked(config, t, key, now)| == |t|
  {
    hide Seen;
    if key in t { KeptSize(t, key, Seen(config, t[key], now)); }
  }

  // What the eviction loop may do in one table it may do in an alike one.
  lemma AlikeEvictions(config: Config, left: Table, right: Table, a: Attempt)
    requires Alike(config, left, right, a.now) && a.now >= 0
    requires |left| <= MAX_ENTRIES && |right| <= MAX_ENTRIES && EvictsProperly(config, left, a)
    ensures EvictsProperly(config, right, a)
  {
    hide Swept, EvictionOk, AnswerTo;
    AlikeAnswers(config, left, right, a);
    SweptSize(config, left, a.now);
    SweptSize(config, right, a.now);
    if a.key in left && a.key !in right {
      assert a.key !in Swept(config, right, a.now);
    }
  }

  lemma {:induction false} AlikeRuns(config: Config, left: Table, right: Table, now: int, attempts: seq<Attempt>)
    requires Alike(config, left, right, now) && |left| <= MAX_ENTRIES && |right| <= MAX_ENTRIES
    requires 0 <= now && ClockGoesOn(attempts) && ProperRun(config, left, attempts)
    requires forall i :: 0 <= i < |attempts| ==> now <= attempts[i].now
    ensures var later := if attempts == [] then now else attempts[|attempts| - 1].now;
            Alike(config, Run(config, left, attempts), Run(config, right, attempts), later)
    ensures Answers(config, left, attempts) == Answers(config, right, attempts)
    ensures ProperRun(config, right, attempts)
  {
    hide Alike, AnswerTo, After, ProperRun, EvictsProperly;
    if attempts == [] {
      assert ProperRun(config, right, attempts) by { ProperNothing(config, right); }
    } else {
      var n := |attempts| - 1;
      var a := attempts[n];
      var before := if n == 0 then now else attempts[n - 1].now;
      ProperBefore(config, left, attempts);
      AlikeRuns(config, left, right, now, attempts[..n]);
      TableStaysBounded(config, left, attempts[..n]);
      TableStaysBounded(config, right, attempts[..n]);
      var l, r := Run(config, left, attempts[..n]), Run(config, right, attempts[..n]);
      AlikeLater(config, l, r, before, a.now);
      AlikeAnswers(config, l, r, a);
      AlikeAfter(config, l, r, a);
      AlikeEvictions(config, l, r, a);
      ProperNext(config, right, attempts);
    }
  }

  lemma ProperNothing(config: Config, t: Table)
    ensures ProperRun(config, t, [])
  {
  }

  lemma ProperNext(config: Config, t: Table, attempts: seq<Attempt>)
    requires attempts != []
    requires var n := |attempts| - 1;
             ProperRun(config, t, attempts[..n]) && EvictsProperly(config, Run(config, t, attempts[..n]), attempts[n])
    ensures ProperRun(config, t, attempts)
  {
    hide Run, EvictsProperly;
    var n := |attempts| - 1;
    forall i | 0 <= i < |attempts| ensures EvictsProperly(config, Run(config, t, attempts[..i]), attempts[i]) {
      if i < n { assert attempts[..n][..i] == attempts[..i] && attempts[..n][i] == attempts[i]; }
    }
  }

  /** Sweeping the table at any moment changes no answer to any later attempts. */
  lemma {:induction false} SweepIsInvisible(config: Config, t: Table, now: int, attempts: seq<Attempt>)
    requires |t| <= MAX_ENTRIES && 0 <= now && ClockGoesOn(attempts) && ProperRun(config, t, attempts)
    requires forall i :: 0 <= i < |attempts| ==> now <= attempts[i].now
    ensures Answers(config, Swept(config, t, now), attempts) == Answers(config, t, attempts)
  {
    hide Answers, ProperRun, Swept;
    SweptTwice(config, t, now, now);
    SweptSize(config, t, now);
    AlikeRuns(config, t, Swept(config, t, now), now, attempts);
  }
}
