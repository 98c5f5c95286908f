/**
  The rate limiter as the authentication service runs it: one table, pruned, swept and
  evicted in place. One login is one step of `LoginRates.After`.
*/
module LoginLimiter {
  import opened Options
  import opened LoginRates

  class Limiter {
    const config: Config
    var rates: Table

    constructor (config: Config)
      requires ValidConfig(config)
      ensures this.config == config && rates == map[]
    {
      this.config := config;
      rates := map[];
    }

    method PruneFailures(s: RateState, now: int) returns (pruned: RateState)
      ensures pruned == Pruned(config, s, now)
      ensures var gone := |s.failures| - |pruned.failures|;
              gone >= 0 && pruned.failures == s.failures[gone..] &&
              (forall i :: 0 <= i < gone ==> s.failures[i] <= now - config.window) &&
              (pruned.failures != [] ==> pruned.failures[0] > now - config.window)
      ensures pruned.blockedUntil == (if s.blockedUntil > now then s.blockedUntil else 0) && pruned.lastSeen == s.lastSeen
    {
      DropOldKeeps(s.failures, now - config.window);
      DropOldKeepsNew(s.failures, now - config.window);
      var cutoff := now - config.window;
      pruned := s;
      while pruned.failures != [] && pruned.failures[0] <= cutoff
        invariant pruned == s.(failures := pruned.failures)
        invariant DropOld(pruned.failures, cutoff) == DropOld(s.failures, cutoff)
        decreases |pruned.failures|
      {
        pruned := pruned.(failures := pruned.failures[1..]);
      }
      if pruned.blockedUntil <= now {
        pruned := pruned.(blockedUntil := 0);
      }
    }

    method SweepTable(now: int)
      modifies `rates
      ensures rates == Swept(config, old(rates), now) && rates.Keys <= old(rates).Keys
    {
      hide Pruned, Forgotten;
      var rest := rates.Keys;
      while rest != {}
        invariant rest <= old(rates).Keys
        invariant forall k :: k in rates <==>
                                k in old(rates) && (k in rest || !Forgotten(Pruned(config, old(rates)[k], now)))
        invariant forall k :: k in rates ==>
                                rates[k] == if k in rest then old(rates)[k] else Pruned(config, old(rates)[k], now)
        decreases rest
      {
        var k :| k in rest;
        var pruned := PruneFailures(rates[k], now);
        rest := rest - {k};
        if Forgotten(pruned) {
          rates := rates - {k};
        } else {
          rates := rates[k := pruned];
        }
      }
    }

    method Oldest() returns (oldest: string)
      requires rates != map[]
      ensures oldest in rates && forall k :: k in rates ==> rates[oldest].lastSeen <= rates[k].lastSeen
    {
      assert rates.Keys != {} by { SomeKey(rates); }
      oldest :| oldest in rates.Keys;
      var rest := rates.Keys;
      while rest != {}
        invariant rest <= rates.Keys && oldest in rates
        invariant forall k :: k in rates && k !in rest ==> rates[oldest].lastSeen <= rates[k].lastSeen
        decreases rest
      {
        var k :| k in rest;
        if rates[k].lastSeen < rates[oldest].lastSeen {
          oldest := k;
        }
        rest := rest - {k};
      }
    }

    method EvictOldest() returns (evicted: set<string>)
      modifies `rates
      ensures rates == old(rates) - evicted
      ensures evicted != {} ==> |old(rates)| >= 4096 && |rates| == 4095
      ensures forall k, e :: k in rates && e in evicted && e in old(rates) ==> old(rates)[e].lastSeen <= old(rates)[k].lastSeen
      ensures if |old(rates)| >= MAX_ENTRIES then EvictionOk(old(rates), evicted) else evicted == {}
    {
      evicted := {};
      while |rates| >= MAX_ENTRIES
        invariant evicted <= old(rates).Keys && rates == old(rates) - evicted && |rates| == |old(rates)| - |evicted|
        invariant |old(rates)| >= MAX_ENTRIES ==> |rates| >= MAX_ENTRIES - 1
        invariant |old(rates)| < MAX_ENTRIES ==> evicted == {}
        invariant forall k, e :: k in rates && e in evicted ==> old(rates)[e].lastSeen <= old(rates)[k].lastSeen
        decreases |rates|
      {
        var oldest := Oldest();
        DroppedSize(rates, {oldest});
        evicted := evicted + {oldest};
        rates := rates - {oldest};
      }
    }

    /** Forgets what has expired; if the table is still full, evicts the longest unseen keys until one fits. */
    method BoundRateTable(now: int) returns (evicted: set<string>)
      modifies `rates
      ensures rates == Bounded(config, old(rates), now, evicted) && rates.Keys <= old(rates).Keys
      ensures var swept := Swept(config, old(rates), now);
              if |swept| >= MAX_ENTRIES then EvictionOk(swept, evicted) else evicted == {}
    {
      hide Swept, EvictionOk;
      SweepTable(now);
      evicted := EvictOldest();
    }

    method RateLimitRetryAfter(key: string, now: int) returns (retry: Option<int>)
      modifies `rates
      ensures now >= 0 ==> retry == if key in old(rates) && old(rates)[key].blockedUntil > now
                                    then Some(Least(old(rates)[key].blockedUntil - now, 0x7FFF_FFFF)) else None
      ensures rates.Keys == old(rates).Keys && (key in rates ==> rates[key].lastSeen == now)
      ensures key !in rates ==> rates == old(rates)
      ensures forall k :: k in rates && k != key ==> rates[k] == old(rates)[k]
      ensures retry == RetryAfter(config, old(rates), key, now)
      ensures rates == Checked(config, old(rates), key, now)
    {
      if key !in rates {
        return None;
      }
      var s := PruneFailures(rates[key], now);
      s := s.(lastSeen := now);
      rates := rates[key := s];
      if s.blockedUntil > now {
        var remaining := s.blockedUntil - now;
        return Some(if remaining < INT_MAX then remaining else INT_MAX);
      }
      retry := None;
    }

    method RecordFailure(key: string, now: int) returns (evicted: set<string>)
      modifies `rates
      ensures rates == Recorded(config, old(rates), key, now, evicted)
      ensures key in rates && rates[key].lastSeen == now && rates[key].failures != [] &&
              rates[key].failures[|rates[key].failures| - 1] == now
      ensures if |rates[key].failures| >= config.maxFailures then rates[key].blockedUntil == now + config.cooldown
              else rates[key].blockedUntil == if key in old(rates) && old(rates)[key].blockedUntil > now
                                              then old(rates)[key].blockedUntil else 0
      ensures var swept := Swept(config, old(rates), now);
              if key !in old(rates) && |swept| >= MAX_ENTRIES then EvictionOk(swept, evicted) else evicted == {}
    {
      hide Swept, EvictionOk;
      evicted := {};
      if key !in rates {
        evicted := BoundRateTable(now);
      }
      var s := if key in rates then rates[key] else BLANK;
      s := PruneFailures(s, now);
      s := s.(failures := s.failures + [now], lastSeen := now);
      if |s.failures| >= config.maxFailures {
        s := s.(blockedUntil := now + config.cooldown);
      }
      rates := rates[key := s];
    }

    method ClearFailures(key: string)
      modifies `rates
      ensures rates == old(rates) - {key}
    {
      rates := rates - {key};
    }

    /** One login, given how the credentials check would come out; `evicted` are the keys it pushed out. */
    method Login(key: string, now: int, check: Check) returns (answer: Answer, evicted: set<string>)
      modifies `rates
      ensures var a := Attempt(key, now, check, evicted);
              EvictsProperly(config, old(rates), a) && answer == AnswerTo(config, old(rates), a) &&
              rates == After(config, old(rates), a)
      ensures |old(rates)| <= MAX_ENTRIES ==> |rates| <= MAX_ENTRIES
    {
      hide Swept, EvictionOk, Seen, Recorded, RetryAfter, Checked, Least;
      evicted := {};
      var retry := RateLimitRetryAfter(key, now);
      if retry.Some? {
        answer := RateLimited(retry.value);
      } else {
        match check {
          case Wrong =>
            evicted := RecordFailure(key, now);
            answer := InvalidCredentials;
          case Right =>
            ClearFailures(key);
            answer := Success;
          case Broken =>
            answer := Unavailable;
        }
      }
      if |old(rates)| <= MAX_ENTRIES { AfterIsBounded(config, old(rates), Attempt(key, now, check, evicted)); }
    }
  }

  function Least(a: int, b: int): int {
    if a < b then a else b
  }

  lemma SomeKey(t: Table)
    requires t != map[]
    ensures t.Keys != {}
  {
    assert t.Keys == {} ==> t == map[];
  }
}
