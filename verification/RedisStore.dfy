/** The Redis-like store of the limiter lab and the write-limiter script that runs on it
    (limiter-lab/limiter/redis_like.go:22-150). Times and durations are in nanoseconds. */
module RedisStore {
  const SECOND := 1_000_000_000

  // ---- the store on values ----

  datatype Store = Store(values: map<string, int>, expires: map<string, int>)

  const EMPTY := Store(map[], map[])

  predicate Expired(s: Store, key: string, now: int) { key in s.expires && s.expires[key] <= now }

  function Evict(s: Store, key: string, now: int): Store {
    if Expired(s, key, now) then Store(s.values - {key}, s.expires - {key}) else s
  }

  function ValueOf(s: Store, key: string): int { if key in s.values then s.values[key] else 0 }

  function Incr(s: Store, key: string, now: int): Store {
    var t := Evict(s, key, now);
    t.(values := t.values[key := ValueOf(t, key) + 1])
  }

  function Expire(s: Store, key: string, window: int, now: int): Store {
    s.(expires := s.expires[key := now + window])
  }

  // TTL reads the clock twice: in the eviction and for the remaining time.
  function AfterTTL(s: Store, key: string, first: int, second: int): Store { Evict(Evict(s, key, first), key, second) }

  function TTL(s: Store, key: string, first: int, second: int): int {
    var t := AfterTTL(s, key, first, second);
    if key in t.expires then (t.expires[key] - second) / SECOND * SECOND else 0
  }

  /** Whole seconds, rounded down, for a counter that will expire; nothing for any other. */
  lemma TTLIsWholeSeconds(s: Store, key: string, first: int, second: int)
    requires first <= second
    ensures var ttl := TTL(s, key, first, second);
            && ttl % SECOND == 0 && ttl >= 0
            && (key in s.expires && second < s.expires[key] ==> ttl <= s.expires[key] - second < ttl + SECOND)
            && (key !in s.expires || s.expires[key] <= second ==> ttl == 0)
  {
  }

  /** TTL deletes a counter exactly when it has expired by the second reading of the clock, and nothing else. */
  lemma TTLDeletesExpired(s: Store, key: string, first: int, second: int)
    requires first <= second
    ensures var t := AfterTTL(s, key, first, second);
            if key in s.expires && s.expires[key] <= second
            then t == Store(s.values - {key}, s.expires - {key}) else t == s
  {
  }

  // ---- the script with the clock standing still ----

  datatype Scope = Global | Identifier | Passed

  datatype Verdict = Verdict(limited: bool, retryAfter: int, scope: Scope)

  // Count a call on `key` and give the counter an expiry if it is new.
  function Count(s: Store, key: string, window: int, now: int): Store {
    var t := Incr(s, key, now);
    if ValueOf(t, key) == 1 then Expire(t, key, window, now) else t
  }

  predicate Over(s: Store, key: string, limit: int) { ValueOf(s, key) > limit }

  // Seconds until the counter expires.
  function RetryAfter(s: Store, key: string, now: int): int { TTL(s, key, now, now) / SECOND }

  function ScriptIdentifier(s: Store, idKey: string, idLimit: int, window: int, now: int): (Store, Verdict) {
    if idLimit <= 0 then (s, Verdict(false, 0, Passed))
    else
      var t := Count(s, idKey, window, now);
      if Over(t, idKey, idLimit) then
        (AfterTTL(t, idKey, now, now), Verdict(true, RetryAfter(t, idKey, now), Identifier))
      else (t, Verdict(false, idLimit - ValueOf(t, idKey), Passed))
  }

  function Script(s: Store, globalKey: string, idKey: string, globalLimit: int, idLimit: int, window: int, now: int)
    : (Store, Verdict)
  {
    if globalLimit <= 0 then ScriptIdentifier(s, idKey, idLimit, window, now)
    else
      var t := Count(s, globalKey, window, now);
      if Over(t, globalKey, globalLimit) then
        (AfterTTL(t, globalKey, now, now), Verdict(true, RetryAfter(t, globalKey, now), Global))
      else ScriptIdentifier(t, idKey, idLimit, window, now)
  }

  // ---- the store and the script themselves ----

  class InMemoryRedisStore {
    var values: map<string, int>
    var expires: map<string, int>

    ghost function View(): Store
      reads this
    {
      Store(values, expires)
    }

    constructor ()
      ensures View() == EMPTY
    {
      values, expires := map[], map[];
    }

    method EvictIfExpired(key: string, now: int) returns (evicted: bool)
      modifies this
      ensures View() == Evict(old(View()), key, now)
      ensures evicted == Expired(old(View()), key, now)
    {
      if key !in expires { return false; }
      if expires[key] <= now {
        values := values - {key};
        expires := expires - {key};
        return true;
      }
      return false;
    }

    method DoIncr(key: string, now: int) returns (v: int)
      modifies this
      ensures View() == Incr(old(View()), key, now) && v == ValueOf(View(), key)
    {
      var _ := EvictIfExpired(key, now);
      v := (if key in values then values[key] else 0) + 1;
      values := values[key := v];
    }

    method DoExpire(key: string, window: int, now: int)
      modifies this
      ensures View() == Expire(old(View()), key, window, now)
    {
      expires := expires[key := now + window];
    }

    method DoTTL(key: string, first: int, second: int) returns (ttl: int)
      requires first <= second
      modifies this
      ensures View() == AfterTTL(old(View()), key, first, second)
      ensures ttl == TTL(old(View()), key, first, second)
    {
      var evicted := EvictIfExpired(key, first);
      if evicted { return 0; }
      if key !in expires { return 0; }
      if expires[key] <= second {
        values := values - {key};
        expires := expires - {key};
        return 0;
      }
      return (expires[key] - second) / SECOND * SECOND;
    }

    /** EvalWriteLimiterScript, the clock standing still during the call. */
    method EvalWriteLimiterScript(globalKey: string, idKey: string, globalLimit: int, idLimit: int, window: int,
                                  now: int)
      returns (r: Verdict)
      modifies this
      ensures (View(), r) == Script(old(View()), globalKey, idKey, globalLimit, idLimit, window, now)
    {
      var nowGlobal, nowID := 0, 0;
      if globalLimit > 0 {
        nowGlobal := DoIncr(globalKey, now);
        if nowGlobal == 1 { DoExpire(globalKey, window, now); }
        if nowGlobal > globalLimit {
          var ttl := DoTTL(globalKey, now, now);
          return Verdict(true, ttl / SECOND, Global);
        }
      }
      if idLimit > 0 {
        nowID := DoIncr(idKey, now);
        if nowID == 1 { DoExpire(idKey, window, now); }
        if nowID > idLimit {
          var ttl := DoTTL(idKey, now, now);
          return Verdict(true, ttl / SECOND, Identifier);
        }
      }
      return Verdict(false, if idLimit > 0 then idLimit - nowID else 0, Passed);
    }
  }
}
