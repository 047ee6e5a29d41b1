/** The code of a reader on its own (src/redis/cache.ts:60-126). `CacheBurst` and the lemmas of
    `Cache` are about any number of them at once. */
module CacheReader {
  import opened Wrappers
  import opened Cache

  datatype Stored = Stored(value: Value, expireAt: nat)

  /** The two keys in Redis, and the clock. */
  class CacheAside {
    const c: Config
    var now: nat
    var stored: Option<Stored>
    var lock: Option<Lock>
    var loads: nat

    constructor (config: Config)
      ensures c == config && now == 0 && stored == None && lock == None && loads == 0
    {
      c, now, stored, lock, loads := config, 0, None, None, 0;
    }

    predicate Locked()
      reads this
    {
      lock.Some? && now < lock.value.expireAt
    }

    /** What a get gives: null for a key that is absent, ran out, or holds null. */
    function Get(): Value
      reads this
    {
      if stored.Some? && now < stored.value.expireAt then stored.value.value else None
    }

    method Set(value: Value, random: real) returns (ttl: nat)
      requires 0.0 <= random < 1.0
      modifies this`stored
      ensures stored == Some(Stored(value, now + 1000 * ttl)) && ttl == TtlWithJitter(c, random)
      ensures c.ttlSeconds <= ttl <= c.ttlSeconds + c.jitterSeconds
    {
      ttl := TtlWithJitter(c, random);
      stored := Some(Stored(value, now + 1000 * ttl));
    }

    /** SET lock token PX ttl NX */
    method TryLock(token: nat) returns (acquired: bool)
      modifies this`lock
      ensures acquired == !old(Locked())
      ensures lock == if acquired then Some(Lock(token, now + c.lockTtlMs)) else old(lock)
    {
      acquired := !Locked();
      if acquired { lock := Some(Lock(token, now + c.lockTtlMs)); }
    }

    /** Compare and delete. */
    method Unlock(token: nat)
      modifies this`lock
      ensures lock == if old(Locked()) && old(lock).value.token == token then None else old(lock)
    {
      if Locked() && lock.value.token == token { lock := None; }
    }

    /** Polls until a value turns up or the time is up. `others(t)` is what a get gives at time `t`
        by the doing of the other readers. */
    method WaitForValue(others: nat -> Value) returns (value: Value, polls: nat)
      modifies this`now
      ensures now == old(now) + 20 * polls
      ensures forall k :: 1 <= k < polls ==> others(old(now) + 20 * k) == None
      ensures value == if polls > 0 then others(now) else None
      ensures value.Some? ==> now < old(now) + c.lockWaitMs + 20
      ensures value.None? ==> old(now) + c.lockWaitMs <= now
      ensures polls > 0 ==> 20 * (polls - 1) < c.lockWaitMs
    {
      var deadline := now + c.lockWaitMs;
      value, polls := None, 0;
      while now < deadline
        invariant now == old(now) + LOCK_POLL_MS * polls
        invariant value == None && (polls > 0 ==> others(now) == None)
        invariant forall k :: 1 <= k <= polls ==> others(old(now) + LOCK_POLL_MS * k) == None
        invariant polls > 0 ==> LOCK_POLL_MS * (polls - 1) < c.lockWaitMs
        decreases deadline - now
      {
        now := now + LOCK_POLL_MS;
        polls := polls + 1;
        value := others(now);
        if value.Some? { return; }
      }
    }

    /** `loaded` is what the load gives after `loadMs`, or its error. Three outcomes: a hit costs
        nothing; a reader with the lock loads once, leaves the value behind for a bounded time and
        the lock free; a reader without it leaves value and lock alone, and loads only if no poll
        up to the deadline found a value. */
    method Read(token: nat, loaded: Result<Value, string>, loadMs: nat, random: real, others: nat -> Value)
      returns (result: Result<Value, string>)
      requires 0.0 <= random < 1.0
      modifies this`now, this`stored, this`lock, this`loads
      ensures old(Get()).Some? ==>
        result == Success(old(Get())) && now == old(now) && stored == old(stored) && lock == old(lock) && loads == old(loads)
      ensures old(Get()).None? && !old(Locked()) ==>
        && result == loaded && loads == old(loads) + 1 && !Locked()
        && (loaded.Success? ==> Get() == loaded.value)
        && (loaded.Success? ==>
              && stored == Some(Stored(loaded.value, now + 1000 * TtlWithJitter(c, random)))
              && c.ttlSeconds <= (stored.value.expireAt - now) / 1000 <= c.ttlSeconds + c.jitterSeconds)
        && (loaded.Failure? ==> stored == old(stored))
      ensures old(Get()).None? && old(Locked()) ==>
        && stored == old(stored) && lock == old(lock)
        && (loads == old(loads) ==>
              result.Success? && result.value.Some? && result.value == others(now)
              && now < old(now) + c.lockWaitMs + LOCK_POLL_MS)
        && (loads != old(loads) ==>
              && result == loaded && loads == old(loads) + 1 && old(now) + c.lockWaitMs <= now
              && forall k :: 1 <= k && LOCK_POLL_MS * (k - 1) < c.lockWaitMs ==>
                   others(old(now) + LOCK_POLL_MS * k) == None)
    {
      var hit := Get();
      if hit.Some? { return Success(hit); }
      var acquired := TryLock(token);
      if !acquired {
        var value, polls := WaitForValue(others);
        if value.Some? { return Success(value); }
        loads := loads + 1;
        now := now + loadMs;
        return loaded;
      }
      var second := Get();
      if second.Some? {
        result := Success(second);
      } else {
        loads := loads + 1;
        now := now + loadMs;
        if loaded.Success? { var _ := Set(loaded.value, random); }
        result := loaded;
      }
      Unlock(token);
    }
  }
}
