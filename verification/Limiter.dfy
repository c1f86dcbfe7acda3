/**
 * The rate limiter of backend/internal/limiter: one timestamp a key, swept
 * lazily, standing for a token bucket. Times are nanoseconds since Go's zero
 * time, so the zero value of a missing map entry is 0.
 */
module Limiter {
  import opened Wrappers

  const MINUTE: int := 60_000_000_000

  /** perMinute and burst of one limiter. The interval between tokens is at least a nanosecond. */
  datatype Limit = Limit(perMinute: int, burst: int) {
    predicate Valid() {
      1 <= perMinute <= MINUTE && 1 <= burst
    }

    function Interval(): (interval: int)
      requires Valid()
      ensures 1 <= interval
      ensures interval * perMinute <= MINUTE < (interval + 1) * perMinute
    {
      MINUTE / perMinute
    }

    /** What a full bucket holds, in nanoseconds of refilling. */
    function Capacity(): int
      requires Valid()
    {
      burst * Interval()
    }
  }

  datatype Attempt = Attempt(key: string, limit: Limit, now: nat)

  datatype Buckets = Buckets(full: map<string, nat>, swept: nat)

  // ---------- One attempt, as a function of the buckets ----------

  /** When key's bucket is full again, seen at now: never in the past. */
  function FullAt(full: map<string, nat>, key: string, now: nat): nat {
    if key in full && now <= full[key] then full[key] else now
  }

  /** What an attempt leaves in the bucket, in nanoseconds of refilling; below zero it is refused. */
  function Spare(full: map<string, nat>, a: Attempt): int
    requires a.limit.Valid()
  {
    a.limit.Capacity() - a.limit.Interval() - (FullAt(full, a.key, a.now) - a.now)
  }

  function Unexpired(full: map<string, nat>, now: nat): map<string, nat> {
    map key | key in full && now < full[key] :: full[key]
  }

  function Swept(b: Buckets, now: nat): Buckets {
    if now - b.swept < MINUTE then b else Buckets(Unexpired(b.full, now), now)
  }

  function Taken(full: map<string, nat>, a: Attempt): map<string, nat>
    requires a.limit.Valid()
  {
    if Spare(full, a) < 0 then full else full[a.key := FullAt(full, a.key, a.now) + a.limit.Interval()]
  }

  function Step(b: Buckets, a: Attempt): Buckets
    requires a.limit.Valid()
  {
    Swept(b, a.now).(full := Taken(Swept(b, a.now).full, a))
  }

  // ---------- The source's own form ----------

  class Memory {
    var full: map<string, nat>
    var swept: nat

    constructor ()
      ensures Contents() == Buckets(map[], 0)
    {
      full, swept := map[], 0;
    }

    function Contents(): Buckets
      reads this
    {
      Buckets(full, swept)
    }

    /** remaining is in tokens: below zero it is minus the part of a token still to come. */
    method Take(key: string, perMinute: int, burst: int, now: nat) returns (remaining: real)
      requires Limit(perMinute, burst).Valid()
      modifies this
      ensures var a := Attempt(key, Limit(perMinute, burst), now);
              && Contents() == Step(old(Contents()), a)
              && remaining == Tokens(Spare(Swept(old(Contents()), now).full, a), a.limit)
    {
      var interval := MINUTE / perMinute;
      Sweep(now);
      var until := if key in full then full[key] else 0;
      if until < now {
        until := now;
      }
      remaining := burst as real - (until - now) as real / interval as real - 1.0;
      TokensAre(burst, until - now, interval);
      if remaining >= 0.0 {
        full := full[key := until + interval];
      }
    }

    method Sweep(now: nat)
      modifies this
      ensures Contents() == Swept(old(Contents()), now)
    {
      if now - swept < MINUTE {
        return;
      }
      swept := now;
      var keys := full.Keys;
      while keys != {}
        invariant swept == now && keys <= full.Keys
        invariant forall key :: key in full ==> key in old(full) && full[key] == old(full)[key]
        invariant forall key :: key in old(full) && key !in full ==> old(full)[key] <= now
        invariant forall key :: key in full && key !in keys ==> now < full[key]
      {
        var key :| key in keys;
        keys := keys - {key};
        if full[key] <= now {
          full := full - {key};
        }
      }
      assert full == Unexpired(old(full), now);
    }
  }

  /** spare nanoseconds of refilling, as a number of tokens. */
  function Tokens(spare: int, limit: Limit): real
    requires limit.Valid()
  {
    spare as real / limit.Interval() as real
  }

  lemma TokensAre(burst: int, debt: int, interval: int)
    requires 1 <= interval
    ensures burst as real - debt as real / interval as real - 1.0
         == (burst * interval - interval - debt) as real / interval as real
    ensures (burst * interval - interval - debt < 0) <==> (burst as real - debt as real / interval as real - 1.0 < 0.0)
  {
    var i := interval as real;
    var x := burst as real - debt as real / i - 1.0;
    assert (debt as real / i) * i == debt as real;
    assert (burst * interval) as real == burst as real * i;
    assert x * i == (burst * interval - interval - debt) as real;
    DivideReal(x, (burst * interval - interval - debt) as real, i);
  }

  lemma DivideReal(x: real, y: real, i: real)
    requires 0.0 < i && x * i == y
    ensures x == y / i
    ensures x < 0.0 <==> y < 0.0
  {}

  // ---------- What Allow answers ----------

  /** retryAfter and resetAfter are in nanoseconds. */
  datatype Decision = Decision(allowed: bool, limit: int, remaining: int, retryAfter: int, resetAfter: int)

  class RateLimiter {
    const backend: Memory
    const name: string
    const perMinute: int
    const burst: int

    constructor (backend: Memory, name: string, perMinute: int)
      requires 1 <= perMinute <= MINUTE
      ensures this.backend == backend && this.name == name
      ensures this.perMinute == perMinute == burst
    {
      this.backend, this.name, this.perMinute, this.burst := backend, name, perMinute, perMinute;
    }

    function Attempted(key: string, now: nat): Attempt {
      Attempt("ratelimit:" + name + ":" + key, Limit(perMinute, burst), now)
    }

    method Allow(key: string, now: nat) returns (decision: Decision)
      requires 1 <= perMinute == burst <= MINUTE
      modifies backend
      ensures var a := Attempted(key, now);
              && backend.Contents() == Step(old(backend.Contents()), a)
              && decision == Advice(a.limit, Spare(Swept(old(backend.Contents()), now).full, a))
    {
      var remaining := backend.Take("ratelimit:" + name + ":" + key, perMinute, burst, now);
      decision := Decide(Some(remaining));
      ghost var limit := Limit(perMinute, burst);
      ghost var spare := Spare(Swept(old(backend.Contents()), now).full, Attempted(key, now));
      DivideReal(Tokens(spare, limit), spare as real, limit.Interval() as real);
    }

    /** What to answer for what the backend said; None is a backend that failed. */
    method Decide(taken: Option<real>) returns (decision: Decision)
      requires 1 <= perMinute == burst <= MINUTE
      ensures taken.None? ==> decision == Decision(true, burst, burst, 0, 0)
      ensures taken.Some? ==> decision == Told(Limit(perMinute, burst), taken.value)
    {
      decision := Decision(false, burst, 0, 0, 0);
      if taken.None? {
        return Decision(true, burst, burst, 0, 0);
      }
      var remaining, rate := taken.value, perMinute as real;
      var left := remaining;
      if remaining < 0.0 {
        decision := decision.(retryAfter := (-remaining / rate * MINUTE as real).Floor);
        left := remaining + 1.0;
      } else {
        decision := decision.(allowed := true, remaining := remaining.Floor);
      }
      var held := if left < 0.0 then 0.0 else left;
      decision := decision.(resetAfter := ((burst as real - held) / rate * MINUTE as real).Floor);
    }
  }

  function Told(limit: Limit, remaining: real): Decision
    requires limit.Valid()
  {
    var rate := limit.perMinute as real;
    var left := if remaining < -1.0 then 0.0 else if remaining < 0.0 then remaining + 1.0 else remaining;
    Decision(0.0 <= remaining, limit.burst,
             if remaining < 0.0 then 0 else remaining.Floor,
             if remaining < 0.0 then (-remaining / rate * MINUTE as real).Floor else 0,
             ((limit.burst as real - left) / rate * MINUTE as real).Floor)
  }

  /** The decision for an attempt that leaves spare. */
  function Advice(limit: Limit, spare: int): Decision
    requires limit.Valid()
  {
    Told(limit, Tokens(spare, limit))
  }
}
