/** What Allow tells a client to expect is what then happens. */
module LimiterAdvice {
  import opened Limiter
  import opened LimiterRuns

  function Min(x: int, y: int): int {
    if x < y then x else y
  }

  // ---------- Arithmetic of the advice ----------
  // i is the truncated interval, p the rate and m the minute: i * p <= m < (i + 1) * p.

  /** x nanoseconds of refilling at the truncated rate, scaled by the untruncated one as Allow does. */
  function Scaled(x: int, i: int, p: int, m: int): real
    requires 1 <= i && 1 <= p
  {
    x as real / i as real / p as real * m as real
  }

  lemma ScaledProduct(x: real, i: real, p: real, m: real)
    requires 0.0 < i && 0.0 < p
    ensures (x / i / p * m) * (i * p) == x * m
  {
    var y := x / i;
    var z := y / p;
    assert z * p == y;
    assert y * i == x;
    assert (z * m) * (i * p) == ((z * p) * i) * m;
  }

  lemma CancelAtMost(a: real, b: real, p: real)
    requires 0.0 < p && a * p <= b * p
    ensures a <= b
  {}

  lemma CancelLess(a: real, b: real, p: real)
    requires 0.0 < p && a * p < b * p
    ensures a < b
  {}

  lemma RealProduct(x: int, y: int)
    ensures (x * y) as real == x as real * y as real
  {}

  lemma MoreIsMore(x: int, y: int, k: nat)
    requires x <= y
    ensures k * x <= k * y
    ensures x < y && 0 < k ==> k * x < k * y
  {}

  lemma IntBounds(x: nat, i: int, p: int, m: int)
    requires 1 <= i && 1 <= p && i * p <= m < (i + 1) * p
    ensures 1 <= i * p && x * (i * p) <= x * m <= x * (i + 1) * p
    ensures 0 < x ==> x * m < x * (i + 1) * p
  {
    MoreIsMore(1, p, i);
    MoreIsMore(i * p, m, x);
    MoreIsMore(m, (i + 1) * p, x);
    assert x * ((i + 1) * p) == x * (i + 1) * p;
  }

  lemma RealBounds(v: real, x: real, y: real, i: real, p: real, xm: real)
    requires 0.0 < i && 0.0 < p && 0.0 < i * p
    requires v * (i * p) == xm && x * (i * p) <= xm <= y * p
    ensures x <= v && v * i <= y
    ensures xm < y * p ==> v * i < y
  {
    CancelAtMost(x, v, i * p);
    assert v * (i * p) == (v * i) * p;
    CancelAtMost(v * i, y, p);
  }

  lemma ScaledBounds(x: nat, i: int, p: int, m: int)
    requires 1 <= i && 1 <= p && i * p <= m < (i + 1) * p
    ensures x as real <= Scaled(x, i, p, m)
    ensures Scaled(x, i, p, m) * i as real <= (x * (i + 1)) as real
    ensures 0 < x ==> Scaled(x, i, p, m) * i as real < (x * (i + 1)) as real
  {
    ScaledProduct(x as real, i as real, p as real, m as real);
    IntBounds(x, i, p, m);
    RealProduct(i, p);
    RealProduct(x, m);
    RealProduct(x, i * p);
    RealProduct(x * (i + 1), p);
    RealBounds(Scaled(x, i, p, m), x as real, (x * (i + 1)) as real, i as real, p as real, (x * m) as real);
  }

  lemma FloorIs(v: real, x: int, i: int, y: int)
    requires 1 <= i && x as real <= v && v * i as real < y as real && y <= (x + 1) * i
    ensures v.Floor == x
  {
    RealProduct(x + 1, i);
    CancelLess(v, (x + 1) as real, i as real);
  }

  lemma FloorExact(x: nat, i: int, p: int, m: int)
    requires 1 <= p && i * p <= m < (i + 1) * p && 0 < x <= i
    ensures Scaled(x, i, p, m).Floor == x
  {
    ScaledBounds(x, i, p, m);
    assert x * (i + 1) == x * i + x && (x + 1) * i == x * i + i;
    FloorIs(Scaled(x, i, p, m), x, i, x * (i + 1));
  }

  lemma FloorNear(x: nat, i: int, p: int, m: int, burst: nat)
    requires 1 <= i && 1 <= p && i * p <= m < (i + 1) * p && x <= burst * i
    ensures x <= Scaled(x, i, p, m).Floor <= x + burst
  {
    ScaledBounds(x, i, p, m);
    assert x * (i + 1) <= (x + burst) * i;
    RealProduct(x + burst, i);
    CancelAtMost(Scaled(x, i, p, m), (x + burst) as real, i as real);
  }

  lemma FloorQuotient(x: nat, i: int)
    requires 1 <= i
    ensures (x as real / i as real).Floor == x / i
  {
    var q := x / i;
    var v := x as real / i as real;
    assert q * i <= x < (q + 1) * i;
    assert v * i as real == x as real;
    RealProduct(q, i);
    RealProduct(q + 1, i);
    CancelAtMost(q as real, v, i as real);
    CancelLess(v, (q + 1) as real, i as real);
  }

  lemma Complement(burst: int, x: int, i: int)
    requires 1 <= i
    ensures burst as real - x as real / i as real == (burst * i - x) as real / i as real
    ensures x as real / i as real + 1.0 == (x + i) as real / i as real
  {
    RealProduct(burst, i);
    var v := x as real / i as real;
    assert v * i as real == x as real;
    DivideReal(burst as real - v, (burst * i - x) as real, i as real);
    DivideReal(v + 1.0, (x + i) as real, i as real);
  }

  /** The decision in whole nanoseconds: debt is how long the bucket, as it is left, still needs. */
  lemma AdviceInNanoseconds(limit: Limit, spare: int)
    requires limit.Valid() && -limit.Interval() <= spare <= limit.Capacity() - limit.Interval()
    ensures var d := Advice(limit, spare);
            var debt := limit.Capacity() - spare - if spare < 0 then limit.Interval() else 0;
            && d.allowed == (0 <= spare) && d.limit == limit.burst
            && d.remaining == (if spare < 0 then 0 else spare / limit.Interval())
            && d.retryAfter == (if spare < 0 then -spare else 0)
            && debt <= d.resetAfter <= debt + limit.burst
  {
    if spare < 0 {
      AdviceRefused(limit, spare);
    } else {
      AdviceAllowed(limit, spare);
    }
  }

  lemma AdviceRefused(limit: Limit, spare: int)
    requires limit.Valid() && -limit.Interval() <= spare < 0
    ensures var d := Advice(limit, spare);
            var debt := limit.Capacity() - spare - limit.Interval();
            && !d.allowed && d.remaining == 0 && d.retryAfter == -spare && debt <= d.resetAfter <= debt + limit.burst
  {
    var i := limit.Interval();
    NegativeTokens(spare, i);
    FloorExact(-spare, i, limit.perMinute, MINUTE);
    Complement(limit.burst, spare, i);
    Complement(limit.burst, spare + i, i);
    FloorNear(limit.Capacity() - spare - i, i, limit.perMinute, MINUTE, limit.burst);
  }

  lemma NegativeTokens(spare: int, i: int)
    requires 1 <= i && -i <= spare < 0
    ensures -1.0 <= spare as real / i as real < 0.0
    ensures -(spare as real / i as real) == (-spare) as real / i as real
  {
    var tokens := spare as real / i as real;
    assert tokens * i as real == spare as real;
    DivideReal(-tokens, (-spare) as real, i as real);
    CancelAtMost(-1.0, tokens, i as real);
  }

  lemma AdviceAllowed(limit: Limit, spare: int)
    requires limit.Valid() && 0 <= spare <= limit.Capacity() - limit.Interval()
    ensures var d := Advice(limit, spare);
            var debt := limit.Capacity() - spare;
            && d.allowed && d.remaining == spare / limit.Interval() && d.retryAfter == 0 && debt <= d.resetAfter <= debt + limit.burst
  {
    var i, p, m := limit.Interval(), limit.perMinute, MINUTE;
    var tokens := spare as real / i as real;
    assert tokens == Tokens(spare, limit);
    assert tokens * i as real == spare as real;
    DivideReal(tokens, spare as real, i as real);
    Complement(limit.burst, spare, i);
    FloorQuotient(spare, i);
    FloorNear(limit.Capacity() - spare, i, p, m, limit.burst);
    assert 0.0 <= tokens;
  }

  // ---------- Attempts that follow, among others' ----------

  /** How long a's bucket still needs to be full, as a finds it. */
  function Debt(full: map<string, nat>, a: Attempt): (debt: int)
    ensures 0 <= debt
  {
    FullAt(full, a.key, a.now) - a.now
  }

  /** How many whole tokens a finds. */
  function Whole(full: map<string, nat>, a: Attempt): int
    requires a.limit.Valid()
  {
    (a.limit.Capacity() - Debt(full, a)) / a.limit.Interval()
  }

  /** How many of the attempts lo .. hi-1 are key's. */
  function Own(run: seq<Attempt>, key: string, lo: nat, hi: nat): nat
    requires lo <= hi <= |run|
  {
    if lo == hi then 0 else Own(run, key, lo, hi - 1) + if run[hi - 1].key == key then 1 else 0
  }

  /** Of the attempts lo .. hi-1 those of a's key come when a does; other keys do as they please. */
  ghost predicate AllAt(run: seq<Attempt>, lo: nat, hi: nat, a: Attempt)
    requires lo <= hi <= |run|
  {
    forall i :: lo <= i < hi && run[i].key == a.key ==> run[i].now == a.now
  }

  /** None of the attempts lo .. hi-1 is key's. */
  ghost predicate NoneOf(run: seq<Attempt>, lo: nat, hi: nat, key: string)
    requires lo <= hi <= |run|
  {
    forall i :: lo <= i < hi ==> run[i].key != key
  }

  lemma KeptNext(run: seq<Attempt>, i: nat)
    requires Run(run) && i < |run|
    ensures Kept(run[..i + 1]) == Taken(Kept(run[..i]), run[i])
  {
    assert run[..i + 1][..i] == run[..i] && run[..i + 1][i] == run[i];
  }

  /** Another key's attempts leave a key's bucket as it is. */
  lemma {:induction false} OthersLeave(run: seq<Attempt>, lo: nat, hi: nat, a: Attempt)
    requires Run(run) && lo <= hi <= |run| && NoneOf(run, lo, hi, a.key)
    ensures Debt(Kept(run[..hi]), a) == Debt(Kept(run[..lo]), a)
    decreases hi
  {
    if lo < hi {
      OthersLeave(run, lo, hi - 1, a);
      KeptNext(run, hi - 1);
    }
  }

  /** What is owed has shrunk by the wait when the key comes again. */
  lemma Later(full: map<string, nat>, a: Attempt, later: Attempt)
    requires later.key == a.key && a.now <= later.now
    ensures Debt(full, later) == if later.now - a.now < Debt(full, a) then Debt(full, a) - (later.now - a.now) else 0
  {}

  /** A bucket never owes more than it holds. */
  lemma DebtBounded(run: seq<Attempt>, lo: nat, n: nat)
    requires Run(run) && lo <= n < |run|
    ensures Debt(Kept(run[..lo]), run[n]) <= run[n].limit.Capacity()
  {
    RunPrefix(run, lo);
    assert Clock(run[..lo]) <= run[n].now;
    assert forall i :: 0 <= i < lo ==> run[..lo][i] == run[i];
    KeptBounded(run[..lo], run[n].key, run[n].limit);
  }

  /** Once n of a key's attempts have been made, the bucket that held whole tokens owes the lesser number of them more. */
  ghost predicate Owes(full: map<string, nat>, a: Attempt, debt: int, n: nat)
    requires a.limit.Valid()
  {
    Debt(full, a) == debt + Min(n, (a.limit.Capacity() - debt) / a.limit.Interval()) * a.limit.Interval()
  }

  lemma WholeTokens(capacity: int, debt: int, i: int, k: nat, m: int)
    requires 1 <= i && debt <= capacity && m == (capacity - debt) / i
    ensures 0 <= m
    ensures 0 <= capacity - i - (debt + Min(k, m) * i) <==> k < m
    ensures k < m ==> debt + Min(k, m) * i + i == debt + Min(k + 1, m) * i
  {
    assert m * i <= capacity - debt < (m + 1) * i;
    assert (Min(k, m) + 1) * i == Min(k, m) * i + i;
    if k < m {
      MoreIsMore(k + 1, m, i);
    }
  }

  lemma OneMore(full: map<string, nat>, a: Attempt, debt: int, k: nat)
    requires a.limit.Valid() && debt <= a.limit.Capacity() && Owes(full, a, debt, k)
    ensures 0 <= Spare(full, a) <==> k < (a.limit.Capacity() - debt) / a.limit.Interval()
    ensures Owes(Taken(full, a), a, debt, k + 1)
  {
    WholeTokens(a.limit.Capacity(), debt, a.limit.Interval(), k, (a.limit.Capacity() - debt) / a.limit.Interval());
  }

  lemma FirstOwes(full: map<string, nat>, a: Attempt)
    requires a.limit.Valid() && Debt(full, a) <= a.limit.Capacity()
    ensures Owes(full, a, Debt(full, a), 0)
  {
    WholeTokens(a.limit.Capacity(), Debt(full, a), a.limit.Interval(), 0, Whole(full, a));
  }

  lemma NextOwes(full: map<string, nat>, next: Attempt, a: Attempt, debt: int, k: nat)
    requires a.limit.Valid() && next.limit.Valid() && debt <= a.limit.Capacity() && Owes(full, a, debt, k)
    requires next.key == a.key ==> next == a
    ensures Owes(Taken(full, next), a, debt, if next.key == a.key then k + 1 else k)
  {
    if next.key == a.key {
      OneMore(full, a, debt, k);
    } else {
      assert FullAt(Taken(full, next), a.key, a.now) == FullAt(full, a.key, a.now);
    }
  }

  lemma NextAttempt(run: seq<Attempt>, i: nat, n: nat, debt: int, k: nat)
    requires Run(run) && i < n < |run| && (run[i].key == run[n].key ==> run[i].now == run[n].now)
    requires debt <= run[n].limit.Capacity() && Owes(Kept(run[..i]), run[n], debt, k)
    ensures Owes(Kept(run[..i + 1]), run[n], debt, if run[i].key == run[n].key then k + 1 else k)
  {
    KeptNext(run, i);
    NextOwes(Kept(run[..i]), run[i], run[n], debt, k);
  }

  /** a's bucket once the attempts lo .. hi-1 have been made, those of its key when a is. */
  lemma {:induction false} OwesAfter(run: seq<Attempt>, lo: nat, hi: nat, n: nat)
    requires Run(run) && lo <= hi <= n < |run| && AllAt(run, lo, n, run[n])
    ensures Owes(Kept(run[..hi]), run[n], Debt(Kept(run[..lo]), run[n]), Own(run, run[n].key, lo, hi))
    decreases hi
  {
    DebtBounded(run, lo, n);
    if lo == hi {
      FirstOwes(Kept(run[..lo]), run[n]);
    } else {
      OwesAfter(run, lo, hi - 1, n);
      NextAttempt(run, hi - 1, n, Debt(Kept(run[..lo]), run[n]), Own(run, run[n].key, lo, hi - 1));
    }
  }

  /** Of a key's attempts at one moment the first ones succeed: as many as its bucket held whole tokens. */
  lemma OneOfMany(run: seq<Attempt>, lo: nat, n: nat)
    requires Run(run) && lo <= n < |run| && AllAt(run, lo, n, run[n])
    ensures Allowed(run, n) <==> Own(run, run[n].key, lo, n) < Whole(Kept(run[..lo]), run[n])
  {
    RefinesTokenBucket(run, n);
    DebtBounded(run, lo, n);
    OwesAfter(run, lo, n, n);
    OneMore(Kept(run[..n]), run[n], Debt(Kept(run[..lo]), run[n]), Own(run, run[n].key, lo, n));
  }

  // ---------- What Allow answers ----------

  /** What Allow answers attempt i. */
  function Decided(run: seq<Attempt>, i: nat): Decision
    requires i < |run| && forall j :: 0 <= j < |run| ==> run[j].limit.Valid()
  {
    Advice(run[i].limit, Answer(run, i))
  }

  /** Attempt i leaves its bucket owing debt: what the answer says of it. */
  lemma DecidedBy(run: seq<Attempt>, i: nat)
    requires Run(run) && i < |run|
    ensures var a, d := run[i], Decided(run, i);
            var debt := Debt(Kept(run[..i + 1]), a);
            && (d.allowed <==> Allowed(run, i))
            && debt <= d.resetAfter <= debt + a.limit.burst
            && (d.allowed ==> debt <= a.limit.Capacity() && d.remaining == Whole(Kept(run[..i + 1]), a))
            && (!d.allowed ==> 0 < d.retryAfter <= debt && d.retryAfter == debt - (a.limit.Capacity() - a.limit.Interval()))
  {
    var a := run[i];
    var spare := Spare(Kept(run[..i]), a);
    RefinesTokenBucket(run, i);
    DebtBounded(run, i, i);
    KeptNext(run, i);
    MoreIsMore(1, a.limit.burst, a.limit.Interval());
    AdviceInNanoseconds(a.limit, spare);
  }

  lemma NextAtOnce(run: seq<Attempt>, i: nat, n: nat)
    requires Run(run) && i < n < |run| && run[n].key == run[i].key && run[n].now == run[i].now
    ensures Allowed(run, n) <==> Own(run, run[i].key, i + 1, n) < Whole(Kept(run[..i + 1]), run[i])
  {
    forall j | i + 1 <= j < n && run[j].key == run[n].key
      ensures run[j].now == run[n].now
    {
      assert run[i].now <= run[j].now <= run[n].now;
    }
    OneOfMany(run, i + 1, n);
    assert run[n] == run[i];
  }

  /** Remaining is exactly how many more attempts of the key succeed at that moment, whatever other keys do. */
  lemma RemainingIsExact(run: seq<Attempt>, i: nat, n: nat)
    requires Run(run) && i < n < |run| && Decided(run, i).allowed
    requires run[n].key == run[i].key && run[n].now == run[i].now
    ensures Allowed(run, n) <==> Own(run, run[i].key, i + 1, n) < Decided(run, i).remaining
  {
    DecidedBy(run, i);
    NextAtOnce(run, i, n);
  }

  /** A refused client that waits RetryAfter succeeds, and one that waits any less does not, whatever other keys do meanwhile. */
  lemma RetryAfterIsExact(run: seq<Attempt>, i: nat, n: nat)
    requires Run(run) && i < n < |run| && !Decided(run, i).allowed
    requires run[n].key == run[i].key && NoneOf(run, i + 1, n, run[i].key)
    ensures Allowed(run, n) <==> Decided(run, i).retryAfter <= run[n].now - run[i].now
  {
    DecidedBy(run, i);
    Later(Kept(run[..i + 1]), run[i], run[n]);
    OthersLeave(run, i + 1, n, run[n]);
    RefinesTokenBucket(run, n);
  }

  const SECOND: int := 1_000_000_000

  /** A client is told to wait in whole seconds, rounded up. */
  function WholeSeconds(d: int): int {
    (d + SECOND - 1) / SECOND
  }

  /** A client that waits as many whole seconds as it is told is never early, and not a second more than it must be. */
  lemma RetryAfterInSeconds(run: seq<Attempt>, i: nat, n: nat)
    requires Run(run) && i < n < |run| && !Decided(run, i).allowed
    requires run[n].key == run[i].key && NoneOf(run, i + 1, n, run[i].key)
    requires run[n].now - run[i].now == WholeSeconds(Decided(run, i).retryAfter) * SECOND
    ensures Decided(run, i).retryAfter <= run[n].now - run[i].now < Decided(run, i).retryAfter + SECOND
    ensures Allowed(run, n)
  {
    RetryAfterIsExact(run, i, n);
  }

  lemma WholeBurst(burst: nat, i: int)
    requires 1 <= i
    ensures burst * i / i == burst
  {
    WholeTokens(burst * i, 0, i, burst, burst * i / i);
    AtMostWhole(burst, burst * i / i, i);
  }

  lemma AtMostWhole(burst: nat, q: int, i: int)
    requires 1 <= i && 0 <= q && q * i <= burst * i < (q + 1) * i
    ensures q == burst
  {
    assert burst < q ==> burst * i < q * i;
    assert q + 1 <= burst ==> (q + 1) * i <= burst * i;
  }

  /**
   * After ResetAfter a full burst of the key's attempts succeeds, and no more
   * than that, whatever other keys do. It is at most burst nanoseconds longer
   * than the bucket needs.
   */
  lemma ResetAfterRefills(run: seq<Attempt>, i: nat, n: nat)
    requires Run(run) && i < n < |run| && run[n].key == run[i].key
    requires run[i].now + Decided(run, i).resetAfter <= run[n].now && AllAt(run, i + 1, n, run[n])
    ensures Allowed(run, n) <==> Own(run, run[n].key, i + 1, n) < run[n].limit.burst
    ensures Debt(Kept(run[..i + 1]), run[i]) <= Decided(run, i).resetAfter <= Debt(Kept(run[..i + 1]), run[i]) + run[i].limit.burst
  {
    DecidedBy(run, i);
    Later(Kept(run[..i + 1]), run[i], run[n]);
    WholeBurst(run[n].limit.burst, run[n].limit.Interval());
    OneOfMany(run, i + 1, n);
  }
}
