/** What a limiter answers over whole runs of attempts, by any keys at any times. */
module LimiterRuns {
  import opened Limiter

  /** The clock never goes back, and a key always belongs to the same limiter. */
  ghost predicate Run(run: seq<Attempt>) {
    && (forall i :: 0 <= i < |run| ==> run[i].limit.Valid())
    && (forall i, j :: 0 <= i < j < |run| ==> run[i].now <= run[j].now)
    && (forall i, j :: 0 <= i < j < |run| && run[i].key == run[j].key ==> run[i].limit == run[j].limit)
  }

  function Clock(run: seq<Attempt>): nat {
    if run == [] then 0 else run[|run| - 1].now
  }

  // ---------- Three machines ----------

  /** Memory, started empty. */
  function After(run: seq<Attempt>): Buckets
    requires forall i :: 0 <= i < |run| ==> run[i].limit.Valid()
  {
    if run == [] then Buckets(map[], 0) else Step(After(run[..|run| - 1]), run[|run| - 1])
  }

  /** A map that is never swept. */
  function Kept(run: seq<Attempt>): map<string, nat>
    requires forall i :: 0 <= i < |run| ==> run[i].limit.Valid()
  {
    if run == [] then map[] else Taken(Kept(run[..|run| - 1]), run[|run| - 1])
  }

  /** A token bucket: it held level at time at, refills by a nanosecond a nanosecond, and is capped. */
  datatype Bucket = Bucket(limit: Limit, level: int, at: nat) {
    function LevelAt(now: nat): int
      requires limit.Valid()
    {
      if limit.Capacity() < level + now - at then limit.Capacity() else level + now - at
    }
  }

  function LevelOf(buckets: map<string, Bucket>, a: Attempt): int
    requires a.limit.Valid()
    requires a.key in buckets ==> buckets[a.key].limit.Valid()
  {
    if a.key in buckets then buckets[a.key].LevelAt(a.now) else a.limit.Capacity()
  }

  ghost predicate Sound(buckets: map<string, Bucket>) {
    forall key :: key in buckets ==> buckets[key].limit.Valid()
  }

  /** A token costs the interval; an attempt that finds none takes nothing. */
  function Drawn(buckets: map<string, Bucket>, a: Attempt): map<string, Bucket>
    requires a.limit.Valid() && (a.key in buckets ==> buckets[a.key].limit.Valid())
  {
    var level := LevelOf(buckets, a);
    buckets[a.key := Bucket(a.limit, if a.limit.Interval() <= level then level - a.limit.Interval() else level, a.now)]
  }

  function TokenBuckets(run: seq<Attempt>): (buckets: map<string, Bucket>)
    requires forall i :: 0 <= i < |run| ==> run[i].limit.Valid()
    ensures Sound(buckets)
  {
    if run == [] then map[] else Drawn(TokenBuckets(run[..|run| - 1]), run[|run| - 1])
  }

  /** What Memory answers attempt i, in nanoseconds of refilling. */
  function Answer(run: seq<Attempt>, i: nat): int
    requires i < |run| && forall j :: 0 <= j < |run| ==> run[j].limit.Valid()
  {
    Spare(Swept(After(run[..i]), run[i].now).full, run[i])
  }

  predicate Allowed(run: seq<Attempt>, i: nat)
    requires i < |run| && forall j :: 0 <= j < |run| ==> run[j].limit.Valid()
  {
    0 <= Answer(run, i)
  }

  // ---------- Memory refines both ----------

  /** Two maps that look the same from now on. */
  ghost predicate Alike(one: map<string, nat>, other: map<string, nat>, now: nat) {
    forall key :: FullAt(one, key, now) == FullAt(other, key, now)
  }

  lemma SweepingIsInvisible(b: Buckets, now: nat)
    ensures Alike(Swept(b, now).full, b.full, now)
  {}

  lemma AlikeLater(one: map<string, nat>, other: map<string, nat>, now: nat, later: nat)
    requires Alike(one, other, now) && now <= later
    ensures Alike(one, other, later)
  {
    forall key
      ensures FullAt(one, key, later) == FullAt(other, key, later)
    {
      assert FullAt(one, key, now) == FullAt(other, key, now);
    }
  }

  lemma TakenAlike(one: map<string, nat>, other: map<string, nat>, a: Attempt)
    requires a.limit.Valid() && Alike(one, other, a.now)
    ensures Spare(one, a) == Spare(other, a)
    ensures Alike(Taken(one, a), Taken(other, a), a.now)
  {
    assert FullAt(one, a.key, a.now) == FullAt(other, a.key, a.now);
    forall key
      ensures FullAt(Taken(one, a), key, a.now) == FullAt(Taken(other, a), key, a.now)
    {
      assert FullAt(one, key, a.now) == FullAt(other, key, a.now);
    }
  }

  lemma RunPrefix(run: seq<Attempt>, n: nat)
    requires Run(run) && n <= |run|
    ensures Run(run[..n]) && (0 < n ==> Clock(run[..n]) == run[n - 1].now)
    ensures n < |run| ==> Clock(run[..n]) <= run[n].now
  {}

  lemma {:induction false} SweptLikeKept(run: seq<Attempt>)
    requires Run(run)
    ensures Alike(After(run).full, Kept(run), Clock(run))
  {
    if run != [] {
      var before, a := run[..|run| - 1], run[|run| - 1];
      RunPrefix(run, |run| - 1);
      SweptLikeKept(before);
      NextAlike(run, |run| - 1);
    }
  }

  lemma NextAlike(run: seq<Attempt>, i: nat)
    requires Run(run) && i < |run| && Alike(After(run[..i]).full, Kept(run[..i]), Clock(run[..i]))
    ensures Alike(Swept(After(run[..i]), run[i].now).full, Kept(run[..i]), run[i].now)
    ensures Alike(Step(After(run[..i]), run[i]).full, Taken(Kept(run[..i]), run[i]), run[i].now)
  {
    var b, a := After(run[..i]), run[i];
    RunPrefix(run, i);
    AlikeLater(b.full, Kept(run[..i]), Clock(run[..i]), a.now);
    SweepingIsInvisible(b, a.now);
    forall key
      ensures FullAt(Swept(b, a.now).full, key, a.now) == FullAt(Kept(run[..i]), key, a.now)
    {
      assert FullAt(Swept(b, a.now).full, key, a.now) == FullAt(b.full, key, a.now);
      assert FullAt(b.full, key, a.now) == FullAt(Kept(run[..i]), key, a.now);
    }
    TakenAlike(Swept(b, a.now).full, Kept(run[..i]), a);
  }

  /** The timestamp stands for the bucket: what is missing from it is the time until it is full. */
  ghost predicate Represents(full: map<string, nat>, buckets: map<string, Bucket>, now: nat) {
    && Sound(buckets)
    && full.Keys <= buckets.Keys
    && forall key :: key in buckets ==>
         var b := buckets[key];
         b.at <= now && b.level == b.limit.Capacity() - (FullAt(full, key, b.at) - b.at)
  }

  lemma LevelIsDebt(full: map<string, nat>, buckets: map<string, Bucket>, a: Attempt, now: nat)
    requires Represents(full, buckets, now) && now <= a.now && a.limit.Valid()
    requires a.key in buckets ==> buckets[a.key].limit == a.limit
    ensures LevelOf(buckets, a) == a.limit.Capacity() - (FullAt(full, a.key, a.now) - a.now)
  {}

  lemma DrawnRepresents(full: map<string, nat>, buckets: map<string, Bucket>, a: Attempt, now: nat)
    requires Represents(full, buckets, now) && now <= a.now && a.limit.Valid()
    requires a.key in buckets ==> buckets[a.key].limit == a.limit
    ensures Represents(Taken(full, a), Drawn(buckets, a), a.now)
  {
    LevelIsDebt(full, buckets, a, now);
  }

  /** Each bucket belongs to the limiter of some attempt on its key. */
  ghost predicate Known(buckets: map<string, Bucket>, run: seq<Attempt>) {
    forall key :: key in buckets ==> exists i :: 0 <= i < |run| && run[i].key == key && run[i].limit == buckets[key].limit
  }

  lemma {:induction false} BucketsKnown(run: seq<Attempt>)
    requires Run(run)
    ensures Known(TokenBuckets(run), run)
  {
    if run != [] {
      var n := |run| - 1;
      RunPrefix(run, n);
      BucketsKnown(run[..n]);
      forall key | key in TokenBuckets(run)
        ensures exists i :: 0 <= i < |run| && run[i].key == key && run[i].limit == TokenBuckets(run)[key].limit
      {
        if key == run[n].key {
          assert TokenBuckets(run)[key].limit == run[n].limit;
        } else {
          var i :| 0 <= i < n && run[..n][i].key == key && run[..n][i].limit == TokenBuckets(run[..n])[key].limit;
          assert run[i] == run[..n][i];
        }
      }
    }
  }

  lemma {:induction false} KeptRepresents(run: seq<Attempt>)
    requires Run(run)
    ensures Represents(Kept(run), TokenBuckets(run), Clock(run))
  {
    if run != [] {
      var n := |run| - 1;
      RunPrefix(run, n);
      KeptRepresents(run[..n]);
      SameLimiter(run, n);
      DrawnRepresents(Kept(run[..n]), TokenBuckets(run[..n]), run[n], Clock(run[..n]));
    }
  }

  lemma SameLimiter(run: seq<Attempt>, i: nat)
    requires Run(run) && i < |run|
    ensures run[i].key in TokenBuckets(run[..i]) ==> TokenBuckets(run[..i])[run[i].key].limit == run[i].limit
  {
    RunPrefix(run, i);
    BucketsKnown(run[..i]);
  }

  /** Every answer is the one a never-swept map gives, and the one a token bucket gives. */
  lemma RefinesTokenBucket(run: seq<Attempt>, i: nat)
    requires Run(run) && i < |run|
    ensures Answer(run, i) == Spare(Kept(run[..i]), run[i])
    ensures Answer(run, i) == LevelOf(TokenBuckets(run[..i]), run[i]) - run[i].limit.Interval()
  {
    var before := run[..i];
    RunPrefix(run, i);
    SweptLikeKept(before);
    NextAlike(run, i);
    TakenAlike(Swept(After(before), run[i].now).full, Kept(before), run[i]);
    KeptRepresents(before);
    SameLimiter(run, i);
    LevelIsDebt(Kept(before), TokenBuckets(before), run[i], Clock(before));
  }

  // ---------- The counting bound ----------

  /** How many of the attempts lo .. hi-1 were key's and were allowed. */
  function Count(run: seq<Attempt>, key: string, lo: nat, hi: nat): nat
    requires lo <= hi <= |run| && forall i :: 0 <= i < |run| ==> run[i].limit.Valid()
  {
    if lo == hi then 0
    else Count(run, key, lo, hi - 1) + if run[hi - 1].key == key && Allowed(run, hi - 1) then 1 else 0
  }

  lemma {:induction false} KeptBounded(run: seq<Attempt>, key: string, limit: Limit)
    requires Run(run) && forall i :: 0 <= i < |run| && run[i].key == key ==> run[i].limit == limit
    ensures key in Kept(run) ==> limit.Valid() && Kept(run)[key] <= Clock(run) + limit.Capacity()
  {
    if run != [] {
      var n := |run| - 1;
      RunPrefix(run, n);
      assert forall i :: 0 <= i < n ==> run[..n][i] == run[i];
      KeptBounded(run[..n], key, limit);
      var a := run[n];
      if a.key == key && 0 <= Spare(Kept(run[..n]), a) {
        assert Kept(run)[key] == FullAt(Kept(run[..n]), key, a.now) + a.limit.Interval();
      }
    }
  }

  /** Each allowed attempt pushes the full-again time on by an interval. */
  lemma {:induction false} Pushed(run: seq<Attempt>, key: string, limit: Limit, lo: nat, hi: nat)
    requires Run(run) && limit.Valid() && lo <= hi <= |run|
    requires forall i :: 0 <= i < |run| && run[i].key == key ==> run[i].limit == limit
    ensures 0 < Count(run, key, lo, hi) ==>
              key in Kept(run[..hi]) && run[lo].now + Count(run, key, lo, hi) * limit.Interval() <= Kept(run[..hi])[key]
  {
    if lo < hi {
      var n := hi - 1;
      Pushed(run, key, limit, lo, n);
      RefinesTokenBucket(run, n);
      assert run[..hi][..n] == run[..n] && run[..hi][n] == run[n];
      PushedOnce(Kept(run[..n]), run[n], key, run[lo].now, Count(run, key, lo, n));
    }
  }

  lemma PushedOnce(full: map<string, nat>, a: Attempt, key: string, start: nat, c: nat)
    requires a.limit.Valid() && start <= a.now
    requires a.key == key && 0 < c ==> key in full && start + c * a.limit.Interval() <= full[key]
    ensures a.key == key && 0 <= Spare(full, a) ==> start + (c + 1) * a.limit.Interval() <= Taken(full, a)[key]
    ensures a.key != key || Spare(full, a) < 0 ==> (key in Taken(full, a) <==> key in full)
    ensures a.key != key || Spare(full, a) < 0 ==> (key in full ==> Taken(full, a)[key] == full[key])
  {
    assert (c + 1) * a.limit.Interval() == c * a.limit.Interval() + a.limit.Interval();
    if c == 0 {
      assert c * a.limit.Interval() == 0;
    }
  }

  lemma Quotient(c: int, burst: int, interval: int, span: int)
    requires 1 <= interval && c * interval <= burst * interval + span
    ensures c - burst <= span / interval
  {
    var q := span / interval;
    var d := c - burst - q - 1;
    assert c * interval == burst * interval + q * interval + interval + d * interval;
    assert span < q * interval + interval;
    assert 0 <= d ==> 0 <= d * interval;
  }

  lemma PrefixBounded(run: seq<Attempt>, key: string, limit: Limit, n: nat)
    requires Run(run) && 0 < n <= |run| && forall i :: 0 <= i < |run| && run[i].key == key ==> run[i].limit == limit
    ensures key in Kept(run[..n]) ==> limit.Valid() && Kept(run[..n])[key] <= run[n - 1].now + limit.Capacity()
  {
    RunPrefix(run, n);
    assert forall i :: 0 <= i < n ==> run[..n][i] == run[i];
    KeptBounded(run[..n], key, limit);
  }

  /**
   * Within a span of time at most a full bucket, and a token an interval, are
   * allowed to one key, whatever other keys do and whenever sweeps happen.
   */
  lemma AllowedInSpan(run: seq<Attempt>, key: string, limit: Limit, lo: nat, hi: nat, span: nat)
    requires Run(run) && limit.Valid() && lo < hi <= |run|
    requires forall i :: 0 <= i < |run| && run[i].key == key ==> run[i].limit == limit
    requires run[hi - 1].now - run[lo].now <= span
    ensures Count(run, key, lo, hi) <= limit.burst + span / limit.Interval()
  {
    var c := Count(run, key, lo, hi);
    if c == 0 {
      assert 0 <= span / limit.Interval();
    } else {
      Pushed(run, key, limit, lo, hi);
      PrefixBounded(run, key, limit, hi);
      Quotient(c, limit.burst, limit.Interval(), span);
    }
  }

  // ---------- What the map holds ----------

  /** Why key has an entry: an attempt of its that was allowed, at most a bucketful of refilling before. */
  ghost predicate Explained(run: seq<Attempt>, key: string, i: nat)
    requires Run(run)
  {
    && i < |run| && run[i].key == key && Allowed(run, i)
    && key in After(run).full
    && After(run).full[key] <= run[i].now + run[i].limit.Capacity()
    && (After(run).swept < After(run).full[key] || After(run).swept <= run[i].now)
  }

  lemma {:induction false} Explain(run: seq<Attempt>, key: string) returns (i: nat)
    requires Run(run) && key in After(run).full
    ensures Explained(run, key, i)
  {
    var n := |run| - 1;
    var before, a := run[..n], run[n];
    RunPrefix(run, n);
    var b := Swept(After(before), a.now);
    assert After(run) == b.(full := Taken(b.full, a));
    SweptInPast(before);
    if a.key == key && 0 <= Spare(b.full, a) {
      i := n;
    } else {
      i := Explain(before, key);
      assert run[..i] == before[..i];
    }
  }

  lemma {:induction false} SweptInPast(run: seq<Attempt>)
    requires Run(run)
    ensures After(run).swept <= Clock(run) < After(run).swept + MINUTE
  {
    if run != [] {
      RunPrefix(run, |run| - 1);
      SweptInPast(run[..|run| - 1]);
    }
  }

  lemma FullInAMinute(limit: Limit)
    requires limit.Valid() && limit.burst == limit.perMinute
    ensures limit.Capacity() <= MINUTE
  {
    assert limit.burst * limit.Interval() == limit.Interval() * limit.perMinute;
  }

  /**
   * An entry left in the map had a token taken less than two minutes ago,
   * when the bucket holds a minute's tokens, as New makes it.
   */
  lemma EntriesAreRecent(run: seq<Attempt>, key: string)
    requires Run(run) && key in After(run).full
    requires forall i :: 0 <= i < |run| ==> run[i].limit.burst == run[i].limit.perMinute
    ensures exists i :: 0 <= i < |run| && run[i].key == key && Allowed(run, i) && Clock(run) - run[i].now < 2 * MINUTE
  {
    var i := Explain(run, key);
    SweptInPast(run);
    FullInAMinute(run[i].limit);
  }
}
