/** backend/internal/jobs: a job that runs at once and then at each tick. Times are in nanoseconds. */
module Jobs {

  /** When the run after one that started at s and took length starts. */
  function NextStart(created: int, every: int, s: int, length: nat): int
    requires 1 <= every
  {
    if Ticks(created, every, s) < Ticks(created, every, s + length) then s + length
    else created + (Ticks(created, every, s + length) + 1) * every
  }

  /** How many times the ticker has fired by t. */
  function Ticks(created: int, every: int, t: int): int
    requires 1 <= every
  {
    (t - created) / every
  }

  /** When each run starts, the first as the ticker is created. The last run has not started before its length is known. */
  function Starts(created: int, every: int, lengths: seq<nat>): (starts: seq<int>)
    requires 1 <= every
    ensures |starts| == |lengths| + 1
  {
    if lengths == [] then [created]
    else
      var n := |lengths| - 1;
      var before := Starts(created, every, lengths[..n]);
      before + [NextStart(created, every, before[n], lengths[n])]
  }

  /**
   * The loop, for as many runs as there are lengths and the start of one more.
   * The ticker's channel holds one tick; those that find it full are dropped.
   */
  method Loop(created: int, every: int, lengths: seq<nat>) returns (starts: seq<int>)
    requires 1 <= every
    ensures starts == Starts(created, every, lengths)
  {
    var clock, fired, buffered := created, 0, false;
    starts := [clock];
    for i := 0 to |lengths|
      invariant |starts| == i + 1 && clock == starts[i] && !buffered
      invariant starts == Starts(created, every, lengths[..i])
      invariant fired == Ticks(created, every, clock)
    {
      clock := clock + lengths[i];
      var due := (clock - created) / every;
      TicksGrow(created, every, clock - lengths[i], clock);
      if fired < due {
        fired, buffered := due, true;
      }
      if buffered {
        buffered := false;
      } else {
        fired := fired + 1;
        clock := created + fired * every;
        TickTimes(created, every, fired);
      }
      starts := starts + [clock];
      assert lengths[..i + 1][..i] == lengths[..i];
    }
    assert lengths[..|lengths|] == lengths;
  }

  lemma TicksGrow(created: int, every: int, s: int, t: int)
    requires 1 <= every && s <= t
    ensures Ticks(created, every, s) <= Ticks(created, every, t)
    ensures t - s < every ==> Ticks(created, every, t) <= Ticks(created, every, s) + 1
    ensures created + Ticks(created, every, t) * every <= t < created + Ticks(created, every, t) * every + every
  {
    var p, q := Ticks(created, every, s), Ticks(created, every, t);
    assert p * every <= s - created < p * every + every;
    assert q * every <= t - created < q * every + every;
    Apart(p, q, every);
    Apart(q, p, every);
  }

  lemma Apart(p: int, q: int, every: int)
    requires 1 <= every
    ensures q * every - p * every < every ==> q <= p
    ensures q * every - p * every < 2 * every ==> q <= p + 1
  {
    var d := q - p;
    assert q * every - p * every == d * every;
    AtLeast(d, 1, every);
    AtLeast(d, 2, every);
  }

  lemma AtLeast(d: int, k: int, every: int)
    requires 1 <= every
    ensures k <= d ==> k * every <= d * every
    decreases d - k
  {
    if k < d { AtLeast(d - 1, k, every); }
  }

  lemma TickTimes(created: int, every: int, k: int)
    requires 1 <= every
    ensures Ticks(created, every, created + k * every) == k
  {
    var q := Ticks(created, every, created + k * every);
    assert q * every <= k * every < q * every + every;
    Apart(q, k, every);
    Apart(k, q, every);
  }

  function Max(x: int, y: int): int {
    if x < y then y else x
  }

  /** Runs never overlap, and starts are no further apart than the interval or the run itself. */
  lemma NextBounded(created: int, every: int, s: int, length: nat)
    requires 1 <= every
    ensures s + length <= NextStart(created, every, s, length) <= s + Max(every, length)
  {
    TicksGrow(created, every, s, s);
    TicksGrow(created, every, s, s + length);
    var q := Ticks(created, every, s + length);
    assert (q + 1) * every == q * every + every;
  }

  lemma {:induction false} StartsBounded(created: int, every: int, lengths: seq<nat>, i: nat)
    requires 1 <= every && i < |lengths|
    ensures var starts := Starts(created, every, lengths);
            starts[i] + lengths[i] <= starts[i + 1] <= starts[i] + Max(every, lengths[i])
  {
    var n := |lengths| - 1;
    if i == n {
      NextBounded(created, every, Starts(created, every, lengths[..n])[n], lengths[n]);
    } else {
      StartsBounded(created, every, lengths[..n], i);
    }
  }

  /** A run that is overtaken by a tick is followed straight away by one run, however many ticks it missed. */
  lemma {:induction false} OverrunFollowsAtOnce(created: int, every: int, lengths: seq<nat>, i: nat)
    requires 1 <= every && i < |lengths|
    ensures var starts := Starts(created, every, lengths);
            && (every <= lengths[i] ==> starts[i + 1] == starts[i] + lengths[i])
            && (starts[i + 1] == starts[i] + lengths[i] || exists k :: starts[i + 1] == created + k * every)
  {
    var n := |lengths| - 1;
    if i == n {
      var s := Starts(created, every, lengths[..n])[n];
      var q := Ticks(created, every, s + lengths[n]) + 1;
      TicksGrow(created, every, s, s + lengths[n]);
      TicksGrow(created, every, s, s);
      assert NextStart(created, every, s, lengths[n]) == s + lengths[n]
          || NextStart(created, every, s, lengths[n]) == created + q * every;
    } else {
      OverrunFollowsAtOnce(created, every, lengths[..n], i);
    }
  }

  /** When the ticker fires for the kth time. */
  function TickAt(created: int, every: int, k: int): int {
    created + k * every
  }

  /** The ticker fires after s, and by t. */
  ghost predicate Fires(created: int, every: int, s: int, t: int) {
    exists k :: s < TickAt(created, every, k) <= t
  }

  lemma FiresWithin(created: int, every: int, s: int, t: int)
    requires 1 <= every && s <= t
    ensures Fires(created, every, s, t) <==> Ticks(created, every, s) < Ticks(created, every, t)
  {
    var p, q := Ticks(created, every, s), Ticks(created, every, t);
    TicksGrow(created, every, s, s);
    TicksGrow(created, every, s, t);
    if p < q {
      AtLeast(q, p + 1, every);
      assert (p + 1) * every == p * every + every;
      assert s < TickAt(created, every, q) <= t;
    }
    if Fires(created, every, s, t) {
      var k :| s < TickAt(created, every, k) <= t;
      TickTimes(created, every, k);
      TicksGrow(created, every, TickAt(created, every, k), t);
      TickPasses(created, every, s, k);
    }
  }

  lemma TickPasses(created: int, every: int, s: int, k: int)
    requires 1 <= every && s < TickAt(created, every, k)
    ensures Ticks(created, every, s) < k
  {
    var p := Ticks(created, every, s);
    TicksGrow(created, every, s, s);
    if k <= p {
      AtLeast(p, k, every);
    }
  }

  lemma NextIsFirst(created: int, every: int, s: int, length: nat)
    requires 1 <= every
    ensures var next := NextStart(created, every, s, length);
            && s + length <= next && Fires(created, every, s, next)
            && forall t :: s + length <= t < next ==> !Fires(created, every, s, t)
  {
    var next, p := NextStart(created, every, s, length), Ticks(created, every, s);
    NextBounded(created, every, s, length);
    FiresWithin(created, every, s, s + length);
    if s + length < next {
      TicksGrow(created, every, s, s + length);
      TicksGrow(created, every, s, s);
      assert next == TickAt(created, every, p + 1) && (p + 1) * every == p * every + every;
      forall t | s + length <= t < next
        ensures !Fires(created, every, s, t)
      {
        TickPasses(created, every, t, p + 1);
        FiresWithin(created, every, s, t);
      }
    }
  }

  /**
   * A run starts once the one before it has ended and the ticker has fired
   * since that started, and no later.
   */
  lemma {:induction false} StartsOnceFired(created: int, every: int, lengths: seq<nat>, i: nat)
    requires 1 <= every && i < |lengths|
    ensures var starts := Starts(created, every, lengths);
            && starts[i] + lengths[i] <= starts[i + 1] && Fires(created, every, starts[i], starts[i + 1])
            && forall t :: starts[i] + lengths[i] <= t < starts[i + 1] ==> !Fires(created, every, starts[i], t)
  {
    var n := |lengths| - 1;
    if i == n {
      NextIsFirst(created, every, Starts(created, every, lengths[..n])[n], lengths[n]);
    } else {
      StartsOnceFired(created, every, lengths[..n], i);
    }
  }

  /** So run i starts only once the ticker has fired i times. */
  lemma {:induction false} FiredForEach(created: int, every: int, lengths: seq<nat>, i: nat)
    requires 1 <= every && i <= |lengths|
    ensures TickAt(created, every, i) <= Starts(created, every, lengths)[i]
  {
    var starts := Starts(created, every, lengths);
    if i == 0 {
      FirstStart(created, every, lengths);
    } else {
      FiredForEach(created, every, lengths, i - 1);
      StartsOnceFired(created, every, lengths, i - 1);
      var k :| starts[i - 1] < TickAt(created, every, k) <= starts[i];
      OneTickOn(created, every, k, i);
    }
  }

  lemma {:induction false} FirstStart(created: int, every: int, lengths: seq<nat>)
    requires 1 <= every
    ensures Starts(created, every, lengths)[0] == created
  {
    if lengths != [] {
      FirstStart(created, every, lengths[..|lengths| - 1]);
    }
  }

  lemma OneTickOn(created: int, every: int, k: int, i: int)
    requires 1 <= every && TickAt(created, every, i - 1) < TickAt(created, every, k)
    ensures TickAt(created, every, i) <= TickAt(created, every, k)
  {
    if k < i {
      AtLeast(i - 1, k, every);
    } else {
      AtLeast(k, i, every);
    }
  }

  lemma NextOnTick(created: int, every: int, n: nat, length: nat)
    requires 1 <= every && length <= every
    ensures NextStart(created, every, created + n * every, length) == created + (n + 1) * every
  {
    TickTimes(created, every, n);
    assert (n + 1) * every == n * every + every;
    if length == every {
      TickTimes(created, every, n + 1);
    } else {
      TicksWithin(created, every, n, length);
    }
  }

  lemma TicksWithin(created: int, every: int, n: nat, past: nat)
    requires past < every
    ensures Ticks(created, every, created + n * every + past) == n
  {
    var q := Ticks(created, every, created + n * every + past);
    assert q * every <= n * every + past < q * every + every;
    Apart(q, n, every);
    Apart(n, q, every);
  }

  /** While no run takes longer than the interval, runs start exactly on the ticks: the schedule does not drift. */
  lemma {:induction false} NoDrift(created: int, every: int, lengths: seq<nat>, i: nat)
    requires 1 <= every && i <= |lengths| && forall k :: 0 <= k < |lengths| ==> lengths[k] <= every
    ensures Starts(created, every, lengths)[i] == created + i * every
  {
    var n := |lengths| - 1;
    if lengths == [] {
      assert i * every == 0;
    } else if i <= n {
      NoDrift(created, every, lengths[..n], i);
    } else {
      NoDrift(created, every, lengths[..n], n);
      NextOnTick(created, every, n, lengths[n]);
    }
  }
}
