/** backend/internal/store/counts.go: choosing a timeline's interval, and filling its buckets. */
module Counts {
  import opened Wrappers
  import opened Events
  import opened Filtering
  import opened Durations

  const MINUTE: int := 60_000_000_000
  const DAY: int := 24 * 60 * MINUTE
  /** From Go's zero time, which times count from, to 1970. */
  const UNIX_EPOCH: int := 719162 * DAY
  const MAX_DURATION: int := 0x7fff_ffff_ffff_ffff
  const AUTO_INTERVALS: int := 200
  const MAX_INTERVALS: int := 1440

  datatype Interval = Interval(name: string, width: int)

  /** Shortest first. */
  const INTERVALS: seq<Interval> := [
    Interval("1m", MINUTE), Interval("5m", 5 * MINUTE), Interval("15m", 15 * MINUTE), Interval("30m", 30 * MINUTE),
    Interval("1h", 60 * MINUTE), Interval("3h", 180 * MINUTE), Interval("6h", 360 * MINUTE),
    Interval("12h", 720 * MINUTE), Interval("1d", DAY)
  ]

  // ---------- Choosing an interval ----------

  /** to.Sub(from): a 64-bit difference saturates. */
  function Sub(to: int, from: int): int {
    if to - from > MAX_DURATION then MAX_DURATION
    else if to - from < -MAX_DURATION - 1 then -MAX_DURATION - 1 else to - from
  }

  /** How many intervals a window takes. */
  function Parts(window: int, width: int): int
    requires 1 <= width
  {
    (window - 1) / width + 1
  }

  /** The first index from i on that is accepted, or the length. */
  function IndexFrom(i: nat, accepts: Interval -> bool): (n: nat)
    requires i <= |INTERVALS|
    ensures i <= n <= |INTERVALS| && (n < |INTERVALS| ==> accepts(INTERVALS[n]))
    ensures forall j :: i <= j < n ==> !accepts(INTERVALS[j])
    decreases |INTERVALS| - i
  {
    if i == |INTERVALS| || accepts(INTERVALS[i]) then i else IndexFrom(i + 1, accepts)
  }

  /** The interval, where the first bucket starts, and how many buckets there are. */
  datatype Choice = Choice(interval: Interval, first: int, n: int)

  function PickInterval(name: string, from: int, to: int): Result<Choice, Refusal>
    requires from < to
  {
    var window := Sub(to, from);
    if name == "" then
      var i := IndexFrom(0, (iv: Interval) => 1 <= iv.width && Parts(window, iv.width) <= AUTO_INTERVALS);
      var iv := if i < |INTERVALS| then INTERVALS[i] else INTERVALS[|INTERVALS| - 1];
      if Parts(window, Width(iv)) > MAX_INTERVALS then Failure(BadWindow) else Success(Buckets(iv, from, to))
    else
      var i := IndexFrom(0, (iv: Interval) => iv.name == name);
      if i == |INTERVALS| then Failure(BadInterval)
      else if Parts(window, Width(INTERVALS[i])) > MAX_INTERVALS then Failure(BadWindow)
      else Success(Buckets(INTERVALS[i], from, to))
  }

  function Width(iv: Interval): int
    requires iv in INTERVALS
    ensures 1 <= Width(iv) <= DAY && DAY % Width(iv) == 0 && Width(iv) % MINUTE == 0
  {
    iv.width
  }

  /** The first bucket starts on a whole multiple of the width since the zero time. */
  function Buckets(iv: Interval, from: int, to: int): Choice
    requires iv in INTERVALS
  {
    var width := Width(iv);
    var first := from / width * width;
    Choice(iv, first, Parts(Sub(to, first), width))
  }

  // ---------- What is chosen ----------

  lemma AtMost(window: int, width: int, parts: int)
    requires 1 <= window && 1 <= width
    ensures Parts(window, width) <= parts <==> window <= parts * width
  {
    var q := (window - 1) / width;
    assert q * width <= window - 1 < q * width + width;
    if parts <= q {
      More(parts, q, width);
    } else {
      More(q + 1, parts, width);
    }
  }

  lemma More(a: int, b: int, k: int)
    requires a <= b && 0 <= k
    ensures a * k <= b * k
  {}

  /** Saturating does not change whether a window takes at most so many intervals. */
  lemma SaturationIsHarmless(from: int, to: int, width: int, parts: int)
    requires from < to && 1 <= width <= DAY && 0 <= parts <= MAX_INTERVALS
    ensures Parts(Sub(to, from), width) <= parts <==> to - from <= parts * width
  {
    AtMost(Sub(to, from), width, parts);
    More(parts, MAX_INTERVALS, width);
  }

  lemma IntervalsAscend()
    ensures |INTERVALS| == 9 && INTERVALS[8].width == DAY
    ensures forall i :: 0 <= i < |INTERVALS| ==> 1 <= INTERVALS[i].width <= DAY
    ensures forall i, j :: 0 <= i < j < |INTERVALS| ==> INTERVALS[i].width < INTERVALS[j].width
  {}

  /**
   * With no interval named, the shortest that takes at most 200 parts is
   * chosen, or a day if none does; the window is refused exactly if it is over
   * 1440 days, however long it is.
   */
  lemma PickedAutomatically(from: int, to: int)
    requires from < to
    ensures var r := PickInterval("", from, to);
            && (r.Success? <==> to - from <= MAX_INTERVALS * DAY)
            && (r.Success? ==>
                  && r.value.interval in INTERVALS && r.value == Buckets(r.value.interval, from, to)
                  && (to - from <= AUTO_INTERVALS * r.value.interval.width || r.value.interval.width == DAY)
                  && forall iv :: iv in INTERVALS && iv.width < r.value.interval.width ==> AUTO_INTERVALS * iv.width < to - from)
  {
    var window := Sub(to, from);
    IntervalsAscend();
    var accepts := (iv: Interval) => 1 <= iv.width && Parts(window, iv.width) <= AUTO_INTERVALS;
    var i := IndexFrom(0, accepts);
    forall j | 0 <= j < |INTERVALS|
      ensures accepts(INTERVALS[j]) <==> to - from <= AUTO_INTERVALS * INTERVALS[j].width
    {
      SaturationIsHarmless(from, to, INTERVALS[j].width, AUTO_INTERVALS);
    }
    var picked := if i < |INTERVALS| then i else 8;
    SaturationIsHarmless(from, to, INTERVALS[picked].width, MAX_INTERVALS);
    forall j | 0 <= j < |INTERVALS| && INTERVALS[j].width < INTERVALS[picked].width
      ensures AUTO_INTERVALS * INTERVALS[j].width < to - from
    {
      assert j < picked;
      assert !accepts(INTERVALS[j]);
    }
  }

  /** With one named, that one is used; the window is refused exactly if it takes more than 1440 of it, however long it is. */
  lemma PickedByName(name: string, from: int, to: int)
    requires from < to && name != ""
    ensures var r := PickInterval(name, from, to);
            && (r.Failure? && r.error == BadInterval <==> forall iv :: iv in INTERVALS ==> iv.name != name)
            && (r.Success? ==> r.value.interval in INTERVALS && r.value.interval.name == name
                               && r.value == Buckets(r.value.interval, from, to))
            && forall iv :: iv in INTERVALS && iv.name == name ==> (r.Success? <==> to - from <= MAX_INTERVALS * iv.width)
  {
    IntervalsAscend();
    NamesDiffer();
    var accepts := (iv: Interval) => iv.name == name;
    var i := IndexFrom(0, accepts);
    if i < |INTERVALS| {
      SaturationIsHarmless(from, to, INTERVALS[i].width, MAX_INTERVALS);
      assert accepts(INTERVALS[i]) && INTERVALS[i] in INTERVALS;
    } else {
      forall iv | iv in INTERVALS
        ensures iv.name != name
      {
        assert !accepts(iv);
      }
    }
  }

  lemma WidthsLast()
    ensures forall i :: 0 <= i < |INTERVALS| ==> INTERVALS[i].width == Lasts(INTERVALS[i].name)
  {
    OneDigit('1', 'm');
    OneDigit('5', 'm');
    TwoDigits('1', '5', 'm');
    TwoDigits('3', '0', 'm');
    OneDigit('1', 'h');
    OneDigit('3', 'h');
    OneDigit('6', 'h');
    TwoDigits('1', '2', 'h');
    OneDigit('1', 'd');
  }

  lemma NamesDiffer()
    ensures forall iv, other :: iv in INTERVALS && other in INTERVALS && iv.name == other.name ==> iv == other
  {
    IntervalsAscend();
    WidthsLast();
  }

  /** The buckets chosen cover the window, with none to spare, and start on whole multiples of the width since the Unix epoch. */
  lemma BucketsCover(iv: Interval, from: int, to: int)
    requires iv in INTERVALS && from < to && to - from <= MAX_INTERVALS * iv.width
    ensures var c, width := Buckets(iv, from, to), iv.width;
            && c.first <= from < c.first + width && 1 <= c.n
            && c.first + (c.n - 1) * width < to <= c.first + c.n * width
            && c.n <= Parts(to - from, width) + 1
            && (c.first - UNIX_EPOCH) % width == 0
  {
    BucketsReach(iv, from, to, from / Width(iv), Width(iv));
    Aligned(from / Width(iv), Width(iv));
  }

  lemma BucketsReach(iv: Interval, from: int, to: int, k: int, width: int)
    requires iv in INTERVALS && from < to && to - from <= MAX_INTERVALS * width && width == Width(iv) && k == from / width
    ensures var c := Buckets(iv, from, to);
            && c.first == k * width && c.first <= from < c.first + width && 1 <= c.n
            && c.first + (c.n - 1) * width < to <= c.first + c.n * width
            && c.n <= Parts(to - from, width) + 1
  {
    var first := k * width;
    assert first <= from < first + width;
    assert Sub(to, first) == to - first by {
      More(width, DAY, MAX_INTERVALS);
    }
    Enough(to - first, width);
    AtMost(to - first, width, Parts(to - from, width) + 1);
    AtMost(to - from, width, Parts(to - from, width));
  }

  /** Whatever interval is chosen, its buckets cover the window. */
  lemma ChosenCovers(name: string, from: int, to: int)
    requires from < to && PickInterval(name, from, to).Success?
    ensures var c := PickInterval(name, from, to).value;
            && c.interval in INTERVALS && c == Buckets(c.interval, from, to) && to - from <= MAX_INTERVALS * c.interval.width
  {
    if name == "" {
      PickedAutomatically(from, to);
      var c := PickInterval(name, from, to).value;
      assert 1 <= Width(c.interval);
    } else {
      PickedByName(name, from, to);
    }
  }

  lemma Enough(window: int, width: int)
    requires 1 <= window && 1 <= width
    ensures var n := Parts(window, width); 1 <= n && (n - 1) * width < window <= n * width
  {
    var q := (window - 1) / width;
    assert q * width <= window - 1 < q * width + width;
  }

  lemma Aligned(k: int, width: int)
    requires 1 <= width && DAY % width == 0
    ensures (k * width - UNIX_EPOCH) % width == 0
  {
    var d := DAY / width;
    assert d * width == DAY;
    var m := k - 719162 * d;
    assert k * width - UNIX_EPOCH == m * width;
    MultipleOf(m, width);
  }

  lemma MultipleOf(m: int, width: int)
    requires 1 <= width
    ensures m * width % width == 0 && m * width / width == m
  {
    var q := m * width / width;
    var r := m * width % width;
    assert m * width == q * width + r;
    assert (m - q) * width == r;
    if m != q {
      More(1, if m > q then m - q else q - m, width);
    }
  }
}
