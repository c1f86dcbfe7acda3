/**
 * What a timeline is, in the filter as it is sent, the names of the intervals
 * and the columns of the events alone. Times are in nanoseconds.
 */
module TimelineLaws {
  import opened Wrappers
  import opened Texts
  import opened Events
  import opened Filtering
  import opened Search
  import opened SearchLaws
  import opened Counts
  import opened Timelines
  import opened Durations

  /** The intervals there are, shortest first. */
  const NAMES: seq<string> := ["1m", "5m", "15m", "30m", "1h", "3h", "6h", "12h", "1d"]

  /** Each interval is as long as its name says. */
  lemma WidthsAreNamed()
    ensures |INTERVALS| == |NAMES| && forall i :: 0 <= i < |NAMES| ==> INTERVALS[i].name == NAMES[i] && INTERVALS[i].width == Lasts(NAMES[i])
  {
    WidthsLast();
  }

  function From(f: EventFilter, now: int): int {
    if f.from.Some? then f.from.value else now - 86_400_000_000_000
  }

  function To(f: EventFilter, now: int): int {
    if f.to.Some? then f.to.value else now + 3_600_000_000_000
  }

  /** e is asked about: seen, and like the filter, and within its window. */
  ghost predicate Sought(parse: string -> Option<Addr>, scope: Scope, f: EventFilter, now: int, e: Event) {
    Visible(scope, f.tenant, e) && Meets(parse, f, e) && From(f, now) <= e.ts && e.ts < To(f, now)
  }

  /** The events asked about that a bucket stands for. */
  ghost function During(parse: string -> Option<Addr>, table: set<Event>, scope: Scope, f: EventFilter, now: int, start: int, width: int): set<Event> {
    set e | e in table && Sought(parse, scope, f, now, e) && start <= e.ts && e.ts < start + width
  }

  // ---------- What is counted ----------

  lemma ResolvedFor(parse: string -> Option<Addr>, f: EventFilter, scope: Scope, now: int)
    requires ResolveCount(parse, ScopedTo(f, scope), now).Success?
    ensures var g := ScopedTo(f, scope);
            && ResolveFilter(parse, g).Success?
            && ResolveCount(parse, g, now).value == ResolveFilter(parse, g).value.(from := From(f, now), to := To(f, now))
  {
    FilterKeepsWindow(parse, ScopedTo(f, scope));
  }

  lemma SoughtIsFound(parse: string -> Option<Addr>, table: set<Event>, scope: Scope, f: EventFilter, now: int, q: EventQuery, e: Event)
    requires ResolveCount(parse, ScopedTo(f, scope), now) == Success(q)
    ensures e in Found(table, scope, Conditions(q)) <==> e in table && Sought(parse, scope, f, now, e)
  {
    var g := ScopedTo(f, scope);
    ResolvedFor(parse, f, scope, now);
    ConditionsSelect(q, e);
    ResolvedSelects(parse, g, From(f, now), To(f, now), e);
    ScopedMeets(parse, f, scope, e);
  }

  lemma BinIs(width: int, first: int, k: int, t: int)
    requires 1 <= width
    ensures Bin(width, first, t) == k <==> first + k * width <= t < first + k * width + width
  {
    var i := Bin(width, first, t);
    assert i * width <= t - first < i * width + width;
    Between(i, k, width);
  }

  lemma DuringIsBin(parse: string -> Option<Addr>, table: set<Event>, scope: Scope, f: EventFilter, now: int, q: EventQuery, found: set<Event>,
                    width: int, first: int, k: int, start: int)
    requires ResolveCount(parse, ScopedTo(f, scope), now) == Success(q) && found == Found(table, scope, Conditions(q))
    requires 1 <= width && start == first + k * width
    ensures InBin(found, width, first, k) == During(parse, table, scope, f, now, start, width)
  {
    forall e
      ensures e in InBin(found, width, first, k) <==> e in During(parse, table, scope, f, now, start, width)
    {
      SoughtIsFound(parse, table, scope, f, now, q, e);
      BinIs(width, first, k, e.ts);
    }
  }

  /** Buckets follow on one another from first, and each counts the events of its own span. */
  ghost predicate CountsEach(parse: string -> Option<Addr>, table: set<Event>, scope: Scope, f: EventFilter, now: int, buckets: seq<Bucket>, width: int) {
    forall k :: 0 <= k < |buckets| ==>
      && buckets[k].start == buckets[0].start + k * width
      && buckets[k].count == |During(parse, table, scope, f, now, buckets[k].start, width)|
  }

  lemma FilledCounts(parse: string -> Option<Addr>, table: set<Event>, scope: Scope, f: EventFilter, now: int, q: EventQuery, found: set<Event>,
                     buckets: seq<Bucket>, width: int, first: int)
    requires ResolveCount(parse, ScopedTo(f, scope), now) == Success(q) && found == Found(table, scope, Conditions(q)) && 1 <= width
    requires forall k :: 0 <= k < |buckets| ==> RowIs(buckets[k], k, found, width, first)
    ensures (buckets != [] ==> buckets[0].start == first) && CountsEach(parse, table, scope, f, now, buckets, width)
  {
    if buckets != [] {
      assert RowIs(buckets[0], 0, found, width, first) && 0 * width == 0;
    }
    forall k | 0 <= k < |buckets|
      ensures buckets[k].start == buckets[0].start + k * width
           && buckets[k].count == |During(parse, table, scope, f, now, buckets[k].start, width)|
    {
      assert RowIs(buckets[k], k, found, width, first);
      DuringIsBin(parse, table, scope, f, now, q, found, width, first, k, buckets[k].start);
    }
  }

  /** The buckets cover the window with none to spare, from a whole multiple of their width since 1970. */
  ghost predicate Covers(buckets: seq<Bucket>, width: int, from: int, to: int) {
    && buckets != [] && buckets[0].start <= from < buckets[0].start + width
    && (buckets[0].start - 62_135_596_800_000_000_000) % width == 0
    && var last := buckets[0].start + (|buckets| - 1) * width; last < to <= last + width
  }

  lemma IntervalNamed(iv: Interval)
    requires iv in INTERVALS
    ensures iv.name in NAMES && iv.width == Lasts(iv.name) && 60_000_000_000 <= iv.width
  {
    WidthsAreNamed();
    var i :| 0 <= i < |INTERVALS| && INTERVALS[i] == iv;
    assert NAMES[i] == iv.name;
    assert Width(iv) % MINUTE == 0;
  }

  /**
   * A timeline that is answered is over the window as sent, or from a day ago
   * to an hour ahead. Its buckets, each as long as the interval's name says,
   * cover it, and each counts the events asked about within it.
   */
  lemma TimelineAsSent(parse: string -> Option<Addr>, table: set<Event>, scope: Scope, f: EventFilter, name: string, now: int, r: Result<Timeline, Refusal>)
    requires TimelineIs(parse, table, scope, f, name, now, r) && r.Success?
    ensures var tl := r.value;
            && tl.from == From(f, now) && tl.to == To(f, now) && tl.interval in NAMES && 60_000_000_000 <= Lasts(tl.interval)
            && Covers(tl.buckets, Lasts(tl.interval), tl.from, tl.to)
            && CountsEach(parse, table, scope, f, now, tl.buckets, Lasts(tl.interval))
  {
    var q := ResolveCount(parse, ScopedTo(f, scope), now).value;
    var c := PickInterval(name, q.from, q.to).value;
    ResolvedFor(parse, f, scope, now);
    IntervalNamed(c.interval);
    FilledCounts(parse, table, scope, f, now, q, Found(table, scope, Conditions(q)), r.value.buckets, Width(c.interval), c.first);
    ChosenCovers(name, q.from, q.to);
    BucketsAsNamed(c.interval, q.from, q.to, r.value.buckets);
  }

  lemma BucketsAsNamed(iv: Interval, from: int, to: int, buckets: seq<Bucket>)
    requires iv in INTERVALS && from < to && to - from <= MAX_INTERVALS * iv.width
    requires var c := Buckets(iv, from, to); |buckets| == c.n && (buckets != [] ==> buckets[0].start == c.first)
    ensures Covers(buckets, iv.width, from, to)
  {
    BucketsCover(iv, from, to);
  }

  /**
   * The interval is the one asked for; or else the shortest of which the window
   * takes at most 200, or a day if it takes more of any.
   */
  lemma IntervalAsSent(parse: string -> Option<Addr>, table: set<Event>, scope: Scope, f: EventFilter, name: string, now: int, r: Result<Timeline, Refusal>)
    requires TimelineIs(parse, table, scope, f, name, now, r) && r.Success?
    ensures name != "" ==> r.value.interval == name
    ensures var window, width := To(f, now) - From(f, now), Lasts(r.value.interval);
            name == "" ==>
              && (window <= 200 * width || width == 86_400_000_000_000)
              && forall other :: other in NAMES && Lasts(other) < width ==> 200 * Lasts(other) < window
  {
    var q := ResolveCount(parse, ScopedTo(f, scope), now).value;
    var c := PickInterval(name, q.from, q.to).value;
    ResolvedFor(parse, f, scope, now);
    IntervalNamed(c.interval);
    if name == "" {
      PickedAutomatically(q.from, q.to);
      forall other | other in NAMES && Lasts(other) < c.interval.width
        ensures 200 * Lasts(other) < q.to - q.from
      {
        WidthsAreNamed();
        var i :| 0 <= i < |NAMES| && NAMES[i] == other;
        assert INTERVALS[i] in INTERVALS;
      }
    } else {
      PickedByName(name, q.from, q.to);
    }
  }

  /** The interval whose multiple bounds the window: the one asked for, or a day. */
  function BoundBy(name: string): string {
    if name == "" then "1d" else name
  }

  /**
   * A timeline is answered if and only if nothing is wrong with its filter, its
   * window is not empty, its interval is one there is, and the window takes at
   * most 1440 of it; and else it is refused for the first that fails.
   */
  lemma TimelineRefused(parse: string -> Option<Addr>, table: set<Event>, scope: Scope, f: EventFilter, name: string, now: int, r: Result<Timeline, Refusal>)
    requires TimelineIs(parse, table, scope, f, name, now, r)
    ensures var fault := FilterFault(parse, f, scope);
            if fault.Some? then r == Failure(fault.value)
            else if To(f, now) <= From(f, now) then r == Failure(BadWindow)
            else if name != "" && name !in NAMES then r == Failure(BadInterval)
            else if To(f, now) - From(f, now) > 1440 * Lasts(BoundBy(name)) then r == Failure(BadWindow)
            else r.Success?
  {
    CountRefused(parse, scope, f, now);
    if From(f, now) < To(f, now) {
      PickedAsNamed(name, From(f, now), To(f, now));
    }
  }

  lemma CountRefused(parse: string -> Option<Addr>, scope: Scope, f: EventFilter, now: int)
    ensures var q, fault := ResolveCount(parse, ScopedTo(f, scope), now), FilterFault(parse, f, scope);
            if fault.Some? then q == Failure(fault.value)
            else if To(f, now) <= From(f, now) then q == Failure(BadWindow)
            else q.Success? && q.value.from == From(f, now) && q.value.to == To(f, now)
  {
    FilterExactly(parse, f, scope);
    if ResolveFilter(parse, ScopedTo(f, scope)).Success? {
      FilterKeepsWindow(parse, ScopedTo(f, scope));
    }
  }

  lemma PickedAsNamed(name: string, from: int, to: int)
    requires from < to
    ensures var picked := PickInterval(name, from, to);
            if name != "" && name !in NAMES then picked == Failure(BadInterval)
            else if to - from > 1440 * Lasts(BoundBy(name)) then picked == Failure(BadWindow)
            else picked.Success?
  {
    WidthsAreNamed();
    if name == "" {
      PickedAutomatically(from, to);
      OneDigit('1', 'd');
      assert "1d" == ['1', 'd'];
    } else {
      PickedByName(name, from, to);
      NamedInterval(name);
    }
  }

  lemma NamedInterval(name: string)
    ensures name in NAMES <==> exists iv :: iv in INTERVALS && iv.name == name
    ensures forall iv :: iv in INTERVALS && iv.name == name ==> iv.width == Lasts(name)
  {
    WidthsAreNamed();
    if i :| 0 <= i < |NAMES| && NAMES[i] == name {
      assert INTERVALS[i] in INTERVALS;
    }
    forall iv | iv in INTERVALS && iv.name == name
      ensures name in NAMES && iv.width == Lasts(name)
    {
      IntervalNamed(iv);
    }
  }
}
