/** backend/internal/store/counts.go: a timeline's buckets, filled from the rows a grouped count returns. */
module Timelines {
  import opened Wrappers
  import opened Events
  import opened Filtering
  import opened Search
  import opened Counts

  datatype Bucket = Bucket(start: int, count: int)

  datatype Timeline = Timeline(from: int, to: int, interval: string, buckets: seq<Bucket>)

  /** Which bin of that width t is in, counting from the one that starts at first. */
  function Bin(width: int, first: int, t: int): int
    requires 1 <= width
  {
    (t - first) / width
  }

  function InBin(events: set<Event>, width: int, first: int, k: int): set<Event>
    requires 1 <= width
  {
    set e | e in events && Bin(width, first, e.ts) == k
  }

  /** Bins start on whole microseconds, which is as fine as the database keeps time. */
  predicate Whole(width: int, first: int) {
    1 <= width && width % 1000 == 0 && first % 1000 == 0
  }

  // ---------- The counts the database returns ----------

  /** GROUP BY date_bin: one row for each bin that has events, in any order. bins says which each is. */
  ghost predicate Grouping(rows: seq<Bucket>, bins: seq<int>, events: set<Event>, width: int, first: int)
    requires 1 <= width
  {
    && |rows| == |bins|
    && (forall i :: 0 <= i < |bins| ==> RowIs(rows[i], bins[i], events, width, first))
    && (forall i, j :: 0 <= i < j < |bins| ==> bins[i] != bins[j])
    && (forall e :: e in events ==> Bin(width, first, e.ts) in bins)
  }

  ghost predicate RowIs(row: Bucket, k: int, events: set<Event>, width: int, first: int)
    requires 1 <= width
  {
    row.start == first + k * width && row.count == |InBin(events, width, first, k)|
  }

  method CountByBin(events: set<Event>, width: int, first: int) returns (rows: seq<Bucket>, bins: seq<int>)
    requires 1 <= width
    ensures Grouping(rows, bins, events, width, first)
  {
    rows, bins := [], [];
    var left := events;
    while left != {}
      invariant left <= events && |rows| == |bins|
      invariant forall i :: 0 <= i < |bins| ==> RowIs(rows[i], bins[i], events, width, first)
      invariant forall i, j :: 0 <= i < j < |bins| ==> bins[i] != bins[j]
      invariant forall e :: e in events ==> (Bin(width, first, e.ts) in bins <==> e !in left)
      decreases |left|
    {
      var e :| e in left;
      var k := Bin(width, first, e.ts);
      var bin := InBin(events, width, first, k);
      assert e in bin && k !in bins;
      rows, bins := rows + [Bucket(first + k * width, |bin|)], bins + [k];
      left := left - bin;
    }
  }

  // ---------- Filling the buckets ----------

  /** time.UnixMicro. */
  function UnixMicro(t: int): int {
    (t - UNIX_EPOCH) / 1000
  }

  /** Different bins start at different microseconds. */
  lemma MicrosDiffer(width: int, first: int, j: int, k: int)
    requires Whole(width, first)
    ensures UnixMicro(first + j * width) == UnixMicro(first + k * width) ==> j == k
  {
    var w := width / 1000;
    assert width == w * 1000;
    assert j * width == j * w * 1000 && k * width == k * w * 1000;
    Micro(first, j * w);
    Micro(first, k * w);
    if j * w == k * w {
      Between(j, k, w);
    }
  }

  lemma Micro(first: int, m: int)
    requires first % 1000 == 0
    ensures UnixMicro(first + m * 1000) == (first - UNIX_EPOCH) / 1000 + m
  {}

  lemma Between(i: int, j: int, width: int)
    requires 1 <= width
    ensures -width < i * width - j * width < width ==> i == j
  {
    var d := i - j;
    assert i * width - j * width == d * width;
    if 1 <= d {
      More(1, d, width);
    } else if d <= -1 {
      More(d, -1, width);
    }
  }

  /** Bucket k of n starts at first + k * width, and counts the events of that bin. */
  ghost predicate Filled(buckets: seq<Bucket>, events: set<Event>, width: int, first: int, n: int)
    requires 1 <= width
  {
    |buckets| == n && forall k :: 0 <= k < |buckets| ==> RowIs(buckets[k], k, events, width, first)
  }

  /** What counts holds once the first n rows are in: their counts, by the microsecond they start at. */
  ghost predicate Indexed(counts: map<int, int>, rows: seq<Bucket>, n: nat)
    requires n <= |rows|
  {
    && (forall j :: 0 <= j < n ==> UnixMicro(rows[j].start) in counts && counts[UnixMicro(rows[j].start)] == rows[j].count)
    && (forall m :: m in counts ==> exists j :: 0 <= j < n && UnixMicro(rows[j].start) == m)
  }

  lemma IndexOne(counts: map<int, int>, rows: seq<Bucket>, bins: seq<int>, events: set<Event>, width: int, first: int, n: nat)
    requires Whole(width, first) && Grouping(rows, bins, events, width, first) && n < |rows| && Indexed(counts, rows, n)
    ensures Indexed(counts[UnixMicro(rows[n].start) := rows[n].count], rows, n + 1)
  {
    forall j | 0 <= j < n
      ensures UnixMicro(rows[j].start) != UnixMicro(rows[n].start)
    {
      assert RowIs(rows[j], bins[j], events, width, first) && RowIs(rows[n], bins[n], events, width, first);
      MicrosDiffer(width, first, bins[j], bins[n]);
    }
    IndexedGrows(counts, rows, n);
  }

  lemma IndexedGrows(counts: map<int, int>, rows: seq<Bucket>, n: nat)
    requires n < |rows| && Indexed(counts, rows, n) && forall j :: 0 <= j < n ==> UnixMicro(rows[j].start) != UnixMicro(rows[n].start)
    ensures Indexed(counts[UnixMicro(rows[n].start) := rows[n].count], rows, n + 1)
  {}

  /** A missing map entry reads as zero. */
  function CountAt(counts: map<int, int>, micro: int): int {
    if micro in counts then counts[micro] else 0
  }

  function BucketAt(counts: map<int, int>, start: int): Bucket {
    Bucket(start, CountAt(counts, UnixMicro(start)))
  }

  lemma CountMissing(counts: map<int, int>, rows: seq<Bucket>, bins: seq<int>, events: set<Event>, width: int, first: int, k: int)
    requires Whole(width, first) && Grouping(rows, bins, events, width, first) && Indexed(counts, rows, |rows|)
    requires k !in bins
    ensures InBin(events, width, first, k) == {} && CountAt(counts, UnixMicro(first + k * width)) == 0
  {
    var micro := UnixMicro(first + k * width);
    forall j | 0 <= j < |rows|
      ensures UnixMicro(rows[j].start) != micro
    {
      assert RowIs(rows[j], bins[j], events, width, first);
      MicrosDiffer(width, first, bins[j], k);
    }
  }

  lemma CountFound(counts: map<int, int>, rows: seq<Bucket>, j: nat)
    requires j < |rows| && Indexed(counts, rows, |rows|)
    ensures CountAt(counts, UnixMicro(rows[j].start)) == rows[j].count
  {}

  lemma CountOfBin(counts: map<int, int>, rows: seq<Bucket>, j: nat, events: set<Event>, width: int, first: int, k: int)
    requires 1 <= width && j < |rows| && Indexed(counts, rows, |rows|) && RowIs(rows[j], k, events, width, first)
    ensures CountAt(counts, UnixMicro(first + k * width)) == |InBin(events, width, first, k)|
  {
    CountFound(counts, rows, j);
  }

  lemma CountOf(counts: map<int, int>, rows: seq<Bucket>, bins: seq<int>, events: set<Event>, width: int, first: int, k: int)
    requires Whole(width, first) && Grouping(rows, bins, events, width, first) && Indexed(counts, rows, |rows|)
    ensures RowIs(BucketAt(counts, first + k * width), k, events, width, first)
  {
    if k in bins {
      var j :| 0 <= j < |bins| && bins[j] == k;
      CountOfBin(counts, rows, j, events, width, first, k);
    } else {
      CountMissing(counts, rows, bins, events, width, first, k);
    }
  }

  method Fill(rows: seq<Bucket>, width: int, first: int, n: nat, ghost bins: seq<int>, ghost events: set<Event>) returns (buckets: array<Bucket>)
    requires Whole(width, first) && Grouping(rows, bins, events, width, first)
    ensures Filled(buckets[..], events, width, first, n)
  {
    var counts: map<int, int> := map[];
    for i := 0 to |rows|
      invariant Indexed(counts, rows, i)
    {
      IndexOne(counts, rows, bins, events, width, first, i);
      counts := counts[UnixMicro(rows[i].start) := rows[i].count];
    }
    buckets := new Bucket[n](_ => Bucket(0, 0));
    for i := 0 to buckets.Length
      invariant forall k :: 0 <= k < i ==> RowIs(buckets[k], k, events, width, first)
    {
      CountOf(counts, rows, bins, events, width, first, i);
      buckets[i] := BucketAt(counts, first + i * width);
    }
  }

  // ---------- The whole query ----------

  function ResolveCount(parse: string -> Option<Addr>, f: EventFilter, now: int): (r: Result<EventQuery, Refusal>)
    ensures r.Success? ==> r.value.from < r.value.to
  {
    var q := ResolveFilter(parse, f);
    if q.Failure? then Failure(q.error) else SetWindow(q.value, now - DEFAULT_WINDOW, now + AHEAD)
  }

  /** What is answered: the refusal of the filter or of the interval, or else the buckets of the interval chosen, filled. */
  ghost predicate TimelineIs(parse: string -> Option<Addr>, table: set<Event>, scope: Scope, f: EventFilter, name: string, now: int,
                             r: Result<Timeline, Refusal>)
  {
    var q := ResolveCount(parse, ScopedTo(f, scope), now);
    if q.Failure? then r == Failure(q.error)
    else
      var picked := PickInterval(name, q.value.from, q.value.to);
      if picked.Failure? then r == Failure(picked.error)
      else
        var c := picked.value;
        && r.Success? && c.interval in INTERVALS
        && r.value.(buckets := []) == Timeline(q.value.from, q.value.to, c.interval.name, [])
        && Filled(r.value.buckets, Found(table, scope, Conditions(q.value)), Width(c.interval), c.first, c.n)
  }

  /** The buckets of the interval chosen, filled with the events the scope may see and the filter selects. */
  method CountTimeline(parse: string -> Option<Addr>, table: set<Event>, scope: Scope, f: EventFilter, name: string, now: int)
    returns (r: Result<Timeline, Refusal>)
    ensures TimelineIs(parse, table, scope, f, name, now, r)
  {
    var resolved := ResolveCount(parse, ScopedTo(f, scope), now);
    if resolved.Failure? {
      return Failure(resolved.error);
    }
    var q := resolved.value;
    var picked := PickInterval(name, q.from, q.to);
    if picked.Failure? {
      return Failure(picked.error);
    }
    var c := picked.value;
    ChosenIsWhole(name, q.from, q.to);
    var conds := Where(q);
    var buckets := FillFrom(Found(table, scope, conds), Width(c.interval), c.first, c.n);
    r := Success(Timeline(q.from, q.to, c.interval.name, buckets));
  }

  lemma ChosenIsWhole(name: string, from: int, to: int)
    requires from < to && PickInterval(name, from, to).Success?
    ensures var c := PickInterval(name, from, to).value;
            c.interval in INTERVALS && Whole(Width(c.interval), c.first) && 0 <= c.n
  {
    ChosenCovers(name, from, to);
    BucketsWhole(PickInterval(name, from, to).value.interval, from, to);
  }

  lemma BucketsWhole(iv: Interval, from: int, to: int)
    requires iv in INTERVALS && from < to && to - from <= MAX_INTERVALS * iv.width
    ensures Whole(Width(iv), Buckets(iv, from, to).first) && 0 <= Buckets(iv, from, to).n
  {
    BucketsCover(iv, from, to);
    ThousandfoldIs(from / Width(iv), Width(iv));
  }

  lemma ThousandfoldIs(k: int, width: int)
    requires width % 1000 == 0
    ensures k * width % 1000 == 0
  {
    var w := width / 1000;
    assert k * width == k * w * 1000;
    MultipleOf(k * w, 1000);
  }

  method FillFrom(events: set<Event>, width: int, first: int, n: nat) returns (buckets: seq<Bucket>)
    requires Whole(width, first)
    ensures Filled(buckets, events, width, first, n)
  {
    var rows, bins := CountByBin(events, width, first);
    var filled := Fill(rows, width, first, n, bins, events);
    buckets := filled[..];
  }

  // ---------- The buckets partition the window ----------

  function Total(buckets: seq<Bucket>): int {
    if buckets == [] then 0 else Total(buckets[..|buckets| - 1]) + buckets[|buckets| - 1].count
  }

  /** Each event of the window falls in exactly one of the buckets that cover it, and its bin is that bucket's. */
  lemma OneBucket(width: int, first: int, n: int, t: int)
    requires 1 <= width && first <= t < first + n * width
    ensures 0 <= Bin(width, first, t) < n
    ensures forall k :: first + k * width <= t < first + k * width + width <==> k == Bin(width, first, t)
  {
    var i := Bin(width, first, t);
    assert i * width <= t - first < i * width + width;
    forall k
      ensures first + k * width <= t < first + k * width + width <==> k == i
    {
      Between(i, k, width);
    }
    if n <= i {
      More(n, i, width);
    }
    if i < 0 {
      More(i, -1, width);
    }
  }

  ghost function Early(events: set<Event>, width: int, first: int, n: int): set<Event>
    requires 1 <= width
  {
    set e | e in events && 0 <= Bin(width, first, e.ts) < n
  }

  lemma {:induction false} TotalIs(buckets: seq<Bucket>, events: set<Event>, width: int, first: int, n: nat)
    requires 1 <= width && Filled(buckets, events, width, first, |buckets|) && n <= |buckets|
    ensures Total(buckets[..n]) == |Early(events, width, first, n)|
  {
    if n == 0 {
      assert Early(events, width, first, n) == {};
    } else {
      var before, bin := Early(events, width, first, n - 1), InBin(events, width, first, n - 1);
      assert buckets[..n][..n - 1] == buckets[..n - 1];
      TotalIs(buckets, events, width, first, n - 1);
      assert RowIs(buckets[n - 1], n - 1, events, width, first);
      assert Early(events, width, first, n) == before + bin && before !! bin;
    }
  }

  /** The counts add up to the number of events in the window: none is lost, and none counted twice. */
  lemma CountsAddUp(buckets: seq<Bucket>, events: set<Event>, iv: Interval, from: int, to: int)
    requires iv in INTERVALS && from < to && to - from <= MAX_INTERVALS * iv.width
    requires forall e :: e in events ==> from <= e.ts < to
    requires var c := Buckets(iv, from, to); Filled(buckets, events, Width(iv), c.first, c.n)
    ensures Total(buckets) == |events|
  {
    var c, width := Buckets(iv, from, to), Width(iv);
    BucketsCover(iv, from, to);
    TotalIs(buckets, events, width, c.first, c.n);
    assert buckets[..|buckets|] == buckets;
    forall e | e in events
      ensures 0 <= Bin(width, c.first, e.ts) < c.n
    {
      OneBucket(width, c.first, c.n, e.ts);
    }
    assert events == Early(events, width, c.first, c.n);
  }

  /** So a timeline's counts add up to the number of events it was asked about. */
  lemma TimelineAddsUp(table: set<Event>, scope: Scope, q: EventQuery, name: string, buckets: seq<Bucket>)
    requires q.from < q.to && PickInterval(name, q.from, q.to).Success?
    requires var c := PickInterval(name, q.from, q.to).value;
             c.interval in INTERVALS && Filled(buckets, Found(table, scope, Conditions(q)), Width(c.interval), c.first, c.n)
    ensures Total(buckets) == |Found(table, scope, Conditions(q))|
  {
    ChosenCovers(name, q.from, q.to);
    var events := Found(table, scope, Conditions(q));
    forall e | e in events
      ensures q.from <= e.ts < q.to
    {
      ConditionsSelect(q, e);
    }
    CountsAddUp(buckets, events, PickInterval(name, q.from, q.to).value.interval, q.from, q.to);
  }
}
