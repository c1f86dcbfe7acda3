/**
 * Keyset paging: pages of rows in the order of (ts, id), each starting after
 * the position the one before it ended at, over rows that may change between
 * pages.
 */
module Keyset {
  import opened Wrappers
  import opened Events

  datatype OrderName = Unset | Asc | Desc | Unknown

  datatype Position = Position(ts: int, id: int)

  // ---------- Rows in order ----------

  /** Whether p comes before q in the result. */
  predicate Ahead(order: OrderName, p: Position, q: Position) {
    if order == Asc then p.ts < q.ts || (p.ts == q.ts && p.id < q.id) else p.ts > q.ts || (p.ts == q.ts && p.id > q.id)
  }

  function At(e: Event): Position {
    Position(e.ts, e.id)
  }

  predicate Precedes(order: OrderName, a: Event, b: Event) {
    Ahead(order, At(a), At(b))
  }

  predicate Beyond(order: OrderName, after: Option<Position>, e: Event) {
    after.Some? ==> Ahead(order, after.value, At(e))
  }

  /** The primary key, (id, ts), identifies a row. */
  ghost predicate Keyed(rows: set<Event>) {
    forall a, b :: a in rows && b in rows && At(a) == At(b) ==> a == b
  }

  predicate First(order: OrderName, rows: set<Event>, e: Event) {
    e in rows && forall other :: other in rows && other != e ==> Precedes(order, e, other)
  }

  lemma {:induction false} FindFirst(order: OrderName, rows: set<Event>) returns (e: Event)
    requires Keyed(rows) && rows != {}
    ensures First(order, rows, e)
  {
    e :| e in rows;
    if rows != {e} {
      var f := FindFirst(order, rows - {e});
      if Precedes(order, e, f) {
        forall other | other in rows && other != e
          ensures Precedes(order, e, other)
        {
          assert other in rows - {e};
        }
      } else {
        assert Precedes(order, f, e);
        e := f;
      }
    }
  }

  lemma HasFirst(order: OrderName, rows: set<Event>)
    requires Keyed(rows) && rows != {}
    ensures exists e :: First(order, rows, e)
    ensures forall e, f :: First(order, rows, e) && First(order, rows, f) ==> e == f
  {
    var e := FindFirst(order, rows);
  }

  ghost predicate InOrder(order: OrderName, events: seq<Event>) {
    forall i, j :: 0 <= i < j < |events| ==> Precedes(order, events[i], events[j])
  }

  /** sorted is rows in order. */
  ghost predicate IsSorted(order: OrderName, rows: set<Event>, sorted: seq<Event>) {
    |sorted| == |rows| && (forall e :: e in sorted <==> e in rows) && InOrder(order, sorted)
  }

  lemma {:induction false} SomeOrder(order: OrderName, rows: set<Event>) returns (sorted: seq<Event>)
    requires Keyed(rows)
    ensures IsSorted(order, rows, sorted)
  {
    sorted := [];
    if rows != {} {
      var e := FindFirst(order, rows);
      var rest := SomeOrder(order, rows - {e});
      assert forall j :: 0 <= j < |rest| ==> rest[j] in rest;
      sorted := [e] + rest;
    }
  }

  lemma HasOrder(order: OrderName, rows: set<Event>)
    requires Keyed(rows)
    ensures exists sorted :: IsSorted(order, rows, sorted)
  {
    var sorted := SomeOrder(order, rows);
  }

  /** ORDER BY ts, id. */
  ghost function Ordered(order: OrderName, rows: set<Event>): (sorted: seq<Event>)
    requires Keyed(rows)
    ensures IsSorted(order, rows, sorted)
  {
    HasOrder(order, rows);
    var sorted :| IsSorted(order, rows, sorted);
    sorted
  }

  /** Sorts rows, by taking the first of those left again and again. */
  method OrderBy(order: OrderName, rows: set<Event>) returns (sorted: seq<Event>)
    requires Keyed(rows)
    ensures sorted == Ordered(order, rows)
  {
    sorted := [];
    var left := rows;
    while left != {}
      invariant left <= rows && InOrder(order, sorted) && forall e :: e in sorted <==> e in rows && e !in left
      invariant forall i, e :: 0 <= i < |sorted| && e in left ==> Precedes(order, sorted[i], e)
      decreases |left|
    {
      HasFirst(order, left);
      var e :| e in left && First(order, left, e);
      left := left - {e};
      sorted := sorted + [e];
    }
    InOrderUnique(order, sorted, Ordered(order, rows));
  }

  lemma {:induction false} InOrderUnique(order: OrderName, xs: seq<Event>, ys: seq<Event>)
    requires InOrder(order, xs) && InOrder(order, ys) && (forall e :: e in xs <==> e in ys)
    ensures xs == ys
  {
    if xs == [] {
      HasHead(ys);
    } else {
      HasHead(xs);
      HasHead(ys);
      assert xs[0] == ys[0];
      forall e
        ensures e in xs[1..] <==> e in ys[1..]
      {
        TailOf(order, xs, e);
        TailOf(order, ys, e);
      }
      InOrderUnique(order, xs[1..], ys[1..]);
      assert xs == [xs[0]] + xs[1..] && ys == [ys[0]] + ys[1..];
    }
  }

  lemma HasHead(xs: seq<Event>)
    ensures xs != [] ==> xs[0] in xs
  {}

  lemma TailOf(order: OrderName, xs: seq<Event>, e: Event)
    requires InOrder(order, xs) && xs != []
    ensures e in xs[1..] <==> e in xs && e != xs[0]
  {
    if e in xs[1..] {
      var i :| 0 <= i < |xs| - 1 && xs[1..][i] == e;
      assert Precedes(order, xs[0], xs[i + 1]);
    }
  }

  // ---------- One page ----------

  /** next is where the page after this one starts, if there is one. */
  datatype Page = Page(events: seq<Event>, next: Option<Position>)

  function Rest(rows: set<Event>, order: OrderName, after: Option<Position>): set<Event> {
    set e | e in rows && Beyond(order, after, e)
  }

  /** The first limit of what remains, and the position of the last of them if there are more. */
  function Cut(sorted: seq<Event>, limit: nat): Page
    requires 1 <= limit
  {
    if |sorted| > limit then Page(sorted[..limit], Some(At(sorted[limit - 1]))) else Page(sorted, None)
  }

  ghost function PageOf(rows: set<Event>, order: OrderName, limit: nat, after: Option<Position>): Page
    requires Keyed(rows) && 1 <= limit
  {
    Cut(Ordered(order, Rest(rows, order, after)), limit)
  }

  lemma TailBeyond(order: OrderName, sorted: seq<Event>, n: nat, e: Event)
    requires InOrder(order, sorted) && n < |sorted|
    ensures e in sorted[n + 1..] <==> e in sorted && Precedes(order, sorted[n], e)
  {
    assert sorted == sorted[..n] + [sorted[n]] + sorted[n + 1..];
    if e in sorted[..n] {
      var i :| 0 <= i < n && sorted[..n][i] == e;
      assert Precedes(order, sorted[i], sorted[n]);
    }
    if e in sorted[n + 1..] {
      var i :| 0 <= i < |sorted| - n - 1 && sorted[n + 1..][i] == e;
      assert Precedes(order, sorted[n], sorted[n + 1 + i]);
    }
  }

  lemma BeyondRow(rows: set<Event>, order: OrderName, after: Option<Position>, row: Event)
    requires Beyond(order, after, row)
    ensures forall e :: e in Rest(rows, order, Some(At(row))) <==> e in Rest(rows, order, after) && Precedes(order, row, e)
  {}

  /** What remains beyond the row at n is what is sorted after it. */
  lemma RestBeyond(rows: set<Event>, order: OrderName, after: Option<Position>, n: nat, sorted: seq<Event>)
    requires n < |sorted| && forall e :: e in sorted <==> e in Rest(rows, order, after)
    ensures forall e :: e in Rest(rows, order, Some(At(sorted[n]))) <==> e in sorted && Precedes(order, sorted[n], e)
  {
    assert sorted[n] in sorted;
    BeyondRow(rows, order, after, sorted[n]);
  }

  lemma TailIs(order: OrderName, sorted: seq<Event>, n: nat, tail: seq<Event>)
    requires InOrder(order, sorted) && n < |sorted| && InOrder(order, tail)
    requires forall e :: e in tail <==> e in sorted && Precedes(order, sorted[n], e)
    ensures sorted[n + 1..] == tail
  {
    forall e
      ensures e in sorted[n + 1..] <==> e in tail
    {
      TailBeyond(order, sorted, n, e);
    }
    InOrderUnique(order, sorted[n + 1..], tail);
  }

  lemma CutLeaves(order: OrderName, sorted: seq<Event>, limit: nat, tail: seq<Event>)
    requires InOrder(order, sorted) && 1 <= limit < |sorted| && InOrder(order, tail)
    requires forall e :: e in tail <==> e in sorted && Precedes(order, sorted[limit - 1], e)
    ensures var page := Cut(sorted, limit);
            |page.events| == limit && page.next == Some(At(page.events[limit - 1])) == Some(At(sorted[limit - 1])) && sorted == page.events + tail
  {
    TailIs(order, sorted, limit - 1, tail);
  }

  /** A page holds the first of what remains, and its next position stands for exactly the others. */
  lemma PageIs(rows: set<Event>, order: OrderName, limit: nat, after: Option<Position>)
    requires Keyed(rows) && 1 <= limit
    ensures var page, sorted := PageOf(rows, order, limit, after), Ordered(order, Rest(rows, order, after));
            && (page.next.None? ==> page.events == sorted && |sorted| <= limit)
            && (page.next.Some? ==>
                  && |page.events| == limit && page.next.value == At(page.events[limit - 1])
                  && sorted == page.events + Ordered(order, Rest(rows, order, page.next)))
  {
    var sorted := Ordered(order, Rest(rows, order, after));
    if |sorted| > limit {
      RestBeyond(rows, order, after, limit - 1, sorted);
      CutLeaves(order, sorted, limit, Ordered(order, Rest(rows, order, Some(At(sorted[limit - 1])))));
    }
  }

  lemma CutIs(order: OrderName, sorted: seq<Event>, limit: nat)
    requires InOrder(order, sorted) && 1 <= limit
    ensures var page := Cut(sorted, limit);
            && InOrder(order, page.events) && (forall e :: e in page.events ==> e in sorted)
            && (page.next.Some? ==> page.events != [] && page.next.value == At(page.events[|page.events| - 1]))
  {}

  lemma PageEvents(rows: set<Event>, order: OrderName, limit: nat, after: Option<Position>)
    requires Keyed(rows) && 1 <= limit
    ensures var page := PageOf(rows, order, limit, after);
            && InOrder(order, page.events)
            && (forall e :: e in page.events ==> e in rows && Beyond(order, after, e))
            && (page.next.Some? ==> page.events != [] && page.next.value == At(page.events[|page.events| - 1]))
  {
    CutIs(order, Ordered(order, Rest(rows, order, after)), limit);
  }

  lemma CutOrNext(order: OrderName, sorted: seq<Event>, limit: nat, e: Event)
    requires InOrder(order, sorted) && 1 <= limit && e in sorted
    ensures e in Cut(sorted, limit).events || (Cut(sorted, limit).next.Some? && Beyond(order, Cut(sorted, limit).next, e))
  {
    if |sorted| > limit {
      var i :| 0 <= i < |sorted| && sorted[i] == e;
      if i < limit {
        assert sorted[..limit][i] == e;
      } else {
        assert Precedes(order, sorted[limit - 1], sorted[i]);
      }
    }
  }

  /** A row is on the page, or the next page starts before it. */
  lemma PageOrNext(rows: set<Event>, order: OrderName, limit: nat, after: Option<Position>, e: Event)
    requires Keyed(rows) && 1 <= limit && e in rows && Beyond(order, after, e)
    ensures var page := PageOf(rows, order, limit, after);
            e in page.events || (page.next.Some? && Beyond(order, page.next, e))
  {
    CutOrNext(order, Ordered(order, Rest(rows, order, after)), limit, e);
  }

  // ---------- Walking ----------

  /** What a walk returns; how many pages it took; and whether it reached the last. */
  datatype Journey = Journey(events: seq<Event>, pages: nat, finished: bool) {
    /** The journey with one more page before it. */
    function Preceded(page: seq<Event>): Journey {
      Journey(page + events, 1 + pages, finished)
    }
  }

  /** Reads a page from each table in turn, until one has no next. */
  ghost function Walk(tables: seq<set<Event>>, order: OrderName, limit: nat, after: Option<Position>): Journey
    requires 1 <= limit && forall i :: 0 <= i < |tables| ==> Keyed(tables[i])
    decreases |tables|
  {
    if tables == [] then Journey([], 0, false)
    else
      var page := PageOf(tables[0], order, limit, after);
      if page.next.None? then Journey(page.events, 1, true)
      else
        Walk(tables[1..], order, limit, page.next).Preceded(page.events)
  }

  /** e was in the table of one of the pages read. */
  ghost predicate Read(tables: seq<set<Event>>, pages: nat, e: Event) {
    exists i :: 0 <= i < pages && i < |tables| && e in tables[i]
  }

  /** events are in order, and each was stored when some page was read, and lies beyond after. */
  ghost predicate Faithful(tables: seq<set<Event>>, order: OrderName, after: Option<Position>, events: seq<Event>, pages: nat) {
    InOrder(order, events) && forall e :: e in events ==> Read(tables, pages, e) && Beyond(order, after, e)
  }

  /** What a walk returns is in order, none of it twice, and was stored when its page was read. */
  lemma {:induction false} WalkInOrder(tables: seq<set<Event>>, order: OrderName, limit: nat, after: Option<Position>)
    requires 1 <= limit && forall i :: 0 <= i < |tables| ==> Keyed(tables[i])
    ensures Faithful(tables, order, after, Walk(tables, order, limit, after).events, Walk(tables, order, limit, after).pages)
    decreases |tables|
  {
    if tables != [] {
      var page := PageOf(tables[0], order, limit, after);
      PageEvents(tables[0], order, limit, after);
      if page.next.Some? {
        var rest := Walk(tables[1..], order, limit, page.next);
        WalkInOrder(tables[1..], order, limit, page.next);
        Joined(tables, order, after, page, rest.events, rest.pages);
        assert Walk(tables, order, limit, after) == rest.Preceded(page.events);
      } else {
        OnePage(tables, order, after, page.events);
        assert Walk(tables, order, limit, after) == Journey(page.events, 1, true);
      }
    }
  }

  lemma OnePage(tables: seq<set<Event>>, order: OrderName, after: Option<Position>, events: seq<Event>)
    requires tables != [] && InOrder(order, events)
    requires forall e :: e in events ==> e in tables[0] && Beyond(order, after, e)
    ensures Faithful(tables, order, after, events, 1)
  {
    forall e | e in events
      ensures Read(tables, 1, e)
    {
      assert e in tables[0];
    }
  }

  lemma Joined(tables: seq<set<Event>>, order: OrderName, after: Option<Position>, page: Page, rest: seq<Event>, pages: nat)
    requires tables != [] && page.events != [] && InOrder(order, page.events)
    requires forall e :: e in page.events ==> e in tables[0] && Beyond(order, after, e)
    requires page.next == Some(At(page.events[|page.events| - 1]))
    requires Faithful(tables[1..], order, page.next, rest, pages)
    ensures Faithful(tables, order, after, page.events + rest, pages + 1)
  {
    var last := page.events[|page.events| - 1];
    assert last in page.events;
    forall e | e in rest
      ensures Read(tables, pages + 1, e) && Beyond(order, after, e)
    {
      var i :| 0 <= i < pages && i < |tables[1..]| && e in tables[1..][i];
      assert e in tables[i + 1];
    }
    forall e | e in page.events
      ensures Read(tables, pages + 1, e)
    {
      assert e in tables[0];
    }
    forall i, k | 0 <= i < |page.events| && 0 <= k < |rest|
      ensures Precedes(order, page.events[i], rest[k])
    {
      assert rest[k] in rest;
      assert Precedes(order, last, rest[k]);
      if i < |page.events| - 1 {
        assert Precedes(order, page.events[i], last);
      }
    }
  }

  /** A walk that reaches the last page returns every row that was stored at each of its pages. */
  lemma {:induction false} WalkMissesNothing(tables: seq<set<Event>>, order: OrderName, limit: nat, after: Option<Position>, e: Event)
    requires 1 <= limit && forall i :: 0 <= i < |tables| ==> Keyed(tables[i])
    requires Walk(tables, order, limit, after).finished && Beyond(order, after, e)
    requires forall i :: 0 <= i < |tables| && i < Walk(tables, order, limit, after).pages ==> e in tables[i]
    ensures e in Walk(tables, order, limit, after).events
    decreases |tables|
  {
    var page, j := PageOf(tables[0], order, limit, after), Walk(tables, order, limit, after);
    assert e in tables[0];
    PageOrNext(tables[0], order, limit, after, e);
    if page.next.Some? && e !in page.events {
      assert forall i :: 0 <= i < |tables| - 1 ==> tables[1..][i] == tables[i + 1];
      WalkMissesNothing(tables[1..], order, limit, page.next, e);
    }
  }

  /** How many pages n rows take: there is always one. */
  function PagesFor(n: nat, limit: nat): (pages: nat)
    requires 1 <= limit
    ensures 1 <= pages
  {
    if n <= limit then 1 else 1 + PagesFor(n - limit, limit)
  }

  lemma PageCounts(rows: set<Event>, order: OrderName, limit: nat, after: Option<Position>)
    requires Keyed(rows) && 1 <= limit
    ensures var next, n := PageOf(rows, order, limit, after).next, |Rest(rows, order, after)|;
            (next.None? <==> n <= limit) && (next.Some? ==> |Rest(rows, order, next)| == n - limit)
  {
    PageIs(rows, order, limit, after);
  }

  /** Over a table that does not change a walk reaches the last page, in as many pages as the rows take. */
  lemma {:induction false} FixedTableEnds(rows: set<Event>, tables: seq<set<Event>>, order: OrderName, limit: nat, after: Option<Position>)
    requires 1 <= limit && Keyed(rows) && forall i :: 0 <= i < |tables| ==> tables[i] == rows
    requires PagesFor(|Rest(rows, order, after)|, limit) <= |tables|
    ensures Walk(tables, order, limit, after).finished
    ensures Walk(tables, order, limit, after).pages == PagesFor(|Rest(rows, order, after)|, limit)
    decreases |tables|
  {
    PageCounts(rows, order, limit, after);
    var next := PageOf(rows, order, limit, after).next;
    if next.Some? {
      FixedTableEnds(rows, tables[1..], order, limit, next);
    }
  }

  /** The pages put together are then all the rows, in order. */
  lemma FixedTableWhole(rows: set<Event>, tables: seq<set<Event>>, order: OrderName, limit: nat, after: Option<Position>)
    requires 1 <= limit && Keyed(rows) && forall i :: 0 <= i < |tables| ==> tables[i] == rows
    requires Walk(tables, order, limit, after).finished
    ensures Walk(tables, order, limit, after).events == Ordered(order, Rest(rows, order, after))
  {
    var events, sorted := Walk(tables, order, limit, after).events, Ordered(order, Rest(rows, order, after));
    WalkInOrder(tables, order, limit, after);
    forall e
      ensures e in events <==> e in sorted
    {
      if e in rows && Beyond(order, after, e) {
        WalkMissesNothing(tables, order, limit, after, e);
      }
    }
    InOrderUnique(order, events, sorted);
  }
}
