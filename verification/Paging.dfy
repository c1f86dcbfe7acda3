/** Following a search's cursors from its first page to its last. */
module Paging {
  import opened Wrappers
  import opened Texts
  import opened Events
  import opened Filtering
  import opened Keyset
  import opened Search

  // ---------- Which cursors are accepted ----------

  function AddressOf(parse: string -> Option<Addr>, f: EventFilter): Option<Addr> {
    if TrimSpace(f.srcIP) == "" then None else parse(TrimSpace(f.srcIP))
  }

  /** The filters ask for the same: text is trimmed, lists are sets, and case counts for neither sources nor actions. */
  ghost predicate Equivalent(parse: string -> Option<Addr>, f: EventFilter, g: EventFilter) {
    && TrimSpace(f.tenant) == TrimSpace(g.tenant) && TrimSpace(f.eventType) == TrimSpace(g.eventType)
    && ToLower(TrimSpace(f.action)) == ToLower(TrimSpace(g.action))
    && TrimSpace(f.user) == TrimSpace(g.user) && TrimSpace(f.host) == TrimSpace(g.host)
    && f.severityMin == g.severityMin && f.severityMax == g.severityMax && f.query == g.query
    && AddressOf(parse, f) == AddressOf(parse, g)
    && SameValues(f.sources, g.sources, ToLower) && SameValues(f.tags, g.tags, SAME)
  }

  lemma ResolvedAs(parse: string -> Option<Addr>, f: EventFilter)
    requires ResolveFilter(parse, f).Success?
    ensures ResolveFilter(parse, f).value == EventQuery(Normalized(f), AddressOf(parse, f), 0, 0)
    ensures AddressOf(parse, f).None? <==> TrimSpace(f.srcIP) == ""
  {}

  lemma KeysAlike(parse: string -> Option<Addr>, f: EventFilter, g: EventFilter, a: OrderName, b: OrderName)
    requires forall s :: parse(s) != Some(Addr(""))
    ensures KeyOf(EventQuery(Normalized(f), AddressOf(parse, f), 0, 0), a) == KeyOf(EventQuery(Normalized(g), AddressOf(parse, g), 0, 0), b)
            <==> a == b && Equivalent(parse, f, g)
  {
    NormalizedAlike(f.sources, g.sources, ToLower);
    NormalizedAlike(f.tags, g.tags, SAME);
    assert AddressOf(parse, f) != Some(Addr("")) && AddressOf(parse, g) != Some(Addr(""));
  }

  /**
   * A cursor issued for the parameters a is accepted with b exactly for an
   * equivalent filter, the same order, and a window that is the same or left
   * out. The window is then the cursor's.
   */
  lemma CursorAccepted(parse: string -> Option<Addr>, a: SearchParams, b: SearchParams, before: int, now: int, at: Position)
    requires forall s :: parse(s) != Some(Addr(""))
    requires ResolveSearch(parse, a, before).Success? && ResolveFilter(parse, b.filter).Success?
    requires 1 <= LimitOf(b.limit) <= MAX_LIMIT && b.order != Unknown
    requires b.cursor == Issue(ResolveSearch(parse, a, before).value, Some(at))
    ensures var s, r := ResolveSearch(parse, a, before).value, ResolveSearch(parse, b, now);
            && (r.Success? <==>
                  && OrderOf(a.order) == OrderOf(b.order) && Equivalent(parse, a.filter, b.filter)
                  && SameTime(b.filter.from, s.q.from) && SameTime(b.filter.to, s.q.to))
            && (r.Success? ==> r.value.q.from == s.q.from && r.value.q.to == s.q.to && r.value.key == s.key && Started(r.value) == Some(at))
            && (r.Failure? ==> r.error == BadCursor)
  {
    ResolvedAs(parse, a.filter);
    ResolvedAs(parse, b.filter);
    KeysAlike(parse, a.filter, b.filter, OrderOf(a.order), OrderOf(b.order));
    SettledOn(parse, a, before);
    Continued(EventQuery(Normalized(b.filter), AddressOf(parse, b.filter), 0, 0), b, now, ResolveSearch(parse, a, before).value, at);
  }

  lemma SettledOn(parse: string -> Option<Addr>, a: SearchParams, now: int)
    requires ResolveSearch(parse, a, now).Success?
    ensures var s := ResolveSearch(parse, a, now).value;
            && s.key == KeyOf(EventQuery(Normalized(a.filter), AddressOf(parse, a.filter), 0, 0), OrderOf(a.order))
            && s.q.from < s.q.to
  {
    ResolvedAs(parse, a.filter);
    KeySettled(EventQuery(Normalized(a.filter), AddressOf(parse, a.filter), 0, 0), a, now);
  }

  lemma KeySettled(q: EventQuery, p: SearchParams, now: int)
    requires 1 <= LimitOf(p.limit) <= MAX_LIMIT && Continue(q, p, now).Success?
    ensures Continue(q, p, now).value.key == KeyOf(q, OrderOf(p.order))
    ensures Continue(q, p, now).value.q.from < Continue(q, p, now).value.q.to
  {}

  lemma Continued(q: EventQuery, b: SearchParams, now: int, s: SearchQuery, at: Position)
    requires 1 <= LimitOf(b.limit) <= MAX_LIMIT && b.cursor == Issue(s, Some(at)) && s.q.from < s.q.to
    ensures var r := Continue(q, b, now);
            && (r.Success? <==> s.key == KeyOf(q, OrderOf(b.order)) && SameTime(q.f.from, s.q.from) && SameTime(q.f.to, s.q.to))
            && (r.Success? ==> r.value.q.from == s.q.from && r.value.q.to == s.q.to && r.value.key == s.key && Started(r.value) == Some(at))
            && (r.Failure? ==> r.error == BadCursor)
  {}

  // ---------- Following cursors ----------

  /** Searches with p, then with the cursor of each page, reading a table and the clock each time. None if a search is refused. */
  ghost function Browse(parse: string -> Option<Addr>, scope: Scope, p: SearchParams, tables: seq<set<Event>>, nows: seq<int>): Option<Journey>
    requires |nows| == |tables| && forall i :: 0 <= i < |tables| ==> Keyed(tables[i])
    decreases |tables|
  {
    if tables == [] then Some(Journey([], 0, false))
    else
      var page := Answer(parse, tables[0], scope, p, nows[0]);
      if page.Failure? then None
      else if page.value.next == NoCursor then Some(Journey(page.value.events, 1, true))
      else
        var rest := Browse(parse, scope, p.(cursor := page.value.next), tables[1..], nows[1..]);
        if rest.None? then None else Some(rest.value.Preceded(page.value.events))
  }

  function FoundIn(tables: seq<set<Event>>, scope: Scope, conds: seq<Cond>): (found: seq<set<Event>>)
    ensures |found| == |tables| && forall i :: 0 <= i < |tables| ==> found[i] == Found(tables[i], scope, conds)
    ensures forall i :: 0 <= i < |tables| && Keyed(tables[i]) ==> Keyed(found[i])
  {
    if tables == [] then [] else [Found(tables[0], scope, conds)] + FoundIn(tables[1..], scope, conds)
  }

  function Scoped(p: SearchParams, scope: Scope): SearchParams {
    p.(filter := ScopedTo(p.filter, scope))
  }

  /** The next page's search is the same one, further on, whatever the clock says by then. */
  lemma GoesOn(parse: string -> Option<Addr>, p: SearchParams, before: int, now: int, at: Position)
    requires ResolveSearch(parse, p, before).Success?
    ensures var s := ResolveSearch(parse, p, before).value;
            var c := Issue(s, Some(at));
            ResolveSearch(parse, p.(cursor := c), now) == Success(s.(after := Some(c.c)))
  {
    var q := ResolveFilter(parse, p.filter).value;
    GoesOnFrom(q, p, before, now, at);
  }

  lemma GoesOnFrom(q: EventQuery, p: SearchParams, before: int, now: int, at: Position)
    requires 1 <= LimitOf(p.limit) <= MAX_LIMIT && Continue(q, p, before).Success?
    ensures var s := Continue(q, p, before).value;
            var c := Issue(s, Some(at));
            Continue(q, p.(cursor := c), now) == Success(s.(after := Some(c.c)))
  {}

  lemma AnswerIs(parse: string -> Option<Addr>, table: set<Event>, scope: Scope, p: SearchParams, now: int, s: SearchQuery)
    requires Keyed(table) && Settled(s) && ResolveSearch(parse, Scoped(p, scope), now) == Success(s)
    ensures var page := PageOf(Found(table, scope, Conditions(s.q)), s.order, s.limit, Started(s));
            Answer(parse, table, scope, p, now) == Success(EventPage(page.events, Issue(s, page.next)))
  {}

  lemma NextSearch(parse: string -> Option<Addr>, scope: Scope, p: SearchParams, before: int, now: int, s: SearchQuery, at: Position)
    requires ResolveSearch(parse, Scoped(p, scope), before) == Success(s)
    ensures var c := Issue(s, Some(at));
            && ResolveSearch(parse, Scoped(p.(cursor := c), scope), now) == Success(s.(after := Some(c.c)))
            && Started(s.(after := Some(c.c))) == Some(at)
  {
    GoesOn(parse, Scoped(p, scope), before, now, at);
    assert Scoped(p.(cursor := Issue(s, Some(at))), scope) == Scoped(p, scope).(cursor := Issue(s, Some(at)));
  }

  lemma BrowseOnward(parse: string -> Option<Addr>, scope: Scope, p: SearchParams, tables: seq<set<Event>>, nows: seq<int>, page: EventPage)
    requires |nows| == |tables| && tables != [] && forall i :: 0 <= i < |tables| ==> Keyed(tables[i])
    requires Answer(parse, tables[0], scope, p, nows[0]) == Success(page)
    ensures var rest := Browse(parse, scope, p.(cursor := page.next), tables[1..], nows[1..]);
            Browse(parse, scope, p, tables, nows) ==
              if page.next == NoCursor then Some(Journey(page.events, 1, true))
              else if rest.None? then None else Some(rest.value.Preceded(page.events))
  {}

  lemma {:induction false} BrowseWalks(parse: string -> Option<Addr>, scope: Scope, p: SearchParams, tables: seq<set<Event>>, nows: seq<int>, s: SearchQuery)
    requires |nows| == |tables| && forall i :: 0 <= i < |tables| ==> Keyed(tables[i])
    requires tables != [] ==> ResolveSearch(parse, Scoped(p, scope), nows[0]) == Success(s)
    requires Settled(s)
    ensures Browse(parse, scope, p, tables, nows) == Some(Walk(FoundIn(tables, scope, Conditions(s.q)), s.order, s.limit, Started(s)))
    decreases |tables|
  {
    if tables != [] {
      var found := FoundIn(tables, scope, Conditions(s.q));
      var page := PageOf(found[0], s.order, s.limit, Started(s));
      AnswerIs(parse, tables[0], scope, p, nows[0], s);
      BrowseOnward(parse, scope, p, tables, nows, EventPage(page.events, Issue(s, page.next)));
      if page.next.Some? {
        BrowseWalksOn(parse, scope, p, tables, nows, s, page.next.value);
        assert found[1..] == FoundIn(tables[1..], scope, Conditions(s.q));
      }
    }
  }

  lemma {:induction false} BrowseWalksOn(parse: string -> Option<Addr>, scope: Scope, p: SearchParams, tables: seq<set<Event>>, nows: seq<int>, s: SearchQuery, at: Position)
    requires |nows| == |tables| && tables != [] && forall i :: 0 <= i < |tables| ==> Keyed(tables[i])
    requires ResolveSearch(parse, Scoped(p, scope), nows[0]) == Success(s) && Settled(s)
    ensures Browse(parse, scope, p.(cursor := Issue(s, Some(at))), tables[1..], nows[1..])
         == Some(Walk(FoundIn(tables[1..], scope, Conditions(s.q)), s.order, s.limit, Some(at)))
    decreases |tables|, 0
  {
    var c := Issue(s, Some(at));
    if 1 < |tables| {
      NextSearch(parse, scope, p, nows[0], nows[1], s, at);
    }
    BrowseWalks(parse, scope, p.(cursor := c), tables[1..], nows[1..], s.(after := Some(c.c)));
  }

  /** e is one the search is for: seen by the scope and selected. */
  ghost predicate Wanted(s: SearchQuery, scope: Scope, e: Event) {
    (scope.admin || e.tenant == scope.tenant) && Selects(s.q, e)
  }

  /** A walk over what a search finds returns only events wanted, and in the end misses none. */
  lemma WalkWanted(scope: Scope, tables: seq<set<Event>>, s: SearchQuery)
    requires Settled(s) && forall i :: 0 <= i < |tables| ==> Keyed(tables[i])
    ensures Complete(tables, scope, s, Walk(FoundIn(tables, scope, Conditions(s.q)), s.order, s.limit, None))
  {
    var found := FoundIn(tables, scope, Conditions(s.q));
    var j := Walk(found, s.order, s.limit, None);
    WalkInOrder(found, s.order, s.limit, None);
    forall e | e in j.events
      ensures Wanted(s, scope, e) && Read(tables, j.pages, e)
    {
      var i :| 0 <= i < j.pages && i < |found| && e in found[i];
      ConditionsSelect(s.q, e);
      assert e in tables[i];
    }
    forall e | j.finished && Wanted(s, scope, e) && Throughout(tables, j.pages, e)
      ensures e in j.events
    {
      ConditionsSelect(s.q, e);
      assert forall i :: 0 <= i < |found| && i < j.pages ==> e in found[i];
      WalkMissesNothing(found, s.order, s.limit, None, e);
    }
  }

  /** e was stored when each page was read. */
  ghost predicate Throughout(tables: seq<set<Event>>, pages: nat, e: Event) {
    forall i :: 0 <= i < |tables| && i < pages ==> e in tables[i]
  }

  /**
   * What is returned is in order, none of it twice, all of it wanted and
   * stored when its page was read; and once the last page is reached, it is
   * every event wanted that was stored throughout, whatever came and went in
   * between.
   */
  ghost predicate Complete(tables: seq<set<Event>>, scope: Scope, s: SearchQuery, j: Journey) {
    && InOrder(s.order, j.events)
    && (forall e :: e in j.events ==> Wanted(s, scope, e) && Read(tables, j.pages, e))
    && (forall e :: j.finished && Wanted(s, scope, e) && Throughout(tables, j.pages, e) ==> e in j.events)
  }

  /** Browsing is never refused after its first page, and is complete. */
  lemma BrowsingIsComplete(parse: string -> Option<Addr>, scope: Scope, p: SearchParams, tables: seq<set<Event>>, nows: seq<int>, s: SearchQuery)
    requires |nows| == |tables| && tables != [] && forall i :: 0 <= i < |tables| ==> Keyed(tables[i])
    requires p.cursor == NoCursor && ResolveSearch(parse, Scoped(p, scope), nows[0]) == Success(s)
    ensures Browse(parse, scope, p, tables, nows).Some?
    ensures Complete(tables, scope, s, Browse(parse, scope, p, tables, nows).value)
  {
    FirstPage(parse, Scoped(p, scope), nows[0]);
    BrowseWalks(parse, scope, p, tables, nows, s);
    WalkWanted(scope, tables, s);
  }

  lemma FirstPage(parse: string -> Option<Addr>, p: SearchParams, now: int)
    requires p.cursor == NoCursor && ResolveSearch(parse, p, now).Success?
    ensures Started(ResolveSearch(parse, p, now).value) == None
  {}

  ghost function WantedIn(table: set<Event>, s: SearchQuery, scope: Scope): (wanted: set<Event>)
    ensures wanted <= table
  {
    set e | e in table && Wanted(s, scope, e)
  }

  lemma FoundIsWanted(table: set<Event>, scope: Scope, s: SearchQuery)
    ensures Found(table, scope, Conditions(s.q)) == WantedIn(table, s, scope)
    ensures Rest(WantedIn(table, s, scope), s.order, None) == WantedIn(table, s, scope)
  {
    forall e
      ensures AllHold(Conditions(s.q), e) <==> Selects(s.q, e)
    {
      ConditionsSelect(s.q, e);
    }
  }

  /** Over a table that does not change, the pages put together are every event wanted, and there are as many pages as that takes. */
  lemma BrowsingFixedTable(parse: string -> Option<Addr>, scope: Scope, p: SearchParams, table: set<Event>, tables: seq<set<Event>>, nows: seq<int>, s: SearchQuery)
    requires |nows| == |tables| && tables != [] && Keyed(table) && forall i :: 0 <= i < |tables| ==> tables[i] == table
    requires p.cursor == NoCursor && ResolveSearch(parse, Scoped(p, scope), nows[0]) == Success(s)
    requires PagesFor(|WantedIn(table, s, scope)|, s.limit) <= |tables|
    ensures Browse(parse, scope, p, tables, nows)
         == Some(Journey(Ordered(s.order, WantedIn(table, s, scope)), PagesFor(|WantedIn(table, s, scope)|, s.limit), true))
  {
    var rows := WantedIn(table, s, scope);
    var found := FoundIn(tables, scope, Conditions(s.q));
    FoundIsWanted(table, scope, s);
    FirstPage(parse, Scoped(p, scope), nows[0]);
    BrowseWalks(parse, scope, p, tables, nows, s);
    FixedTableEnds(rows, found, s.order, s.limit, None);
    FixedTableWhole(rows, found, s.order, s.limit, None);
  }
}
