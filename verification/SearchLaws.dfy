/**
 * What a search answers, in the parameters as they are sent and the columns of
 * the events alone. Times are in nanoseconds.
 */
module SearchLaws {
  import opened Wrappers
  import opened Texts
  import opened Events
  import opened Filtering
  import opened Keyset
  import opened Search
  import Paging

  // ---------- The filter as it is sent ----------

  /** A text filter that is not blank names the one value that will do. */
  predicate Names(sent: string, value: Option<string>) {
    TrimSpace(sent) == "" || value == Some(TrimSpace(sent))
  }

  /** One of the sources sent is the event's, unless none is. */
  ghost predicate AmongSources(sent: seq<string>, source: string) {
    || (forall i :: 0 <= i < |sent| ==> TrimSpace(sent[i]) == "")
    || exists i :: 0 <= i < |sent| && TrimSpace(sent[i]) != "" && ToLower(TrimSpace(sent[i])) == source
  }

  ghost predicate WithTags(sent: seq<string>, tags: seq<string>) {
    forall i :: 0 <= i < |sent| && TrimSpace(sent[i]) != "" ==> TrimSpace(sent[i]) in tags
  }

  /** q is somewhere in s. */
  ghost predicate Within(s: string, q: string) {
    exists before, after :: s == before + q + after
  }

  /** Some text has q in it, whatever its case. */
  ghost predicate Mentioned(q: string, texts: seq<string>) {
    q == "" || exists i :: 0 <= i < |texts| && Within(ToLower(texts[i]), ToLower(q))
  }

  /** e meets every filter sent, but for the window; an address is sent as text. */
  ghost predicate Meets(parse: string -> Option<Addr>, f: EventFilter, e: Event) {
    && MeetsTexts(f, e) && MeetsLists(f, e)
    && (f.severityMin.Some? ==> e.severity.Some? && e.severity.value >= f.severityMin.value)
    && (f.severityMax.Some? ==> e.severity.Some? && e.severity.value <= f.severityMax.value)
    && (TrimSpace(f.srcIP) == "" || (e.srcIP.Some? && parse(TrimSpace(f.srcIP)) == e.srcIP))
  }

  predicate MeetsTexts(f: EventFilter, e: Event) {
    && Names(f.tenant, Some(e.tenant)) && Names(f.eventType, e.eventType) && Names(f.user, e.user) && Names(f.host, e.host)
    && (TrimSpace(f.action) == "" || e.action == Some(ToLower(TrimSpace(f.action))))
  }

  ghost predicate MeetsLists(f: EventFilter, e: Event) {
    AmongSources(f.sources, e.source) && WithTags(f.tags, e.tags) && Mentioned(f.query, e.texts)
  }

  // ---------- It is what is searched for ----------

  lemma {:induction false} ContainsIs(s: string, q: string)
    ensures Contains(s, q) <==> Within(s, q)
  {
    if q <= s {
      assert s == "" + q + s[|q|..];
    } else if s != [] {
      ContainsIs(s[1..], q);
      WithinRest(s, q);
      forall before, after | s == before + q + after
        ensures Within(s[1..], q)
      {
        NotFirst(s, before, q, after);
      }
    }
  }

  lemma WithinRest(s: string, q: string)
    requires s != ""
    ensures Within(s[1..], q) ==> Within(s, q)
  {
    if before, after :| s[1..] == before + q + after {
      assert s == [s[0]] + s[1..];
      assert s == ([s[0]] + before) + q + after;
    }
  }

  lemma NotFirst(s: string, before: string, q: string, after: string)
    requires s == before + q + after
    ensures q <= s || (s != [] && Within(s[1..], q))
  {
    if before == "" {
      assert s == q + after;
    } else {
      assert s[1..] == before[1..] + q + after;
    }
  }

  lemma {:induction false} MentionedIs(texts: seq<string>, q: string)
    ensures MentionedIn(texts, q) <==> exists i :: 0 <= i < |texts| && Within(ToLower(texts[i]), ToLower(q))
  {
    if texts != [] {
      MentionedIs(texts[1..], q);
      ContainsIs(ToLower(texts[0]), ToLower(q));
      assert forall i :: 0 <= i < |texts| - 1 ==> texts[1..][i] == texts[i + 1];
    }
  }

  lemma SourcesAre(sent: seq<string>, source: string)
    ensures AmongSources(sent, source) <==> NormalizeSet(sent, ToLower) == [] || source in NormalizeSet(sent, ToLower)
  {
    var wanted := NormalizeSet(sent, ToLower);
    NormalizedAlike(sent, sent, ToLower);
    forall i | 0 <= i < |sent| && TrimSpace(sent[i]) != ""
      ensures ToLower(TrimSpace(sent[i])) in wanted
    {
      assert Comes(sent, ToLower, ToLower(TrimSpace(sent[i])));
    }
    if wanted != [] {
      assert wanted[0] in wanted && Comes(sent, ToLower, wanted[0]);
    }
  }

  lemma TagsAre(sent: seq<string>, tags: seq<string>)
    ensures WithTags(sent, tags) <==> HasAll(tags, NormalizeSet(sent, SAME))
  {
    var wanted := NormalizeSet(sent, SAME);
    NormalizedAlike(sent, sent, SAME);
    forall i | 0 <= i < |sent| && TrimSpace(sent[i]) != ""
      ensures TrimSpace(sent[i]) in wanted
    {
      assert Comes(sent, SAME, TrimSpace(sent[i]));
    }
    forall t | t in wanted
      ensures Comes(sent, SAME, t)
    {}
  }

  function AddressIn(parse: string -> Option<Addr>, f: EventFilter): Option<Addr> {
    if TrimSpace(f.srcIP) == "" then None else parse(TrimSpace(f.srcIP))
  }

  /** What Selects asks of the texts, and of the lists. */
  predicate SelectsTexts(g: EventFilter, e: Event) {
    && (g.tenant != "" ==> e.tenant == g.tenant) && (g.eventType != "" ==> e.eventType == Some(g.eventType))
    && (g.action != "" ==> e.action == Some(g.action))
    && (g.user != "" ==> e.user == Some(g.user)) && (g.host != "" ==> e.host == Some(g.host))
  }

  predicate SelectsLists(g: EventFilter, e: Event) {
    (g.sources != [] ==> e.source in g.sources) && HasAll(e.tags, g.tags) && (g.query != "" ==> MentionedIn(e.texts, g.query))
  }

  lemma TextsAre(f: EventFilter, e: Event)
    ensures SelectsTexts(Normalized(f), e) <==> MeetsTexts(f, e)
  {}

  lemma ListsAre(f: EventFilter, e: Event)
    ensures SelectsLists(Normalized(f), e) <==> MeetsLists(f, e)
  {
    SourcesAre(f.sources, e.source);
    TagsAre(f.tags, e.tags);
    MentionedIs(e.texts, f.query);
  }

  lemma SelectsBy(q: EventQuery, e: Event)
    ensures Selects(q, e) <==>
              && SelectsTexts(q.f, e) && SelectsLists(q.f, e) && q.from <= e.ts < q.to
              && (q.f.severityMin.Some? ==> e.severity.Some? && q.f.severityMin.value <= e.severity.value)
              && (q.f.severityMax.Some? ==> e.severity.Some? && e.severity.value <= q.f.severityMax.value)
              && (q.srcIP.Some? ==> e.srcIP == q.srcIP)
  {}

  /** A resolved query selects what meets the filter it was resolved from, within its window. */
  lemma ResolvedSelects(parse: string -> Option<Addr>, f: EventFilter, from: int, to: int, e: Event)
    requires ResolveFilter(parse, f).Success?
    ensures var q := ResolveFilter(parse, f).value.(from := from, to := to);
            Selects(q, e) <==> Meets(parse, f, e) && from <= e.ts < to
  {
    SelectsBy(EventQuery(Normalized(f), AddressIn(parse, f), from, to), e);
    TextsAre(f, e);
    ListsAre(f, e);
  }

  // ---------- What a search answers ----------

  /** Everyone but an administrator sees one tenant's events only, and asks for that one's if for none. */
  predicate Visible(scope: Scope, sent: string, e: Event) {
    scope.admin || (e.tenant == scope.tenant && (TrimSpace(sent) != "" || Names(scope.tenant, Some(e.tenant))))
  }

  /** The window, which includes its start and not its end: as sent, or the cursor's, or from a day ago to an hour ahead. */
  function Start(p: SearchParams, now: int): int {
    if p.filter.from.Some? then p.filter.from.value else if p.cursor.Issued? then p.cursor.c.from else now - 86_400_000_000_000
  }

  function End(p: SearchParams, now: int): int {
    if p.filter.to.Some? then p.filter.to.value else if p.cursor.Issued? then p.cursor.c.to else now + 3_600_000_000_000
  }

  /** Oldest first if that is asked for, and else newest first. */
  predicate Before(order: OrderName, ts: int, id: int, e: Event) {
    if order == Asc then ts < e.ts || (ts == e.ts && id < e.id) else e.ts < ts || (e.ts == ts && e.id < id)
  }

  ghost predicate Asked(parse: string -> Option<Addr>, scope: Scope, p: SearchParams, now: int, e: Event) {
    Visible(scope, p.filter.tenant, e) && Meets(parse, p.filter, e) && Start(p, now) <= e.ts && e.ts < End(p, now)
  }

  /** Every event that is asked for and not before the cursor. */
  ghost function Wanted(parse: string -> Option<Addr>, table: set<Event>, scope: Scope, p: SearchParams, now: int): set<Event> {
    set e | e in table && Asked(parse, scope, p, now, e) && (p.cursor.Issued? ==> Before(p.order, p.cursor.c.ts, p.cursor.c.id, e))
  }

  /** events are the first limit of wanted. */
  ghost predicate FirstOf(wanted: set<Event>, order: OrderName, limit: int, events: seq<Event>) {
    && |events| == (if |wanted| <= limit then |wanted| else limit)
    && (forall e :: e in events ==> e in wanted)
    && (forall i, j :: 0 <= i < j < |events| ==> Before(order, events[i].ts, events[i].id, events[j]))
    && (forall i, e :: 0 <= i < |events| && e in wanted && e !in events ==> Before(order, events[i].ts, events[i].id, e))
  }

  /** The resolved search is the one that was sent. */
  lemma ResolvedAsSent(parse: string -> Option<Addr>, p: SearchParams, now: int)
    requires ResolveSearch(parse, p, now).Success?
    ensures var s := ResolveSearch(parse, p, now).value;
            && ResolveFilter(parse, p.filter).Success?
            && s.q == ResolveFilter(parse, p.filter).value.(from := Start(p, now), to := End(p, now))
            && s.limit == (if p.limit == 0 then 50 else p.limit) && p.order != Unknown
            && s.order == (if p.order == Asc then Asc else Desc)
            && Started(s) == if p.cursor.Issued? then Some(Position(p.cursor.c.ts, p.cursor.c.id)) else None
  {
    ContinuedAsSent(ResolveFilter(parse, p.filter).value, p, now);
  }

  lemma ContinuedAsSent(q: EventQuery, p: SearchParams, now: int)
    requires 1 <= LimitOf(p.limit) <= MAX_LIMIT && Continue(q, p, now).Success? && q.f.from == p.filter.from && q.f.to == p.filter.to
    ensures var s := Continue(q, p, now).value;
            && s.q == q.(from := Start(p, now), to := End(p, now)) && s.limit == LimitOf(p.limit) && s.order == OrderOf(p.order)
            && Started(s) == if p.cursor.Issued? then Some(Position(p.cursor.c.ts, p.cursor.c.id)) else None
  {}

  lemma WantedIsFound(parse: string -> Option<Addr>, table: set<Event>, scope: Scope, p: SearchParams, now: int, s: SearchQuery)
    requires ResolveSearch(parse, p.(filter := ScopedTo(p.filter, scope)), now) == Success(s)
    ensures Rest(Found(table, scope, Conditions(s.q)), s.order, Started(s)) == Wanted(parse, table, scope, p, now)
  {
    forall e
      ensures e in Rest(Found(table, scope, Conditions(s.q)), s.order, Started(s)) <==> e in Wanted(parse, table, scope, p, now)
    {
      OneWanted(parse, table, scope, p, now, s, e);
    }
  }

  lemma OneWanted(parse: string -> Option<Addr>, table: set<Event>, scope: Scope, p: SearchParams, now: int, s: SearchQuery, e: Event)
    requires ResolveSearch(parse, p.(filter := ScopedTo(p.filter, scope)), now) == Success(s)
    ensures e in Rest(Found(table, scope, Conditions(s.q)), s.order, Started(s)) <==> e in Wanted(parse, table, scope, p, now)
  {
    var f := ScopedTo(p.filter, scope);
    ResolvedAsSent(parse, p.(filter := f), now);
    ConditionsSelect(s.q, e);
    ResolvedSelects(parse, f, Start(p, now), End(p, now), e);
    ScopedMeets(parse, p.filter, scope, e);
    InWanted(parse, table, scope, p, now, s, e);
  }

  lemma InWanted(parse: string -> Option<Addr>, table: set<Event>, scope: Scope, p: SearchParams, now: int, s: SearchQuery, e: Event)
    requires s.order == (if p.order == Asc then Asc else Desc)
    requires Started(s) == if p.cursor.Issued? then Some(Position(p.cursor.c.ts, p.cursor.c.id)) else None
    requires AllHold(Conditions(s.q), e) && (scope.admin || e.tenant == scope.tenant) <==>
             Meets(parse, p.filter, e) && Visible(scope, p.filter.tenant, e) && Start(p, now) <= e.ts < End(p, now)
    ensures e in Rest(Found(table, scope, Conditions(s.q)), s.order, Started(s)) <==> e in Wanted(parse, table, scope, p, now)
  {}

  lemma ScopedMeets(parse: string -> Option<Addr>, f: EventFilter, scope: Scope, e: Event)
    ensures Meets(parse, ScopedTo(f, scope), e) && (scope.admin || e.tenant == scope.tenant) <==>
            Meets(parse, f, e) && Visible(scope, f.tenant, e)
  {}

  lemma CutIsFirst(rows: set<Event>, order: OrderName, limit: nat)
    requires Keyed(rows) && 1 <= limit && (order == Asc || order == Desc)
    ensures var page := Cut(Ordered(order, rows), limit);
            FirstOf(rows, order, limit, page.events) && (page.next == None <==> |rows| <= limit)
  {
    var sorted := Ordered(order, rows);
    var events := Cut(sorted, limit).events;
    forall i, e | 0 <= i < |events| && e in rows && e !in events
      ensures Before(order, events[i].ts, events[i].id, e)
    {
      var k :| 0 <= k < |sorted| && sorted[k] == e;
      assert forall j :: 0 <= j < |events| ==> sorted[j] == events[j] && events[j] in events;
      assert Precedes(order, sorted[i], sorted[k]);
    }
    forall i, j | 0 <= i < j < |events|
      ensures Before(order, events[i].ts, events[i].id, events[j])
    {
      assert Precedes(order, sorted[i], sorted[j]);
    }
  }

  lemma OrderAlike(wanted: set<Event>, order: OrderName, limit: int, events: seq<Event>)
    requires FirstOf(wanted, if order == Asc then Asc else Desc, limit, events)
    ensures FirstOf(wanted, order, limit, events)
  {}

  /**
   * A search that is answered gets the first of what it wants: newest first
   * unless oldest first is asked for, at most as many as its limit or 50, and
   * a cursor if and only if there are more.
   */
  lemma AnsweredAsSent(parse: string -> Option<Addr>, table: set<Event>, scope: Scope, p: SearchParams, now: int)
    requires Keyed(table) && Answer(parse, table, scope, p, now).Success?
    ensures var page, wanted := Answer(parse, table, scope, p, now).value, Wanted(parse, table, scope, p, now);
            var limit := if p.limit == 0 then 50 else p.limit;
            FirstOf(wanted, p.order, limit, page.events) && (page.next == NoCursor <==> |wanted| <= limit)
  {
    var sent := p.(filter := ScopedTo(p.filter, scope));
    var s := ResolveSearch(parse, sent, now).value;
    ResolvedAsSent(parse, sent, now);
    WantedIsFound(parse, table, scope, p, now, s);
    var wanted := Wanted(parse, table, scope, p, now);
    CutIsFirst(wanted, s.order, s.limit);
    OrderAlike(wanted, p.order, s.limit, Cut(Ordered(s.order, wanted), s.limit).events);
  }

  // ---------- What following cursors gives ----------

  lemma AskedIsWanted(parse: string -> Option<Addr>, scope: Scope, p: SearchParams, now: int, s: SearchQuery, e: Event)
    requires ResolveSearch(parse, p.(filter := ScopedTo(p.filter, scope)), now) == Success(s)
    ensures Paging.Wanted(s, scope, e) <==> Asked(parse, scope, p, now, e)
  {
    var f := ScopedTo(p.filter, scope);
    ResolvedAsSent(parse, p.(filter := f), now);
    ResolvedSelects(parse, f, Start(p, now), End(p, now), e);
    ScopedMeets(parse, p.filter, scope, e);
  }

  /**
   * Following cursors from a search that is answered is never refused. It
   * gives only what was asked for when it began, in order, each stored when
   * its page was read; and to the end, all of it that was stored throughout.
   */
  lemma BrowsedAsSent(parse: string -> Option<Addr>, scope: Scope, p: SearchParams, tables: seq<set<Event>>, nows: seq<int>)
    requires |nows| == |tables| && tables != [] && forall i :: 0 <= i < |tables| ==> Keyed(tables[i])
    requires p.cursor == NoCursor && Answer(parse, tables[0], scope, p, nows[0]).Success?
    ensures var r := Paging.Browse(parse, scope, p, tables, nows);
            && r.Some?
            && (forall i, k :: 0 <= i < k < |r.value.events| ==> Before(p.order, r.value.events[i].ts, r.value.events[i].id, r.value.events[k]))
            && (forall e :: e in r.value.events ==> Asked(parse, scope, p, nows[0], e) && Read(tables, r.value.pages, e))
            && (forall e :: r.value.finished && Asked(parse, scope, p, nows[0], e) && Paging.Throughout(tables, r.value.pages, e) ==>
                  e in r.value.events)
  {
    var sent := p.(filter := ScopedTo(p.filter, scope));
    var s := ResolveSearch(parse, sent, nows[0]).value;
    ResolvedAsSent(parse, sent, nows[0]);
    Paging.BrowsingIsComplete(parse, scope, p, tables, nows, s);
    var j := Paging.Browse(parse, scope, p, tables, nows).value;
    forall e
      ensures Paging.Wanted(s, scope, e) <==> Asked(parse, scope, p, nows[0], e)
    {
      AskedIsWanted(parse, scope, p, nows[0], s, e);
    }
    forall i, k | 0 <= i < k < |j.events|
      ensures Before(p.order, j.events[i].ts, j.events[i].id, j.events[k])
    {
      assert Precedes(s.order, j.events[i], j.events[k]);
    }
  }

  /** So many pages, each of limit but the last, hold n events, and no fewer do. There is always one. */
  predicate JustHold(pages: int, limit: int, n: int) {
    1 <= pages && n <= pages * limit && (pages == 1 || (pages - 1) * limit < n)
  }

  lemma {:induction false} PagesAre(n: nat, limit: nat)
    requires 1 <= limit
    ensures JustHold(PagesFor(n, limit), limit, n)
  {
    if n > limit {
      var pages := PagesFor(n - limit, limit);
      PagesAre(n - limit, limit);
      assert (pages + 1) * limit == pages * limit + limit && pages * limit == (pages - 1) * limit + limit;
    }
  }

  lemma EnoughPages(pages: int, limit: int, n: int, tables: int)
    requires 1 <= limit && 1 <= tables && JustHold(pages, limit, n) && n <= tables * limit
    ensures pages <= tables
  {
    MoreTimes(tables, pages - 1, limit);
  }

  lemma MoreTimes(a: int, b: int, k: int)
    requires 0 <= k
    ensures a <= b ==> a * k <= b * k
  {}

  lemma WantedAlike(parse: string -> Option<Addr>, scope: Scope, p: SearchParams, now: int, s: SearchQuery, table: set<Event>)
    requires ResolveSearch(parse, p.(filter := ScopedTo(p.filter, scope)), now) == Success(s) && p.cursor == NoCursor
    ensures Paging.WantedIn(table, s, scope) == Wanted(parse, table, scope, p, now)
  {
    forall e
      ensures Paging.Wanted(s, scope, e) <==> Asked(parse, scope, p, now, e)
    {
      AskedIsWanted(parse, scope, p, now, s, e);
    }
  }

  /** Over a table that does not change, all of what was asked for comes in order, in as few pages as will hold it. */
  lemma BrowsedWhole(parse: string -> Option<Addr>, scope: Scope, p: SearchParams, table: set<Event>, tables: seq<set<Event>>, nows: seq<int>)
    requires |nows| == |tables| && tables != [] && Keyed(table) && forall i :: 0 <= i < |tables| ==> tables[i] == table
    requires p.cursor == NoCursor && Answer(parse, table, scope, p, nows[0]).Success?
    requires |Wanted(parse, table, scope, p, nows[0])| <= |tables| * if p.limit == 0 then 50 else p.limit
    ensures var r, wanted := Paging.Browse(parse, scope, p, tables, nows), Wanted(parse, table, scope, p, nows[0]);
            && r.Some? && r.value.finished && JustHold(r.value.pages, if p.limit == 0 then 50 else p.limit, |wanted|)
            && FirstOf(wanted, p.order, |wanted|, r.value.events)
  {
    var sent := p.(filter := ScopedTo(p.filter, scope));
    var s := ResolveSearch(parse, sent, nows[0]).value;
    ResolvedAsSent(parse, sent, nows[0]);
    WantedAlike(parse, scope, p, nows[0], s, table);
    WholeWalk(parse, scope, p, table, tables, nows, s, Wanted(parse, table, scope, p, nows[0]));
  }

  lemma WholeWalk(parse: string -> Option<Addr>, scope: Scope, p: SearchParams, table: set<Event>, tables: seq<set<Event>>, nows: seq<int>,
                  s: SearchQuery, wanted: set<Event>)
    requires |nows| == |tables| && tables != [] && Keyed(table) && forall i :: 0 <= i < |tables| ==> tables[i] == table
    requires p.cursor == NoCursor && ResolveSearch(parse, Paging.Scoped(p, scope), nows[0]) == Success(s)
    requires wanted == Paging.WantedIn(table, s, scope) && |wanted| <= |tables| * s.limit && s.order == (if p.order == Asc then Asc else Desc)
    ensures var r := Paging.Browse(parse, scope, p, tables, nows);
            r.Some? && r.value.finished && JustHold(r.value.pages, s.limit, |wanted|) && FirstOf(wanted, p.order, |wanted|, r.value.events)
  {
    PagesAre(|wanted|, s.limit);
    EnoughPages(PagesFor(|wanted|, s.limit), s.limit, |wanted|, |tables|);
    Paging.BrowsingFixedTable(parse, scope, p, table, tables, nows, s);
    SortedIsFirst(wanted, s.order);
    OrderAlike(wanted, p.order, |wanted|, Ordered(s.order, wanted));
  }

  lemma SortedIsFirst(rows: set<Event>, order: OrderName)
    requires Keyed(rows) && (order == Asc || order == Desc)
    ensures FirstOf(rows, order, |rows|, Ordered(order, rows))
  {
    CutIsFirst(rows, order, |rows| + 1);
  }

  // ---------- What is refused ----------

  /** The tenant a search goes by. */
  function TenantFor(f: EventFilter, scope: Scope): string {
    if scope.admin || TrimSpace(f.tenant) != "" then f.tenant else scope.tenant
  }

  ghost predicate NoNuls(f: EventFilter, scope: Scope) {
    && '\0' !in TenantFor(f, scope) && '\0' !in f.eventType && '\0' !in f.action && '\0' !in f.user && '\0' !in f.host && '\0' !in f.query
    && (forall s :: s in f.sources ==> '\0' !in s) && (forall s :: s in f.tags ==> '\0' !in s)
  }

  /** Each bound is from 0 to 10, and the lower is not above the upper. */
  predicate Scaled(low: Option<int>, high: Option<int>) {
    && (low.Some? ==> 0 <= low.value <= 10) && (high.Some? ==> 0 <= high.value <= 10)
    && (low.Some? && high.Some? ==> low.value <= high.value)
  }

  predicate Addressed(parse: string -> Option<Addr>, ip: string) {
    TrimSpace(ip) == "" || parse(TrimSpace(ip)).Some?
  }

  lemma NulsAre(f: EventFilter, scope: Scope)
    ensures var g := ScopedTo(f, scope);
            AnyNul([g.tenant, g.eventType, g.action, g.user, g.host, g.query] + g.sources + g.tags) <==> !NoNuls(f, scope)
  {
    var g := ScopedTo(f, scope);
    var six := [g.tenant, g.eventType, g.action, g.user, g.host, g.query];
    InSix(six, g.sources, g.tags);
    assert six[0] in six && six[1] in six && six[2] in six && six[3] in six && six[4] in six && six[5] in six;
  }

  lemma InSix(six: seq<string>, sources: seq<string>, tags: seq<string>)
    ensures forall s :: s in six + sources + tags <==> s in six || s in sources || s in tags
  {}

  /** What is wrong with a filter, the first thing first. */
  ghost function FilterFault(parse: string -> Option<Addr>, f: EventFilter, scope: Scope): Option<Refusal> {
    if !Scaled(f.severityMin, f.severityMax) then Some(BadSeverity)
    else if !NoNuls(f, scope) then Some(BadText)
    else if !Addressed(parse, f.srcIP) then Some(BadAddress)
    else None
  }

  /** What is wrong with a search without a cursor, the first thing first. */
  ghost function Fault(parse: string -> Option<Addr>, scope: Scope, p: SearchParams, now: int): Option<Refusal> {
    if p.limit < 0 || p.limit > 1000 then Some(BadLimit)
    else if p.order == Unknown then Some(BadOrder)
    else if FilterFault(parse, p.filter, scope).Some? then FilterFault(parse, p.filter, scope)
    else if End(p, now) <= Start(p, now) then Some(BadWindow)
    else None
  }

  /** Without a cursor, a search is answered if and only if nothing is wrong with it, and else refused for the first thing that is. */
  lemma RefusedExactly(parse: string -> Option<Addr>, table: set<Event>, scope: Scope, p: SearchParams, now: int)
    requires Keyed(table) && p.cursor == NoCursor
    ensures var r, fault := Answer(parse, table, scope, p, now), Fault(parse, scope, p, now);
            if fault.Some? then r == Failure(fault.value) else r.Success?
  {
    var sent := p.(filter := ScopedTo(p.filter, scope));
    FilterExactly(parse, p.filter, scope);
    ResolvedExactly(parse, sent, now);
  }

  lemma ResolvedExactly(parse: string -> Option<Addr>, p: SearchParams, now: int)
    requires p.cursor == NoCursor
    ensures var r, f := ResolveSearch(parse, p, now), ResolveFilter(parse, p.filter);
            if p.limit < 0 || p.limit > 1000 then r == Failure(BadLimit)
            else if p.order == Unknown then r == Failure(BadOrder)
            else if f.Failure? then r == Failure(f.error)
            else if End(p, now) <= Start(p, now) then r == Failure(BadWindow)
            else r.Success?
  {
    var f := ResolveFilter(parse, p.filter);
    if f.Success? && 1 <= LimitOf(p.limit) <= MAX_LIMIT {
      FilterKeepsWindow(parse, p.filter);
      ContinueExactly(f.value, p, now);
    }
  }

  lemma FilterKeepsWindow(parse: string -> Option<Addr>, f: EventFilter)
    requires ResolveFilter(parse, f).Success?
    ensures var q := ResolveFilter(parse, f).value; q.f.from == f.from && q.f.to == f.to
  {}

  lemma FilterExactly(parse: string -> Option<Addr>, f: EventFilter, scope: Scope)
    ensures var r, fault := ResolveFilter(parse, ScopedTo(f, scope)), FilterFault(parse, f, scope);
            if fault.Some? then r == Failure(fault.value) else r.Success?
  {
    NulsAre(f, scope);
    assert BadSeverities(f) <==> !Scaled(f.severityMin, f.severityMax);
  }

  lemma ContinueExactly(q: EventQuery, p: SearchParams, now: int)
    requires 1 <= LimitOf(p.limit) <= MAX_LIMIT && p.cursor == NoCursor && q.f.from == p.filter.from && q.f.to == p.filter.to
    ensures var r := Continue(q, p, now);
            (r.Success? <==> Start(p, now) < End(p, now)) && (r.Failure? ==> r.error == BadWindow)
  {}
}
