/**
 * backend/internal/store/search.go: pages of limit+1 rows after a cursor that
 * freezes the window and identifies the filter.
 */
module Search {
  import opened Wrappers
  import opened Texts
  import opened Events
  import opened Filtering
  import opened Keyset

  const DEFAULT_LIMIT: int := 50
  const MAX_LIMIT: int := 1000

  /** Everything a cursor must be reused with, except the window. Its hash is taken to tell any two apart. */
  datatype FilterKey = FilterKey(
    order: OrderName, tenant: string, sources: seq<string>, eventType: string, action: string,
    severityMin: Option<int>, severityMax: Option<int>, ip: string, user: string, host: string,
    tags: seq<string>, query: string)

  datatype Cursor = Cursor(from: int, to: int, ts: int, id: int, filter: FilterKey)

  datatype CursorText = NoCursor | Unreadable | Issued(c: Cursor)

  datatype SearchParams = SearchParams(filter: EventFilter, order: OrderName, limit: int, cursor: CursorText)

  datatype SearchQuery = SearchQuery(q: EventQuery, order: OrderName, limit: int, after: Option<Cursor>, key: FilterKey)

  datatype Scope = Scope(admin: bool, tenant: string)

  datatype EventPage = EventPage(events: seq<Event>, next: CursorText)

  // ---------- Resolving the parameters ----------

  function ScopedTo(f: EventFilter, scope: Scope): EventFilter {
    if !scope.admin && TrimSpace(f.tenant) == "" then f.(tenant := scope.tenant) else f
  }

  function KeyOf(q: EventQuery, order: OrderName): FilterKey {
    FilterKey(order, q.f.tenant, q.f.sources, q.f.eventType, q.f.action, q.f.severityMin, q.f.severityMax,
              if q.srcIP.Some? then q.srcIP.value.text else "", q.f.user, q.f.host, q.f.tags, q.f.query)
  }

  predicate SameTime(explicit: Option<int>, fromCursor: int) {
    explicit.None? || explicit.value == fromCursor
  }

  function LimitOf(limit: int): int {
    if limit == 0 then DEFAULT_LIMIT else limit
  }

  function OrderOf(order: OrderName): OrderName {
    if order == Unset then Desc else order
  }

  /** What every resolved search keeps to. */
  predicate Settled(s: SearchQuery) {
    1 <= s.limit <= MAX_LIMIT && s.q.from < s.q.to && s.key == KeyOf(s.q, s.order)
  }

  function Windowed(q: EventQuery, p: SearchParams, from: int, to: int, after: Option<Cursor>): (r: Result<SearchQuery, Refusal>)
    requires 1 <= LimitOf(p.limit) <= MAX_LIMIT
    ensures r.Success? ==> Settled(r.value)
  {
    var windowed := SetWindow(q, from, to);
    if windowed.Failure? then Failure(windowed.error)
    else Success(SearchQuery(windowed.value, OrderOf(p.order), LimitOf(p.limit), after, KeyOf(q, OrderOf(p.order))))
  }

  /** The window: the cursor's, if there is one and it was issued for these parameters. */
  function Continue(q: EventQuery, p: SearchParams, now: int): (r: Result<SearchQuery, Refusal>)
    requires 1 <= LimitOf(p.limit) <= MAX_LIMIT
    ensures r.Success? ==> Settled(r.value)
  {
    match p.cursor
    case Unreadable => Failure(BadCursor)
    case NoCursor => Windowed(q, p, now - DEFAULT_WINDOW, now + AHEAD, None)
    case Issued(c) =>
      if c.filter != KeyOf(q, OrderOf(p.order)) || !SameTime(q.f.from, c.from) || !SameTime(q.f.to, c.to) then Failure(BadCursor)
      else Windowed(q, p, c.from, c.to, Some(c))
  }

  function ResolveSearch(parse: string -> Option<Addr>, p: SearchParams, now: int): (r: Result<SearchQuery, Refusal>)
    ensures r.Success? ==> Settled(r.value)
  {
    if LimitOf(p.limit) < 1 || LimitOf(p.limit) > MAX_LIMIT then Failure(BadLimit)
    else if p.order == Unknown then Failure(BadOrder)
    else
      var filter := ResolveFilter(parse, p.filter);
      if filter.Failure? then Failure(filter.error) else Continue(filter.value, p, now)
  }

  // ---------- One page ----------

  function Started(s: SearchQuery): Option<Position> {
    if s.after.Some? then Some(Position(s.after.value.ts, s.after.value.id)) else None
  }

  /** What the database finds: row-level security limits it to what the scope may see. */
  function Found(table: set<Event>, scope: Scope, conds: seq<Cond>): (rows: set<Event>)
    ensures rows <= table
  {
    set e | e in table && (scope.admin || e.tenant == scope.tenant) && AllHold(conds, e)
  }

  /** A cursor for what follows, carrying the window and the filter. */
  function Issue(s: SearchQuery, next: Option<Position>): CursorText {
    if next.None? then NoCursor else Issued(Cursor(s.q.from, s.q.to, next.value.ts, next.value.id, s.key))
  }

  ghost function Answer(parse: string -> Option<Addr>, table: set<Event>, scope: Scope, p: SearchParams, now: int): Result<EventPage, Refusal>
    requires Keyed(table)
  {
    var r := ResolveSearch(parse, p.(filter := ScopedTo(p.filter, scope)), now);
    if r.Failure? then Failure(r.error) else Success(PageFor(table, scope, r.value))
  }

  ghost function PageFor(table: set<Event>, scope: Scope, s: SearchQuery): EventPage
    requires Keyed(table) && 1 <= s.limit
  {
    var page := PageOf(Found(table, scope, Conditions(s.q)), s.order, s.limit, Started(s));
    EventPage(page.events, Issue(s, page.next))
  }

  // ---------- The source's own form ----------

  /** One page of the events scope may see, read limit+1 rows at a time. */
  method Search(parse: string -> Option<Addr>, table: set<Event>, scope: Scope, p: SearchParams, now: int)
    returns (r: Result<EventPage, Refusal>)
    requires Keyed(table)
    ensures r == Answer(parse, table, scope, p, now)
  {
    var resolved := ResolveSearch(parse, p.(filter := ScopedTo(p.filter, scope)), now);
    if resolved.Failure? {
      return Failure(resolved.error);
    }
    var page := ReadPage(table, scope, resolved.value);
    r := Success(page);
  }

  method ReadPage(table: set<Event>, scope: Scope, s: SearchQuery) returns (page: EventPage)
    requires Keyed(table) && 1 <= s.limit
    ensures page == PageFor(table, scope, s)
  {
    var conds := Where(s.q);
    var rows := OrderBy(s.order, Rest(Found(table, scope, conds), s.order, Started(s)));
    page := PageFrom(s, if |rows| > s.limit + 1 then rows[..s.limit + 1] else rows, rows);
  }

  /** A page from at most limit+1 of the rows: one more than limit shows that there are more. */
  method PageFrom(s: SearchQuery, events: seq<Event>, ghost rows: seq<Event>) returns (page: EventPage)
    requires 1 <= s.limit && events == if |rows| > s.limit + 1 then rows[..s.limit + 1] else rows
    ensures page == EventPage(Cut(rows, s.limit).events, Issue(s, Cut(rows, s.limit).next))
  {
    page := EventPage(events, NoCursor);
    if |events| > s.limit {
      page := page.(events := events[..s.limit]);
      var last := page.events[s.limit - 1];
      page := page.(next := Issued(Cursor(s.q.from, s.q.to, last.ts, last.id, s.key)));
    }
  }
}
