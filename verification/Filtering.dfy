/** backend/internal/store/search.go: checking a filter, and the conditions it becomes. */
module Filtering {
  import opened Wrappers
  import opened Texts
  import opened Events

  const HOUR: int := 3_600_000_000_000
  const DEFAULT_WINDOW: int := 24 * HOUR
  const AHEAD: int := HOUR

  /** Zero values do not filter. from is inclusive and to exclusive. */
  datatype EventFilter = EventFilter(
    tenant: string, from: Option<int>, to: Option<int>, sources: seq<string>, eventType: string, action: string,
    severityMin: Option<int>, severityMax: Option<int>, srcIP: string, user: string, host: string,
    tags: seq<string>, query: string)

  /** A checked filter, its text normalized, with its window. */
  datatype EventQuery = EventQuery(f: EventFilter, srcIP: Option<Addr>, from: int, to: int)

  /** Which parameter is refused, or that a cursor is. */
  datatype Refusal = BadLimit | BadOrder | BadSeverity | BadText | BadAddress | BadWindow | BadInterval | BadCursor

  // ---------- Sets of values ----------

  function Usable(values: seq<string>, mapping: string -> string): seq<string> {
    if values == [] then []
    else
      var v := mapping(TrimSpace(values[0]));
      (if v != "" then [v] else []) + Usable(values[1..], mapping)
  }

  function NormalizeSet(values: seq<string>, mapping: string -> string): seq<string> {
    Compact(Sort(Usable(values, mapping)))
  }

  const SAME: string -> string := s => s

  method NormalizedSet(values: seq<string>, mapping: Option<string -> string>) returns (out: seq<string>)
    ensures out == NormalizeSet(values, if mapping.Some? then mapping.value else SAME)
  {
    out := UsableValues(values, mapping, if mapping.Some? then mapping.value else SAME);
    out := Compact(Sort(out));
  }

  method UsableValues(values: seq<string>, mapping: Option<string -> string>, ghost mapped: string -> string) returns (out: seq<string>)
    requires forall v :: mapped(v) == if mapping.Some? then mapping.value(v) else v
    ensures out == Usable(values, mapped)
  {
    out := [];
    assert values[0..] == values;
    for i := 0 to |values|
      invariant out + Usable(values[i..], mapped) == Usable(values, mapped)
    {
      var v := TrimSpace(values[i]);
      if mapping.Some? {
        v := mapping.value(v);
      }
      NextUsable(values, i, mapped, v);
      if v != "" {
        out := out + [v];
      }
    }
    assert out + [] == out;
  }

  lemma NextUsable(values: seq<string>, i: nat, mapped: string -> string, v: string)
    requires i < |values| && v == mapped(TrimSpace(values[i]))
    ensures forall out :: out + Usable(values[i..], mapped) == (if v != "" then out + [v] else out) + Usable(values[i + 1..], mapped)
  {
    assert values[i..][1..] == values[i + 1..];
    var rest := Usable(values[i + 1..], mapped);
    forall out
      ensures out + Usable(values[i..], mapped) == (if v != "" then out + [v] else out) + rest
    {
      assert out + ([v] + rest) == out + [v] + rest && [] + rest == rest;
    }
  }

  /** v is what one of the values comes to, and is not blank. */
  ghost predicate Comes(values: seq<string>, mapping: string -> string, v: string) {
    v != "" && exists i :: 0 <= i < |values| && mapping(TrimSpace(values[i])) == v
  }

  lemma {:induction false} UsableAre(values: seq<string>, mapping: string -> string, v: string)
    ensures v in Usable(values, mapping) <==> Comes(values, mapping, v)
  {
    if values != [] {
      UsableAre(values[1..], mapping, v);
      assert forall i :: 0 <= i < |values| - 1 ==> values[1..][i] == values[i + 1];
    }
  }

  ghost predicate SameValues(a: seq<string>, b: seq<string>, mapping: string -> string) {
    forall v :: Comes(a, mapping, v) <==> Comes(b, mapping, v)
  }

  /** Two lists are normalized alike exactly when they hold the same values, trimmed, mapped and not blank. */
  lemma NormalizedAlike(a: seq<string>, b: seq<string>, mapping: string -> string)
    ensures NormalizeSet(a, mapping) == NormalizeSet(b, mapping) <==> SameValues(a, b, mapping)
    ensures Ascending(NormalizeSet(a, mapping))
    ensures forall v :: v in NormalizeSet(a, mapping) <==> Comes(a, mapping, v)
  {
    Canonical(Usable(a, mapping), Usable(b, mapping));
    forall v
      ensures v in Usable(a, mapping) <==> Comes(a, mapping, v)
      ensures v in Usable(b, mapping) <==> Comes(b, mapping, v)
    {
      UsableAre(a, mapping, v);
      UsableAre(b, mapping, v);
    }
  }

  // ---------- Checking a filter ----------

  predicate HasNul(s: string) { '\0' in s }

  predicate AnyNul(texts: seq<string>) {
    exists s :: s in texts && HasNul(s)
  }

  predicate BadSeverities(f: EventFilter) {
    || (f.severityMin.Some? && (f.severityMin.value < 0 || f.severityMin.value > 10))
    || (f.severityMax.Some? && (f.severityMax.value < 0 || f.severityMax.value > 10))
    || (f.severityMin.Some? && f.severityMax.Some? && f.severityMin.value > f.severityMax.value)
  }

  function Normalized(f: EventFilter): EventFilter {
    f.(tenant := TrimSpace(f.tenant), eventType := TrimSpace(f.eventType), action := ToLower(TrimSpace(f.action)),
       user := TrimSpace(f.user), host := TrimSpace(f.host),
       sources := NormalizeSet(f.sources, ToLower), tags := NormalizeSet(f.tags, SAME))
  }

  /** Checks a filter and normalizes its text; the window is still to be set. parse reads an address, unmapped and without a zone. */
  function ResolveFilter(parse: string -> Option<Addr>, f: EventFilter): Result<EventQuery, Refusal> {
    if BadSeverities(f) then Failure(BadSeverity)
    else if AnyNul([f.tenant, f.eventType, f.action, f.user, f.host, f.query] + f.sources + f.tags) then Failure(BadText)
    else
      var ip := TrimSpace(f.srcIP);
      if ip != "" && parse(ip).None? then Failure(BadAddress)
      else Success(EventQuery(Normalized(f), if ip == "" then None else parse(ip), 0, 0))
  }

  /** The filter's own ends of the window, or else from and to. */
  function SetWindow(q: EventQuery, from: int, to: int): (r: Result<EventQuery, Refusal>)
    ensures r.Success? ==> r.value == q.(from := r.value.from, to := r.value.to) && r.value.from < r.value.to
  {
    var start := if q.f.from.Some? then q.f.from.value else from;
    var end := if q.f.to.Some? then q.f.to.value else to;
    if start < end then Success(q.(from := start, to := end)) else Failure(BadWindow)
  }

  // ---------- Which events a query selects ----------

  ghost predicate Selects(q: EventQuery, e: Event) {
    && q.from <= e.ts < q.to
    && (q.f.tenant != "" ==> e.tenant == q.f.tenant)
    && (q.f.sources != [] ==> e.source in q.f.sources)
    && (q.f.eventType != "" ==> e.eventType == Some(q.f.eventType))
    && (q.f.action != "" ==> e.action == Some(q.f.action))
    && (q.f.severityMin.Some? ==> e.severity.Some? && q.f.severityMin.value <= e.severity.value)
    && (q.f.severityMax.Some? ==> e.severity.Some? && e.severity.value <= q.f.severityMax.value)
    && (q.srcIP.Some? ==> e.srcIP == q.srcIP)
    && (q.f.user != "" ==> e.user == Some(q.f.user))
    && (q.f.host != "" ==> e.host == Some(q.f.host))
    && HasAll(e.tags, q.f.tags)
    && (q.f.query != "" ==> MentionedIn(e.texts, q.f.query))
  }

  function OriginConds(q: EventQuery): seq<Cond> {
    SenderConds(q, [From(q.from), Before(q.to)])
  }

  function SenderConds(q: EventQuery, window: seq<Cond>): seq<Cond> {
    var tenant := With(window, if q.f.tenant != "" then Some(TenantIs(q.f.tenant)) else None);
    var source := With(tenant, if q.f.sources != [] then Some(SourceIn(q.f.sources)) else None);
    var kind := With(source, if q.f.eventType != "" then Some(EventTypeIs(q.f.eventType)) else None);
    With(kind, if q.f.action != "" then Some(ActionIs(q.f.action)) else None)
  }

  function DetailConds(q: EventQuery, first: seq<Cond>): seq<Cond> {
    var low := With(first, if q.f.severityMin.Some? then Some(SeverityAtLeast(q.f.severityMin.value)) else None);
    var high := With(low, if q.f.severityMax.Some? then Some(SeverityAtMost(q.f.severityMax.value)) else None);
    var ip := With(high, if q.srcIP.Some? then Some(SrcIPIs(q.srcIP.value)) else None);
    With(ip, if q.f.user != "" then Some(UserIs(q.f.user)) else None)
  }

  function TagConds(q: EventQuery, first: seq<Cond>): seq<Cond> {
    var host := With(first, if q.f.host != "" then Some(HostIs(q.f.host)) else None);
    With(host, if q.f.tags != [] then Some(HasTags(q.f.tags)) else None)
  }

  function LastConds(q: EventQuery, first: seq<Cond>): seq<Cond> {
    With(TagConds(q, first), if q.f.query != "" then Some(Mentions(q.f.query)) else None)
  }

  /** The conditions of the WHERE, in order. */
  function Conditions(q: EventQuery): seq<Cond> {
    LastConds(q, DetailConds(q, OriginConds(q)))
  }

  lemma SenderSelects(q: EventQuery, window: seq<Cond>, e: Event)
    ensures AllHold(SenderConds(q, window), e) <==>
              && AllHold(window, e) && (q.f.tenant != "" ==> e.tenant == q.f.tenant)
              && (q.f.sources != [] ==> e.source in q.f.sources)
              && (q.f.eventType != "" ==> e.eventType == Some(q.f.eventType))
              && (q.f.action != "" ==> e.action == Some(q.f.action))
  {}

  lemma OriginSelects(q: EventQuery, e: Event)
    ensures AllHold(OriginConds(q), e) <==>
              && q.from <= e.ts < q.to && (q.f.tenant != "" ==> e.tenant == q.f.tenant)
              && (q.f.sources != [] ==> e.source in q.f.sources)
              && (q.f.eventType != "" ==> e.eventType == Some(q.f.eventType))
              && (q.f.action != "" ==> e.action == Some(q.f.action))
  {
    BothHold(From(q.from), Before(q.to), e);
    SenderSelects(q, [From(q.from), Before(q.to)], e);
  }

  lemma DetailSelects(q: EventQuery, first: seq<Cond>, e: Event)
    ensures AllHold(DetailConds(q, first), e) <==>
              && AllHold(first, e)
              && (q.f.severityMin.Some? ==> e.severity.Some? && q.f.severityMin.value <= e.severity.value)
              && (q.f.severityMax.Some? ==> e.severity.Some? && e.severity.value <= q.f.severityMax.value)
              && (q.srcIP.Some? ==> e.srcIP == q.srcIP)
              && (q.f.user != "" ==> e.user == Some(q.f.user))
  {}

  lemma TagsSelect(q: EventQuery, first: seq<Cond>, e: Event)
    ensures AllHold(TagConds(q, first), e) <==>
              AllHold(first, e) && (q.f.host != "" ==> e.host == Some(q.f.host)) && HasAll(e.tags, q.f.tags)
  {}

  lemma MentionsSelects(q: string, tags: seq<Cond>, e: Event)
    ensures AllHold(With(tags, Some(Mentions(q))), e) <==> AllHold(tags, e) && MentionedIn(e.texts, q)
  {}

  /** The WHERE accepts exactly the events the query is meant to select. */
  lemma ConditionsSelect(q: EventQuery, e: Event)
    ensures AllHold(Conditions(q), e) <==> Selects(q, e)
  {
    OriginSelects(q, e);
    DetailSelects(q, OriginConds(q), e);
    TagsSelect(q, DetailConds(q, OriginConds(q)), e);
    MentionsSelects(q.f.query, TagConds(q, DetailConds(q, OriginConds(q))), e);
  }

  /** The WHERE as the source builds it, by appending. */
  method Where(q: EventQuery) returns (conds: seq<Cond>)
    ensures conds == Conditions(q)
  {
    conds := [From(q.from), Before(q.to)];
    conds := WhereSender(q, conds);
    conds := WhereDetails(q, conds);
    if q.f.host != "" {
      conds := conds + [HostIs(q.f.host)];
    }
    if 0 < |q.f.tags| {
      conds := conds + [HasTags(q.f.tags)];
    }
    if q.f.query != "" {
      conds := conds + [Mentions(q.f.query)];
    }
  }

  method WhereSender(q: EventQuery, window: seq<Cond>) returns (conds: seq<Cond>)
    ensures conds == SenderConds(q, window)
  {
    conds := window;
    if q.f.tenant != "" {
      conds := conds + [TenantIs(q.f.tenant)];
    }
    if 0 < |q.f.sources| {
      conds := conds + [SourceIn(q.f.sources)];
    }
    if q.f.eventType != "" {
      conds := conds + [EventTypeIs(q.f.eventType)];
    }
    if q.f.action != "" {
      conds := conds + [ActionIs(q.f.action)];
    }
  }

  method WhereDetails(q: EventQuery, first: seq<Cond>) returns (conds: seq<Cond>)
    ensures conds == DetailConds(q, first)
  {
    conds := first;
    if q.f.severityMin.Some? {
      conds := conds + [SeverityAtLeast(q.f.severityMin.value)];
    }
    if q.f.severityMax.Some? {
      conds := conds + [SeverityAtMost(q.f.severityMax.value)];
    }
    if q.srcIP.Some? {
      conds := conds + [SrcIPIs(q.srcIP.value)];
    }
    if q.f.user != "" {
      conds := conds + [UserIs(q.f.user)];
    }
  }
}
