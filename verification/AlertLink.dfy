/** frontend/src/lib/alertSearch.ts: the search an alert links to, and the events it finds. */
module AlertLink {
  import opened Wrappers
  import opened Texts
  import opened Events
  import opened Alerts
  import Filtering
  import opened UrlFilters

  /** An instant as a JavaScript date, which counts whole milliseconds. */
  function Millis(t: int): int {
    (t - UNIX_EPOCH) / MILLISECOND
  }

  /** The text filter for a group, if search has one. */
  function GroupText(field: Field): Option<TextKey> {
    match field
    case SrcIPField => Some(SrcIPKey)
    case UserField => Some(UserKey)
    case HostField => Some(HostKey)
    case _ => None
  }

  function RuleText(rule: Option<AlertRule>, key: TextKey): Option<string> {
    if rule.None? then None
    else match key
      case EventTypeKey => rule.value.eventType
      case ActionKey => rule.value.action
      case _ => None
  }

  function LinkText(alert: Alert, groupBy: Field, rule: Option<AlertRule>, key: TextKey): Option<string> {
    if GroupText(groupBy) == Some(key) then Some(alert.groupKey) else RuleText(rule, key)
  }

  /** The search for the events an alert counted: its rule's filter, its group and its window. The rule may be gone. */
  function AlertSearch(alert: Alert, groupBy: Field, rule: Option<AlertRule>): UrlFilters.Filters {
    UrlFilters.Filters(
      Custom(Millis(alert.windowStart), Millis(alert.windowEnd)), alert.tenant,
      SourcesOf(rule),
      map key: TextKey | LinkText(alert, groupBy, rule, key).Some? :: LinkText(alert, groupBy, rule, key).value,
      SeverityOf(rule), None, TagsOf(rule))
  }

  /** The link written to a URL, read back, asked of the API and checked there. */
  function Linked(c: Codec, parse: string -> Option<Addr>, alert: Alert, groupBy: Field, rule: Option<AlertRule>, now: int)
    : Result<Filtering.EventQuery, Filtering.Refusal>
  {
    Asked(parse, ReadOf(c, Written(c, AlertSearch(alert, groupBy, rule))), now)
  }

  // ---------- What is stored ----------

  /** Text as the backend stores it. */
  ghost predicate Stored(s: string) {
    s != "" && Clean(s)
  }

  /** Text the page's trim leaves alone too. */
  predicate Linkable(s: string) {
    Trimmed(s, JsSpace)
  }

  ghost predicate StoredRule(c: Codec, rule: AlertRule) {
    && (rule.source.Some? ==> c.isSource(rule.source.value) && Stored(rule.source.value) && ToLower(rule.source.value) == rule.source.value)
    && (rule.eventType.Some? ==> Stored(rule.eventType.value))
    && (rule.action.Some? ==> Stored(rule.action.value) && ToLower(rule.action.value) == rule.action.value)
    && (rule.severityMin.Some? ==> 0 <= rule.severityMin.value <= 10)
    && (forall t :: t in rule.tags ==> Stored(t))
  }

  /** An alert's window is of whole minutes. */
  ghost predicate StoredAlert(alert: Alert) {
    && alert.windowStart < alert.windowEnd && alert.windowStart % Alerts.MINUTE == 0 && alert.windowEnd % Alerts.MINUTE == 0
    && IsDate(Millis(alert.windowStart)) && IsDate(Millis(alert.windowEnd))
    && Stored(alert.tenant) && Linkable(alert.tenant) && Stored(alert.groupKey)
  }

  /** Its key is a value of its group's field; an address's is its canonical text. */
  ghost predicate StoredGroup(parse: string -> Option<Addr>, alert: Alert, groupBy: Field) {
    && groupBy in GROUP_BY
    && (groupBy.SrcIPField? ==> parse(alert.groupKey) == Some(Addr(alert.groupKey)) && Linkable(alert.groupKey))
  }

  // ---------- What becomes of text on the way ----------

  /** What is left of stored text once the page and the server have both trimmed it. */
  function Reached(s: string): string {
    TrimSpace(JsTrim(s))
  }

  lemma ReachedIs(s: string)
    requires Stored(s)
    ensures Reached(s) == s <==> Linkable(s)
    ensures |Reached(s)| <= |s| && (Reached(s) != s ==> |Reached(s)| < |s|) && '\0' !in JsTrim(s) && (forall ch :: ch in Reached(s) ==> ch in s)
  {
    TrimWithin(s, JsSpace);
    TrimWithin(JsTrim(s), GoSpace);
    TrimTrimmed(s, JsSpace);
    TrimTrimmed(s, GoSpace);
    if |JsTrim(s)| == |s| {
      WholeTrim(s, JsSpace);
    }
  }

  lemma WholeTrim(s: string, space: char -> bool)
    requires |Trim(s, space)| == |s|
    ensures Trim(s, space) == s
  {
    if s != [] && space(s[0]) {
      TrimWithin(s[1..], space);
    } else if s != [] && space(s[|s| - 1]) {
      TrimWithin(s[..|s| - 1], space);
    }
  }

  lemma LowerReached(s: string)
    requires Stored(s) && ToLower(s) == s
    ensures ToLower(Reached(s)) == Reached(s)
  {
    ReachedIs(s);
    var t := Reached(s);
    forall i | 0 <= i < |t|
      ensures LowerChar(t[i]) == t[i]
    {
      assert t[i] in t;
      var j :| 0 <= j < |s| && s[j] == t[i];
      assert ToLower(s)[j] == s[j];
    }
  }

  // ---------- The filter the API is asked with ----------

  function JsOr(v: Option<string>): string {
    if v.Some? then JsTrim(v.value) else ""
  }

  function SourcesOf(rule: Option<AlertRule>): seq<string> {
    if rule.Some? && rule.value.source.Some? then [rule.value.source.value] else []
  }

  function TagsOf(rule: Option<AlertRule>): seq<string> {
    if rule.Some? then rule.value.tags else []
  }

  function SeverityOf(rule: Option<AlertRule>): Option<int> {
    if rule.Some? then rule.value.severityMin else None
  }

  /** The filters a link comes out of the URL as. */
  ghost predicate IsLink(f: UrlFilters.Filters, alert: Alert, groupBy: Field, rule: Option<AlertRule>) {
    && f.range == Custom(Millis(alert.windowStart), Millis(alert.windowEnd)) && f.tenant == alert.tenant
    && f.sources == SourcesOf(rule) && f.severityMin == SeverityOf(rule) && f.severityMax == None
    && f.tags == Distinct(NonBlank(TagsOf(rule)))
    && forall key :: ParamFor(f.text, key) == JsOr(LinkText(alert, groupBy, rule, key))
  }

  lemma InstantOfMillis(t: int)
    requires t % Alerts.MINUTE == 0
    ensures Instant(Millis(t)) == t
  {
    var m := t / Alerts.MINUTE;
    assert t - UNIX_EPOCH == (m * 60_000 - 62_135_596_800_000) * MILLISECOND;
  }

  lemma LinkReadBack(c: Codec, alert: Alert, groupBy: Field, rule: Option<AlertRule>)
    requires c.Valid() && StoredAlert(alert) && (rule.Some? ==> StoredRule(c, rule.value))
    ensures IsLink(ReadOf(c, Written(c, AlertSearch(alert, groupBy, rule))), alert, groupBy, rule)
  {
    WriteThenRead(c, AlertSearch(alert, groupBy, rule));
    LinkShown(c, AlertSearch(alert, groupBy, rule), alert, groupBy, rule);
  }

  lemma LinkShown(c: Codec, f: UrlFilters.Filters, alert: Alert, groupBy: Field, rule: Option<AlertRule>)
    requires StoredAlert(alert) && (rule.Some? ==> StoredRule(c, rule.value)) && f == AlertSearch(alert, groupBy, rule)
    ensures IsLink(Shown(c, f), alert, groupBy, rule)
  {
    TrimTrimmed(alert.tenant, JsSpace);
    KnownKeeps(c, SourcesOf(rule));
    DistinctKeeps(SourcesOf(rule));
    forall key
      ensures ParamFor(ShownTexts(f.text), key) == JsOr(LinkText(alert, groupBy, rule, key))
    {
      ShownParam(f.text, key);
    }
  }

  // ---------- The query it resolves to ----------

  /** What the server makes of a linked text. */
  function ReachedOr(v: Option<string>): string {
    if v.Some? then Reached(v.value) else ""
  }

  ghost predicate ResolvesTexts(q: Filtering.EventQuery, alert: Alert, groupBy: Field, rule: Option<AlertRule>) {
    && q.from == alert.windowStart && q.to == alert.windowEnd && q.f.tenant == alert.tenant
    && q.f.eventType == ReachedOr(RuleText(rule, EventTypeKey)) && q.f.action == ReachedOr(RuleText(rule, ActionKey))
    && q.f.severityMin == SeverityOf(rule) && q.f.severityMax.None?
    && q.srcIP == (if groupBy.SrcIPField? then Some(Addr(alert.groupKey)) else None)
    && q.f.user == (if groupBy.UserField? then Reached(alert.groupKey) else "")
    && q.f.host == (if groupBy.HostField? then Reached(alert.groupKey) else "")
    && q.f.query == ""
  }

  ghost predicate SourcesReach(sources: seq<string>, rule: Option<AlertRule>) {
    forall s :: s in sources <==> rule.Some? && rule.value.source == Some(s)
  }

  ghost predicate TagsReach(tags: seq<string>, given: seq<string>) {
    forall t :: t in tags <==> t != "" && exists u :: u in given && Reached(u) == t
  }

  /** The query a link resolves to. */
  ghost predicate Resolves(q: Filtering.EventQuery, alert: Alert, groupBy: Field, rule: Option<AlertRule>) {
    ResolvesTexts(q, alert, groupBy, rule) && SourcesReach(q.f.sources, rule) && TagsReach(q.f.tags, TagsOf(rule))
  }

  lemma LinkedSources(c: Codec, rule: Option<AlertRule>)
    requires rule.Some? ==> StoredRule(c, rule.value)
    ensures SourcesReach(Filtering.NormalizeSet(SourcesOf(rule), ToLower), rule)
  {
    Filtering.NormalizedAlike(SourcesOf(rule), SourcesOf(rule), ToLower);
    if rule.Some? && rule.value.source.Some? {
      TrimTrimmed(rule.value.source.value, GoSpace);
      assert ToLower(TrimSpace(SourcesOf(rule)[0])) == rule.value.source.value;
    }
  }

  lemma LinkedTags(tags: seq<string>)
    ensures TagsReach(Filtering.NormalizeSet(Distinct(NonBlank(tags)), Filtering.SAME), tags)
  {
    var given := Distinct(NonBlank(tags));
    Filtering.NormalizedAlike(given, given, Filtering.SAME);
    DistinctIs(NonBlank(tags));
    NonBlankAre(tags);
    forall t | t != ""
      ensures Filtering.Comes(given, Filtering.SAME, t) <==> exists u :: u in tags && Reached(u) == t
    {
      LinkedTag(tags, given, t);
    }
  }

  lemma LinkedTag(tags: seq<string>, given: seq<string>, t: string)
    requires t != ""
    requires forall x :: x in given <==> x != "" && exists i :: 0 <= i < |tags| && JsTrim(tags[i]) == x
    ensures Filtering.Comes(given, Filtering.SAME, t) <==> exists u :: u in tags && Reached(u) == t
  {
    if Filtering.Comes(given, Filtering.SAME, t) {
      var k :| 0 <= k < |given| && Filtering.SAME(TrimSpace(given[k])) == t;
      assert given[k] in given;
      var i :| 0 <= i < |tags| && JsTrim(tags[i]) == given[k];
      assert tags[i] in tags && Reached(tags[i]) == t;
    }
    if u :| u in tags && Reached(u) == t {
      var i :| 0 <= i < |tags| && tags[i] == u;
      assert JsTrim(u) in given;
      var k :| 0 <= k < |given| && given[k] == JsTrim(u);
      assert Filtering.SAME(TrimSpace(given[k])) == t;
    }
  }

  /** The filter a link asks the API with. */
  ghost predicate Carries(q: Filtering.EventFilter, alert: Alert, groupBy: Field, rule: Option<AlertRule>) {
    && q.tenant == alert.tenant && q.from == Some(alert.windowStart) && q.to == Some(alert.windowEnd)
    && q.sources == SourcesOf(rule) && q.severityMin == SeverityOf(rule) && q.severityMax == None
    && q.tags == Distinct(NonBlank(TagsOf(rule)))
    && q.eventType == JsOr(RuleText(rule, EventTypeKey)) && q.action == JsOr(RuleText(rule, ActionKey))
    && q.srcIP == (if groupBy.SrcIPField? then JsTrim(alert.groupKey) else "")
    && q.user == (if groupBy.UserField? then JsTrim(alert.groupKey) else "")
    && q.host == (if groupBy.HostField? then JsTrim(alert.groupKey) else "")
    && q.query == ""
  }

  lemma LinkCarries(f: UrlFilters.Filters, alert: Alert, groupBy: Field, rule: Option<AlertRule>, now: int)
    requires IsLink(f, alert, groupBy, rule) && StoredAlert(alert)
    ensures Carries(QueryOf(f, now), alert, groupBy, rule)
  {
    InstantOfMillis(alert.windowStart);
    InstantOfMillis(alert.windowEnd);
  }

  ghost predicate TextStored(v: Option<string>) {
    v.Some? ==> Stored(v.value)
  }

  lemma JsOrHasNoNul(v: Option<string>)
    requires TextStored(v)
    ensures !Filtering.HasNul(JsOr(v))
  {
    if v.Some? { ReachedIs(v.value); }
  }

  lemma LinkedTagsHaveNoNul(tags: seq<string>)
    requires forall t :: t in tags ==> Stored(t)
    ensures forall t :: t in Distinct(NonBlank(tags)) ==> !Filtering.HasNul(t)
  {
    DistinctIs(NonBlank(tags));
    NonBlankAre(tags);
    forall u | u in tags
      ensures !Filtering.HasNul(JsTrim(u))
    {
      ReachedIs(u);
    }
    assert forall i :: 0 <= i < |tags| ==> tags[i] in tags;
  }

  lemma NulFree(a: seq<string>, b: seq<string>, c: seq<string>)
    requires !Filtering.AnyNul(a) && !Filtering.AnyNul(b) && !Filtering.AnyNul(c)
    ensures !Filtering.AnyNul(a + b + c)
  {}

  lemma NoNuls(c: Codec, q: Filtering.EventFilter, alert: Alert, groupBy: Field, rule: Option<AlertRule>)
    requires StoredAlert(alert) && (rule.Some? ==> StoredRule(c, rule.value)) && Carries(q, alert, groupBy, rule)
    ensures !Filtering.AnyNul([q.tenant, q.eventType, q.action, q.user, q.host, q.query] + q.sources + q.tags)
  {
    NoNulTexts(c, q, alert, groupBy, rule);
    assert !Filtering.AnyNul(q.sources);
    LinkedTagsHaveNoNul(TagsOf(rule));
    NulFree([q.tenant, q.eventType, q.action, q.user, q.host, q.query], q.sources, q.tags);
  }

  lemma NoNulTexts(c: Codec, q: Filtering.EventFilter, alert: Alert, groupBy: Field, rule: Option<AlertRule>)
    requires StoredAlert(alert) && (rule.Some? ==> StoredRule(c, rule.value)) && Carries(q, alert, groupBy, rule)
    ensures !Filtering.AnyNul([q.tenant, q.eventType, q.action, q.user, q.host, q.query])
  {
    JsOrHasNoNul(RuleText(rule, EventTypeKey));
    JsOrHasNoNul(RuleText(rule, ActionKey));
    JsOrHasNoNul(Some(alert.groupKey));
  }

  lemma Checked(c: Codec, parse: string -> Option<Addr>, q: Filtering.EventFilter, alert: Alert, groupBy: Field, rule: Option<AlertRule>)
    requires StoredAlert(alert) && StoredGroup(parse, alert, groupBy) && (rule.Some? ==> StoredRule(c, rule.value))
    requires Carries(q, alert, groupBy, rule)
    ensures Filtering.ResolveFilter(parse, q) ==
            Success(Filtering.EventQuery(Filtering.Normalized(q), if groupBy.SrcIPField? then Some(Addr(alert.groupKey)) else None, 0, 0))
  {
    NoNuls(c, q, alert, groupBy, rule);
    LinkedAddress(parse, q, alert, groupBy, rule);
    LinkedSeverities(c, q, alert, groupBy, rule);
  }

  lemma LinkedSeverities(c: Codec, q: Filtering.EventFilter, alert: Alert, groupBy: Field, rule: Option<AlertRule>)
    requires (rule.Some? ==> StoredRule(c, rule.value)) && Carries(q, alert, groupBy, rule)
    ensures !Filtering.BadSeverities(q)
  {}

  lemma LinkedAddress(
      parse: string -> Option<Addr>, q: Filtering.EventFilter, alert: Alert, groupBy: Field, rule: Option<AlertRule>)
    requires StoredAlert(alert) && StoredGroup(parse, alert, groupBy) && Carries(q, alert, groupBy, rule)
    ensures var ip := TrimSpace(q.srcIP);
            if groupBy.SrcIPField? then ip != "" && parse(ip) == Some(Addr(alert.groupKey)) else ip == ""
  {
    if groupBy.SrcIPField? {
      KeyAddress(parse, alert, groupBy);
    }
  }

  lemma KeyAddress(parse: string -> Option<Addr>, alert: Alert, groupBy: Field)
    requires StoredAlert(alert) && StoredGroup(parse, alert, groupBy) && groupBy.SrcIPField?
    ensures var ip := TrimSpace(JsTrim(alert.groupKey)); ip != "" && parse(ip) == Some(Addr(alert.groupKey))
  {
    ReachedIs(alert.groupKey);
  }

  lemma LowerTold(action: Option<string>)
    requires action.Some? ==> Stored(action.value) && ToLower(action.value) == action.value
    ensures ToLower(TrimSpace(JsOr(action))) == ReachedOr(action)
  {
    if action.Some? { LowerReached(action.value); }
  }

  lemma NormalizedResolves(c: Codec, q: Filtering.EventFilter, alert: Alert, groupBy: Field, rule: Option<AlertRule>)
    requires StoredAlert(alert) && (rule.Some? ==> StoredRule(c, rule.value)) && Carries(q, alert, groupBy, rule)
    ensures Resolves(Filtering.EventQuery(Filtering.Normalized(q), if groupBy.SrcIPField? then Some(Addr(alert.groupKey)) else None,
                                          alert.windowStart, alert.windowEnd), alert, groupBy, rule)
  {
    LinkedSources(c, rule);
    LinkedTags(TagsOf(rule));
    TextsResolve(c, q, alert, groupBy, rule);
  }

  lemma TextsResolve(c: Codec, q: Filtering.EventFilter, alert: Alert, groupBy: Field, rule: Option<AlertRule>)
    requires StoredAlert(alert) && (rule.Some? ==> StoredRule(c, rule.value)) && Carries(q, alert, groupBy, rule)
    ensures ResolvesTexts(Filtering.EventQuery(Filtering.Normalized(q), if groupBy.SrcIPField? then Some(Addr(alert.groupKey)) else None,
                                               alert.windowStart, alert.windowEnd), alert, groupBy, rule)
  {
    TrimTrimmed(alert.tenant, GoSpace);
    LowerTold(RuleText(rule, ActionKey));
  }

  /** A link always resolves, to the rule's filter, the group and the window, each text as trimmed twice over. */
  lemma LinkResolves(c: Codec, parse: string -> Option<Addr>, alert: Alert, groupBy: Field, rule: Option<AlertRule>, now: int)
    requires c.Valid() && StoredAlert(alert) && StoredGroup(parse, alert, groupBy) && (rule.Some? ==> StoredRule(c, rule.value))
    ensures Linked(c, parse, alert, groupBy, rule, now).Success?
    ensures Resolves(Linked(c, parse, alert, groupBy, rule, now).value, alert, groupBy, rule)
  {
    LinkReadBack(c, alert, groupBy, rule);
    FiltersResolve(c, parse, ReadOf(c, Written(c, AlertSearch(alert, groupBy, rule))), alert, groupBy, rule, now);
  }

  /** What the API makes of filters. */
  function Asked(parse: string -> Option<Addr>, f: UrlFilters.Filters, now: int): Result<Filtering.EventQuery, Filtering.Refusal> {
    var q := Filtering.ResolveFilter(parse, QueryOf(f, now));
    if q.Failure? then q else Filtering.SetWindow(q.value, 0, 0)
  }

  lemma FiltersResolve(c: Codec, parse: string -> Option<Addr>, f: UrlFilters.Filters, alert: Alert, groupBy: Field, rule: Option<AlertRule>, now: int)
    requires StoredAlert(alert) && StoredGroup(parse, alert, groupBy) && (rule.Some? ==> StoredRule(c, rule.value))
    requires IsLink(f, alert, groupBy, rule)
    ensures Asked(parse, f, now).Success? && Resolves(Asked(parse, f, now).value, alert, groupBy, rule)
  {
    LinkCarries(f, alert, groupBy, rule, now);
    Checked(c, parse, QueryOf(f, now), alert, groupBy, rule);
    NormalizedResolves(c, QueryOf(f, now), alert, groupBy, rule);
  }

  // ---------- The events it finds ----------

  /** What a link should find: the window's events of the tenant that the rule asks for, if it is known, and of the group, if search has a filter for it. */
  ghost predicate Finds(alert: Alert, groupBy: Field, rule: Option<AlertRule>, e: Event) {
    && alert.windowStart <= e.ts < alert.windowEnd && e.tenant == alert.tenant
    && (rule.Some? ==> Alerts.Filters(rule.value, e))
    && (!groupBy.DstIPField? ==> FieldText(groupBy, e) == Some(alert.groupKey))
  }

  ghost predicate OptionLinkable(v: Option<string>) {
    v.Some? ==> Linkable(v.value)
  }

  ghost predicate TagsLinkable(tags: seq<string>) {
    forall t :: t in tags ==> Linkable(t)
  }

  /** The page's trim leaves every text of the link alone. */
  ghost predicate LinkTextsLinkable(alert: Alert, groupBy: Field, rule: Option<AlertRule>) {
    && OptionLinkable(RuleText(rule, EventTypeKey)) && OptionLinkable(RuleText(rule, ActionKey))
    && TagsLinkable(TagsOf(rule))
    && (groupBy.UserField? || groupBy.HostField? ==> Linkable(alert.groupKey))
  }

  lemma SourceSelects(sources: seq<string>, rule: Option<AlertRule>, e: Event)
    requires SourcesReach(sources, rule)
    ensures (sources != [] ==> e.source in sources) <==> (rule.Some? ==> Agrees(rule.value.source, Some(e.source)))
  {
    if sources != [] {
      assert sources[0] in sources;
    }
  }

  lemma TagsSelect(c: Codec, tags: seq<string>, rule: Option<AlertRule>, e: Event)
    requires TagsReach(tags, TagsOf(rule)) && TagsLinkable(TagsOf(rule)) && (rule.Some? ==> StoredRule(c, rule.value))
    ensures HasAll(e.tags, tags) <==> HasAll(e.tags, TagsOf(rule))
  {
    forall u | u in TagsOf(rule)
      ensures Reached(u) == u && u in tags
    {
      ReachedIs(u);
    }
  }

  lemma TextSelects(v: Option<string>, value: Option<string>)
    requires TextStored(v) && OptionLinkable(v)
    ensures (ReachedOr(v) != "" ==> value == Some(ReachedOr(v))) <==> Agrees(v, value)
  {
    if v.Some? { ReachedIs(v.value); }
  }

  lemma GroupSelects(q: Filtering.EventQuery, alert: Alert, groupBy: Field, rule: Option<AlertRule>, e: Event)
    requires ResolvesTexts(q, alert, groupBy, rule) && StoredAlert(alert) && groupBy in GROUP_BY
    requires groupBy.UserField? || groupBy.HostField? ==> Linkable(alert.groupKey)
    ensures (q.srcIP.Some? ==> e.srcIP == q.srcIP) && (q.f.user != "" ==> e.user == Some(q.f.user)) && (q.f.host != "" ==> e.host == Some(q.f.host))
            <==> (!groupBy.DstIPField? ==> FieldText(groupBy, e) == Some(alert.groupKey))
  {
    ReachedIs(alert.groupKey);
  }

  lemma SelectsByParts(q: Filtering.EventQuery, alert: Alert, groupBy: Field, rule: Option<AlertRule>, e: Event)
    requires ResolvesTexts(q, alert, groupBy, rule) && alert.tenant != ""
    requires (q.f.sources != [] ==> e.source in q.f.sources) <==> (rule.Some? ==> Agrees(rule.value.source, Some(e.source)))
    requires HasAll(e.tags, q.f.tags) <==> HasAll(e.tags, TagsOf(rule))
    requires (q.f.eventType != "" ==> e.eventType == Some(q.f.eventType)) <==> Agrees(RuleText(rule, EventTypeKey), e.eventType)
    requires (q.f.action != "" ==> e.action == Some(q.f.action)) <==> Agrees(RuleText(rule, ActionKey), e.action)
    requires (q.srcIP.Some? ==> e.srcIP == q.srcIP) && (q.f.user != "" ==> e.user == Some(q.f.user)) && (q.f.host != "" ==> e.host == Some(q.f.host))
             <==> (!groupBy.DstIPField? ==> FieldText(groupBy, e) == Some(alert.groupKey))
    ensures Filtering.Selects(q, e) <==> Finds(alert, groupBy, rule, e)
  {}

  lemma QuerySelects(c: Codec, q: Filtering.EventQuery, alert: Alert, groupBy: Field, rule: Option<AlertRule>, e: Event)
    requires StoredAlert(alert) && groupBy in GROUP_BY && (rule.Some? ==> StoredRule(c, rule.value))
    requires Resolves(q, alert, groupBy, rule) && LinkTextsLinkable(alert, groupBy, rule)
    ensures Filtering.Selects(q, e) <==> Finds(alert, groupBy, rule, e)
  {
    SourceSelects(q.f.sources, rule, e);
    TagsSelect(c, q.f.tags, rule, e);
    TextSelects(RuleText(rule, EventTypeKey), e.eventType);
    TextSelects(RuleText(rule, ActionKey), e.action);
    GroupSelects(q, alert, groupBy, rule, e);
    SelectsByParts(q, alert, groupBy, rule, e);
  }

  /**
   * A link finds just what it should, if the page's trim leaves its texts
   * alone. For a destination address that is every group's events, and for a
   * rule that is gone every event of the group.
   */
  lemma LinkFinds(c: Codec, parse: string -> Option<Addr>, alert: Alert, groupBy: Field, rule: Option<AlertRule>, now: int, e: Event)
    requires c.Valid() && StoredAlert(alert) && StoredGroup(parse, alert, groupBy) && (rule.Some? ==> StoredRule(c, rule.value))
    requires LinkTextsLinkable(alert, groupBy, rule)
    ensures var q := Linked(c, parse, alert, groupBy, rule, now);
            q.Success? && (Filtering.Selects(q.value, e) <==> Finds(alert, groupBy, rule, e))
  {
    LinkResolves(c, parse, alert, groupBy, rule, now);
    QuerySelects(c, Linked(c, parse, alert, groupBy, rule, now).value, alert, groupBy, rule, e);
  }

  // ---------- Exactly when it finds what was counted ----------

  /** An event the rule counts for the alert. */
  function Sample(alert: Alert, groupBy: Field, rule: AlertRule): Event {
    Event(
      0, alert.windowStart, alert.tenant, if rule.source.Some? then rule.source.value else "", rule.eventType, rule.severityMin,
      rule.action, if groupBy.SrcIPField? then Some(Addr(alert.groupKey)) else None,
      if groupBy.DstIPField? then Some(Addr(alert.groupKey)) else None,
      if groupBy.UserField? then Some(alert.groupKey) else None, if groupBy.HostField? then Some(alert.groupKey) else None,
      rule.tags, [])
  }

  ghost predicate SelectsFound(q: Filtering.EventQuery, alert: Alert, groupBy: Field, rule: Option<AlertRule>) {
    forall e :: Filtering.Selects(q, e) <==> Finds(alert, groupBy, rule, e)
  }

  /** Of the tags the page's trim would change, a longest one is not reached from any. */
  lemma {:induction false} UnreachedTag(tags: seq<string>, n: nat) returns (lost: string)
    requires forall t :: t in tags ==> Stored(t)
    requires n <= |tags| && exists i :: 0 <= i < n && !Linkable(tags[i])
    ensures lost in tags[..n] && !Linkable(lost)
    ensures forall u :: u in tags[..n] && !Linkable(u) ==> |u| <= |lost|
    decreases n
  {
    if exists i :: 0 <= i < n - 1 && !Linkable(tags[i]) {
      lost := UnreachedTag(tags, n - 1);
      if !Linkable(tags[n - 1]) && |tags[n - 1]| > |lost| {
        lost := tags[n - 1];
      }
    } else {
      lost := tags[n - 1];
    }
    assert tags[..n] == tags[..n - 1] + [tags[n - 1]];
  }

  lemma LostTag(tags: seq<string>, reached: seq<string>) returns (lost: string)
    requires (forall t :: t in tags ==> Stored(t)) && !TagsLinkable(tags) && TagsReach(reached, tags)
    ensures lost in tags && lost !in reached
  {
    var t :| t in tags && !Linkable(t);
    var i :| 0 <= i < |tags| && tags[i] == t;
    lost := UnreachedTag(tags, |tags|);
    assert tags[..|tags|] == tags;
    forall u | u in tags
      ensures Reached(u) != lost
    {
      ReachedIs(u);
    }
  }

  lemma TextMustReach(v: Option<string>)
    requires TextStored(v) && v.Some? && (ReachedOr(v) != "" ==> v == Some(ReachedOr(v))) && ReachedOr(v) != ""
    ensures Linkable(v.value)
  {
    ReachedIs(v.value);
  }

  lemma SampleSelected(c: Codec, q: Filtering.EventQuery, alert: Alert, groupBy: Field, rule: AlertRule)
    requires StoredAlert(alert) && groupBy in GROUP_BY && !groupBy.DstIPField? && StoredRule(c, rule) && rule.tenant == alert.tenant
    requires Resolves(q, alert, groupBy, Some(rule)) && SelectsFound(q, alert, groupBy, Some(rule))
    ensures Finds(alert, groupBy, Some(rule), Sample(alert, groupBy, rule)) && Filtering.Selects(q, Sample(alert, groupBy, rule))
  {
    assert Finds(alert, groupBy, Some(rule), Sample(alert, groupBy, rule));
  }

  /** A query that does not filter a text selects an event without it just the same. */
  lemma Unfiltered(q: Filtering.EventQuery, e: Event)
    requires Filtering.Selects(q, e)
    ensures q.f.eventType != "" ==> e.eventType == Some(q.f.eventType)
    ensures q.f.action != "" ==> e.action == Some(q.f.action)
    ensures q.f.eventType == "" ==> Filtering.Selects(q, e.(eventType := None))
    ensures q.f.action == "" ==> Filtering.Selects(q, e.(action := None))
  {}

  lemma UnaskedEventType(alert: Alert, groupBy: Field, rule: AlertRule)
    requires rule.eventType.Some?
    ensures !Finds(alert, groupBy, Some(rule), Sample(alert, groupBy, rule).(eventType := None))
  {}

  lemma UnaskedAction(alert: Alert, groupBy: Field, rule: AlertRule)
    requires rule.action.Some?
    ensures !Finds(alert, groupBy, Some(rule), Sample(alert, groupBy, rule).(action := None))
  {}

  lemma ExactNeedsEventType(c: Codec, q: Filtering.EventQuery, alert: Alert, groupBy: Field, rule: AlertRule)
    requires StoredAlert(alert) && groupBy in GROUP_BY && !groupBy.DstIPField? && StoredRule(c, rule) && rule.tenant == alert.tenant
    requires Resolves(q, alert, groupBy, Some(rule)) && SelectsFound(q, alert, groupBy, Some(rule))
    ensures OptionLinkable(rule.eventType)
  {
    SampleSelected(c, q, alert, groupBy, rule);
    if rule.eventType.Some? {
      Unfiltered(q, Sample(alert, groupBy, rule));
      UnaskedEventType(alert, groupBy, rule);
      TextMustReach(rule.eventType);
    }
  }

  lemma ExactNeedsAction(c: Codec, q: Filtering.EventQuery, alert: Alert, groupBy: Field, rule: AlertRule)
    requires StoredAlert(alert) && groupBy in GROUP_BY && !groupBy.DstIPField? && StoredRule(c, rule) && rule.tenant == alert.tenant
    requires Resolves(q, alert, groupBy, Some(rule)) && SelectsFound(q, alert, groupBy, Some(rule))
    ensures OptionLinkable(rule.action)
  {
    SampleSelected(c, q, alert, groupBy, rule);
    if rule.action.Some? {
      Unfiltered(q, Sample(alert, groupBy, rule));
      UnaskedAction(alert, groupBy, rule);
      TextMustReach(rule.action);
    }
  }

  lemma ExactNeedsKey(c: Codec, q: Filtering.EventQuery, alert: Alert, groupBy: Field, rule: AlertRule)
    requires StoredAlert(alert) && groupBy in GROUP_BY && !groupBy.DstIPField? && StoredRule(c, rule) && rule.tenant == alert.tenant
    requires Resolves(q, alert, groupBy, Some(rule)) && SelectsFound(q, alert, groupBy, Some(rule))
    ensures groupBy.UserField? || groupBy.HostField? ==> Linkable(alert.groupKey)
  {
    var e := Sample(alert, groupBy, rule);
    SampleSelected(c, q, alert, groupBy, rule);
    if groupBy.UserField? || groupBy.HostField? {
      var other := if groupBy.UserField? then e.(user := None) else e.(host := None);
      assert !Finds(alert, groupBy, Some(rule), other);
      assert !Filtering.Selects(q, other);
      TextMustReach(Some(alert.groupKey));
    }
  }

  lemma LostTagSpoils(c: Codec, q: Filtering.EventQuery, alert: Alert, groupBy: Field, rule: AlertRule)
    requires StoredAlert(alert) && groupBy in GROUP_BY && !groupBy.DstIPField? && StoredRule(c, rule) && rule.tenant == alert.tenant
    requires Resolves(q, alert, groupBy, Some(rule)) && !TagsLinkable(rule.tags)
    ensures !SelectsFound(q, alert, groupBy, Some(rule))
  {
    var e := Sample(alert, groupBy, rule);
    assert Finds(alert, groupBy, Some(rule), e);
    var lost := LostTag(rule.tags, q.f.tags);
    var other := e.(tags := q.f.tags);
    assert !HasAll(other.tags, rule.tags);
    assert !Finds(alert, groupBy, Some(rule), other);
    assert Filtering.Selects(q, e) ==> Filtering.Selects(q, other);
  }

  /**
   * A link finds exactly the events its rule counted for the group and window
   * if and only if the page's trim, which unlike the backend's drops a byte
   * order mark, leaves every text of the link alone.
   */
  lemma LinkIsExact(c: Codec, parse: string -> Option<Addr>, alert: Alert, groupBy: Field, rule: AlertRule, now: int)
    requires c.Valid() && StoredAlert(alert) && StoredGroup(parse, alert, groupBy) && StoredRule(c, rule)
    requires !groupBy.DstIPField? && rule.tenant == alert.tenant && rule.groupBy == groupBy
    ensures var q := Linked(c, parse, alert, groupBy, Some(rule), now);
            q.Success? && (SelectsFound(q.value, alert, groupBy, Some(rule)) <==> LinkTextsLinkable(alert, groupBy, Some(rule)))
  {
    LinkResolves(c, parse, alert, groupBy, Some(rule), now);
    ExactWhen(c, Linked(c, parse, alert, groupBy, Some(rule), now).value, alert, groupBy, rule);
  }

  lemma ExactWhen(c: Codec, q: Filtering.EventQuery, alert: Alert, groupBy: Field, rule: AlertRule)
    requires StoredAlert(alert) && groupBy in GROUP_BY && !groupBy.DstIPField? && StoredRule(c, rule) && rule.tenant == alert.tenant
    requires Resolves(q, alert, groupBy, Some(rule))
    ensures SelectsFound(q, alert, groupBy, Some(rule)) <==> LinkTextsLinkable(alert, groupBy, Some(rule))
  {
    if SelectsFound(q, alert, groupBy, Some(rule)) {
      ExactNeedsEventType(c, q, alert, groupBy, rule);
      ExactNeedsAction(c, q, alert, groupBy, rule);
      ExactNeedsKey(c, q, alert, groupBy, rule);
      if !TagsLinkable(rule.tags) {
        LostTagSpoils(c, q, alert, groupBy, rule);
      }
    }
    if LinkTextsLinkable(alert, groupBy, Some(rule)) {
      forall e
        ensures Filtering.Selects(q, e) <==> Finds(alert, groupBy, Some(rule), e)
      {
        QuerySelects(c, q, alert, groupBy, Some(rule), e);
      }
    }
  }

  /** What the link of a firing should find is what the evaluation counted, of whatever events there are. */
  lemma FindsAreCounted(rule: AlertRule, events: set<Event>, key: string, end: int)
    requires !rule.groupBy.DstIPField?
    ensures (set e | e in events && Finds(Firing(rule, events, key, end), rule.groupBy, Some(rule), e)) ==
            Counted(rule, events, key, end - rule.Window(), end)
  {}

  /** So the link of a firing selects, of the events there were, exactly those it counted. */
  lemma LinkFindsCounted(c: Codec, parse: string -> Option<Addr>, rule: AlertRule, events: set<Event>, key: string, end: int, now: int)
    requires var alert := Firing(rule, events, key, end);
             && c.Valid() && StoredAlert(alert) && StoredGroup(parse, alert, rule.groupBy) && StoredRule(c, rule)
             && LinkTextsLinkable(alert, rule.groupBy, Some(rule)) && !rule.groupBy.DstIPField?
    ensures var q := Linked(c, parse, Firing(rule, events, key, end), rule.groupBy, Some(rule), now);
            q.Success? &&
            (set e | e in events && Filtering.Selects(q.value, e)) == Counted(rule, events, key, end - rule.Window(), end)
  {
    var alert := Firing(rule, events, key, end);
    LinkIsExact(c, parse, alert, rule.groupBy, rule, now);
    FindsAreCounted(rule, events, key, end);
    SelectedAreFound(Linked(c, parse, alert, rule.groupBy, Some(rule), now).value, alert, rule.groupBy, rule, events);
  }

  lemma SelectedAreFound(q: Filtering.EventQuery, alert: Alert, groupBy: Field, rule: AlertRule, events: set<Event>)
    requires SelectsFound(q, alert, groupBy, Some(rule))
    ensures (set e | e in events && Filtering.Selects(q, e)) == (set e | e in events && Finds(alert, groupBy, Some(rule), e))
  {}

  /**
   * Whatever the rule groups by, and known or not, its firing's link selects
   * every event counted. For a destination address, or a rule that is gone, it
   * may select more.
   */
  lemma LinkCoversCounted(c: Codec, parse: string -> Option<Addr>, rule: AlertRule, known: bool, events: set<Event>, key: string, end: int, now: int)
    requires var alert, link := Firing(rule, events, key, end), if known then Some(rule) else None;
             && c.Valid() && StoredAlert(alert) && StoredGroup(parse, alert, rule.groupBy) && (known ==> StoredRule(c, rule))
             && LinkTextsLinkable(alert, rule.groupBy, link)
    ensures var q := Linked(c, parse, Firing(rule, events, key, end), rule.groupBy, if known then Some(rule) else None, now);
            q.Success? &&
            Counted(rule, events, key, end - rule.Window(), end) <= (set e | e in events && Filtering.Selects(q.value, e))
  {
    var alert, link := Firing(rule, events, key, end), if known then Some(rule) else None;
    LinkResolves(c, parse, alert, rule.groupBy, link, now);
    CountedAreSelected(c, Linked(c, parse, alert, rule.groupBy, link, now).value, rule, known, events, key, end);
  }

  lemma CountedAreSelected(c: Codec, q: Filtering.EventQuery, rule: AlertRule, known: bool, events: set<Event>, key: string, end: int)
    requires var alert, link := Firing(rule, events, key, end), if known then Some(rule) else None;
             && StoredAlert(alert) && rule.groupBy in GROUP_BY && (known ==> StoredRule(c, rule))
             && Resolves(q, alert, rule.groupBy, link) && LinkTextsLinkable(alert, rule.groupBy, link)
    ensures Counted(rule, events, key, end - rule.Window(), end) <= (set e | e in events && Filtering.Selects(q, e))
  {
    var alert, link := Firing(rule, events, key, end), if known then Some(rule) else None;
    forall e | e in Counted(rule, events, key, end - rule.Window(), end)
      ensures Filtering.Selects(q, e)
    {
      QuerySelects(c, q, alert, rule.groupBy, link, e);
    }
  }

  const MARKED: string := ['\U{FEFF}', 'a']

  lemma MarkedReached()
    ensures Reached(MARKED) == ['a']
  {
    assert MARKED[1..] == ['a'];
    TrimTrimmed(['a'], JsSpace);
    assert JsTrim(MARKED) == ['a'];
    TrimTrimmed(['a'], GoSpace);
  }

  /** A user named with a byte order mark in front: the backend stores the name as it is, and the link asks for another. */
  lemma MarkedUserIsMissed(c: Codec, parse: string -> Option<Addr>, alert: Alert, rule: AlertRule, now: int)
    requires c.Valid() && StoredAlert(alert) && StoredRule(c, rule) && rule.groupBy.UserField? && rule.tenant == alert.tenant
    requires alert.groupKey == MARKED
    ensures Finds(alert, UserField, Some(rule), Sample(alert, UserField, rule))
    ensures var q := Linked(c, parse, alert, UserField, Some(rule), now);
            q.Success? && !Filtering.Selects(q.value, Sample(alert, UserField, rule))
  {
    LinkResolves(c, parse, alert, UserField, Some(rule), now);
    OtherUserIsMissed(c, Linked(c, parse, alert, UserField, Some(rule), now).value, alert, rule);
  }

  lemma OtherUserIsMissed(c: Codec, q: Filtering.EventQuery, alert: Alert, rule: AlertRule)
    requires Resolves(q, alert, UserField, Some(rule)) && StoredAlert(alert) && StoredRule(c, rule) && rule.tenant == alert.tenant
    requires alert.groupKey == MARKED
    ensures Finds(alert, UserField, Some(rule), Sample(alert, UserField, rule))
    ensures !Filtering.Selects(q, Sample(alert, UserField, rule))
  {
    MarkedReached();
    assert q.f.user == ['a'] && |MARKED| == 2;
  }
}
