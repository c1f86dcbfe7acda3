/** backend/internal/store/alerts.go: evaluating a rule appends firings to the alerts table. */
module Alerts {
  import opened Wrappers
  import opened Texts
  import opened Events

  const SECOND: int := 1_000_000_000
  const MINUTE: int := 60 * SECOND

  datatype AlertRule = AlertRule(
    id: int, tenant: string, source: Option<string>, eventType: Option<string>, action: Option<string>,
    severityMin: Option<int>, tags: seq<string>, groupBy: Field, threshold: int, windowMinutes: int, cooldownMinutes: int)
  {
    function Window(): int { windowMinutes * MINUTE }
    function Cooldown(): int { cooldownMinutes * MINUTE }
  }

  datatype Alert = Alert(ruleId: int, tenant: string, groupKey: string, windowStart: int, windowEnd: int, matched: int)

  /** The fields a rule may group by. */
  const GROUP_BY: set<Field> := {SrcIPField, DstIPField, UserField, HostField}

  // ---------- What a rule asks ----------

  predicate Agrees<T(==)>(wanted: Option<T>, value: Option<T>) {
    wanted.Some? ==> wanted == value
  }

  /** e is one of the rule's events: its tenant's, and it meets every filter the rule sets. */
  predicate Concerns(rule: AlertRule, e: Event) {
    && e.tenant == rule.tenant
    && Filters(rule, e)
  }

  predicate Filters(rule: AlertRule, e: Event) {
    && Agrees(rule.source, Some(e.source))
    && Agrees(rule.eventType, e.eventType)
    && Agrees(rule.action, e.action)
    && (rule.severityMin.Some? ==> e.severity.Some? && rule.severityMin.value <= e.severity.value)
    && HasAll(e.tags, rule.tags)
  }

  /** The events the rule counts for one group in a window, which includes from and not to. */
  function Counted(rule: AlertRule, events: set<Event>, key: string, from: int, to: int): set<Event> {
    set e | e in events && Concerns(rule, e) && FieldText(rule.groupBy, e) == Some(key) && from <= e.ts < to
  }

  /** The groups that have any event in the window. */
  function Groups(rule: AlertRule, events: set<Event>, from: int, to: int): set<string> {
    set e | e in events && Concerns(rule, e) && FieldText(rule.groupBy, e).Some? && from <= e.ts < to
         :: FieldText(rule.groupBy, e).value
  }

  /** A firing for the group ended after since. */
  predicate Cooling(alerts: seq<Alert>, ruleId: int, key: string, since: int) {
    exists i :: 0 <= i < |alerts| && alerts[i].ruleId == ruleId && alerts[i].groupKey == key && since < alerts[i].windowEnd
  }

  /** The unique key (rule_id, group_key, window_start) is taken. */
  predicate Recorded(alerts: seq<Alert>, ruleId: int, key: string, from: int) {
    exists i :: 0 <= i < |alerts| && alerts[i].ruleId == ruleId && alerts[i].groupKey == key && alerts[i].windowStart == from
  }

  /** The rule fires for key in the window ending at end. */
  predicate Fires(rule: AlertRule, events: set<Event>, alerts: seq<Alert>, key: string, end: int) {
    && key in Groups(rule, events, end - rule.Window(), end)
    && rule.threshold <= |Counted(rule, events, key, end - rule.Window(), end)|
    && !Cooling(alerts, rule.id, key, end - rule.Cooldown())
    && !Recorded(alerts, rule.id, key, end - rule.Window())
  }

  function Firing(rule: AlertRule, events: set<Event>, key: string, end: int): Alert {
    Alert(rule.id, rule.tenant, key, end - rule.Window(), end, |Counted(rule, events, key, end - rule.Window(), end)|)
  }

  function FiringsAmong(rule: AlertRule, events: set<Event>, alerts: seq<Alert>, end: int, keys: seq<string>): seq<Alert> {
    if keys == [] then []
    else
      var k := keys[|keys| - 1];
      FiringsAmong(rule, events, alerts, end, keys[..|keys| - 1])
      + if Fires(rule, events, alerts, k, end) then [Firing(rule, events, k, end)] else []
  }

  // ---------- The groups in order ----------

  predicate IsLeast(k: string, keys: set<string>) {
    k in keys && forall other :: other in keys && other != k ==> Below(k, other)
  }

  lemma {:induction false} FindLeast(keys: set<string>) returns (least: string)
    requires keys != {}
    ensures IsLeast(least, keys)
  {
    var k :| k in keys;
    least := k;
    if keys != {k} {
      var l := FindLeast(keys - {k});
      Trichotomy(k, l);
      if Below(l, k) {
        least := l;
      } else {
        forall other | other in keys && other != k
          ensures Below(k, other)
        {
          if other != l { Transitive(k, l, other); }
        }
      }
    }
  }

  lemma HasLeast(keys: set<string>)
    requires keys != {}
    ensures exists k :: IsLeast(k, keys)
    ensures forall k, l :: IsLeast(k, keys) && IsLeast(l, keys) ==> k == l
  {
    var k := FindLeast(keys);
    forall l | IsLeast(l, keys)
      ensures k == l
    {
      Trichotomy(k, l);
    }
  }

  ghost predicate IsOrdered(keys: set<string>, sorted: seq<string>) {
    Ascending(sorted) && forall k :: k in sorted <==> k in keys
  }

  lemma {:induction false} SomeOrder(keys: set<string>) returns (sorted: seq<string>)
    ensures IsOrdered(keys, sorted)
  {
    sorted := [];
    if keys != {} {
      var k := FindLeast(keys);
      var rest := SomeOrder(keys - {k});
      assert forall j :: 0 <= j < |rest| ==> rest[j] in rest;
      sorted := [k] + rest;
    }
  }

  lemma HasOrder(keys: set<string>)
    ensures exists sorted :: IsOrdered(keys, sorted)
  {
    var sorted := SomeOrder(keys);
  }

  /** ORDER BY group_key. */
  ghost function Ordered(keys: set<string>): (sorted: seq<string>)
    ensures IsOrdered(keys, sorted)
  {
    HasOrder(keys);
    var sorted :| IsOrdered(keys, sorted);
    sorted
  }

  /** Sorts keys, by taking the least of those left again and again. */
  method OrderBy(keys: set<string>) returns (sorted: seq<string>)
    ensures sorted == Ordered(keys)
  {
    sorted := [];
    var left := keys;
    while left != {}
      invariant left <= keys && Ascending(sorted) && forall k :: k in sorted <==> k in keys && k !in left
      invariant forall i, k :: 0 <= i < |sorted| && k in left ==> Below(sorted[i], k)
      decreases |left|
    {
      HasLeast(left);
      var k :| k in left && IsLeast(k, left);
      left := left - {k};
      sorted := sorted + [k];
    }
    AscendingUnique(sorted, Ordered(keys));
  }

  ghost function Firings(rule: AlertRule, events: set<Event>, alerts: seq<Alert>, end: int): seq<Alert> {
    FiringsAmong(rule, events, alerts, end, Ordered(Groups(rule, events, end - rule.Window(), end)))
  }

  // ---------- The source's own form ----------

  datatype EvaluateError = UnknownGroup(field: Field)

  /** The statement Evaluate runs: its WHERE, and what it groups, counts and compares with. */
  datatype Statement = Statement(
    ruleId: int, tenant: string, conds: seq<Cond>, field: Field, threshold: int, from: int, to: int, since: int)

  /** s asks what rule does, of the window ending at end. */
  ghost predicate Means(s: Statement, rule: AlertRule, end: int) {
    && s.(conds := []) == Statement(
         rule.id, rule.tenant, [], rule.groupBy, rule.threshold, end - rule.Window(), end, end - rule.Cooldown())
    && forall e :: AllHold(s.conds, e) <==>
         Concerns(rule, e) && FieldText(rule.groupBy, e).Some? && end - rule.Window() <= e.ts < end
  }

  method Evaluation(rule: AlertRule, end: int) returns (r: Result<Statement, EvaluateError>)
    ensures r.Success? <==> rule.groupBy in GROUP_BY
    ensures r.Success? ==> Means(r.value, rule, end)
  {
    if rule.groupBy !in GROUP_BY {
      return Failure(UnknownGroup(rule.groupBy));
    }
    var window, cooldown := rule.windowMinutes * MINUTE, rule.cooldownMinutes * MINUTE;
    var from, to := end - window, end;
    var conds := [TenantIs(rule.tenant), From(from), Before(to), IsNotNull(rule.groupBy)];
    forall e
      ensures AllHold(FilterConds(rule, conds), e) <==>
                Concerns(rule, e) && FieldText(rule.groupBy, e).Some? && from <= e.ts < to
    {
      FirstCondsSelect(conds, rule, from, to, e);
      FilterCondsSelect(rule, conds, e);
    }
    conds := AddFilters(rule, conds);
    r := Success(Statement(rule.id, rule.tenant, conds, rule.groupBy, rule.threshold, from, to, end - cooldown));
  }

  lemma FirstCondsSelect(conds: seq<Cond>, rule: AlertRule, from: int, to: int, e: Event)
    requires conds == [TenantIs(rule.tenant), From(from), Before(to), IsNotNull(rule.groupBy)]
    ensures AllHold(conds, e) <==> e.tenant == rule.tenant && from <= e.ts < to && FieldText(rule.groupBy, e).Some?
  {
    assert conds == [TenantIs(rule.tenant), From(from)] + [Before(to), IsNotNull(rule.groupBy)];
    JoinedHold([TenantIs(rule.tenant), From(from)], [Before(to), IsNotNull(rule.groupBy)], e);
    BothHold(TenantIs(rule.tenant), From(from), e);
    BothHold(Before(to), IsNotNull(rule.groupBy), e);
  }

  function NameConds(rule: AlertRule, first: seq<Cond>): seq<Cond> {
    var bySource := With(first, if rule.source.Some? then Some(SourceIs(rule.source.value)) else None);
    var byType := With(bySource, if rule.eventType.Some? then Some(EventTypeIs(rule.eventType.value)) else None);
    With(byType, if rule.action.Some? then Some(ActionIs(rule.action.value)) else None)
  }

  lemma NameCondsSelect(rule: AlertRule, first: seq<Cond>, e: Event)
    ensures AllHold(NameConds(rule, first), e) <==>
              AllHold(first, e) && Agrees(rule.source, Some(e.source))
              && Agrees(rule.eventType, e.eventType) && Agrees(rule.action, e.action)
  {
    var source := if rule.source.Some? then Some(SourceIs(rule.source.value)) else None;
    var eventType := if rule.eventType.Some? then Some(EventTypeIs(rule.eventType.value)) else None;
    var action := if rule.action.Some? then Some(ActionIs(rule.action.value)) else None;
    ThreeMoreConds(first, source, eventType, action, e);
  }

  lemma ThreeMoreConds(first: seq<Cond>, a: Option<Cond>, b: Option<Cond>, c: Option<Cond>, e: Event)
    ensures AllHold(With(With(With(first, a), b), c), e) <==>
              AllHold(first, e) && (a.Some? ==> a.value.Holds(e)) && (b.Some? ==> b.value.Holds(e)) && (c.Some? ==> c.value.Holds(e))
  {
    OneMoreCond(first, a, e);
    OneMoreCond(With(first, a), b, e);
    OneMoreCond(With(With(first, a), b), c, e);
  }

  lemma OneMoreCond(conds: seq<Cond>, c: Option<Cond>, e: Event)
    ensures AllHold(With(conds, c), e) <==> AllHold(conds, e) && (c.Some? ==> c.value.Holds(e))
  {}

  /** The rule's filters, in the order the statement lists them. */
  function FilterConds(rule: AlertRule, first: seq<Cond>): seq<Cond> {
    ScaleConds(rule, NameConds(rule, first))
  }

  function ScaleConds(rule: AlertRule, first: seq<Cond>): seq<Cond> {
    var bySeverity := With(first, if rule.severityMin.Some? then Some(SeverityAtLeast(rule.severityMin.value)) else None);
    With(bySeverity, if 0 < |rule.tags| then Some(HasTags(rule.tags)) else None)
  }

  lemma ScaleCondsSelect(rule: AlertRule, first: seq<Cond>, e: Event)
    ensures AllHold(ScaleConds(rule, first), e) <==>
              AllHold(first, e) && HasAll(e.tags, rule.tags)
              && (rule.severityMin.Some? ==> e.severity.Some? && rule.severityMin.value <= e.severity.value)
  {}

  lemma FilterCondsSelect(rule: AlertRule, first: seq<Cond>, e: Event)
    ensures AllHold(FilterConds(rule, first), e) <==> AllHold(first, e) && Filters(rule, e)
  {
    NameCondsSelect(rule, first, e);
    ScaleCondsSelect(rule, NameConds(rule, first), e);
  }

  method AddFilters(rule: AlertRule, first: seq<Cond>) returns (conds: seq<Cond>)
    ensures conds == FilterConds(rule, first)
  {
    conds := first;
    if rule.source.Some? {
      conds := conds + [SourceIs(rule.source.value)];
    }
    if rule.eventType.Some? {
      conds := conds + [EventTypeIs(rule.eventType.value)];
    }
    if rule.action.Some? {
      conds := conds + [ActionIs(rule.action.value)];
    }
    if rule.severityMin.Some? {
      conds := conds + [SeverityAtLeast(rule.severityMin.value)];
    }
    if 0 < |rule.tags| {
      conds := conds + [HasTags(rule.tags)];
    }
  }

  class AlertRepo {
    var events: set<Event>
    var alerts: seq<Alert>

    constructor (events: set<Event>, alerts: seq<Alert>)
      ensures this.events == events && this.alerts == alerts
    {
      this.events, this.alerts := events, alerts;
    }

    /** Appends the firings it returns, in the order of their keys. A rule that groups by an unknown field changes nothing. */
    method Evaluate(rule: AlertRule, end: int) returns (fired: Result<seq<Alert>, EvaluateError>)
      modifies this`alerts
      ensures fired.Success? <==> rule.groupBy in GROUP_BY
      ensures fired.Success? ==> fired.value == Firings(rule, events, old(alerts), end)
      ensures alerts == old(alerts) + if fired.Success? then fired.value else []
    {
      var statement := Evaluation(rule, end);
      if statement.Failure? {
        return Failure(statement.error);
      }
      var inserted := Execute(statement.value, rule, end);
      alerts := alerts + inserted;
      fired := Success(inserted);
    }

    /** What the database does with the statement: count by group, and insert for the groups that fire. */
    method Execute(s: Statement, ghost rule: AlertRule, ghost end: int) returns (inserted: seq<Alert>)
      requires Means(s, rule, end)
      ensures inserted == Firings(rule, events, alerts, end)
    {
      var rows := RowsWhere(events, s.conds);
      RowsGroup(s, rule, end, events);
      var sorted := OrderBy(KeysOf(rows, s.field));
      inserted := [];
      for i := 0 to |sorted|
        invariant inserted == FiringsAmong(rule, events, alerts, end, sorted[..i])
      {
        var key := sorted[i];
        var matching := InGroup(rows, s.field, key);
        RowsCount(s, rule, end, events, key);
        assert sorted[..i + 1][..i] == sorted[..i] && key in sorted;
        if s.threshold <= |matching| && !Cooling(alerts, s.ruleId, key, s.since) && !Recorded(alerts, s.ruleId, key, s.from) {
          inserted := inserted + [Alert(s.ruleId, s.tenant, key, s.from, s.to, |matching|)];
        }
      }
      assert sorted[..|sorted|] == sorted;
    }
  }

  function RowsWhere(events: set<Event>, conds: seq<Cond>): set<Event> {
    set e | e in events && AllHold(conds, e)
  }

  function KeysOf(rows: set<Event>, field: Field): set<string> {
    set e | e in rows && FieldText(field, e).Some? :: FieldText(field, e).value
  }

  function InGroup(rows: set<Event>, field: Field, key: string): set<Event> {
    set e | e in rows && FieldText(field, e) == Some(key)
  }

  lemma RowsGroup(s: Statement, rule: AlertRule, end: int, events: set<Event>)
    requires Means(s, rule, end)
    ensures KeysOf(RowsWhere(events, s.conds), s.field) == Groups(rule, events, end - rule.Window(), end)
  {}

  lemma RowsCount(s: Statement, rule: AlertRule, end: int, events: set<Event>, key: string)
    requires Means(s, rule, end)
    ensures InGroup(RowsWhere(events, s.conds), s.field, key) == Counted(rule, events, key, end - rule.Window(), end)
  {}

  // ---------- What one evaluation records ----------

  ghost predicate IsFiring(rule: AlertRule, events: set<Event>, alerts: seq<Alert>, end: int, a: Alert) {
    Fires(rule, events, alerts, a.groupKey, end) && a == Firing(rule, events, a.groupKey, end)
  }

  /** What is recorded for keys: one firing for each that fires, each once, in order. */
  ghost predicate Exactly(rule: AlertRule, events: set<Event>, alerts: seq<Alert>, end: int, keys: seq<string>, fired: seq<Alert>) {
    && (forall i :: 0 <= i < |fired| ==> fired[i].groupKey in keys && IsFiring(rule, events, alerts, end, fired[i]))
    && (forall i, j :: 0 <= i < j < |fired| ==> Below(fired[i].groupKey, fired[j].groupKey))
    && (forall k :: k in keys && Fires(rule, events, alerts, k, end) ==> Firing(rule, events, k, end) in fired)
  }

  lemma {:induction false} FiringsAmongAre(rule: AlertRule, events: set<Event>, alerts: seq<Alert>, end: int, keys: seq<string>)
    requires Ascending(keys)
    ensures Exactly(rule, events, alerts, end, keys, FiringsAmong(rule, events, alerts, end, keys))
  {
    if keys != [] {
      var n := |keys| - 1;
      FiringsAmongAre(rule, events, alerts, end, keys[..n]);
      OneGroupMore(rule, events, alerts, end, keys[..n], keys[n], FiringsAmong(rule, events, alerts, end, keys[..n]));
      assert keys == keys[..n] + [keys[n]];
    }
  }

  lemma OneGroupMore(rule: AlertRule, events: set<Event>, alerts: seq<Alert>, end: int, keys: seq<string>, k: string, fired: seq<Alert>)
    requires Ascending(keys + [k]) && Exactly(rule, events, alerts, end, keys, fired)
    ensures Exactly(rule, events, alerts, end, keys + [k],
                    fired + if Fires(rule, events, alerts, k, end) then [Firing(rule, events, k, end)] else [])
  {
    forall i | 0 <= i < |fired|
      ensures Below(fired[i].groupKey, k)
    {
      var j :| 0 <= j < |keys| && keys[j] == fired[i].groupKey;
      assert Below((keys + [k])[j], (keys + [k])[|keys|]);
    }
  }

  /** Evaluate records one firing for each group that fires, each once, in the order of their keys. */
  lemma FiringsAre(rule: AlertRule, events: set<Event>, alerts: seq<Alert>, end: int)
    ensures var fired := Firings(rule, events, alerts, end);
            && (forall i :: 0 <= i < |fired| ==> IsFiring(rule, events, alerts, end, fired[i]))
            && (forall i, j :: 0 <= i < j < |fired| ==> Below(fired[i].groupKey, fired[j].groupKey))
            && (forall k :: Fires(rule, events, alerts, k, end) ==> Firing(rule, events, k, end) in fired)
  {
    FiringsAmongAre(rule, events, alerts, end, Ordered(Groups(rule, events, end - rule.Window(), end)));
  }

  /** Evaluating the same window again at once records nothing. */
  lemma EvaluatingAgainIsIdle(rule: AlertRule, events: set<Event>, alerts: seq<Alert>, end: int)
    ensures Firings(rule, events, alerts + Firings(rule, events, alerts, end), end) == []
  {
    var fired := Firings(rule, events, alerts, end);
    var later := alerts + fired;
    var again := Firings(rule, events, later, end);
    FiringsAre(rule, events, alerts, end);
    FiringsAre(rule, events, later, end);
    assert |again| > 0 ==> Fires(rule, events, later, again[0].groupKey, end);
    forall k
      ensures !Fires(rule, events, later, k, end)
    {
      if Fires(rule, events, alerts, k, end) {
        var i :| 0 <= i < |fired| && fired[i] == Firing(rule, events, k, end);
        assert later[|alerts| + i] == fired[i];
      } else {
        StillBlocked(alerts, fired, rule.id, k, end - rule.Cooldown(), end - rule.Window());
      }
    }
  }

  lemma StillBlocked(alerts: seq<Alert>, more: seq<Alert>, ruleId: int, key: string, since: int, from: int)
    ensures Cooling(alerts, ruleId, key, since) ==> Cooling(alerts + more, ruleId, key, since)
    ensures Recorded(alerts, ruleId, key, from) ==> Recorded(alerts + more, ruleId, key, from)
  {
    assert forall i :: 0 <= i < |alerts| ==> (alerts + more)[i] == alerts[i];
  }
}
