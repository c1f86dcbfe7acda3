/** backend/internal/alerting: which windows are evaluated, and for which rules. */
module Alerting {
  import opened Wrappers
  import opened Events
  import opened Alerts
  import opened AlertRuns
  import Jobs

  /** How often every rule is evaluated. */
  const INTERVAL: int := MINUTE
  /** How far behind the clock a window ends at the least. */
  const LAG: int := 30 * SECOND

  /** The last whole minute at least LAG ago. */
  function WindowEnd(now: int): (end: int)
    ensures end % MINUTE == 0 && end <= now - LAG < end + MINUTE
  {
    (now - LAG) / MINUTE * MINUTE
  }

  // ---------- One run over every tenant's rules ----------

  /** What goes wrong during a run: lists and evaluations that fail, and the context being done after so many tries. */
  datatype Weather = Weather(tenantsListed: bool, listed: string -> bool, evaluated: int -> bool, doneAfter: Option<nat>) {
    predicate Done(tried: nat) {
      doneAfter.Some? && doneAfter.value <= tried
    }
  }

  function RulesOf(rules: seq<AlertRule>, tenant: string): seq<AlertRule> {
    if rules == [] then []
    else (if rules[0].tenant == tenant then [rules[0]] else []) + RulesOf(rules[1..], tenant)
  }

  predicate Succeeds(rule: AlertRule, weather: Weather) {
    weather.evaluated(rule.id) && rule.groupBy in GROUP_BY
  }

  /** Of rules, those whose evaluation succeeds; how many have been tried; and whether the run goes on. */
  function TryRules(rules: seq<AlertRule>, weather: Weather, tried: nat): (seq<AlertRule>, nat, bool) {
    if rules == [] then ([], tried, true)
    else
      var first := if Succeeds(rules[0], weather) then [rules[0]] else [];
      if weather.Done(tried + 1) then (first, tried + 1, false)
      else
        var rest := TryRules(rules[1..], weather, tried + 1);
        (first + rest.0, rest.1, rest.2)
  }

  function TryTenants(tenants: seq<string>, rules: seq<AlertRule>, weather: Weather, tried: nat): seq<AlertRule> {
    if tenants == [] then []
    else if !weather.listed(tenants[0]) then
      if weather.Done(tried) then [] else TryTenants(tenants[1..], rules, weather, tried)
    else
      var (some, now, on) := TryRules(RulesOf(rules, tenants[0]), weather, tried);
      if on then some + TryTenants(tenants[1..], rules, weather, now) else some
  }

  /** The rules a run evaluates, in order. */
  function Planned(tenants: seq<string>, rules: seq<AlertRule>, weather: Weather): seq<AlertRule> {
    if weather.tenantsListed then TryTenants(tenants, rules, weather, 0) else []
  }

  function Evaluations(plan: seq<AlertRule>, events: set<Event>, end: int): (run: seq<Evaluated>)
    ensures |run| == |plan| && forall i :: 0 <= i < |plan| ==> run[i] == Evaluated(plan[i], events, end)
  {
    if plan == [] then [] else [Evaluated(plan[0], events, end)] + Evaluations(plan[1..], events, end)
  }

  /** The table once every rule of plan has been evaluated, in order. */
  ghost function EvaluateAll(alerts: seq<Alert>, plan: seq<AlertRule>, events: set<Event>, end: int): seq<Alert>
    decreases plan
  {
    if plan == [] then alerts
    else EvaluateAll(alerts + Recording(Evaluated(plan[0], events, end), alerts), plan[1..], events, end)
  }

  lemma {:induction false} EvaluateAllSplits(alerts: seq<Alert>, plan: seq<AlertRule>, more: seq<AlertRule>, events: set<Event>, end: int)
    ensures EvaluateAll(alerts, plan + more, events, end) == EvaluateAll(EvaluateAll(alerts, plan, events, end), more, events, end)
    decreases plan
  {
    if plan == [] {
      assert plan + more == more;
    } else {
      assert (plan + more)[1..] == plan[1..] + more;
      EvaluateAllSplits(alerts + Recording(Evaluated(plan[0], events, end), alerts), plan[1..], more, events, end);
    }
  }

  /** The table after rule has been tried. */
  ghost function Tried(alerts: seq<Alert>, rule: AlertRule, weather: Weather, events: set<Event>, end: int): seq<Alert> {
    if Succeeds(rule, weather) then alerts + Recording(Evaluated(rule, events, end), alerts) else alerts
  }

  lemma TryOne(alerts: seq<Alert>, rule: AlertRule, weather: Weather, rest: seq<AlertRule>, events: set<Event>, end: int)
    ensures EvaluateAll(alerts, (if Succeeds(rule, weather) then [rule] else []) + rest, events, end)
         == EvaluateAll(Tried(alerts, rule, weather, events, end), rest, events, end)
  {
    if Succeeds(rule, weather) {
      assert ([rule] + rest)[1..] == rest;
    } else {
      assert [] + rest == rest;
    }
  }

  lemma {:induction false} EvaluateAllIsTable(alerts: seq<Alert>, plan: seq<AlertRule>, events: set<Event>, end: int)
    ensures EvaluateAll(alerts, plan, events, end) == TableFrom(alerts, Evaluations(plan, events, end))
    decreases plan
  {
    if plan != [] {
      var first := Evaluated(plan[0], events, end);
      EvaluateAllIsTable(alerts + Recording(first, alerts), plan[1..], events, end);
      OneEvaluationMore(alerts, [], first);
      assert [] + [first] == [first];
      TableGoesOn(alerts, [first], Evaluations(plan[1..], events, end));
    }
  }

  class Evaluator {
    const repo: AlertRepo
    var tenants: seq<string>
    var rules: seq<AlertRule>

    constructor (repo: AlertRepo, tenants: seq<string>, rules: seq<AlertRule>)
      ensures this.repo == repo && this.tenants == tenants && this.rules == rules
    {
      this.repo, this.tenants, this.rules := repo, tenants, rules;
    }

    /** Evaluates the planned rules, all over the window that ends at WindowEnd(now). */
    method Run(now: int, weather: Weather)
      modifies repo`alerts
      ensures repo.alerts == EvaluateAll(old(repo.alerts), Planned(tenants, rules, weather), repo.events, WindowEnd(now))
    {
      var end := WindowEnd(now);
      if !weather.tenantsListed {
        return;
      }
      var tried := 0;
      for t := 0 to |tenants|
        invariant EvaluateAll(repo.alerts, TryTenants(tenants[t..], rules, weather, tried), repo.events, end)
               == EvaluateAll(old(repo.alerts), Planned(tenants, rules, weather), repo.events, end)
      {
        assert tenants[t..][1..] == tenants[t + 1..];
        if !weather.listed(tenants[t]) {
          if weather.Done(tried) {
            return;
          }
        } else {
          var own := RulesOf(rules, tenants[t]);
          var before, on := tried, true;
          EvaluateAllSplits(repo.alerts, TryRules(own, weather, before).0,
                            TryTenants(tenants[t + 1..], rules, weather, TryRules(own, weather, before).1), repo.events, end);
          tried, on := RunTenant(own, end, weather, before);
          if !on {
            return;
          }
        }
      }
    }

    method RunTenant(own: seq<AlertRule>, end: int, weather: Weather, before: nat) returns (tried: nat, on: bool)
      modifies repo`alerts
      ensures TryRules(own, weather, before).1 == tried && TryRules(own, weather, before).2 == on
      ensures repo.alerts == EvaluateAll(old(repo.alerts), TryRules(own, weather, before).0, repo.events, end)
    {
      tried := before;
      for r := 0 to |own|
        invariant EvaluateAll(repo.alerts, TryRules(own[r..], weather, tried).0, repo.events, end)
               == EvaluateAll(old(repo.alerts), TryRules(own, weather, before).0, repo.events, end)
        invariant TryRules(own[r..], weather, tried).1 == TryRules(own, weather, before).1
        invariant TryRules(own[r..], weather, tried).2 == TryRules(own, weather, before).2
      {
        assert own[r..][1..] == own[r + 1..];
        TryOne(repo.alerts, own[r], weather, TryRules(own[r + 1..], weather, tried + 1).0, repo.events, end);
        TryOne(repo.alerts, own[r], weather, [], repo.events, end);
        var _ := EvaluateOne(own[r], end, weather);
        tried := tried + 1;
        if weather.Done(tried) {
          return tried, false;
        }
      }
      on := true;
    }

    /** What fired is what the table gained. A rule that fails leaves it as it is. */
    method EvaluateOne(rule: AlertRule, end: int, weather: Weather) returns (fired: seq<Alert>)
      modifies repo`alerts
      ensures repo.alerts == Tried(old(repo.alerts), rule, weather, repo.events, end)
      ensures repo.alerts == old(repo.alerts) + fired
    {
      fired := [];
      if weather.evaluated(rule.id) {
        var r := repo.Evaluate(rule, end);
        if r.Success? {
          fired := r.value;
        }
      }
    }
  }

  // ---------- One failure does not hold up the others ----------

  lemma {:induction false} RulesOfAre(rules: seq<AlertRule>, tenant: string, rule: AlertRule)
    ensures rule in RulesOf(rules, tenant) <==> rule in rules && rule.tenant == tenant
  {
    if rules != [] {
      RulesOfAre(rules[1..], tenant, rule);
      assert rules == [rules[0]] + rules[1..];
    }
  }

  lemma {:induction false} TryRulesAre(rules: seq<AlertRule>, weather: Weather, tried: nat, rule: AlertRule)
    requires weather.doneAfter.None?
    ensures TryRules(rules, weather, tried).2
    ensures rule in TryRules(rules, weather, tried).0 <==> rule in rules && Succeeds(rule, weather)
  {
    if rules != [] {
      TryRulesAre(rules[1..], weather, tried + 1, rule);
      assert rules == [rules[0]] + rules[1..];
    }
  }

  lemma {:induction false} TryTenantsAre(tenants: seq<string>, rules: seq<AlertRule>, weather: Weather, tried: nat, rule: AlertRule)
    requires weather.doneAfter.None?
    ensures rule in TryTenants(tenants, rules, weather, tried) <==>
              rule in rules && rule.tenant in tenants && weather.listed(rule.tenant) && Succeeds(rule, weather)
  {
    if tenants != [] {
      assert tenants == [tenants[0]] + tenants[1..];
      if weather.listed(tenants[0]) {
        var own := RulesOf(rules, tenants[0]);
        RulesOfAre(rules, tenants[0], rule);
        TryRulesAre(own, weather, tried, rule);
        TryTenantsAre(tenants[1..], rules, weather, TryRules(own, weather, tried).1, rule);
      } else {
        TryTenantsAre(tenants[1..], rules, weather, tried, rule);
      }
    }
  }

  /** Unless the run is stopped, every rule is evaluated but those that fail, and those of tenants whose rules cannot be listed. */
  lemma OthersAreEvaluated(tenants: seq<string>, rules: seq<AlertRule>, weather: Weather, rule: AlertRule)
    requires weather.tenantsListed && weather.doneAfter.None?
    ensures rule in Planned(tenants, rules, weather) <==>
              rule in rules && rule.tenant in tenants && weather.listed(rule.tenant) && Succeeds(rule, weather)
  {
    TryTenantsAre(tenants, rules, weather, 0, rule);
  }

  // ---------- Detection ----------

  /** A run of the evaluator: when it started, how long it took, what there was to evaluate and what went wrong. */
  datatype Tick = Tick(now: int, length: nat, tenants: seq<string>, rules: seq<AlertRule>, weather: Weather, events: set<Event>) {
    function End(): int { now + length }
  }

  /** What it evaluated. */
  function RunOf(t: Tick): seq<Evaluated> {
    Evaluations(Planned(t.tenants, t.rules, t.weather), t.events, WindowEnd(t.now))
  }

  /** Runs do not overlap, and start at most a minute apart. */
  ghost predicate Ticking(ticks: seq<Tick>) {
    forall i :: 0 <= i < |ticks| - 1 ==> ticks[i].End() <= ticks[i + 1].now <= ticks[i].now + INTERVAL
  }

  function History(ticks: seq<Tick>): seq<Evaluated> {
    if ticks == [] then [] else History(ticks[..|ticks| - 1]) + RunOf(ticks[|ticks| - 1])
  }

  lemma OneRunMore(ticks: seq<Tick>, i: nat)
    requires i < |ticks|
    ensures Table(History(ticks[..i + 1])) == TableFrom(Table(History(ticks[..i])), RunOf(ticks[i]))
  {
    assert ticks[..i + 1][..i] == ticks[..i];
    TableGoesOn([], History(ticks[..i]), RunOf(ticks[i]));
  }

  /** A run takes the table of those before it to the one Evaluator.Run leaves. */
  lemma HistoryIsRuns(ticks: seq<Tick>, i: nat)
    requires i < |ticks|
    ensures Table(History(ticks[..i + 1])) ==
            EvaluateAll(Table(History(ticks[..i])), Planned(ticks[i].tenants, ticks[i].rules, ticks[i].weather), ticks[i].events, WindowEnd(ticks[i].now))
  {
    OneRunMore(ticks, i);
    EvaluateAllIsTable(Table(History(ticks[..i])), Planned(ticks[i].tenants, ticks[i].rules, ticks[i].weather), ticks[i].events, WindowEnd(ticks[i].now));
  }

  /** How many of the runs have ended by t. */
  function Ended(ticks: seq<Tick>, t: int): (n: nat)
    ensures n <= |ticks|
  {
    if ticks == [] then 0
    else if ticks[|ticks| - 1].End() <= t then |ticks|
    else Ended(ticks[..|ticks| - 1], t)
  }

  /** The table that the runs that have ended by t leave. */
  ghost function TableAt(ticks: seq<Tick>, t: int): seq<Alert> {
    Table(History(ticks[..Ended(ticks, t)]))
  }

  lemma {:induction false} EndedBy(ticks: seq<Tick>, t: int, i: nat)
    requires i < |ticks| && ticks[i].End() <= t
    ensures i < Ended(ticks, t)
    decreases |ticks|
  {
    if t < ticks[|ticks| - 1].End() {
      EndedBy(ticks[..|ticks| - 1], t, i);
    }
  }

  lemma OneRunGrows(ticks: seq<Tick>, i: nat)
    requires i < |ticks|
    ensures Table(History(ticks[..i])) <= Table(History(ticks[..i + 1]))
  {
    OneRunMore(ticks, i);
    TableGrows(Table(History(ticks[..i])), RunOf(ticks[i]));
  }

  lemma Prefixes(a: seq<Alert>, b: seq<Alert>, c: seq<Alert>)
    requires a <= b && b <= c
    ensures a <= c
  {}

  lemma {:induction false} HistoryGrows(ticks: seq<Tick>, i: nat, n: nat)
    requires i <= n <= |ticks|
    ensures Table(History(ticks[..i])) <= Table(History(ticks[..n]))
    decreases n
  {
    if i < n {
      HistoryGrows(ticks, i, n - 1);
      OneRunGrows(ticks, n - 1);
      Prefixes(Table(History(ticks[..i])), Table(History(ticks[..n - 1])), Table(History(ticks[..n])));
    }
  }

  /** Matching events of one group, from first to last. */
  ghost predicate Burst(rule: AlertRule, key: string, burst: set<Event>, first: int, last: int) {
    && rule.threshold <= |burst| && burst != {}
    && forall e :: e in burst ==> Concerns(rule, e) && FieldText(rule.groupBy, e) == Some(key) && first <= e.ts <= last
  }

  /** The group has a firing for the window ending at end, or one whose cooldown covers it. */
  ghost predicate Answered(alerts: seq<Alert>, rule: AlertRule, key: string, end: int) {
    exists i :: 0 <= i < |alerts| && alerts[i].ruleId == rule.id && alerts[i].groupKey == key
             && (alerts[i].windowStart == end - rule.Window() || end - rule.Cooldown() < alerts[i].windowEnd)
  }

  /** The end of the first window that can hold an event at t. */
  function EndAfter(t: int): (end: int)
    ensures end % MINUTE == 0 && t < end <= t + MINUTE
  {
    (t / MINUTE + 1) * MINUTE
  }

  lemma OneWindowEnd(now: int, end: int)
    requires end % MINUTE == 0 && end + LAG <= now < end + LAG + MINUTE
    ensures WindowEnd(now) == end
  {}

  /** Among ticks no more than a minute apart, one evaluates any window that ends while they go on. */
  lemma {:induction false} SomeTick(ticks: seq<Tick>, end: int) returns (i: nat)
    requires Ticking(ticks) && ticks != [] && end % MINUTE == 0
    requires ticks[0].now < end + LAG + MINUTE && end + LAG <= ticks[|ticks| - 1].now
    ensures i < |ticks| && WindowEnd(ticks[i].now) == end && end + LAG <= ticks[i].now < end + LAG + MINUTE
  {
    var n := |ticks| - 1;
    if ticks[n].now < end + LAG + MINUTE {
      i := n;
    } else {
      i := SomeTick(ticks[..n], end);
    }
    OneWindowEnd(ticks[i].now, end);
  }

  lemma EvaluationAnswers(e: Evaluated, alerts: seq<Alert>, key: string, burst: set<Event>, first: int, last: int)
    requires Burst(e.rule, key, burst, first, last) && burst <= e.events
    requires e.end - e.rule.Window() <= first && last < e.end
    ensures burst <= Counted(e.rule, e.events, key, e.end - e.rule.Window(), e.end)
    ensures Answered(alerts + Recording(e, alerts), e.rule, key, e.end)
  {
    var from := e.end - e.rule.Window();
    var counted := Counted(e.rule, e.events, key, from, e.end);
    var fired := Recording(e, alerts);
    assert burst <= counted;
    Smaller(burst, counted);
    var some :| some in burst;
    assert key in Groups(e.rule, e.events, from, e.end);
    FiringsAre(e.rule, e.events, alerts, e.end);
    if Fires(e.rule, e.events, alerts, key, e.end) {
      var i :| 0 <= i < |fired| && fired[i] == Firing(e.rule, e.events, key, e.end);
      assert (alerts + fired)[|alerts| + i] == fired[i];
    } else {
      var i :| 0 <= i < |alerts| && alerts[i].ruleId == e.rule.id && alerts[i].groupKey == key
            && (alerts[i].windowStart == from || e.end - e.rule.Cooldown() < alerts[i].windowEnd);
      assert (alerts + fired)[i] == alerts[i];
    }
  }

  lemma StillAnswered(alerts: seq<Alert>, later: seq<Alert>, rule: AlertRule, key: string, end: int)
    requires alerts <= later && Answered(alerts, rule, key, end)
    ensures Answered(later, rule, key, end)
  {
    var i :| 0 <= i < |alerts| && alerts[i].ruleId == rule.id && alerts[i].groupKey == key
          && (alerts[i].windowStart == end - rule.Window() || end - rule.Cooldown() < alerts[i].windowEnd);
    assert later[i] == alerts[i];
  }

  /** Nothing keeps the run from the rule, and the burst is stored. */
  ghost predicate Reaches(t: Tick, rule: AlertRule, burst: set<Event>) {
    && t.weather.tenantsListed && t.weather.doneAfter.None?
    && rule in t.rules && rule.tenant in t.tenants && t.weather.listed(rule.tenant) && Succeeds(rule, t.weather)
    && burst <= t.events
  }

  lemma ReachedIsEvaluated(t: Tick, rule: AlertRule, burst: set<Event>) returns (j: nat)
    requires Reaches(t, rule, burst)
    ensures j < |RunOf(t)| && RunOf(t)[j] == Evaluated(rule, t.events, WindowEnd(t.now))
  {
    var plan := Planned(t.tenants, t.rules, t.weather);
    OthersAreEvaluated(t.tenants, t.rules, t.weather, rule);
    j :| 0 <= j < |plan| && plan[j] == rule;
  }

  lemma RecordedStays(alerts: seq<Alert>, run: seq<Evaluated>, j: nat)
    requires j < |run|
    ensures TableFrom(alerts, run[..j]) + Recording(run[j], TableFrom(alerts, run[..j])) <= TableFrom(alerts, run)
  {
    OneEvaluationMore(alerts, run[..j], run[j]);
    assert run[..j] + [run[j]] == run[..j + 1] && run == run[..j + 1] + run[j + 1..];
    TableGoesOn(alerts, run[..j + 1], run[j + 1..]);
    TableGrows(TableFrom(alerts, run[..j + 1]), run[j + 1..]);
  }

  lemma RunAnswers(alerts: seq<Alert>, run: seq<Evaluated>, j: nat, key: string, burst: set<Event>, first: int, last: int)
    requires j < |run| && Burst(run[j].rule, key, burst, first, last) && burst <= run[j].events
    requires run[j].end - run[j].rule.Window() <= first && last < run[j].end
    ensures Answered(TableFrom(alerts, run), run[j].rule, key, run[j].end)
  {
    var before := TableFrom(alerts, run[..j]);
    EvaluationAnswers(run[j], before, key, burst, first, last);
    RecordedStays(alerts, run, j);
    StillAnswered(before + Recording(run[j], before), TableFrom(alerts, run), run[j].rule, key, run[j].end);
  }

  lemma TickAnswers(ticks: seq<Tick>, i: nat, rule: AlertRule, key: string, burst: set<Event>, first: int, last: int)
    requires i < |ticks| && Burst(rule, key, burst, first, last) && Reaches(ticks[i], rule, burst)
    requires WindowEnd(ticks[i].now) - rule.Window() <= first && last < WindowEnd(ticks[i].now)
    ensures Answered(Table(History(ticks[..i + 1])), rule, key, WindowEnd(ticks[i].now))
  {
    var before, run := History(ticks[..i]), RunOf(ticks[i]);
    var j := ReachedIsEvaluated(ticks[i], rule, burst);
    OneRunMore(ticks, i);
    RunAnswers(Table(before), run, j, key, burst, first, last);
  }

  lemma AnsweredFromThen(ticks: seq<Tick>, i: nat, rule: AlertRule, key: string, end: int, t: int)
    requires i < |ticks| && ticks[i].End() <= t && Answered(Table(History(ticks[..i + 1])), rule, key, end)
    ensures Answered(TableAt(ticks, t), rule, key, end)
  {
    EndedBy(ticks, t, i);
    HistoryGrows(ticks, i + 1, Ended(ticks, t));
    StillAnswered(Table(History(ticks[..i + 1])), TableAt(ticks, t), rule, key, end);
  }

  /**
   * A burst that spans at most the window less a minute lies wholly in the
   * window of some run that starts within two and a half minutes of its last
   * event. From the end of that run on, the group has a firing for the window
   * or one whose cooldown covers it. The burst need only be stored, and the
   * rule within reach, when runs start from LAG after its last event on.
   */
  lemma Detected(ticks: seq<Tick>, rule: AlertRule, key: string, burst: set<Event>, first: int, last: int) returns (i: nat)
    requires Ticking(ticks) && ticks != [] && ticks[0].now <= last + LAG + MINUTE && last + 150 * SECOND <= ticks[|ticks| - 1].now
    requires Burst(rule, key, burst, first, last) && last - first <= rule.Window() - MINUTE
    requires forall k :: 0 <= k < |ticks| && last + LAG < ticks[k].now < last + 150 * SECOND ==> Reaches(ticks[k], rule, burst)
    ensures i < |ticks| && last + LAG < ticks[i].now < last + 150 * SECOND
    ensures var end := WindowEnd(ticks[i].now);
            && end - rule.Window() <= first && last < end
            && forall t :: ticks[i].End() <= t ==> Answered(TableAt(ticks, t), rule, key, end)
  {
    i := SomeTick(ticks, EndAfter(last));
    TickAnswers(ticks, i, rule, key, burst, first, last);
    forall t | ticks[i].End() <= t
      ensures Answered(TableAt(ticks, t), rule, key, WindowEnd(ticks[i].now))
    {
      AnsweredFromThen(ticks, i, rule, key, WindowEnd(ticks[i].now), t);
    }
  }

  /** The two and a half minutes are to the start of the run, and a run may start that late. */
  lemma StartsThatLate(last: int)
    requires last % MINUTE == 0
    ensures var now := last + LAG + MINUTE - 1; WindowEnd(now) <= last && now + INTERVAL == last + 150 * SECOND - 1
  {
    OneWindowEnd(last + LAG + MINUTE - 1, last);
  }

  /** ticks are the runs of the job loop, which was created then, of the lengths given. */
  ghost predicate OfLoop(ticks: seq<Tick>, created: int, lengths: seq<nat>) {
    && |ticks| == |lengths|
    && forall i :: 0 <= i < |ticks| ==> ticks[i].now == Jobs.Starts(created, INTERVAL, lengths)[i] && ticks[i].length == lengths[i] <= INTERVAL
  }

  /** The loop's runs come often enough, as long as none takes more than a minute. */
  lemma LoopTicks(ticks: seq<Tick>, created: int, lengths: seq<nat>)
    requires OfLoop(ticks, created, lengths)
    ensures Ticking(ticks)
  {
    forall i | 0 <= i < |ticks| - 1
      ensures ticks[i].End() <= ticks[i + 1].now <= ticks[i].now + INTERVAL
    {
      Jobs.StartsBounded(created, INTERVAL, lengths, i);
    }
  }

  /** So in the loop a burst is answered for from three and a half minutes after its last event on, whatever the runs' lengths up to a minute. */
  lemma LoopDetects(ticks: seq<Tick>, created: int, lengths: seq<nat>, rule: AlertRule, key: string, burst: set<Event>, first: int, last: int)
    returns (end: int)
    requires OfLoop(ticks, created, lengths)
    requires ticks != [] && ticks[0].now <= last + LAG + MINUTE && last + 150 * SECOND <= ticks[|ticks| - 1].now
    requires Burst(rule, key, burst, first, last) && last - first <= rule.Window() - MINUTE
    requires forall k :: 0 <= k < |ticks| && last + LAG < ticks[k].now < last + 150 * SECOND ==> Reaches(ticks[k], rule, burst)
    ensures end % MINUTE == 0 && end - rule.Window() <= first && last < end
    ensures forall t :: last + 150 * SECOND + INTERVAL <= t ==> Answered(TableAt(ticks, t), rule, key, end)
  {
    LoopTicks(ticks, created, lengths);
    var i := Detected(ticks, rule, key, burst, first, last);
    end := WindowEnd(ticks[i].now);
  }

  // ---------- The bound is exact ----------

  ghost predicate Holds(window: int, now: int, first: int, span: int) {
    WindowEnd(now) - window <= first && first + span < WindowEnd(now)
  }

  ghost predicate SomeHolds(window: int, first: int, span: int) {
    exists now :: Holds(window, now, first, span)
  }

  /** From any moment on, every burst of a span is held by some window just when it is at most the window less a minute. */
  lemma SpanThatFits(window: int, span: int, from: int)
    requires window % MINUTE == 0
    ensures (forall first :: from <= first ==> SomeHolds(window, first, span)) <==> span <= window - MINUTE
  {
    if span <= window - MINUTE {
      forall first
        ensures SomeHolds(window, first, span)
      {
        var end := EndAfter(first + span);
        OneWindowEnd(end + LAG, end);
        assert Holds(window, end + LAG, first, span);
      }
    } else {
      var last := EndAfter(from + span);
      var first := last - span;
      forall now
        ensures !Holds(window, now, first, span)
      {
        NextMinute(WindowEnd(now), last);
      }
      assert !SomeHolds(window, first, span);
    }
  }

  lemma NextMinute(end: int, last: int)
    requires end % MINUTE == 0 && last % MINUTE == 0
    ensures last < end ==> last + MINUTE <= end
  {}
}
