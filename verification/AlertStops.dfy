/** Which rules a run of the evaluator evaluates, and in which order, whether it is stopped or not. */
module AlertStops {
  import opened Wrappers
  import opened Events
  import opened Alerts
  import opened Alerting

  /** One tenant's rules, in their order. */
  function Of(rules: seq<AlertRule>, tenant: string): seq<AlertRule> {
    if rules == [] then []
    else if rules[0].tenant == tenant then [rules[0]] + Of(rules[1..], tenant)
    else Of(rules[1..], tenant)
  }

  /** The rules in the order of their turns: tenant by tenant, without those of tenants whose rules cannot be listed. */
  function Turns(tenants: seq<string>, rules: seq<AlertRule>, weather: Weather): seq<AlertRule> {
    if tenants == [] then []
    else (if weather.listed(tenants[0]) then Of(rules, tenants[0]) else []) + Turns(tenants[1..], rules, weather)
  }

  predicate Works(rule: AlertRule, weather: Weather) {
    weather.evaluated(rule.id) && rule.groupBy != EventTypeField
  }

  lemma SucceedsIs(rule: AlertRule, weather: Weather)
    ensures Succeeds(rule, weather) <==> Works(rule, weather)
  {
    assert rule.groupBy in GROUP_BY <==> rule.groupBy != EventTypeField;
  }

  /** Those whose evaluation does not fail. */
  function Working(turns: seq<AlertRule>, weather: Weather): seq<AlertRule> {
    if turns == [] then []
    else if Works(turns[0], weather) then [turns[0]] + Working(turns[1..], weather)
    else Working(turns[1..], weather)
  }

  /** The tenants before the first whose rules cannot be listed. */
  function Listed(tenants: seq<string>, weather: Weather): seq<string> {
    if tenants == [] || !weather.listed(tenants[0]) then [] else [tenants[0]] + Listed(tenants[1..], weather)
  }

  function First(turns: seq<AlertRule>, n: nat): seq<AlertRule> {
    if |turns| <= n then turns else turns[..n]
  }

  lemma {:induction false} RulesAre(rules: seq<AlertRule>, tenant: string)
    ensures RulesOf(rules, tenant) == Of(rules, tenant)
  {
    if rules != [] {
      RulesAre(rules[1..], tenant);
    }
  }

  lemma {:induction false} WorkingJoins(a: seq<AlertRule>, b: seq<AlertRule>, weather: Weather)
    ensures Working(a + b, weather) == Working(a, weather) + Working(b, weather)
  {
    if a == [] {
      assert a + b == b;
    } else {
      assert (a + b)[1..] == a[1..] + b;
      WorkingJoins(a[1..], b, weather);
    }
  }

  lemma FirstGoesOn(a: seq<AlertRule>, b: seq<AlertRule>, n: nat)
    ensures |a| < n ==> First(a + b, n) == a + First(b, n - |a|)
    ensures n <= |a| ==> First(a + b, n) == First(a, n)
  {}

  lemma FirstOfMore(turns: seq<AlertRule>, n: nat)
    requires turns != [] && 1 <= n
    ensures First(turns, n) == [turns[0]] + First(turns[1..], n - 1)
  {}

  /** A tenant's rules are tried until the run is done, which is after n of them. */
  lemma {:induction false} TriedUntil(turns: seq<AlertRule>, weather: Weather, tried: nat, n: nat)
    requires weather.doneAfter == Some(tried + n) && 1 <= n
    ensures TryRules(turns, weather, tried) ==
            (Working(First(turns, n), weather), tried + if |turns| < n then |turns| else n, |turns| < n)
    decreases |turns|
  {
    if turns != [] {
      SucceedsIs(turns[0], weather);
      FirstOfMore(turns, n);
      assert First(turns, n)[1..] == First(turns[1..], n - 1);
      if 1 < n {
        TriedUntil(turns[1..], weather, tried + 1, n - 1);
        assert [] + Working(First(turns[1..], n - 1), weather) == Working(First(turns[1..], n - 1), weather);
      } else {
        assert First(turns, n) == [turns[0]] && Working([], weather) == [];
      }
    }
  }

  lemma {:induction false} AllTried(turns: seq<AlertRule>, weather: Weather, tried: nat)
    requires weather.doneAfter.None?
    ensures TryRules(turns, weather, tried) == (Working(turns, weather), tried + |turns|, true)
    decreases |turns|
  {
    if turns != [] {
      SucceedsIs(turns[0], weather);
      AllTried(turns[1..], weather, tried + 1);
      assert [] + Working(turns[1..], weather) == Working(turns[1..], weather);
    }
  }

  lemma {:induction false} StopsAfter(tenants: seq<string>, rules: seq<AlertRule>, weather: Weather, tried: nat, n: nat)
    requires weather.doneAfter == Some(tried + n) && 1 <= n
    ensures TryTenants(tenants, rules, weather, tried) == Working(First(Turns(tenants, rules, weather), n), weather)
    decreases |tenants|
  {
    if tenants != [] {
      var own, more := Of(rules, tenants[0]), Turns(tenants[1..], rules, weather);
      if weather.listed(tenants[0]) {
        RulesAre(rules, tenants[0]);
        TriedUntil(own, weather, tried, n);
        FirstGoesOn(own, more, n);
        if |own| < n {
          StopsAfter(tenants[1..], rules, weather, tried + |own|, n - |own|);
          WorkingJoins(own, First(more, n - |own|), weather);
        }
      } else {
        assert [] + more == more;
        StopsAfter(tenants[1..], rules, weather, tried, n);
      }
    }
  }

  lemma {:induction false} GoesOn(tenants: seq<string>, rules: seq<AlertRule>, weather: Weather, tried: nat)
    requires weather.doneAfter.None?
    ensures TryTenants(tenants, rules, weather, tried) == Working(Turns(tenants, rules, weather), weather)
    decreases |tenants|
  {
    if tenants != [] {
      var own, more := Of(rules, tenants[0]), Turns(tenants[1..], rules, weather);
      if weather.listed(tenants[0]) {
        RulesAre(rules, tenants[0]);
        AllTried(own, weather, tried);
        GoesOn(tenants[1..], rules, weather, tried + |own|);
        WorkingJoins(own, more, weather);
      } else {
        assert [] + more == more;
        GoesOn(tenants[1..], rules, weather, tried);
      }
    }
  }

  lemma {:induction false} StopsAtOnce(tenants: seq<string>, rules: seq<AlertRule>, weather: Weather)
    requires weather.doneAfter == Some(0)
    ensures TryTenants(tenants, rules, weather, 0) == Working(First(Turns(Listed(tenants, weather), rules, weather), 1), weather)
    decreases |tenants|
  {
    if tenants != [] && weather.listed(tenants[0]) {
      var own, more := Of(rules, tenants[0]), Turns(Listed(tenants[1..], weather), rules, weather);
      assert Listed(tenants, weather)[1..] == Listed(tenants[1..], weather);
      assert Turns(Listed(tenants, weather), rules, weather) == own + more;
      RulesAre(rules, tenants[0]);
      if own == [] {
        assert own + more == more;
        StopsAtOnce(tenants[1..], rules, weather);
      } else {
        FirstGoesOn(own, more, 1);
        SucceedsIs(own[0], weather);
        assert First(own, 1) == [own[0]];
      }
    }
  }

  /**
   * A run evaluates the rules in their turns, passing over those that fail. One
   * stopped after n attempts has evaluated just those of the first n turns. One
   * stopped from the start still gets to its first turn, unless some tenant's
   * rules cannot be listed before it.
   */
  lemma EvaluatedInTurn(tenants: seq<string>, rules: seq<AlertRule>, weather: Weather)
    ensures var turns := Turns(tenants, rules, weather);
            Planned(tenants, rules, weather) ==
            if !weather.tenantsListed then []
            else if weather.doneAfter == None then Working(turns, weather)
            else if weather.doneAfter == Some(0) then Working(First(Turns(Listed(tenants, weather), rules, weather), 1), weather)
            else Working(First(turns, weather.doneAfter.value), weather)
  {
    match weather.doneAfter
    case None => GoesOn(tenants, rules, weather, 0);
    case Some(n) => if n == 0 { StopsAtOnce(tenants, rules, weather); } else { StopsAfter(tenants, rules, weather, 0, n); }
  }
}
