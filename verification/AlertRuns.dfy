/**
 * The alerts table over whole runs: any rules evaluated in any order, over
 * windows ending in any order and repeated, with events stored and purged in
 * between.
 */
module AlertRuns {
  import opened Wrappers
  import opened Texts
  import opened Events
  import opened Alerts

  /** One evaluation, and the events stored at the time. */
  datatype Evaluated = Evaluated(rule: AlertRule, events: set<Event>, end: int)

  ghost function Recording(e: Evaluated, alerts: seq<Alert>): seq<Alert> {
    Firings(e.rule, e.events, alerts, e.end)
  }

  /** The table after a run that started with it empty. */
  ghost function Table(run: seq<Evaluated>): seq<Alert> {
    TableFrom([], run)
  }

  ghost function TableFrom(alerts: seq<Alert>, run: seq<Evaluated>): seq<Alert> {
    if run == [] then alerts
    else
      var before := TableFrom(alerts, run[..|run| - 1]);
      before + Recording(run[|run| - 1], before)
  }

  lemma OneEvaluationMore(alerts: seq<Alert>, run: seq<Evaluated>, e: Evaluated)
    ensures TableFrom(alerts, run + [e]) == TableFrom(alerts, run) + Recording(e, TableFrom(alerts, run))
  {
    assert (run + [e])[..|run|] == run;
  }

  lemma {:induction false} TableGoesOn(alerts: seq<Alert>, run: seq<Evaluated>, more: seq<Evaluated>)
    ensures TableFrom(alerts, run + more) == TableFrom(TableFrom(alerts, run), more)
  {
    if more == [] {
      assert run + more == run;
    } else {
      var n := |more| - 1;
      TableGoesOn(alerts, run, more[..n]);
      assert (run + more)[..|run + more| - 1] == run + more[..n];
    }
  }

  lemma {:induction false} TableGrows(alerts: seq<Alert>, run: seq<Evaluated>)
    ensures alerts <= TableFrom(alerts, run)
  {
    if run != [] {
      TableGrows(alerts, run[..|run| - 1]);
    }
  }

  /** Rules can be created and read, not changed. */
  ghost predicate Unchanging(run: seq<Evaluated>, rule: AlertRule) {
    forall i :: 0 <= i < |run| && run[i].rule.id == rule.id ==> run[i].rule == rule
  }

  // ---------- How far apart firings are ----------

  ghost predicate Apart(rule: AlertRule, a: Alert, b: Alert) {
    a.windowStart != b.windowStart && a.windowEnd + rule.Cooldown() <= b.windowEnd
  }

  /** Two firings of one rule and group never share a window, and the later ends at least the cooldown after the earlier. */
  lemma {:induction false} FiringsApart(run: seq<Evaluated>, rule: AlertRule, i: nat, j: nat)
    requires Unchanging(run, rule) && i < j < |Table(run)|
    requires Table(run)[i].ruleId == Table(run)[j].ruleId == rule.id && Table(run)[i].groupKey == Table(run)[j].groupKey
    ensures Apart(rule, Table(run)[i], Table(run)[j])
  {
    var n := |run| - 1;
    var before, last := Table(run[..n]), run[n];
    var fired := Recording(last, before);
    FiringsAre(last.rule, last.events, before, last.end);
    if j < |before| {
      FiringsApart(run[..n], rule, i, j);
    } else {
      var b := fired[j - |before|];
      assert Fires(last.rule, last.events, before, b.groupKey, last.end);
      if i < |before| {
        assert before[i].groupKey == b.groupKey;
      } else {
        assert Below(fired[i - |before|].groupKey, b.groupKey);
        Trichotomy(b.groupKey, b.groupKey);
        assert false;
      }
    }
  }

  // ---------- What firings count ----------

  function CountedBy(e: Evaluated, a: Alert): set<Event> {
    Counted(e.rule, e.events, a.groupKey, a.windowStart, a.windowEnd)
  }

  /** Beside each firing, the events it counted. */
  ghost function Counts(run: seq<Evaluated>): (sets: seq<set<Event>>)
    ensures |sets| == |Table(run)|
  {
    if run == [] then []
    else
      var n := |run| - 1;
      Counts(run[..n]) + SetsOf(run[n], Recording(run[n], Table(run[..n])))
  }

  ghost function SetsOf(e: Evaluated, fired: seq<Alert>): (sets: seq<set<Event>>)
    ensures |sets| == |fired| && forall i :: 0 <= i < |fired| ==> sets[i] == CountedBy(e, fired[i])
  {
    seq(|fired|, i requires 0 <= i < |fired| => CountedBy(e, fired[i]))
  }

  /** Each firing records how many events it counted: its rule's, of its group, within its window, stored at the time. */
  lemma {:induction false} CountsAre(run: seq<Evaluated>, rule: AlertRule, ever: set<Event>, i: nat)
    requires Unchanging(run, rule) && i < |Table(run)| && Table(run)[i].ruleId == rule.id
    requires forall k :: 0 <= k < |run| ==> run[k].events <= ever
    ensures var a := Table(run)[i];
            && a.windowStart == a.windowEnd - rule.Window()
            && a.matched == |Counts(run)[i]| && rule.threshold <= a.matched
            && Counts(run)[i] <= Counted(rule, ever, a.groupKey, a.windowStart, a.windowEnd)
  {
    var n := |run| - 1;
    var before, last := Table(run[..n]), run[n];
    if i < |before| {
      CountsAre(run[..n], rule, ever, i);
    } else {
      LastCountsAre(last, before, ever, i - |before|);
      assert Table(run) == before + Recording(last, before);
      assert Counts(run) == Counts(run[..n]) + SetsOf(last, Recording(last, before));
    }
  }

  lemma LastCountsAre(last: Evaluated, before: seq<Alert>, ever: set<Event>, k: nat)
    requires k < |Recording(last, before)| && last.events <= ever
    ensures var a := Recording(last, before)[k];
            && a.ruleId == last.rule.id && a.windowStart == a.windowEnd - last.rule.Window()
            && a.matched == |CountedBy(last, a)| && last.rule.threshold <= a.matched
            && CountedBy(last, a) <= Counted(last.rule, ever, a.groupKey, a.windowStart, a.windowEnd)
  {
    FiringsAre(last.rule, last.events, before, last.end);
    assert IsFiring(last.rule, last.events, before, last.end, Recording(last, before)[k]);
  }

  /** With a cooldown as long as the window, which is the default, no event is counted by two firings of a rule. */
  lemma CountedOnce(run: seq<Evaluated>, rule: AlertRule, ever: set<Event>, i: nat, j: nat)
    requires Unchanging(run, rule) && rule.Window() <= rule.Cooldown() && i < j < |Table(run)|
    requires Table(run)[i].ruleId == Table(run)[j].ruleId == rule.id
    requires forall k :: 0 <= k < |run| ==> run[k].events <= ever
    ensures Counts(run)[i] !! Counts(run)[j]
  {
    CountsAre(run, rule, ever, i);
    CountsAre(run, rule, ever, j);
    var a, b := Table(run)[i], Table(run)[j];
    forall e | e in Counts(run)[i] && e in Counts(run)[j]
      ensures false
    {
      assert e in Counted(rule, ever, a.groupKey, a.windowStart, a.windowEnd);
      assert e in Counted(rule, ever, b.groupKey, b.windowStart, b.windowEnd);
      FiringsApart(run, rule, i, j);
    }
  }

  /** The rule's first n firings' recorded counts, added up. */
  ghost function Matched(table: seq<Alert>, ruleId: int, n: nat): int
    requires n <= |table|
  {
    if n == 0 then 0
    else Matched(table, ruleId, n - 1) + if table[n - 1].ruleId == ruleId then table[n - 1].matched else 0
  }

  ghost function Covered(table: seq<Alert>, sets: seq<set<Event>>, ruleId: int, n: nat): set<Event>
    requires n <= |table| == |sets|
  {
    if n == 0 then {}
    else Covered(table, sets, ruleId, n - 1) + if table[n - 1].ruleId == ruleId then sets[n - 1] else {}
  }

  lemma {:induction false} CoveredIs(table: seq<Alert>, sets: seq<set<Event>>, ruleId: int, n: nat, e: Event)
    requires n <= |table| == |sets|
    ensures e in Covered(table, sets, ruleId, n) <==> exists i :: 0 <= i < n && table[i].ruleId == ruleId && e in sets[i]
  {
    if n > 0 {
      CoveredIs(table, sets, ruleId, n - 1, e);
    }
  }

  /** Each of the rule's firings recorded the size of its set, and the sets have nothing in common. */
  ghost predicate Tallies(table: seq<Alert>, sets: seq<set<Event>>, ruleId: int) {
    && |table| == |sets|
    && (forall i :: 0 <= i < |table| && table[i].ruleId == ruleId ==> table[i].matched == |sets[i]|)
    && (forall i, j :: 0 <= i < j < |table| && table[i].ruleId == table[j].ruleId == ruleId ==> sets[i] !! sets[j])
  }

  lemma RunTallies(run: seq<Evaluated>, rule: AlertRule, ever: set<Event>)
    requires Unchanging(run, rule) && rule.Window() <= rule.Cooldown()
    requires forall k :: 0 <= k < |run| ==> run[k].events <= ever
    ensures Tallies(Table(run), Counts(run), rule.id)
  {
    var table, sets := Table(run), Counts(run);
    forall i | 0 <= i < |table| && table[i].ruleId == rule.id
      ensures table[i].matched == |sets[i]|
    {
      CountsAre(run, rule, ever, i);
    }
    forall i, j | 0 <= i < j < |table| && table[i].ruleId == table[j].ruleId == rule.id
      ensures sets[i] !! sets[j]
    {
      CountedOnce(run, rule, ever, i, j);
    }
  }

  lemma {:induction false} MatchedIsCovered(table: seq<Alert>, sets: seq<set<Event>>, ruleId: int, n: nat)
    requires Tallies(table, sets, ruleId) && n <= |table|
    ensures Matched(table, ruleId, n) == |Covered(table, sets, ruleId, n)|
  {
    if n > 0 {
      MatchedIsCovered(table, sets, ruleId, n - 1);
      if table[n - 1].ruleId == ruleId {
        var earlier, latest := Covered(table, sets, ruleId, n - 1), sets[n - 1];
        forall e | e in latest
          ensures e !in earlier
        {
          CoveredIs(table, sets, ruleId, n - 1, e);
        }
        assert earlier !! latest;
      }
    }
  }

  /** Everything that could have been counted: the rule's events that have a group. */
  ghost function Countable(rule: AlertRule, ever: set<Event>): set<Event> {
    set e | e in ever && Concerns(rule, e) && FieldText(rule.groupBy, e).Some?
  }

  /** What the firings of a rule record adds up to no more than the events there ever were to count. */
  lemma MatchedBounded(run: seq<Evaluated>, rule: AlertRule, ever: set<Event>)
    requires Unchanging(run, rule) && rule.Window() <= rule.Cooldown()
    requires forall k :: 0 <= k < |run| ==> run[k].events <= ever
    ensures Matched(Table(run), rule.id, |Table(run)|) <= |Countable(rule, ever)|
  {
    var table, sets := Table(run), Counts(run);
    var covered := Covered(table, sets, rule.id, |table|);
    RunTallies(run, rule, ever);
    MatchedIsCovered(table, sets, rule.id, |table|);
    forall e | e in covered
      ensures e in Countable(rule, ever)
    {
      CoveredIs(table, sets, rule.id, |table|, e);
      var i :| 0 <= i < |table| && table[i].ruleId == rule.id && e in sets[i];
      CountsAre(run, rule, ever, i);
    }
    Smaller(covered, Countable(rule, ever));
  }

  lemma {:induction false} Smaller<T>(some: set<T>, all: set<T>)
    requires some <= all
    ensures |some| <= |all|
  {
    if some != {} {
      var x :| x in some;
      Smaller(some - {x}, all - {x});
    }
  }

  // ---------- Rules do not affect each other ----------

  function OfRule(alerts: seq<Alert>, ruleId: int): seq<Alert> {
    if alerts == [] then []
    else
      var n := |alerts| - 1;
      OfRule(alerts[..n], ruleId) + if alerts[n].ruleId == ruleId then [alerts[n]] else []
  }

  lemma {:induction false} OfRuleHolds(alerts: seq<Alert>, ruleId: int, a: Alert)
    ensures a in OfRule(alerts, ruleId) <==> a in alerts && a.ruleId == ruleId
  {
    if alerts != [] {
      var n := |alerts| - 1;
      OfRuleHolds(alerts[..n], ruleId, a);
      assert alerts == alerts[..n] + [alerts[n]];
    }
  }

  lemma {:induction false} OfRuleSplits(alerts: seq<Alert>, more: seq<Alert>, ruleId: int)
    ensures OfRule(alerts + more, ruleId) == OfRule(alerts, ruleId) + OfRule(more, ruleId)
  {
    if more == [] {
      assert alerts + more == alerts;
    } else {
      var n := |more| - 1;
      OfRuleSplits(alerts, more[..n], ruleId);
      assert (alerts + more)[..|alerts| + n] == alerts + more[..n];
    }
  }

  ghost predicate OfOneRule(fired: seq<Alert>, id: int) {
    forall i :: 0 <= i < |fired| ==> fired[i].ruleId == id
  }

  lemma {:induction false} OneRuleOnly(fired: seq<Alert>, id: int, ruleId: int)
    requires OfOneRule(fired, id)
    ensures OfRule(fired, ruleId) == if id == ruleId then fired else []
  {
    if fired != [] {
      OneRuleOnly(fired[..|fired| - 1], id, ruleId);
    }
  }

  lemma BlockedByOwn(alerts: seq<Alert>, ruleId: int, key: string, t: int)
    ensures Cooling(alerts, ruleId, key, t) == Cooling(OfRule(alerts, ruleId), ruleId, key, t)
    ensures Recorded(alerts, ruleId, key, t) == Recorded(OfRule(alerts, ruleId), ruleId, key, t)
  {
    var own := OfRule(alerts, ruleId);
    forall i | 0 <= i < |own| ensures own[i] in alerts { OfRuleHolds(alerts, ruleId, own[i]); }
    forall i | 0 <= i < |alerts| && alerts[i].ruleId == ruleId ensures alerts[i] in own { OfRuleHolds(alerts, ruleId, alerts[i]); }
  }

  /** What an evaluation records depends on the rule's own firings only. */
  lemma {:induction false} OwnFiringsOnly(rule: AlertRule, events: set<Event>, alerts: seq<Alert>, end: int, keys: seq<string>)
    ensures FiringsAmong(rule, events, alerts, end, keys) == FiringsAmong(rule, events, OfRule(alerts, rule.id), end, keys)
  {
    if keys != [] {
      var n := |keys| - 1;
      OwnFiringsOnly(rule, events, alerts, end, keys[..n]);
      BlockedByOwn(alerts, rule.id, keys[n], end - rule.Cooldown());
      BlockedByOwn(alerts, rule.id, keys[n], end - rule.Window());
    }
  }

  lemma RecordingOfRule(e: Evaluated, alerts: seq<Alert>, ruleId: int)
    ensures OfRule(Recording(e, alerts), ruleId) == if e.rule.id == ruleId then Recording(e, OfRule(alerts, ruleId)) else []
  {
    var keys := Ordered(Groups(e.rule, e.events, e.end - e.rule.Window(), e.end));
    AllOfOneRule(e.rule, e.events, alerts, e.end, keys);
    OneRuleOnly(FiringsAmong(e.rule, e.events, alerts, e.end, keys), e.rule.id, ruleId);
    OwnFiringsOnly(e.rule, e.events, alerts, e.end, keys);
  }

  lemma {:induction false} AllOfOneRule(rule: AlertRule, events: set<Event>, alerts: seq<Alert>, end: int, keys: seq<string>)
    ensures OfOneRule(FiringsAmong(rule, events, alerts, end, keys), rule.id)
  {
    if keys != [] {
      var n := |keys| - 1;
      AllOfOneRule(rule, events, alerts, end, keys[..n]);
      var last := if Fires(rule, events, alerts, keys[n], end) then [Firing(rule, events, keys[n], end)] else [];
      assert FiringsAmong(rule, events, alerts, end, keys) == FiringsAmong(rule, events, alerts, end, keys[..n]) + last;
      assert OfOneRule(last, rule.id);
    }
  }

  /** The run with every other rule left out. */
  ghost function Alone(run: seq<Evaluated>, ruleId: int): seq<Evaluated> {
    if run == [] then []
    else
      var n := |run| - 1;
      Alone(run[..n], ruleId) + if run[n].rule.id == ruleId then [run[n]] else []
  }

  /** A rule's firings are those it would have had alone: evaluating others, or failing to, makes no difference to it. */
  lemma {:induction false} RulesAreIndependent(run: seq<Evaluated>, ruleId: int)
    ensures OfRule(Table(run), ruleId) == Table(Alone(run, ruleId))
  {
    if run != [] {
      var n := |run| - 1;
      var before := Table(run[..n]);
      RulesAreIndependent(run[..n], ruleId);
      OfRuleSplits(before, Recording(run[n], before), ruleId);
      RecordingOfRule(run[n], before, ruleId);
      var alone := Alone(run[..n], ruleId);
      assert OfRule(Table(run), ruleId) == OfRule(before, ruleId) + OfRule(Recording(run[n], before), ruleId);
      if run[n].rule.id == ruleId {
        assert (alone + [run[n]])[..|alone|] == alone;
      } else {
        assert alone + [] == alone;
        assert OfRule(before, ruleId) + [] == OfRule(before, ruleId);
      }
    }
  }
}
