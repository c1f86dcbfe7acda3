/**
 * What a rule's owner is told of it, in the fields of the rule and the columns
 * of the events alone. Times are in nanoseconds.
 */
module AlertLaws {
  import opened Wrappers
  import opened Events
  import opened Texts
  import opened Alerts
  import opened AlertRuns
  import opened Alerting
  import Jobs

  /** e is the rule's tenant's, and is like every field of the rule that is set. */
  predicate Matches(rule: AlertRule, e: Event) {
    && e.tenant == rule.tenant
    && (rule.source == None || rule.source == Some(e.source))
    && (rule.eventType == None || rule.eventType == e.eventType)
    && (rule.action == None || rule.action == e.action)
    && (rule.severityMin == None || (e.severity.Some? && e.severity.value >= rule.severityMin.value))
    && forall tag :: tag in rule.tags ==> tag in e.tags
  }

  /** The column the rule groups by holds key. */
  predicate OfGroup(rule: AlertRule, key: string, e: Event) {
    match rule.groupBy
    case SrcIPField => e.srcIP == Some(Addr(key))
    case DstIPField => e.dstIP == Some(Addr(key))
    case UserField => e.user == Some(key)
    case HostField => e.host == Some(key)
    case EventTypeField => e.eventType == Some(key)
  }

  function Matching(rule: AlertRule, events: set<Event>, key: string, from: int, to: int): set<Event> {
    set e | e in events && Matches(rule, e) && OfGroup(rule, key, e) && from <= e.ts && e.ts < to
  }

  lemma MatchingIsCounted(rule: AlertRule, events: set<Event>, key: string, from: int, to: int)
    ensures Matching(rule, events, key, from, to) == Counted(rule, events, key, from, to)
    ensures Matching(rule, events, key, from, to) != {} <==> key in Groups(rule, events, from, to)
  {
    var matching := Matching(rule, events, key, from, to);
    forall e
      ensures Matches(rule, e) && OfGroup(rule, key, e) <==> Concerns(rule, e) && FieldText(rule.groupBy, e) == Some(key)
    {}
    if matching != {} {
      var e :| e in matching;
      assert e in Counted(rule, events, key, from, to);
    }
    if key in Groups(rule, events, from, to) {
      var e :| e in events && Concerns(rule, e) && FieldText(rule.groupBy, e) == Some(key) && from <= e.ts < to;
      assert e in matching;
    }
  }

  /** The group's last firings: all ended the cooldown ago or more, and none was for the window from from. */
  predicate Rested(rule: AlertRule, alerts: seq<Alert>, key: string, from: int, end: int) {
    forall i :: 0 <= i < |alerts| && alerts[i].ruleId == rule.id && alerts[i].groupKey == key ==>
      alerts[i].windowEnd + rule.cooldownMinutes * 60_000_000_000 <= end && alerts[i].windowStart != from
  }

  /**
   * Evaluated at end, a rule fires for a group just when the group's events in
   * the windowMinutes before end reach the threshold, and the firings it had
   * ended cooldownMinutes ago or more, none of them for the same window. The
   * firing is for that window and records how many events there were.
   */
  lemma FiresExactly(rule: AlertRule, events: set<Event>, alerts: seq<Alert>, key: string, end: int)
    ensures var fired := Firings(rule, events, alerts, end);
            var from := end - rule.windowMinutes * 60_000_000_000;
            var matching := Matching(rule, events, key, from, end);
            && ((exists a :: a in fired && a.groupKey == key) <==>
                  matching != {} && |matching| >= rule.threshold && Rested(rule, alerts, key, from, end))
            && (forall a :: a in fired && a.groupKey == key ==> a == Alert(rule.id, rule.tenant, key, from, end, |matching|))
  {
    FiringsAre(rule, events, alerts, end);
    MatchingIsCounted(rule, events, key, end - rule.Window(), end);
    RestedIs(rule, alerts, key, end);
    FiresIs(rule, events, alerts, key, end);
  }

  lemma RestedIs(rule: AlertRule, alerts: seq<Alert>, key: string, end: int)
    ensures Rested(rule, alerts, key, end - rule.Window(), end) <==>
              !Cooling(alerts, rule.id, key, end - rule.Cooldown()) && !Recorded(alerts, rule.id, key, end - rule.Window())
  {}

  lemma FiresIs(rule: AlertRule, events: set<Event>, alerts: seq<Alert>, key: string, end: int)
    ensures var fired := Firings(rule, events, alerts, end);
            && ((exists a :: a in fired && a.groupKey == key) <==> Fires(rule, events, alerts, key, end))
            && (forall a :: a in fired && a.groupKey == key ==> a == Firing(rule, events, key, end))
  {
    var fired := Firings(rule, events, alerts, end);
    FiringsAre(rule, events, alerts, end);
    forall a | a in fired && a.groupKey == key
      ensures Fires(rule, events, alerts, key, end) && a == Firing(rule, events, key, end)
    {
      var i :| 0 <= i < |fired| && fired[i] == a;
    }
    if Fires(rule, events, alerts, key, end) {
      assert Firing(rule, events, key, end) in fired;
    }
  }

  /**
   * Over any run, each window is windowMinutes long, and two firings of one
   * rule and group end cooldownMinutes apart or more and are for two windows.
   */
  lemma FiringsAreSpaced(run: seq<Evaluated>, rule: AlertRule, i: nat, j: nat)
    requires Unchanging(run, rule) && i < j < |Table(run)|
    requires Table(run)[i].ruleId == Table(run)[j].ruleId == rule.id && Table(run)[i].groupKey == Table(run)[j].groupKey
    ensures var a, b := Table(run)[i], Table(run)[j];
            && a.windowEnd - a.windowStart == b.windowEnd - b.windowStart == rule.windowMinutes * 60_000_000_000
            && b.windowEnd - a.windowEnd >= rule.cooldownMinutes * 60_000_000_000 && a.windowStart != b.windowStart
  {
    FiringsApart(run, rule, i, j);
    var ever := Ever(run);
    EverHolds(run);
    CountsAre(run, rule, ever, i);
    CountsAre(run, rule, ever, j);
  }

  /** All events stored at any time of the run. */
  function Ever(run: seq<Evaluated>): set<Event> {
    if run == [] then {} else Ever(run[..|run| - 1]) + run[|run| - 1].events
  }

  lemma {:induction false} EverHolds(run: seq<Evaluated>)
    ensures forall k :: 0 <= k < |run| ==> run[k].events <= Ever(run)
  {
    if run != [] {
      EverHolds(run[..|run| - 1]);
    }
  }

  /** The window evaluated ends on a whole minute, half a minute to one and a half minutes ago. */
  lemma WindowIsRecent(now: int)
    ensures WindowEnd(now) % 60_000_000_000 == 0
    ensures WindowEnd(now) + 30_000_000_000 <= now < WindowEnd(now) + 90_000_000_000
  {}

  /** alerts hold an answer for key at end: for that window, or one whose cooldown end is within. */
  ghost predicate Answer(alerts: seq<Alert>, rule: AlertRule, key: string, end: int) {
    exists a :: a in alerts && a.ruleId == rule.id && a.groupKey == key &&
      (a.windowStart == end - rule.windowMinutes * 60_000_000_000 || a.windowEnd + rule.cooldownMinutes * 60_000_000_000 > end)
  }

  lemma AnswerIs(alerts: seq<Alert>, rule: AlertRule, key: string, end: int)
    ensures Answer(alerts, rule, key, end) <==> Answered(alerts, rule, key, end)
  {
    if Answered(alerts, rule, key, end) {
      var i :| 0 <= i < |alerts| && alerts[i].ruleId == rule.id && alerts[i].groupKey == key
            && (alerts[i].windowStart == end - rule.Window() || end - rule.Cooldown() < alerts[i].windowEnd);
      assert alerts[i] in alerts;
    }
  }

  /** What a burst is: enough of the rule's events of one group, within the window less a minute. */
  predicate Enough(rule: AlertRule, key: string, burst: set<Event>, first: int, last: int) {
    && burst != {} && |burst| >= rule.threshold && last - first <= (rule.windowMinutes - 1) * 60_000_000_000
    && forall e :: e in burst ==> Matches(rule, e) && OfGroup(rule, key, e) && first <= e.ts && e.ts <= last
  }

  /**
   * Evaluated every minute by runs of a minute at most, a burst has its answer
   * from three and a half minutes after its last event on: for a window that
   * holds all of it, or one whose cooldown ends within.
   */
  lemma BurstIsAnswered(ticks: seq<Tick>, created: int, lengths: seq<nat>, rule: AlertRule, key: string, burst: set<Event>, first: int, last: int)
    returns (end: int)
    requires |ticks| == |lengths| && ticks != []
    requires forall i :: 0 <= i < |ticks| ==>
               ticks[i].now == Jobs.Starts(created, 60_000_000_000, lengths)[i] && ticks[i].length == lengths[i] <= 60_000_000_000
    requires ticks[0].now <= last + 90_000_000_000 && last + 150_000_000_000 <= ticks[|ticks| - 1].now
    requires Enough(rule, key, burst, first, last)
    requires forall k :: 0 <= k < |ticks| && last + 30_000_000_000 < ticks[k].now < last + 150_000_000_000 ==> Reaches(ticks[k], rule, burst)
    ensures end - rule.windowMinutes * 60_000_000_000 <= first && last < end <= last + 120_000_000_000 && end % 60_000_000_000 == 0
    ensures forall t :: last + 210_000_000_000 <= t ==> Answer(TableAt(ticks, t), rule, key, end)
  {
    forall e | e in burst
      ensures Concerns(rule, e) && FieldText(rule.groupBy, e) == Some(key) && first <= e.ts <= last
    {
      assert Matches(rule, e) && OfGroup(rule, key, e);
    }
    LoopTicks(ticks, created, lengths);
    var i := Detected(ticks, rule, key, burst, first, last);
    end := WindowEnd(ticks[i].now);
    forall t | last + 210_000_000_000 <= t
      ensures Answer(TableAt(ticks, t), rule, key, end)
    {
      assert ticks[i].End() <= t;
      AnswerIs(TableAt(ticks, t), rule, key, end);
    }
  }

  // ---------- In which order ----------

  /** one comes before other: it is where they first differ, or where one ends, that tells. */
  ghost predicate Earlier(one: string, other: string) {
    exists n :: 0 <= n <= |one| && n < |other| && one[..n] == other[..n] && (n == |one| || one[n] < other[n])
  }

  lemma {:induction false} BelowIs(one: string, other: string)
    ensures Below(one, other) <==> Earlier(one, other)
    decreases |one|
  {
    if one == [] || other == [] || one[0] != other[0] {
      if other != [] && (one == [] || one[0] < other[0]) {
        assert one[..0] == other[..0];
      }
      if n :| 0 <= n <= |one| && n < |other| && one[..n] == other[..n] && (n == |one| || one[n] < other[n]) {
        FirstTells(one, other, n);
      }
    } else {
      BelowIs(one[1..], other[1..]);
      if n :| 0 <= n <= |one[1..]| && n < |other[1..]| && one[1..][..n] == other[1..][..n] && (n == |one[1..]| || one[1..][n] < other[1..][n]) {
        assert one[..n + 1] == [one[0]] + one[1..][..n] && other[..n + 1] == [other[0]] + other[1..][..n];
      }
      if n :| 0 <= n <= |one| && n < |other| && one[..n] == other[..n] && (n == |one| || one[n] < other[n]) {
        EarlierInRest(one, other, n);
      }
    }
  }

  lemma FirstTells(one: string, other: string, n: nat)
    requires n <= |one| && n < |other| && one[..n] == other[..n]
    ensures n > 0 ==> one[0] == other[0]
  {
    assert n > 0 ==> one[..n][0] == one[0] && other[..n][0] == other[0];
  }

  lemma EarlierInRest(one: string, other: string, n: nat)
    requires one != [] && n <= |one| && n < |other| && one[..n] == other[..n] && (n == |one| || one[n] < other[n]) && one[0] == other[0]
    ensures Earlier(one[1..], other[1..])
  {
    assert n != 0;
    assert one[1..][..n - 1] == one[..n][1..] && other[1..][..n - 1] == other[..n][1..];
  }

  /** The firings come in the order of their groups' names, each group's once. */
  lemma FiringsInOrder(rule: AlertRule, events: set<Event>, alerts: seq<Alert>, end: int)
    ensures var fired := Firings(rule, events, alerts, end);
            forall i, j :: 0 <= i < j < |fired| ==> Earlier(fired[i].groupKey, fired[j].groupKey)
  {
    var fired := Firings(rule, events, alerts, end);
    FiringsAre(rule, events, alerts, end);
    forall i, j | 0 <= i < j < |fired| ensures Earlier(fired[i].groupKey, fired[j].groupKey) {
      BelowIs(fired[i].groupKey, fired[j].groupKey);
    }
  }
}
