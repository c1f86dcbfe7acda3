/** Which of the normalizer's own tags an event has, besides those its sender gave it; and its time. */
module EventTags {
  import opened Wrappers
  import opened Texts
  import opened Values
  import opened Builder
  import opened Normalize
  import opened NormalizeLaws
  import opened EventLaws
  import KeyValue
  import Syslog

  // ---------- Complaints ----------

  predicate Complaint(tag: string) {
    "invalid:" <= tag
  }

  /** The step tags nothing, but perhaps with a complaint. */
  predicate Hushed(s: Step) {
    match s
    case Mark(tag) => Complaint(tag)
    case Offer(_, _, complaint) => complaint.Some? ==> Complaint(complaint.value)
  }

  /** The steps tag nothing but tag, if that, and complaints. */
  ghost predicate TagOnly(steps: seq<Step>, tag: Option<string>) {
    && (forall i :: 0 <= i < |steps| ==> Hushed(steps[i]) || (tag.Some? && steps[i] == Mark(tag.value)))
    && (tag.Some? ==> exists i :: 0 <= i < |steps| && steps[i] == Mark(tag.value))
  }

  lemma Joined(a: seq<Step>, b: seq<Step>, tag: Option<string>)
    ensures TagOnly(a, None) && TagOnly(b, tag) ==> TagOnly(a + b, tag)
    ensures TagOnly(a, tag) && TagOnly(b, None) ==> TagOnly(a + b, tag)
  {
    assert forall i :: 0 <= i < |a| ==> (a + b)[i] == a[i];
    assert forall i :: 0 <= i < |b| ==> (a + b)[|a| + i] == b[i];
    if tag.Some? {
      if i :| 0 <= i < |a| && a[i] == Mark(tag.value) {
        assert (a + b)[i] == Mark(tag.value);
      }
      if i :| 0 <= i < |b| && b[i] == Mark(tag.value) {
        assert (a + b)[|a| + i] == Mark(tag.value);
      }
    }
  }

  lemma {:induction false} KeysHush(t: Tables, r: Record, keys: seq<Key>, prefix: string)
    ensures TagOnly(KeySteps(t, r, keys, prefix), None)
    decreases |keys|
  {
    if keys != [] {
      var n := |keys| - 1;
      KeysHush(t, r, keys[..n], prefix);
      Joined(KeySteps(t, r, keys[..n], prefix), KeyStep(t, r, keys[n], prefix), None);
    }
  }

  lemma {:induction false} PairsHush(t: Tables, pairs: seq<KeyValue.Pair>)
    ensures TagOnly(PairSteps(t, pairs), None)
    decreases |pairs|
  {
    if pairs != [] {
      var n := |pairs| - 1;
      PairsHush(t, pairs[..n]);
      Joined(PairSteps(t, pairs[..n]), PairStep(t, pairs[n]), None);
    }
  }

  lemma RecordHushes(rules: Rules, r: Record, k: Origin, cloudKeys: seq<Key>)
    ensures TagOnly(RecordSteps(rules, r, k, cloudKeys), None)
  {
    if k.line.Some? {
      LineHushes(rules.t, r, Message(rules, k));
    } else {
      JsonHushes(rules.t, r, cloudKeys);
    }
  }

  lemma LineHushes(t: Tables, r: Record, m: Syslog.Message)
    ensures TagOnly(SyslogSteps(t, r, m), None)
  {
    var pairs := PairSteps(t, KeyValue.Parse(m.body, []));
    PairsHush(t, KeyValue.Parse(m.body, []));
    assert TagOnly(HeaderSteps(r, m), None);
    Joined(pairs, HeaderSteps(r, m), None);
    Joined(pairs + HeaderSteps(r, m), TagSteps(r), None);
  }

  lemma JsonHushes(t: Tables, r: Record, cloudKeys: seq<Key>)
    ensures TagOnly(JsonSteps(t, r, cloudKeys), None)
  {
    var keys, cloud := KeySteps(t, r, t.jsonKeys, ""), CloudSteps(t, r, cloudKeys);
    KeysHush(t, r, t.jsonKeys, "");
    if ValueOf(r, CLOUD).Some? && r[CLOUD].Obj? {
      KeysHush(t, r[CLOUD].fields, cloudKeys, CLOUD + ".");
    }
    Joined(keys, cloud, None);
    Joined(keys + cloud, TagSteps(r), None);
    Joined(keys + cloud + TagSteps(r), RawSteps(r), None);
  }

  /** The tag that says how a login went. */
  function LoginTag(auth: Auth): Option<string> {
    match auth
    case LoginSuccess => Some("auth_success")
    case LoginFailure => Some("auth_failure")
    case _ => None
  }

  /** The steps offer fields without a complaint, and tag nothing but tag, if that. */
  ghost predicate QuietOnly(steps: seq<Step>, tag: Option<string>) {
    && (forall i :: 0 <= i < |steps| ==> IsQuiet(steps[i]) || (tag.Some? && steps[i] == Mark(tag.value)))
    && (tag.Some? ==> exists i :: 0 <= i < |steps| && steps[i] == Mark(tag.value))
  }

  predicate IsQuiet(s: Step) {
    s.Offer? && s.complaint == None
  }

  lemma QuietHushes(steps: seq<Step>, tag: Option<string>)
    requires QuietOnly(steps, tag)
    ensures TagOnly(steps, tag)
  {}

  lemma QuietJoined(a: seq<Step>, b: seq<Step>, tag: Option<string>)
    ensures QuietOnly(a, None) && QuietOnly(b, tag) ==> QuietOnly(a + b, tag)
    ensures QuietOnly(a, tag) && QuietOnly(b, None) ==> QuietOnly(a + b, tag)
  {
    assert forall i :: 0 <= i < |a| ==> (a + b)[i] == a[i];
    assert forall i :: 0 <= i < |b| ==> (a + b)[|a| + i] == b[i];
    if tag.Some? {
      if i :| 0 <= i < |a| && a[i] == Mark(tag.value) {
        assert (a + b)[i] == Mark(tag.value);
      }
      if i :| 0 <= i < |b| && b[i] == Mark(tag.value) {
        assert (a + b)[|a| + i] == Mark(tag.value);
      }
    }
  }

  lemma LoginTags(tag: string)
    ensures QuietOnly([Quietly(Action, "login")] + [Mark(tag)], Some(tag))
  {
    assert ([Quietly(Action, "login")] + [Mark(tag)])[1] == Mark(tag);
  }

  lemma AuthTags(auth: Auth)
    ensures QuietOnly(AuthSteps(auth), LoginTag(auth))
  {
    LoginTags(AUTH_SUCCESS);
    LoginTags(AUTH_FAILURE);
  }

  lemma AwsEventTags(t: Tables, r: Record, eventType: string)
    ensures QuietOnly(AwsEventSteps(t.aws(eventType), t.cloudTrail(ValueOf(r, RAW))), LoginTag(AuthOf(t, r, Aws, eventType)))
  {
    if t.aws(eventType).ConsoleLogin? {
      AuthTags(if t.cloudTrail(ValueOf(r, RAW)).failed then LoginFailure else LoginSuccess);
    }
  }

  lemma AwsTags(t: Tables, r: Record, before: seq<Step>)
    ensures var own := FirstUsable(before, EventType);
            var eventType := TextOf(Either(own, TextFor(t.cloudTrail(ValueOf(r, RAW)).eventName)));
            QuietOnly(AwsSteps(t, r, before), LoginTag(AuthOf(t, r, Aws, eventType)))
  {
    var ct := t.cloudTrail(ValueOf(r, RAW));
    var first := Names("aws", "cloudtrail") + [Quietly(EventType, ct.eventName)];
    var eventType := TextOf(FirstUsable(before + first, EventType));
    AwsType(t, r, before);
    AwsEventTags(t, r, eventType);
    NamesHush("aws", "cloudtrail", EventType, ct.eventName);
    QuietJoined(first, AwsEventSteps(t.aws(eventType), ct), LoginTag(AuthOf(t, r, Aws, eventType)));
  }

  lemma NamesHush(vendor: string, product: string, field: Name, text: string)
    ensures QuietOnly(Names(vendor, product), None) && QuietOnly(Names(vendor, product) + [Quietly(field, text)], None)
  {}

  lemma AwsType(t: Tables, r: Record, before: seq<Step>)
    ensures var typed := [Quietly(EventType, t.cloudTrail(ValueOf(r, RAW)).eventName)];
            FirstUsable(before + (Names("aws", "cloudtrail") + typed), EventType) ==
              Either(FirstUsable(before, EventType), TextFor(t.cloudTrail(ValueOf(r, RAW)).eventName))
  {
    NamesArePlain();
    TypeGoesOn(before, "aws", "cloudtrail", t.cloudTrail(ValueOf(r, RAW)).eventName);
  }

  lemma M365Tags(t: Tables, r: Record, before: seq<Step>)
    ensures QuietOnly(M365Steps(t, r, before), LoginTag(AuthOf(t, r, M365, TextOf(FirstUsable(before, EventType)))))
  {
    var auth := AuthOf(t, r, M365, TextOf(FirstUsable(before, EventType)));
    M365Are(t, r, before);
    NamesHush("microsoft", "m365", EventType, "");
    AuthTags(auth);
    QuietJoined(Names("microsoft", "m365"), AuthSteps(auth), LoginTag(auth));
  }

  lemma AdTags(t: Tables, r: Record)
    ensures QuietOnly(AdSteps(t, r), LoginTag(t.ad(Extra(r, "event_id"))))
  {
    var auth, subtype := t.ad(Extra(r, "event_id")), t.logonType(Extra(r, "logon_type"));
    NamesHush("microsoft", "windows", EventSubtype, subtype);
    AuthTags(auth);
    QuietJoined(Names("microsoft", "windows") + [Quietly(EventSubtype, subtype)], AuthSteps(auth), LoginTag(auth));
  }

  lemma ApiTags(t: Tables, r: Record, before: seq<Step>)
    ensures QuietOnly(ApiSteps(t, r, before), LoginTag(AuthOf(t, r, Api, TextOf(FirstUsable(before, EventType)))))
  {
    var eventType := TextOf(FirstUsable(before, EventType));
    TwoOutcomes(t, t.guess(eventType), Extra(r, "status"), Extra(r, "outcome"));
    AuthTags(AuthOf(t, r, Api, eventType));
  }

  lemma EnrichTags(t: Tables, source: Source, r: Record, before: seq<Step>)
    ensures QuietOnly(EnrichSteps(t, source, r, before), LoginTag(AuthOf(t, r, source, FinalType(t, r, source, FirstUsable(before, EventType)))))
  {
    match source {
      case Aws => AwsTags(t, r, before);
      case M365 => M365Tags(t, r, before);
      case Ad => AdTags(t, r);
      case Api => ApiTags(t, r, before);
      case CrowdStrike => NamesHush("crowdstrike", "falcon", EventType, "");
      case _ =>
    }
  }

  // ---------- What is derived ----------

  lemma {:induction false} TrimKeepsHead(s: string)
    requires s != "" && !GoSpace(s[0])
    ensures TrimSpace(s) != "" && TrimSpace(s)[0] == s[0]
    decreases |s|
  {
    if GoSpace(s[|s| - 1]) {
      TrimKeepsHead(s[..|s| - 1]);
    }
  }

  lemma ComplaintHead(tag: string)
    requires Complaint(tag)
    ensures CleanText(tag) != "" && CleanText(tag)[0] == 'i'
  {
    assert tag[0] == 'i';
    TrimKeepsHead(tag);
  }

  /** A tag that is no complaint, of lower letters, colons and underscores. */
  predicate Own(tag: string) {
    tag != "" && tag[0] != 'i' && forall i :: 0 <= i < |tag| ==> 'a' <= tag[i] <= 'z' || tag[i] == '_' || tag[i] == ':'
  }

  lemma OwnIsClean(tag: string)
    requires Own(tag)
    ensures CleanText(tag) == tag
  {
    CleanTextFixes(tag);
  }

  lemma OwnTags()
    ensures Own("auth_success") && Own("auth_failure") && Own("rebased:timestamp")
  {}

  /** Some step asks for the tag. */
  ghost predicate Marks(steps: seq<Step>, tag: string) {
    exists i :: 0 <= i < |steps| && steps[i] == Mark(tag)
  }

  /** Every step is hushed, or asks for one of the normalizer's own tags. */
  ghost predicate Orderly(steps: seq<Step>) {
    forall i :: 0 <= i < |steps| ==> Hushed(steps[i]) || (steps[i].Mark? && Own(steps[i].tag))
  }

  lemma DerivedOwn(steps: seq<Step>, tag: string)
    requires Orderly(steps) && Own(tag)
    ensures FormOf(tag, Derived(steps)) <==> Marks(steps, tag)
  {
    DerivedAre(steps, tag);
    OwnIsClean(tag);
    if i :| 0 <= i < |Derived(steps)| && CleanText(Derived(steps)[i]) == tag {
      DerivedAre(steps, Derived(steps)[i]);
      assert Derived(steps)[i] in Derived(steps);
      var j :| 0 <= j < |steps| && Asks(steps, j, Derived(steps)[i]);
      if Complaint(Derived(steps)[i]) {
        ComplaintHead(Derived(steps)[i]);
      }
      if Own(Derived(steps)[i]) {
        OwnIsClean(Derived(steps)[i]);
      }
      assert steps[j] == Mark(tag);
    }
    if Marks(steps, tag) {
      var i :| 0 <= i < |steps| && steps[i] == Mark(tag);
      assert Asks(steps, i, tag);
      var k :| 0 <= k < |Derived(steps)| && Derived(steps)[k] == tag;
    }
  }

  lemma OwnIsNoComplaint(tag: string)
    requires Own(tag)
    ensures !Complaint(tag)
  {
    assert "invalid:"[0] == 'i';
  }

  lemma OnlyMarks(steps: seq<Step>, only: Option<string>, tag: string)
    requires TagOnly(steps, only) && Own(tag) && (only.Some? ==> Own(only.value))
    ensures Orderly(steps) && (Marks(steps, tag) <==> only == Some(tag))
  {
    OwnIsNoComplaint(tag);
  }

  lemma MarksJoin(a: seq<Step>, b: seq<Step>, tag: string)
    ensures Orderly(a) && Orderly(b) ==> Orderly(a + b)
    ensures Marks(a + b, tag) <==> Marks(a, tag) || Marks(b, tag)
  {
    assert forall i :: 0 <= i < |a| ==> (a + b)[i] == a[i];
    assert forall i :: 0 <= i < |b| ==> (a + b)[|a| + i] == b[i];
    if i :| 0 <= i < |b| && b[i] == Mark(tag) {
      assert (a + b)[|a| + i] == Mark(tag);
    }
    if i :| 0 <= i < |a| && a[i] == Mark(tag) {
      assert (a + b)[i] == Mark(tag);
    }
  }

  lemma TimeTags(t: Tables, r: Record, now: int, retention: int, header: Option<int>)
    ensures TagOnly(TimeSteps(t, r, now, retention, header),
                    if InReach(NamedTime(t, r, now, header), now, retention) then None else Some("rebased:timestamp"))
  {
    var rebased := if InReach(NamedTime(t, r, now, header), now, retention) then [] else [Mark(REBASED_TIME)];
    assert rebased != [] ==> rebased[0] == Mark("rebased:timestamp");
    Joined(OwnTimeSteps(t, r), rebased, if InReach(NamedTime(t, r, now, header), now, retention) then None else Some("rebased:timestamp"));
  }

  /** What the record and its time ask for. */
  lemma OwnMarks(rules: Rules, r: Record, k: Origin, cloudKeys: seq<Key>, now: int, retention: int, tag: string)
    requires Own(tag)
    ensures var own := RecordSteps(rules, r, k, cloudKeys) + TimeSteps(rules.t, r, now, retention, HeaderTime(rules, k));
            && Orderly(own)
            && (Marks(own, tag) <==> tag == "rebased:timestamp" && !InReach(NamedTime(rules.t, r, now, HeaderTime(rules, k)), now, retention))
  {
    var record, times := RecordSteps(rules, r, k, cloudKeys), TimeSteps(rules.t, r, now, retention, HeaderTime(rules, k));
    OwnTags();
    RecordHushes(rules, r, k, cloudKeys);
    OnlyMarks(record, None, tag);
    TimeTags(rules.t, r, now, retention, HeaderTime(rules, k));
    OnlyMarks(times, if InReach(NamedTime(rules.t, r, now, HeaderTime(rules, k)), now, retention) then None else Some("rebased:timestamp"), tag);
    MarksJoin(record, times, tag);
  }

  lemma LaterMarks(own: seq<Step>, enrich: seq<Step>, long: seq<Step>, auth: Auth, tag: string)
    requires Own(tag) && Orderly(own) && TagOnly(enrich, LoginTag(auth)) && TagOnly(long, None)
    ensures Orderly(own + enrich + long) && (Marks(own + enrich + long, tag) <==> Marks(own, tag) || Some(tag) == LoginTag(auth))
  {
    OwnTags();
    OnlyMarks(enrich, LoginTag(auth), tag);
    OnlyMarks(long, None, tag);
    MarksJoin(own, enrich, tag);
    MarksJoin(own + enrich, long, tag);
  }

  /** Whether the event is a login or a logout in the end, which is for its source and its type to say. */
  function AuthIn(rules: Rules, r: Record, n: Normal): Auth {
    AuthOf(rules.t, r, n.source, TypeOf(n))
  }

  lemma EventMarks(rules: Rules, r: Record, k: Origin, cloudKeys: seq<Key>, now: int, retention: int, sent: seq<string>, tag: string)
    requires (k.source.Some? || k.line.Some?) && Own(tag)
    ensures var all := AllSteps(rules, r, k, cloudKeys, now, retention) + LongTagSteps(sent);
            && Orderly(all)
            && (Marks(all, tag) <==>
                  || Some(tag) == LoginTag(AuthOf(rules.t, r, FinalSource(rules, k), TypeGiven(rules, r, k, cloudKeys, now, retention)))
                  || (tag == "rebased:timestamp" && !InReach(NamedTime(rules.t, r, now, HeaderTime(rules, k)), now, retention)))
  {
    var own := RecordSteps(rules, r, k, cloudKeys) + TimeSteps(rules.t, r, now, retention, HeaderTime(rules, k));
    var auth := AuthOf(rules.t, r, FinalSource(rules, k), TypeGiven(rules, r, k, cloudKeys, now, retention));
    OwnMarks(rules, r, k, cloudKeys, now, retention, tag);
    EnrichTags(rules.t, FinalSource(rules, k), r, own);
    QuietHushes(EnrichSteps(rules.t, FinalSource(rules, k), r, own), LoginTag(auth));
    LaterMarks(own, EnrichSteps(rules.t, FinalSource(rules, k), r, own), LongTagSteps(sent), auth, tag);
  }

  function TypeGiven(rules: Rules, r: Record, k: Origin, cloudKeys: seq<Key>, now: int, retention: int): string
    requires k.source.Some? || k.line.Some?
  {
    var own := RecordSteps(rules, r, k, cloudKeys) + TimeSteps(rules.t, r, now, retention, HeaderTime(rules, k));
    FinalType(rules.t, r, FinalSource(rules, k), FirstUsable(own, EventType))
  }

  lemma TypeIsGiven(rules: Rules, r: Record, k: Origin, cloudKeys: seq<Key>, now: int, retention: int, n: Normal)
    requires (k.source.Some? || k.line.Some?) && ComesTo(rules, r, k, cloudKeys, now, retention, n)
    ensures TypeGiven(rules, r, k, cloudKeys, now, retention) == TypeOf(n)
  {
    var own := RecordSteps(rules, r, k, cloudKeys) + TimeSteps(rules.t, r, now, retention, HeaderTime(rules, k));
    FieldHolds(rules, AllSteps(rules, r, k, cloudKeys, now, retention), n, EventType);
    AllGive(rules, r, k, cloudKeys, now, retention, EventType);
    EnrichGives(rules.t, FinalSource(rules, k), r, own, EventType);
  }

  // ---------- What an event is tagged with, and when it is said to be ----------

  /** The sender's own tags. */
  function Sent(r: Record): seq<string> {
    if SenderTags(r).Some? then SenderTags(r).value else []
  }

  /** The time a record names, in order of preference: its own, the header's, the collector's receipt, and now. */
  function Named(t: Tables, r: Record, header: Option<int>, now: int): int {
    var own, received := t.dates.rfc3339(Extra(r, "@timestamp")), t.dates.rfc3339(Extra(r, "received_at"));
    if "@timestamp" in r && r["@timestamp"] != Null && own.Some? then own.value
    else if header.Some? then header.value
    else if received.Some? then received.value else now
  }

  /** From the retention's length ago to an hour ahead. */
  predicate Reachable(ts: int, now: int, retention: int) {
    now - retention <= ts && ts <= now + 3_600_000_000_000
  }

  /** An event is tagged with how its login went just if it is one that went so, or its sender said so. */
  lemma LoginTagged(rules: Rules, r: Record, k: Origin, cloudKeys: seq<Key>, now: int, retention: int, n: Normal)
    requires (k.source.Some? || k.line.Some?) && ComesTo(rules, r, k, cloudKeys, now, retention, n)
    ensures "auth_success" in n.tags <==> FormOf("auth_success", Sent(r)) || AuthIn(rules, r, n) == LoginSuccess
    ensures "auth_failure" in n.tags <==> FormOf("auth_failure", Sent(r)) || AuthIn(rules, r, n) == LoginFailure
  {
    OwnTags();
    LoginTagIs(AuthIn(rules, r, n));
    WentTagged(rules, r, k, cloudKeys, now, retention, n, "auth_success");
    WentTagged(rules, r, k, cloudKeys, now, retention, n, "auth_failure");
  }

  lemma WentTagged(rules: Rules, r: Record, k: Origin, cloudKeys: seq<Key>, now: int, retention: int, n: Normal, tag: string)
    requires (k.source.Some? || k.line.Some?) && ComesTo(rules, r, k, cloudKeys, now, retention, n)
    requires Own(tag) && |tag| <= 20 && tag[0] == 'a'
    ensures tag in n.tags <==> FormOf(tag, Sent(r)) || Some(tag) == LoginTag(AuthIn(rules, r, n))
  {
    TypeIsGiven(rules, r, k, cloudKeys, now, retention, n);
    Tagged(rules, r, k, cloudKeys, now, retention, n, tag);
    assert "rebased:timestamp"[0] == 'r';
  }

  lemma LoginTagIs(auth: Auth)
    ensures Some("auth_success") == LoginTag(auth) <==> auth == LoginSuccess
    ensures Some("auth_failure") == LoginTag(auth) <==> auth == LoginFailure
  {
    assert "auth_success"[5] == 's' && "auth_failure"[5] == 'f';
  }

  /** What the line's header says of the time, if there is one. */
  function LineTime(rules: Rules, k: Origin): Option<int> {
    if k.line.Some? then Syslog.ParseSyslog(rules.t.dates, k.line.value).time else None
  }

  lemma NamedIs(t: Tables, r: Record, header: Option<int>, now: int)
    ensures NamedTime(t, r, now, header) == Named(t, r, header, now)
  {}

  /** An event's time is the one its record names, or now if that is out of reach, which its tag then says. */
  lemma TimeTagged(rules: Rules, r: Record, k: Origin, cloudKeys: seq<Key>, now: int, retention: int, n: Normal)
    requires (k.source.Some? || k.line.Some?) && ComesTo(rules, r, k, cloudKeys, now, retention, n)
    ensures var named := Named(rules.t, r, LineTime(rules, k), now);
            && n.ts == (if Reachable(named, now, retention) then named else now)
            && ("rebased:timestamp" in n.tags <==> FormOf("rebased:timestamp", Sent(r)) || !Reachable(named, now, retention))
  {
    OwnTags();
    NamedIs(rules.t, r, LineTime(rules, k), now);
    Tagged(rules, r, k, cloudKeys, now, retention, n, "rebased:timestamp");
    assert HeaderTime(rules, k) == LineTime(rules, k);
    NotALogin(AuthOf(rules.t, r, n.source, TypeGiven(rules, r, k, cloudKeys, now, retention)));
  }

  lemma NotALogin(auth: Auth)
    ensures LoginTag(auth) != Some("rebased:timestamp")
  {
    assert "auth_success"[0] == "auth_failure"[0] == 'a' && "rebased:timestamp"[0] == 'r';
  }

  lemma {:induction false} OwnLength(tag: string)
    requires forall i :: 0 <= i < |tag| ==> 'a' <= tag[i] <= 'z' || tag[i] == '_' || tag[i] == ':'
    ensures ByteLength(tag) == |tag|
  {
    if tag != [] {
      OwnLength(tag[1..]);
    }
  }

  lemma Tagged(rules: Rules, r: Record, k: Origin, cloudKeys: seq<Key>, now: int, retention: int, n: Normal, tag: string)
    requires (k.source.Some? || k.line.Some?) && ComesTo(rules, r, k, cloudKeys, now, retention, n) && Own(tag) && |tag| <= 20
    ensures tag in n.tags <==>
              || FormOf(tag, Sent(r))
              || Some(tag) == LoginTag(AuthOf(rules.t, r, n.source, TypeGiven(rules, r, k, cloudKeys, now, retention)))
              || (tag == "rebased:timestamp" && !InReach(NamedTime(rules.t, r, now, HeaderTime(rules, k)), now, retention))
  {
    var all := AllSteps(rules, r, k, cloudKeys, now, retention) + LongTagSteps(Sent(r));
    NormalTags(rules, r, k, cloudKeys, now, retention, n);
    OwnIsClean(tag);
    CleanTextIsClean(tag);
    OwnLength(tag);
    EventMarks(rules, r, k, cloudKeys, now, retention, Sent(r), tag);
    DerivedOwn(all, tag);
  }

  /** A record less what the collector adds to it. */
  function AsSent(r: Record): Record {
    map key | key in r && key != "received_at" && key != "peer_ip" && key != "input" :: r[key]
  }

  lemma CollectorKeys(key: string)
    ensures key in COLLECTOR_KEYS <==> key == "received_at" || key == "peer_ip" || key == "input"
  {
    assert COLLECTOR_KEYS == ["received_at", "peer_ip", "input"];
  }

  lemma PayloadIs(r: Record)
    ensures Payload(r) == if "raw" in r && r["raw"].Obj? then r["raw"] else Obj(AsSent(r))
  {
    forall key: string | key in r ensures key in COLLECTOR_KEYS <==> key !in AsSent(r) {
      CollectorKeys(key);
    }
    assert AsSent(r) == map key | key in r && key !in COLLECTOR_KEYS :: r[key];
  }

  lemma RawIs(rules: Rules, r: Record, k: Origin, cloudKeys: seq<Key>, now: int, retention: int, n: Normal)
    requires (k.source.Some? || k.line.Some?) && ComesTo(rules, r, k, cloudKeys, now, retention, n)
    ensures n.raw == RawOf(r, k) && n.tenant == k.tenant
  {}

  /**
   * The payload kept is the line, for a line; else the record's own, if it has
   * an object for one; and else all of the record but what the collector adds.
   */
  lemma PayloadKept(rules: Rules, r: Record, k: Origin, cloudKeys: seq<Key>, now: int, retention: int, n: Normal)
    requires (k.source.Some? || k.line.Some?) && ComesTo(rules, r, k, cloudKeys, now, retention, n)
    ensures n.tenant == k.tenant
    ensures n.raw ==
            if k.line.Some? then Obj(map["message" := Str(k.line.value)])
            else if "raw" in r && r["raw"].Obj? then r["raw"]
            else Obj(AsSent(r))
  {
    RawIs(rules, r, k, cloudKeys, now, retention, n);
    PayloadIs(r);
  }
}
