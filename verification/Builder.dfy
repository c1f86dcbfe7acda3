/**
 * backend/internal/ingest/normalize.go and sources.go: filling in an event from
 * a record, a field at a time. The first usable value of a field stays.
 */
module Builder {
  import opened Wrappers
  import opened Texts
  import opened Events
  import opened Values
  import KeyValue
  import Syslog

  /** A decoded JSON value. A number keeps its text. */
  datatype Json = Null | Str(text: string) | Num(digits: string) | Bool(b: bool) | Arr(items: seq<Json>) | Obj(fields: Record)

  type Record = map<string, Json>

  datatype Source = Api | Ad | Aws | CrowdStrike | Firewall | M365 | Network

  datatype Auth = NoAuth | LoginSuccess | LoginFailure | Logout

  datatype AwsEvent = ConsoleLogin | Creates | Deletes | OtherEvent

  /** What the AWS rules need of raw: an event's name, and whether its console login failed. */
  datatype CloudTrail = CloudTrail(eventName: string, failed: bool)

  /** A record's key, and the field it is mapped to. */
  datatype Key = Key(text: string, name: Name)

  /** The parts of the library, and the tables of names, that normalizing looks things up in. */
  datatype Tables = Tables(
    readings: Readings, dates: Syslog.Dates, cloudTrail: Option<Json> -> CloudTrail,
    jsonKeys: seq<Key>, setter: string -> Option<Name>, alias: string -> Option<string>, ofFirewall: string -> bool,
    aws: string -> AwsEvent, m365: string -> Auth, ad: string -> Auth, logonType: string -> string,
    guess: string -> Auth, outcome: string -> Option<bool>)

  const INVALID := "invalid:"
  const CLOUD := "cloud"
  const RAW := "raw"
  const TAGS := "_tags"
  const PEER_IP := "peer_ip"
  const RECEIVED_AT := "received_at"
  const TIMESTAMP := "@timestamp"
  const INPUT := "input"
  const MESSAGE := "message"
  const AUTH_SUCCESS := "auth_success"
  const AUTH_FAILURE := "auth_failure"
  const REBASED_TIME := "rebased:timestamp"

  /** From syslog's severities, 0 an emergency, to the schema's, 10 the worst. */
  const SYSLOG_SEVERITY: seq<int> := [10, 9, 8, 7, 5, 3, 2, 0]

  // ---------- Reading a record ----------

  /** A field of the record, unless it is absent or null. */
  function ValueOf(r: Record, key: string): Option<Json> {
    if key in r && !r[key].Null? then Some(r[key]) else None
  }

  /** Strings and numbers have a text form. */
  function Scalar(v: Json): Option<string> {
    match v
    case Str(s) => Some(s)
    case Num(s) => Some(s)
    case _ => None
  }

  function Extra(r: Record, key: string): string {
    match ValueOf(r, key)
    case None => ""
    case Some(v) => if Scalar(v).Some? then TrimSpace(Scalar(v).value) else ""
  }

  /** A list of strings, where null stands for none. */
  function Strings(items: seq<Json>): Option<seq<string>> {
    if items == [] then Some([])
    else
      var last := items[|items| - 1];
      var before := Strings(items[..|items| - 1]);
      if before.None? || !(last.Str? || last.Null?) then None
      else Some(before.value + [if last.Str? then last.text else ""])
  }

  /** The sender's tags, if they can be read. */
  function SenderTags(r: Record): Option<seq<string>> {
    match ValueOf(r, TAGS)
    case None => Some([])
    case Some(v) => if v.Arr? then Strings(v.items) else None
  }

  // ---------- The steps a record comes to ----------

  /** A value set if it can be, without complaint. */
  function Quietly(name: Name, v: string): Step {
    Offer(name, CoerceText(v), None)
  }

  function KeyStep(t: Tables, r: Record, key: Key, prefix: string): seq<Step> {
    match ValueOf(r, key.text)
    case None => []
    case Some(v) => [Offer(key.name, CoerceAny(t.readings, key.name, Scalar(v)), Some(INVALID + (prefix + key.text)))]
  }

  function KeySteps(t: Tables, r: Record, keys: seq<Key>, prefix: string): seq<Step> {
    if keys == [] then []
    else KeySteps(t, r, keys[..|keys| - 1], prefix) + KeyStep(t, r, keys[|keys| - 1], prefix)
  }

  /** keys are the cloud object's, in the order they happen to be visited. */
  function CloudSteps(t: Tables, r: Record, keys: seq<Key>): seq<Step> {
    match ValueOf(r, CLOUD)
    case None => []
    case Some(v) => if v.Obj? then KeySteps(t, v.fields, keys, CLOUD + ".") else [Mark(INVALID + CLOUD)]
  }

  function TagSteps(r: Record): seq<Step> {
    if SenderTags(r).None? then [Mark(INVALID + TAGS)] else []
  }

  function RawSteps(r: Record): seq<Step> {
    match ValueOf(r, RAW)
    case None => []
    case Some(v) => if v.Obj? then [] else [Mark(INVALID + RAW)]
  }

  /** What the collector adds to every record, which is not the sender's. */
  const COLLECTOR_KEYS: seq<string> := [RECEIVED_AT, PEER_IP, INPUT]

  /** The payload kept of a record: its own raw, or all of it but what the collector added. */
  function Payload(r: Record): Json {
    match ValueOf(r, RAW)
    case Some(v) => if v.Obj? then v else Obj(WholeRecord(r))
    case None => Obj(WholeRecord(r))
  }

  function WholeRecord(r: Record): Record {
    map key | key in r && key !in COLLECTOR_KEYS :: r[key]
  }

  function JsonSteps(t: Tables, r: Record, cloudKeys: seq<Key>): seq<Step> {
    KeySteps(t, r, t.jsonKeys, "") + CloudSteps(t, r, cloudKeys) + TagSteps(r) + RawSteps(r)
  }

  /** The field a key=value key names, itself or by an alias. */
  function NameFor(t: Tables, key: string): Option<Name> {
    var k := Lowered(t.readings.lower, key);
    t.setter(if t.alias(k).Some? then t.alias(k).value else k)
  }

  function PairStep(t: Tables, p: KeyValue.Pair): seq<Step> {
    match NameFor(t, p.key)
    case None => []
    case Some(name) => [Offer(name, Coerce(t.readings, name, p.value), Some(INVALID + p.key))]
  }

  function PairSteps(t: Tables, pairs: seq<KeyValue.Pair>): seq<Step> {
    if pairs == [] then [] else PairSteps(t, pairs[..|pairs| - 1]) + PairStep(t, pairs[|pairs| - 1])
  }

  function SeverityStep(m: Syslog.Message): seq<Step> {
    if m.severity.Some? && 0 <= m.severity.value < 8
    then [Offer(Severity, Usable(Whole(SYSLOG_SEVERITY[m.severity.value])), None)] else []
  }

  function HeaderSteps(r: Record, m: Syslog.Message): seq<Step> {
    [Quietly(Host, m.host)] + [Quietly(Host, Extra(r, PEER_IP))] + [Quietly(Process, m.app)] + SeverityStep(m)
  }

  function SyslogSteps(t: Tables, r: Record, m: Syslog.Message): seq<Step> {
    PairSteps(t, KeyValue.Parse(m.body, [])) + HeaderSteps(r, m) + TagSteps(r)
  }

  // ---------- The steps a source implies ----------

  function TextOf(v: Option<Value>): string {
    if v.Some? && v.value.Text? then v.value.text else ""
  }

  function AuthSteps(auth: Auth): seq<Step> {
    match auth
    case LoginSuccess => [Quietly(Action, "login")] + [Mark(AUTH_SUCCESS)]
    case LoginFailure => [Quietly(Action, "login")] + [Mark(AUTH_FAILURE)]
    case Logout => [Quietly(Action, "logout")]
    case NoAuth => []
  }

  /** The first status that says how a login went decides it. */
  function WithOutcome(t: Tables, auth: Auth, statuses: seq<string>): Auth
    decreases |statuses|
  {
    if !(auth.LoginSuccess? || auth.LoginFailure?) || statuses == [] then auth
    else match t.outcome(statuses[0])
      case Some(ok) => if ok then LoginSuccess else LoginFailure
      case None => WithOutcome(t, auth, statuses[1..])
  }

  function Names(vendor: string, product: string): seq<Step> {
    [Quietly(Vendor, vendor)] + [Quietly(Product, product)]
  }

  function AwsSteps(t: Tables, r: Record, before: seq<Step>): seq<Step> {
    var ct := t.cloudTrail(ValueOf(r, RAW));
    var first := Names("aws", "cloudtrail") + [Quietly(EventType, ct.eventName)];
    first + AwsEventSteps(t.aws(TextOf(FirstUsable(before + first, EventType))), ct)
  }

  function AwsEventSteps(event: AwsEvent, ct: CloudTrail): seq<Step> {
    match event
    case ConsoleLogin => AuthSteps(if ct.failed then LoginFailure else LoginSuccess)
    case Creates => [Quietly(Action, "create")]
    case Deletes => [Quietly(Action, "delete")]
    case OtherEvent => []
  }

  function M365Steps(t: Tables, r: Record, before: seq<Step>): seq<Step> {
    var auth := t.m365(TextOf(FirstUsable(before + Names("microsoft", "m365"), EventType)));
    Names("microsoft", "m365") + AuthSteps(WithOutcome(t, auth, [Extra(r, "status")]))
  }

  function AdSteps(t: Tables, r: Record): seq<Step> {
    Names("microsoft", "windows") + [Quietly(EventSubtype, t.logonType(Extra(r, "logon_type")))] + AuthSteps(t.ad(Extra(r, "event_id")))
  }

  function ApiSteps(t: Tables, r: Record, before: seq<Step>): seq<Step> {
    AuthSteps(WithOutcome(t, t.guess(TextOf(FirstUsable(before, EventType))), [Extra(r, "status"), Extra(r, "outcome")]))
  }

  /** What a source implies but its records leave out. */
  function EnrichSteps(t: Tables, source: Source, r: Record, before: seq<Step>): seq<Step> {
    match source
    case CrowdStrike => Names("crowdstrike", "falcon")
    case Aws => AwsSteps(t, r, before)
    case M365 => M365Steps(t, r, before)
    case Ad => AdSteps(t, r)
    case Api => ApiSteps(t, r, before)
    case Firewall => [Quietly(EventType, "traffic")]
    case Network => [Quietly(EventType, "syslog")]
  }

  // ---------- The source's own form ----------

  /** The fields set are those offered a usable value, and hold the first of them. */
  ghost predicate FieldsAre(fields: map<Name, Value>, steps: seq<Step>) {
    forall n: Name :: (n in fields <==> FirstUsable(steps, n).Some?) && (n in fields ==> Some(fields[n]) == FirstUsable(steps, n))
  }

  /** What offering a value does: nothing to a field that is set, or that the value is no use for. */
  ghost predicate Settles(before: map<Name, Value>, after: map<Name, Value>, name: Name, got: Coerced) {
    after == if name !in before && got.Usable? then before[name := got.value] else before
  }

  /** Every field set holds a value the database takes. */
  ghost predicate FieldsFit(lower: char -> char, fields: map<Name, Value>) {
    forall n: Name :: n in fields ==> Fits(lower, n, fields[n])
  }

  lemma Settled(before: map<Name, Value>, steps: seq<Step>, after: map<Name, Value>, name: Name, got: Coerced, complaint: Option<string>)
    requires FieldsAre(before, steps) && Settles(before, after, name, got)
    ensures FieldsAre(after, steps + [Offer(name, got, complaint)])
  {
    var s := Offer(name, got, complaint);
    forall n: Name
      ensures FirstUsable(steps + [s], n) ==
              if FirstUsable(steps, n).Some? then FirstUsable(steps, n) else if n == name && got.Usable? then Some(got.value) else None
    {
      EarlierWins(steps, [s], n);
      assert [s][1..] == [];
    }
  }

  lemma Marked(fields: map<Name, Value>, steps: seq<Step>, tag: string)
    requires FieldsAre(fields, steps)
    ensures FieldsAre(fields, steps + [Mark(tag)])
  {
    forall n: Name
      ensures FirstUsable(steps + [Mark(tag)], n) == FirstUsable(steps, n)
    {
      EarlierWins(steps, [Mark(tag)], n);
      assert [Mark(tag)][1..] == [];
    }
  }

  lemma KeyStepsGrow(t: Tables, r: Record, keys: seq<Key>, i: nat, prefix: string, so: seq<Step>)
    requires i < |keys|
    ensures so + KeySteps(t, r, keys[..i + 1], prefix) == so + KeySteps(t, r, keys[..i], prefix) + KeyStep(t, r, keys[i], prefix)
  {
    assert keys[..i + 1][..i] == keys[..i];
  }

  lemma PairStepsGrow(t: Tables, pairs: seq<KeyValue.Pair>, i: nat, so: seq<Step>)
    requires i < |pairs|
    ensures so + PairSteps(t, pairs[..i + 1]) == so + PairSteps(t, pairs[..i]) + PairStep(t, pairs[i])
  {
    assert pairs[..i + 1][..i] == pairs[..i];
  }

  lemma Grouped(s: seq<Step>, a: seq<Step>, b: seq<Step>, c: seq<Step>, d: seq<Step>)
    ensures s + a + b + c + d == s + (a + b + c + d) && s + a + b + c == s + (a + b + c) && s + a + b == s + (a + b)
  {}

  class EventBuilder {
    const t: Tables
    const record: Record
    var fields: map<Name, Value>
    var senderTags: seq<string>
    var derived: seq<string>
    var raw: Option<Json>
    /** Every value offered so far and every tag, in order. */
    ghost var steps: seq<Step>

    constructor (t: Tables, record: Record)
      requires Lowers(t.readings.lower)
      ensures this.t == t && this.record == record && steps == [] && senderTags == [] && raw == None && Valid()
    {
      this.t, this.record := t, record;
      fields, senderTags, derived, raw, steps := map[], [], [], None, [];
    }

    ghost predicate Valid()
      reads this
    {
      Lowers(t.readings.lower) && FieldsAre(fields, steps) && FieldsFit(t.readings.lower, fields) && derived == Derived(steps)
    }

    method Tag(tag: string)
      requires Valid()
      modifies this`derived, this`steps
      ensures Valid() && steps == old(steps) + [Mark(tag)]
    {
      DerivedAppends(steps, Mark(tag));
      Marked(fields, steps, tag);
      derived, steps := derived + [tag], steps + [Mark(tag)];
    }

    // Each setter reports false when the value cannot be used, and leaves a field that is set alone.

    method SetText(name: Name, text: string) returns (ok: bool)
      modifies this`fields
      ensures Settles(old(fields), fields, name, CoerceText(text))
      ensures ok <==> name in old(fields) || !CoerceText(text).Unusable?
    {
      var v := CleanText(text);
      if name in fields || v == "" {
        return true;
      }
      if ByteLength(v) > MAX_TEXT {
        return false;
      }
      fields := fields[name := Text(v)];
      ok := true;
    }

    method SetAddr(name: Name, text: string) returns (ok: bool)
      modifies this`fields
      ensures Settles(old(fields), fields, name, CoerceAddress(t.readings, text))
      ensures ok <==> name in old(fields) || !CoerceAddress(t.readings, text).Unusable?
    {
      var v := TrimSpace(text);
      if name in fields || v == "" {
        return true;
      }
      var addr := t.readings.addr(v);
      if addr.None? {
        return false;
      }
      fields := fields[name := Address(addr.value)];
      ok := true;
    }

    method SetInt(name: Name, text: string, low: int, high: int) returns (ok: bool)
      modifies this`fields
      ensures Settles(old(fields), fields, name, CoerceInt(t.readings, text, low, high))
      ensures ok <==> name in old(fields) || !CoerceInt(t.readings, text, low, high).Unusable?
    {
      var v := TrimSpace(text);
      if name in fields || v == "" {
        return true;
      }
      var n := t.readings.number(v);
      if n.None? || n.value < low || n.value > high {
        return false;
      }
      fields := fields[name := Whole(n.value)];
      ok := true;
    }

    /** The setter of a field. */
    method Set(name: Name, text: string) returns (ok: bool)
      modifies this`fields
      ensures Settles(old(fields), fields, name, Coerce(t.readings, name, text))
      ensures ok <==> name in old(fields) || !Coerce(t.readings, name, text).Unusable?
    {
      match KindOf(name) {
        case AnyText => ok := SetText(name, text);
        case LowerText => ok := SetText(name, Lowered(t.readings.lower, text));
        case AnyAddress => ok := SetAddr(name, text);
        case Between(low, high) => ok := SetInt(name, text, low, high);
      }
    }

    /** Sets a field from a value that may have no text form, and complains if that cannot be done. */
    method Take(name: Name, text: Option<string>, complaint: string)
      requires Valid()
      modifies this`fields, this`derived, this`steps
      ensures Valid() && steps == old(steps) + [Offer(name, CoerceAny(t.readings, name, text), Some(complaint))]
    {
      ghost var before := fields;
      var ok := text.Some?;
      if ok {
        ok := Set(name, text.value);
      }
      if !ok {
        derived := derived + [complaint];
      }
      if text.Some? {
        UsableFits(t.readings, name, text.value);
      }
      Offered(before, name, CoerceAny(t.readings, name, text), Some(complaint));
    }

    method Fill(name: Name, text: string)
      requires Valid() && KindOf(name).AnyText?
      modifies this`fields, this`steps
      ensures Valid() && steps == old(steps) + [Quietly(name, text)]
    {
      ghost var before := fields;
      var _ := SetText(name, text);
      UsableFits(t.readings, name, text);
      Offered(before, name, CoerceText(text), None);
    }

    ghost method Offered(before: map<Name, Value>, name: Name, got: Coerced, complaint: Option<string>)
      requires Lowers(t.readings.lower) && FieldsAre(before, steps) && FieldsFit(t.readings.lower, before) && Settles(before, fields, name, got)
      requires got.Usable? ==> Fits(t.readings.lower, name, got.value)
      requires derived == Derived(steps) +
                          if complaint.Some? && (got.NoText? || (got.Unusable? && name !in before)) then [complaint.value] else []
      modifies this`steps
      ensures Valid() && steps == old(steps) + [Offer(name, got, complaint)]
    {
      Settled(before, steps, fields, name, got, complaint);
      DerivedAppends(steps, Offer(name, got, complaint));
      assert Derived(steps) + [] == Derived(steps);
      steps := steps + [Offer(name, got, complaint)];
    }

    // ---------- The JSON path ----------

    method FromKeys(r: Record, keys: seq<Key>, prefix: string)
      requires Valid()
      modifies this`fields, this`derived, this`steps
      ensures Valid() && steps == old(steps) + KeySteps(t, r, keys, prefix)
    {
      assert steps + [] == steps;
      for i := 0 to |keys|
        invariant Valid() && steps == old(steps) + KeySteps(t, r, keys[..i], prefix)
      {
        KeyStepsGrow(t, r, keys, i, prefix, old(steps));
        FromKey(r, keys[i], prefix);
      }
      assert keys[..|keys|] == keys;
    }

    method FromKey(r: Record, key: Key, prefix: string)
      requires Valid()
      modifies this`fields, this`derived, this`steps
      ensures Valid() && steps == old(steps) + KeyStep(t, r, key, prefix)
    {
      assert steps + [] == steps;
      var v := ValueOf(r, key.text);
      if v.Some? {
        Take(key.name, Scalar(v.value), INVALID + (prefix + key.text));
      }
    }

    /** cloudKeys is the order in which the cloud object's keys happen to be visited. */
    method FromJson(cloudKeys: seq<Key>)
      requires Valid() && senderTags == [] && raw == None
      modifies this`fields, this`derived, this`steps, this`senderTags, this`raw
      ensures Valid() && steps == old(steps) + JsonSteps(t, record, cloudKeys)
      ensures senderTags == if SenderTags(record).Some? then SenderTags(record).value else []
      ensures raw == Some(Payload(record))
    {
      Grouped(steps, KeySteps(t, record, t.jsonKeys, ""), CloudSteps(t, record, cloudKeys), TagSteps(record), RawSteps(record));
      FromKeys(record, t.jsonKeys, "");
      FromCloud(cloudKeys);
      ReadSenderTags();
      ReadRaw();
    }

    method ReadRaw()
      requires Valid() && raw == None
      modifies this`derived, this`steps, this`raw
      ensures Valid() && steps == old(steps) + RawSteps(record) && raw == Some(Payload(record))
    {
      assert steps + [] == steps;
      var v := ValueOf(record, RAW);
      if v.Some? {
        if v.value.Obj? {
          raw := v;
        } else {
          Tag(INVALID + RAW);
        }
      }
      if raw.None? {
        var stripped := Stripped();
        raw := Some(Obj(stripped));
      }
    }

    /** The record, less the collector's keys. */
    method Stripped() returns (stripped: Record)
      ensures stripped == WholeRecord(record)
    {
      stripped := record;
      for i := 0 to |COLLECTOR_KEYS|
        invariant stripped == map key | key in record && key !in COLLECTOR_KEYS[..i] :: record[key]
      {
        stripped := stripped - {COLLECTOR_KEYS[i]};
        assert COLLECTOR_KEYS[..i + 1] == COLLECTOR_KEYS[..i] + [COLLECTOR_KEYS[i]];
      }
      assert COLLECTOR_KEYS[..|COLLECTOR_KEYS|] == COLLECTOR_KEYS;
    }

    method FromCloud(cloudKeys: seq<Key>)
      requires Valid()
      modifies this`fields, this`derived, this`steps
      ensures Valid() && steps == old(steps) + CloudSteps(t, record, cloudKeys)
    {
      var cloud := ValueOf(record, CLOUD);
      assert steps + [] == steps;
      if cloud.Some? {
        if !cloud.value.Obj? {
          Tag(INVALID + CLOUD);
        } else {
          FromKeys(cloud.value.fields, cloudKeys, CLOUD + ".");
        }
      }
    }

    method ReadSenderTags()
      requires Valid() && senderTags == []
      modifies this`derived, this`steps, this`senderTags
      ensures Valid() && steps == old(steps) + TagSteps(record)
      ensures senderTags == if SenderTags(record).Some? then SenderTags(record).value else []
    {
      var tags := SenderTags(record);
      assert steps + [] == steps;
      if tags.None? {
        Tag(INVALID + TAGS);
      } else {
        senderTags := tags.value;
      }
    }

    // ---------- The syslog path ----------

    method FromPairs(pairs: seq<KeyValue.Pair>)
      requires Valid()
      modifies this`fields, this`derived, this`steps
      ensures Valid() && steps == old(steps) + PairSteps(t, pairs)
    {
      assert steps + [] == steps;
      for i := 0 to |pairs|
        invariant Valid() && steps == old(steps) + PairSteps(t, pairs[..i])
      {
        PairStepsGrow(t, pairs, i, old(steps));
        FromPair(pairs[i]);
      }
      assert pairs[..|pairs|] == pairs;
    }

    method FromPair(p: KeyValue.Pair)
      requires Valid()
      modifies this`fields, this`derived, this`steps
      ensures Valid() && steps == old(steps) + PairStep(t, p)
    {
      assert steps + [] == steps;
      var name := NameFor(t, p.key);
      if name.Some? {
        Take(name.value, Some(p.value), INVALID + p.key);
      }
    }

    /** The source is the record's, or else what the body looks like. */
    method FromSyslog(line: string, given: Option<Source>) returns (source: Source, time: Option<int>)
      requires Valid() && senderTags == []
      modifies this`fields, this`derived, this`steps, this`senderTags, this`raw
      ensures raw == Some(Obj(map[MESSAGE := Str(line)]))
      ensures Valid() && steps == old(steps) + SyslogSteps(t, record, Syslog.ParseSyslog(t.dates, line))
      ensures senderTags == if SenderTags(record).Some? then SenderTags(record).value else []
      ensures time == Syslog.ParseSyslog(t.dates, line).time
      ensures source == SourceOf(t, KeyValue.Parse(Syslog.ParseSyslog(t.dates, line).body, []), given)
    {
      var m := Syslog.ParseSyslog(t.dates, line);
      source := FromMessage(m, given);
      raw := Some(Obj(map[MESSAGE := Str(line)]));
      time := m.time;
    }

    method FromMessage(m: Syslog.Message, given: Option<Source>) returns (source: Source)
      requires Valid() && senderTags == [] && (m.severity.Some? ==> 0 <= m.severity.value < 8)
      modifies this`fields, this`derived, this`steps, this`senderTags
      ensures Valid() && steps == old(steps) + SyslogSteps(t, record, m)
      ensures senderTags == if SenderTags(record).Some? then SenderTags(record).value else []
      ensures source == SourceOf(t, KeyValue.Parse(m.body, []), given)
    {
      var pairs := KeyValue.ParseKV(m.body);
      source := LooksLike(pairs, given);
      Grouped(steps, PairSteps(t, pairs), HeaderSteps(record, m), TagSteps(record), []);
      FromPairs(pairs);
      FromHeader(m);
      ReadSenderTags();
    }

    method LooksLike(pairs: seq<KeyValue.Pair>, given: Option<Source>) returns (source: Source)
      ensures source == SourceOf(t, pairs, given)
    {
      if given.Some? {
        return given.value;
      }
      for i := 0 to |pairs|
        invariant forall k :: 0 <= k < i ==> !t.ofFirewall(Lowered(t.readings.lower, pairs[k].key))
      {
        if t.ofFirewall(Lowered(t.readings.lower, pairs[i].key)) {
          return Firewall;
        }
      }
      source := Network;
    }

    method FromHeader(m: Syslog.Message)
      requires Valid() && (m.severity.Some? ==> 0 <= m.severity.value < 8)
      modifies this`fields, this`steps
      ensures Valid() && steps == old(steps) + HeaderSteps(record, m)
    {
      Grouped(steps, [Quietly(Host, m.host)], [Quietly(Host, Extra(record, PEER_IP))], [Quietly(Process, m.app)], SeverityStep(m));
      Fill(Host, m.host);
      Fill(Host, Extra(record, PEER_IP));
      Fill(Process, m.app);
      FillSeverity(m);
    }

    method FillSeverity(m: Syslog.Message)
      requires Valid() && (m.severity.Some? ==> 0 <= m.severity.value < 8)
      modifies this`fields, this`steps
      ensures Valid() && steps == old(steps) + SeverityStep(m)
    {
      assert steps + [] == steps;
      if m.severity.Some? {
        ghost var before := fields;
        var severity := SYSLOG_SEVERITY[m.severity.value];
        if Severity !in fields {
          fields := fields[Severity := Whole(severity)];
        }
        Offered(before, Severity, Usable(Whole(severity)), None);
      }
    }

    // ---------- What the source implies ----------

    function Current(name: Name): (text: string)
      requires Valid()
      reads this
      ensures text == TextOf(FirstUsable(steps, name))
    {
      if name in fields && fields[name].Text? then fields[name].text else ""
    }

    method LoggedIn(tag: string)
      requires Valid()
      modifies this`fields, this`derived, this`steps
      ensures Valid() && steps == old(steps) + ([Quietly(Action, "login")] + [Mark(tag)])
    {
      Fill(Action, "login");
      Tag(tag);
    }

    method Authenticated(auth: Auth)
      requires Valid()
      modifies this`fields, this`derived, this`steps
      ensures Valid() && steps == old(steps) + AuthSteps(auth)
    {
      assert steps + [] == steps;
      match auth {
        case LoginSuccess => LoggedIn(AUTH_SUCCESS);
        case LoginFailure => LoggedIn(AUTH_FAILURE);
        case Logout => Fill(Action, "logout");
        case NoAuth =>
      }
    }

    method Named(vendor: string, product: string)
      requires Valid()
      modifies this`fields, this`steps
      ensures Valid() && steps == old(steps) + Names(vendor, product)
    {
      Fill(Vendor, vendor);
      Fill(Product, product);
    }

    method EnrichAws()
      requires Valid()
      modifies this`fields, this`derived, this`steps
      ensures Valid() && steps == old(steps) + AwsSteps(t, record, old(steps))
    {
      Named("aws", "cloudtrail");
      var ct := t.cloudTrail(ValueOf(record, RAW));
      Fill(EventType, ct.eventName);
      ghost var first := Names("aws", "cloudtrail") + [Quietly(EventType, ct.eventName)];
      Grouped(old(steps), Names("aws", "cloudtrail"), [Quietly(EventType, ct.eventName)], [], []);
      var event := t.aws(Current(EventType));
      Grouped(old(steps), first, AwsEventSteps(event, ct), [], []);
      ByAwsEvent(event, ct);
    }

    method ByAwsEvent(event: AwsEvent, ct: CloudTrail)
      requires Valid()
      modifies this`fields, this`derived, this`steps
      ensures Valid() && steps == old(steps) + AwsEventSteps(event, ct)
    {
      assert steps + [] == steps;
      match event {
        case ConsoleLogin => Authenticated(if ct.failed then LoginFailure else LoginSuccess);
        case Creates => Fill(Action, "create");
        case Deletes => Fill(Action, "delete");
        case OtherEvent =>
      }
    }

    method EnrichM365()
      requires Valid()
      modifies this`fields, this`derived, this`steps
      ensures Valid() && steps == old(steps) + M365Steps(t, record, old(steps))
    {
      Named("microsoft", "m365");
      var auth := Decide(t.m365(Current(EventType)), [Extra(record, "status")]);
      Grouped(old(steps), Names("microsoft", "m365"), AuthSteps(auth), [], []);
      Authenticated(auth);
    }

    method EnrichAd()
      requires Valid()
      modifies this`fields, this`derived, this`steps
      ensures Valid() && steps == old(steps) + AdSteps(t, record)
    {
      Named("microsoft", "windows");
      var auth := t.ad(Extra(record, "event_id"));
      var subtype := t.logonType(Extra(record, "logon_type"));
      Grouped(old(steps), Names("microsoft", "windows"), [Quietly(EventSubtype, subtype)], AuthSteps(auth), []);
      Fill(EventSubtype, subtype);
      Authenticated(auth);
    }

    method Decide(first: Auth, statuses: seq<string>) returns (auth: Auth)
      ensures auth == WithOutcome(t, first, statuses)
    {
      auth := first;
      if !(auth.LoginSuccess? || auth.LoginFailure?) {
        return;
      }
      for i := 0 to |statuses|
        invariant auth == first && WithOutcome(t, first, statuses) == WithOutcome(t, first, statuses[i..])
      {
        var ok := t.outcome(statuses[i]);
        if ok.Some? {
          return if ok.value then LoginSuccess else LoginFailure;
        }
        assert statuses[i..][1..] == statuses[i + 1..];
      }
    }

    method Enrich(source: Source)
      requires Valid()
      modifies this`fields, this`derived, this`steps
      ensures Valid() && steps == old(steps) + EnrichSteps(t, source, record, old(steps))
    {
      match source {
        case CrowdStrike => Named("crowdstrike", "falcon");
        case Aws => EnrichAws();
        case M365 => EnrichM365();
        case Ad => EnrichAd();
        case Api =>
          var auth := Decide(t.guess(Current(EventType)), [Extra(record, "status"), Extra(record, "outcome")]);
          Authenticated(auth);
        case Firewall => Fill(EventType, "traffic");
        case Network => Fill(EventType, "syslog");
      }
    }

    // ---------- The tags ----------

    method AssembleTags() returns (tags: seq<string>)
      requires Valid()
      modifies this`derived, this`steps
      ensures Valid() && steps == old(steps) + LongTagSteps(senderTags)
      ensures tags == Assembled(senderTags + derived)
    {
      ghost var so := steps;
      assert so + [] == so;
      for i := 0 to |senderTags|
        invariant Valid() && steps == so && forall k :: 0 <= k < i ==> ByteLength(CleanText(senderTags[k])) <= MAX_TEXT
      {
        if ByteLength(CleanText(senderTags[i])) > MAX_TEXT {
          Tag(INVALID + TAGS);
          break;
        }
      }
      assert steps == so + LongTagSteps(senderTags);
      tags := Assemble(senderTags + derived);
    }
  }

  method Assemble(given: seq<string>) returns (tags: seq<string>)
    ensures tags == Assembled(given)
  {
    tags := [];
    var seen: set<string> := {};
    for i := 0 to |given|
      invariant tags == Assembled(given[..i]) && forall t :: t in seen <==> t in tags
    {
      AssembledAppends(given[..i], given[i]);
      assert given[..i + 1] == given[..i] + [given[i]];
      var t := CleanText(given[i]);
      if t != "" && ByteLength(t) <= MAX_TEXT && t !in seen {
        seen := seen + {t};
        tags := tags + [t];
      }
    }
    assert given[..|given|] == given;
  }

  function LongTagSteps(tags: seq<string>): seq<Step> {
    if exists i :: 0 <= i < |tags| && ByteLength(CleanText(tags[i])) > MAX_TEXT then [Mark(INVALID + TAGS)] else []
  }

  function SourceOf(t: Tables, pairs: seq<KeyValue.Pair>, given: Option<Source>): Source {
    if given.Some? then given.value
    else if exists i :: 0 <= i < |pairs| && t.ofFirewall(Lowered(t.readings.lower, pairs[i].key)) then Firewall
    else Network
  }
}
