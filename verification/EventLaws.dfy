/**
 * What a record's event holds, field by field: which part of the record a
 * field comes from, and what is taken for it where no part says.
 */
module EventLaws {
  import opened Wrappers
  import opened Texts
  import opened Values
  import opened Builder
  import opened Normalize
  import opened NormalizeLaws
  import KeyValue
  import Syslog

  // ---------- In the end ----------

  /** Text as a field takes it: clean, and neither blank nor too long. */
  function TextFor(s: string): Option<Value> {
    if CleanText(s) != "" && ByteLength(CleanText(s)) <= 2048 then Some(Text(CleanText(s))) else None
  }

  function NumberFor(t: Tables, s: string, low: int, high: int): Option<Value> {
    if TrimSpace(s) == "" then None
    else
      var n := t.readings.number(TrimSpace(s));
      if n.Some? && low <= n.value <= high then Some(Whole(n.value)) else None
  }

  function AddressFor(t: Tables, s: string): Option<Value> {
    if TrimSpace(s) == "" then None
    else
      var a := t.readings.addr(TrimSpace(s));
      if a.Some? then Some(Address(a.value)) else None
  }

  /** What a field takes text for, if it can. */
  function ValueFor(t: Tables, name: Name, s: string): Option<Value> {
    match name
    case SrcIP => AddressFor(t, s)
    case DstIP => AddressFor(t, s)
    case Severity => NumberFor(t, s, 0, 10)
    case SrcPort => NumberFor(t, s, 0, 65535)
    case DstPort => NumberFor(t, s, 0, 65535)
    case StatusCode => NumberFor(t, s, 0, 999)
    case Protocol => TextFor(Lowered(t.readings.lower, s))
    case _ => TextFor(s)
  }

  lemma CoerceGives(t: Tables, name: Name, s: string)
    ensures var got := Coerce(t.readings, name, s); ValueFor(t, name, s) == if got.Usable? then Some(got.value) else None
  {}

  function Either(first: Option<Value>, other: Option<Value>): Option<Value> {
    if first.Some? then first else other
  }

  /** A field holds v, but for an action, which is lowered and then replaced if it is a synonym. */
  ghost predicate Holds(rules: Rules, n: Normal, name: Name, v: Option<Value>) {
    if v.None? then name !in n.fields
    else
      && name in n.fields
      && if name == Action then
           && v.value.Text?
           && var low := Lowered(rules.t.readings.lower, v.value.text);
              n.fields[name] == Text(if rules.synonym(low).Some? then rules.synonym(low).value else low)
         else n.fields[name] == v.value
  }

  lemma FieldHolds(rules: Rules, steps: seq<Step>, n: Normal, name: Name)
    requires FieldsComeTo(rules, steps, n.fields)
    ensures Holds(rules, n, name, FirstUsable(steps, name))
  {
    FieldIs(rules, steps, n.fields, name);
  }

  lemma {:induction false} MarksGiveNothing(steps: seq<Step>, name: Name)
    requires forall i :: 0 <= i < |steps| ==> steps[i].Mark?
    ensures FirstUsable(steps, name) == None
  {
    if steps != [] {
      MarksGiveNothing(steps[1..], name);
    }
  }

  lemma OneGives(s: Step, name: Name)
    ensures FirstUsable([s], name) == if Gives(s, name) then Some(s.got.value) else None
  {
    assert [s][1..] == [];
  }

  lemma QuietlyGives(field: Name, s: string, name: Name)
    ensures FirstUsable([Quietly(field, s)], name) == if field == name then TextFor(s) else None
  {
    OneGives(Quietly(field, s), name);
  }

  // ---------- What a syslog line says ----------

  /** What p tells of a field: its value as the field takes it, if its key, lowered and perhaps an alias, is the field's. */
  function Told(t: Tables, p: KeyValue.Pair, name: Name): Option<Value> {
    var low := Lowered(t.readings.lower, p.key);
    if t.setter(if t.alias(low).Some? then t.alias(low).value else low) == Some(name) then ValueFor(t, name, p.value) else None
  }

  lemma PairGives(t: Tables, p: KeyValue.Pair, name: Name)
    ensures FirstUsable(PairStep(t, p), name) == Told(t, p, name)
  {
    CoerceGives(t, name, p.value);
    if NameFor(t, p.key).Some? {
      OneGives(PairStep(t, p)[0], name);
    }
  }

  function AllTold(t: Tables, pairs: seq<KeyValue.Pair>, name: Name): (told: seq<Option<Value>>)
    ensures |told| == |pairs| && forall i :: 0 <= i < |pairs| ==> told[i] == Told(t, pairs[i], name)
  {
    seq(|pairs|, i requires 0 <= i < |pairs| => Told(t, pairs[i], name))
  }

  /** v is the first of vs that is there. */
  predicate IsFirst(vs: seq<Option<Value>>, v: Option<Value>) {
    if v.None? then forall i :: 0 <= i < |vs| ==> vs[i] == None
    else exists i :: 0 <= i < |vs| && vs[i] == v && forall j :: 0 <= j < i ==> vs[j] == None
  }

  lemma OneMoreFirst(vs: seq<Option<Value>>, v: Option<Value>, last: Option<Value>)
    requires IsFirst(vs, v)
    ensures IsFirst(vs + [last], Either(v, last))
  {
    var all := vs + [last];
    assert forall j :: 0 <= j < |vs| ==> all[j] == vs[j];
    if v.Some? {
      var i :| 0 <= i < |vs| && vs[i] == v && forall j :: 0 <= j < i ==> vs[j] == None;
      assert all[i] == v;
    } else if last.Some? {
      assert all[|vs|] == last;
    }
  }

  lemma LastPairGives(t: Tables, pairs: seq<KeyValue.Pair>, name: Name)
    requires pairs != []
    ensures var n := |pairs| - 1;
            FirstUsable(PairSteps(t, pairs), name) == Either(FirstUsable(PairSteps(t, pairs[..n]), name), Told(t, pairs[n], name))
  {
    var n := |pairs| - 1;
    PairGives(t, pairs[n], name);
    EarlierWins(PairSteps(t, pairs[..n]), PairStep(t, pairs[n]), name);
  }

  lemma {:induction false} PairsGive(t: Tables, pairs: seq<KeyValue.Pair>, name: Name)
    ensures IsFirst(AllTold(t, pairs, name), FirstUsable(PairSteps(t, pairs), name))
    decreases |pairs|
  {
    if pairs != [] {
      var n := |pairs| - 1;
      PairsGive(t, pairs[..n], name);
      LastPairGives(t, pairs, name);
      OnePairMore(t, pairs, name, FirstUsable(PairSteps(t, pairs[..n]), name));
    }
  }

  lemma OnePairMore(t: Tables, pairs: seq<KeyValue.Pair>, name: Name, v: Option<Value>)
    requires pairs != [] && IsFirst(AllTold(t, pairs[..|pairs| - 1], name), v)
    ensures IsFirst(AllTold(t, pairs, name), Either(v, Told(t, pairs[|pairs| - 1], name)))
  {
    var n := |pairs| - 1;
    OneMoreFirst(AllTold(t, pairs[..n], name), v, Told(t, pairs[n], name));
    var all, before := AllTold(t, pairs, name), AllTold(t, pairs[..n], name);
    forall i | 0 <= i < n
      ensures all[i] == before[i]
    {
      assert pairs[..n][i] == pairs[i];
    }
    LastAlike(all, before, Told(t, pairs[n], name));
  }

  lemma LastAlike(all: seq<Option<Value>>, before: seq<Option<Value>>, last: Option<Value>)
    requires |all| == |before| + 1 && all[|before|] == last && forall i :: 0 <= i < |before| ==> all[i] == before[i]
    ensures all == before + [last]
  {}

  /** The schema's scale for syslog's severities, from an emergency to debugging. */
  function Scaled(severity: int): int {
    if severity == 0 then 10 else if severity == 1 then 9 else if severity == 2 then 8 else if severity == 3 then 7
    else if severity == 4 then 5 else if severity == 5 then 3 else if severity == 6 then 2 else 0
  }

  /** What the line's header says of a field; the peer's address stands in for a host. */
  function HeaderSays(r: Record, m: Syslog.Message, name: Name): Option<Value> {
    match name
    case Host => Either(TextFor(m.host), TextFor(Extra(r, "peer_ip")))
    case Process => TextFor(m.app)
    case Severity => if m.severity.Some? then Some(Whole(Scaled(m.severity.value))) else None
    case _ => None
  }

  lemma SeverityGives(m: Syslog.Message, name: Name)
    requires m.severity.Some? ==> 0 <= m.severity.value < 8
    ensures FirstUsable(SeverityStep(m), name) == if name == Severity && m.severity.Some? then Some(Whole(Scaled(m.severity.value))) else None
  {
    if m.severity.Some? {
      OneGives(SeverityStep(m)[0], name);
    }
  }

  lemma HeaderGives(r: Record, m: Syslog.Message, name: Name)
    requires m.severity.Some? ==> 0 <= m.severity.value < 8
    ensures FirstUsable(HeaderSteps(r, m), name) == HeaderSays(r, m, name)
  {
    var host, peer, app := [Quietly(Host, m.host)], [Quietly(Host, Extra(r, PEER_IP))], [Quietly(Process, m.app)];
    EarlierWins(host, peer, name);
    EarlierWins(host + peer, app, name);
    EarlierWins(host + peer + app, SeverityStep(m), name);
    QuietlyGives(Host, m.host, name);
    QuietlyGives(Host, Extra(r, PEER_IP), name);
    QuietlyGives(Process, m.app, name);
    SeverityGives(m, name);
  }

  lemma TagsGiveNothing(r: Record, name: Name)
    ensures FirstUsable(TagSteps(r), name) == None && FirstUsable(RawSteps(r), name) == None
  {
    MarksGiveNothing(TagSteps(r), name);
    MarksGiveNothing(RawSteps(r), name);
  }

  lemma TimeGivesNothing(t: Tables, r: Record, now: int, retention: int, header: Option<int>, name: Name)
    ensures FirstUsable(TimeSteps(t, r, now, retention, header), name) == None
  {
    MarksGiveNothing(TimeSteps(t, r, now, retention, header), name);
  }

  lemma LineGives(t: Tables, r: Record, m: Syslog.Message, name: Name)
    requires m.severity.Some? ==> 0 <= m.severity.value < 8
    ensures FirstUsable(SyslogSteps(t, r, m), name) ==
            Either(FirstUsable(PairSteps(t, KeyValue.Parse(m.body, [])), name), HeaderSays(r, m, name))
  {
    var pairs := PairSteps(t, KeyValue.Parse(m.body, []));
    EarlierWins(pairs, HeaderSteps(r, m), name);
    EarlierWins(pairs + HeaderSteps(r, m), TagSteps(r), name);
    HeaderGives(r, m, name);
    TagsGiveNothing(r, name);
  }

  lemma AllGive(rules: Rules, r: Record, k: Origin, cloudKeys: seq<Key>, now: int, retention: int, name: Name)
    requires k.source.Some? || k.line.Some?
    ensures var own := RecordSteps(rules, r, k, cloudKeys) + TimeSteps(rules.t, r, now, retention, HeaderTime(rules, k));
            && FirstUsable(own, name) == FirstUsable(RecordSteps(rules, r, k, cloudKeys), name)
            && FirstUsable(AllSteps(rules, r, k, cloudKeys, now, retention), name) ==
               Either(FirstUsable(RecordSteps(rules, r, k, cloudKeys), name), FirstUsable(EnrichSteps(rules.t, FinalSource(rules, k), r, own), name))
  {
    var record := RecordSteps(rules, r, k, cloudKeys);
    var times := TimeSteps(rules.t, r, now, retention, HeaderTime(rules, k));
    TimeGivesNothing(rules.t, r, now, retention, HeaderTime(rules, k), name);
    EarlierWins(record, times, name);
    EarlierWins(record + times, EnrichSteps(rules.t, FinalSource(rules, k), r, record + times), name);
  }

  // ---------- Words ----------

  predicate Plain(s: string) {
    0 < |s| <= 20 && forall i :: 0 <= i < |s| ==> '0' <= s[i] <= '9' || 'a' <= s[i] <= 'z'
  }

  lemma {:induction false} PlainLength(s: string)
    requires forall i :: 0 <= i < |s| ==> '0' <= s[i] <= '9' || 'a' <= s[i] <= 'z'
    ensures ByteLength(s) == |s|
  {
    if s != [] {
      PlainLength(s[1..]);
    }
  }

  lemma PlainFor(s: string)
    requires Plain(s)
    ensures TextFor(s) == Some(Text(s))
  {
    PlainLength(s);
    CleanTextFixes(s);
  }

  lemma WordGives(field: Name, word: string, name: Name)
    requires Plain(word)
    ensures FirstUsable([Quietly(field, word)], name) == if field == name then Some(Text(word)) else None
  {
    QuietlyGives(field, word, name);
    PlainFor(word);
  }

  lemma SourcesArePlain()
    ensures Plain("traffic") && Plain("syslog")
  {}

  // ---------- The event of a syslog line ----------

  /** A line is read for records that name no source, or one of the two categories of syslog. */
  predicate IsLine(k: Origin) {
    k.line.Some? && (k.source == None || k.source == Some(Firewall) || k.source == Some(Network))
  }

  /** Some pair's key, lowered, is a firewall's. */
  predicate Walled(t: Tables, pairs: seq<KeyValue.Pair>) {
    exists i :: 0 <= i < |pairs| && t.ofFirewall(Lowered(t.readings.lower, pairs[i].key))
  }

  lemma LineSource(rules: Rules, k: Origin, m: Syslog.Message)
    requires IsLine(k) && m == Syslog.ParseSyslog(rules.t.dates, k.line.value)
    ensures FinalSource(rules, k) ==
            if k.source.Some? then k.source.value else if Walled(rules.t, KeyValue.Parse(m.body, [])) then Firewall else Network
  {}

  lemma LineEnrich(t: Tables, source: Source, r: Record, before: seq<Step>, name: Name)
    requires source == Firewall || source == Network
    ensures FirstUsable(EnrichSteps(t, source, r, before), name) ==
            if name == EventType then Some(Text(if source == Firewall then "traffic" else "syslog")) else None
  {
    SourcesArePlain();
    WordGives(EventType, if source == Firewall then "traffic" else "syslog", name);
  }

  /** What a line comes to where none of its pairs tells. */
  function LineSays(r: Record, m: Syslog.Message, source: Source, name: Name): Option<Value> {
    if name == EventType then Some(Text(if source == Firewall then "traffic" else "syslog")) else HeaderSays(r, m, name)
  }

  /** The field holds what the first pair to tell it tells, and else what the header and the source say. */
  ghost predicate PairOrHeader(rules: Rules, r: Record, m: Syslog.Message, n: Normal, name: Name) {
    exists told :: IsFirst(AllTold(rules.t, KeyValue.Parse(m.body, []), name), told) &&
                   Holds(rules, n, name, if told.Some? then told else LineSays(r, m, n.source, name))
  }

  /**
   * A field of a syslog line's event holds what the first pair to tell it
   * tells, whatever the header says. Where none does, the host is the header's
   * or else the peer's address, the process the header's app, the severity the
   * header's on the schema's scale, the event type by the source; and no other
   * field is set. The source is the record's, or else the firewall's if a key
   * is one of a firewall's.
   */
  lemma LineEvent(rules: Rules, r: Record, k: Origin, cloudKeys: seq<Key>, now: int, retention: int, n: Normal, m: Syslog.Message, name: Name)
    requires IsLine(k) && ComesTo(rules, r, k, cloudKeys, now, retention, n)
    requires m == Syslog.ParseSyslog(rules.t.dates, k.line.value)
    ensures PairOrHeader(rules, r, m, n, name)
    ensures n.source == if k.source.Some? then k.source.value else if Walled(rules.t, KeyValue.Parse(m.body, [])) then Firewall else Network
  {
    FieldHolds(rules, AllSteps(rules, r, k, cloudKeys, now, retention), n, name);
    LineSource(rules, k, m);
    LineComesTo(rules, r, k, cloudKeys, now, retention, m, name);
    PairsGive(rules.t, KeyValue.Parse(m.body, []), name);
  }

  lemma LineComesTo(rules: Rules, r: Record, k: Origin, cloudKeys: seq<Key>, now: int, retention: int, m: Syslog.Message, name: Name)
    requires IsLine(k) && m == Syslog.ParseSyslog(rules.t.dates, k.line.value)
    ensures FirstUsable(AllSteps(rules, r, k, cloudKeys, now, retention), name) ==
            Either(FirstUsable(PairSteps(rules.t, KeyValue.Parse(m.body, [])), name), LineSays(r, m, FinalSource(rules, k), name))
  {
    AllGive(rules, r, k, cloudKeys, now, retention, name);
    LineGives(rules.t, r, m, name);
    LineSource(rules, k, m);
    LineEnrich(rules.t, FinalSource(rules, k), r,
               RecordSteps(rules, r, k, cloudKeys) + TimeSteps(rules.t, r, now, retention, HeaderTime(rules, k)), name);
  }

  // ---------- The event of any other record ----------

  /** What a key of the record says of a field: text and numbers do. */
  function Read(t: Tables, r: Record, key: Key, name: Name): Option<Value> {
    if key.name != name || key.text !in r then None
    else
      match r[key.text]
      case Str(s) => ValueFor(t, name, s)
      case Num(s) => ValueFor(t, name, s)
      case _ => None
  }

  function AllRead(t: Tables, r: Record, keys: seq<Key>, name: Name): (read: seq<Option<Value>>)
    ensures |read| == |keys| && forall i :: 0 <= i < |keys| ==> read[i] == Read(t, r, keys[i], name)
  {
    seq(|keys|, i requires 0 <= i < |keys| => Read(t, r, keys[i], name))
  }

  lemma KeyGives(t: Tables, r: Record, key: Key, prefix: string, name: Name)
    ensures FirstUsable(KeyStep(t, r, key, prefix), name) == Read(t, r, key, name)
  {
    if ValueOf(r, key.text).Some? {
      OneGives(KeyStep(t, r, key, prefix)[0], name);
      match r[key.text] {
        case Str(s) => CoerceGives(t, name, s);
        case Num(s) => CoerceGives(t, name, s);
        case _ =>
      }
    }
  }

  lemma LastKeyGives(t: Tables, r: Record, keys: seq<Key>, prefix: string, name: Name)
    requires keys != []
    ensures var n := |keys| - 1;
            FirstUsable(KeySteps(t, r, keys, prefix), name) == Either(FirstUsable(KeySteps(t, r, keys[..n], prefix), name), Read(t, r, keys[n], name))
  {
    var n := |keys| - 1;
    KeyGives(t, r, keys[n], prefix, name);
    EarlierWins(KeySteps(t, r, keys[..n], prefix), KeyStep(t, r, keys[n], prefix), name);
  }

  lemma {:induction false} KeysGive(t: Tables, r: Record, keys: seq<Key>, prefix: string, name: Name)
    ensures IsFirst(AllRead(t, r, keys, name), FirstUsable(KeySteps(t, r, keys, prefix), name))
    decreases |keys|
  {
    if keys != [] {
      var n := |keys| - 1;
      KeysGive(t, r, keys[..n], prefix, name);
      LastKeyGives(t, r, keys, prefix, name);
      OneKeyMore(t, r, keys, name, FirstUsable(KeySteps(t, r, keys[..n], prefix), name));
    }
  }

  lemma OneKeyMore(t: Tables, r: Record, keys: seq<Key>, name: Name, v: Option<Value>)
    requires keys != [] && IsFirst(AllRead(t, r, keys[..|keys| - 1], name), v)
    ensures IsFirst(AllRead(t, r, keys, name), Either(v, Read(t, r, keys[|keys| - 1], name)))
  {
    var n := |keys| - 1;
    OneMoreFirst(AllRead(t, r, keys[..n], name), v, Read(t, r, keys[n], name));
    var all, before := AllRead(t, r, keys, name), AllRead(t, r, keys[..n], name);
    forall i | 0 <= i < n
      ensures all[i] == before[i]
    {
      assert keys[..n][i] == keys[i];
    }
    LastAlike(all, before, Read(t, r, keys[n], name));
  }

  /** The object under "cloud", if there is one. */
  function CloudOf(r: Record): Record {
    if "cloud" in r && r["cloud"].Obj? then r["cloud"].fields else map[]
  }

  lemma CloudGives(t: Tables, r: Record, cloudKeys: seq<Key>, name: Name)
    ensures IsFirst(AllRead(t, CloudOf(r), cloudKeys, name), FirstUsable(CloudSteps(t, r, cloudKeys), name))
  {
    if ValueOf(r, CLOUD).Some? && r[CLOUD].Obj? {
      KeysGive(t, CloudOf(r), cloudKeys, CLOUD + ".", name);
    } else {
      MarksGiveNothing(CloudSteps(t, r, cloudKeys), name);
    }
  }

  /** What the record says: the first key of the table to say it, or else of its cloud object. */
  ghost predicate Says(t: Tables, r: Record, cloudKeys: seq<Key>, name: Name, v: Option<Value>) {
    exists own, cloud :: IsFirst(AllRead(t, r, t.jsonKeys, name), own) && IsFirst(AllRead(t, CloudOf(r), cloudKeys, name), cloud)
                         && v == Either(own, cloud)
  }

  lemma FourGive(a: seq<Step>, b: seq<Step>, c: seq<Step>, d: seq<Step>, name: Name)
    ensures FirstUsable(a + b + c + d, name) ==
            Either(FirstUsable(a, name), Either(FirstUsable(b, name), Either(FirstUsable(c, name), FirstUsable(d, name))))
  {
    EarlierWins(a, b, name);
    EarlierWins(a + b, c, name);
    EarlierWins(a + b + c, d, name);
  }

  lemma RecordSays(t: Tables, r: Record, cloudKeys: seq<Key>, name: Name)
    ensures Says(t, r, cloudKeys, name, FirstUsable(JsonSteps(t, r, cloudKeys), name))
  {
    var keys, cloud := KeySteps(t, r, t.jsonKeys, ""), CloudSteps(t, r, cloudKeys);
    FourGive(keys, cloud, TagSteps(r), RawSteps(r), name);
    TagsGiveNothing(r, name);
    KeysGive(t, r, t.jsonKeys, "", name);
    CloudGives(t, r, cloudKeys, name);
    BothSay(t, r, cloudKeys, name, FirstUsable(keys, name), FirstUsable(cloud, name));
  }

  lemma BothSay(t: Tables, r: Record, cloudKeys: seq<Key>, name: Name, own: Option<Value>, cloud: Option<Value>)
    requires IsFirst(AllRead(t, r, t.jsonKeys, name), own) && IsFirst(AllRead(t, CloudOf(r), cloudKeys, name), cloud)
    ensures Says(t, r, cloudKeys, name, Either(own, cloud))
  {}

  // ---------- What a source implies ----------

  /** A status that tells how a login went decides it, the first before the second. */
  function Decided(auth: Auth, first: Option<bool>, second: Option<bool>): Auth {
    if auth != LoginSuccess && auth != LoginFailure then auth
    else if first.Some? then if first.value then LoginSuccess else LoginFailure
    else if second.Some? then if second.value then LoginSuccess else LoginFailure
    else auth
  }

  /** Whether the event is a login or a logout, going by its type, its id or its status. */
  function AuthOf(t: Tables, r: Record, source: Source, eventType: string): Auth {
    match source
    case Aws =>
      if !t.aws(eventType).ConsoleLogin? then NoAuth
      else if t.cloudTrail(ValueOf(r, "raw")).failed then LoginFailure else LoginSuccess
    case M365 => Decided(t.m365(eventType), t.outcome(Extra(r, "status")), None)
    case Ad => t.ad(Extra(r, "event_id"))
    case Api => Decided(t.guess(eventType), t.outcome(Extra(r, "status")), t.outcome(Extra(r, "outcome")))
    case _ => NoAuth
  }

  /** The action of what happened: a login or logout, or something created or deleted in the cloud. */
  function ActionFor(t: Tables, r: Record, source: Source, eventType: string): Option<Value> {
    match AuthOf(t, r, source, eventType)
    case LoginSuccess => Some(Text("login"))
    case LoginFailure => Some(Text("login"))
    case Logout => Some(Text("logout"))
    case NoAuth =>
      if source == Aws && t.aws(eventType).Creates? then Some(Text("create"))
      else if source == Aws && t.aws(eventType).Deletes? then Some(Text("delete")) else None
  }

  /** What the source implies of a field that the record leaves out. */
  function Implied(t: Tables, r: Record, source: Source, eventType: string, name: Name): Option<Value> {
    match name
    case Vendor => (match source
      case CrowdStrike => Some(Text("crowdstrike"))
      case Aws => Some(Text("aws"))
      case M365 => Some(Text("microsoft"))
      case Ad => Some(Text("microsoft"))
      case _ => None)
    case Product => (match source
      case CrowdStrike => Some(Text("falcon"))
      case Aws => Some(Text("cloudtrail"))
      case M365 => Some(Text("m365"))
      case Ad => Some(Text("windows"))
      case _ => None)
    case EventType => (match source
      case Aws => TextFor(t.cloudTrail(ValueOf(r, "raw")).eventName)
      case Firewall => Some(Text("traffic"))
      case Network => Some(Text("syslog"))
      case _ => None)
    case EventSubtype => if source == Ad then TextFor(t.logonType(Extra(r, "logon_type"))) else None
    case Action => ActionFor(t, r, source, eventType)
    case _ => None
  }

  lemma NamesArePlain()
    ensures Plain("crowdstrike") && Plain("falcon") && Plain("aws") && Plain("cloudtrail") && Plain("microsoft") && Plain("m365")
    ensures Plain("windows")
  {}

  lemma ActionsArePlain()
    ensures Plain("login") && Plain("logout") && Plain("create") && Plain("delete")
  {}

  lemma NamesGive(vendor: string, product: string, name: Name)
    requires Plain(vendor) && Plain(product)
    ensures FirstUsable(Names(vendor, product), name) ==
            if name == Vendor then Some(Text(vendor)) else if name == Product then Some(Text(product)) else None
  {
    EarlierWins([Quietly(Vendor, vendor)], [Quietly(Product, product)], name);
    WordGives(Vendor, vendor, name);
    WordGives(Product, product, name);
  }

  lemma AuthGives(auth: Auth, name: Name)
    ensures FirstUsable(AuthSteps(auth), name) ==
            if name != Action || auth == NoAuth then None else Some(Text(if auth == Logout then "logout" else "login"))
  {
    ActionsArePlain();
    match auth {
      case LoginSuccess => LoginGives(AUTH_SUCCESS, name);
      case LoginFailure => LoginGives(AUTH_FAILURE, name);
      case Logout => WordGives(Action, "logout", name);
      case NoAuth =>
    }
  }

  lemma LoginGives(tag: string, name: Name)
    ensures FirstUsable([Quietly(Action, "login")] + [Mark(tag)], name) == if name == Action then Some(Text("login")) else None
  {
    ActionsArePlain();
    EarlierWins([Quietly(Action, "login")], [Mark(tag)], name);
    WordGives(Action, "login", name);
    OneGives(Mark(tag), name);
  }

  lemma OneOutcome(t: Tables, auth: Auth, status: string)
    ensures WithOutcome(t, auth, [status]) == Decided(auth, t.outcome(status), None)
  {
    assert [status][1..] == [];
  }

  lemma TwoOutcomes(t: Tables, auth: Auth, one: string, other: string)
    ensures WithOutcome(t, auth, [one, other]) == Decided(auth, t.outcome(one), t.outcome(other))
  {
    OneOutcome(t, auth, other);
    assert [one, other][1..] == [other];
  }

  lemma AwsEventGives(t: Tables, r: Record, eventType: string, name: Name)
    ensures FirstUsable(AwsEventSteps(t.aws(eventType), t.cloudTrail(ValueOf(r, RAW))), name) ==
            if name == Action then ActionFor(t, r, Aws, eventType) else None
  {
    ActionsArePlain();
    match t.aws(eventType) {
      case ConsoleLogin => AuthGives(if t.cloudTrail(ValueOf(r, RAW)).failed then LoginFailure else LoginSuccess, name);
      case Creates => WordGives(Action, "create", name);
      case Deletes => WordGives(Action, "delete", name);
      case OtherEvent =>
    }
  }

  lemma NamesTyped(vendor: string, product: string, eventType: string, name: Name)
    requires Plain(vendor) && Plain(product)
    ensures FirstUsable(Names(vendor, product) + [Quietly(EventType, eventType)], name) ==
            if name == Vendor then Some(Text(vendor)) else if name == Product then Some(Text(product))
            else if name == EventType then TextFor(eventType) else None
  {
    NamesGive(vendor, product, name);
    QuietlyGives(EventType, eventType, name);
    EarlierWins(Names(vendor, product), [Quietly(EventType, eventType)], name);
  }

  lemma TypeGoesOn(before: seq<Step>, vendor: string, product: string, eventType: string)
    requires Plain(vendor) && Plain(product)
    ensures FirstUsable(before + (Names(vendor, product) + [Quietly(EventType, eventType)]), EventType) ==
            Either(FirstUsable(before, EventType), TextFor(eventType))
  {
    NamesTyped(vendor, product, eventType, EventType);
    EarlierWins(before, Names(vendor, product) + [Quietly(EventType, eventType)], EventType);
  }

  lemma AwsGives(t: Tables, r: Record, before: seq<Step>, name: Name)
    ensures var own := FirstUsable(before, EventType);
            var eventType := TextOf(Either(own, TextFor(t.cloudTrail(ValueOf(r, RAW)).eventName)));
            FirstUsable(AwsSteps(t, r, before), name) == Implied(t, r, Aws, eventType, name)
  {
    var ct := t.cloudTrail(ValueOf(r, RAW));
    var eventType := TextOf(Either(FirstUsable(before, EventType), TextFor(ct.eventName)));
    NamesArePlain();
    TypeGoesOn(before, "aws", "cloudtrail", ct.eventName);
    NamesTyped("aws", "cloudtrail", ct.eventName, name);
    AwsEventGives(t, r, eventType, name);
    EarlierWins(Names("aws", "cloudtrail") + [Quietly(EventType, ct.eventName)], AwsEventSteps(t.aws(eventType), ct), name);
  }

  lemma NamesKeepType(before: seq<Step>, vendor: string, product: string)
    requires Plain(vendor) && Plain(product)
    ensures FirstUsable(before + Names(vendor, product), EventType) == FirstUsable(before, EventType)
  {
    NamesGive(vendor, product, EventType);
    EarlierWins(before, Names(vendor, product), EventType);
  }

  lemma M365Outcome(t: Tables, r: Record, eventType: string)
    ensures WithOutcome(t, t.m365(eventType), [Extra(r, "status")]) == AuthOf(t, r, M365, eventType)
  {
    OneOutcome(t, t.m365(eventType), Extra(r, "status"));
  }

  lemma M365Are(t: Tables, r: Record, before: seq<Step>)
    ensures M365Steps(t, r, before) == Names("microsoft", "m365") + AuthSteps(AuthOf(t, r, M365, TextOf(FirstUsable(before, EventType))))
  {
    NamesArePlain();
    NamesKeepType(before, "microsoft", "m365");
    M365Outcome(t, r, TextOf(FirstUsable(before, EventType)));
  }

  lemma M365Gives(t: Tables, r: Record, before: seq<Step>, name: Name)
    ensures FirstUsable(M365Steps(t, r, before), name) == Implied(t, r, M365, TextOf(FirstUsable(before, EventType)), name)
  {
    M365Are(t, r, before);
    M365Implies(t, r, TextOf(FirstUsable(before, EventType)), name);
  }

  lemma M365Implies(t: Tables, r: Record, eventType: string, name: Name)
    ensures FirstUsable(Names("microsoft", "m365") + AuthSteps(AuthOf(t, r, M365, eventType)), name) == Implied(t, r, M365, eventType, name)
  {
    NamesArePlain();
    NamesThenAuth("microsoft", "m365", AuthOf(t, r, M365, eventType), name);
    M365Says(t, r, eventType, name);
  }

  lemma M365Says(t: Tables, r: Record, eventType: string, name: Name)
    ensures var auth := AuthOf(t, r, M365, eventType);
            Implied(t, r, M365, eventType, name) ==
            if name == Vendor then Some(Text("microsoft")) else if name == Product then Some(Text("m365"))
            else if name != Action || auth == NoAuth then None else Some(Text(if auth == Logout then "logout" else "login"))
  {}

  lemma NamesThenAuth(vendor: string, product: string, auth: Auth, name: Name)
    requires Plain(vendor) && Plain(product)
    ensures FirstUsable(Names(vendor, product) + AuthSteps(auth), name) ==
            if name == Vendor then Some(Text(vendor)) else if name == Product then Some(Text(product))
            else if name != Action || auth == NoAuth then None else Some(Text(if auth == Logout then "logout" else "login"))
  {
    NamesGive(vendor, product, name);
    AuthGives(auth, name);
    EarlierWins(Names(vendor, product), AuthSteps(auth), name);
  }

  lemma AdGives(t: Tables, r: Record, eventType: string, name: Name)
    ensures FirstUsable(AdSteps(t, r), name) == Implied(t, r, Ad, eventType, name)
  {
    NamesArePlain();
    SubtypeThenAuth("microsoft", "windows", t.logonType(Extra(r, "logon_type")), t.ad(Extra(r, "event_id")), name);
    AdSays(t, r, eventType, name);
  }

  lemma SubtypeThenAuth(vendor: string, product: string, subtype: string, auth: Auth, name: Name)
    requires Plain(vendor) && Plain(product)
    ensures FirstUsable(Names(vendor, product) + [Quietly(EventSubtype, subtype)] + AuthSteps(auth), name) ==
            if name == Vendor then Some(Text(vendor)) else if name == Product then Some(Text(product))
            else if name == EventSubtype then TextFor(subtype)
            else if name != Action || auth == NoAuth then None else Some(Text(if auth == Logout then "logout" else "login"))
  {
    NamesGive(vendor, product, name);
    QuietlyGives(EventSubtype, subtype, name);
    AuthGives(auth, name);
    EarlierWins(Names(vendor, product), [Quietly(EventSubtype, subtype)], name);
    EarlierWins(Names(vendor, product) + [Quietly(EventSubtype, subtype)], AuthSteps(auth), name);
  }

  lemma AdSays(t: Tables, r: Record, eventType: string, name: Name)
    ensures var auth := t.ad(Extra(r, "event_id"));
            Implied(t, r, Ad, eventType, name) ==
            if name == Vendor then Some(Text("microsoft")) else if name == Product then Some(Text("windows"))
            else if name == EventSubtype then TextFor(t.logonType(Extra(r, "logon_type")))
            else if name != Action || auth == NoAuth then None else Some(Text(if auth == Logout then "logout" else "login"))
  {}

  lemma ApiGives(t: Tables, r: Record, before: seq<Step>, name: Name)
    ensures FirstUsable(ApiSteps(t, r, before), name) == Implied(t, r, Api, TextOf(FirstUsable(before, EventType)), name)
  {
    var auth := t.guess(TextOf(FirstUsable(before, EventType)));
    TwoOutcomes(t, auth, Extra(r, "status"), Extra(r, "outcome"));
    AuthGives(WithOutcome(t, auth, [Extra(r, "status"), Extra(r, "outcome")]), name);
  }

  /** The event type in the end, which is what the source goes by. */
  function FinalType(t: Tables, r: Record, source: Source, own: Option<Value>): string {
    TextOf(Either(own, Implied(t, r, source, "", EventType)))
  }

  lemma FalconGives(t: Tables, r: Record, before: seq<Step>, eventType: string, name: Name)
    ensures FirstUsable(EnrichSteps(t, CrowdStrike, r, before), name) == Implied(t, r, CrowdStrike, eventType, name)
  {
    NamesArePlain();
    NamesGive("crowdstrike", "falcon", name);
  }

  lemma LineImplies(t: Tables, source: Source, r: Record, before: seq<Step>, eventType: string, name: Name)
    requires source == Firewall || source == Network
    ensures FirstUsable(EnrichSteps(t, source, r, before), name) == Implied(t, r, source, eventType, name)
  {
    LineEnrich(t, source, r, before, name);
  }

  lemma EnrichGives(t: Tables, source: Source, r: Record, before: seq<Step>, name: Name)
    ensures var eventType := FinalType(t, r, source, FirstUsable(before, EventType));
            FirstUsable(EnrichSteps(t, source, r, before), name) == Implied(t, r, source, eventType, name)
  {
    match source {
      case CrowdStrike => FalconGives(t, r, before, FinalType(t, r, source, FirstUsable(before, EventType)), name);
      case Aws => AwsGives(t, r, before, name);
      case M365 => M365Gives(t, r, before, name);
      case Ad => AdGives(t, r, FinalType(t, r, source, FirstUsable(before, EventType)), name);
      case Api => ApiGives(t, r, before, name);
      case Firewall => LineImplies(t, source, r, before, FinalType(t, r, source, FirstUsable(before, EventType)), name);
      case Network => LineImplies(t, source, r, before, FinalType(t, r, source, FirstUsable(before, EventType)), name);
    }
  }

  function TypeOf(n: Normal): string {
    if EventType in n.fields && n.fields[EventType].Text? then n.fields[EventType].text else ""
  }

  /** The field holds what the record says, and else what its source implies. */
  ghost predicate RecordOrSource(rules: Rules, r: Record, cloudKeys: seq<Key>, n: Normal, name: Name) {
    exists own :: Says(rules.t, r, cloudKeys, name, own) && Holds(rules, n, name, Either(own, Implied(rules.t, r, n.source, TypeOf(n), name)))
  }

  /**
   * A field of any other record's event holds what the first of its keys to
   * say it says, or else what its cloud object says. Where neither does, it is
   * what the source implies, going by the event's type in the end.
   */
  lemma RecordEvent(rules: Rules, r: Record, k: Origin, cloudKeys: seq<Key>, now: int, retention: int, n: Normal, name: Name)
    requires k.line.None? && k.source.Some? && ComesTo(rules, r, k, cloudKeys, now, retention, n)
    ensures RecordOrSource(rules, r, cloudKeys, n, name) && n.source == k.source.value
  {
    var steps := AllSteps(rules, r, k, cloudKeys, now, retention);
    FieldHolds(rules, steps, n, name);
    FieldHolds(rules, steps, n, EventType);
    RecordSays(rules.t, r, cloudKeys, name);
    RecordComesTo(rules, r, k, cloudKeys, now, retention, name);
    RecordComesTo(rules, r, k, cloudKeys, now, retention, EventType);
  }

  lemma RecordComesTo(rules: Rules, r: Record, k: Origin, cloudKeys: seq<Key>, now: int, retention: int, name: Name)
    requires k.line.None? && k.source.Some?
    ensures var own := JsonSteps(rules.t, r, cloudKeys);
            var eventType := FinalType(rules.t, r, k.source.value, FirstUsable(own, EventType));
            FirstUsable(AllSteps(rules, r, k, cloudKeys, now, retention), name) ==
              Either(FirstUsable(own, name), Implied(rules.t, r, k.source.value, eventType, name))
  {
    var own := RecordSteps(rules, r, k, cloudKeys) + TimeSteps(rules.t, r, now, retention, HeaderTime(rules, k));
    AllGive(rules, r, k, cloudKeys, now, retention, name);
    AllGive(rules, r, k, cloudKeys, now, retention, EventType);
    EnrichGives(rules.t, k.source.value, r, own, name);
  }

  // ---------- What is refused ----------

  /** A string of the record, or what is taken for one that is missing or blank; None for anything but a string. */
  function Given(r: Record, key: string, otherwise: string): Option<string> {
    if key !in r then Some(otherwise)
    else
      match r[key]
      case Null => Some(otherwise)
      case Str(s) => Some(if TrimSpace(s) == "" then otherwise else TrimSpace(s))
      case _ => None
  }

  predicate TenantFine(rules: Rules, tenant: Option<string>) {
    tenant.Some? && tenant.value != "" && rules.validTenant(tenant.value)
  }

  /** None if no source is named, and else the one it is, if it is one. */
  function SourceFor(rules: Rules, named: string): Option<Source> {
    var low := Lowered(rules.t.readings.lower, named);
    if low == "" then None else rules.sourceNamed(low)
  }

  /** The message of a record that may hold a syslog line. */
  function LineIn(r: Record, source: Option<Source>): Option<string> {
    if "message" in r && r["message"].Str? && (source == None || source == Some(Firewall) || source == Some(Network))
    then Some(r["message"].text) else None
  }

  lemma GivenIs(r: Record, key: string, otherwise: string)
    ensures Identity(r, key, otherwise) == Given(r, key, otherwise)
  {}

  lemma LineIs(r: Record, source: Option<Source>)
    ensures SyslogLine(r, source) == LineIn(r, source)
  {}

  lemma TenantIs(rules: Rules, r: Record, d: Defaults)
    ensures var tenant, given := TenantIn(rules, r, d), Given(r, "tenant", d.tenant);
            && (tenant.Success? <==> TenantFine(rules, given))
            && (tenant.Success? ==> given == Some(tenant.value))
            && (tenant.Failure? ==>
                  || (tenant.error == MissingTenant && given == Some(""))
                  || (tenant.error == InvalidTenant && (given.None? || (given.value != "" && !rules.validTenant(given.value)))))
  {
    GivenIs(r, "tenant", d.tenant);
  }

  lemma SourceIs(rules: Rules, r: Record, d: Defaults)
    ensures var source, given := SourceIn(rules, r, d), Given(r, "source", d.source);
            && (source.Success? <==> given.Some? && (given.value == "" || SourceFor(rules, given.value).Some?))
            && (source.Success? ==> source.value == SourceFor(rules, given.value))
            && (source.Success? ==> (source.value.None? <==> given.value == ""))
            && (source.Failure? ==> source.error == UnknownSource)
  {
    GivenIs(r, "source", d.source);
  }

  /**
   * A record becomes an event if and only if its tenant is fine, the source it
   * names is one, and where it names none its message holds a line. What is
   * refused says which of these fails first.
   */
  lemma RefusedExactly(rules: Rules, r: Record, d: Defaults)
    ensures var k, tenant, named := OriginOf(rules, r, d), Given(r, "tenant", d.tenant), Given(r, "source", d.source);
            && (k.Success? <==>
                  && TenantFine(rules, tenant) && named.Some? && (named.value == "" || SourceFor(rules, named.value).Some?)
                  && (named.value == "" ==> LineIn(r, None).Some?))
            && (k.Success? ==>
                  && k.value == Origin(tenant.value, SourceFor(rules, named.value), LineIn(r, SourceFor(rules, named.value)))
                  && (k.value.line.Some? ==> IsLine(k.value)))
            && (k.Failure? ==> match k.error
                  case MissingTenant => tenant == Some("")
                  case InvalidTenant => tenant.None? || (tenant.value != "" && !rules.validTenant(tenant.value))
                  case UnknownSource => TenantFine(rules, tenant) && (named.None? || (named.value != "" && SourceFor(rules, named.value).None?))
                  case MissingSource => TenantFine(rules, tenant) && named == Some("") && LineIn(r, None).None?
                  case InvalidJson => false)
  {
    TenantIs(rules, r, d);
    SourceIs(rules, r, d);
    var named := Given(r, "source", d.source);
    LineIs(r, SourceFor(rules, if named.Some? then named.value else ""));
  }
}
