/** backend/internal/ingest/normalize.go: one record to a storable event, or the reason it is none. */
module Normalize {
  import opened Wrappers
  import opened Texts
  import opened Values
  import opened Builder
  import KeyValue
  import Syslog

  const TENANT := "tenant"
  const SOURCE := "source"

  const SECOND: int := 1_000_000_000
  const DEFAULT_RETENTION: int := 7 * 24 * 3600 * SECOND
  const FUTURE_SKEW: int := 3600 * SECOND

  /** The code of a rejection. */
  datatype Code = InvalidJson | InvalidTenant | MissingTenant | UnknownSource | MissingSource

  /** What a record that does not name its own tenant or source is taken to have. */
  datatype Defaults = Defaults(tenant: string, source: string)

  datatype Rules = Rules(t: Tables, validTenant: string -> bool, sourceNamed: string -> Option<Source>, synonym: string -> Option<string>)

  datatype Normal = Normal(tenant: string, source: Source, ts: int, fields: map<Name, Value>, tags: seq<string>, raw: Json)

  // ---------- Who sent it, and what kind it is ----------

  /** The record's own value or else the fallback, or None if it holds something other than a string. */
  function Identity(r: Record, key: string, fallback: string): Option<string> {
    match ValueOf(r, key)
    case None => Some(fallback)
    case Some(v) => if !v.Str? then None else if TrimSpace(v.text) == "" then Some(fallback) else Some(TrimSpace(v.text))
  }

  /** The syslog line to parse, if the source is unknown or one of the two syslog categories. */
  function SyslogLine(r: Record, source: Option<Source>): Option<string> {
    if source.Some? && !source.value.Firewall? && !source.value.Network? then None
    else match ValueOf(r, MESSAGE)
      case None => None
      case Some(v) => if v.Str? then Some(v.text) else None
  }

  /** What a record is: its tenant, the source it names if it does, and its syslog line if that is what it is. */
  datatype Origin = Origin(tenant: string, source: Option<Source>, line: Option<string>)

  function SourceIn(rules: Rules, r: Record, d: Defaults): Result<Option<Source>, Code> {
    match Identity(r, SOURCE, d.source)
    case None => Failure(UnknownSource)
    case Some(s) =>
      var name := Lowered(rules.t.readings.lower, s);
      if name == "" then Success(None)
      else if rules.sourceNamed(name).None? then Failure(UnknownSource)
      else Success(rules.sourceNamed(name))
  }

  function TenantIn(rules: Rules, r: Record, d: Defaults): Result<string, Code> {
    match Identity(r, TENANT, d.tenant)
    case None => Failure(InvalidTenant)
    case Some(s) => if s == "" then Failure(MissingTenant) else if !rules.validTenant(s) then Failure(InvalidTenant) else Success(s)
  }

  function OriginOf(rules: Rules, r: Record, d: Defaults): (k: Result<Origin, Code>)
    ensures k.Success? ==> k.value.source.Some? || k.value.line.Some?
  {
    var tenant := TenantIn(rules, r, d);
    if tenant.Failure? then Failure(tenant.error)
    else
      var source := SourceIn(rules, r, d);
      if source.Failure? then Failure(source.error)
      else
        var line := SyslogLine(r, source.value);
        if source.value.None? && line.None? then Failure(MissingSource) else Success(Origin(tenant.value, source.value, line))
  }

  // ---------- When it happened ----------

  /** The last of these that can be read: now, the collector's receipt, the header's time, and the record's own. */
  function NamedTime(t: Tables, r: Record, now: int, header: Option<int>): int {
    var received := t.dates.rfc3339(Extra(r, RECEIVED_AT));
    var ts := if received.Some? then received.value else now;
    var dated := if header.Some? then header.value else ts;
    if OwnTime(t, r).Some? then OwnTime(t, r).value else dated
  }

  function OwnTime(t: Tables, r: Record): Option<int> {
    if ValueOf(r, TIMESTAMP).None? then None else t.dates.rfc3339(Extra(r, TIMESTAMP))
  }

  predicate InReach(ts: int, now: int, retention: int) {
    now - retention <= ts <= now + FUTURE_SKEW
  }

  function OwnTimeSteps(t: Tables, r: Record): seq<Step> {
    if ValueOf(r, TIMESTAMP).Some? && OwnTime(t, r).None? then [Mark("invalid:timestamp")] else []
  }

  function TimeSteps(t: Tables, r: Record, now: int, retention: int, header: Option<int>): seq<Step> {
    OwnTimeSteps(t, r) + (if InReach(NamedTime(t, r, now, header), now, retention) then [] else [Mark(REBASED_TIME)])
  }

  // ---------- All of it ----------

  function Message(rules: Rules, k: Origin): Syslog.Message
    requires k.line.Some?
  {
    Syslog.ParseSyslog(rules.t.dates, k.line.value)
  }

  function FinalSource(rules: Rules, k: Origin): Source
    requires k.source.Some? || k.line.Some?
  {
    if k.line.Some? then SourceOf(rules.t, KeyValue.Parse(Message(rules, k).body, []), k.source) else k.source.value
  }

  function HeaderTime(rules: Rules, k: Origin): Option<int> {
    if k.line.Some? then Message(rules, k).time else None
  }

  /** What the record itself says. */
  function RecordSteps(rules: Rules, r: Record, k: Origin, cloudKeys: seq<Key>): seq<Step> {
    if k.line.Some? then SyslogSteps(rules.t, r, Message(rules, k)) else JsonSteps(rules.t, r, cloudKeys)
  }

  /** What is kept of the record: the line, or its own payload. */
  function RawOf(r: Record, k: Origin): Json {
    if k.line.Some? then Obj(map[MESSAGE := Str(k.line.value)]) else Payload(r)
  }

  /** And with what its time and its source add. */
  function AllSteps(rules: Rules, r: Record, k: Origin, cloudKeys: seq<Key>, now: int, retention: int): seq<Step>
    requires k.source.Some? || k.line.Some?
  {
    var own := RecordSteps(rules, r, k, cloudKeys) + TimeSteps(rules.t, r, now, retention, HeaderTime(rules, k));
    own + EnrichSteps(rules.t, FinalSource(rules, k), r, own)
  }

  /** Lower case, with the vendors' words for an action folded into the schema's. */
  function Fold(rules: Rules, action: string): string {
    var a := Lowered(rules.t.readings.lower, action);
    if rules.synonym(a).Some? then rules.synonym(a).value else a
  }

  function Folded(rules: Rules, fields: map<Name, Value>): map<Name, Value> {
    if Action in fields && fields[Action].Text? then fields[Action := Text(Fold(rules, fields[Action].text))] else fields
  }

  /** Each field is the first usable value offered for it, and the action is folded. */
  ghost predicate FieldsComeTo(rules: Rules, steps: seq<Step>, fields: map<Name, Value>) {
    exists first: map<Name, Value> :: FieldsAre(first, steps) && FieldsFit(rules.t.readings.lower, first) && fields == Folded(rules, first)
  }

  /** The event a record comes to: each field the first usable value offered for it, and the tags in order. */
  ghost predicate ComesTo(rules: Rules, r: Record, k: Origin, cloudKeys: seq<Key>, now: int, retention: int, n: Normal)
    requires k.source.Some? || k.line.Some?
  {
    var steps := AllSteps(rules, r, k, cloudKeys, now, retention);
    var named := NamedTime(rules.t, r, now, HeaderTime(rules, k));
    var sent := if SenderTags(r).Some? then SenderTags(r).value else [];
    && n.tenant == k.tenant && n.source == FinalSource(rules, k) && n.raw == RawOf(r, k)
    && n.ts == (if InReach(named, now, retention) then named else now)
    && FieldsComeTo(rules, steps, n.fields)
    && n.tags == Assembled(sent + Derived(steps + LongTagSteps(sent)))
  }

  // ---------- The source's own form ----------

  /** cloudKeys is the order in which the cloud object's keys happen to be visited. */
  method Normalize(rules: Rules, record: Option<Record>, d: Defaults, cloudKeys: seq<Key>, now: int, keep: int) returns (res: Result<Normal, Code>)
    requires Lowers(rules.t.readings.lower)
    ensures record.None? ==> res == Failure(InvalidJson)
    ensures record.Some? ==>
              var k := OriginOf(rules, record.value, d);
              && (k.Failure? ==> res == Failure(k.error))
              && (k.Success? ==> res.Success? && ComesTo(rules, record.value, k.value, cloudKeys, now, if keep <= 0 then 604_800_000_000_000 else keep, res.value))
  {
    if record.None? {
      return Failure(InvalidJson);
    }
    var r := record.value;
    var tenant := TenantIn(rules, r, d);
    if tenant.Failure? {
      return Failure(tenant.error);
    }
    var source := SourceIn(rules, r, d);
    if source.Failure? {
      return Failure(source.error);
    }
    var line := SyslogLine(r, source.value);
    if source.value.None? && line.None? {
      return Failure(MissingSource);
    }
    var n := Fill(rules, r, Origin(tenant.value, source.value, line), cloudKeys, now, if keep <= 0 then DEFAULT_RETENTION else keep);
    res := Success(n);
  }

  method Fill(rules: Rules, r: Record, k: Origin, cloudKeys: seq<Key>, now: int, retention: int) returns (n: Normal)
    requires (k.source.Some? || k.line.Some?) && Lowers(rules.t.readings.lower)
    ensures ComesTo(rules, r, k, cloudKeys, now, retention, n)
  {
    var b := new EventBuilder(rules.t, r);
    var source, ts := Gather(rules, k, b, cloudKeys, now, retention);
    var fields := NormalizeAction(rules, b.fields);
    assert FieldsComeTo(rules, AllSteps(rules, r, k, cloudKeys, now, retention), fields);
    var tags := b.AssembleTags();
    n := Normal(k.tenant, source, ts, fields, tags, b.raw.value);
  }

  /** Offers all there is to offer: what the record says, then its time's and its source's share. */
  method Gather(rules: Rules, k: Origin, b: EventBuilder, cloudKeys: seq<Key>, now: int, retention: int) returns (source: Source, ts: int)
    requires b.Valid() && b.senderTags == [] && b.steps == [] && b.raw == None && b.t == rules.t && (k.source.Some? || k.line.Some?)
    modifies b
    ensures b.Valid() && b.steps == AllSteps(rules, b.record, k, cloudKeys, now, retention)
    ensures source == FinalSource(rules, k) && b.raw == Some(RawOf(b.record, k))
    ensures var named := NamedTime(rules.t, b.record, now, HeaderTime(rules, k)); ts == if InReach(named, now, retention) then named else now
    ensures b.senderTags == if SenderTags(b.record).Some? then SenderTags(b.record).value else []
  {
    var header;
    source, header := FromRecord(rules, k, b, cloudKeys);
    ts := Timestamp(b, now, retention, header);
    b.Enrich(source);
  }

  method FromRecord(rules: Rules, k: Origin, b: EventBuilder, cloudKeys: seq<Key>) returns (source: Source, header: Option<int>)
    requires b.Valid() && b.senderTags == [] && b.steps == [] && b.raw == None && b.t == rules.t && (k.source.Some? || k.line.Some?)
    modifies b
    ensures b.Valid() && b.steps == RecordSteps(rules, b.record, k, cloudKeys) && b.raw == Some(RawOf(b.record, k))
    ensures source == FinalSource(rules, k) && header == HeaderTime(rules, k)
    ensures b.senderTags == if SenderTags(b.record).Some? then SenderTags(b.record).value else []
  {
    if k.line.Some? {
      source, header := b.FromSyslog(k.line.value, k.source);
    } else {
      source, header := k.source.value, None;
      b.FromJson(cloudKeys);
    }
  }

  /** A time out of reach is replaced with now, so that the event is neither purged on arrival nor without a partition. */
  method Timestamp(b: EventBuilder, now: int, retention: int, header: Option<int>) returns (ts: int)
    requires b.Valid()
    modifies b`derived, b`steps
    ensures b.Valid() && b.steps == old(b.steps) + TimeSteps(b.t, b.record, now, retention, header)
    ensures var named := NamedTime(b.t, b.record, now, header); ts == if InReach(named, now, retention) then named else now
  {
    ghost var before := b.steps;
    ts := ReadTime(b, now, header);
    ghost var read := b.steps;
    assert before + OwnTimeSteps(b.t, b.record) + [] == read;
    if ts < now - retention || ts > now + FUTURE_SKEW {
      b.Tag(REBASED_TIME);
      ts := now;
    }
  }

  method ReadTime(b: EventBuilder, now: int, header: Option<int>) returns (ts: int)
    requires b.Valid()
    modifies b`derived, b`steps
    ensures b.Valid() && b.steps == old(b.steps) + OwnTimeSteps(b.t, b.record)
    ensures ts == NamedTime(b.t, b.record, now, header)
  {
    ts := now;
    var received := b.t.dates.rfc3339(Extra(b.record, RECEIVED_AT));
    if received.Some? {
      ts := received.value;
    }
    if header.Some? {
      ts := header.value;
    }
    ghost var before := b.steps;
    assert before + [] == before;
    if ValueOf(b.record, TIMESTAMP).Some? {
      var own := b.t.dates.rfc3339(Extra(b.record, TIMESTAMP));
      if own.Some? {
        ts := own.value;
      } else {
        b.Tag("invalid:timestamp");
      }
    }
  }

  method NormalizeAction(rules: Rules, fields: map<Name, Value>) returns (folded: map<Name, Value>)
    ensures folded == Folded(rules, fields)
  {
    if Action !in fields || !fields[Action].Text? {
      return fields;
    }
    var a := Lowered(rules.t.readings.lower, fields[Action].text);
    var s := rules.synonym(a);
    if s.Some? {
      a := s.value;
    }
    folded := fields[Action := Text(a)];
  }
}
