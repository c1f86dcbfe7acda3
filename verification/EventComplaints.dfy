/**
 * Exactly which tags an event has: its sender's, what its login and its time
 * came to, and one for each part of the record that could not be taken.
 */
module EventComplaints {
  import opened Wrappers
  import opened Texts
  import opened Values
  import opened Builder
  import opened Normalize
  import opened NormalizeLaws
  import opened EventLaws
  import opened EventTags
  import KeyValue
  import Syslog

  // ---------- Which steps ask for a tag ----------

  predicate AsksAfter(before: seq<Step>, s: Step, tag: string) {
    s == Mark(tag) || (Complains(before, s) && s.complaint == Some(tag))
  }

  /** Some of the steps, which come after before, asks for the tag. */
  ghost predicate AskedFrom(before: seq<Step>, steps: seq<Step>, tag: string) {
    exists i :: 0 <= i < |steps| && AsksAfter(before + steps[..i], steps[i], tag)
  }

  lemma AskedIsFrom(steps: seq<Step>, tag: string)
    ensures Asked(steps, tag) <==> AskedFrom([], steps, tag)
  {
    forall i | 0 <= i < |steps|
      ensures Asks(steps, i, tag) <==> AsksAfter([] + steps[..i], steps[i], tag)
    {
      assert [] + steps[..i] == steps[..i];
    }
  }

  lemma AskedJoins(before: seq<Step>, a: seq<Step>, b: seq<Step>, tag: string)
    ensures AskedFrom(before, a + b, tag) <==> AskedFrom(before, a, tag) || AskedFrom(before + a, b, tag)
  {
    var all := a + b;
    forall i | 0 <= i < |a|
      ensures AsksAfter(before + all[..i], all[i], tag) <==> AsksAfter(before + a[..i], a[i], tag)
    {
      assert all[..i] == a[..i];
    }
    forall i | 0 <= i < |b|
      ensures AsksAfter(before + all[..|a| + i], all[|a| + i], tag) <==> AsksAfter(before + a + b[..i], b[i], tag)
    {
      assert before + all[..|a| + i] == before + a + b[..i];
    }
    if i :| 0 <= i < |all| && AsksAfter(before + all[..i], all[i], tag) {
      assert i >= |a| ==> all[i] == b[i - |a|] && AsksAfter(before + a + b[..i - |a|], b[i - |a|], tag);
    }
  }

  lemma OneAsked(before: seq<Step>, s: Step, tag: string)
    ensures AskedFrom(before, [s], tag) <==> AsksAfter(before, s, tag)
  {
    assert before + [s][..0] == before;
  }

  /** Steps that complain of nothing ask for what they mark. */
  lemma MarksAsk(before: seq<Step>, steps: seq<Step>, tag: string)
    requires forall i :: 0 <= i < |steps| ==> steps[i].Mark? || IsQuiet(steps[i])
    ensures AskedFrom(before, steps, tag) <==> Marks(steps, tag)
  {
    if i :| 0 <= i < |steps| && steps[i] == Mark(tag) {
      assert AsksAfter(before + steps[..i], steps[i], tag);
    }
  }

  lemma OneMark(before: seq<Step>, c: string, there: bool, tag: string)
    ensures var steps := if there then [Mark(c)] else []; (AskedFrom(before, steps, tag) <==> there && tag == c) && (Marks(steps, tag) <==> there && tag == c)
  {
    var steps := if there then [Mark(c)] else [];
    MarksAsk(before, steps, tag);
    assert there ==> steps[0] == Mark(c);
  }

  // ---------- Values that cannot be taken ----------

  predicate IsBlankFor(t: Tables, name: Name, s: string) {
    TrimSpace(if name == Protocol then Lowered(t.readings.lower, s) else s) == ""
  }

  /** s says something, but nothing the field can take. */
  predicate Spoiled(t: Tables, name: Name, s: string) {
    !IsBlankFor(t, name, s) && ValueFor(t, name, s) == None
  }

  lemma CoerceSpoils(t: Tables, name: Name, s: string)
    ensures Coerce(t.readings, name, s).Unusable? <==> Spoiled(t, name, s)
    ensures !Coerce(t.readings, name, s).NoText?
  {
    KindTells(t, name, s);
    match KindOf(name) {
      case AnyText => TextSpoils(s);
      case LowerText => TextSpoils(Lowered(t.readings.lower, s));
      case AnyAddress => AddressSpoils(t, s);
      case Between(low, high) => NumberSpoils(t, s, low, high);
    }
  }

  lemma KindTells(t: Tables, name: Name, s: string)
    ensures name == Protocol <==> KindOf(name) == LowerText
    ensures ValueFor(t, name, s) ==
            match KindOf(name)
            case AnyText => TextFor(s)
            case LowerText => TextFor(Lowered(t.readings.lower, s))
            case AnyAddress => AddressFor(t, s)
            case Between(low, high) => NumberFor(t, s, low, high)
  {}

  lemma TextSpoils(s: string)
    ensures CoerceText(s).Unusable? <==> TrimSpace(s) != "" && TextFor(s) == None
    ensures !CoerceText(s).NoText?
  {}

  lemma AddressSpoils(t: Tables, s: string)
    ensures CoerceAddress(t.readings, s).Unusable? <==> TrimSpace(s) != "" && AddressFor(t, s) == None
    ensures !CoerceAddress(t.readings, s).NoText?
  {}

  lemma NumberSpoils(t: Tables, s: string, low: int, high: int)
    ensures CoerceInt(t.readings, s, low, high).Unusable? <==> TrimSpace(s) != "" && NumberFor(t, s, low, high) == None
    ensures !CoerceInt(t.readings, s, low, high).NoText?
  {}

  // ---------- The pairs of a line ----------

  /** Pair i names a field that no pair before it gives, and its value cannot be taken. */
  ghost predicate PairSpoils(t: Tables, pairs: seq<KeyValue.Pair>, i: nat, tag: string)
    requires i < |pairs|
  {
    && tag == "invalid:" + pairs[i].key
    && exists name :: NameFor(t, pairs[i].key) == Some(name) && Spoiled(t, name, pairs[i].value)
                      && forall j :: 0 <= j < i ==> Told(t, pairs[j], name) == None
  }

  lemma NoneTold(t: Tables, pairs: seq<KeyValue.Pair>, name: Name)
    ensures FirstUsable(PairSteps(t, pairs), name).None? <==> forall j :: 0 <= j < |pairs| ==> Told(t, pairs[j], name) == None
  {
    PairsGive(t, pairs, name);
    var told := AllTold(t, pairs, name);
    if FirstUsable(PairSteps(t, pairs), name).None? {
      forall j | 0 <= j < |pairs| ensures Told(t, pairs[j], name) == None {
        assert told[j] == None;
      }
    }
  }

  lemma LastPairAsks(t: Tables, pairs: seq<KeyValue.Pair>, tag: string)
    requires pairs != []
    ensures var n := |pairs| - 1;
            AskedFrom(PairSteps(t, pairs[..n]), PairStep(t, pairs[n]), tag) <==> PairSpoils(t, pairs, n, tag)
  {
    var n := |pairs| - 1;
    var before, p := PairSteps(t, pairs[..n]), pairs[n];
    if NameFor(t, p.key).Some? {
      var name := NameFor(t, p.key).value;
      CoerceSpoils(t, name, p.value);
      NoneTold(t, pairs[..n], name);
      assert forall j :: 0 <= j < n ==> pairs[..n][j] == pairs[j];
      OneAsked(before, PairStep(t, p)[0], tag);
    }
  }

  lemma PairsBefore(t: Tables, pairs: seq<KeyValue.Pair>, i: nat, tag: string)
    requires i < |pairs| - 1
    ensures PairSpoils(t, pairs[..|pairs| - 1], i, tag) <==> PairSpoils(t, pairs, i, tag)
  {
    assert forall j :: 0 <= j <= i ==> pairs[..|pairs| - 1][j] == pairs[j];
  }

  lemma {:induction false} PairsAsk(t: Tables, pairs: seq<KeyValue.Pair>, tag: string)
    ensures AskedFrom([], PairSteps(t, pairs), tag) <==> exists i :: 0 <= i < |pairs| && PairSpoils(t, pairs, i, tag)
    decreases |pairs|
  {
    if pairs != [] {
      var n := |pairs| - 1;
      PairsAsk(t, pairs[..n], tag);
      LastPairAsks(t, pairs, tag);
      AskedJoins([], PairSteps(t, pairs[..n]), PairStep(t, pairs[n]), tag);
      assert [] + PairSteps(t, pairs[..n]) == PairSteps(t, pairs[..n]);
      forall i | 0 <= i < n
        ensures PairSpoils(t, pairs[..n], i, tag) <==> PairSpoils(t, pairs, i, tag)
      {
        PairsBefore(t, pairs, i, tag);
      }
    }
  }

  // ---------- The keys of any other record ----------

  /** The key's value is neither text nor a number; or it cannot be taken, and the field is not given before. */
  predicate KeyIsSpoiled(t: Tables, r: Record, key: Key, given: bool) {
    && key.text in r && r[key.text] != Null
    && match r[key.text]
       case Str(s) => Spoiled(t, key.name, s) && !given
       case Num(s) => Spoiled(t, key.name, s) && !given
       case _ => true
  }

  ghost predicate GivenBy(t: Tables, r: Record, keys: seq<Key>, name: Name) {
    exists j :: 0 <= j < |keys| && Read(t, r, keys[j], name) != None
  }

  /** Key i is spoiled, its field given perhaps by the keys before it. */
  ghost predicate KeySpoils(t: Tables, r: Record, keys: seq<Key>, prefix: string, before: seq<Step>, i: nat, tag: string)
    requires i < |keys|
  {
    && tag == "invalid:" + (prefix + keys[i].text)
    && KeyIsSpoiled(t, r, keys[i], FirstUsable(before, keys[i].name).Some? || GivenBy(t, r, keys[..i], keys[i].name))
  }

  lemma SomeGiven(t: Tables, r: Record, keys: seq<Key>, prefix: string, name: Name)
    ensures FirstUsable(KeySteps(t, r, keys, prefix), name).Some? <==> GivenBy(t, r, keys, name)
  {
    KeysGive(t, r, keys, prefix, name);
    var read := AllRead(t, r, keys, name);
    if j :| 0 <= j < |keys| && Read(t, r, keys[j], name) != None {
      assert read[j] != None;
    }
  }

  lemma LastKeyAsks(t: Tables, r: Record, keys: seq<Key>, prefix: string, before: seq<Step>, tag: string)
    requires keys != []
    ensures var n := |keys| - 1;
            AskedFrom(before + KeySteps(t, r, keys[..n], prefix), KeyStep(t, r, keys[n], prefix), tag) <==>
              KeySpoils(t, r, keys, prefix, before, n, tag)
  {
    var n := |keys| - 1;
    var steps, key := KeySteps(t, r, keys[..n], prefix), keys[n];
    if ValueOf(r, key.text).Some? {
      SomeGiven(t, r, keys[..n], prefix, key.name);
      EarlierWins(before, steps, key.name);
      OneAsked(before + steps, KeyStep(t, r, key, prefix)[0], tag);
      match r[key.text] {
        case Str(s) => CoerceSpoils(t, key.name, s);
        case Num(s) => CoerceSpoils(t, key.name, s);
        case _ =>
      }
    }
  }

  lemma KeysBefore(t: Tables, r: Record, keys: seq<Key>, prefix: string, before: seq<Step>, i: nat, tag: string)
    requires i < |keys| - 1
    ensures KeySpoils(t, r, keys[..|keys| - 1], prefix, before, i, tag) <==> KeySpoils(t, r, keys, prefix, before, i, tag)
  {
    assert keys[..|keys| - 1][..i] == keys[..i];
  }

  lemma {:induction false} KeysAsk(t: Tables, r: Record, keys: seq<Key>, prefix: string, before: seq<Step>, tag: string)
    ensures AskedFrom(before, KeySteps(t, r, keys, prefix), tag) <==> exists i :: 0 <= i < |keys| && KeySpoils(t, r, keys, prefix, before, i, tag)
    decreases |keys|
  {
    if keys != [] {
      var n := |keys| - 1;
      KeysAsk(t, r, keys[..n], prefix, before, tag);
      LastKeyAsks(t, r, keys, prefix, before, tag);
      AskedJoins(before, KeySteps(t, r, keys[..n], prefix), KeyStep(t, r, keys[n], prefix), tag);
      AllKeysBefore(t, r, keys, prefix, before, tag);
    }
  }

  lemma AllKeysBefore(t: Tables, r: Record, keys: seq<Key>, prefix: string, before: seq<Step>, tag: string)
    requires keys != []
    ensures var n := |keys| - 1;
            (exists i :: 0 <= i < |keys| && KeySpoils(t, r, keys, prefix, before, i, tag)) <==>
              (exists i :: 0 <= i < n && KeySpoils(t, r, keys[..n], prefix, before, i, tag)) || KeySpoils(t, r, keys, prefix, before, n, tag)
  {
    var n := |keys| - 1;
    if i :| 0 <= i < |keys| && KeySpoils(t, r, keys, prefix, before, i, tag) {
      if i < n {
        KeysBefore(t, r, keys, prefix, before, i, tag);
      }
    }
    if i :| 0 <= i < n && KeySpoils(t, r, keys[..n], prefix, before, i, tag) {
      KeysBefore(t, r, keys, prefix, before, i, tag);
    }
  }

  /** A key of the table is spoiled. */
  ghost predicate OwnKeySpoils(t: Tables, r: Record, tag: string) {
    exists i :: 0 <= i < |t.jsonKeys| && tag == "invalid:" + t.jsonKeys[i].text
                && KeyIsSpoiled(t, r, t.jsonKeys[i], GivenBy(t, r, t.jsonKeys[..i], t.jsonKeys[i].name))
  }

  /** A key of the cloud object is spoiled; its field may be given by the record's own keys. */
  ghost predicate CloudKeySpoils(t: Tables, r: Record, cloudKeys: seq<Key>, tag: string) {
    exists i :: 0 <= i < |cloudKeys| && tag == "invalid:cloud." + cloudKeys[i].text
                && KeyIsSpoiled(t, CloudOf(r), cloudKeys[i],
                                GivenBy(t, r, t.jsonKeys, cloudKeys[i].name) || GivenBy(t, CloudOf(r), cloudKeys[..i], cloudKeys[i].name))
  }

  lemma OwnKeysAsk(t: Tables, r: Record, tag: string)
    ensures AskedFrom([], KeySteps(t, r, t.jsonKeys, ""), tag) <==> OwnKeySpoils(t, r, tag)
  {
    KeysAsk(t, r, t.jsonKeys, "", [], tag);
    forall i | 0 <= i < |t.jsonKeys|
      ensures KeySpoils(t, r, t.jsonKeys, "", [], i, tag) <==>
                tag == "invalid:" + t.jsonKeys[i].text
                && KeyIsSpoiled(t, r, t.jsonKeys[i], GivenBy(t, r, t.jsonKeys[..i], t.jsonKeys[i].name))
    {
      assert "" + t.jsonKeys[i].text == t.jsonKeys[i].text;
    }
  }

  lemma CloudTag(text: string)
    ensures "invalid:" + (CLOUD + "." + text) == "invalid:cloud." + text
  {
    assert "invalid:" + "cloud." == "invalid:cloud.";
  }

  lemma CloudKeysAsk(t: Tables, r: Record, cloudKeys: seq<Key>, tag: string)
    requires "cloud" in r && r["cloud"].Obj?
    ensures AskedFrom(KeySteps(t, r, t.jsonKeys, ""), CloudSteps(t, r, cloudKeys), tag) <==> CloudKeySpoils(t, r, cloudKeys, tag)
  {
    var own := KeySteps(t, r, t.jsonKeys, "");
    KeysAsk(t, CloudOf(r), cloudKeys, CLOUD + ".", own, tag);
    forall i | 0 <= i < |cloudKeys|
      ensures KeySpoils(t, CloudOf(r), cloudKeys, CLOUD + ".", own, i, tag) <==>
                tag == "invalid:cloud." + cloudKeys[i].text
                && KeyIsSpoiled(t, CloudOf(r), cloudKeys[i],
                                GivenBy(t, r, t.jsonKeys, cloudKeys[i].name) || GivenBy(t, CloudOf(r), cloudKeys[..i], cloudKeys[i].name))
    {
      CloudTag(cloudKeys[i].text);
      SomeGiven(t, r, t.jsonKeys, "", cloudKeys[i].name);
    }
  }

  // ---------- The other parts ----------

  /** There is something under the key, but not what belongs there. */
  predicate Misplaced(r: Record, key: string) {
    key in r && r[key] != Null && !r[key].Obj?
  }

  /** The sender's tags are not a list of strings. */
  predicate TagsMisplaced(r: Record) {
    "_tags" in r && r["_tags"] != Null
    && !(r["_tags"].Arr? && forall i :: 0 <= i < |r["_tags"].items| ==> r["_tags"].items[i].Str? || r["_tags"].items[i].Null?)
  }

  lemma {:induction false} StringsAre(items: seq<Json>)
    ensures Strings(items).Some? <==> forall i :: 0 <= i < |items| ==> items[i].Str? || items[i].Null?
    decreases |items|
  {
    if items != [] {
      StringsAre(items[..|items| - 1]);
    }
  }

  lemma TagsAsk(r: Record, before: seq<Step>, tag: string)
    ensures AskedFrom(before, TagSteps(r), tag) <==> tag == "invalid:_tags" && TagsMisplaced(r)
  {
    if ValueOf(r, TAGS).Some? && r[TAGS].Arr? {
      StringsAre(r[TAGS].items);
    }
    OneMark(before, "invalid:_tags", TagsMisplaced(r), tag);
    assert INVALID + TAGS == "invalid:_tags";
  }

  lemma RawAsks(r: Record, before: seq<Step>, tag: string)
    ensures AskedFrom(before, RawSteps(r), tag) <==> tag == "invalid:raw" && Misplaced(r, "raw")
  {
    OneMark(before, "invalid:raw", Misplaced(r, "raw"), tag);
    assert INVALID + RAW == "invalid:raw";
  }

  lemma CloudAsks(t: Tables, r: Record, cloudKeys: seq<Key>, tag: string)
    ensures AskedFrom(KeySteps(t, r, t.jsonKeys, ""), CloudSteps(t, r, cloudKeys), tag) <==>
              CloudKeySpoils(t, r, cloudKeys, tag) || (tag == "invalid:cloud" && Misplaced(r, "cloud"))
  {
    if "cloud" in r && r["cloud"].Obj? {
      CloudKeysAsk(t, r, cloudKeys, tag);
    } else {
      OneMark(KeySteps(t, r, t.jsonKeys, ""), "invalid:cloud", Misplaced(r, "cloud"), tag);
      assert INVALID + CLOUD == "invalid:cloud";
    }
  }

  /** What a record that is no line is complained of for. */
  ghost predicate RecordSpoils(t: Tables, r: Record, cloudKeys: seq<Key>, tag: string) {
    || OwnKeySpoils(t, r, tag) || CloudKeySpoils(t, r, cloudKeys, tag)
    || (tag == "invalid:cloud" && Misplaced(r, "cloud")) || (tag == "invalid:raw" && Misplaced(r, "raw"))
    || (tag == "invalid:_tags" && TagsMisplaced(r))
  }

  lemma JsonAsks(t: Tables, r: Record, cloudKeys: seq<Key>, tag: string)
    ensures AskedFrom([], JsonSteps(t, r, cloudKeys), tag) <==> RecordSpoils(t, r, cloudKeys, tag)
  {
    var own, cloud := KeySteps(t, r, t.jsonKeys, ""), CloudSteps(t, r, cloudKeys);
    OwnKeysAsk(t, r, tag);
    CloudAsks(t, r, cloudKeys, tag);
    TagsAsk(r, [] + (own + cloud), tag);
    RawAsks(r, [] + (own + cloud + TagSteps(r)), tag);
    assert [] + own == own;
    AskedJoins([], own, cloud, tag);
    AskedJoins([], own + cloud, TagSteps(r), tag);
    AskedJoins([], own + cloud + TagSteps(r), RawSteps(r), tag);
  }

  /** What a line is complained of for. */
  ghost predicate LineSpoils(t: Tables, r: Record, pairs: seq<KeyValue.Pair>, tag: string) {
    (exists i :: 0 <= i < |pairs| && PairSpoils(t, pairs, i, tag)) || (tag == "invalid:_tags" && TagsMisplaced(r))
  }

  lemma LineAsks(t: Tables, r: Record, m: Syslog.Message, tag: string)
    ensures AskedFrom([], SyslogSteps(t, r, m), tag) <==> LineSpoils(t, r, KeyValue.Parse(m.body, []), tag)
  {
    PairsAsk(t, KeyValue.Parse(m.body, []), tag);
    HeaderAsksNothing(r, m, [] + PairSteps(t, KeyValue.Parse(m.body, [])), tag);
    ThreeAsk(PairSteps(t, KeyValue.Parse(m.body, [])), HeaderSteps(r, m), r, tag);
  }

  lemma HeaderAsksNothing(r: Record, m: Syslog.Message, before: seq<Step>, tag: string)
    ensures !AskedFrom(before, HeaderSteps(r, m), tag)
  {
    MarksAsk(before, HeaderSteps(r, m), tag);
  }

  lemma ThreeAsk(pairs: seq<Step>, header: seq<Step>, r: Record, tag: string)
    ensures AskedFrom([], pairs + header + TagSteps(r), tag) <==>
              AskedFrom([], pairs, tag) || AskedFrom([] + pairs, header, tag) || (tag == "invalid:_tags" && TagsMisplaced(r))
  {
    TagsAsk(r, [] + (pairs + header), tag);
    AskedJoins([], pairs, header, tag);
    AskedJoins([], pairs + header, TagSteps(r), tag);
  }

  // ---------- The tags ----------

  /** The record names a time that cannot be read. */
  predicate TimeMisplaced(t: Tables, r: Record) {
    "@timestamp" in r && r["@timestamp"] != Null && t.dates.rfc3339(Extra(r, "@timestamp")) == None
  }

  predicate SomeLong(tags: seq<string>) {
    exists i :: 0 <= i < |tags| && ByteLength(CleanText(tags[i])) > 2048
  }

  /** What the record is complained of for. */
  ghost predicate IsSpoiled(rules: Rules, r: Record, k: Origin, cloudKeys: seq<Key>, tag: string) {
    || (if k.line.Some? then LineSpoils(rules.t, r, KeyValue.Parse(Syslog.ParseSyslog(rules.t.dates, k.line.value).body, []), tag)
        else RecordSpoils(rules.t, r, cloudKeys, tag))
    || (tag == "invalid:timestamp" && TimeMisplaced(rules.t, r)) || (tag == "invalid:_tags" && SomeLong(Sent(r)))
  }

  lemma RecordAsks(rules: Rules, r: Record, k: Origin, cloudKeys: seq<Key>, tag: string)
    ensures AskedFrom([], RecordSteps(rules, r, k, cloudKeys), tag) <==>
            if k.line.Some? then LineSpoils(rules.t, r, KeyValue.Parse(Syslog.ParseSyslog(rules.t.dates, k.line.value).body, []), tag)
            else RecordSpoils(rules.t, r, cloudKeys, tag)
  {
    if k.line.Some? {
      LineAsks(rules.t, r, Message(rules, k), tag);
    } else {
      JsonAsks(rules.t, r, cloudKeys, tag);
    }
  }

  lemma TimeAsks(t: Tables, r: Record, now: int, retention: int, header: Option<int>, before: seq<Step>, tag: string)
    ensures AskedFrom(before, TimeSteps(t, r, now, retention, header), tag) <==>
              (tag == "invalid:timestamp" && TimeMisplaced(t, r))
              || (tag == "rebased:timestamp" && !Reachable(Named(t, r, header, now), now, retention))
  {
    var out := !Reachable(Named(t, r, header, now), now, retention);
    var own, rebased := OwnTimeSteps(t, r), if out then [Mark("rebased:timestamp")] else [];
    NamedIs(t, r, header, now);
    assert TimeSteps(t, r, now, retention, header) == own + rebased;
    AskedJoins(before, own, rebased, tag);
    OneMark(before, "invalid:timestamp", TimeMisplaced(t, r), tag);
    OneMark(before + own, "rebased:timestamp", out, tag);
  }

  lemma EnrichAsks(steps: seq<Step>, only: Option<string>, before: seq<Step>, tag: string)
    requires QuietOnly(steps, only)
    ensures AskedFrom(before, steps, tag) <==> Some(tag) == only
  {
    MarksAsk(before, steps, tag);
  }

  lemma LongAsks(sent: seq<string>, before: seq<Step>, tag: string)
    ensures AskedFrom(before, LongTagSteps(sent), tag) <==> tag == "invalid:_tags" && SomeLong(sent)
  {
    OneMark(before, "invalid:_tags", SomeLong(sent), tag);
    assert INVALID + TAGS == "invalid:_tags";
  }

  lemma FourAsk(a: seq<Step>, b: seq<Step>, c: seq<Step>, d: seq<Step>, tag: string)
    ensures Asked(a + b + c + d, tag) <==>
              AskedFrom([], a, tag) || AskedFrom([] + a, b, tag) || AskedFrom([] + (a + b), c, tag) || AskedFrom([] + (a + b + c), d, tag)
  {
    AskedIsFrom(a + b + c + d, tag);
    AskedJoins([], a, b, tag);
    AskedJoins([], a + b, c, tag);
    AskedJoins([], a + b + c, d, tag);
  }

  lemma DerivedExactly(rules: Rules, r: Record, k: Origin, cloudKeys: seq<Key>, now: int, retention: int, tag: string)
    requires k.source.Some? || k.line.Some?
    ensures tag in Derived(AllSteps(rules, r, k, cloudKeys, now, retention) + LongTagSteps(Sent(r))) <==>
              || IsSpoiled(rules, r, k, cloudKeys, tag)
              || Some(tag) == LoginTag(AuthOf(rules.t, r, FinalSource(rules, k), TypeGiven(rules, r, k, cloudKeys, now, retention)))
              || (tag == "rebased:timestamp" && !Reachable(Named(rules.t, r, LineTime(rules, k), now), now, retention))
  {
    var record, times := RecordSteps(rules, r, k, cloudKeys), TimeSteps(rules.t, r, now, retention, HeaderTime(rules, k));
    var enrich, long := EnrichSteps(rules.t, FinalSource(rules, k), r, record + times), LongTagSteps(Sent(r));
    var auth := AuthOf(rules.t, r, FinalSource(rules, k), TypeGiven(rules, r, k, cloudKeys, now, retention));
    assert HeaderTime(rules, k) == LineTime(rules, k);
    DerivedAre(record + times + enrich + long, tag);
    FourAsk(record, times, enrich, long, tag);
    RecordAsks(rules, r, k, cloudKeys, tag);
    TimeAsks(rules.t, r, now, retention, HeaderTime(rules, k), [] + record, tag);
    EnrichTags(rules.t, FinalSource(rules, k), r, record + times);
    EnrichAsks(enrich, LoginTag(auth), [] + (record + times), tag);
    LongAsks(Sent(r), [] + (record + times + enrich), tag);
  }

  /** What the event is tagged with, before cleaning, besides the sender's own tags. */
  ghost predicate Earned(rules: Rules, r: Record, k: Origin, cloudKeys: seq<Key>, now: int, retention: int, n: Normal, tag: string)
    requires k.source.Some? || k.line.Some?
  {
    || IsSpoiled(rules, r, k, cloudKeys, tag)
    || Some(tag) == LoginTag(AuthIn(rules, r, n))
    || (tag == "rebased:timestamp" && !Reachable(Named(rules.t, r, LineTime(rules, k), now), now, retention))
  }

  /**
   * An event has a tag if and only if it can be stored and is what one of the
   * sender's comes to, or one that is earned: by its login, by a time out of
   * reach, or by a part of the record that could not be taken.
   */
  lemma TagsExactly(rules: Rules, r: Record, k: Origin, cloudKeys: seq<Key>, now: int, retention: int, n: Normal, tag: string)
    requires (k.source.Some? || k.line.Some?) && ComesTo(rules, r, k, cloudKeys, now, retention, n)
    ensures tag in n.tags <==>
              && Storable(tag)
              && (FormOf(tag, Sent(r)) || exists c :: Earned(rules, r, k, cloudKeys, now, retention, n, c) && CleanText(c) == tag)
  {
    var derived := Derived(AllSteps(rules, r, k, cloudKeys, now, retention) + LongTagSteps(Sent(r)));
    NormalTags(rules, r, k, cloudKeys, now, retention, n);
    EarnedAreDerived(rules, r, k, cloudKeys, now, retention, n);
    FormsAre(rules, r, k, cloudKeys, now, retention, n, derived, tag);
  }

  lemma EarnedAreDerived(rules: Rules, r: Record, k: Origin, cloudKeys: seq<Key>, now: int, retention: int, n: Normal)
    requires (k.source.Some? || k.line.Some?) && ComesTo(rules, r, k, cloudKeys, now, retention, n)
    ensures forall c :: c in Derived(AllSteps(rules, r, k, cloudKeys, now, retention) + LongTagSteps(Sent(r))) <==>
              Earned(rules, r, k, cloudKeys, now, retention, n, c)
  {
    TypeIsGiven(rules, r, k, cloudKeys, now, retention, n);
    forall c
      ensures c in Derived(AllSteps(rules, r, k, cloudKeys, now, retention) + LongTagSteps(Sent(r))) <==>
                Earned(rules, r, k, cloudKeys, now, retention, n, c)
    {
      DerivedExactly(rules, r, k, cloudKeys, now, retention, c);
    }
  }

  lemma FormsAre(rules: Rules, r: Record, k: Origin, cloudKeys: seq<Key>, now: int, retention: int, n: Normal, derived: seq<string>, tag: string)
    requires k.source.Some? || k.line.Some?
    requires forall c :: c in derived <==> Earned(rules, r, k, cloudKeys, now, retention, n, c)
    ensures FormOf(tag, derived) <==> exists c :: Earned(rules, r, k, cloudKeys, now, retention, n, c) && CleanText(c) == tag
  {
    if i :| 0 <= i < |derived| && CleanText(derived[i]) == tag {
      assert derived[i] in derived;
    }
    if c :| Earned(rules, r, k, cloudKeys, now, retention, n, c) && CleanText(c) == tag {
      assert c in derived;
    }
  }
}
