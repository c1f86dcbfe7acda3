/** frontend/src/lib/filters.ts and timeRange.ts: what the pages show, kept in a URL. */
module UrlFilters {
  import opened Wrappers
  import opened Texts
  import Filtering

  const MILLISECOND: int := 1_000_000
  /** The Unix epoch, in nanoseconds since Go's zero time. */
  const UNIX_EPOCH: int := 62_135_596_800 * 1_000_000_000
  /** In milliseconds, as are all times here. */
  const MINUTE: int := 60_000
  const MAX_DATE: int := 8_640_000_000_000_000

  datatype TextKey = Q | EventTypeKey | ActionKey | UserKey | HostKey | SrcIPKey

  const TEXT_FILTERS: seq<TextKey> := [Q, EventTypeKey, ActionKey, UserKey, HostKey, SrcIPKey]

  datatype Param =
    | FromParam | ToParam | RangeParam | TenantParam | SourceParam | TextParam(key: TextKey)
    | SeverityMinParam | SeverityMaxParam | TagParam

  datatype Preset = Last15Minutes | LastHour | Last6Hours | Last24Hours | Last7Days
  {
    function Minutes(): int {
      match this
      case Last15Minutes => 15
      case LastHour => 60
      case Last6Hours => 6 * 60
      case Last24Hours => 24 * 60
      case Last7Days => 7 * 24 * 60
    }
  }

  const DEFAULT_PRESET: Preset := Last24Hours

  /** How a preset is written. */
  function PresetId(p: Preset): string {
    match p
    case Last15Minutes => "15m"
    case LastHour => "1h"
    case Last6Hours => "6h"
    case Last24Hours => "24h"
    case Last7Days => "7d"
  }

  const PRESETS: seq<Preset> := [Last15Minutes, LastHour, Last6Hours, Last24Hours, Last7Days]

  /** The preset of an id, if there is one. */
  function PresetNamed(id: string): Option<Preset> {
    PresetFrom(PRESETS, id)
  }

  function PresetFrom(presets: seq<Preset>, id: string): Option<Preset> {
    if presets == [] then None else if PresetId(presets[0]) == id then Some(presets[0]) else PresetFrom(presets[1..], id)
  }

  lemma {:induction false} PresetFromIs(presets: seq<Preset>, id: string)
    ensures PresetFrom(presets, id).None? <==> forall p :: p in presets ==> PresetId(p) != id
    ensures PresetFrom(presets, id).Some? ==> PresetId(PresetFrom(presets, id).value) == id
  {
    if presets != [] {
      PresetFromIs(presets[1..], id);
      assert presets == [presets[0]] + presets[1..];
    }
  }

  /** Ids tell presets apart, and none is empty. */
  lemma PresetsTold(p: Preset, q: Preset)
    ensures PresetId(p) == PresetId(q) ==> p == q
    ensures PresetId(p) != ""
  {
    assert |PresetId(p)| == |PresetId(q)| && PresetId(p)[0] == PresetId(q)[0] && PresetId(p)[|PresetId(p)| - 1] == PresetId(q)[|PresetId(q)| - 1] ==> p == q;
  }

  lemma PresetReads(p: Preset)
    ensures PresetNamed(PresetId(p)) == Some(p) && PresetNamed("") == None
  {
    PresetFromIs(PRESETS, PresetId(p));
    PresetFromIs(PRESETS, "");
    assert p in PRESETS;
    forall q
      ensures PresetId(p) == PresetId(q) ==> p == q
      ensures PresetId(q) != ""
    {
      PresetsTold(p, q);
    }
  }

  datatype TimeRange = Named(preset: Preset) | Custom(from: int, to: int)

  datatype Filters = Filters(
    range: TimeRange, tenant: string, sources: seq<string>, text: map<TextKey, string>,
    severityMin: Option<int>, severityMax: Option<int>, tags: seq<string>)

  type Pairs = seq<(Param, string)>

  /** How dates, numbers and sources are written and read. */
  datatype Codec = Codec(
    date: string -> Option<int>, iso: int -> string, number: string -> Option<int>, text: int -> string,
    isSource: string -> bool)
  {
    ghost predicate Valid() {
      && (forall ms :: IsDate(ms) ==> date(iso(ms)) == Some(ms))
      && (forall s :: date(s).Some? ==> IsDate(date(s).value))
      && date("") == None
      && (forall n :: number(text(n)) == Some(n) && JsTrim(text(n)) != "")
    }
  }

  predicate IsDate(ms: int) {
    -MAX_DATE <= ms <= MAX_DATE
  }

  // ---------- Parameters ----------

  function GetAll(pairs: Pairs, key: Param): seq<string> {
    if pairs == [] then []
    else (if pairs[0].0 == key then [pairs[0].1] else []) + GetAll(pairs[1..], key)
  }

  function Get(pairs: Pairs, key: Param): Option<string> {
    if GetAll(pairs, key) == [] then None else Some(GetAll(pairs, key)[0])
  }

  /** Replaces the first value of key and drops its others, or appends one. */
  function SetIn(pairs: Pairs, key: Param, value: string): Pairs {
    if pairs == [] then [(key, value)]
    else if pairs[0].0 == key then [(key, value)] + Without(pairs[1..], key)
    else [pairs[0]] + SetIn(pairs[1..], key, value)
  }

  function Without(pairs: Pairs, key: Param): Pairs {
    if pairs == [] then []
    else (if pairs[0].0 == key then [] else [pairs[0]]) + Without(pairs[1..], key)
  }

  class URLSearchParams {
    var pairs: Pairs

    constructor ()
      ensures pairs == []
    {
      pairs := [];
    }

    method Set(key: Param, value: string)
      modifies this
      ensures pairs == SetIn(old(pairs), key, value)
    {
      pairs := SetIn(pairs, key, value);
    }

    method Append(key: Param, value: string)
      modifies this
      ensures pairs == old(pairs) + [(key, value)]
    {
      pairs := pairs + [(key, value)];
    }
  }

  lemma {:induction false} SetAppends(pairs: Pairs, key: Param, value: string)
    requires forall p :: p in pairs ==> p.0 != key
    ensures SetIn(pairs, key, value) == pairs + [(key, value)]
  {
    if pairs != [] {
      assert pairs[0] in pairs;
      SetAppends(pairs[1..], key, value);
    }
  }

  lemma {:induction false} GetAllJoins(a: Pairs, b: Pairs, key: Param)
    ensures GetAll(a + b, key) == GetAll(a, key) + GetAll(b, key)
  {
    if a == [] {
      assert a + b == b;
    } else {
      GetAllJoins(a[1..], b, key);
      assert (a + b)[1..] == a[1..] + b;
      var first := if a[0].0 == key then [a[0].1] else [];
      assert first + (GetAll(a[1..], key) + GetAll(b, key)) == (first + GetAll(a[1..], key)) + GetAll(b, key);
    }
  }

  // ---------- Reading ----------

  function ReadSeverity(c: Codec, value: Option<string>): Option<int> {
    if value.None? || JsTrim(value.value) == "" then None
    else
      var n := c.number(value.value);
      if n.Some? && 0 <= n.value <= 10 then n else None
  }

  function ReadRange(c: Codec, pairs: Pairs): TimeRange {
    var from := c.date(Or(Get(pairs, FromParam), ""));
    var to := c.date(Or(Get(pairs, ToParam), ""));
    if from.Some? && to.Some? then Custom(from.value, to.value)
    else
      var preset := PresetNamed(Or(Get(pairs, RangeParam), ""));
      Named(if preset.Some? then preset.value else DEFAULT_PRESET)
  }

  function Or(v: Option<string>, other: string): string {
    if v.Some? then v.value else other
  }

  function Known(c: Codec, sources: seq<string>): seq<string> {
    if sources == [] then []
    else (if c.isSource(sources[0]) then [sources[0]] else []) + Known(c, sources[1..])
  }

  function NonBlank(tags: seq<string>): seq<string> {
    if tags == [] then []
    else (if JsTrim(tags[0]) != "" then [JsTrim(tags[0])] else []) + NonBlank(tags[1..])
  }

  /** A trimmed value, if it is not blank. */
  function Told(v: Option<string>): Option<string> {
    if v.Some? && JsTrim(v.value) != "" then Some(JsTrim(v.value)) else None
  }

  function TextAt(text: map<TextKey, string>, key: TextKey): Option<string> {
    if key in text then Some(text[key]) else None
  }

  lemma AllTextKeys()
    ensures forall k: TextKey :: k in TEXT_FILTERS[..|TEXT_FILTERS|]
  {
    forall k: TextKey
      ensures k in TEXT_FILTERS[..|TEXT_FILTERS|]
    {
      assert TEXT_FILTERS[TextRank(k)] == k;
    }
  }

  function TextRank(k: TextKey): (i: nat)
    ensures i < |TEXT_FILTERS| && TEXT_FILTERS[i] == k
  {
    match k
    case Q => 0
    case EventTypeKey => 1
    case ActionKey => 2
    case UserKey => 3
    case HostKey => 4
    case SrcIPKey => 5
  }

  function ReadTexts(pairs: Pairs): map<TextKey, string> {
    map key: TextKey | Told(Get(pairs, TextParam(key))).Some? :: Told(Get(pairs, TextParam(key))).value
  }

  function ReadOf(c: Codec, pairs: Pairs): Filters {
    Filters(
      ReadRange(c, pairs), JsTrim(Or(Get(pairs, TenantParam), "")), Distinct(Known(c, GetAll(pairs, SourceParam))),
      ReadTexts(pairs),
      ReadSeverity(c, Get(pairs, SeverityMinParam)), ReadSeverity(c, Get(pairs, SeverityMaxParam)),
      Distinct(NonBlank(GetAll(pairs, TagParam))))
  }

  /** The filters a URL describes. Values the pages cannot show are dropped rather than refused. */
  method ReadFilters(c: Codec, params: URLSearchParams) returns (f: Filters)
    ensures f == ReadOf(c, params.pairs)
  {
    var text := ReadTextFilters(params);
    f := Filters(
      ReadRange(c, params.pairs), JsTrim(Or(Get(params.pairs, TenantParam), "")),
      Distinct(Known(c, GetAll(params.pairs, SourceParam))), text,
      ReadSeverity(c, Get(params.pairs, SeverityMinParam)), ReadSeverity(c, Get(params.pairs, SeverityMaxParam)),
      Distinct(NonBlank(GetAll(params.pairs, TagParam))));
  }

  method ReadTextFilters(params: URLSearchParams) returns (text: map<TextKey, string>)
    ensures text == ReadTexts(params.pairs)
  {
    text := map[];
    for i := 0 to |TEXT_FILTERS|
      invariant forall k :: k in text <==> k in TEXT_FILTERS[..i] && Told(Get(params.pairs, TextParam(k))).Some?
      invariant forall k :: k in text ==> Some(text[k]) == Told(Get(params.pairs, TextParam(k)))
    {
      var key := TEXT_FILTERS[i];
      assert forall k :: k in TEXT_FILTERS[..i + 1] <==> k in TEXT_FILTERS[..i] || k == key;
      var given := Get(params.pairs, TextParam(key));
      if given.Some? && JsTrim(given.value) != "" {
        text := text[key := JsTrim(given.value)];
      }
    }
    AllTextKeys();
  }

  // ---------- Writing ----------

  function RangePairs(c: Codec, range: TimeRange): Pairs {
    match range
    case Custom(from, to) => [(FromParam, c.iso(from))] + [(ToParam, c.iso(to))]
    case Named(preset) => if preset != DEFAULT_PRESET then [(RangeParam, PresetId(preset))] else []
  }

  function TenantPairs(tenant: string): Pairs {
    if tenant != "" then [(TenantParam, tenant)] else []
  }

  function ListPairs(key: Param, values: seq<string>): Pairs {
    if values == [] then [] else ListPairs(key, values[..|values| - 1]) + [(key, values[|values| - 1])]
  }

  function TextPairs(text: map<TextKey, string>, keys: seq<TextKey>): Pairs {
    if keys == [] then [] else TextPairs(text, keys[..|keys| - 1]) + TextPair(text, keys[|keys| - 1])
  }

  function TextPair(text: map<TextKey, string>, key: TextKey): Pairs {
    if Told(TextAt(text, key)).Some? then [(TextParam(key), Told(TextAt(text, key)).value)] else []
  }

  function SeverityPairs(c: Codec, key: Param, severity: Option<int>): Pairs {
    if severity.Some? then [(key, c.text(severity.value))] else []
  }

  function OriginPairs(c: Codec, f: Filters): Pairs {
    RangePairs(c, f.range) + TenantPairs(f.tenant) + ListPairs(SourceParam, f.sources)
  }

  function Written(c: Codec, f: Filters): Pairs {
    OriginPairs(c, f) + TextPairs(f.text, TEXT_FILTERS)
    + SeverityPairs(c, SeverityMinParam, f.severityMin) + SeverityPairs(c, SeverityMaxParam, f.severityMax)
    + ListPairs(TagParam, f.tags)
  }

  /** The order in which parameters are written. */
  function Rank(key: Param): nat {
    match key
    case FromParam => 0
    case ToParam => 1
    case RangeParam => 2
    case TenantParam => 3
    case SourceParam => 4
    case TextParam(k) => 5 + TextRank(k)
    case SeverityMinParam => 11
    case SeverityMaxParam => 12
    case TagParam => 13
  }

  ghost predicate Until(pairs: Pairs, rank: nat) {
    forall p :: p in pairs ==> Rank(p.0) < rank
  }

  /** Sets a parameter not set before. */
  method Put(params: URLSearchParams, key: Param, value: string)
    requires Until(params.pairs, Rank(key))
    modifies params
    ensures params.pairs == old(params.pairs) + [(key, value)] && Until(params.pairs, Rank(key) + 1)
  {
    SetAppends(params.pairs, key, value);
    params.Set(key, value);
  }

  method PutRange(c: Codec, params: URLSearchParams, range: TimeRange)
    requires params.pairs == []
    modifies params
    ensures params.pairs == RangePairs(c, range) && Until(params.pairs, 3)
  {
    match range {
      case Custom(from, to) =>
        Put(params, FromParam, c.iso(from));
        Put(params, ToParam, c.iso(to));
      case Named(preset) =>
        if preset != DEFAULT_PRESET {
          Put(params, RangeParam, PresetId(preset));
        }
    }
  }

  method PutAll(params: URLSearchParams, key: Param, values: seq<string>)
    requires Until(params.pairs, Rank(key))
    modifies params
    ensures params.pairs == old(params.pairs) + ListPairs(key, values) && Until(params.pairs, Rank(key) + 1)
  {
    assert params.pairs + [] == params.pairs;
    for i := 0 to |values|
      invariant params.pairs == old(params.pairs) + ListPairs(key, values[..i]) && Until(params.pairs, Rank(key) + 1)
    {
      assert values[..i + 1][..i] == values[..i];
      params.Append(key, values[i]);
    }
    assert values[..|values|] == values;
  }

  method PutTexts(params: URLSearchParams, text: map<TextKey, string>)
    requires Until(params.pairs, 5)
    modifies params
    ensures params.pairs == old(params.pairs) + TextPairs(text, TEXT_FILTERS) && Until(params.pairs, 11)
  {
    assert params.pairs + [] == params.pairs;
    for i := 0 to |TEXT_FILTERS|
      invariant params.pairs == old(params.pairs) + TextPairs(text, TEXT_FILTERS[..i]) && Until(params.pairs, 5 + i)
    {
      TextRankIs(i);
      TextPairsGrow(text, TEXT_FILTERS, i, old(params.pairs));
      PutText(params, text, TEXT_FILTERS[i]);
    }
    assert TEXT_FILTERS[..|TEXT_FILTERS|] == TEXT_FILTERS;
  }

  lemma TextRankIs(i: nat)
    requires i < |TEXT_FILTERS|
    ensures TextRank(TEXT_FILTERS[i]) == i
  {
    assert TEXT_FILTERS[i] == [Q, EventTypeKey, ActionKey, UserKey, HostKey, SrcIPKey][i];
  }

  lemma TextPairsGrow(text: map<TextKey, string>, keys: seq<TextKey>, i: nat, so: Pairs)
    requires i < |keys|
    ensures so + TextPairs(text, keys[..i + 1]) == so + TextPairs(text, keys[..i]) + TextPair(text, keys[i])
  {
    assert keys[..i + 1][..i] == keys[..i];
  }

  method PutText(params: URLSearchParams, text: map<TextKey, string>, key: TextKey)
    requires Until(params.pairs, 5 + TextRank(key))
    modifies params
    ensures params.pairs == old(params.pairs) + TextPair(text, key) && Until(params.pairs, 6 + TextRank(key))
  {
    assert params.pairs + [] == params.pairs;
    if key in text && JsTrim(text[key]) != "" {
      Put(params, TextParam(key), JsTrim(text[key]));
    }
  }

  method PutSeverity(c: Codec, params: URLSearchParams, key: Param, severity: Option<int>)
    requires Until(params.pairs, Rank(key))
    modifies params
    ensures params.pairs == old(params.pairs) + SeverityPairs(c, key, severity) && Until(params.pairs, Rank(key) + 1)
  {
    assert params.pairs + [] == params.pairs;
    if severity.Some? {
      Put(params, key, c.text(severity.value));
    }
  }

  method PutOrigin(c: Codec, params: URLSearchParams, f: Filters)
    requires params.pairs == []
    modifies params
    ensures params.pairs == OriginPairs(c, f) && Until(params.pairs, 5)
  {
    PutRange(c, params, f.range);
    assert params.pairs + [] == params.pairs;
    if f.tenant != "" {
      Put(params, TenantParam, f.tenant);
    }
    PutAll(params, SourceParam, f.sources);
  }

  /** The URL parameters for filters, leaving out what is the default. */
  method WriteFilters(c: Codec, f: Filters) returns (params: URLSearchParams)
    ensures fresh(params) && params.pairs == Written(c, f)
  {
    params := new URLSearchParams();
    PutOrigin(c, params, f);
    PutTexts(params, f.text);
    PutSeverity(c, params, SeverityMinParam, f.severityMin);
    PutSeverity(c, params, SeverityMaxParam, f.severityMax);
    PutAll(params, TagParam, f.tags);
  }

  // ---------- Reading what was written ----------

  lemma {:induction false} ListRead(key: Param, values: seq<string>, other: Param)
    ensures GetAll(ListPairs(key, values), other) == if other == key then values else []
  {
    if values != [] {
      var n := |values| - 1;
      ListRead(key, values[..n], other);
      GetAllJoins(ListPairs(key, values[..n]), [(key, values[n])], other);
      OneRead(key, values[n], other);
      assert values[..n] + [values[n]] == values;
    }
  }

  lemma OneRead(key: Param, value: string, other: Param)
    ensures GetAll([(key, value)], other) == if other == key then [value] else []
  {
    assert [(key, value)][1..] == [];
  }

  lemma TextPairRead(text: map<TextKey, string>, key: TextKey, other: Param)
    ensures GetAll(TextPair(text, key), other) ==
            if other == TextParam(key) && Told(TextAt(text, key)).Some? then [Told(TextAt(text, key)).value] else []
  {
    assert TextPair(text, key) != [] ==> TextPair(text, key)[1..] == [];
  }

  lemma {:induction false} TextsRead(text: map<TextKey, string>, keys: seq<TextKey>, key: Param)
    requires forall i, j :: 0 <= i < j < |keys| ==> keys[i] != keys[j]
    ensures GetAll(TextPairs(text, keys), key) ==
            if key.TextParam? && key.key in keys && Told(TextAt(text, key.key)).Some? then [Told(TextAt(text, key.key)).value] else []
    decreases |keys|
  {
    if keys != [] {
      var n := |keys| - 1;
      TextsRead(text, keys[..n], key);
      GetAllJoins(TextPairs(text, keys[..n]), TextPair(text, keys[n]), key);
      TextPairRead(text, keys[n], key);
      if key.TextParam? {
        LastTextKey(keys, key.key);
      }
    }
  }

  lemma LastTextKey(keys: seq<TextKey>, k: TextKey)
    requires keys != [] && forall i, j :: 0 <= i < j < |keys| ==> keys[i] != keys[j]
    ensures k in keys <==> k in keys[..|keys| - 1] || k == keys[|keys| - 1]
    ensures keys[|keys| - 1] !in keys[..|keys| - 1]
  {}

  lemma TextFiltersRead(text: map<TextKey, string>, key: Param)
    ensures GetAll(TextPairs(text, TEXT_FILTERS), key) == TextValues(text, key)
  {
    forall i, j | 0 <= i < j < |TEXT_FILTERS|
      ensures TEXT_FILTERS[i] != TEXT_FILTERS[j]
    {
      TextRankIs(i);
      TextRankIs(j);
    }
    if key.TextParam? {
      assert TEXT_FILTERS[TextRank(key.key)] == key.key;
    }
    TextsRead(text, TEXT_FILTERS, key);
  }

  function TextValues(text: map<TextKey, string>, key: Param): seq<string> {
    if key.TextParam? && Told(TextAt(text, key.key)).Some? then [Told(TextAt(text, key.key)).value] else []
  }

  /** The values a key is written with. */
  function ValuesOf(c: Codec, f: Filters, key: Param): seq<string> {
    match key
    case FromParam => if f.range.Custom? then [c.iso(f.range.from)] else []
    case ToParam => if f.range.Custom? then [c.iso(f.range.to)] else []
    case RangeParam => if f.range.Named? && f.range.preset != DEFAULT_PRESET then [PresetId(f.range.preset)] else []
    case TenantParam => if f.tenant != "" then [f.tenant] else []
    case SourceParam => f.sources
    case TextParam(_) => TextValues(f.text, key)
    case SeverityMinParam => if f.severityMin.Some? then [c.text(f.severityMin.value)] else []
    case SeverityMaxParam => if f.severityMax.Some? then [c.text(f.severityMax.value)] else []
    case TagParam => f.tags
  }

  lemma RangeRead(c: Codec, f: Filters, key: Param)
    ensures GetAll(RangePairs(c, f.range), key) == if Rank(key) < 3 then ValuesOf(c, f, key) else []
  {
    match f.range {
      case Custom(from, to) =>
        GetAllJoins([(FromParam, c.iso(from))], [(ToParam, c.iso(to))], key);
        assert [(FromParam, c.iso(from))][1..] == [] && [(ToParam, c.iso(to))][1..] == [];
      case Named(preset) =>
        assert [(RangeParam, PresetId(preset))][1..] == [];
    }
  }

  lemma OnlyOne(a: seq<string>, b: seq<string>, c: seq<string>, d: seq<string>, e: seq<string>, i: nat)
    requires i == 0 || a == []
    requires i == 1 || b == []
    requires i == 2 || c == []
    requires i == 3 || d == []
    requires i == 4 || e == []
    ensures a + b + c + d + e == if i == 0 then a else if i == 1 then b else if i == 2 then c else if i == 3 then d else e
  {}

  lemma TenantRead(tenant: string, other: Param)
    ensures GetAll(TenantPairs(tenant), other) == if other == TenantParam && tenant != "" then [tenant] else []
  {
    if tenant != "" {
      OneRead(TenantParam, tenant, other);
    }
  }

  lemma OriginRead(c: Codec, f: Filters, key: Param)
    ensures GetAll(OriginPairs(c, f), key) == if Rank(key) < 5 then ValuesOf(c, f, key) else []
  {
    var range, tenant, sources := RangePairs(c, f.range), TenantPairs(f.tenant), ListPairs(SourceParam, f.sources);
    GetAllJoins(range, tenant, key);
    GetAllJoins(range + tenant, sources, key);
    RangeRead(c, f, key);
    TenantRead(f.tenant, key);
    ListRead(SourceParam, f.sources, key);
    OnlyOne(GetAll(range, key), GetAll(tenant, key), GetAll(sources, key), [], [],
            if Rank(key) < 3 then 0 else if key.TenantParam? then 1 else 2);
  }

  lemma SeverityRead(c: Codec, key: Param, severity: Option<int>, other: Param)
    ensures GetAll(SeverityPairs(c, key, severity), other) == if other == key && severity.Some? then [c.text(severity.value)] else []
  {
    assert severity.Some? ==> [(key, c.text(severity.value))][1..] == [];
  }

  lemma FiveJoin(a: Pairs, b: Pairs, c: Pairs, d: Pairs, e: Pairs, key: Param)
    ensures GetAll(a + b + c + d + e, key) == GetAll(a, key) + GetAll(b, key) + GetAll(c, key) + GetAll(d, key) + GetAll(e, key)
  {
    GetAllJoins(a, b, key);
    GetAllJoins(a + b, c, key);
    GetAllJoins(a + b + c, d, key);
    GetAllJoins(a + b + c + d, e, key);
  }

  /** The part of what is written that a key is in. */
  function Part(key: Param): nat {
    if Rank(key) < 5 then 0 else if key.TextParam? then 1 else if key.SeverityMinParam? then 2 else if key.SeverityMaxParam? then 3 else 4
  }

  /** Every key reads back as the values it was written with. */
  lemma WrittenRead(c: Codec, f: Filters, key: Param)
    ensures GetAll(Written(c, f), key) == ValuesOf(c, f, key)
  {
    var origin, text := OriginPairs(c, f), TextPairs(f.text, TEXT_FILTERS);
    var low, high := SeverityPairs(c, SeverityMinParam, f.severityMin), SeverityPairs(c, SeverityMaxParam, f.severityMax);
    var tags := ListPairs(TagParam, f.tags);
    FiveJoin(origin, text, low, high, tags, key);
    OriginRead(c, f, key);
    TextFiltersRead(f.text, key);
    SeverityRead(c, SeverityMinParam, f.severityMin, key);
    SeverityRead(c, SeverityMaxParam, f.severityMax, key);
    ListRead(TagParam, f.tags, key);
    OnlyOne(GetAll(origin, key), GetAll(text, key), GetAll(low, key), GetAll(high, key), GetAll(tags, key), Part(key));
  }

  // ---------- What survives a URL ----------

  function InScale(severity: Option<int>): Option<int> {
    if severity.Some? && 0 <= severity.value <= 10 then severity else None
  }

  function ShownTexts(text: map<TextKey, string>): map<TextKey, string> {
    map key | key in text && JsTrim(text[key]) != "" :: JsTrim(text[key])
  }

  /** What is left of filters once they have been in a URL. */
  function Shown(c: Codec, f: Filters): Filters {
    Filters(
      f.range, JsTrim(f.tenant), Distinct(Known(c, f.sources)), ShownTexts(f.text), InScale(f.severityMin), InScale(f.severityMax),
      Distinct(NonBlank(f.tags)))
  }

  ghost predicate Dated(range: TimeRange) {
    range.Custom? ==> IsDate(range.from) && IsDate(range.to)
  }

  /** Every key has the values it is written with. */
  ghost predicate Carries(c: Codec, pairs: Pairs, f: Filters) {
    forall key :: GetAll(pairs, key) == ValuesOf(c, f, key)
  }

  lemma WrittenCarries(c: Codec, f: Filters)
    ensures Carries(c, Written(c, f), f)
  {
    forall key
      ensures GetAll(Written(c, f), key) == ValuesOf(c, f, key)
    {
      WrittenRead(c, f, key);
    }
  }

  lemma RangeReads(c: Codec, pairs: Pairs, f: Filters)
    requires c.Valid() && Dated(f.range) && Carries(c, pairs, f)
    ensures ReadRange(c, pairs) == f.range
  {
    assert GetAll(pairs, FromParam) == ValuesOf(c, f, FromParam);
    assert GetAll(pairs, ToParam) == ValuesOf(c, f, ToParam);
    assert GetAll(pairs, RangeParam) == ValuesOf(c, f, RangeParam);
    PresetReads(if f.range.Named? then f.range.preset else DEFAULT_PRESET);
  }

  lemma SeverityReads(c: Codec, value: Option<string>, severity: Option<int>)
    requires c.Valid() && value == if severity.Some? then Some(c.text(severity.value)) else None
    ensures ReadSeverity(c, value) == InScale(severity)
  {}

  lemma TextsReadBack(c: Codec, pairs: Pairs, f: Filters)
    requires Carries(c, pairs, f)
    ensures ReadTexts(pairs) == ShownTexts(f.text)
  {
    forall key: TextKey
      ensures Told(Get(pairs, TextParam(key))) == Told(TextAt(f.text, key))
    {
      assert GetAll(pairs, TextParam(key)) == ValuesOf(c, f, TextParam(key));
      ToldTwice(TextAt(f.text, key));
    }
    SameTexts(pairs, f.text);
  }

  lemma SameTexts(pairs: Pairs, text: map<TextKey, string>)
    requires forall key: TextKey :: Told(Get(pairs, TextParam(key))) == Told(TextAt(text, key))
    ensures ReadTexts(pairs) == ShownTexts(text)
  {}

  lemma ToldTwice(v: Option<string>)
    ensures Told(Told(v)) == Told(v)
  {
    if Told(v).Some? {
      TrimTrimmed(Told(v).value, JsSpace);
    }
  }

  lemma SeverityReadsBack(c: Codec, pairs: Pairs, f: Filters)
    requires c.Valid() && Carries(c, pairs, f)
    ensures ReadSeverity(c, Get(pairs, SeverityMinParam)) == InScale(f.severityMin)
    ensures ReadSeverity(c, Get(pairs, SeverityMaxParam)) == InScale(f.severityMax)
  {
    assert GetAll(pairs, SeverityMinParam) == ValuesOf(c, f, SeverityMinParam);
    assert GetAll(pairs, SeverityMaxParam) == ValuesOf(c, f, SeverityMaxParam);
    SeverityReads(c, Get(pairs, SeverityMinParam), f.severityMin);
    SeverityReads(c, Get(pairs, SeverityMaxParam), f.severityMax);
  }

  lemma ReadAsShown(c: Codec, f: Filters, pairs: Pairs)
    requires ReadRange(c, pairs) == f.range && ReadTexts(pairs) == ShownTexts(f.text)
    requires GetAll(pairs, TenantParam) == ValuesOf(c, f, TenantParam)
    requires GetAll(pairs, SourceParam) == f.sources && GetAll(pairs, TagParam) == f.tags
    requires ReadSeverity(c, Get(pairs, SeverityMinParam)) == InScale(f.severityMin)
    requires ReadSeverity(c, Get(pairs, SeverityMaxParam)) == InScale(f.severityMax)
    ensures ReadOf(c, pairs) == Shown(c, f)
  {}

  lemma ReadFrom(c: Codec, pairs: Pairs, f: Filters)
    requires c.Valid() && Dated(f.range) && Carries(c, pairs, f)
    ensures ReadOf(c, pairs) == Shown(c, f)
  {
    RangeReads(c, pairs, f);
    TextsReadBack(c, pairs, f);
    SeverityReadsBack(c, pairs, f);
    assert GetAll(pairs, TenantParam) == ValuesOf(c, f, TenantParam);
    assert GetAll(pairs, SourceParam) == ValuesOf(c, f, SourceParam);
    assert GetAll(pairs, TagParam) == ValuesOf(c, f, TagParam);
    ReadAsShown(c, f, pairs);
  }

  /** A URL gives back the filters it was written from, but for what the pages cannot show. */
  lemma WriteThenRead(c: Codec, f: Filters)
    requires c.Valid() && Dated(f.range)
    ensures ReadOf(c, Written(c, f)) == Shown(c, f)
  {
    WrittenCarries(c, f);
    ReadFrom(c, Written(c, f), f);
  }

  /** What was read is shown as it is. */
  lemma ReadIsShown(c: Codec, pairs: Pairs)
    requires c.Valid()
    ensures Dated(ReadOf(c, pairs).range) && Shown(c, ReadOf(c, pairs)) == ReadOf(c, pairs)
  {
    TrimTrimmed(JsTrim(Or(Get(pairs, TenantParam), "")), JsSpace);
    KnownOnce(c, GetAll(pairs, SourceParam));
    NonBlankOnce(GetAll(pairs, TagParam));
    TextsOnce(pairs);
    ScaleOnce(c, Get(pairs, SeverityMinParam));
    ScaleOnce(c, Get(pairs, SeverityMaxParam));
    RangeDated(c, pairs);
  }

  lemma RangeDated(c: Codec, pairs: Pairs)
    requires c.Valid()
    ensures Dated(ReadRange(c, pairs))
  {}

  lemma ScaleOnce(c: Codec, value: Option<string>)
    ensures InScale(ReadSeverity(c, value)) == ReadSeverity(c, value)
  {}

  lemma TextsOnce(pairs: Pairs)
    ensures ShownTexts(ReadTexts(pairs)) == ReadTexts(pairs)
  {
    var text := ReadTexts(pairs);
    forall key | key in text
      ensures JsTrim(text[key]) == text[key] != ""
    {
      ToldTwice(Get(pairs, TextParam(key)));
    }
  }

  lemma KnownOnce(c: Codec, sources: seq<string>)
    ensures Distinct(Known(c, Distinct(Known(c, sources)))) == Distinct(Known(c, sources))
  {
    var once := Distinct(Known(c, sources));
    DistinctIs(Known(c, sources));
    KnownAre(c, sources);
    KnownKeeps(c, once);
    DistinctKeeps(once);
  }

  lemma {:induction false} KnownAre(c: Codec, sources: seq<string>)
    ensures forall s :: s in Known(c, sources) <==> s in sources && c.isSource(s)
  {
    if sources != [] {
      KnownAre(c, sources[1..]);
      assert sources == [sources[0]] + sources[1..];
    }
  }

  lemma {:induction false} KnownKeeps(c: Codec, sources: seq<string>)
    requires forall s :: s in sources ==> c.isSource(s)
    ensures Known(c, sources) == sources
  {
    if sources != [] {
      assert sources[0] in sources;
      KnownKeeps(c, sources[1..]);
    }
  }

  lemma NonBlankOnce(tags: seq<string>)
    ensures Distinct(NonBlank(Distinct(NonBlank(tags)))) == Distinct(NonBlank(tags))
  {
    var once := Distinct(NonBlank(tags));
    DistinctIs(NonBlank(tags));
    NonBlankAre(tags);
    NonBlankKeeps(once);
    DistinctKeeps(once);
  }

  lemma {:induction false} NonBlankAre(tags: seq<string>)
    ensures forall t :: t in NonBlank(tags) <==> t != "" && exists i :: 0 <= i < |tags| && JsTrim(tags[i]) == t
    ensures forall t :: t in NonBlank(tags) ==> JsTrim(t) == t
  {
    if tags != [] {
      NonBlankAre(tags[1..]);
      TrimTrimmed(JsTrim(tags[0]), JsSpace);
      assert forall i :: 0 <= i < |tags| - 1 ==> tags[1..][i] == tags[i + 1];
    }
  }

  lemma InTail(tags: seq<string>, t: string)
    requires tags != [] && t in tags[1..]
    ensures t in tags
  {
    var i :| 0 <= i < |tags| - 1 && tags[1..][i] == t;
    assert tags[i + 1] == t;
  }

  lemma {:induction false} NonBlankKeeps(tags: seq<string>)
    requires forall t :: t in tags ==> JsTrim(t) == t != ""
    ensures NonBlank(tags) == tags
  {
    if tags != [] {
      assert tags[0] in tags;
      forall t | t in tags[1..]
        ensures JsTrim(t) == t != ""
      {
        InTail(tags, t);
      }
      NonBlankKeeps(tags[1..]);
    }
  }

  /** Reading, writing and reading again changes nothing. */
  lemma ReadWriteRead(c: Codec, pairs: Pairs)
    requires c.Valid()
    ensures ReadOf(c, Written(c, ReadOf(c, pairs))) == ReadOf(c, pairs)
  {
    ReadIsShown(c, pairs);
    WriteThenRead(c, ReadOf(c, pairs));
  }

  // ---------- The API's query ----------

  /** A preset ends at the start of the next minute. */
  function WindowOf(range: TimeRange, now: int): (int, int) {
    match range
    case Custom(from, to) => (from, to)
    case Named(preset) =>
      var to := now / MINUTE * MINUTE + MINUTE;
      (to - preset.Minutes() * MINUTE, to)
  }

  function Instant(ms: int): int {
    UNIX_EPOCH + ms * MILLISECOND
  }

  function ParamFor(text: map<TextKey, string>, key: TextKey): string {
    Or(Told(TextAt(text, key)), "")
  }

  function QueryOf(f: Filters, now: int): Filtering.EventFilter {
    var (from, to) := WindowOf(f.range, now);
    Filtering.EventFilter(
      f.tenant, Some(Instant(from)), Some(Instant(to)), f.sources, ParamFor(f.text, EventTypeKey), ParamFor(f.text, ActionKey),
      f.severityMin, f.severityMax, ParamFor(f.text, SrcIPKey), ParamFor(f.text, UserKey), ParamFor(f.text, HostKey), f.tags,
      ParamFor(f.text, Q))
  }

  lemma ShownParam(text: map<TextKey, string>, key: TextKey)
    ensures ParamFor(ShownTexts(text), key) == if key in text then JsTrim(text[key]) else ""
  {
    ToldTwice(TextAt(text, key));
    assert TextAt(ShownTexts(text), key) == Told(TextAt(text, key));
  }

  /** Adds a text parameter to a query. */
  function WithText(q: Filtering.EventFilter, key: TextKey, value: string): Filtering.EventFilter {
    match key
    case Q => q.(query := value)
    case EventTypeKey => q.(eventType := value)
    case ActionKey => q.(action := value)
    case UserKey => q.(user := value)
    case HostKey => q.(host := value)
    case SrcIPKey => q.(srcIP := value)
  }

  function TextIn(q: Filtering.EventFilter, key: TextKey): string {
    match key
    case Q => q.query
    case EventTypeKey => q.eventType
    case ActionKey => q.action
    case UserKey => q.user
    case HostKey => q.host
    case SrcIPKey => q.srcIP
  }

  /** The query with every text parameter that is not blank. */
  function WithTexts(q: Filtering.EventFilter, text: map<TextKey, string>): Filtering.EventFilter {
    q.(query := ParamFor(text, Q), eventType := ParamFor(text, EventTypeKey), action := ParamFor(text, ActionKey),
       user := ParamFor(text, UserKey), host := ParamFor(text, HostKey), srcIP := ParamFor(text, SrcIPKey))
  }

  ghost predicate SameButText(q: Filtering.EventFilter, first: Filtering.EventFilter) {
    && q.tenant == first.tenant && q.from == first.from && q.to == first.to && q.sources == first.sources
    && q.severityMin == first.severityMin && q.severityMax == first.severityMax && q.tags == first.tags
  }

  lemma TextsAdded(q: Filtering.EventFilter, first: Filtering.EventFilter, text: map<TextKey, string>)
    requires SameButText(q, first) && forall k :: TextIn(q, k) == ParamFor(text, k)
    ensures q == WithTexts(first, text)
  {
    assert TextIn(q, Q) == q.query && TextIn(q, EventTypeKey) == q.eventType && TextIn(q, ActionKey) == q.action;
    assert TextIn(q, UserKey) == q.user && TextIn(q, HostKey) == q.host && TextIn(q, SrcIPKey) == q.srcIP;
  }

  lemma WithTextIs(q: Filtering.EventFilter, key: TextKey, value: string)
    ensures SameButText(WithText(q, key, value), q)
    ensures forall k :: TextIn(WithText(q, key, value), k) == if k == key then value else TextIn(q, k)
  {}

  method AddTexts(first: Filtering.EventFilter, text: map<TextKey, string>) returns (q: Filtering.EventFilter)
    requires forall k :: TextIn(first, k) == ""
    ensures q == WithTexts(first, text)
  {
    q := first;
    for i := 0 to |TEXT_FILTERS|
      invariant SameButText(q, first) && forall k :: TextIn(q, k) == if k in TEXT_FILTERS[..i] then ParamFor(text, k) else ""
    {
      var key := TEXT_FILTERS[i];
      assert forall k :: k in TEXT_FILTERS[..i + 1] <==> k in TEXT_FILTERS[..i] || k == key;
      if key in text && JsTrim(text[key]) != "" {
        WithTextIs(q, key, JsTrim(text[key]));
        q := WithText(q, key, JsTrim(text[key]));
      }
    }
    AllTextKeys();
    TextsAdded(q, first, text);
  }

  /** The API query for filters, with a preset's window worked out at now. */
  method EventQuery(f: Filters, now: int) returns (q: Filtering.EventFilter)
    ensures q == QueryOf(f, now)
  {
    var window := WindowOf(f.range, now);
    q := Filtering.EventFilter("", Some(Instant(window.0)), Some(Instant(window.1)), [], "", "", None, None, "", "", "", [], "");
    if f.tenant != "" {
      q := q.(tenant := f.tenant);
    }
    if |f.sources| > 0 {
      q := q.(sources := f.sources);
    }
    q := AddTexts(q, f.text);
    q := q.(severityMin := f.severityMin, severityMax := f.severityMax);
    if |f.tags| > 0 {
      q := q.(tags := f.tags);
    }
  }
}
