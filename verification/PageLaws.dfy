/** What a page asks the API for, in what it shows. Times are in nanoseconds but for the page's own, in milliseconds since 1970. */
module PageLaws {
  import opened Wrappers
  import opened Texts
  import opened Events
  import opened SearchLaws
  import opened Durations
  import UrlFilters

  /** A preset is as long as its id says. */
  lemma PresetsAreNamed(p: UrlFilters.Preset)
    ensures p.Minutes() * 60_000_000_000 == Lasts(UrlFilters.PresetId(p))
  {
    match p {
      case Last15Minutes => TwoDigits('1', '5', 'm');
      case LastHour => OneDigit('1', 'h');
      case Last6Hours => OneDigit('6', 'h');
      case Last24Hours => TwoDigits('2', '4', 'h');
      case Last7Days => OneDigit('7', 'd');
    }
  }

  /** The time a page's clock or calendar means. */
  function At(ms: int): int {
    62_135_596_800_000_000_000 + ms * 1_000_000
  }

  /**
   * A page asks for the range shown: the dates picked, or as long as the
   * preset's id says, up to the start of the next minute.
   */
  lemma RangeAsked(f: UrlFilters.Filters, now: int)
    ensures var q := UrlFilters.QueryOf(f, now);
            && q.from.Some? && q.to.Some?
            && match f.range
               case Custom(from, to) => q.from.value == At(from) && q.to.value == At(to)
               case Named(preset) =>
                 && q.to.value - q.from.value == Lasts(UrlFilters.PresetId(preset))
                 && At(now) < q.to.value <= At(now) + 60_000_000_000 && q.to.value % 60_000_000_000 == 0
  {
    if f.range.Named? {
      PresetsAreNamed(f.range.preset);
      NextMinute(now);
    }
  }

  lemma NextMinute(now: int)
    ensures var next := now / 60_000 * 60_000 + 60_000;
            now < next <= now + 60_000 && At(next) % 60_000_000_000 == 0
  {
    var k := now / 60_000 + 1;
    assert At(k * 60_000) == (1_035_593_280 + k) * 60_000_000_000;
    Multiple(1_035_593_280 + k, 60_000_000_000);
  }

  lemma Multiple(k: int, m: int)
    requires 1 <= m
    ensures k * m % m == 0
  {
    var q, r := k * m / m, k * m % m;
    assert k * m == q * m + r && (k - q) * m == r;
    if k < q {
      Times(1, q - k, m);
    } else if q < k {
      Times(1, k - q, m);
    }
  }

  lemma Times(a: int, b: int, m: int)
    requires a <= b && 0 <= m
    ensures a * m <= b * m
  {}

  /** What is shown in a text field. */
  function Shown(f: UrlFilters.Filters, key: UrlFilters.TextKey): string {
    if key in f.text then JsTrim(f.text[key]) else ""
  }

  /** e is like everything the page shows. */
  ghost predicate LikeShown(parse: string -> Option<Addr>, f: UrlFilters.Filters, e: Event) {
    && Names(f.tenant, Some(e.tenant)) && AmongSources(f.sources, e.source) && WithTags(f.tags, e.tags)
    && Names(Shown(f, UrlFilters.EventTypeKey), e.eventType) && Names(Shown(f, UrlFilters.UserKey), e.user)
    && Names(Shown(f, UrlFilters.HostKey), e.host)
    && (TrimSpace(Shown(f, UrlFilters.ActionKey)) == "" || e.action == Some(ToLower(TrimSpace(Shown(f, UrlFilters.ActionKey)))))
    && (f.severityMin.Some? ==> e.severity.Some? && e.severity.value >= f.severityMin.value)
    && (f.severityMax.Some? ==> e.severity.Some? && e.severity.value <= f.severityMax.value)
    && (var ip := TrimSpace(Shown(f, UrlFilters.SrcIPKey)); ip == "" || (e.srcIP.Some? && parse(ip) == e.srcIP))
    && Mentioned(Shown(f, UrlFilters.Q), e.texts)
  }

  lemma ParamShown(f: UrlFilters.Filters, key: UrlFilters.TextKey)
    ensures UrlFilters.ParamFor(f.text, key) == Shown(f, key)
  {}

  /** A page asks for the events that are like everything it shows, and no others. */
  lemma FiltersAsked(parse: string -> Option<Addr>, f: UrlFilters.Filters, now: int, e: Event)
    ensures Meets(parse, UrlFilters.QueryOf(f, now), e) <==> LikeShown(parse, f, e)
  {
    ParamShown(f, UrlFilters.EventTypeKey);
    ParamShown(f, UrlFilters.ActionKey);
    ParamShown(f, UrlFilters.UserKey);
    ParamShown(f, UrlFilters.HostKey);
    ParamShown(f, UrlFilters.SrcIPKey);
    ParamShown(f, UrlFilters.Q);
  }

  // ---------- What a URL says ----------

  /** A parameter counts once, as it first comes. */
  function FirstOf(pairs: UrlFilters.Pairs, key: UrlFilters.Param): Option<string> {
    if pairs == [] then None else if pairs[0].0 == key then Some(pairs[0].1) else FirstOf(pairs[1..], key)
  }

  /** The sources named that there are, each where it first comes. */
  function SourcesIn(c: UrlFilters.Codec, pairs: UrlFilters.Pairs): seq<string> {
    if pairs == [] then []
    else
      var before, last := SourcesIn(c, pairs[..|pairs| - 1]), pairs[|pairs| - 1];
      if last.0 == UrlFilters.SourceParam && c.isSource(last.1) && last.1 !in before then before + [last.1] else before
  }

  /** The tags, trimmed and not blank, each where it first comes. */
  function TagsIn(pairs: UrlFilters.Pairs): seq<string> {
    if pairs == [] then []
    else
      var before, last := TagsIn(pairs[..|pairs| - 1]), pairs[|pairs| - 1];
      if last.0 == UrlFilters.TagParam && JsTrim(last.1) != "" && JsTrim(last.1) !in before then before + [JsTrim(last.1)] else before
  }

  predicate Said(v: Option<string>) {
    v.Some? && JsTrim(v.value) != ""
  }

  /** A severity is a number from 0 to 10, or else there is none. */
  predicate IsSeverity(c: UrlFilters.Codec, v: Option<string>, severity: Option<int>) {
    if Said(v) && c.number(v.value).Some? && 0 <= c.number(v.value).value && c.number(v.value).value <= 10
    then severity == c.number(v.value) else severity == None
  }

  /** The dates, if both are; or the preset named, if there is one; or the last 24 hours. */
  predicate IsRange(c: UrlFilters.Codec, from: Option<string>, to: Option<string>, preset: Option<string>, range: UrlFilters.TimeRange) {
    if from.Some? && to.Some? && c.date(from.value).Some? && c.date(to.value).Some? then
      range == UrlFilters.Custom(c.date(from.value).value, c.date(to.value).value)
    else
      && range.Named?
      && UrlFilters.PresetId(range.preset) == if preset.Some? && preset.value in ["15m", "1h", "6h", "24h", "7d"] then preset.value else "24h"
  }

  lemma {:induction false} FirstIs(pairs: UrlFilters.Pairs, key: UrlFilters.Param)
    ensures UrlFilters.Get(pairs, key) == FirstOf(pairs, key)
  {
    if pairs != [] {
      FirstIs(pairs[1..], key);
    }
  }

  lemma {:induction false} KnownJoins(c: UrlFilters.Codec, a: seq<string>, b: seq<string>)
    ensures UrlFilters.Known(c, a + b) == UrlFilters.Known(c, a) + UrlFilters.Known(c, b)
  {
    if a == [] {
      assert a + b == b;
    } else {
      assert (a + b)[1..] == a[1..] + b;
      KnownJoins(c, a[1..], b);
    }
  }

  lemma {:induction false} NonBlankJoins(a: seq<string>, b: seq<string>)
    ensures UrlFilters.NonBlank(a + b) == UrlFilters.NonBlank(a) + UrlFilters.NonBlank(b)
  {
    if a == [] {
      assert a + b == b;
    } else {
      assert (a + b)[1..] == a[1..] + b;
      NonBlankJoins(a[1..], b);
    }
  }

  lemma OneMore(values: seq<string>, more: seq<string>)
    requires |more| <= 1
    ensures Distinct(values + more) == if more == [] || more[0] in Distinct(values) then Distinct(values) else Distinct(values) + more
  {
    DistinctIs(values);
    if more == [] {
      assert values + more == values;
    } else {
      assert (values + more)[..|values|] == values && more == [more[0]];
    }
  }

  lemma LastOf(pairs: UrlFilters.Pairs, key: UrlFilters.Param)
    requires pairs != []
    ensures var last := pairs[|pairs| - 1];
            UrlFilters.GetAll(pairs, key) == UrlFilters.GetAll(pairs[..|pairs| - 1], key) + if last.0 == key then [last.1] else []
  {
    var last := pairs[|pairs| - 1];
    UrlFilters.GetAllJoins(pairs[..|pairs| - 1], [last], key);
    assert pairs == pairs[..|pairs| - 1] + [last];
  }

  lemma {:induction false} SourcesRead(c: UrlFilters.Codec, pairs: UrlFilters.Pairs)
    ensures Distinct(UrlFilters.Known(c, UrlFilters.GetAll(pairs, UrlFilters.SourceParam))) == SourcesIn(c, pairs)
    decreases |pairs|
  {
    if pairs != [] {
      var before, last := pairs[..|pairs| - 1], pairs[|pairs| - 1];
      var values, more := UrlFilters.GetAll(before, UrlFilters.SourceParam), if last.0 == UrlFilters.SourceParam then [last.1] else [];
      SourcesRead(c, before);
      LastOf(pairs, UrlFilters.SourceParam);
      KnownJoins(c, values, more);
      OneMore(UrlFilters.Known(c, values), UrlFilters.Known(c, more));
    }
  }

  lemma {:induction false} TagsRead(pairs: UrlFilters.Pairs)
    ensures Distinct(UrlFilters.NonBlank(UrlFilters.GetAll(pairs, UrlFilters.TagParam))) == TagsIn(pairs)
    decreases |pairs|
  {
    if pairs != [] {
      var before, last := pairs[..|pairs| - 1], pairs[|pairs| - 1];
      var values, more := UrlFilters.GetAll(before, UrlFilters.TagParam), if last.0 == UrlFilters.TagParam then [last.1] else [];
      TagsRead(before);
      LastOf(pairs, UrlFilters.TagParam);
      NonBlankJoins(values, more);
      OneMore(UrlFilters.NonBlank(values), UrlFilters.NonBlank(more));
    }
  }

  lemma PresetRead(id: string)
    ensures var named := UrlFilters.PresetNamed(id);
            && (named.Some? <==> id in ["15m", "1h", "6h", "24h", "7d"])
            && (named.Some? ==> UrlFilters.PresetId(named.value) == id)
  {
    var ids := ["15m", "1h", "6h", "24h", "7d"];
    forall i | 0 <= i < |UrlFilters.PRESETS|
      ensures UrlFilters.PresetId(UrlFilters.PRESETS[i]) == ids[i]
    {}
    PresetAmong(UrlFilters.PRESETS, id);
  }

  lemma {:induction false} PresetAmong(presets: seq<UrlFilters.Preset>, id: string)
    ensures var named := UrlFilters.PresetFrom(presets, id);
            && (named.Some? <==> exists i :: 0 <= i < |presets| && UrlFilters.PresetId(presets[i]) == id)
            && (named.Some? ==> UrlFilters.PresetId(named.value) == id)
  {
    if presets != [] && UrlFilters.PresetId(presets[0]) != id {
      PresetAmong(presets[1..], id);
      assert forall i :: 1 <= i < |presets| ==> presets[i] == presets[1..][i - 1];
      assert forall i :: 0 <= i < |presets| - 1 ==> presets[1..][i] == presets[i + 1];
    }
  }

  /** The filters read from a URL, parameter by parameter. What cannot be shown is left out. */
  lemma UrlSays(c: UrlFilters.Codec, pairs: UrlFilters.Pairs)
    requires c.Valid()
    ensures var f := UrlFilters.ReadOf(c, pairs);
            var tenant := FirstOf(pairs, UrlFilters.TenantParam);
            && f.tenant == (if tenant.Some? then JsTrim(tenant.value) else "")
            && f.sources == SourcesIn(c, pairs) && f.tags == TagsIn(pairs)
            && IsSeverity(c, FirstOf(pairs, UrlFilters.SeverityMinParam), f.severityMin)
            && IsSeverity(c, FirstOf(pairs, UrlFilters.SeverityMaxParam), f.severityMax)
            && IsRange(c, FirstOf(pairs, UrlFilters.FromParam), FirstOf(pairs, UrlFilters.ToParam), FirstOf(pairs, UrlFilters.RangeParam), f.range)
  {
    FirstIs(pairs, UrlFilters.TenantParam);
    FirstIs(pairs, UrlFilters.SeverityMinParam);
    FirstIs(pairs, UrlFilters.SeverityMaxParam);
    SourcesRead(c, pairs);
    TagsRead(pairs);
    RangeRead(c, pairs);
  }

  lemma RangeRead(c: UrlFilters.Codec, pairs: UrlFilters.Pairs)
    requires c.Valid()
    ensures IsRange(c, FirstOf(pairs, UrlFilters.FromParam), FirstOf(pairs, UrlFilters.ToParam), FirstOf(pairs, UrlFilters.RangeParam),
                    UrlFilters.ReadRange(c, pairs))
  {
    FirstIs(pairs, UrlFilters.FromParam);
    FirstIs(pairs, UrlFilters.ToParam);
    FirstIs(pairs, UrlFilters.RangeParam);
    PresetRead(UrlFilters.Or(FirstOf(pairs, UrlFilters.RangeParam), ""));
  }

  /** And each of its texts, which is there if it says anything. */
  lemma UrlTexts(c: UrlFilters.Codec, pairs: UrlFilters.Pairs, key: UrlFilters.TextKey)
    ensures var text, said := UrlFilters.ReadOf(c, pairs).text, FirstOf(pairs, UrlFilters.TextParam(key));
            (key in text <==> Said(said)) && (key in text ==> text[key] == JsTrim(said.value))
  {
    FirstIs(pairs, UrlFilters.TextParam(key));
  }
}
