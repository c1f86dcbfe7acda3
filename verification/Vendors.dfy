/** backend/internal/ingest/normalize.go and sources.go: the tables of names. */
module Vendors {
  import opened Wrappers
  import opened Texts
  import opened Values
  import opened Builder
  import opened Normalize
  import opened NormalizeLaws

  /** The keys the JSON path maps, in order of precedence. */
  const JSON_KEYS: seq<Key> := [
    Key("vendor", Vendor), Key("product", Product), Key("event_type", EventType), Key("event_subtype", EventSubtype),
    Key("severity", Severity), Key("action", Action), Key("src_ip", SrcIP), Key("ip", SrcIP), Key("src_port", SrcPort),
    Key("dst_ip", DstIP), Key("dst_port", DstPort), Key("protocol", Protocol), Key("user", User), Key("host", Host),
    Key("process", Process), Key("url", URL), Key("http_method", HTTPMethod), Key("status_code", StatusCode),
    Key("rule_name", RuleName), Key("rule_id", RuleID)]

  const CLOUD_KEYS: seq<Key> := [Key("account_id", CloudAccountID), Key("region", CloudRegion), Key("service", CloudService)]

  const ACTION_SYNONYMS: map<string, string> := map[
    "drop" := "deny", "dropped" := "deny", "block" := "deny", "blocked" := "deny", "reject" := "deny", "rejected" := "deny",
    "denied" := "deny", "accept" := "allow", "accepted" := "allow", "permit" := "allow", "permitted" := "allow",
    "pass" := "allow", "allowed" := "allow", "logon" := "login", "logoff" := "logout"]

  const KV_ALIASES: map<string, string> := map[
    "src" := "src_ip", "dst" := "dst_ip", "spt" := "src_port", "sport" := "src_port", "dpt" := "dst_port", "dport" := "dst_port",
    "proto" := "protocol", "policy" := "rule_name", "event" := "event_type", "reason" := "event_subtype"]

  function Synonym(a: string): Option<string> {
    if a in ACTION_SYNONYMS then Some(ACTION_SYNONYMS[a]) else None
  }

  function Alias(k: string): Option<string> {
    if k in KV_ALIASES then Some(KV_ALIASES[k]) else None
  }

  function NameAmong(keys: seq<Key>, k: string): Option<Name> {
    if keys == [] then None else if keys[0].text == k then Some(keys[0].name) else NameAmong(keys[1..], k)
  }

  /** The setters go by the keys of the JSON path, less the alias ip. */
  function Setter(k: string): Option<Name> {
    if k == "ip" then None else NameAmong(JSON_KEYS, k)
  }

  ghost predicate UsesTables(t: Tables) {
    t.jsonKeys == JSON_KEYS && t.alias == Alias && t.setter == Setter
  }

  predicate LowerLetters(word: string) {
    forall i :: 0 <= i < |word| ==> 'a' <= word[i] <= 'z'
  }

  lemma {:induction false} LettersFit(lower: char -> char, word: string)
    requires LowerLetters(word) && Lowers(lower)
    ensures ByteLength(word) == |word| && Lowered(lower, word) == word && Clean(word)
  {
    if word != [] {
      LettersFit(lower, word[1..]);
      assert word == [word[0]] + word[1..];
    }
  }

  lemma SynonymIs(a: string)
    requires Synonym(a).Some?
    ensures Synonym(a).value in ["deny", "allow", "login", "logout"] && LowerLetters(a) && |a| < 10
  {}

  lemma NoSynonym(word: string)
    requires word in ["deny", "allow", "login", "logout"]
    ensures Synonym(word).None? && LowerLetters(word) && 0 < |word| < 10
  {}

  /** No synonym leads to another, and each leads to a word the database takes, in lower case. */
  lemma SynonymsFoldOnce(rules: Rules)
    requires rules.synonym == Synonym && Lowers(rules.t.readings.lower)
    ensures FoldsOnce(rules)
  {
    var lower := rules.t.readings.lower;
    forall a: string | Synonym(a).Some?
      ensures var word := Synonym(a).value;
              Storable(word) && Lowered(lower, word) == word && Synonym(word).None? && ByteLength(a) <= MAX_TEXT
    {
      SynonymIs(a);
      LettersFit(lower, a);
      NoSynonym(Synonym(a).value);
      LettersFit(lower, Synonym(a).value);
    }
  }

  /** An explicit source address wins over its alias. */
  lemma ExplicitAddressWins(t: Tables, r: Record)
    requires UsesTables(t) && Readable(t, r, Key("src_ip", SrcIP))
    ensures FirstUsable(KeySteps(t, r, t.jsonKeys, ""), SrcIP) == Some(Reading(t, r, Key("src_ip", SrcIP)))
  {
    FirstKeyWins(t, r, t.jsonKeys, "", 6);
  }

  /** The cloud object's keys are of different fields, so the order they are visited in does not show. */
  lemma CloudOrderDoesNotMatter(t: Tables, r: Record, keys: seq<Key>, prefix: string, name: Name)
    requires forall k :: k in keys <==> k in CLOUD_KEYS
    ensures FirstUsable(KeySteps(t, r, keys, prefix), name) == FirstUsable(KeySteps(t, r, CLOUD_KEYS, prefix), name)
  {
    assert OneEach(CLOUD_KEYS);
    OrderDoesNotMatter(t, r, CLOUD_KEYS, keys, prefix, name);
  }

  // ---------- An action too long once lowered ----------

  /** A letter of two bytes, whose lower case takes three. */
  const WIDE: char := '\U{23A}'
  const WIDE_LOWER: char := '\U{2C65}'

  function Repeat(c: char, n: nat): (s: string)
    ensures |s| == n && forall i :: 0 <= i < n ==> s[i] == c
  {
    if n == 0 then [] else [c] + Repeat(c, n - 1)
  }

  lemma {:induction false} RepeatLength(c: char, n: nat)
    ensures ByteLength(Repeat(c, n)) == n * CharLength(c)
  {
    if n > 0 {
      RepeatLength(c, n - 1);
      assert Repeat(c, n)[1..] == Repeat(c, n - 1);
    }
  }

  lemma LongIsStorable()
    ensures ByteLength(Repeat(WIDE, 1024)) == MAX_TEXT && Storable(Repeat(WIDE, 1024))
    ensures ByteLength(Repeat(WIDE_LOWER, 1024)) == 3072
  {
    RepeatLength(WIDE, 1024);
    RepeatLength(WIDE_LOWER, 1024);
  }

  function ActionRecord(a: string): Record {
    map["action" := Str(a)]
  }

  lemma ActionReads(t: Tables, a: string)
    requires UsesTables(t) && Storable(a)
    ensures Readable(t, ActionRecord(a), Key("action", Action)) && Reading(t, ActionRecord(a), Key("action", Action)) == Text(a)
  {
    CleanTextFixes(a);
    assert ValueOf(ActionRecord(a), "action") == Some(Str(a));
  }

  lemma ActionGiven(rules: Rules, k: Origin, cloudKeys: seq<Key>, a: string)
    requires UsesTables(rules.t) && k.line.None? && Storable(a)
    ensures FirstUsable(RecordSteps(rules, ActionRecord(a), k, cloudKeys), Action) == Some(Text(a))
  {
    var t, r := rules.t, ActionRecord(a);
    ActionReads(t, a);
    FirstKeyWins(t, r, t.jsonKeys, "", 5);
    FirstOfKeys(t, r, cloudKeys, Action);
  }

  lemma FirstOfKeys(t: Tables, r: Record, cloudKeys: seq<Key>, name: Name)
    ensures var own := FirstUsable(KeySteps(t, r, t.jsonKeys, ""), name);
            own.Some? ==> FirstUsable(JsonSteps(t, r, cloudKeys), name) == own
  {
    var keys, cloud, tags := KeySteps(t, r, t.jsonKeys, ""), CloudSteps(t, r, cloudKeys), TagSteps(r);
    EarlierWins(keys, cloud, name);
    EarlierWins(keys + cloud, tags, name);
    EarlierWins(keys + cloud + tags, RawSteps(r), name);
  }

  /** A record whose action is 1024 such letters, which is as long as text may be. */
  function LongAction(): Record {
    ActionRecord(Repeat(WIDE, 1024))
  }

  /** An action that may be stored but folds to one that may not. */
  lemma FoldedTooLong(rules: Rules, k: Origin, cloudKeys: seq<Key>, a: string, b: string, now: int, retention: int, n: Normal)
    requires UsesTables(rules.t) && k.line.None? && k.source.Some? && Storable(a)
    requires ComesTo(rules, ActionRecord(a), k, cloudKeys, now, retention, n)
    requires Fold(rules, a) == b && MAX_TEXT < ByteLength(b)
    ensures Action in n.fields && n.fields[Action] == Text(b) && !Fits(rules.t.readings.lower, Action, Text(b))
  {
    ActionGiven(rules, k, cloudKeys, a);
    SenderWins(rules, ActionRecord(a), k, cloudKeys, now, retention, n, Action);
  }

  /** It is stored half as long again, over what a field takes: lowering comes after its length was checked. */
  lemma LongActionGrows(rules: Rules, k: Origin, cloudKeys: seq<Key>, now: int, retention: int, n: Normal)
    requires UsesTables(rules.t) && rules.synonym == Synonym && rules.t.readings.lower(WIDE) == WIDE_LOWER
    requires k.source.Some? && k.line.None? && ComesTo(rules, LongAction(), k, cloudKeys, now, retention, n)
    ensures Action in n.fields && n.fields[Action] == Text(Repeat(WIDE_LOWER, 1024)) && ByteLength(n.fields[Action].text) == 3072
    ensures !Fits(rules.t.readings.lower, Action, n.fields[Action])
  {
    LongIsStorable();
    LongFolds(rules);
    FoldedTooLong(rules, k, cloudKeys, Repeat(WIDE, 1024), Repeat(WIDE_LOWER, 1024), now, retention, n);
  }

  lemma LongFolds(rules: Rules)
    requires rules.synonym == Synonym && rules.t.readings.lower(WIDE) == WIDE_LOWER
    ensures Fold(rules, Repeat(WIDE, 1024)) == Repeat(WIDE_LOWER, 1024)
  {
    var lowered := Lowered(rules.t.readings.lower, Repeat(WIDE, 1024));
    assert lowered == Repeat(WIDE_LOWER, 1024);
    if Synonym(lowered).Some? {
      SynonymIs(lowered);
    }
  }
}
