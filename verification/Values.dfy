/**
 * backend/internal/ingest/normalize.go: the values an event's fields take, and
 * what is left of all the values offered for them.
 */
module Values {
  import opened Wrappers
  import opened Texts
  import opened Events

  /** The longest text a field or tag takes, in bytes of UTF-8. */
  const MAX_TEXT: nat := 2048

  const REPLACEMENT: char := '\U{FFFD}'

  datatype Name =
    | Vendor | Product | EventType | EventSubtype | Severity | Action | SrcIP | SrcPort | DstIP | DstPort
    | Protocol | User | Host | Process | URL | HTTPMethod | StatusCode | RuleName | RuleID
    | CloudAccountID | CloudRegion | CloudService

  datatype Value = Text(text: string) | Address(addr: Addr) | Whole(n: int)

  // ---------- Text as it is stored ----------

  function CleanNul(v: string): (r: string)
    ensures |r| == |v| && forall i :: 0 <= i < |v| ==> r[i] == if v[i] == '\0' then REPLACEMENT else v[i]
  {
    if v == [] then [] else [if v[0] == '\0' then REPLACEMENT else v[0]] + CleanNul(v[1..])
  }

  function CleanText(v: string): string {
    CleanNul(TrimSpace(v))
  }

  function CharLength(c: char): nat {
    if c < '\U{80}' then 1 else if c < '\U{800}' then 2 else if c < '\U{10000}' then 3 else 4
  }

  function ByteLength(s: string): nat {
    if s == [] then 0 else CharLength(s[0]) + ByteLength(s[1..])
  }

  function PowerOfTwo(n: nat): int {
    if n == 0 then 1 else 2 * PowerOfTwo(n - 1)
  }

  /**
   * How many code points n bytes of UTF-8 have room for: 7 bits in one byte, and
   * in more, 6 in each but the first, which has 7 less their number (section 3
   * of RFC 3629).
   */
  function Room(n: nat): int
    requires 1 <= n <= 4
  {
    PowerOfTwo(if n == 1 then 7 else 7 - n + 6 * (n - 1))
  }

  lemma Rooms()
    ensures Room(1) == 0x80 && Room(2) == 0x800 && Room(3) == 0x1_0000 && Room(4) == 0x20_0000
  {
    assert PowerOfTwo(7) == 0x80;
    assert PowerOfTwo(11) == 0x800;
    assert PowerOfTwo(16) == 0x1_0000;
    assert PowerOfTwo(21) == 0x20_0000;
  }

  /** A character takes as few bytes as have room for it. */
  lemma FewestBytes(c: char)
    ensures 1 <= CharLength(c) <= 4 && c as int < Room(CharLength(c))
    ensures forall n :: 1 <= n < CharLength(c) ==> Room(n) <= c as int
  {
    Rooms();
  }

  lemma CleanTextIsClean(v: string)
    ensures Clean(CleanText(v))
  {
    var t := TrimSpace(v);
    assert t != [] ==> !GoSpace(t[0]) && !GoSpace(t[|t| - 1]);
  }

  /** Cleaning changes exactly what is not clean already. */
  lemma CleanTextFixes(v: string)
    ensures CleanText(v) == v <==> Clean(v)
  {
    CleanTextIsClean(v);
    if Clean(v) {
      TrimTrimmed(v, GoSpace);
      assert CleanNul(v) == v;
    }
  }

  // ---------- Coercion ----------

  /** How addresses and integers read, and a character's lower case. An address loses its zone and its IPv6 mapping. */
  datatype Readings = Readings(addr: string -> Option<Addr>, number: string -> Option<int>, lower: char -> char)

  datatype Kind = AnyText | LowerText | AnyAddress | Between(low: int, high: int)

  function KindOf(name: Name): Kind {
    match name
    case Protocol => LowerText
    case SrcIP => AnyAddress
    case DstIP => AnyAddress
    case Severity => Between(0, 10)
    case SrcPort => Between(0, 65535)
    case DstPort => Between(0, 65535)
    case StatusCode => Between(0, 999)
    case _ => AnyText
  }

  /** What a value comes to for a field: no text to read, nothing at all, nothing usable, or a value. */
  datatype Coerced = NoText | Blank | Unusable | Usable(value: Value)

  function CoerceText(v: string): Coerced {
    if CleanText(v) == "" then Blank
    else if ByteLength(CleanText(v)) > MAX_TEXT then Unusable
    else Usable(Text(CleanText(v)))
  }

  function CoerceAddress(readings: Readings, v: string): Coerced {
    if TrimSpace(v) == "" then Blank
    else match readings.addr(TrimSpace(v))
      case None => Unusable
      case Some(a) => Usable(Address(a))
  }

  function CoerceInt(readings: Readings, v: string, low: int, high: int): Coerced {
    if TrimSpace(v) == "" then Blank
    else match readings.number(TrimSpace(v))
      case None => Unusable
      case Some(n) => if n < low || n > high then Unusable else Usable(Whole(n))
  }

  function Coerce(readings: Readings, name: Name, v: string): Coerced {
    match KindOf(name)
    case AnyText => CoerceText(v)
    case LowerText => CoerceText(Lowered(readings.lower, v))
    case AnyAddress => CoerceAddress(readings, v)
    case Between(low, high) => CoerceInt(readings, v, low, high)
  }

  function CoerceAny(readings: Readings, name: Name, v: Option<string>): Coerced {
    if v.None? then NoText else Coerce(readings, name, v.value)
  }

  /** A value the database takes for the field. */
  ghost predicate Fits(lower: char -> char, name: Name, v: Value) {
    match KindOf(name)
    case AnyText => v.Text? && Storable(v.text)
    case LowerText => v.Text? && Storable(v.text) && Lowered(lower, v.text) == v.text
    case AnyAddress => v.Address?
    case Between(low, high) => v.Whole? && low <= v.n <= high
  }

  ghost predicate Storable(text: string) {
    text != "" && Clean(text) && ByteLength(text) <= MAX_TEXT
  }

  lemma LowerClean(lower: char -> char, v: string)
    requires Lowers(lower)
    ensures Lowered(lower, CleanText(Lowered(lower, v))) == CleanText(Lowered(lower, v))
  {
    TrimWithin(Lowered(lower, v), GoSpace);
    var t, c := TrimSpace(Lowered(lower, v)), CleanText(Lowered(lower, v));
    forall i | 0 <= i < |c|
      ensures lower(c[i]) == c[i]
    {
      assert t[i] in t;
      var j :| 0 <= j < |v| && Lowered(lower, v)[j] == t[i];
      assert lower(lower(v[j])) == lower(v[j]);
    }
  }

  /** Lowering keeps text clean, but may take more bytes. */
  lemma LoweredIsClean(lower: char -> char, v: string)
    requires Lowers(lower) && Clean(v) && v != ""
    ensures Clean(Lowered(lower, v)) && Lowered(lower, v) != ""
  {
    var t := Lowered(lower, v);
    assert GoSpace(t[0]) == GoSpace(v[0]) && GoSpace(t[|v| - 1]) == GoSpace(v[|v| - 1]);
    assert forall i :: 0 <= i < |v| ==> v[i] in v;
  }

  /** Whatever is usable fits its field. */
  lemma UsableFits(readings: Readings, name: Name, v: string)
    requires Lowers(readings.lower)
    ensures Coerce(readings, name, v).Usable? ==> Fits(readings.lower, name, Coerce(readings, name, v).value)
  {
    CleanTextIsClean(v);
    CleanTextIsClean(Lowered(readings.lower, v));
    LowerClean(readings.lower, v);
  }

  // ---------- Everything offered ----------

  /**
   * One step of filling in an event: a value offered for a field, with the tag
   * that complains of it if it cannot be used, or a tag.
   */
  datatype Step = Offer(name: Name, got: Coerced, complaint: Option<string>) | Mark(tag: string)

  /** The first usable value offered for a field. */
  function FirstUsable(steps: seq<Step>, name: Name): Option<Value> {
    if steps == [] then None
    else if Gives(steps[0], name) then Some(steps[0].got.value)
    else FirstUsable(steps[1..], name)
  }

  predicate Gives(s: Step, name: Name) {
    s.Offer? && s.name == name && s.got.Usable?
  }

  /** A step complains if what it offers has no text, or cannot be used while the field is still empty. */
  predicate Complains(before: seq<Step>, s: Step) {
    s.Offer? && s.complaint.Some? && (s.got.NoText? || (s.got.Unusable? && FirstUsable(before, s.name).None?))
  }

  /** The derived tags, in order. */
  function Derived(steps: seq<Step>): seq<string> {
    if steps == [] then []
    else
      var before, s := steps[..|steps| - 1], steps[|steps| - 1];
      Derived(before) + if s.Mark? then [s.tag] else if Complains(before, s) then [s.complaint.value] else []
  }

  /** Later steps give way to earlier ones. */
  lemma {:induction false} EarlierWins(steps: seq<Step>, more: seq<Step>, name: Name)
    ensures FirstUsable(steps + more, name) ==
            if FirstUsable(steps, name).Some? then FirstUsable(steps, name) else FirstUsable(more, name)
  {
    if steps == [] {
      assert steps + more == more;
    } else {
      EarlierWins(steps[1..], more, name);
      assert (steps + more)[1..] == steps[1..] + more;
    }
  }

  /** A field's value is what the first step to offer a usable one offered. */
  lemma {:induction false} FirstUsableIs(steps: seq<Step>, name: Name)
    ensures FirstUsable(steps, name).None? <==> forall i :: 0 <= i < |steps| ==> !Gives(steps[i], name)
    ensures forall i :: 0 <= i < |steps| && Gives(steps[i], name) && (forall k :: 0 <= k < i ==> !Gives(steps[k], name)) ==>
                          FirstUsable(steps, name) == Some(steps[i].got.value)
  {
    if steps != [] && !Gives(steps[0], name) {
      FirstUsableIs(steps[1..], name);
      assert steps == [steps[0]] + steps[1..];
      forall i | 0 <= i < |steps| && Gives(steps[i], name) && (forall k :: 0 <= k < i ==> !Gives(steps[k], name))
        ensures FirstUsable(steps, name) == Some(steps[i].got.value)
      {
        assert Gives(steps[1..][i - 1], name);
        assert forall k :: 0 <= k < i - 1 ==> steps[1..][k] == steps[k + 1];
      }
      if FirstUsable(steps, name).None? {
        forall i | 0 <= i < |steps|
          ensures !Gives(steps[i], name)
        {
          if i > 0 { assert !Gives(steps[1..][i - 1], name); }
        }
      } else {
        var i :| 0 <= i < |steps| - 1 && Gives(steps[1..][i], name);
        assert Gives(steps[i + 1], name);
      }
    }
  }

  lemma DerivedAppends(steps: seq<Step>, s: Step)
    ensures Derived(steps + [s]) ==
            if s.Mark? then Derived(steps) + [s.tag] else if Complains(steps, s) then Derived(steps) + [s.complaint.value] else Derived(steps)
  {
    assert (steps + [s])[..|steps|] == steps;
  }

  // ---------- Tags ----------

  /** The tags that can be stored, clean. */
  function StorableTags(tags: seq<string>): seq<string> {
    if tags == [] then []
    else
      var t := CleanText(tags[|tags| - 1]);
      StorableTags(tags[..|tags| - 1]) + if t != "" && ByteLength(t) <= MAX_TEXT then [t] else []
  }

  function Assembled(tags: seq<string>): seq<string> {
    Distinct(StorableTags(tags))
  }

  /** t is what some tag comes to once cleaned. */
  ghost predicate FormOf(t: string, tags: seq<string>) {
    exists i :: 0 <= i < |tags| && CleanText(tags[i]) == t
  }

  lemma {:induction false} StorableTagsAre(tags: seq<string>)
    ensures forall t :: t in StorableTags(tags) <==> Storable(t) && FormOf(t, tags)
  {
    if tags != [] {
      var n := |tags| - 1;
      StorableTagsAre(tags[..n]);
      CleanTextIsClean(tags[n]);
      assert tags == tags[..n] + [tags[n]];
      forall t: string
        ensures FormOf(t, tags) <==> FormOf(t, tags[..n]) || CleanText(tags[n]) == t
      {
        LastForm(t, tags);
      }
    }
  }

  lemma LastForm(t: string, tags: seq<string>)
    requires tags != []
    ensures FormOf(t, tags) <==> FormOf(t, tags[..|tags| - 1]) || CleanText(tags[|tags| - 1]) == t
  {
    var before := tags[..|tags| - 1];
    if i :| 0 <= i < |before| && CleanText(before[i]) == t {
      assert tags[i] == before[i];
    }
    if i :| 0 <= i < |before| && CleanText(tags[i]) == t {
      assert before[i] == tags[i];
    }
  }

  /** The tags are the clean forms of those given that can be stored, each once. */
  lemma AssembledAre(tags: seq<string>)
    ensures forall t :: t in Assembled(tags) <==> Storable(t) && FormOf(t, tags)
    ensures forall i, j :: 0 <= i < j < |Assembled(tags)| ==> Assembled(tags)[i] != Assembled(tags)[j]
  {
    StorableTagsAre(tags);
    DistinctIs(StorableTags(tags));
  }

  /** In order: what the first of them come to is not moved by the rest. */
  lemma {:induction false} AssembledInOrder(first: seq<string>, more: seq<string>)
    ensures Assembled(first) <= Assembled(first + more)
    decreases |more|
  {
    if more == [] {
      assert first + more == first;
    } else {
      var n := |more| - 1;
      AssembledInOrder(first, more[..n]);
      assert (first + more)[..|first + more| - 1] == first + more[..n];
      AssembledAppends(first + more[..n], more[n]);
      assert first + more == first + more[..n] + [more[n]];
    }
  }

  lemma AssembledAppends(tags: seq<string>, tag: string)
    ensures var t := CleanText(tag);
            Assembled(tags + [tag]) ==
              if t != "" && ByteLength(t) <= MAX_TEXT && t !in Assembled(tags) then Assembled(tags) + [t] else Assembled(tags)
  {
    assert (tags + [tag])[..|tags|] == tags;
    DistinctIs(StorableTags(tags));
    var t := CleanText(tag);
    if t != "" && ByteLength(t) <= MAX_TEXT {
      assert StorableTags(tags + [tag]) == StorableTags(tags) + [t];
      assert (StorableTags(tags) + [t])[..|StorableTags(tags)|] == StorableTags(tags);
    } else {
      assert StorableTags(tags + [tag]) == StorableTags(tags);
    }
  }
}
