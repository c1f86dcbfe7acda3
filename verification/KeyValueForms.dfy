/**
 * How key=value text is written, and that it reads as it is written: values
 * bare or quoted, bare ones of several words, a last one with its quote left
 * open, and words that belong to no pair.
 */
module KeyValueForms {
  import opened KeyValue
  import opened KeyValueLaws

  /** A part of a quoted value: a character as it is, or a quote or backslash with a backslash before it. */
  datatype Part = Plain(c: char) | Marked(c: char)

  /** A pair as it is written. What follows a quoted value and starts no pair is stray. */
  datatype Item =
    | Bare(key: string, first: string, more: seq<string>)
    | Quote(key: string, parts: seq<Part>, stray: seq<string>)

  predicate IsKeyLetter(c: char) {
    'a' <= c <= 'z' || 'A' <= c <= 'Z' || c == '_'
  }

  /** Letters, digits, underscores, dots and dashes, the first a letter or an underscore. */
  predicate IsKey(k: string) {
    && k != "" && IsKeyLetter(k[0])
    && forall i :: 0 <= i < |k| ==> IsKeyLetter(k[i]) || '0' <= k[i] <= '9' || k[i] == '.' || k[i] == '-'
  }

  /** Text without blanks that starts no pair. */
  ghost predicate IsWord(w: string) {
    w != "" && NoBlanks(w) && forall k :: 0 <= k < |w| && w[k] == '=' ==> !IsKey(w[..k])
  }

  predicate NoBlanks(w: string) {
    forall i :: 0 <= i < |w| ==> w[i] != ' ' && w[i] != '\t'
  }

  /** A backslash stands for itself unless a quote or another backslash follows it. */
  predicate AreParts(parts: seq<Part>, closed: bool) {
    parts != [] ==>
      && (match parts[0]
          case Marked(c) => c == '"' || c == '\\'
          case Plain(c) => c != '"' && (c == '\\' ==> if parts[1..] == [] then !closed else parts[1].Plain? && parts[1].c != '\\'))
      && AreParts(parts[1..], closed)
  }

  function PartsText(parts: seq<Part>): string {
    if parts == [] then "" else (if parts[0].Marked? then ['\\', parts[0].c] else [parts[0].c]) + PartsText(parts[1..])
  }

  function PartsValue(parts: seq<Part>): string {
    seq(|parts|, i requires 0 <= i < |parts| => parts[i].c)
  }

  ghost predicate AreWords(ws: seq<string>) {
    forall i :: 0 <= i < |ws| ==> IsWord(ws[i])
  }

  /** What follows the equals sign of a bare value is no quote, and may be nothing, or hold another equals sign. */
  ghost predicate IsItem(item: Item) {
    && IsKey(item.key)
    && match item
       case Bare(_, first, more) =>
         NoBlanks(first) && (first != "" ==> first[0] != '"') && AreWords(more)
       case Quote(_, parts, stray) => AreParts(parts, true) && AreWords(stray)
  }

  ghost predicate AreItems(items: seq<Item>) {
    forall i :: 0 <= i < |items| ==> IsItem(items[i])
  }

  /** What keeps words and pairs apart: one blank or more. */
  predicate IsGap(gap: string) {
    gap != "" && forall i :: 0 <= i < |gap| ==> gap[i] == ' ' || gap[i] == '\t'
  }

  /** Each word with the gap before it. */
  function Spaced(gap: string, ws: seq<string>): string {
    if ws == [] then "" else gap + (ws[0] + Spaced(gap, ws[1..]))
  }

  function ItemText(gap: string, item: Item): string {
    match item
    case Bare(key, first, more) => key + "=" + (first + Spaced(gap, more))
    case Quote(key, parts, stray) => key + "=" + ['"'] + PartsText(parts) + ['"'] + Spaced(gap, stray)
  }

  function ItemsText(gap: string, items: seq<Item>): string {
    if items == [] then "" else gap + (ItemText(gap, items[0]) + ItemsText(gap, items[1..]))
  }

  /** The words of a bare value, joined by single spaces. */
  function ValueOf(first: string, more: seq<string>): string {
    if first == "" && more != [] then more[0] + Spaced(" ", more[1..]) else first + Spaced(" ", more)
  }

  /** The pair an item stands for. */
  function PairFor(item: Item): Pair {
    match item
    case Bare(key, first, more) => Pair(key, ValueOf(first, more), false)
    case Quote(key, parts, _) => Pair(key, PartsValue(parts), true)
  }

  function PairsFor(items: seq<Item>): seq<Pair> {
    if items == [] then [] else [PairFor(items[0])] + PairsFor(items[1..])
  }

  predicate Ends(rest: string) {
    rest != "" ==> rest[0] == ' ' || rest[0] == '\t'
  }

  // ---------- Keys ----------

  lemma KeysAreLegal(k: string)
    ensures IsKey(k) <==> LegalKey(k)
  {}

  lemma WordHasNoKey(w: string, k: nat)
    requires IsWord(w)
    ensures !HasKey(w, k)
  {
    if k < |w| {
      KeysAreLegal(w[..k]);
    }
  }

  // ---------- Words ----------

  lemma {:induction false} WordLength(w: string, rest: string)
    requires NoBlanks(w) && Ends(rest)
    ensures TokenLength(w + rest) == |w|
    decreases |w|
  {
    if w == [] {
      assert w + rest == rest;
    } else {
      assert (w + rest)[1..] == w[1..] + rest;
      WordLength(w[1..], rest);
    }
  }

  lemma WordGoesOn(w: string, rest: string)
    requires IsWord(w) && Ends(rest)
    ensures var s := w + rest; !IsBlank(s[0]) && TurnOf(s) == GoesOn(w, |w|) && s[|w|..] == rest
  {
    var s := w + rest;
    KeyIs(w);
    forall k: nat ensures !HasKey(w, k) {
      WordHasNoKey(w, k);
    }
    KeyExtends(w, rest);
    WordLength(w, rest);
    assert s[..|w|] == w && s[0] == w[0];
  }

  lemma Regrouped(a: string, b: string, c: string)
    ensures a + b + c == a + (b + c)
  {}

  lemma {:induction false} AfterGap(gap: string, s: string, pairs: seq<Pair>)
    requires forall i :: 0 <= i < |gap| ==> gap[i] == ' ' || gap[i] == '\t'
    ensures Parse(gap + s, pairs) == Parse(s, pairs)
  {
    if gap == "" {
      assert gap + s == s;
    } else {
      assert (gap + s)[1..] == gap[1..] + s;
      AfterGap(gap[1..], s, pairs);
    }
  }

  lemma WordRead(gap: string, w: string, rest: string, pairs: seq<Pair>)
    requires IsGap(gap) && IsWord(w) && Ends(rest)
    ensures Parse(gap + (w + rest), pairs) == Parse(rest, Continued(pairs, w))
  {
    AfterGap(gap, w + rest, pairs);
    WordGoesOn(w, rest);
  }

  lemma SpacedOn(gap: string, ws: seq<string>, rest: string)
    requires IsGap(gap) && Ends(rest)
    ensures Ends(Spaced(gap, ws) + rest)
    ensures ws == [] ==> Spaced(gap, ws) + rest == rest
    ensures ws != [] ==> Spaced(gap, ws) + rest == gap + (ws[0] + (Spaced(gap, ws[1..]) + rest))
  {
    if ws != [] {
      Regrouped(gap, ws[0] + Spaced(gap, ws[1..]), rest);
      Regrouped(ws[0], Spaced(gap, ws[1..]), rest);
    }
  }

  /** Words after a quoted value, or before any pair, change nothing. */
  lemma {:induction false} StrayIsLost(gap: string, ws: seq<string>, rest: string, pairs: seq<Pair>)
    requires IsGap(gap) && AreWords(ws) && Ends(rest) && (pairs == [] || pairs[|pairs| - 1].quoted)
    ensures Parse(Spaced(gap, ws) + rest, pairs) == Parse(rest, pairs)
    decreases |ws|
  {
    SpacedOn(gap, ws, rest);
    if ws != [] {
      SpacedOn(gap, ws[1..], rest);
      WordRead(gap, ws[0], Spaced(gap, ws[1..]) + rest, pairs);
      StrayIsLost(gap, ws[1..], rest, pairs);
    }
  }

  /** Words after a bare value are the rest of it. */
  lemma {:induction false} WordsContinue(gap: string, ws: seq<string>, rest: string, pairs: seq<Pair>, key: string, value: string)
    requires IsGap(gap) && AreWords(ws) && Ends(rest) && (value == "" ==> ws == [])
    ensures Parse(Spaced(gap, ws) + rest, pairs + [Pair(key, value, false)]) ==
            Parse(rest, pairs + [Pair(key, value + Spaced(" ", ws), false)])
    decreases |ws|
  {
    SpacedOn(gap, ws, rest);
    if ws == [] {
      assert value + Spaced(" ", ws) == value;
    } else {
      SpacedOn(gap, ws[1..], rest);
      WordRead(gap, ws[0], Spaced(gap, ws[1..]) + rest, pairs + [Pair(key, value, false)]);
      LastContinues(pairs, key, value, ws[0]);
      WordsContinue(gap, ws[1..], rest, pairs, key, value + " " + ws[0]);
      ValueGoesOn(value, ws);
    }
  }

  lemma ValueGoesOn(value: string, ws: seq<string>)
    requires ws != []
    ensures value + " " + ws[0] + Spaced(" ", ws[1..]) == value + Spaced(" ", ws)
  {
    Regrouped(value, " ", ws[0]);
    Regrouped(value, " " + ws[0], Spaced(" ", ws[1..]));
    Regrouped(" ", ws[0], Spaced(" ", ws[1..]));
  }

  lemma LastContinues(pairs: seq<Pair>, key: string, value: string, w: string)
    requires value != ""
    ensures Continued(pairs + [Pair(key, value, false)], w) == pairs + [Pair(key, value + " " + w, false)]
  {
    assert (pairs + [Pair(key, value, false)])[..|pairs|] == pairs;
  }

  // ---------- Items ----------

  lemma KeyStarts(key: string, rest: string)
    requires IsKey(key)
    ensures var s := key + "=" + rest;
            && !IsBlank(s[0]) && KeyLength(s) == |key| + 1 && s[..|key|] == key && s[|key| + 1..] == rest
  {
    var s := key + "=" + rest;
    KeysAreLegal(key);
    assert s[..|key|] == key && s[0] == key[0] && s[|key|] == '=' && s[|key| + 1..] == rest;
    KeyIs(s);
    assert HasKey(s, |key|);
  }

  lemma BareStarts(key: string, first: string, rest: string)
    requires IsKey(key) && NoBlanks(first) && (first != "" ==> first[0] != '"') && Ends(rest)
    ensures var s := key + "=" + (first + rest);
            !IsBlank(s[0]) && TurnOf(s) == Starts(Pair(key, first, false), |key| + 1 + |first|) && s[|key| + 1 + |first|..] == rest
  {
    var s, n := key + "=" + (first + rest), |key| + 1;
    KeyStarts(key, first + rest);
    WordLength(first, rest);
    PlainPair(s, n);
    assert s[n..n + |first|] == first && s[n + |first|..] == rest;
  }

  lemma ItemRead(gap: string, item: Item, rest: string, pairs: seq<Pair>)
    requires IsGap(gap) && IsItem(item) && Ends(rest)
    ensures Parse(ItemText(gap, item) + rest, pairs) == Parse(rest, pairs + [PairFor(item)])
  {
    match item
    case Bare(key, first, more) => BareRead(gap, key, first, more, rest, pairs);
    case Quote(key, parts, stray) => QuoteRead(gap, key, parts, stray, rest, pairs);
  }

  lemma BareRead(gap: string, key: string, first: string, more: seq<string>, rest: string, pairs: seq<Pair>)
    requires IsGap(gap) && IsItem(Bare(key, first, more)) && Ends(rest)
    ensures Parse(key + "=" + (first + Spaced(gap, more)) + rest, pairs) == Parse(rest, pairs + [Pair(key, ValueOf(first, more), false)])
  {
    var after := Spaced(gap, more) + rest;
    SpacedOn(gap, more, rest);
    BareStarts(key, first, after);
    Regrouped(key + "=", first + Spaced(gap, more), rest);
    Regrouped(first, Spaced(gap, more), rest);
    FirstTurn(key + "=" + (first + after), Pair(key, first, false), after, pairs);
    if first == "" && more != [] {
      ValueStartsLate(gap, key, more, rest, pairs);
    } else {
      WordsContinue(gap, more, rest, pairs, key, first);
    }
  }

  lemma ValueStartsLate(gap: string, key: string, more: seq<string>, rest: string, pairs: seq<Pair>)
    requires IsGap(gap) && AreWords(more) && more != [] && Ends(rest)
    ensures Parse(Spaced(gap, more) + rest, pairs + [Pair(key, "", false)]) ==
            Parse(rest, pairs + [Pair(key, more[0] + Spaced(" ", more[1..]), false)])
  {
    SpacedOn(gap, more, rest);
    SpacedOn(gap, more[1..], rest);
    WordRead(gap, more[0], Spaced(gap, more[1..]) + rest, pairs + [Pair(key, "", false)]);
    assert (pairs + [Pair(key, "", false)])[..|pairs|] == pairs;
    WordsContinue(gap, more[1..], rest, pairs, key, more[0]);
  }

  lemma FirstTurn(s: string, p: Pair, rest: string, pairs: seq<Pair>)
    requires s != [] && !IsBlank(s[0]) && TurnOf(s).Starts? && TurnOf(s).pair == p && s[TurnOf(s).length..] == rest
    ensures Parse(s, pairs) == Parse(rest, pairs + [p])
  {}

  /** What is between quotes comes back with its marks undone; a quote left open takes all there is. */
  lemma {:induction false} PartsRead(parts: seq<Part>, closed: bool, rest: string)
    requires AreParts(parts, closed) && (closed ==> rest != "" && rest[0] == '"') && (!closed ==> rest == "")
    ensures Unquoted(PartsText(parts) + rest) == (PartsValue(parts), |PartsText(parts)| + if closed then 1 else 0, closed)
    decreases |parts|
  {
    var s := PartsText(parts) + rest;
    if parts == [] {
      assert s == rest;
    } else {
      var p, t := parts[0], PartsText(parts[1..]) + rest;
      PartsRead(parts[1..], closed, rest);
      assert PartsValue(parts) == [p.c] + PartsValue(parts[1..]);
      if p.Marked? {
        Regrouped(['\\', p.c], PartsText(parts[1..]), rest);
        assert s == ['\\', p.c] + t && s[2..] == t;
      } else {
        Regrouped([p.c], PartsText(parts[1..]), rest);
        assert s == [p.c] + t && s[1..] == t;
        PlainIsNoMark(parts, closed, rest, t);
      }
    }
  }

  lemma PlainIsNoMark(parts: seq<Part>, closed: bool, rest: string, t: string)
    requires AreParts(parts, closed) && (closed ==> rest != "" && rest[0] == '"') && (!closed ==> rest == "")
    requires parts != [] && parts[0].Plain? && t == PartsText(parts[1..]) + rest
    ensures !Escape([parts[0].c] + t)
  {
    if parts[0].c == '\\' && parts[1..] != [] {
      assert parts[1..][0] == parts[1] && AreParts(parts[1..], closed);
      assert PartsText(parts[1..])[0] == parts[1].c;
    }
  }

  lemma QuoteTurn(key: string, inner: string)
    requires IsKey(key)
    ensures var s := key + "=" + (['"'] + inner);
            && !IsBlank(s[0]) && TurnOf(s) == Starts(Pair(key, Unquoted(inner).0, true), |key| + 2 + Unquoted(inner).1)
  {
    var s, n := key + "=" + (['"'] + inner), |key| + 1;
    KeyStarts(key, ['"'] + inner);
    DropOne(s, n, inner);
    QuotedPair(s, n);
    QuotedIs(s, n, inner);
  }

  lemma DropOne(s: string, n: nat, inner: string)
    requires n <= |s| && s[n..] == ['"'] + inner
    ensures n < |s| && s[n] == '"' && s[n + 1..] == inner && forall m :: 0 <= m <= |inner| ==> s[n + 1 + m..] == inner[m..]
  {
    assert s[n..][1..] == s[n + 1..];
  }

  lemma QuotedIs(s: string, n: nat, inner: string)
    requires 0 < n < |s| && s[n + 1..] == inner
    ensures QuotedTurn(s, n) == Starts(Pair(s[..n - 1], Unquoted(inner).0, true), n + 1 + Unquoted(inner).1)
  {}

  lemma QuoteStarts(key: string, parts: seq<Part>, rest: string)
    requires IsKey(key) && AreParts(parts, true)
    ensures var s := key + "=" + ['"'] + PartsText(parts) + ['"'] + rest;
            && !IsBlank(s[0]) && TurnOf(s) == Starts(Pair(key, PartsValue(parts), true), |s| - |rest|) && s[|s| - |rest|..] == rest
  {
    var inner := PartsText(parts) + (['"'] + rest);
    QuotedEarly(parts, rest);
    QuoteTurn(key, inner);
    QuoteGroups(key, PartsText(parts), ['"'] + rest);
    Regrouped(key + "=" + ['"'] + PartsText(parts), ['"'], rest);
    AfterQuote(key + "=" + ['"'] + PartsText(parts) + ['"'], rest);
  }

  lemma AfterQuote(text: string, rest: string)
    ensures (text + rest)[|text|..] == rest
  {}

  lemma QuoteGroups(key: string, text: string, rest: string)
    ensures key + "=" + ['"'] + text + rest == key + "=" + (['"'] + (text + rest))
  {}

  lemma QuotedEarly(parts: seq<Part>, rest: string)
    requires AreParts(parts, true)
    ensures Unquoted(PartsText(parts) + (['"'] + rest)) == (PartsValue(parts), |PartsText(parts)| + 1, true)
  {
    PartsRead(parts, true, ['"'] + rest);
  }

  lemma QuoteRead(gap: string, key: string, parts: seq<Part>, stray: seq<string>, rest: string, pairs: seq<Pair>)
    requires IsGap(gap) && IsItem(Quote(key, parts, stray)) && Ends(rest)
    ensures Parse(ItemText(gap, Quote(key, parts, stray)) + rest, pairs) == Parse(rest, pairs + [Pair(key, PartsValue(parts), true)])
  {
    var after, p := Spaced(gap, stray) + rest, Pair(key, PartsValue(parts), true);
    var written := key + "=" + ['"'] + PartsText(parts) + ['"'];
    SpacedOn(gap, stray, rest);
    QuoteStarts(key, parts, after);
    Regrouped(written, Spaced(gap, stray), rest);
    FirstTurn(written + after, p, after, pairs);
    StrayIsLost(gap, stray, rest, pairs + [p]);
  }

  /** Whatever follows a closing quote at once is read on its own: the value ends at its quote. */
  lemma QuoteEnds(key: string, parts: seq<Part>, rest: string, pairs: seq<Pair>)
    requires IsKey(key) && AreParts(parts, true)
    ensures Parse(key + "=" + ['"'] + PartsText(parts) + ['"'] + rest, pairs) ==
            Parse(rest, pairs + [Pair(key, PartsValue(parts), true)])
  {
    QuoteStarts(key, parts, rest);
    FirstTurn(key + "=" + ['"'] + PartsText(parts) + ['"'] + rest, Pair(key, PartsValue(parts), true), rest, pairs);
  }

  /** A quote left open takes all the rest of the text, blanks and all. */
  lemma OpenRead(key: string, parts: seq<Part>, pairs: seq<Pair>)
    requires IsKey(key) && AreParts(parts, false)
    ensures Parse(key + "=" + ['"'] + PartsText(parts), pairs) == pairs + [Pair(key, PartsValue(parts), true)]
  {
    var s := key + "=" + ['"'] + PartsText(parts);
    PartsRead(parts, false, "");
    assert PartsText(parts) + "" == PartsText(parts);
    QuoteTurn(key, PartsText(parts));
    QuoteGroups(key, PartsText(parts), "");
    assert s + "" == s;
    FirstTurn(s, Pair(key, PartsValue(parts), true), "", pairs);
  }

  lemma {:induction false} ItemsRead(gap: string, items: seq<Item>, pairs: seq<Pair>)
    requires IsGap(gap) && AreItems(items)
    ensures Parse(ItemsText(gap, items), pairs) == pairs + PairsFor(items)
    decreases |items|
  {
    if items != [] {
      AfterGap(gap, ItemText(gap, items[0]) + ItemsText(gap, items[1..]), pairs);
      ItemRead(gap, items[0], ItemsText(gap, items[1..]), pairs);
      ItemsRead(gap, items[1..], pairs + [PairFor(items[0])]);
      PairsGroup(pairs, PairFor(items[0]), PairsFor(items[1..]));
    }
  }

  lemma PairsGroup(pairs: seq<Pair>, p: Pair, more: seq<Pair>)
    ensures pairs + [p] + more == pairs + ([p] + more)
  {}

  /**
   * Text reads as it is written, whatever the blanks between and before: each
   * pair with the value it was given, bare or quoted, and nothing of stray words.
   */
  lemma ReadsAsWritten(gap: string, stray: seq<string>, items: seq<Item>)
    requires IsGap(gap) && AreWords(stray) && AreItems(items)
    ensures var s := Spaced(gap, stray) + ItemsText(gap, items);
            Parse(s, []) == PairsFor(items) && (s != "" ==> Parse(s[|gap|..], []) == PairsFor(items))
  {
    var s := Spaced(gap, stray) + ItemsText(gap, items);
    AllRead(gap, stray, items);
    if s != "" {
      StartsBlank(gap, stray, items);
      AfterGap(gap, s[|gap|..], []);
    }
  }

  lemma AllRead(gap: string, stray: seq<string>, items: seq<Item>)
    requires IsGap(gap) && AreWords(stray) && AreItems(items)
    ensures Parse(Spaced(gap, stray) + ItemsText(gap, items), []) == PairsFor(items)
  {
    StrayIsLost(gap, stray, ItemsText(gap, items), []);
    ItemsRead(gap, items, []);
    assert [] + PairsFor(items) == PairsFor(items);
  }

  lemma StartsBlank(gap: string, stray: seq<string>, items: seq<Item>)
    ensures var s := Spaced(gap, stray) + ItemsText(gap, items); s != "" ==> |gap| <= |s| && s == gap + s[|gap|..]
  {
    if stray != [] {
      Regrouped(gap, stray[0] + Spaced(gap, stray[1..]), ItemsText(gap, items));
    }
  }

  /** `src=10.0.1.10` gives its address, unquoted. */
  lemma AddressRead()
    ensures Parse("src=10.0.1.10", []) == [Pair("src", "10.0.1.10", false)]
  {
    var address := "10.0.1.10";
    assert "src=10.0.1.10" == "src" + "=" + (address + "");
    BareRead(" ", "src", address, [], "", []);
    assert "src" + "=" + (address + Spaced(" ", [])) + "" == "src=10.0.1.10" && address + Spaced(" ", []) == address;
  }
}
