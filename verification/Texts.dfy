/** Text as the backend orders and trims it. A string is a sequence of code points. */
module Texts {

  // ---------- Order ----------

  /** The order of Go's strings and of COLLATE "C". */
  predicate Below(a: string, b: string) {
    b != [] && (a == [] || a[0] < b[0] || (a[0] == b[0] && Below(a[1..], b[1..])))
  }

  lemma {:induction false} Trichotomy(a: string, b: string)
    ensures Below(a, b) || a == b || Below(b, a)
    ensures !(Below(a, b) && Below(b, a)) && !Below(a, a)
    ensures Below(a, b) ==> a != b
  {
    if a != [] && b != [] && a[0] == b[0] {
      Trichotomy(a[1..], b[1..]);
      Trichotomy(a[1..], a[1..]);
      assert a == [a[0]] + a[1..] && b == [b[0]] + b[1..];
    } else if a != [] {
      Trichotomy(a[1..], a[1..]);
    }
  }

  lemma {:induction false} Transitive(a: string, b: string, c: string)
    requires Below(a, b) && Below(b, c)
    ensures Below(a, c)
  {
    if a != [] && a[0] == b[0] == c[0] {
      Transitive(a[1..], b[1..], c[1..]);
    }
  }

  /** Sorted, and without duplicates. */
  ghost predicate Ascending(xs: seq<string>) {
    forall i, j :: 0 <= i < j < |xs| ==> Below(xs[i], xs[j])
  }

  /** An ascending sequence is determined by what is in it. */
  lemma {:induction false} AscendingUnique(xs: seq<string>, ys: seq<string>)
    requires Ascending(xs) && Ascending(ys) && (forall x :: x in xs <==> x in ys)
    ensures xs == ys
  {
    if xs == [] {
      HasHead(ys);
    } else {
      assert xs[0] in ys && ys[0] in xs;
      HeadIsLeast(xs, ys[0]);
      HeadIsLeast(ys, xs[0]);
      Trichotomy(xs[0], ys[0]);
      forall x
        ensures x in xs[1..] <==> x in ys[1..]
      {
        TailLacksHead(xs, x);
        TailLacksHead(ys, x);
      }
      AscendingUnique(xs[1..], ys[1..]);
      assert xs == [xs[0]] + xs[1..] && ys == [ys[0]] + ys[1..];
    }
  }

  lemma HasHead(xs: seq<string>)
    ensures xs != [] ==> xs[0] in xs
  {}

  lemma HeadIsLeast(xs: seq<string>, x: string)
    requires Ascending(xs) && x in xs
    ensures x == xs[0] || Below(xs[0], x)
  {}

  lemma TailLacksHead(xs: seq<string>, x: string)
    requires Ascending(xs) && xs != []
    ensures x in xs[1..] <==> x in xs && x != xs[0]
  {
    Trichotomy(xs[0], xs[0]);
    if x in xs[1..] {
      var i :| 0 <= i < |xs| - 1 && xs[1..][i] == x;
      assert Below(xs[0], xs[i + 1]);
    }
  }

  // ---------- slices.Sort and slices.Compact ----------

  /** Puts x before the first value that is not below it. */
  function Inserted(x: string, xs: seq<string>): seq<string> {
    if xs != [] && Below(xs[0], x) then [xs[0]] + Inserted(x, xs[1..]) else [x] + xs
  }

  function Sort(xs: seq<string>): seq<string> {
    if xs == [] then [] else Inserted(xs[0], Sort(xs[1..]))
  }

  /** Replaces each run of equal values with one of them. */
  function Compact(xs: seq<string>): seq<string> {
    if |xs| < 2 then xs
    else if xs[0] == xs[1] then Compact(xs[1..])
    else [xs[0]] + Compact(xs[1..])
  }

  ghost predicate Sorted(xs: seq<string>) {
    forall i, j :: 0 <= i < j < |xs| ==> !Below(xs[j], xs[i])
  }

  lemma NotBelowTransitive(a: string, b: string, c: string)
    requires !Below(b, a) && !Below(c, b)
    ensures !Below(c, a)
  {
    Trichotomy(a, b);
    Trichotomy(b, c);
    Trichotomy(a, c);
    if Below(a, b) && Below(b, c) {
      Transitive(a, b, c);
    }
  }

  lemma {:induction false} InsertedKeeps(x: string, xs: seq<string>)
    ensures forall y :: y in Inserted(x, xs) <==> y == x || y in xs
    ensures Sorted(xs) ==> Sorted(Inserted(x, xs))
  {
    if xs != [] && Below(xs[0], x) {
      InsertedKeeps(x, xs[1..]);
      var ys := Inserted(x, xs[1..]);
      Trichotomy(xs[0], x);
      assert xs == [xs[0]] + xs[1..];
      if Sorted(xs) {
        forall j | 0 <= j < |ys|
          ensures !Below(ys[j], xs[0])
        {
          assert ys[j] in ys;
        }
      }
    } else if Sorted(xs) && xs != [] {
      forall j | 0 <= j < |xs|
        ensures !Below(xs[j], x)
      {
        if j > 0 { NotBelowTransitive(x, xs[0], xs[j]); }
      }
    }
  }

  lemma {:induction false} SortSorts(xs: seq<string>)
    ensures Sorted(Sort(xs))
    ensures forall x :: x in Sort(xs) <==> x in xs
  {
    if xs != [] {
      SortSorts(xs[1..]);
      InsertedKeeps(xs[0], Sort(xs[1..]));
      assert xs == [xs[0]] + xs[1..];
    }
  }

  lemma {:induction false} CompactAscends(xs: seq<string>)
    requires Sorted(xs)
    ensures Ascending(Compact(xs))
    ensures forall x :: x in Compact(xs) <==> x in xs
    ensures xs != [] ==> Compact(xs) != [] && Compact(xs)[0] == xs[0]
  {
    if 2 <= |xs| {
      CompactAscends(xs[1..]);
      assert xs == [xs[0]] + xs[1..];
      var ys := Compact(xs[1..]);
      if xs[0] != xs[1] {
        Trichotomy(xs[0], xs[1]);
        forall j | 0 <= j < |ys|
          ensures Below(xs[0], ys[j])
        {
          if j > 0 {
            assert Below(ys[0], ys[j]);
            Transitive(xs[0], xs[1], ys[j]);
          }
        }
      }
    }
  }

  /** Sorting and compacting gives one list to each set of values, and the same list only to that set. */
  lemma Canonical(xs: seq<string>, ys: seq<string>)
    ensures Ascending(Compact(Sort(xs)))
    ensures forall x :: x in Compact(Sort(xs)) <==> x in xs
    ensures Compact(Sort(xs)) == Compact(Sort(ys)) <==> (forall x :: x in xs <==> x in ys)
  {
    SortSorts(xs);
    CompactAscends(Sort(xs));
    SortSorts(ys);
    CompactAscends(Sort(ys));
    if forall x :: x in xs <==> x in ys {
      AscendingUnique(Compact(Sort(xs)), Compact(Sort(ys)));
    } else {
      var x :| !(x in xs <==> x in ys);
      assert x in Compact(Sort(xs)) <==> x !in Compact(Sort(ys));
    }
  }

  // ---------- Keeping the first of each ----------

  /** Drops what is there already. */
  function Distinct(tags: seq<string>): seq<string> {
    if tags == [] then []
    else
      var before, t := tags[..|tags| - 1], tags[|tags| - 1];
      Distinct(before) + if t in before then [] else [t]
  }

  /** Nothing is lost and nothing is twice. */
  lemma {:induction false} DistinctIs(tags: seq<string>)
    ensures forall t :: t in Distinct(tags) <==> t in tags
    ensures forall i, j :: 0 <= i < j < |Distinct(tags)| ==> Distinct(tags)[i] != Distinct(tags)[j]
  {
    if tags != [] {
      var n := |tags| - 1;
      DistinctIs(tags[..n]);
      assert tags == tags[..n] + [tags[n]];
    }
  }

  lemma {:induction false} DistinctKeeps(tags: seq<string>)
    requires forall i, j :: 0 <= i < j < |tags| ==> tags[i] != tags[j]
    ensures Distinct(tags) == tags
  {
    if tags != [] {
      DistinctKeeps(tags[..|tags| - 1]);
    }
  }

  // ---------- Trimming ----------

  /** Drops what space accepts from both ends. */
  function Trim(s: string, space: char -> bool): (t: string)
    ensures t == [] || (!space(t[0]) && !space(t[|t| - 1]))
  {
    if s == [] then []
    else if space(s[0]) then Trim(s[1..], space)
    else if space(s[|s| - 1]) then Trim(s[..|s| - 1], space)
    else s
  }

  predicate Trimmed(s: string, space: char -> bool) {
    s == [] || (!space(s[0]) && !space(s[|s| - 1]))
  }

  lemma TrimTrimmed(s: string, space: char -> bool)
    ensures Trim(s, space) == s <==> Trimmed(s, space)
  {
    if Trimmed(s, space) {
      assert Trim(s, space) == s;
    }
  }

  /** Trimming keeps only characters of the text. */
  lemma {:induction false} TrimWithin(s: string, space: char -> bool)
    ensures |Trim(s, space)| <= |s| && forall c :: c in Trim(s, space) ==> c in s
    decreases |s|
  {
    if s != [] {
      if space(s[0]) {
        TrimWithin(s[1..], space);
      } else if space(s[|s| - 1]) {
        TrimWithin(s[..|s| - 1], space);
      }
    }
  }

  predicate Space(c: char) {
    || '\t' <= c <= '\r' || c == ' ' || c == '\U{A0}' || c == '\U{1680}' || '\U{2000}' <= c <= '\U{200A}'
    || c == '\U{2028}' || c == '\U{2029}' || c == '\U{202F}' || c == '\U{205F}' || c == '\U{3000}'
  }

  /** unicode.IsSpace, which strings.TrimSpace drops. */
  predicate GoSpace(c: char) {
    Space(c) || c == '\U{85}'
  }

  /** What JavaScript's trim drops: the same, but with the byte order mark and without the next line. */
  predicate JsSpace(c: char) {
    Space(c) || c == '\U{FEFF}'
  }

  /** The 25 code points with Unicode's White_Space property. */
  const WHITE_SPACE: seq<int> := [
    0x9, 0xA, 0xB, 0xC, 0xD, 0x20, 0x85, 0xA0, 0x1680, 0x2000, 0x2001, 0x2002, 0x2003, 0x2004, 0x2005, 0x2006, 0x2007, 0x2008,
    0x2009, 0x200A, 0x2028, 0x2029, 0x202F, 0x205F, 0x3000]

  /** Go's spaces are Unicode's. The pages' are those but for the next line character, and the byte order mark. */
  lemma SpacesAre(c: char)
    ensures GoSpace(c) <==> c as int in WHITE_SPACE
    ensures JsSpace(c) <==> (c as int in WHITE_SPACE && c as int != 0x85) || c as int == 0xFEFF
  {
    WhiteSpaceIs(c as int);
  }

  lemma WhiteSpaceIs(n: int)
    ensures n in WHITE_SPACE <==>
              || 0x9 <= n <= 0xD || n == 0x20 || n == 0x85 || n == 0xA0 || n == 0x1680 || 0x2000 <= n <= 0x200A
              || n == 0x2028 || n == 0x2029 || n == 0x202F || n == 0x205F || n == 0x3000
  {}

  /** Text that is stored is trimmed, and holds no NUL. */
  ghost predicate Clean(v: string) {
    Trimmed(v, GoSpace) && '\0' !in v
  }

  function TrimSpace(s: string): string {
    Trim(s, GoSpace)
  }

  function JsTrim(s: string): string {
    Trim(s, JsSpace)
  }

  // ---------- Case ----------

  /** strings.ToLower, which lowers each character on its own. */
  function Lowered(lower: char -> char, s: string): (t: string)
    ensures |t| == |s| && forall i :: 0 <= i < |s| ==> t[i] == lower(s[i])
  {
    if s == [] then [] else [lower(s[0])] + Lowered(lower, s[1..])
  }

  /** Lowering twice is lowering once; it keeps lower letters of ASCII and U+FFFD, and makes no space and no NUL nor unmakes one. */
  ghost predicate Lowers(lower: char -> char) {
    && (forall c :: lower(lower(c)) == lower(c))
    && (forall c :: GoSpace(lower(c)) == GoSpace(c))
    && (forall c :: lower(c) == '\0' <==> c == '\0')
    && (forall c :: 'a' <= c <= 'z' || c == '\U{FFFD}' ==> lower(c) == c)
  }

  lemma LoweredTwice(lower: char -> char, s: string)
    requires Lowers(lower)
    ensures Lowered(lower, Lowered(lower, s)) == Lowered(lower, s)
  {}

  /** Lower case, for letters of ASCII. */
  function LowerChar(c: char): char {
    if 'A' <= c <= 'Z' then ((c as int) + 32) as char else c
  }

  const CAPITALS := "ABCDEFGHIJKLMNOPQRSTUVWXYZ"
  const SMALL := "abcdefghijklmnopqrstuvwxyz"

  lemma LettersAre(i: int)
    ensures |CAPITALS| == |SMALL| == 26
    ensures 0 <= i < 26 ==> CAPITALS[i] as int == 'A' as int + i && SMALL[i] as int == 'a' as int + i
  {}

  /** The 26 capitals become their small letters, and nothing else changes. */
  lemma CapitalsLower(c: char)
    ensures |CAPITALS| == |SMALL|
    ensures c in CAPITALS ==> exists i :: 0 <= i < |CAPITALS| && CAPITALS[i] == c && LowerChar(c) == SMALL[i]
    ensures c !in CAPITALS ==> LowerChar(c) == c
  {
    var i := c as int - 'A' as int;
    LettersAre(i);
    if k :| 0 <= k < |CAPITALS| && CAPITALS[k] == c {
      LettersAre(k);
    }
  }

  function ToLower(s: string): (t: string)
    ensures |t| == |s| && forall i :: 0 <= i < |s| ==> t[i] == LowerChar(s[i])
  {
    if s == [] then [] else [LowerChar(s[0])] + ToLower(s[1..])
  }

  lemma LowerTwice(s: string)
    ensures ToLower(ToLower(s)) == ToLower(s)
  {}
}
