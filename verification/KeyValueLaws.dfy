/** Printing and parsing key=value text undo each other, and parsing splits where a pair starts. */
module KeyValueLaws {
  import opened KeyValue

  // ---------- Printing ----------

  function Escaped(v: string): string {
    if v == [] then []
    else (if v[0] == '"' || v[0] == '\\' then ['\\', v[0]] else [v[0]]) + Escaped(v[1..])
  }

  function PrintPair(p: Pair): string {
    p.key + "=" + ['"'] + Escaped(p.value) + ['"']
  }

  function Print(pairs: seq<Pair>): string {
    if pairs == [] then ""
    else if |pairs| == 1 then PrintPair(pairs[0])
    else PrintPair(pairs[0]) + " " + Print(pairs[1..])
  }

  /** The same pairs, as they come back: all quoted. */
  function Quoted(pairs: seq<Pair>): seq<Pair> {
    if pairs == [] then [] else [pairs[0].(quoted := true)] + Quoted(pairs[1..])
  }

  ghost predicate LegalKeys(pairs: seq<Pair>) {
    forall i :: 0 <= i < |pairs| ==> LegalKey(pairs[i].key)
  }

  lemma {:induction false} UnquoteEscaped(v: string, rest: string)
    ensures Unquoted(Escaped(v) + ['"'] + rest) == (v, |Escaped(v)| + 1, true)
  {
    var s := Escaped(v) + ['"'] + rest;
    if v != [] {
      UnquoteEscaped(v[1..], rest);
      var t := Escaped(v[1..]) + ['"'] + rest;
      if v[0] == '"' || v[0] == '\\' {
        assert s == ['\\', v[0]] + t;
        assert Escape(s) && s[2..] == t;
      } else {
        assert s == [v[0]] + t;
        assert !Escape(s) && s[1..] == t;
      }
      assert v == [v[0]] + v[1..];
    } else {
      assert s == ['"'] + rest;
    }
  }

  lemma TurnPrinted(p: Pair, rest: string)
    requires LegalKey(p.key)
    ensures var s := PrintPair(p) + rest;
            && !IsBlank(s[0]) && TurnOf(s) == Starts(p.(quoted := true), |PrintPair(p)|)
            && s[|PrintPair(p)|..] == rest
  {
    var s, k := PrintPair(p) + rest, |p.key|;
    assert s == p.key + "=" + ['"'] + (Escaped(p.value) + ['"'] + rest);
    assert s[..k] == p.key && s[0] == p.key[0];
    KeyIs(s);
    assert HasKey(s, k);
    assert s[k + 2..] == Escaped(p.value) + ['"'] + rest;
    UnquoteEscaped(p.value, rest);
  }

  lemma ParsePrinted(p: Pair, rest: string, pairs: seq<Pair>)
    requires LegalKey(p.key)
    ensures Parse(PrintPair(p) + (" " + rest), pairs) == Parse(rest, pairs + [p.(quoted := true)])
  {
    TurnPrinted(p, " " + rest);
    assert (" " + rest)[1..] == rest;
  }

  lemma ParsePrintedLast(p: Pair, pairs: seq<Pair>)
    requires LegalKey(p.key)
    ensures Parse(PrintPair(p), pairs) == pairs + [p.(quoted := true)]
  {
    TurnPrinted(p, "");
    assert PrintPair(p) + "" == PrintPair(p);
  }

  lemma PrintMore(ps: seq<Pair>)
    requires 2 <= |ps|
    ensures Print(ps) == PrintPair(ps[0]) + (" " + Print(ps[1..]))
  {}

  lemma {:induction false} ParsePrint(ps: seq<Pair>, pairs: seq<Pair>)
    requires LegalKeys(ps)
    ensures Parse(Print(ps), pairs) == pairs + Quoted(ps)
  {
    if |ps| == 1 {
      ParsePrintedLast(ps[0], pairs);
      assert Quoted(ps) == [ps[0].(quoted := true)];
    } else if 2 <= |ps| {
      PrintMore(ps);
      ParsePrinted(ps[0], Print(ps[1..]), pairs);
      var read := pairs + [ps[0].(quoted := true)];
      ParsePrint(ps[1..], read);
      assert read + Quoted(ps[1..]) == pairs + Quoted(ps);
    }
  }

  /** Parsing what is printed gives the pairs back, whatever their values hold. */
  lemma RoundTrip(pairs: seq<Pair>)
    requires LegalKeys(pairs)
    ensures Parse(Print(pairs), []) == Quoted(pairs)
  {
    ParsePrint(pairs, []);
    assert [] + Quoted(pairs) == Quoted(pairs);
  }

  // ---------- Parsing then printing ----------

  lemma {:induction false} ParsedKeysLegal(s: string, pairs: seq<Pair>)
    requires LegalKeys(pairs)
    ensures LegalKeys(Parse(s, pairs))
    decreases |s|
  {
    if s != [] {
      if IsBlank(s[0]) {
        ParsedKeysLegal(s[1..], pairs);
      } else {
        KeyIs(s);
        ParsedKeysLegal(s[TurnOf(s).length..], Read(pairs, TurnOf(s)));
      }
    }
  }

  lemma {:induction false} QuotedAre(pairs: seq<Pair>)
    ensures |Quoted(pairs)| == |pairs|
    ensures forall i :: 0 <= i < |pairs| ==> Quoted(pairs)[i] == pairs[i].(quoted := true)
  {
    if pairs != [] {
      QuotedAre(pairs[1..]);
    }
  }

  /** Printing what was parsed and parsing that changes no key and no value. */
  lemma Reparse(s: string)
    ensures var once := Parse(s, []);
            var twice := Parse(Print(once), []);
            |twice| == |once| && forall i :: 0 <= i < |once| ==> twice[i] == once[i].(quoted := true)
  {
    ParsedKeysLegal(s, []);
    RoundTrip(Parse(s, []));
    QuotedAre(Parse(s, []));
  }

  // ---------- Splitting ----------

  /** s ends within a quoted value. */
  predicate Open(s: string)
    decreases |s|
  {
    s != []
    && if IsBlank(s[0]) then Open(s[1..])
       else
         KeyIs(s);
         var n := KeyLength(s);
         (0 < n < |s| && s[n] == '"' && !Unquoted(s[n + 1..]).2) || Open(s[TurnOf(s).length..])
  }

  /** s has nothing before its first pair. */
  predicate StartsPair(s: string) {
    s == [] || if IsBlank(s[0]) then StartsPair(s[1..]) else 0 < KeyLength(s)
  }

  lemma {:induction false} RestOfKeyExtends(a: string, i: nat, more: string)
    requires 1 <= i <= |a| && (more != [] ==> IsBlank(more[0]))
    ensures RestOfKey(a + more, i) == RestOfKey(a, i)
    decreases |a| - i
  {
    if i < |a| && a[i] != '=' && KeyChar(a[i]) {
      RestOfKeyExtends(a, i + 1, more);
    }
  }

  lemma {:induction false} TokenExtends(a: string, more: string)
    requires more != [] ==> IsBlank(more[0])
    ensures TokenLength(a + more) == TokenLength(a)
  {
    if a == [] {
      assert a + more == more;
    } else if !IsBlank(a[0]) {
      assert (a + more)[1..] == a[1..] + more;
      TokenExtends(a[1..], more);
    }
  }

  lemma {:induction false} UnquotedExtends(a: string, more: string)
    requires Unquoted(a).2
    ensures Unquoted(a + more) == Unquoted(a)
  {
    if Escape(a) {
      assert (a + more)[2..] == a[2..] + more;
      UnquotedExtends(a[2..], more);
    } else if a[0] != '"' {
      assert (a + more)[1..] == a[1..] + more;
      UnquotedExtends(a[1..], more);
      NoLateEscape(a, more);
    }
  }

  /** A backslash at the very end leaves a quote open, so more text cannot turn it into an escape. */
  lemma NoLateEscape(a: string, more: string)
    requires a != [] && !Escape(a) && a[0] != '"' && Unquoted(a).2
    ensures !Escape(a + more)
  {
    assert |a[1..]| == |a| - 1;
  }

  lemma KeyExtends(a: string, more: string)
    requires a != [] && !IsBlank(a[0]) && (more != [] ==> IsBlank(more[0]))
    ensures KeyLength(a + more) == KeyLength(a)
  {
    if KeyStart(a[0]) {
      RestOfKeyExtends(a, 1, more);
    }
  }

  lemma PlainExtends(a: string, n: nat, more: string)
    requires 0 < n <= |a| && (more != [] ==> IsBlank(more[0]))
    ensures PlainTurn(a + more, n) == PlainTurn(a, n)
  {
    assert (a + more)[n..] == a[n..] + more;
    TokenExtends(a[n..], more);
    assert (a + more)[n..n + TokenLength(a[n..])] == a[n..n + TokenLength(a[n..])];
    assert (a + more)[..n - 1] == a[..n - 1];
  }

  lemma QuotedExtends(a: string, n: nat, more: string)
    requires 0 < n < |a| && Unquoted(a[n + 1..]).2
    ensures QuotedTurn(a + more, n) == QuotedTurn(a, n)
  {
    assert (a + more)[n + 1..] == a[n + 1..] + more;
    UnquotedExtends(a[n + 1..], more);
    assert (a + more)[..n - 1] == a[..n - 1];
  }

  lemma TurnExtends(a: string, more: string)
    requires a != [] && !IsBlank(a[0]) && !Open(a) && (more != [] ==> IsBlank(more[0]))
    ensures TurnOf(a + more) == TurnOf(a)
  {
    KeyIs(a);
    KeyExtends(a, more);
    var n := KeyLength(a);
    if n == 0 {
      TokenExtends(a, more);
      assert (a + more)[..TokenLength(a)] == a[..TokenLength(a)];
    } else if n < |a| && a[n] == '"' {
      QuotedExtends(a, n, more);
    } else {
      PlainExtends(a, n, more);
    }
  }

  lemma {:induction false} ParseThrough(a: string, b: string, pairs: seq<Pair>)
    requires !Open(a) && (b != [] ==> IsBlank(b[0]))
    ensures Parse(a + b, pairs) == Parse(b, Parse(a, pairs))
    decreases |a|
  {
    if a == [] {
      assert a + b == b;
    } else if IsBlank(a[0]) {
      assert (a + b)[1..] == a[1..] + b;
      ParseThrough(a[1..], b, pairs);
    } else {
      TurnExtends(a, b);
      var t := TurnOf(a);
      assert (a + b)[t.length..] == a[t.length..] + b;
      ParseThrough(a[t.length..], b, Read(pairs, t));
    }
  }

  lemma ReadAppends(before: seq<Pair>, some: seq<Pair>, t: Turn)
    requires some != [] || t.Starts?
    ensures Read(before + some, t) == before + Read(some, t) && Read(some, t) != []
  {
    if some == [] {
      assert before + some == before;
    } else {
      assert (before + some)[..|before + some| - 1] == before + some[..|some| - 1];
    }
  }

  /** Pairs before the last one read stay as they are. */
  lemma {:induction false} ParseAppends(b: string, before: seq<Pair>, some: seq<Pair>)
    requires some != []
    ensures Parse(b, before + some) == before + Parse(b, some)
    decreases |b|
  {
    if b != [] {
      if IsBlank(b[0]) {
        ParseAppends(b[1..], before, some);
      } else {
        var t := TurnOf(b);
        ReadAppends(before, some, t);
        ParseAppends(b[t.length..], before, Read(some, t));
      }
    }
  }

  lemma {:induction false} ParseFresh(b: string, pairs: seq<Pair>)
    requires StartsPair(b)
    ensures Parse(b, pairs) == pairs + Parse(b, [])
  {
    if b != [] {
      if IsBlank(b[0]) {
        ParseFresh(b[1..], pairs);
      } else {
        var t := TurnOf(b);
        ReadAppends(pairs, [], t);
        assert pairs + [] == pairs;
        ParseAppends(b[t.length..], pairs, Read([], t));
      }
    }
  }

  /** Two bodies joined by a blank give the pairs of both, if the first leaves no quote open and the second starts with a pair. */
  lemma SplitsAtPairs(a: string, b: string)
    requires !Open(a) && StartsPair(b)
    ensures Parse(a + " " + b, []) == Parse(a, []) + Parse(b, [])
  {
    assert a + " " + b == a + (" " + b);
    ParseThrough(a, " " + b, []);
    assert (" " + b)[1..] == b;
    ParseFresh(b, Parse(a, []));
  }
}
