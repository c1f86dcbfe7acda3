/** backend/internal/ingest/kv.go: the key=value body that firewalls and routers put after the syslog header. */
module KeyValue {

  datatype Pair = Pair(key: string, value: string, quoted: bool)

  predicate IsBlank(c: char) { c == ' ' || c == '\t' }
  predicate IsLetter(c: char) { 'a' <= c <= 'z' || 'A' <= c <= 'Z' }
  predicate IsDigit(c: char) { '0' <= c <= '9' }

  predicate KeyStart(c: char) { IsLetter(c) || c == '_' }
  predicate KeyChar(c: char) { KeyStart(c) || IsDigit(c) || c == '.' || c == '-' }

  predicate LegalKey(k: string) {
    k != [] && KeyStart(k[0]) && forall i :: 0 <= i < |k| ==> KeyChar(k[i])
  }

  // ---------- Specification, on what is left to read ----------

  /** The length of `key=` at the start of s, or 0. */
  function KeyLength(s: string): nat {
    if s == [] || !KeyStart(s[0]) then 0 else RestOfKey(s, 1)
  }

  function RestOfKey(s: string, i: nat): nat
    requires i <= |s|
    decreases |s| - i
  {
    if i == |s| then 0
    else if s[i] == '=' then i + 1
    else if KeyChar(s[i]) then RestOfKey(s, i + 1)
    else 0
  }

  /** Up to the first blank. */
  function TokenLength(s: string): (n: nat)
    ensures n <= |s| && forall i :: 0 <= i < n ==> !IsBlank(s[i])
    ensures n < |s| ==> IsBlank(s[n])
  {
    if s == [] || IsBlank(s[0]) then 0 else 1 + TokenLength(s[1..])
  }

  /** What follows an opening quote: the value, how much was read, and whether it was closed. */
  function Unquoted(s: string): (r: (string, nat, bool))
    ensures r.1 <= |s| && (r.2 ==> 0 < r.1) && (!r.2 ==> r.1 == |s|)
  {
    if s == [] then ("", 0, false)
    else if Escape(s) then
      var r := Unquoted(s[2..]);
      ([s[1]] + r.0, r.1 + 2, r.2)
    else if s[0] == '"' then ("", 1, true)
    else
      var r := Unquoted(s[1..]);
      ([s[0]] + r.0, r.1 + 1, r.2)
  }

  predicate Escape(s: string) {
    2 <= |s| && s[0] == '\\' && (s[1] == '"' || s[1] == '\\')
  }

  /** What starts a text: a token that goes on with the last value, or a pair; and its length. */
  datatype Turn = GoesOn(token: string, length: nat) | Starts(pair: Pair, length: nat)

  function QuotedTurn(s: string, n: nat): (t: Turn)
    requires 0 < n < |s|
    ensures n < t.length <= |s|
  {
    var r := Unquoted(s[n + 1..]);
    Starts(Pair(s[..n - 1], r.0, true), n + 1 + r.1)
  }

  function PlainTurn(s: string, n: nat): (t: Turn)
    requires 0 < n <= |s|
    ensures n <= t.length <= |s|
  {
    var m := TokenLength(s[n..]);
    Starts(Pair(s[..n - 1], s[n..n + m], false), n + m)
  }

  function TurnOf(s: string): (t: Turn)
    requires s != [] && !IsBlank(s[0])
    ensures 0 < t.length <= |s|
  {
    KeyIs(s);
    var n := KeyLength(s);
    if n == 0 then GoesOn(s[..TokenLength(s)], TokenLength(s))
    else if n < |s| && s[n] == '"' then QuotedTurn(s, n)
    else PlainTurn(s, n)
  }

  /** A token that starts no pair is lost if the last value was quoted, or there is none. */
  function Continued(pairs: seq<Pair>, token: string): seq<Pair> {
    if pairs == [] || pairs[|pairs| - 1].quoted then pairs
    else
      var last := pairs[|pairs| - 1];
      pairs[..|pairs| - 1] + [last.(value := if last.value == "" then token else last.value + " " + token)]
  }

  function Read(pairs: seq<Pair>, t: Turn): seq<Pair> {
    if t.GoesOn? then Continued(pairs, t.token) else pairs + [t.pair]
  }

  /** Reads s, with pairs already read. */
  function Parse(s: string, pairs: seq<Pair>): seq<Pair>
    decreases |s|
  {
    if s == [] then pairs
    else if IsBlank(s[0]) then Parse(s[1..], pairs)
    else Parse(s[TurnOf(s).length..], Read(pairs, TurnOf(s)))
  }

  /** s starts with a legal key of k characters and an equals sign. */
  predicate HasKey(s: string, k: nat) {
    k < |s| && s[k] == '=' && LegalKey(s[..k])
  }

  /** A key is found just where a legal one and its equals sign are. */
  lemma KeyIs(s: string)
    ensures KeyLength(s) <= |s|
    ensures 0 < KeyLength(s) ==> HasKey(s, KeyLength(s) - 1)
    ensures forall k: nat :: HasKey(s, k) ==> KeyLength(s) == k + 1
  {
    if s != [] && KeyStart(s[0]) {
      RestOfKeyIs(s, 1);
    }
    forall k: nat | HasKey(s, k)
      ensures KeyLength(s) == k + 1
    {
      assert s[..k][0] == s[0];
    }
  }

  lemma {:induction false} RestOfKeyIs(s: string, i: nat)
    requires 1 <= i <= |s| && LegalKey(s[..i])
    ensures RestOfKey(s, i) <= |s|
    ensures 0 < RestOfKey(s, i) ==> HasKey(s, RestOfKey(s, i) - 1)
    ensures forall k: nat :: HasKey(s, k) ==> RestOfKey(s, i) == k + 1
    decreases |s| - i
  {
    forall j | 0 <= j < i
      ensures KeyChar(s[j])
    {
      assert s[..i][j] == s[j];
    }
    forall k: nat | HasKey(s, k)
      ensures i <= k && (i < k ==> KeyChar(s[i]))
    {
      assert i < k ==> s[..k][i] == s[i];
    }
    if i < |s| && s[i] != '=' && KeyChar(s[i]) {
      assert s[..i + 1] == s[..i] + [s[i]];
      RestOfKeyIs(s, i + 1);
    }
  }

  // ---------- The source's own form ----------

  method ParseKV(body: string) returns (pairs: seq<Pair>)
    ensures pairs == Parse(body, [])
  {
    pairs := [];
    var i := 0;
    assert body[0..] == body;
    while i < |body|
      invariant 0 <= i <= |body|
      invariant Parse(body[i..], pairs) == Parse(body, [])
    {
      i := SkipBlanks(body, i, pairs);
      if i == |body| {
        break;
      }
      ParseTurn(body, i, pairs);
      i, pairs := ParseNext(body, i, pairs);
    }
    assert body[|body|..] == [];
  }

  method ParseNext(body: string, at: nat, before: seq<Pair>) returns (i: nat, pairs: seq<Pair>)
    requires at < |body| && !IsBlank(body[at])
    ensures var t := TurnOf(body[at..]); i == at + t.length && pairs == Read(before, t)
  {
    var key, n := KeyAt(body[at..]);
    if n == 0 {
      var t := ReadToken(body, at);
      pairs := GoOn(before, t.token);
      i := at + t.length;
    } else {
      var t := ReadPair(body, at, key, n);
      pairs := before + [t.pair];
      i := at + t.length;
    }
  }

  method SkipBlanks(body: string, at: nat, ghost pairs: seq<Pair>) returns (i: nat)
    requires at <= |body|
    ensures at <= i <= |body| && (i < |body| ==> !IsBlank(body[i]))
    ensures Parse(body[i..], pairs) == Parse(body[at..], pairs)
  {
    i := at;
    while i < |body| && IsBlank(body[i])
      invariant at <= i <= |body|
      invariant Parse(body[i..], pairs) == Parse(body[at..], pairs)
    {
      assert body[i..][1..] == body[i + 1..];
      i := i + 1;
    }
  }

  lemma ParseTurn(body: string, i: nat, pairs: seq<Pair>)
    requires i < |body| && !IsBlank(body[i])
    ensures var t := TurnOf(body[i..]);
            && i + t.length <= |body|
            && Parse(body[i..], pairs) == Parse(body[i + t.length..], Read(pairs, t))
  {
    var t := TurnOf(body[i..]);
    assert body[i..][t.length..] == body[i + t.length..];
  }

  method ReadToken(body: string, at: nat) returns (t: Turn)
    requires at < |body| && !IsBlank(body[at]) && KeyLength(body[at..]) == 0
    ensures t == TurnOf(body[at..]) && t.GoesOn?
  {
    var end := TokenEnd(body, at);
    assert body[at..][..end - at] == body[at..end];
    t := GoesOn(body[at..end], end - at);
  }

  /** The pair whose key was found at i: its value is quoted, or goes up to the next blank. */
  method ReadPair(body: string, at: nat, key: string, n: nat) returns (t: Turn)
    requires at < |body| && !IsBlank(body[at])
    requires 0 < n == KeyLength(body[at..]) <= |body| - at && key == body[at..][..n - 1]
    ensures t == TurnOf(body[at..]) && t.Starts?
  {
    var i := at + n;
    Slices(body, at, n);
    if i < |body| && body[i] == '"' {
      var value, m := Unquote(body[i..]);
      t := Starts(Pair(key, value, true), n + m);
      QuotedPair(body[at..], n);
    } else {
      var end := TokenEnd(body, i);
      SliceWithin(body, at, n, end);
      t := Starts(Pair(key, body[i..end], false), end - at);
      PlainPair(body[at..], n);
    }
  }

  lemma Slices(body: string, at: nat, n: nat)
    requires at + n <= |body|
    ensures body[at..][n..] == body[at + n..]
    ensures at + n < |body| ==> body[at..][n + 1..] == body[at + n..][1..] && body[at..][n] == body[at + n]
  {}

  lemma SliceWithin(body: string, at: nat, n: nat, end: nat)
    requires at + n <= end <= |body|
    ensures body[at..][n..end - at] == body[at + n..end]
  {}

  lemma QuotedPair(s: string, n: nat)
    requires s != [] && !IsBlank(s[0]) && 0 < n == KeyLength(s) < |s| && s[n] == '"'
    ensures TurnOf(s) == QuotedTurn(s, n)
  {}

  lemma PlainPair(s: string, n: nat)
    requires s != [] && !IsBlank(s[0]) && 0 < n == KeyLength(s) <= |s| && (n < |s| ==> s[n] != '"')
    ensures TurnOf(s) == PlainTurn(s, n)
  {}

  method GoOn(before: seq<Pair>, token: string) returns (pairs: seq<Pair>)
    ensures pairs == Continued(before, token)
  {
    pairs := before;
    var last := |pairs| - 1;
    if 0 <= last && !pairs[last].quoted {
      if pairs[last].value == "" {
        pairs := pairs[last := pairs[last].(value := token)];
      } else {
        pairs := pairs[last := pairs[last].(value := pairs[last].value + " " + token)];
      }
    }
  }

  method KeyAt(s: string) returns (key: string, n: nat)
    ensures n == KeyLength(s) && (0 < n ==> n <= |s| && key == s[..n - 1])
  {
    KeyIs(s);
    for i := 0 to |s|
      invariant 0 < i ==> KeyLength(s) == RestOfKey(s, i)
    {
      var c := s[i];
      if c == '=' && i > 0 {
        return s[..i], i + 1;
      } else if IsLetter(c) || c == '_' {
      } else if i > 0 && (IsDigit(c) || c == '.' || c == '-') {
      } else {
        return "", 0;
      }
    }
    return "", 0;
  }

  method Unquote(s: string) returns (value: string, n: nat)
    requires s != [] && s[0] == '"'
    ensures value == Unquoted(s[1..]).0 && n == 1 + Unquoted(s[1..]).1
  {
    value := "";
    var i := 1;
    while i < |s|
      invariant 1 <= i <= |s|
      invariant Unquoting(s, i, value)
    {
      var c := s[i];
      UnquoteStep(s, i, value);
      if c == '\\' && i + 1 < |s| && (s[i + 1] == '"' || s[i + 1] == '\\') {
        value := value + [s[i + 1]];
        i := i + 1;
      } else if c == '"' {
        return value, i + 1;
      } else {
        value := value + [c];
      }
      i := i + 1;
    }
    assert s[|s|..] == "" && value + "" == value;
    n := |s|;
  }

  /** Up to i, what follows the opening quote comes to value. */
  ghost predicate Unquoting(s: string, i: nat, value: string)
    requires 1 <= i <= |s|
  {
    value + Unquoted(s[i..]).0 == Unquoted(s[1..]).0 && i + Unquoted(s[i..]).1 == 1 + Unquoted(s[1..]).1
  }

  lemma UnquoteStep(s: string, i: nat, value: string)
    requires 1 <= i < |s| && Unquoting(s, i, value)
    ensures Escape(s[i..]) ==> Unquoting(s, i + 2, value + [s[i + 1]])
    ensures !Escape(s[i..]) && s[i] == '"' ==> value == Unquoted(s[1..]).0 && i == Unquoted(s[1..]).1
    ensures !Escape(s[i..]) && s[i] != '"' ==> Unquoting(s, i + 1, value + [s[i]])
  {
    if Escape(s[i..]) {
      assert s[i..][2..] == s[i + 2..];
      assert value + ([s[i + 1]] + Unquoted(s[i + 2..]).0) == value + [s[i + 1]] + Unquoted(s[i + 2..]).0;
    } else if s[i] == '"' {
      assert value + "" == value;
    } else {
      assert s[i..][1..] == s[i + 1..];
      assert value + ([s[i]] + Unquoted(s[i + 1..]).0) == value + [s[i]] + Unquoted(s[i + 1..]).0;
    }
  }

  method TokenEnd(s: string, from: nat) returns (i: nat)
    requires from <= |s|
    ensures i == from + TokenLength(s[from..])
  {
    i := from;
    while i < |s| && !IsBlank(s[i])
      invariant from <= i <= |s|
      invariant i + TokenLength(s[i..]) == from + TokenLength(s[from..])
    {
      assert s[i..][1..] == s[i + 1..];
      i := i + 1;
    }
  }
}
