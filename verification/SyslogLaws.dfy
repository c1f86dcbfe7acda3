/** A rendered RFC 5424 message parses back, and parsing loses nothing that was not read. */
module SyslogLaws {
  import opened Wrappers
  import opened Syslog

  // ---------- Rendering ----------

  datatype Param = Param(name: string, value: string)
  datatype Element = Element(id: string, params: seq<Param>)

  /** SD-NAME, of section 6.3.2: nothing that would end it. */
  predicate IsName(s: string) {
    forall i :: 0 <= i < |s| ==> s[i] != '"' && s[i] != ']' && s[i] != '=' && s[i] != ' '
  }

  ghost predicate Legal(e: Element) {
    IsName(e.id) && forall i :: 0 <= i < |e.params| ==> IsName(e.params[i].name)
  }

  /** PARAM-VALUE, escaped as section 6.3.3 says. */
  function Escaped(v: string): string {
    if v == [] then []
    else (if v[0] == '"' || v[0] == '\\' || v[0] == ']' then ['\\', v[0]] else [v[0]]) + Escaped(v[1..])
  }

  function RenderParam(p: Param): string {
    " " + p.name + "=" + ['"'] + Escaped(p.value) + ['"']
  }

  function RenderParams(ps: seq<Param>): string {
    if ps == [] then "" else RenderParam(ps[0]) + RenderParams(ps[1..])
  }

  function RenderElement(e: Element): string {
    "[" + e.id + RenderParams(e.params) + "]"
  }

  function RenderElements(es: seq<Element>): string {
    if es == [] then "" else RenderElement(es[0]) + RenderElements(es[1..])
  }

  /** No elements at all are written `-`. */
  function RenderData(es: seq<Element>): string {
    if es == [] then "-" else RenderElements(es)
  }

  // ---------- Structured data ----------

  /** s holds part at i. */
  predicate At(s: string, i: nat, part: string) {
    i + |part| <= |s| && forall k :: 0 <= k < |part| ==> s[i + k] == part[k]
  }

  lemma AtParts(s: string, i: nat, a: string, b: string)
    requires At(s, i, a + b)
    ensures At(s, i, a) && At(s, i + |a|, b)
  {
    forall k | 0 <= k < |b|
      ensures s[i + |a| + k] == b[k]
    {
      assert (a + b)[|a| + k] == b[k];
    }
    assert forall k :: 0 <= k < |a| ==> (a + b)[k] == a[k];
  }

  lemma AtChar(s: string, i: nat, part: string, k: nat)
    requires At(s, i, part) && k < |part|
    ensures s[i + k] == part[k]
  {}

  lemma {:induction false} ThroughName(s: string, i: nat, name: string)
    requires At(s, i, name) && IsName(name)
    ensures ElementEnd(s, i, false) == ElementEnd(s, i + |name|, false)
    decreases |name|
  {
    if name != [] {
      AtChar(s, i, name, 0);
      assert name == name[..1] + name[1..];
      AtParts(s, i, name[..1], name[1..]);
      ThroughName(s, i + 1, name[1..]);
    }
  }

  lemma {:induction false} ThroughValue(s: string, i: nat, v: string)
    requires At(s, i, Escaped(v))
    ensures ElementEnd(s, i, true) == ElementEnd(s, i + |Escaped(v)|, true)
    decreases |v|
  {
    if v != [] {
      var head := if v[0] == '"' || v[0] == '\\' || v[0] == ']' then ['\\', v[0]] else [v[0]];
      AtParts(s, i, head, Escaped(v[1..]));
      AtChar(s, i, head, 0);
      ThroughValue(s, i + |head|, v[1..]);
    }
  }

  lemma AtBetween(s: string, i: nat, a: string, b: string, c: string)
    requires At(s, i, a + b + c)
    ensures At(s, i, a) && At(s, i + |a|, b) && At(s, i + |a| + |b|, c)
  {
    AtParts(s, i, a + b, c);
    AtParts(s, i, a, b);
  }

  lemma ThroughQuotes(s: string, i: nat, v: string)
    requires At(s, i, ['"'] + Escaped(v) + ['"'])
    ensures ElementEnd(s, i, false) == ElementEnd(s, i + |Escaped(v)| + 2, false)
  {
    AtBetween(s, i, ['"'], Escaped(v), ['"']);
    AtChar(s, i, ['"'], 0);
    ThroughValue(s, i + 1, v);
    AtChar(s, i + 1 + |Escaped(v)|, ['"'], 0);
  }

  lemma ThroughLabel(s: string, i: nat, name: string)
    requires At(s, i, " " + name + "=") && IsName(name)
    ensures ElementEnd(s, i, false) == ElementEnd(s, i + |name| + 2, false)
  {
    AtBetween(s, i, " ", name, "=");
    AtChar(s, i, " ", 0);
    ThroughName(s, i + 1, name);
    AtChar(s, i + 1 + |name|, "=", 0);
  }

  lemma ThroughParam(s: string, i: nat, p: Param)
    requires At(s, i, RenderParam(p)) && IsName(p.name)
    ensures ElementEnd(s, i, false) == ElementEnd(s, i + |RenderParam(p)|, false)
  {
    var named, quotes := " " + p.name + "=", ['"'] + Escaped(p.value) + ['"'];
    assert RenderParam(p) == named + quotes;
    AtParts(s, i, named, quotes);
    ThroughLabel(s, i, p.name);
    ThroughQuotes(s, i + |named|, p.value);
  }

  lemma {:induction false} ThroughParams(s: string, i: nat, ps: seq<Param>)
    requires At(s, i, RenderParams(ps)) && forall k :: 0 <= k < |ps| ==> IsName(ps[k].name)
    ensures ElementEnd(s, i, false) == ElementEnd(s, i + |RenderParams(ps)|, false)
    decreases |ps|
  {
    if ps != [] {
      AtParts(s, i, RenderParam(ps[0]), RenderParams(ps[1..]));
      ThroughParam(s, i, ps[0]);
      ThroughParams(s, i + |RenderParam(ps[0])|, ps[1..]);
    }
  }

  lemma Brackets(s: string, i: nat, inner: string)
    requires At(s, i, "[" + inner + "]")
    requires ElementEnd(s, i + 1, false) == ElementEnd(s, i + 1 + |inner|, false)
    ensures ElementsEnd(s, i) == ElementsEnd(s, i + |inner| + 2)
  {
    AtBetween(s, i, "[", inner, "]");
    AtChar(s, i, "[", 0);
    AtChar(s, i + 1 + |inner|, "]", 0);
  }

  lemma ThroughInside(s: string, i: nat, e: Element)
    requires At(s, i, e.id + RenderParams(e.params)) && Legal(e)
    ensures ElementEnd(s, i, false) == ElementEnd(s, i + |e.id + RenderParams(e.params)|, false)
  {
    AtParts(s, i, e.id, RenderParams(e.params));
    ThroughName(s, i, e.id);
    ThroughParams(s, i + |e.id|, e.params);
  }

  lemma ThroughElement(s: string, i: nat, e: Element)
    requires At(s, i, RenderElement(e)) && Legal(e)
    ensures ElementsEnd(s, i) == ElementsEnd(s, i + |RenderElement(e)|)
  {
    var inner := e.id + RenderParams(e.params);
    assert RenderElement(e) == "[" + inner + "]";
    AtBetween(s, i, "[", inner, "]");
    ThroughInside(s, i + 1, e);
    Brackets(s, i, inner);
  }

  lemma {:induction false} ThroughElements(s: string, i: nat, es: seq<Element>)
    requires At(s, i, RenderElements(es)) && forall k :: 0 <= k < |es| ==> Legal(es[k])
    ensures ElementsEnd(s, i) == ElementsEnd(s, i + |RenderElements(es)|)
    decreases |es|
  {
    if es != [] {
      FirstElement(s, i, es, RenderElement(es[0]), RenderElements(es[1..]));
      ThroughElements(s, i + |RenderElement(es[0])|, es[1..]);
    }
  }

  lemma FirstElement(s: string, i: nat, es: seq<Element>, first: string, rest: string)
    requires es != [] && first == RenderElement(es[0]) && rest == RenderElements(es[1..]) && Legal(es[0])
    requires At(s, i, RenderElements(es))
    ensures At(s, i + |first|, rest) && ElementsEnd(s, i) == ElementsEnd(s, i + |first|)
  {
    AtParts(s, i, first, rest);
    ThroughElement(s, i, es[0]);
  }

  /** Whatever its parameters' values hold, structured data ends exactly where it was rendered to. */
  lemma DataEndsWhereRendered(es: seq<Element>, rest: string)
    requires (forall k :: 0 <= k < |es| ==> Legal(es[k])) && (rest == [] || rest[0] == ' ')
    ensures DataEnd(RenderData(es) + rest) == Some(|RenderData(es)|)
  {
    if es != [] {
      var data := RenderElements(es);
      assert data != [] && data[0] == '[' && RenderData(es) == data;
      assert At(data + rest, 0, data);
      ThroughElements(data + rest, 0, es);
      EndsAfter(data, rest);
    } else {
      assert RenderData(es) == "-";
    }
  }

  lemma EndsAfter(data: string, rest: string)
    requires data != [] && data[0] == '[' && (rest == [] || rest[0] == ' ')
    requires ElementsEnd(data + rest, 0) == ElementsEnd(data + rest, |data|)
    ensures DataEnd(data + rest) == Some(|data|)
  {
    assert rest != [] ==> (data + rest)[|data|] == ' ';
  }

  // ---------- The header ----------

  function Decimal(n: nat): string {
    if n < 10 then [(n + '0' as int) as char] else Decimal(n / 10) + [(n % 10 + '0' as int) as char]
  }

  lemma {:induction false} DecimalReads(n: nat)
    ensures Digits(Decimal(n)) && Number(Decimal(n)) == n
    ensures n < 10 ==> |Decimal(n)| == 1
    ensures 10 <= n < 100 ==> |Decimal(n)| == 2
    ensures 100 <= n < 1000 ==> |Decimal(n)| == 3
  {
    if 10 <= n {
      DecimalReads(n / 10);
      assert Decimal(n)[..|Decimal(n)| - 1] == Decimal(n / 10);
    } else {
      assert Decimal(n)[..0] == [];
    }
  }

  predicate IsField(f: string) {
    ' ' !in f
  }

  function RenderFields(fs: seq<string>): string {
    if fs == [] then "" else RenderFields(fs[..|fs| - 1]) + fs[|fs| - 1] + " "
  }

  function RenderMessage(msg: string): string {
    if msg == "" then "" else " " + msg
  }

  /** `<PRI>1 TIMESTAMP HOSTNAME APP-NAME PROCID MSGID SD [MSG]`. */
  function Render(pri: nat, fields: seq<string>, es: seq<Element>, msg: string): string {
    "<" + Decimal(pri) + ">1 " + RenderFields(fields) + RenderData(es) + RenderMessage(msg)
  }

  lemma IndexOfIs(s: string, c: char, i: nat)
    requires i < |s| && s[i] == c && c !in s[..i]
    ensures IndexOf(s, c) == i
  {
    var j := IndexOf(s, c);
    forall k | 0 <= k < i ensures s[k] != c { assert s[..i][k] == s[k]; }
    forall k | 0 <= k < j ensures s[k] != c { assert s[..j][k] == s[k]; }
  }

  lemma CutsField(f: string, rest: string)
    requires IsField(f)
    ensures Cut(f + " " + rest) == Some((f, rest))
  {
    Around(f, ' ', rest);
    IndexOfIs(f + " " + rest, ' ', |f|);
  }

  lemma {:induction false} FieldsRead(fs: seq<string>, n: nat, rest: string)
    requires n <= |fs| && forall i :: 0 <= i < |fs| ==> IsField(fs[i])
    ensures Fields(RenderFields(fs[..n]) + rest, n) == Some((fs[..n], rest))
  {
    if n == 0 {
      assert RenderFields(fs[..0]) + rest == rest;
    } else {
      var last := fs[n - 1];
      assert fs[..n][..n - 1] == fs[..n - 1];
      assert RenderFields(fs[..n]) + rest == RenderFields(fs[..n - 1]) + (last + " " + rest);
      FieldsRead(fs, n - 1, last + " " + rest);
      CutsField(last, rest);
      assert fs[..n - 1] + [last] == fs[..n];
    }
  }

  /** A priority is read from a line just as it is written. */
  lemma PRIWritten(pri: string, rest: string)
    requires 1 <= |pri| <= 3 && Atoi(pri).Some? && 0 <= Atoi(pri).value <= 191
    ensures ParsePRI("<" + pri + ">" + rest) == Some((Atoi(pri).value, rest))
  {
    NumberHasNoBracket(pri);
    Around("<" + pri, '>', rest);
    assert ("<" + pri)[1..] == pri;
    IndexOfIs("<" + pri + ">" + rest, '>', 1 + |pri|);
  }

  /** The parts of a text around one of its characters. */
  lemma Around(a: string, c: char, b: string)
    ensures var s := a + [c] + b;
            s[|a|] == c && s[..|a|] == a && s[|a| + 1..] == b && forall i :: 0 <= i <= |a| ==> s[i..|a|] == a[i..]
  {}

  lemma NumberHasNoBracket(pri: string)
    requires Atoi(pri).Some?
    ensures '>' !in pri
  {
    var digits := if pri[0] == '-' || pri[0] == '+' then pri[1..] else pri;
    assert Digits(digits) && forall i :: 0 <= i < |digits| ==> digits[i] != '>';
    assert pri == digits || pri == [pri[0]] + digits;
  }

  lemma PRIReads(pri: nat, rest: string)
    requires pri <= 191
    ensures ParsePRI("<" + Decimal(pri) + ">" + rest) == Some((pri, rest))
  {
    DecimalReads(pri);
    PRIWritten(Decimal(pri), rest);
  }

  lemma HeaderReads(dates: Dates, fields: seq<string>, es: seq<Element>, msg: string)
    requires |fields| == 5 && forall i :: 0 <= i < 5 ==> IsField(fields[i])
    requires fields[0] == "-" || dates.rfc3339(fields[0]).Some?
    requires forall k :: 0 <= k < |es| ==> Legal(es[k])
    ensures Header(dates, RenderFields(fields) + (RenderData(es) + RenderMessage(msg))) ==
            Some(Message(None, if fields[0] == "-" then None else dates.rfc3339(fields[0]),
                         NilValue(fields[1]), NilValue(fields[2]), TrimPrefix(msg, BOM)))
  {
    var rest := RenderData(es) + RenderMessage(msg);
    assert fields[..5] == fields;
    FieldsRead(fields, 5, rest);
    DataEndsWhereRendered(es, RenderMessage(msg));
    assert rest[|RenderData(es)|..] == RenderMessage(msg);
    if msg != "" {
      assert RenderMessage(msg)[1..] == msg;
    }
  }

  predicate LineEnd(c: char) { c == '\r' || c == '\n' }

  lemma {:induction false} TrimEndDrops(line: string, eol: string)
    requires forall i :: 0 <= i < |eol| ==> LineEnd(eol[i])
    requires line != [] && !LineEnd(line[|line| - 1])
    ensures TrimEnd(line + eol) == line
    decreases |eol|
  {
    var s := line + eol;
    if eol == [] {
      assert s == line;
    } else {
      var n := |eol| - 1;
      assert s[..|s| - 1] == line + eol[..n];
      TrimEndDrops(line, eol[..n]);
    }
  }

  /**
   * A rendered message comes back, with any line ending after it: its
   * severity, time, host, app and text, a byte order mark not counting as part
   * of the text.
   */
  lemma RoundTrip(dates: Dates, pri: nat, fields: seq<string>, es: seq<Element>, msg: string, eol: string)
    requires pri <= 191
    requires |fields| == 5 && forall i :: 0 <= i < 5 ==> IsField(fields[i])
    requires fields[0] == "-" || dates.rfc3339(fields[0]).Some?
    requires forall k :: 0 <= k < |es| ==> Legal(es[k])
    requires msg != "" ==> !LineEnd(msg[|msg| - 1])
    requires forall i :: 0 <= i < |eol| ==> LineEnd(eol[i])
    ensures ParseSyslog(dates, Render(pri, fields, es, msg) + eol) ==
            Message(Some(pri % 8), if fields[0] == "-" then None else dates.rfc3339(fields[0]),
                    if fields[1] == "-" then "" else fields[1], if fields[2] == "-" then "" else fields[2],
                    if msg != "" && msg[0] == '\U{FEFF}' then msg[1..] else msg)
  {
    var header := RenderFields(fields) + (RenderData(es) + RenderMessage(msg));
    var line := Render(pri, fields, es, msg);
    RenderIs(pri, fields, es, msg);
    TrimEndDrops(line, eol);
    PRIReads(pri, "1 " + header);
    assert ("1 " + header)[2..] == header && "1 " <= "1 " + header;
    HeaderReads(dates, fields, es, msg);
  }

  lemma RenderIs(pri: nat, fields: seq<string>, es: seq<Element>, msg: string)
    requires msg != "" ==> !LineEnd(msg[|msg| - 1])
    ensures var header := RenderFields(fields) + (RenderData(es) + RenderMessage(msg));
            var line := Render(pri, fields, es, msg);
            && line == "<" + Decimal(pri) + ">" + ("1 " + header)
            && !LineEnd(line[|line| - 1])
  {
    LastIsText(es, msg);
    Regroup(Decimal(pri), RenderFields(fields), RenderData(es), RenderMessage(msg));
  }

  lemma Regroup(d: string, f: string, r: string, m: string)
    ensures "<" + d + ">1 " + f + r + m == "<" + d + ">" + ("1 " + (f + (r + m)))
    ensures r + m != [] ==> (var line := "<" + d + ">1 " + f + r + m; line[|line| - 1] == (r + m)[|r + m| - 1])
  {}

  lemma {:induction false} ElementsClose(es: seq<Element>)
    requires es != []
    ensures RenderElements(es) != [] && RenderElements(es)[|RenderElements(es)| - 1] == ']'
  {
    if 1 < |es| {
      ElementsClose(es[1..]);
    } else {
      assert RenderElements(es) == RenderElement(es[0]);
    }
  }

  lemma LastIsText(es: seq<Element>, msg: string)
    requires msg != "" ==> !LineEnd(msg[|msg| - 1])
    ensures var s := RenderData(es) + RenderMessage(msg); s != [] && !LineEnd(s[|s| - 1])
  {
    if es != [] {
      ElementsClose(es);
    }
  }

  // ---------- Every line ----------

  predicate Suffix(part: string, s: string) {
    |part| <= |s| && s[|s| - |part|..] == part
  }

  lemma SuffixOfSuffix(a: string, b: string, c: string)
    requires Suffix(a, b) && Suffix(b, c)
    ensures Suffix(a, c)
  {
    assert c[|c| - |a|..] == c[|c| - |b|..][|b| - |a|..];
  }

  lemma {:induction false} FieldsLeave(s: string, n: nat)
    ensures Fields(s, n).Some? ==> Suffix(Fields(s, n).value.1, s)
  {
    if n > 0 {
      FieldsLeave(s, n - 1);
      if Fields(s, n).Some? {
        var rest := Fields(s, n - 1).value.1;
        assert Suffix(Fields(s, n).value.1, rest);
        SuffixOfSuffix(Fields(s, n).value.1, rest, s);
      }
    }
  }

  lemma HeaderLeaves(dates: Dates, s: string)
    ensures Header(dates, s).Some? ==> Suffix(Header(dates, s).value.body, s)
  {
    FieldsLeave(s, 5);
    if Header(dates, s).Some? {
      var rest := Fields(s, 5).value.1;
      assert Suffix(Header(dates, s).value.body, rest);
      SuffixOfSuffix(Header(dates, s).value.body, rest, s);
    }
  }

  lemma OldHeaderLeaves(dates: Dates, s: string)
    ensures OldHeader(dates, s).Some? ==> Suffix(OldHeader(dates, s).value.body, s)
  {
    if OldHeader(dates, s).Some? {
      var t := s[STAMP_LENGTH + 1..];
      var (host, u) := HostOf(t);
      HostLeaves(t);
      SuffixOfSuffix(u, t, s);
      SuffixOfSuffix(OldHeader(dates, s).value.body, u, s);
    }
  }

  lemma HostLeaves(t: string)
    ensures Suffix(HostOf(t).1, t)
  {}

  /** Whatever the line, the body is what is left of it: a suffix of the line less its line ending. */
  lemma BodyIsSuffix(dates: Dates, line: string)
    ensures Suffix(ParseSyslog(dates, line).body, TrimEnd(line)) && TrimEnd(line) <= line
    ensures ParsePRI(TrimEnd(line)).None? ==> ParseSyslog(dates, line) == Message(None, None, "", "", TrimEnd(line))
  {
    var s := TrimEnd(line);
    var pri := ParsePRI(s);
    if pri.Some? {
      var rest := pri.value.1;
      var body := ParseSyslog(dates, line).body;
      assert Suffix(rest, s);
      if "1 " <= rest {
        HeaderLeaves(dates, rest[2..]);
        assert Suffix(rest[2..], rest);
        if Header(dates, rest[2..]).Some? {
          SuffixOfSuffix(body, rest[2..], rest);
        }
      }
      OldHeaderLeaves(dates, rest);
      assert Suffix(rest, rest);
      SuffixOfSuffix(body, rest, s);
    }
  }
}
