/**
 * Exactly what a line is read as, by the form it has: with a priority or none,
 * and after that with a header of RFC 5424, with one of RFC 3164, or with none.
 */
module SyslogForms {
  import opened Wrappers
  import opened Syslog
  import opened SyslogLaws
  import opened SyslogOverruns
  import opened SyslogOld
  import Durations

  // ---------- The priority ----------

  predicate AllDigits(s: string) {
    s != "" && forall i :: 0 <= i < |s| ==> '0' <= s[i] <= '9'
  }

  /** n as a decimal number, which may have a sign. */
  predicate IsNumber(s: string, n: int) {
    || (AllDigits(s) && n == Durations.Number(s))
    || (s != "" && s[0] == '+' && AllDigits(s[1..]) && n == Durations.Number(s[1..]))
    || (s != "" && s[0] == '-' && AllDigits(s[1..]) && n == -Durations.Number(s[1..]))
  }

  ghost predicate Prioritized(line: string, n: int, rest: string, pri: string) {
    line == "<" + pri + ">" + rest && 1 <= |pri| <= 3 && IsNumber(pri, n) && 0 <= n <= 191
  }

  ghost predicate IsPrioritized(line: string, n: int, rest: string) {
    exists pri :: Prioritized(line, n, rest, pri)
  }

  lemma {:induction false} NumbersAgree(s: string)
    ensures Number(s) == Durations.Number(s)
  {
    if s != [] {
      NumbersAgree(s[..|s| - 1]);
    }
  }

  lemma NumberExactly(s: string, n: int)
    ensures Atoi(s) == Some(n) <==> IsNumber(s, n)
  {
    NumbersAgree(s);
    if s != "" {
      NumbersAgree(s[1..]);
    }
  }

  lemma PriorityExactly(line: string, n: int, rest: string)
    ensures ParsePRI(line) == Some((n, rest)) <==> IsPrioritized(line, n, rest)
  {
    if ParsePRI(line) == Some((n, rest)) {
      var pri := PRIRead(line);
      NumberExactly(pri, n);
      assert Prioritized(line, n, rest, pri);
    }
    if pri :| Prioritized(line, n, rest, pri) {
      NumberExactly(pri, n);
      PRIWritten(pri, rest);
    }
  }

  // ---------- Structured data ----------

  /** A dash, or elements in brackets, one or more. */
  ghost predicate IsData(data: string) {
    data == "-" || exists es :: es != [] && AreElements(es) && data == ClosedText(es)
  }

  /** Where the closed elements at the start of t end; negative if one that is begun is not closed. */
  function Closes(t: string): (end: int)
    ensures end <= |t|
    decreases |t|, 1
  {
    if t == [] || t[0] != '[' then 0 else ClosesAfter(t, Scan(t[1..], false))
  }

  function ClosesAfter(t: string, n: nat): (end: int)
    requires t != []
    ensures end <= |t|
    decreases |t|, 0
  {
    if |t| - 1 <= n then -1 else if Closes(t[n + 2..]) < 0 then -1 else n + 2 + Closes(t[n + 2..])
  }

  /** Both say the same of where the elements from i on end. */
  predicate Agree(s: string, i: nat, t: string)
    requires i <= |s|
  {
    ElementsEnd(s, i) == if Closes(t) < 0 then None else Some(i + Closes(t))
  }

  lemma {:induction false} ClosesIs(s: string, i: nat, t: string)
    requires i <= |s| && t == s[i..]
    ensures Agree(s, i, t)
    decreases |s| - i
  {
    if i < |s| && s[i] == '[' {
      var n, u := FirstEnds(s, i, t);
      if n < |t| - 1 {
        ClosesIs(s, i + n + 2, u);
        AgreeBefore(s, i, t, n, u);
      }
    } else {
      NoneBegun(s, i, t);
    }
  }

  lemma AgreeBefore(s: string, i: nat, t: string, n: nat, u: string)
    requires i + n + 2 <= |s| && Agree(s, i + n + 2, u) && ElementsEnd(s, i) == ElementsEnd(s, i + n + 2)
    requires Closes(t) == if Closes(u) < 0 then -1 else n + 2 + Closes(u)
    ensures Agree(s, i, t)
  {}

  /** The first element takes n characters within its brackets, if it is closed, and u is what follows. */
  lemma FirstEnds(s: string, i: nat, t: string) returns (n: nat, u: string)
    requires i < |s| && s[i] == '[' && t == s[i..]
    ensures n >= |t| - 1 ==> ElementsEnd(s, i) == None && Closes(t) == -1
    ensures n < |t| - 1 ==>
              && i + n + 2 <= |s| && u == s[i + n + 2..] && ElementsEnd(s, i) == ElementsEnd(s, i + n + 2)
              && Closes(t) == if Closes(u) < 0 then -1 else n + 2 + Closes(u)
  {
    n := Scan(t[1..], false);
    u := if n < |t| - 1 then t[n + 2..] else [];
    FirstStops(s, i, t, n);
    FirstCounts(t, n, u);
    if n < |t| - 1 {
      DropTwice(s, i, n + 2);
    }
  }

  lemma FirstStops(s: string, i: nat, t: string, n: nat)
    requires i < |s| && s[i] == '[' && t == s[i..] && n == Scan(t[1..], false)
    ensures n >= |t| - 1 ==> ElementsEnd(s, i) == None
    ensures n < |t| - 1 ==> ElementsEnd(s, i) == ElementsEnd(s, i + n + 2)
  {
    ElementAt(s, i, t, n);
    EndsBy(s, i, i + 1 + n);
  }

  lemma FirstCounts(t: string, n: nat, u: string)
    requires t != [] && t[0] == '[' && n == Scan(t[1..], false) && (n < |t| - 1 ==> u == t[n + 2..])
    ensures Closes(t) == if n >= |t| - 1 || Closes(u) < 0 then -1 else n + 2 + Closes(u)
  {
    ClosesBy(t, n);
  }

  lemma NoneBegun(s: string, i: nat, t: string)
    requires i <= |s| && t == s[i..] && !(i < |s| && s[i] == '[')
    ensures ElementsEnd(s, i) == Some(i) && Closes(t) == 0
  {}

  lemma EndsBy(s: string, i: nat, end: nat)
    requires i < |s| && s[i] == '[' && end == ElementEnd(s, i + 1, false)
    ensures ElementsEnd(s, i) == if end >= |s| then None else ElementsEnd(s, end + 1)
  {}

  lemma ClosesBy(t: string, n: nat)
    requires t != [] && t[0] == '[' && n == Scan(t[1..], false)
    ensures Closes(t) == ClosesAfter(t, n)
  {}

  lemma ElementScanned(ps: seq<Piece>, t: string)
    requires ArePieces(ps)
    ensures var s := "[" + PiecesText(ps) + "]" + t; s[0] == '[' && Scan(s[1..], false) == |PiecesText(ps)| && s[|PiecesText(ps)| + 2..] == t
  {
    Bracketed(PiecesText(ps), t);
    ThroughPieces(ps, "]" + t);
    BracketEnds(t);
  }

  lemma Bracketed(inner: string, t: string)
    ensures var s := "[" + inner + "]" + t; s[0] == '[' && s[1..] == inner + ("]" + t) && s[|inner| + 2..] == t
  {}

  lemma BracketEnds(t: string)
    ensures Scan("]" + t, false) == 0
  {}

  lemma ElementCloses(ps: seq<Piece>, t: string)
    requires ArePieces(ps)
    ensures Closes("[" + PiecesText(ps) + "]" + t) == if Closes(t) < 0 then -1 else |PiecesText(ps)| + 2 + Closes(t)
  {
    ElementScanned(ps, t);
    ClosesBy("[" + PiecesText(ps) + "]" + t, |PiecesText(ps)|);
  }

  lemma {:induction false} ElementsClosed(es: seq<seq<Piece>>, t: string)
    requires AreElements(es) && (t == [] || t[0] != '[')
    ensures Closes(ClosedText(es) + t) == |ClosedText(es)|
    decreases |es|
  {
    if es == [] {
      assert ClosedText(es) + t == t;
      NoneClosed(t);
    } else {
      ClosedFirst(es, t);
      ElementCloses(es[0], ClosedText(es[1..]) + t);
      ElementsClosed(es[1..], t);
    }
  }

  lemma NoneClosed(t: string)
    requires t == [] || t[0] != '['
    ensures Closes(t) == 0
  {}

  lemma ClosedFirst(es: seq<seq<Piece>>, t: string)
    requires es != []
    ensures ClosedText(es) + t == "[" + PiecesText(es[0]) + "]" + (ClosedText(es[1..]) + t)
    ensures |ClosedText(es)| == |PiecesText(es[0])| + 2 + |ClosedText(es[1..])| && ClosedText(es)[0] == '['
  {
    Regrouped("[" + PiecesText(es[0]) + "]", ClosedText(es[1..]), t);
  }

  lemma {:induction false} ReadClosed(t: string) returns (es: seq<seq<Piece>>)
    requires 0 <= Closes(t)
    ensures AreElements(es) && t[..Closes(t)] == ClosedText(es) && (es == [] <==> t == [] || t[0] != '[')
  {
    es := [];
    if t != [] && t[0] == '[' {
      var n := Scan(t[1..], false);
      var first, open := ReadPieces(t[1..]);
      FirstCloses(t, first, open);
      var more := ReadClosed(t[n + 2..]);
      es := [first] + more;
      ElementTaken(t, first, more, n, Closes(t[n + 2..]));
    }
  }

  lemma ElementTaken(t: string, first: seq<Piece>, more: seq<seq<Piece>>, n: nat, k: nat)
    requires n + 2 + k <= |t| && t == "[" + PiecesText(first) + "]" + t[n + 2..] && |PiecesText(first)| == n
    requires t[n + 2..][..k] == ClosedText(more)
    ensures t[..n + 2 + k] == ClosedText([first] + more)
  {
    var head := "[" + PiecesText(first) + "]";
    ElementFirst(first, more, "");
    assert ClosedText([first] + more) + "" == ClosedText([first] + more) && ClosedText(more) + "" == ClosedText(more);
    TakeAfter(head, t[n + 2..], k);
  }

  /** The structured data field is all of the data, and followed by a blank or nothing. */
  lemma DataExactly(s: string, n: nat)
    requires n <= |s|
    ensures DataEnd(s) == Some(n) <==> IsData(s[..n]) && Follows(s[n..])
  {
    if DataEnd(s) == Some(n) {
      DataIs(s, n);
    }
    if IsData(s[..n]) && Follows(s[n..]) {
      IsDataEnds(s, n);
    }
  }

  lemma DataIs(s: string, n: nat)
    requires n <= |s| && DataEnd(s) == Some(n)
    ensures IsData(s[..n]) && Follows(s[n..])
  {
    if s[0] == '-' {
      assert s[..1] == "-";
    } else {
      assert s[0..] == s;
      ClosesIs(s, 0, s);
      var es := ReadClosed(s);
    }
  }

  lemma IsDataEnds(s: string, n: nat)
    requires n <= |s| && IsData(s[..n]) && Follows(s[n..])
    ensures DataEnd(s) == Some(n)
  {
    if s[..n] == "-" {
      assert s[0] == s[..n][0];
    } else {
      var es :| es != [] && AreElements(es) && s[..n] == ClosedText(es);
      assert s == s[..n] + s[n..];
      ElementsEnded(es, s[n..]);
    }
  }

  lemma ElementsEnded(es: seq<seq<Piece>>, tail: string)
    requires es != [] && AreElements(es) && Follows(tail)
    ensures DataEnd(ClosedText(es) + tail) == Some(|ClosedText(es)|)
  {
    ClosedFirst(es, tail);
    ElementsClosed(es, tail);
    TailAfter(ClosedText(es), tail);
    BracketsEnd(ClosedText(es) + tail, |ClosedText(es)|);
  }

  lemma BracketsEnd(s: string, n: nat)
    requires 0 < n <= |s| && s[0] == '[' && Closes(s) == n && Follows(s[n..])
    ensures DataEnd(s) == Some(n)
  {
    assert s[0..] == s;
    ClosesIs(s, 0, s);
  }

  // ---------- The header of RFC 5424 ----------

  function Field(f: string): string {
    if f == "-" then "" else f
  }

  function WithoutMark(msg: string): string {
    if msg != "" && msg[0] == '\U{FEFF}' then msg[1..] else msg
  }

  /** Time, host, app, process and message id, each without blanks and a blank after it, then the data and what is told. */
  ghost predicate ModernText(dates: Dates, s: string, m: Message, f: seq<string>, data: string, tail: string) {
    && |f| == 5 && (forall i :: 0 <= i < 5 ==> ' ' !in f[i]) && IsData(data) && Follows(tail)
    && s == RenderFields(f) + (data + tail)
    && m.severity == None && m.host == Field(f[1]) && m.app == Field(f[2]) && m.body == WithoutMark(Told(tail))
    && if f[0] == "-" then m.time == None else dates.rfc3339(f[0]).Some? && m.time == dates.rfc3339(f[0])
  }

  ghost predicate IsModern(dates: Dates, s: string, m: Message) {
    exists f, data, tail :: ModernText(dates, s, m, f, data, tail)
  }

  lemma TailAfter(data: string, tail: string)
    ensures (data + tail)[..|data|] == data && (data + tail)[|data|..] == tail
  {}

  lemma ModernReads(dates: Dates, s: string, m: Message, f: seq<string>, data: string, tail: string)
    requires ModernText(dates, s, m, f, data, tail)
    ensures Header(dates, s) == Some(m)
  {
    assert f[..5] == f;
    FieldsRead(f, 5, data + tail);
    TailAfter(data, tail);
    DataExactly(data + tail, |data|);
    PrefixTold(tail);
  }

  lemma PrefixTold(tail: string)
    requires Follows(tail)
    ensures TrimPrefix(tail, ' ') == Told(tail)
    ensures TrimPrefix(TrimPrefix(tail, ' '), BOM) == WithoutMark(Told(tail))
  {}

  lemma HeaderIs(dates: Dates, s: string)
    requires Header(dates, s).Some?
    ensures IsModern(dates, s, Header(dates, s).value)
  {
    var f, rest := Fields(s, 5).value.0, Fields(s, 5).value.1;
    var n := DataEnd(rest).value;
    HeaderFields(dates, s, f, rest);
    DataExactly(rest, n);
    HeaderParts(dates, s, f, rest, n);
    ModernMade(dates, s, Header(dates, s).value, f, rest, n);
  }

  lemma ModernMade(dates: Dates, s: string, m: Message, f: seq<string>, rest: string, n: nat)
    requires |f| == 5 && (forall i :: 0 <= i < 5 ==> ' ' !in f[i]) && s == RenderFields(f) + rest
    requires n <= |rest| && IsData(rest[..n]) && Follows(rest[n..])
    requires m.severity == None && m.host == Field(f[1]) && m.app == Field(f[2]) && m.body == WithoutMark(Told(rest[n..]))
    requires if f[0] == "-" then m.time == None else dates.rfc3339(f[0]).Some? && m.time == dates.rfc3339(f[0])
    ensures IsModern(dates, s, m)
  {
    assert rest == rest[..n] + rest[n..];
    assert ModernText(dates, s, m, f, rest[..n], rest[n..]);
  }

  lemma HeaderFields(dates: Dates, s: string, f: seq<string>, rest: string)
    requires Fields(s, 5) == Some((f, rest))
    ensures |f| == 5 && (forall i :: 0 <= i < 5 ==> ' ' !in f[i]) && s == RenderFields(f) + rest
  {
    FieldsAre(s, 5);
  }

  lemma HeaderParts(dates: Dates, s: string, f: seq<string>, rest: string, n: nat)
    requires Header(dates, s).Some? && Fields(s, 5) == Some((f, rest)) && DataEnd(rest) == Some(n) && Follows(rest[n..])
    ensures var m := Header(dates, s).value;
            && m.severity == None && m.host == Field(f[1]) && m.app == Field(f[2]) && m.body == WithoutMark(Told(rest[n..]))
            && if f[0] == "-" then m.time == None else dates.rfc3339(f[0]).Some? && m.time == dates.rfc3339(f[0])
  {
    PrefixTold(rest[n..]);
  }

  lemma ModernExactly(dates: Dates, s: string, m: Message)
    ensures Header(dates, s) == Some(m) <==> IsModern(dates, s, m)
  {
    if Header(dates, s) == Some(m) {
      HeaderIs(dates, s);
    }
    if f, data, tail :| ModernText(dates, s, m, f, data, tail) {
      ModernReads(dates, s, m, f, data, tail);
    }
  }

  // ---------- The line ----------

  /** What follows the priority: with version 1 a modern header if there is one, else an old one if there is one, else just text. */
  ghost predicate Headed(dates: Dates, s: string, m: Message) {
    if "1 " <= s && exists h :: IsModern(dates, s[2..], h) then IsModern(dates, s[2..], m)
    else if exists h :: IsOld(dates, s, h) then IsOld(dates, s, m)
    else m == Message(None, None, "", "", s)
  }

  ghost predicate HasPriority(line: string) {
    exists n, rest :: IsPrioritized(line, n, rest)
  }

  /** A line with a priority has its severity, which is the priority's remainder by 8; a line without is all text. */
  ghost predicate Means(dates: Dates, line: string, m: Message) {
    if HasPriority(line) then
      exists n, rest :: IsPrioritized(line, n, rest) && m.severity == Some(n % 8) && Headed(dates, rest, m.(severity := None))
    else m == Message(None, None, "", "", line)
  }

  function HeaderOf(dates: Dates, s: string): Message {
    var modern := if "1 " <= s then Header(dates, s[2..]) else None;
    if modern.Some? then modern.value
    else if OldHeader(dates, s).Some? then OldHeader(dates, s).value
    else Message(None, None, "", "", s)
  }

  lemma HeadedExactly(dates: Dates, s: string, m: Message)
    ensures Headed(dates, s, m) <==> m == HeaderOf(dates, s)
  {
    if "1 " <= s {
      ModernExactly(dates, s[2..], m);
      SomeModern(dates, s[2..]);
    }
    OldExactly(dates, s, m);
    SomeOld(dates, s);
  }

  lemma SomeModern(dates: Dates, s: string)
    ensures Header(dates, s).Some? <==> exists h :: IsModern(dates, s, h)
  {
    if Header(dates, s).Some? {
      ModernExactly(dates, s, Header(dates, s).value);
    }
    if h :| IsModern(dates, s, h) {
      ModernExactly(dates, s, h);
    }
  }

  lemma SomeOld(dates: Dates, s: string)
    ensures OldHeader(dates, s).Some? <==> exists h :: IsOld(dates, s, h)
  {
    if OldHeader(dates, s).Some? {
      OldExactly(dates, s, OldHeader(dates, s).value);
    }
    if h :| IsOld(dates, s, h) {
      OldExactly(dates, s, h);
    }
  }

  lemma SomePriority(line: string)
    ensures ParsePRI(line).Some? <==> HasPriority(line)
  {
    if ParsePRI(line).Some? {
      PriorityExactly(line, ParsePRI(line).value.0, ParsePRI(line).value.1);
    }
    if n, rest :| IsPrioritized(line, n, rest) {
      PriorityExactly(line, n, rest);
    }
  }

  lemma ParsedIs(dates: Dates, line: string)
    requires TrimEnd(line) == line
    ensures ParseSyslog(dates, line) ==
            if ParsePRI(line).None? then Message(None, None, "", "", line)
            else HeaderOf(dates, ParsePRI(line).value.1).(severity := Some(ParsePRI(line).value.0 % 8))
  {}

  lemma {:induction false} EndsDropped(line: string, eol: string)
    requires (forall i :: 0 <= i < |eol| ==> eol[i] == '\r' || eol[i] == '\n')
    requires line != "" ==> line[|line| - 1] != '\r' && line[|line| - 1] != '\n'
    ensures TrimEnd(line + eol) == TrimEnd(line) == line
    decreases |eol|
  {
    var s := line + eol;
    if eol == [] {
      assert s == line;
    } else {
      var n := |eol| - 1;
      assert s[..|s| - 1] == line + eol[..n];
      EndsDropped(line, eol[..n]);
    }
  }

  lemma HeadersAreBare(dates: Dates, s: string)
    ensures HeaderOf(dates, s).severity == None
  {}

  /** A line is read just as its form says, whatever carriage returns and newlines end it. */
  lemma LineExactly(dates: Dates, line: string, eol: string, m: Message)
    requires (forall i :: 0 <= i < |eol| ==> eol[i] == '\r' || eol[i] == '\n')
    requires line != "" ==> line[|line| - 1] != '\r' && line[|line| - 1] != '\n'
    ensures ParseSyslog(dates, line + eol) == m <==> Means(dates, line, m)
  {
    EndsDropped(line, eol);
    SameText(dates, line + eol, line);
    ParsedIs(dates, line);
    SomePriority(line);
    if ParsePRI(line).Some? {
      var (n, rest) := ParsePRI(line).value;
      PriorityExactly(line, n, rest);
      HeadersAreBare(dates, rest);
      HeadedExactly(dates, rest, m.(severity := None));
      OnePriority(line);
    }
  }

  lemma SameText(dates: Dates, text: string, line: string)
    requires TrimEnd(text) == TrimEnd(line)
    ensures ParseSyslog(dates, text) == ParseSyslog(dates, line)
  {}

  lemma OnePriority(line: string)
    ensures forall n, rest :: IsPrioritized(line, n, rest) ==> ParsePRI(line) == Some((n, rest))
  {
    forall n, rest | IsPrioritized(line, n, rest)
      ensures ParsePRI(line) == Some((n, rest))
    {
      PriorityExactly(line, n, rest);
    }
  }
}
