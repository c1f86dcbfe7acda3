/**
 * backend/internal/ingest/syslog.go: reading an RFC 5424 or RFC 3164 header.
 * Whatever does not parse as a header is left in the body.
 */
module Syslog {
  import opened Wrappers

  datatype Message = Message(severity: Option<int>, time: Option<int>, host: string, app: string, body: string)

  /** The library's date parsers: RFC 3339 times, and whether a text is an RFC 3164 timestamp. */
  datatype Dates = Dates(rfc3339: string -> Option<int>, isStamp: string -> bool)

  const STAMP_LENGTH: nat := 15
  const BOM: char := '\U{FEFF}'

  // ---------- Small readers ----------

  function TrimEnd(s: string): (t: string)
    ensures t <= s
  {
    if s != [] && (s[|s| - 1] == '\r' || s[|s| - 1] == '\n') then TrimEnd(s[..|s| - 1]) else s
  }

  predicate IsDigit(c: char) { '0' <= c <= '9' }

  function Number(s: string): int {
    if s == [] then 0 else 10 * Number(s[..|s| - 1]) + (s[|s| - 1] as int - '0' as int)
  }

  predicate Digits(s: string) {
    s != [] && forall i :: 0 <= i < |s| ==> IsDigit(s[i])
  }

  /** strconv.Atoi: an optional sign, and digits. */
  function Atoi(s: string): Option<int> {
    if s == [] then None
    else if s[0] == '-' then if Digits(s[1..]) then Some(-Number(s[1..])) else None
    else if s[0] == '+' then if Digits(s[1..]) then Some(Number(s[1..])) else None
    else if Digits(s) then Some(Number(s)) else None
  }

  /** Where c first is, or the length. */
  function IndexOf(s: string, c: char): (i: nat)
    ensures i <= |s| && c !in s[..i] && (i < |s| ==> s[i] == c)
  {
    if s == [] || s[0] == c then 0
    else
      var i := IndexOf(s[1..], c);
      assert s[..i + 1] == [s[0]] + s[1..][..i];
      i + 1
  }

  /** What is before the first space and after it, if there is one. */
  function Cut(s: string): Option<(string, string)> {
    var i := IndexOf(s, ' ');
    if i == |s| then None else Some((s[..i], s[i + 1..]))
  }

  function NilValue(s: string): string {
    if s == "-" then "" else s
  }

  // ---------- The header ----------

  /** `<N>`, with N from 0 to 191. */
  function ParsePRI(line: string): Option<(int, string)> {
    var end := IndexOf(line, '>');
    if line == [] || line[0] != '<' || end == |line| || end < 2 || end > 4 then None
    else
      var n := Atoi(line[1..end]);
      if n.None? || n.value < 0 || n.value > 191 then None else Some((n.value, line[end + 1..]))
  }

  /** The next n space-terminated fields, and what follows them. */
  function Fields(s: string, n: nat): (r: Option<(seq<string>, string)>)
    ensures r.Some? ==> |r.value.0| == n
  {
    if n == 0 then Some(([], s))
    else
      var before := Fields(s, n - 1);
      if before.None? then None
      else
        var cut := Cut(before.value.1);
        if cut.None? then None else Some((before.value.0 + [cut.value.0], cut.value.1))
  }

  /** Where the element whose text starts at i ends: at its closing bracket, or past the end. */
  function ElementEnd(s: string, i: nat, inValue: bool): (end: nat)
    requires i <= |s| + 1
    ensures i <= end <= |s| + 1
    ensures end < |s| ==> s[end] == ']'
    decreases |s| + 1 - i
  {
    if i >= |s| then i
    else if s[i] == '\\' && inValue then ElementEnd(s, i + 2, inValue)
    else if s[i] == '"' then ElementEnd(s, i + 1, !inValue)
    else if s[i] == ']' && !inValue then i
    else ElementEnd(s, i + 1, inValue)
  }

  /** Where the elements that start at i end, unless one is not closed. */
  function ElementsEnd(s: string, i: nat): (end: Option<nat>)
    requires i <= |s|
    ensures end.Some? ==> i <= end.value <= |s|
    decreases |s| - i
  {
    if i < |s| && s[i] == '[' then
      var end := ElementEnd(s, i + 1, false);
      if end >= |s| then None else ElementsEnd(s, end + 1)
    else Some(i)
  }

  predicate EndsField(s: string, i: nat)
    requires i <= |s|
  {
    i == |s| || s[i] == ' '
  }

  /** Where the STRUCTURED-DATA field at the start of s ends. */
  function DataEnd(s: string): (end: Option<nat>)
    ensures end.Some? ==> 0 < end.value <= |s|
  {
    if s != [] && s[0] == '-' then if EndsField(s, 1) then Some(1) else None
    else
      var end := ElementsEnd(s, 0);
      if end.Some? && end.value > 0 && EndsField(s, end.value) then end else None
  }

  /**
   * An element's scan that starts at i, or at a later element's bracket, moves
   * past the end, where a test for the end itself does not see it.
   */
  predicate RunsPast(s: string, i: nat)
    requires i <= |s|
    decreases |s| - i
  {
    i < |s| && s[i] == '[' &&
    var end := ElementEnd(s, i + 1, false);
    end > |s| || (end < |s| && RunsPast(s, end + 1))
  }

  /** The field at the start of s is one whose scan moves past the end. */
  predicate DataOverruns(s: string) {
    RunsPast(s, 0)
  }

  function TrimPrefix(s: string, c: char): string {
    if s != [] && s[0] == c then s[1..] else s
  }

  function Header(dates: Dates, s: string): Option<Message> {
    var fields := Fields(s, 5);
    if fields.None? then None
    else
      var (f, rest) := fields.value;
      var time := if f[0] == "-" then None else dates.rfc3339(f[0]);
      var end := DataEnd(rest);
      if (f[0] != "-" && time.None?) || end.None? then None
      else
        Some(Message(None, time, NilValue(f[1]), NilValue(f[2]), TrimPrefix(TrimPrefix(rest[end.value..], ' '), BOM)))
  }

  /** Reading s as a header comes to structured data whose scan moves past the end. */
  predicate HeaderOverruns(dates: Dates, s: string) {
    var fields := Fields(s, 5);
    fields.Some? && (fields.value.0[0] == "-" || dates.rfc3339(fields.value.0[0]).Some?) && DataOverruns(fields.value.1)
  }

  // ---------- RFC 3164 ----------

  predicate TagChar(c: char) {
    'A' <= c <= 'Z' || 'a' <= c <= 'z' || IsDigit(c) || c == '_' || c == '.' || c == '/' || c == '-'
  }

  function Run(s: string, from: nat, accepts: char -> bool): (n: nat)
    requires from <= |s|
    ensures from + n <= |s|
    decreases |s| - from
  {
    if from < |s| && accepts(s[from]) then 1 + Run(s, from + 1, accepts) else 0
  }

  /** `app[pid]:` and a space or the end: the length of app, and of it all. */
  function Tag(s: string): (tag: Option<(nat, nat)>)
    ensures tag.Some? ==> tag.value.0 <= tag.value.1 <= |s|
  {
    var app := Run(s, 0, TagChar);
    if app < 1 || app > 48 then None
    else
      var digits := if app < |s| && s[app] == '[' then Run(s, app + 1, IsDigit) else 0;
      var colon := if digits > 0 && app + 1 + digits < |s| && s[app + 1 + digits] == ']' then app + digits + 2 else app;
      if colon < |s| && s[colon] == ':' && EndsField(s, colon + 1)
      then Some((app, if colon + 1 == |s| then colon + 1 else colon + 2)) else None
  }

  /** The host, unless a tag comes first, and what follows it. */
  function HostOf(t: string): (string, string) {
    if Tag(t).Some? then ("", t) else if Cut(t).Some? then Cut(t).value else (t, "")
  }

  function OldHeader(dates: Dates, s: string): Option<Message> {
    if |s| < STAMP_LENGTH + 1 || s[STAMP_LENGTH] != ' ' || !dates.isStamp(s[..STAMP_LENGTH]) then None
    else
      var (host, u) := HostOf(s[STAMP_LENGTH + 1..]);
      var tag := Tag(u);
      if tag.Some? then Some(Message(None, None, host, u[..tag.value.0], u[tag.value.1..]))
      else Some(Message(None, None, host, "", u))
  }

  function ParseSyslog(dates: Dates, text: string): (m: Message)
    ensures m.severity.Some? ==> 0 <= m.severity.value < 8
  {
    var line := TrimEnd(text);
    var pri := ParsePRI(line);
    if pri.None? then Message(None, None, "", "", line)
    else
      var (n, rest) := pri.value;
      var severity := Some(n % 8);
      var modern := if "1 " <= rest then Header(dates, rest[2..]) else None;
      if modern.Some? then modern.value.(severity := severity)
      else
        var dated := OldHeader(dates, rest);
        if dated.Some? then dated.value.(severity := severity)
        else Message(severity, None, "", "", rest)
  }

  /** Reading text comes to structured data whose scan moves past the end. */
  predicate LineOverruns(dates: Dates, text: string) {
    var pri := ParsePRI(TrimEnd(text));
    pri.Some? && "1 " <= pri.value.1 && HeaderOverruns(dates, pri.value.1[2..])
  }

  // ---------- The source's own form ----------

  /** The end is tested for with an equality, and overrun says that the index is then out of range. */
  method StructuredDataEnd(s: string) returns (n: nat, ok: bool, overrun: bool)
    ensures overrun <==> DataOverruns(s)
    ensures !overrun ==> (ok <==> DataEnd(s).Some?) && (ok ==> n == DataEnd(s).value)
  {
    if s != [] && s[0] == '-' {
      return 1, |s| == 1 || s[1] == ' ', false;
    }
    var i := 0;
    while i < |s| && s[i] == '['
      invariant 0 <= i <= |s| + 2 && i != |s| + 1
      invariant i <= |s| ==> ElementsEnd(s, i) == ElementsEnd(s, 0) && RunsPast(s, i) == RunsPast(s, 0)
      invariant i > |s| ==> RunsPast(s, 0)
      decreases |s| + 2 - i
    {
      var inValue, start := false, i;
      i := i + 1;
      while i < |s|
        invariant start < i <= |s| + 1
        invariant ElementEnd(s, start + 1, false) == ElementEnd(s, i, inValue)
        decreases |s| + 1 - i
      {
        var c := s[i];
        if c == '\\' && inValue {
          i := i + 1;
          i := i + 1;
          continue;
        }
        if c == '"' {
          inValue := !inValue;
        }
        if c == ']' && !inValue {
          break;
        }
        i := i + 1;
      }
      if i == |s| {
        return 0, false, false;
      }
      i := i + 1;
    }
    if i > |s| {
      return 0, false, true;
    }
    return i, i > 0 && (i == |s| || s[i] == ' '), false;
  }

  method Parse5424(dates: Dates, text: string) returns (m: Option<Message>, overrun: bool)
    ensures overrun <==> HeaderOverruns(dates, text)
    ensures !overrun ==> m == Header(dates, text)
  {
    var s := text;
    var fields := ["", "", "", "", ""];
    for i := 0 to 5
      invariant |fields| == 5
      invariant Fields(text, i) == Some((fields[..i], s))
    {
      var cut := Cut(s);
      if cut.None? {
        assert Fields(text, i + 1).None?;
        FieldsStay(text, i + 1, 5);
        return None, false;
      }
      assert fields[i := cut.value.0][..i + 1] == fields[..i] + [cut.value.0];
      fields := fields[i := cut.value.0];
      s := cut.value.1;
    }
    assert fields[..5] == fields;
    var time: Option<int> := None;
    if fields[0] != "-" {
      time := dates.rfc3339(fields[0]);
      if time.None? {
        return None, false;
      }
    }
    var host, app := NilValue(fields[1]), NilValue(fields[2]);
    var n, ok;
    n, ok, overrun := StructuredDataEnd(s);
    if overrun || !ok {
      return None, overrun;
    }
    var msg := TrimPrefix(s[n..], ' ');
    m := Some(Message(None, time, host, app, TrimPrefix(msg, BOM)));
  }

  /** What a line is read as, unless reading it indexes out of range. */
  method ParseLine(dates: Dates, text: string) returns (m: Message, overrun: bool)
    ensures overrun <==> LineOverruns(dates, text)
    ensures !overrun ==> m == ParseSyslog(dates, text)
  {
    var line := TrimEnd(text);
    var pri := ParsePRI(line);
    m, overrun := Message(None, None, "", "", line), false;
    if pri.None? {
      return;
    }
    var (n, rest) := pri.value;
    var severity := Some(n % 8);
    m := Message(severity, None, "", "", rest);
    if "1 " <= rest {
      var modern, past := Parse5424(dates, rest[2..]);
      if past {
        return m, true;
      }
      if modern.Some? {
        return modern.value.(severity := severity), false;
      }
    }
    var dated := OldHeader(dates, rest);
    if dated.Some? {
      m := dated.value.(severity := severity);
    }
  }

  lemma {:induction false} FieldsStay(s: string, n: nat, m: nat)
    requires n <= m
    ensures Fields(s, n).None? ==> Fields(s, m).None?
  {
    if n < m {
      FieldsStay(s, n, m - 1);
    }
  }
}
