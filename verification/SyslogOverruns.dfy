/**
 * The lines whose reading indexes out of range, as the end of structured data
 * is tested for with an equality: those of one form, and no others.
 */
module SyslogOverruns {
  import opened Wrappers
  import opened Syslog
  import opened SyslogLaws

  // ---------- The form of such a line ----------

  /** What an element is made of, outside its brackets. */
  datatype Piece = Plain(c: char) | Quoted(value: string)

  /** A value as it is written: every backslash escapes a character, and no quote is left bare. */
  predicate IsValue(z: string) {
    z == [] || (if z[0] == '\\' then 2 <= |z| && IsValue(z[2..]) else z[0] != '"' && IsValue(z[1..]))
  }

  predicate IsPiece(p: Piece) {
    match p
    case Plain(c) => c != '"' && c != ']'
    case Quoted(z) => IsValue(z)
  }

  ghost predicate ArePieces(ps: seq<Piece>) {
    forall i :: 0 <= i < |ps| ==> IsPiece(ps[i])
  }

  ghost predicate AreElements(es: seq<seq<Piece>>) {
    forall i :: 0 <= i < |es| ==> ArePieces(es[i])
  }

  function PieceText(p: Piece): string {
    match p
    case Plain(c) => [c]
    case Quoted(z) => ['"'] + z + ['"']
  }

  function PiecesText(ps: seq<Piece>): string {
    if ps == [] then "" else PieceText(ps[0]) + PiecesText(ps[1..])
  }

  function ClosedText(es: seq<seq<Piece>>): string {
    if es == [] then "" else "[" + PiecesText(es[0]) + "]" + ClosedText(es[1..])
  }

  /** An element that is not closed: in a value still open, it ends in a backslash with nothing to escape. */
  function OpenText(ps: seq<Piece>, z: string): string {
    "[" + PiecesText(ps) + (['"'] + z + ['\\'])
  }

  /** Any number of closed elements, and one left open by a lone backslash. */
  ghost predicate LeftOpen(data: string) {
    exists es, ps, z :: AreElements(es) && ArePieces(ps) && IsValue(z) && data == ClosedText(es) + OpenText(ps, z)
  }

  /** `<PRI>1 ` with a priority, five fields with a time that can be read, and data left open. */
  ghost predicate LineLeftOpen(dates: Dates, line: string) {
    exists pri, fields, data :: IsHeader(dates, pri, fields) && LeftOpen(data) && line == HeaderText(pri, fields) + data
  }

  /** What is read as a number from 0 to 191, and fields free of spaces. */
  ghost predicate IsHeader(dates: Dates, pri: string, fields: seq<string>) {
    && 1 <= |pri| <= 3 && Atoi(pri).Some? && 0 <= Atoi(pri).value <= 191
    && |fields| == 5 && (forall i :: 0 <= i < 5 ==> IsField(fields[i]))
    && (fields[0] == "-" || dates.rfc3339(fields[0]).Some?)
  }

  function HeaderText(pri: string, fields: seq<string>): string {
    "<" + pri + ">" + ("1 " + RenderFields(fields))
  }

  // ---------- The scan, on what is left of the text ----------

  /** How far an element's scan goes: to its closing bracket, or to the end, or past it. */
  function Scan(t: string, inValue: bool): (n: nat)
    ensures n <= |t| + 1
  {
    if t == [] then 0
    else if t[0] == '\\' && inValue then if |t| == 1 then 2 else 2 + Scan(t[2..], true)
    else if t[0] == '"' then 1 + Scan(t[1..], !inValue)
    else if t[0] == ']' && !inValue then 0
    else 1 + Scan(t[1..], inValue)
  }

  predicate Past(t: string) {
    t != [] && t[0] == '[' &&
    var n := Scan(t[1..], false);
    n > |t| - 1 || (n < |t| - 1 && Past(t[n + 2..]))
  }

  lemma {:induction false} ScanIs(s: string, i: nat, inValue: bool)
    requires i <= |s|
    ensures ElementEnd(s, i, inValue) == i + Scan(s[i..], inValue)
    decreases |s| - i
  {
    if i < |s| {
      assert s[i..][1..] == s[i + 1..];
      ScanIs(s, i + 1, inValue);
      ScanIs(s, i + 1, !inValue);
      if i + 1 < |s| {
        assert s[i..][2..] == s[i + 2..];
        ScanIs(s, i + 2, inValue);
      }
    }
  }

  lemma {:induction false} PastIs(s: string, i: nat, t: string)
    requires i <= |s| && t == s[i..]
    ensures RunsPast(s, i) <==> Past(t)
    decreases |s| - i
  {
    if i < |s| && s[i] == '[' {
      var n := Scan(t[1..], false);
      ElementAt(s, i, t, n);
      if n < |t| - 1 {
        PastIs(s, i + n + 2, t[n + 2..]);
      }
      BothPast(s, i, t, n, if n < |t| - 1 then t[n + 2..] else "");
    }
  }

  lemma ElementAt(s: string, i: nat, t: string, n: nat)
    requires i < |s| && s[i] == '[' && t == s[i..] && n == Scan(t[1..], false)
    ensures t != [] && t[0] == '[' && |t| == |s| - i && i + 1 + n == ElementEnd(s, i + 1, false)
    ensures n < |t| - 1 ==> t[n + 2..] == s[i + n + 2..]
  {
    DropTwice(s, i, 1);
    ScanIs(s, i + 1, false);
    if n < |t| - 1 {
      DropTwice(s, i, n + 2);
    }
  }

  lemma BothPast(s: string, i: nat, t: string, n: nat, u: string)
    requires i < |s| && s[i] == '[' && t != [] && t[0] == '[' && |t| == |s| - i
    requires n == Scan(t[1..], false) && i + 1 + n == ElementEnd(s, i + 1, false)
    requires n < |t| - 1 ==> u == t[n + 2..] && (RunsPast(s, i + n + 2) <==> Past(u))
    ensures RunsPast(s, i) <==> Past(t)
  {
    RunsBy(s, i, i + 1 + n);
    PastBy(t, n);
  }

  lemma RunsBy(s: string, i: nat, end: nat)
    requires i < |s| && s[i] == '[' && end == ElementEnd(s, i + 1, false)
    ensures RunsPast(s, i) <==> end > |s| || (end < |s| && RunsPast(s, end + 1))
  {}

  lemma PastBy(t: string, n: nat)
    requires t != [] && t[0] == '[' && n == Scan(t[1..], false)
    ensures Past(t) <==> n > |t| - 1 || (n < |t| - 1 && Past(t[n + 2..]))
  {}

  lemma DropTwice(s: string, i: nat, n: nat)
    requires i + n <= |s|
    ensures s[i..][n..] == s[i + n..]
  {}

  // ---------- Text of the form runs past the end ----------

  lemma {:induction false} ThroughWritten(z: string, t: string)
    requires IsValue(z)
    ensures Scan(z + t, true) == |z| + Scan(t, true)
    decreases |z|
  {
    if z == [] {
      assert z + t == t;
    } else {
      var n := if z[0] == '\\' then 2 else 1;
      assert (z + t)[n..] == z[n..] + t;
      ThroughWritten(z[n..], t);
    }
  }

  lemma ThroughPiece(p: Piece, t: string)
    requires IsPiece(p)
    ensures Scan(PieceText(p) + t, false) == |PieceText(p)| + Scan(t, false)
  {
    if p.Quoted? {
      ThroughQuoted(p.value, t);
    } else {
      assert (PieceText(p) + t)[1..] == t;
    }
  }

  lemma ThroughQuoted(z: string, t: string)
    requires IsValue(z)
    ensures Scan(['"'] + z + ['"'] + t, false) == |z| + 2 + Scan(t, false)
  {
    var closed := ['"'] + t;
    assert (['"'] + z + ['"'] + t)[1..] == z + closed;
    ThroughWritten(z, closed);
    assert closed[1..] == t;
  }

  lemma {:induction false} ThroughPieces(ps: seq<Piece>, t: string)
    requires ArePieces(ps)
    ensures Scan(PiecesText(ps) + t, false) == |PiecesText(ps)| + Scan(t, false)
    decreases |ps|
  {
    if ps == [] {
      assert PiecesText(ps) + t == t;
    } else {
      assert PiecesText(ps) + t == PieceText(ps[0]) + (PiecesText(ps[1..]) + t);
      ThroughPiece(ps[0], PiecesText(ps[1..]) + t);
      ThroughPieces(ps[1..], t);
    }
  }

  lemma PastElement(ps: seq<Piece>, t: string)
    requires ArePieces(ps)
    ensures Past("[" + PiecesText(ps) + "]" + t) <==> Past(t)
  {
    var s, n := "[" + PiecesText(ps) + "]" + t, |PiecesText(ps)|;
    assert s[1..] == PiecesText(ps) + ("]" + t);
    ThroughPieces(ps, "]" + t);
    assert s[n + 2..] == t;
  }

  lemma {:induction false} PastElements(es: seq<seq<Piece>>, t: string)
    requires AreElements(es)
    ensures Past(ClosedText(es) + t) <==> Past(t)
    decreases |es|
  {
    if es == [] {
      assert ClosedText(es) + t == t;
    } else {
      assert ClosedText(es) + t == "[" + PiecesText(es[0]) + "]" + (ClosedText(es[1..]) + t);
      PastElement(es[0], ClosedText(es[1..]) + t);
      PastElements(es[1..], t);
    }
  }

  lemma OpenIsPast(ps: seq<Piece>, z: string)
    requires ArePieces(ps) && IsValue(z)
    ensures Past(OpenText(ps, z))
  {
    var open := ['"'] + z + ['\\'];
    assert OpenText(ps, z)[1..] == PiecesText(ps) + open;
    ThroughPieces(ps, open);
    OpenIsScanned(z);
  }

  lemma OpenIsScanned(z: string)
    requires IsValue(z)
    ensures Scan(['"'] + z + ['\\'], false) == |z| + 3
  {
    assert (['"'] + z + ['\\'])[1..] == z + ['\\'];
    ThroughWritten(z, ['\\']);
  }

  // ---------- And only text of the form does ----------

  /** z is what t holds up to its closing quote, at j, or else to the end. */
  ghost predicate ReadsAs(t: string, z: string, j: nat) {
    && IsValue(z) && j <= |t|
    && (j < |t| ==> t[j] == '"' && t[..j] == z && Scan(t, true) == j + 1 + Scan(t[j + 1..], false))
    && (j == |t| ==> Scan(t, true) >= |t| && (Scan(t, true) > |t| ==> t == z + ['\\']))
  }

  lemma {:induction false} ReadValue(t: string) returns (z: string, j: nat)
    ensures ReadsAs(t, z, j)
  {
    z, j := [], 0;
    if t == ['\\'] {
      j := 1;
    } else if t != [] && t[0] != '"' {
      var n := if t[0] == '\\' then 2 else 1;
      z, j := ReadValue(t[n..]);
      ValueGrows(t[..n], t[n..], z, j);
      assert t == t[..n] + t[n..];
      z, j := t[..n] + z, n + j;
    } else {
      assert t != [] ==> Scan(t, true) == 1 + Scan(t[1..], false);
    }
  }

  lemma ValueGrows(head: string, t: string, z: string, j: nat)
    requires (|head| == 1 && head[0] != '"' && head[0] != '\\') || (|head| == 2 && head[0] == '\\')
    requires ReadsAs(t, z, j)
    ensures ReadsAs(head + t, head + z, |head| + j)
  {
    var s, w := head + t, head + z;
    assert s[|head|..] == t && w[|head|..] == z;
    assert Scan(s, true) == |head| + Scan(t, true);
    if j < |t| {
      TakeAfter(head, t, j);
      assert s[|head| + j + 1..] == t[j + 1..];
    }
  }

  lemma TakeAfter(head: string, t: string, n: nat)
    requires n <= |t|
    ensures (head + t)[..|head| + n] == head + t[..n]
  {}

  /** ps is what t holds up to the closing bracket, or else up to the value z left open. */
  ghost predicate Holds(t: string, ps: seq<Piece>, z: string) {
    && ArePieces(ps) && IsValue(z)
    && (Scan(t, false) < |t| ==> t[..Scan(t, false)] == PiecesText(ps))
    && (Scan(t, false) > |t| ==> t == PiecesText(ps) + (['"'] + z + ['\\']))
  }

  lemma {:induction false} ReadPieces(t: string) returns (ps: seq<Piece>, z: string)
    ensures Holds(t, ps, z)
  {
    ps, z := [], [];
    if t != [] && t[0] == '"' {
      var value, j := ReadValue(t[1..]);
      QuoteSplits(t, value, j);
      if j < |t| - 1 {
        var rest;
        rest, z := ReadPieces(t[j + 2..]);
        PieceFirst(Quoted(value), t[j + 2..], rest, z);
        ps := [Quoted(value)] + rest;
      } else {
        z := value;
      }
    } else if t != [] && t[0] != ']' {
      var rest;
      rest, z := ReadPieces(t[1..]);
      assert t == PieceText(Plain(t[0])) + t[1..];
      PieceFirst(Plain(t[0]), t[1..], rest, z);
      ps := [Plain(t[0])] + rest;
    }
  }

  lemma QuoteSplits(t: string, value: string, j: nat)
    requires t != [] && t[0] == '"' && ReadsAs(t[1..], value, j)
    ensures j < |t| - 1 ==> t == PieceText(Quoted(value)) + t[j + 2..]
    ensures j == |t| - 1 ==> Holds(t, [], value)
  {
    if j < |t| - 1 {
      assert t == ['"'] + t[1..][..j] + ['"'] + t[j + 2..];
    } else if Scan(t, false) > |t| {
      assert t == "" + (['"'] + value + ['\\']);
    }
  }

  lemma PieceFirst(p: Piece, t: string, rest: seq<Piece>, z: string)
    requires IsPiece(p) && Holds(t, rest, z)
    ensures Holds(PieceText(p) + t, [p] + rest, z)
  {
    ThroughPiece(p, t);
    assert ([p] + rest)[1..] == rest && PiecesText([p] + rest) == PieceText(p) + PiecesText(rest);
    if Scan(t, false) < |t| {
      TakeAfter(PieceText(p), t, Scan(t, false));
    } else if Scan(t, false) > |t| {
      Regrouped(PieceText(p), PiecesText(rest), ['"'] + z + ['\\']);
    }
  }

  lemma Regrouped(a: string, b: string, c: string)
    ensures a + (b + c) == a + b + c
  {}

  lemma {:induction false} ReadElements(t: string) returns (es: seq<seq<Piece>>, ps: seq<Piece>, z: string)
    requires Past(t)
    ensures AreElements(es) && ArePieces(ps) && IsValue(z) && t == ClosedText(es) + OpenText(ps, z)
  {
    var n := Scan(t[1..], false);
    var first, open := ReadPieces(t[1..]);
    if n > |t| - 1 {
      es, ps, z := [], first, open;
      OnlyOpen(t, ps, z);
    } else {
      FirstCloses(t, first, open);
      var more;
      more, ps, z := ReadElements(t[n + 2..]);
      es := [first] + more;
      ElementFirst(first, more, OpenText(ps, z));
    }
  }

  lemma OnlyOpen(t: string, ps: seq<Piece>, z: string)
    requires t != [] && t[0] == '[' && Holds(t[1..], ps, z) && Scan(t[1..], false) > |t| - 1
    ensures t == ClosedText([]) + OpenText(ps, z)
  {
    assert t == "[" + t[1..];
    Regrouped("[", PiecesText(ps), ['"'] + z + ['\\']);
  }

  lemma FirstCloses(t: string, ps: seq<Piece>, z: string)
    requires t != [] && t[0] == '[' && Holds(t[1..], ps, z) && Scan(t[1..], false) < |t| - 1
    ensures t == "[" + PiecesText(ps) + "]" + t[Scan(t[1..], false) + 2..]
  {
    ClosesAt(t[1..]);
    SplitAround(t, Scan(t[1..], false));
  }

  lemma SplitAround(t: string, n: nat)
    requires n + 1 < |t| && t[0] == '[' && t[n + 1] == ']'
    ensures t == "[" + t[1..][..n] + "]" + t[n + 2..]
  {}

  lemma ElementFirst(first: seq<Piece>, more: seq<seq<Piece>>, rest: string)
    ensures ClosedText([first] + more) + rest == "[" + PiecesText(first) + "]" + (ClosedText(more) + rest)
  {
    assert ([first] + more)[1..] == more;
    Regrouped("[" + PiecesText(first) + "]", ClosedText(more), rest);
  }

  lemma {:induction false} ClosesAt(t: string)
    ensures Scan(t, false) < |t| ==> t[Scan(t, false)] == ']'
  {
    ScanIs(t, 0, false);
    assert t[0..] == t;
  }

  /** Structured data runs past the end if and only if it is closed elements and one left open by a lone backslash. */
  lemma DataOverrunsExactly(data: string)
    ensures DataOverruns(data) <==> LeftOpen(data)
  {
    PastIs(data, 0, data);
    if Past(data) {
      var es, ps, z := ReadElements(data);
    }
    if LeftOpen(data) {
      var es, ps, z :| AreElements(es) && ArePieces(ps) && IsValue(z) && data == ClosedText(es) + OpenText(ps, z);
      PastElements(es, OpenText(ps, z));
      OpenIsPast(ps, z);
    }
  }

  // ---------- The whole line ----------

  lemma {:induction false} FieldsAre(s: string, n: nat)
    requires Fields(s, n).Some?
    ensures var (fs, rest) := Fields(s, n).value;
            |fs| == n && (forall i :: 0 <= i < n ==> IsField(fs[i])) && s == RenderFields(fs) + rest
  {
    if n > 0 {
      FieldsAre(s, n - 1);
      var (before, rest) := Fields(s, n - 1).value;
      var (f, more) := Cut(rest).value;
      CutIs(rest);
      FieldLast(before, f, more);
    }
  }

  lemma CutIs(s: string)
    requires Cut(s).Some?
    ensures IsField(Cut(s).value.0) && s == Cut(s).value.0 + " " + Cut(s).value.1
  {}

  lemma FieldLast(before: seq<string>, f: string, more: string)
    ensures RenderFields(before) + (f + " " + more) == RenderFields(before + [f]) + more
  {
    assert (before + [f])[..|before|] == before;
  }

  lemma PRIRead(line: string) returns (pri: string)
    requires ParsePRI(line).Some?
    ensures 1 <= |pri| <= 3 && Atoi(pri) == Some(ParsePRI(line).value.0) && 0 <= ParsePRI(line).value.0 <= 191
    ensures line == "<" + pri + ">" + ParsePRI(line).value.1
  {
    var end := IndexOf(line, '>');
    pri := line[1..end];
    assert line == "<" + pri + ">" + line[end + 1..];
  }

  lemma HeaderLeftOpen(dates: Dates, s: string, fields: seq<string>, data: string)
    requires |fields| == 5 && (forall i :: 0 <= i < 5 ==> IsField(fields[i])) && (fields[0] == "-" || dates.rfc3339(fields[0]).Some?)
    requires s == RenderFields(fields) + data
    ensures HeaderOverruns(dates, s) <==> DataOverruns(data)
  {
    assert fields[..5] == fields;
    FieldsRead(fields, 5, data);
  }

  lemma {:induction false} PastIsNotClosed(s: string, i: nat)
    requires i <= |s| && RunsPast(s, i)
    ensures ElementsEnd(s, i) == None
    decreases |s| - i
  {
    var end := ElementEnd(s, i + 1, false);
    if end < |s| {
      PastIsNotClosed(s, end + 1);
    }
  }

  /** Such a line should be read as one with no header of the modern kind. */
  lemma OverrunHasNoHeader(dates: Dates, s: string)
    requires HeaderOverruns(dates, s)
    ensures Header(dates, s) == None
  {
    PastIsNotClosed(Fields(s, 5).value.1, 0);
  }

  /**
   * Reading a line indexes out of range if and only if the line, less its line
   * ending, is a priority, the version, five fields and structured data that a
   * lone backslash leaves open.
   */
  lemma LineOverrunsExactly(dates: Dates, text: string)
    ensures LineOverruns(dates, text) <==> LineLeftOpen(dates, TrimEnd(text))
  {
    if LineOverruns(dates, text) {
      OverrunIsLeftOpen(dates, TrimEnd(text));
    }
    if LineLeftOpen(dates, TrimEnd(text)) {
      LeftOpenOverruns(dates, text);
    }
  }

  lemma OverrunIsLeftOpen(dates: Dates, line: string)
    requires ParsePRI(line).Some? && "1 " <= ParsePRI(line).value.1 && HeaderOverruns(dates, ParsePRI(line).value.1[2..])
    ensures LineLeftOpen(dates, line)
  {
    var pri := PRIRead(line);
    var rest := ParsePRI(line).value.1;
    var header := rest[2..];
    FieldsAre(header, 5);
    var (fields, data) := Fields(header, 5).value;
    DataOverrunsExactly(data);
    assert rest == "1 " + header;
    LineGroups(pri, RenderFields(fields), data);
    assert IsHeader(dates, pri, fields) && LeftOpen(data);
  }

  lemma LineGroups(pri: string, fields: string, data: string)
    ensures "<" + pri + ">" + ("1 " + fields) + data == "<" + pri + ">" + ("1 " + (fields + data))
  {}

  lemma LeftOpenOverruns(dates: Dates, text: string)
    requires LineLeftOpen(dates, TrimEnd(text))
    ensures LineOverruns(dates, text)
  {
    var pri, fields, data :| IsHeader(dates, pri, fields) && LeftOpen(data) && TrimEnd(text) == HeaderText(pri, fields) + data;
    LineGroups(pri, RenderFields(fields), data);
    DataOverrunsExactly(data);
    HeaderLineOverruns(dates, text, pri, fields, data);
  }

  lemma HeaderLineOverruns(dates: Dates, text: string, pri: string, fields: seq<string>, data: string)
    requires IsHeader(dates, pri, fields) && DataOverruns(data)
    requires TrimEnd(text) == "<" + pri + ">" + ("1 " + (RenderFields(fields) + data))
    ensures LineOverruns(dates, text)
  {
    var header := RenderFields(fields) + data;
    PRIWritten(pri, "1 " + header);
    assert ("1 " + header)[2..] == header;
    HeaderLeftOpen(dates, header, fields, data);
  }

  // ---------- An example ----------

  const DASHES: seq<string> := ["-", "-", "-", "-", "-"]

  lemma ZeroReads()
    ensures Atoi("0") == Some(0)
  {
    DecimalReads(0);
    assert Decimal(0) == "0";
  }

  /** `<0>1 - - - - - ["\`: reading it indexes out of range, where all after the priority should be its body. */
  lemma OverrunExample(dates: Dates)
    ensures var line := HeaderText("0", DASHES) + OpenText([], []);
            LineOverruns(dates, line) && ParseSyslog(dates, line) == Message(Some(0), None, "", "", line[3..])
  {
    var data := OpenText([], []);
    var header := "1 " + RenderFields(DASHES);
    var line := HeaderText("0", DASHES) + data;
    ZeroReads();
    assert data[|data| - 1] == '\\' && line[|line| - 1] == data[|data| - 1] && TrimEnd(line) == line;
    assert data == ClosedText([]) + OpenText([], []);
    assert LeftOpen(data);
    assert IsHeader(dates, "0", DASHES);
    LineOverrunsExactly(dates, line);
    LineGroups("0", RenderFields(DASHES), data);
    PRIWritten("0", "1 " + (RenderFields(DASHES) + data));
    OverrunHasNoHeader(dates, line[3..][2..]);
    assert line[3..] == "1 " + (RenderFields(DASHES) + data);
    DashesLength();
  }

  lemma DashesLength()
    ensures |RenderFields(DASHES)| == 10
  {
    RenderedLength(DASHES);
  }

  lemma {:induction false} RenderedLength(fs: seq<string>)
    requires forall i :: 0 <= i < |fs| ==> |fs[i]| == 1
    ensures |RenderFields(fs)| == 2 * |fs|
  {
    if fs != [] {
      RenderedLength(fs[..|fs| - 1]);
    }
  }
}
