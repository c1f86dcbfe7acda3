/** backend/internal/api/ingest.go: reading a body line by line through a buffer of fixed size. */
module Reading {
  import opened Wrappers

  newtype byte = b: int | 0 <= b < 256

  type Bytes = seq<byte>

  const LF: byte := 10
  const CR: byte := 13

  /** What each line that is not blank is reported as: its number, and its trimmed record, or None if it is too long. */
  datatype Call = Call(index: nat, record: Option<Bytes>)

  /** The library's TrimSpace, and the most bytes a record may have. */
  datatype Rules = Rules(trim: Bytes -> Bytes, limit: nat)

  // ---------- Splitting on newlines ----------

  /** Where the first newline is, or the length. */
  function Newline(s: Bytes): (n: nat)
    ensures n <= |s|
  {
    NewlineFrom(s, 0)
  }

  function NewlineFrom(s: Bytes, i: nat): (n: nat)
    requires i <= |s|
    ensures i <= n <= |s|
    decreases |s| - i
  {
    if i == |s| || s[i] == LF then i else NewlineFrom(s, i + 1)
  }

  lemma {:induction false} NewlineIs(s: Bytes, i: nat)
    requires i <= |s|
    ensures NewlineFrom(s, i) < |s| ==> s[NewlineFrom(s, i)] == LF
    ensures forall k :: i <= k < NewlineFrom(s, i) ==> s[k] != LF
    decreases |s| - i
  {
    if i < |s| && s[i] != LF {
      NewlineIs(s, i + 1);
    }
  }

  /** The lines of s, without their newlines. There is always one, which is empty if s ends in a newline. */
  function Lines(s: Bytes): (lines: seq<Bytes>)
    ensures lines != []
    decreases |s|
  {
    var n := Newline(s);
    if n == |s| then [s] else [s[..n]] + Lines(s[n + 1..])
  }

  function TrimSuffix(s: Bytes, b: byte): Bytes {
    if s != [] && s[|s| - 1] == b then s[..|s| - 1] else s
  }

  /** How a line is reported, if it is. */
  function Report(rules: Rules, index: nat, line: Bytes): seq<Call> {
    var content := TrimSuffix(line, CR);
    if |content| > rules.limit then [Call(index, None)]
    else if rules.trim(content) != [] then [Call(index, Some(rules.trim(content)))]
    else []
  }

  /** How lines are reported, numbered from index. */
  function ReportAll(rules: Rules, index: nat, lines: seq<Bytes>): seq<Call>
    decreases |lines|
  {
    if lines == [] then [] else Report(rules, index, lines[0]) + ReportAll(rules, index + 1, lines[1..])
  }

  /** A body that cannot be read to its end loses the line the failure cut short. */
  function Whole(lines: seq<Bytes>, fails: bool): seq<Bytes>
    requires lines != []
  {
    if fails then lines[..|lines| - 1] else lines
  }

  function Calls(rules: Rules, index: nat, body: Bytes, fails: bool): seq<Call> {
    ReportAll(rules, index, Whole(Lines(body), fails))
  }

  // ---------- A buffered reader ----------

  datatype ReadError = BufferFull | EndOfFile | Broken

  class Reader {
    const body: Bytes
    const size: nat
    const fails: bool
    var pos: nat

    constructor (body: Bytes, size: nat, fails: bool)
      ensures this.body == body && this.size == size && this.fails == fails && pos == 0
    {
      this.body, this.size, this.fails, pos := body, size, fails, 0;
    }

    ghost predicate Valid()
      reads this
    {
      pos <= |body| && 1 <= size
    }

    /**
     * Reads up to and including the next newline. If there is none in a whole
     * buffer, or before the end, it returns what there is with an error. A
     * buffer filled just by the end of the body may be either.
     */
    method ReadSlice() returns (line: Bytes, err: Option<ReadError>)
      requires Valid()
      modifies this`pos
      ensures Valid() && pos == old(pos) + |line| && line == body[old(pos)..pos]
      ensures var rest := body[old(pos)..];
              var n := Newline(rest);
              && (err.None? <==> n < size && n < |rest|)
              && (err.None? ==> |line| == n + 1)
              && (err == Some(BufferFull) ==> |line| == size <= n)
              && (err.Some? && err.value != BufferFull ==> |line| == |rest| == n && pos == |body| && (err.value == Broken <==> fails))
    {
      var rest := body[pos..];
      var n := Newline(rest);
      if n < size && n < |rest| {
        line, err := rest[..n + 1], None;
      } else if |rest| < size {
        line, err := rest, Some(if fails then Broken else EndOfFile);
      } else {
        line, err := rest[..size], Some(BufferFull);
        if |rest| == size {
          var endSeen: bool := *;
          if endSeen {
            err := Some(if fails then Broken else EndOfFile);
          }
        }
      }
      pos := pos + |line|;
    }
  }

  // ---------- The source's own form ----------

  /** Reports each line of the reader's body; false if the body could not be read to its end. */
  method EachRecord(rules: Rules, r: Reader) returns (calls: seq<Call>, ok: bool)
    requires r.Valid() && r.pos == 0 && r.size == rules.limit + 2
    modifies r`pos
    ensures calls == Calls(rules, 0, r.body, r.fails) && ok == !r.fails
  {
    calls := [];
    var index := 0;
    var err: Option<ReadError> := None;
    assert r.body[0..] == r.body;
    ghost var rest := r.body;
    while err.None?
      invariant r.Valid() && rest == r.body[r.pos..]
      invariant calls + (if err.None? then Calls(rules, index, rest, r.fails) else []) == Calls(rules, 0, r.body, r.fails)
      invariant err.Some? ==> (err.value == Broken <==> r.fails)
      decreases |r.body| - r.pos, if err.None? then 1 else 0
    {
      ghost var before := calls;
      var some;
      some, err := NextRecord(rules, r, index);
      calls := calls + some;
      ghost var left := if err.None? then Calls(rules, index + 1, r.body[r.pos..], r.fails) else [];
      assert before + (some + left) == before + some + left;
      rest := r.body[r.pos..];
      index := index + 1;
    }
    assert calls + [] == calls;
    ok := err.value != Broken;
  }

  /** Reads a line and reports it, unless the body cannot be read to its end. */
  method NextRecord(rules: Rules, r: Reader, index: nat) returns (some: seq<Call>, err: Option<ReadError>)
    requires r.Valid() && r.size == rules.limit + 2
    modifies r`pos
    ensures r.Valid() && old(r.pos) <= r.pos && (err.None? ==> old(r.pos) < r.pos)
    ensures Calls(rules, index, r.body[old(r.pos)..], r.fails) ==
            some + if err.None? then Calls(rules, index + 1, r.body[r.pos..], r.fails) else []
    ensures err.Some? ==> (err.value == Broken <==> r.fails)
  {
    ghost var rest := r.body[r.pos..];
    var line, tooLong;
    line, err, tooLong := NextLine(r);
    FirstLine(rules, index, rest, r.fails);
    some := [];
    if err.Some? && err.value != EndOfFile {
      return;
    }
    some := ReportLine(rules, index, line, tooLong, rest);
    if err.None? {
      assert rest[Newline(rest) + 1..] == r.body[r.pos..];
    } else {
      assert some + [] == some;
    }
  }

  method ReportLine(rules: Rules, index: nat, read: Bytes, tooLong: bool, ghost rest: Bytes) returns (some: seq<Call>)
    requires tooLong ==> rules.limit + 2 <= Newline(rest)
    requires !tooLong ==> read == rest[..if Newline(rest) < |rest| then Newline(rest) + 1 else Newline(rest)]
    ensures some == Report(rules, index, rest[..Newline(rest)])
  {
    Reporting(rules, index, rest, read, tooLong);
    var line := TrimSuffix(TrimSuffix(read, LF), CR);
    var record := rules.trim(line);
    if tooLong || |line| > rules.limit {
      return [Call(index, None)];
    } else if |record| > 0 {
      return [Call(index, Some(record))];
    }
    return [];
  }

  /** One turn's reading: the line, or the first buffer of it if it is too long, and past its end. */
  method NextLine(r: Reader) returns (line: Bytes, err: Option<ReadError>, tooLong: bool)
    requires r.Valid()
    modifies r`pos
    ensures r.Valid()
    ensures var rest := r.body[old(r.pos)..];
            var n := Newline(rest);
            && (err.None? <==> n < |rest|)
            && (err.None? ==> r.pos == old(r.pos) + n + 1)
            && (err.Some? ==> r.pos == |r.body| && err.value != BufferFull && (err.value == Broken <==> r.fails))
            && (tooLong ==> r.size <= n)
            && (!tooLong ==> line == rest[..if err.None? then n + 1 else n])
  {
    line, err := r.ReadSlice();
    tooLong := false;
    ghost var rest := r.body[old(r.pos)..];
    ghost var n := Newline(rest);
    while err == Some(BufferFull)
      invariant r.Valid() && old(r.pos) <= r.pos
      invariant err == Some(BufferFull) ==> r.pos <= old(r.pos) + n && r.size <= n
      invariant err.None? ==> n < |rest| && r.pos == old(r.pos) + n + 1
      invariant err.Some? && err.value != BufferFull ==> n == |rest| && r.pos == |r.body| && (err.value == Broken <==> r.fails)
      invariant tooLong ==> r.size <= n
      invariant !tooLong ==> line == r.body[old(r.pos)..r.pos] && (err == Some(BufferFull) ==> r.size <= n)
      decreases |r.body| - r.pos, if err == Some(BufferFull) then 1 else 0
    {
      tooLong := true;
      ghost var at := r.pos;
      SameNewline(r.body, old(r.pos), at);
      var _, next := r.ReadSlice();
      err := next;
    }
  }

  lemma SameNewline(body: Bytes, from: nat, at: nat)
    requires from <= at <= |body| && at <= from + Newline(body[from..])
    ensures at + Newline(body[at..]) == from + Newline(body[from..])
  {
    var n, m := Newline(body[from..]), Newline(body[at..]);
    NewlineIs(body[from..], 0);
    NewlineIs(body[at..], 0);
    if at + m < |body| {
      assert body[at..][m] == body[from..][at - from + m];
    }
    if from + n < |body| {
      assert body[at..][from + n - at] == body[from..][n];
    }
  }

  lemma WholeAfter(line: Bytes, lines: seq<Bytes>, fails: bool)
    requires lines != []
    ensures Whole([line] + lines, fails) == [line] + Whole(lines, fails)
  {}

  lemma ReportFirst(rules: Rules, index: nat, line: Bytes, lines: seq<Bytes>)
    ensures ReportAll(rules, index, [line] + lines) == Report(rules, index, line) + ReportAll(rules, index + 1, lines)
    ensures ReportAll(rules, index, [line]) == Report(rules, index, line)
  {
    assert ([line] + lines)[1..] == lines && [line][1..] == [];
    assert Report(rules, index, line) + [] == Report(rules, index, line);
  }

  lemma FirstOfLines(rest: Bytes)
    ensures var n := Newline(rest);
            if n < |rest| then Lines(rest) == [rest[..n]] + Lines(rest[n + 1..]) else Lines(rest) == [rest[..n]]
  {
    assert Newline(rest) == |rest| ==> rest[..Newline(rest)] == rest;
  }

  /** What a body reports starts with its first line, if that ends. */
  lemma FirstLine(rules: Rules, index: nat, rest: Bytes, fails: bool)
    ensures var n := Newline(rest);
            Calls(rules, index, rest, fails) ==
              if n < |rest| then Report(rules, index, rest[..n]) + Calls(rules, index + 1, rest[n + 1..], fails)
              else if fails then [] else Report(rules, index, rest[..n])
  {
    var n := Newline(rest);
    FirstOfLines(rest);
    if n < |rest| {
      var lines := Lines(rest[n + 1..]);
      WholeAfter(rest[..n], lines, fails);
      ReportFirst(rules, index, rest[..n], Whole(lines, fails));
    } else {
      ReportFirst(rules, index, rest[..n], []);
      assert [rest[..n]][..0] == [];
    }
  }

  /** The line read is reported as the whole line is, though only a buffer of a long one was kept. */
  lemma Reporting(rules: Rules, index: nat, rest: Bytes, line: Bytes, tooLong: bool)
    requires tooLong ==> rules.limit + 2 <= Newline(rest)
    requires !tooLong ==> line == rest[..if Newline(rest) < |rest| then Newline(rest) + 1 else Newline(rest)]
    ensures var content := TrimSuffix(TrimSuffix(line, LF), CR);
            Report(rules, index, rest[..Newline(rest)]) ==
              if tooLong || |content| > rules.limit then [Call(index, None)]
              else if |rules.trim(content)| > 0 then [Call(index, Some(rules.trim(content)))]
              else []
  {
    var n := Newline(rest);
    NewlineIs(rest, 0);
    if !tooLong {
      assert n < |rest| ==> line[..n] == rest[..n];
      assert TrimSuffix(line, LF) == rest[..n];
    }
  }

  // ---------- What splitting is ----------

  function Joined(lines: seq<Bytes>): Bytes
    requires lines != []
  {
    if |lines| == 1 then lines[0] else lines[0] + [LF] + Joined(lines[1..])
  }

  /** Lines hold no newlines, and joined by newlines they are the text they came from. */
  lemma {:induction false} LinesAre(s: Bytes)
    ensures Joined(Lines(s)) == s
    ensures forall k :: 0 <= k < |Lines(s)| ==> LF !in Lines(s)[k]
    decreases |s|
  {
    var n := Newline(s);
    NewlineIs(s, 0);
    if n < |s| {
      LinesAre(s[n + 1..]);
      JoinedFirst(s[..n], Lines(s[n + 1..]));
      SplitAt(s, n);
    }
  }

  lemma JoinedFirst(line: Bytes, lines: seq<Bytes>)
    requires lines != []
    ensures Joined([line] + lines) == line + [LF] + Joined(lines)
    ensures forall k :: 0 <= k < |[line] + lines| ==> ([line] + lines)[k] == if k == 0 then line else lines[k - 1]
  {
    assert ([line] + lines)[1..] == lines;
  }

  lemma SplitAt(s: Bytes, n: nat)
    requires n < |s| && s[n] == LF
    ensures s == s[..n] + [LF] + s[n + 1..]
  {}
}
