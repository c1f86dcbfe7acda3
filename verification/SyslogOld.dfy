/** Exactly which text has a header of the older kind (RFC 3164), and what is read from it. */
module SyslogOld {
  import opened Wrappers
  import opened Syslog
  import opened SyslogLaws

  // ---------- Runs of characters ----------

  lemma {:induction false} RunIs(s: string, from: nat, n: nat, accepts: char -> bool)
    requires from + n <= |s| && (forall i :: from <= i < from + n ==> accepts(s[i])) && (from + n < |s| ==> !accepts(s[from + n]))
    ensures Run(s, from, accepts) == n
    decreases n
  {
    if n > 0 {
      RunIs(s, from + 1, n - 1, accepts);
    }
  }

  lemma {:induction false} RunStops(s: string, from: nat, end: nat, accepts: char -> bool)
    requires from <= end < |s| && !accepts(s[end])
    ensures from + Run(s, from, accepts) <= end
    decreases end - from
  {
    if from < end && accepts(s[from]) {
      RunStops(s, from + 1, end, accepts);
    }
  }

  // ---------- Tags ----------

  predicate IsAppChar(c: char) {
    'a' <= c <= 'z' || 'A' <= c <= 'Z' || '0' <= c <= '9' || c == '_' || c == '.' || c == '/' || c == '-'
  }

  predicate IsApp(app: string) {
    1 <= |app| <= 48 && forall i :: 0 <= i < |app| ==> IsAppChar(app[i])
  }

  /** A process id is of digits, and may be left out. */
  predicate IsPid(pid: string) {
    forall i :: 0 <= i < |pid| ==> '0' <= pid[i] <= '9'
  }

  function TagText(app: string, pid: string): string {
    app + (if pid == "" then "" else "[" + pid + "]") + ":"
  }

  /** What may follow: nothing, or a blank and a message. */
  predicate Follows(tail: string) {
    tail == "" || tail[0] == ' '
  }

  function Told(tail: string): string {
    if tail == "" then "" else tail[1..]
  }

  ghost predicate TaggedBy(u: string, app: string, msg: string, pid: string, tail: string) {
    IsApp(app) && IsPid(pid) && Follows(tail) && u == TagText(app, pid) + tail && msg == Told(tail)
  }

  /** u is a tag, with or without a process id, and what follows it. */
  ghost predicate Tagged(u: string, app: string, msg: string) {
    exists pid, tail :: TaggedBy(u, app, msg, pid, tail)
  }

  ghost predicate HasTag(u: string) {
    exists app, msg :: Tagged(u, app, msg)
  }

  lemma PlainTagAt(u: string, a: nat)
    requires 1 <= a <= 48 && a < |u| && u[a] == ':' && EndsField(u, a + 1) && forall i :: 0 <= i < a ==> IsAppChar(u[i])
    ensures Tag(u) == Some((a, if a + 1 == |u| then a + 1 else a + 2))
  {
    RunIs(u, 0, a, TagChar);
  }

  lemma PidTagAt(u: string, a: nat, p: nat)
    requires 1 <= a <= 48 && 1 <= p && a + p + 2 < |u| && forall i :: 0 <= i < a ==> IsAppChar(u[i])
    requires u[a] == '[' && (forall i :: a + 1 <= i < a + 1 + p ==> '0' <= u[i] <= '9') && u[a + 1 + p] == ']' && u[a + 2 + p] == ':'
    requires EndsField(u, a + p + 3)
    ensures Tag(u) == Some((a, if a + p + 3 == |u| then a + p + 3 else a + p + 4))
  {
    RunIs(u, 0, a, TagChar);
    RunIs(u, a + 1, p, IsDigit);
  }

  lemma Second(a: string, b: string)
    ensures forall i :: |a| <= i < |a + b| ==> (a + b)[i] == b[i - |a|]
    ensures forall i :: 0 <= i < |a| ==> (a + b)[i] == a[i]
    ensures (a + b)[..|a|] == a && (a + b)[|a|..] == b
  {}

  lemma TailTold(first: string, tail: string)
    requires Follows(tail)
    ensures var u, n := first + tail, |first|; EndsField(u, n) && u[if n == |u| then n else n + 1..] == Told(tail)
  {
    Second(first, tail);
    if tail != "" {
      assert (first + tail)[|first| + 1..] == tail[1..];
    }
  }

  lemma TagReads(u: string, app: string, msg: string, pid: string, tail: string)
    requires TaggedBy(u, app, msg, pid, tail)
    ensures var tag := Tag(u); tag.Some? && u[..tag.value.0] == app && u[tag.value.1..] == msg
  {
    var text := TagText(app, pid);
    TailTold(text, tail);
    Second(text, tail);
    TextIs(app, pid);
    assert u[..|app|] == app by {
      assert text[..|app|] == app;
    }
    if pid == "" {
      PlainTagAt(u, |app|);
    } else {
      PidTagAt(u, |app|, |pid|);
    }
  }

  lemma TextIs(app: string, pid: string)
    ensures var text := TagText(app, pid);
            && |text| == |app| + (if pid == "" then 1 else |pid| + 3) && text[..|app|] == app
            && (forall i :: 0 <= i < |app| ==> text[i] == app[i])
            && (if pid == "" then text[|app|] == ':'
                else
                  && text[|app|] == '[' && text[|app| + 1 + |pid|] == ']' && text[|app| + 2 + |pid|] == ':'
                  && forall i :: |app| + 1 <= i < |app| + 1 + |pid| ==> text[i] == pid[i - |app| - 1])
  {
    if pid == "" {
      Second(app, ":");
    } else {
      Second("[" + pid, "]" + ":");
      Second("[", pid);
      Second(app, "[" + pid + ("]" + ":"));
      assert TagText(app, pid) == app + ("[" + pid + ("]" + ":"));
    }
  }

  lemma {:induction false} RunIsOf(s: string, from: nat, accepts: char -> bool)
    requires from <= |s|
    ensures var n := Run(s, from, accepts);
            && (forall i :: from <= i < from + n ==> accepts(s[i])) && (from + n < |s| ==> !accepts(s[from + n]))
    decreases |s| - from
  {
    if from < |s| && accepts(s[from]) {
      RunIsOf(s, from + 1, accepts);
    }
  }

  lemma AppRun(u: string)
    ensures forall i :: 0 <= i < Run(u, 0, TagChar) ==> IsAppChar(u[i])
  {
    RunIsOf(u, 0, TagChar);
  }

  lemma PidRun(u: string, a: nat)
    requires a < |u|
    ensures forall i :: a + 1 <= i < a + 1 + Run(u, a + 1, IsDigit) ==> '0' <= u[i] <= '9'
  {
    RunIsOf(u, a + 1, IsDigit);
  }

  lemma ToldFrom(u: string, n: nat)
    requires n <= |u| && EndsField(u, n)
    ensures Told(u[n..]) == u[if n == |u| then n else n + 1..]
  {}

  lemma PlainTag(u: string, a: nat)
    requires 1 <= a <= 48 && a < |u| && u[a] == ':' && EndsField(u, a + 1) && forall i :: 0 <= i < a ==> IsAppChar(u[i])
    ensures Tagged(u, u[..a], u[if a + 1 == |u| then a + 1 else a + 2..])
  {
    ToldFrom(u, a + 1);
    assert u == u[..a] + "" + ":" + u[a + 1..];
    assert TaggedBy(u, u[..a], Told(u[a + 1..]), "", u[a + 1..]);
  }

  lemma PidTag(u: string, a: nat, p: nat)
    requires 1 <= a <= 48 && 1 <= p && a + p + 2 < |u| && forall i :: 0 <= i < a ==> IsAppChar(u[i])
    requires u[a] == '[' && (forall i :: a + 1 <= i < a + 1 + p ==> '0' <= u[i] <= '9') && u[a + 1 + p] == ']' && u[a + 2 + p] == ':'
    requires EndsField(u, a + p + 3)
    ensures Tagged(u, u[..a], u[if a + p + 3 == |u| then a + p + 3 else a + p + 4..])
  {
    ToldFrom(u, a + p + 3);
    PidTagBy(u, a, p);
  }

  lemma PidTagBy(u: string, a: nat, p: nat)
    requires 1 <= a <= 48 && 1 <= p && a + p + 2 < |u| && forall i :: 0 <= i < a ==> IsAppChar(u[i])
    requires u[a] == '[' && (forall i :: a + 1 <= i < a + 1 + p ==> '0' <= u[i] <= '9') && u[a + 1 + p] == ']' && u[a + 2 + p] == ':'
    requires EndsField(u, a + p + 3)
    ensures TaggedBy(u, u[..a], Told(u[a + p + 3..]), u[a + 1..a + 1 + p], u[a + p + 3..])
  {
    var pid := u[a + 1..a + 1 + p];
    assert forall i :: 0 <= i < |pid| ==> pid[i] == u[a + 1 + i];
    assert u == u[..a] + ("[" + pid + "]") + ":" + u[a + p + 3..];
  }

  lemma TagIs(u: string)
    requires Tag(u).Some?
    ensures Tagged(u, u[..Tag(u).value.0], u[Tag(u).value.1..])
  {
    var app := Run(u, 0, TagChar);
    AppRun(u);
    if app < |u| && u[app] == '[' {
      var digits := Run(u, app + 1, IsDigit);
      PidRun(u, app);
      PidTag(u, app, digits);
    } else {
      PlainTag(u, app);
    }
  }

  /** A tag is read just where there is one, and as it is written. */
  lemma TagExactly(u: string, app: string, msg: string)
    ensures Tagged(u, app, msg) <==> Tag(u).Some? && u[..Tag(u).value.0] == app && u[Tag(u).value.1..] == msg
  {
    if Tag(u).Some? {
      TagIs(u);
    }
    if Tagged(u, app, msg) {
      var pid, tail :| TaggedBy(u, app, msg, pid, tail);
      TagReads(u, app, msg, pid, tail);
    }
  }

  lemma HasTagExactly(u: string)
    ensures HasTag(u) <==> Tag(u).Some?
  {
    if Tag(u).Some? {
      TagIs(u);
    }
    if app, msg :| Tagged(u, app, msg) {
      TagExactly(u, app, msg);
    }
  }

  // ---------- The header ----------

  /** host is t up to its first blank, and u what comes after it; or there is no blank. */
  predicate Split(t: string, host: string, u: string) {
    ' ' !in host && (t == host + " " + u || (t == host && u == ""))
  }

  lemma SplitExactly(t: string, host: string, u: string)
    requires Tag(t).None?
    ensures HostOf(t) == (host, u) <==> Split(t, host, u)
  {
    if ' ' !in host && t == host + " " + u {
      CutsField(host, u);
    }
    if Cut(t).Some? {
      assert t == Cut(t).value.0 + " " + Cut(t).value.1;
    }
  }

  /** What is said: by whom, if it is tagged, and what. */
  ghost predicate Said(u: string, m: Message) {
    if HasTag(u) then Tagged(u, m.app, m.body) else m.app == "" && m.body == u
  }

  /** A time, a host and what is said; there is no host before a tag that follows the time at once. */
  ghost predicate OldText(dates: Dates, s: string, m: Message, stamp: string, t: string, u: string) {
    && |stamp| == 15 && dates.isStamp(stamp) && s == stamp + " " + t
    && (if HasTag(t) then m.host == "" && u == t else Split(t, m.host, u))
    && m.severity == None && m.time == None && Said(u, m)
  }

  ghost predicate IsOld(dates: Dates, s: string, m: Message) {
    exists stamp, t, u :: OldText(dates, s, m, stamp, t, u)
  }

  lemma SaidExactly(u: string, m: Message)
    ensures Said(u, m) <==>
            if Tag(u).Some? then m.app == u[..Tag(u).value.0] && m.body == u[Tag(u).value.1..] else m.app == "" && m.body == u
  {
    HasTagExactly(u);
    TagExactly(u, m.app, m.body);
  }

  lemma HostExactly(t: string, host: string, u: string)
    ensures HostOf(t) == (host, u) <==> if HasTag(t) then host == "" && u == t else Split(t, host, u)
  {
    HasTagExactly(t);
    if Tag(t).None? {
      SplitExactly(t, host, u);
    }
  }

  lemma StampSplits(s: string)
    requires 16 <= |s| && s[15] == ' '
    ensures s == s[..15] + " " + s[16..]
  {}

  lemma StampJoins(stamp: string, t: string)
    requires |stamp| == 15
    ensures var s := stamp + " " + t; 16 <= |s| && s[15] == ' ' && s[..15] == stamp && s[16..] == t
  {}

  /** There is a header of the older kind just where there is one, and it is read as it is written. Its time is not believed. */
  lemma OldExactly(dates: Dates, s: string, m: Message)
    ensures OldHeader(dates, s) == Some(m) <==> IsOld(dates, s, m)
  {
    if OldHeader(dates, s) == Some(m) {
      var t := s[16..];
      var (host, u) := HostOf(t);
      StampSplits(s);
      HostExactly(t, host, u);
      SaidExactly(u, m);
      assert OldText(dates, s, m, s[..15], t, u);
    }
    if stamp, t, u :| OldText(dates, s, m, stamp, t, u) {
      StampJoins(stamp, t);
      HostExactly(t, m.host, u);
      SaidExactly(u, m);
    }
  }
}
