/** backend/internal/api/ingest.go: collecting the outcome of each record in a request. */
module Batches {
  import opened Wrappers
  import Insert

  /** The most rejections a response reports; all are counted. */
  const MAX_REPORTED: nat := 100

  datatype Error = Error(code: string, message: string)

  datatype Rejection = Rejection(index: int, code: string, message: string)

  /** A record of the request: its number, and its rejection if it has one. */
  datatype Entry = Entry(index: int, rejection: Option<Rejection>)

  function RejectionFor(index: int, err: Error): Rejection {
    Rejection(index, err.code, err.message)
  }

  // ---------- A request's records ----------

  /** In request order, with each rejection naming its record. */
  ghost predicate IsLog(log: seq<Entry>) {
    && (forall i, j :: 0 <= i < j < |log| ==> log[i].index < log[j].index)
    && (forall i :: 0 <= i < |log| && log[i].rejection.Some? ==> log[i].rejection.value.index == log[i].index)
  }

  /** All rejections, in request order. */
  ghost function Rejections(log: seq<Entry>): seq<Rejection> {
    if log == [] then []
    else
      var last := log[|log| - 1].rejection;
      Rejections(log[..|log| - 1]) + if last.Some? then [last.value] else []
  }

  /** The numbers of the records not rejected. */
  ghost function Kept(log: seq<Entry>): seq<int> {
    if log == [] then []
    else Kept(log[..|log| - 1]) + if log[|log| - 1].rejection.None? then [log[|log| - 1].index] else []
  }

  function FirstOf<T>(s: seq<T>, n: nat): seq<T> {
    if |s| > n then s[..n] else s
  }

  // ---------- Counts by code ----------

  function CountCode(rs: seq<Rejection>, code: string): nat {
    if rs == [] then 0
    else CountCode(rs[..|rs| - 1], code) + if rs[|rs| - 1].code == code then 1 else 0
  }

  /** codes counts the rejections by code, and holds no zeros. */
  ghost predicate Counted(codes: map<string, nat>, rs: seq<Rejection>) {
    forall code :: (code in codes <==> CountCode(rs, code) > 0) && (code in codes ==> codes[code] == CountCode(rs, code))
  }

  ghost function Sum(codes: map<string, nat>): nat {
    if codes == map[] then 0
    else
      var code :| code in codes;
      codes[code] + Sum(codes - {code})
  }

  lemma {:induction false} SumWithout(codes: map<string, nat>, code: string)
    requires code in codes
    ensures Sum(codes) == codes[code] + Sum(codes - {code})
    decreases |codes|
  {
    var first :| first in codes && Sum(codes) == codes[first] + Sum(codes - {first});
    if first != code {
      SumWithout(codes - {first}, code);
      SumWithout(codes - {code}, first);
      assert codes - {first} - {code} == codes - {code} - {first};
    }
  }

  lemma CountAppends(rs: seq<Rejection>, r: Rejection, code: string)
    ensures CountCode(rs + [r], code) == CountCode(rs, code) + if r.code == code then 1 else 0
  {
    assert (rs + [r])[..|rs|] == rs;
  }

  /** The counts by code add up to the number of rejections. */
  lemma {:induction false} CountsAddUp(codes: map<string, nat>, rs: seq<Rejection>)
    requires Counted(codes, rs)
    ensures Sum(codes) == |rs|
    decreases |rs|
  {
    if rs == [] {
      assert codes == map[];
    } else {
      var before, code := rs[..|rs| - 1], rs[|rs| - 1].code;
      assert rs == before + [rs[|rs| - 1]];
      var fewer := if codes[code] == 1 then codes - {code} else codes[code := codes[code] - 1];
      CountsAddUp(fewer, before);
      SumWithout(codes, code);
      if codes[code] != 1 {
        SumWithout(fewer, code);
        assert fewer - {code} == codes - {code};
      }
    }
  }

  // ---------- The insert's refusals ----------

  /** The rejections the insert's refusals of the first n queued events are reported with. */
  ghost function Lates(lines: seq<int>, refused: seq<Option<Error>>, n: nat): seq<Rejection>
    requires n <= |lines| == |refused|
  {
    if n == 0 then []
    else Lates(lines, refused, n - 1) + if refused[n - 1].Some? then [RejectionFor(lines[n - 1], refused[n - 1].value)] else []
  }

  /** The log once the insert's refusals have joined it: each queued record refused is rejected. */
  ghost function Refusing(log: seq<Entry>, refused: seq<Option<Error>>): (r: seq<Entry>)
    requires |refused| == |Kept(log)|
    ensures |r| == |log| && forall i :: 0 <= i < |log| ==> r[i].index == log[i].index
    ensures forall i :: 0 <= i < |log| && log[i].rejection.Some? ==> r[i] == log[i]
    decreases |log|
  {
    if log == [] then []
    else
      var before, last := log[..|log| - 1], log[|log| - 1];
      if last.rejection.Some? then
        assert Kept(before) == Kept(log);
        Refusing(before, refused) + [last]
      else
        var n := |refused| - 1;
        Refusing(before, refused[..n])
        + [Entry(last.index, if refused[n].Some? then Some(RejectionFor(last.index, refused[n].value)) else None)]
  }

  lemma {:induction false} RefusingIsLog(log: seq<Entry>, refused: seq<Option<Error>>)
    requires IsLog(log) && |refused| == |Kept(log)|
    ensures IsLog(Refusing(log, refused))
    decreases |log|
  {
    if log != [] {
      var before, last := log[..|log| - 1], log[|log| - 1];
      if last.rejection.Some? {
        assert Kept(before) == Kept(log);
        RefusingIsLog(before, refused);
      } else {
        RefusingIsLog(before, refused[..|refused| - 1]);
      }
    }
  }

  lemma {:induction false} LatesOfPrefix(lines: seq<int>, refused: seq<Option<Error>>, m: nat, n: nat)
    requires n <= m <= |lines| == |refused|
    ensures Lates(lines[..m], refused[..m], n) == Lates(lines, refused, n)
    decreases n
  {
    if n > 0 {
      LatesOfPrefix(lines, refused, m, n - 1);
    }
  }

  /** Both lists' rejections, counted code by code. */
  ghost predicate Together(all: seq<Rejection>, early: seq<Rejection>, late: seq<Rejection>) {
    && |all| == |early| + |late|
    && (forall code :: CountCode(all, code) == CountCode(early, code) + CountCode(late, code))
    && (forall r :: r in all <==> r in early || r in late)
  }

  lemma TogetherGrows(all: seq<Rejection>, early: seq<Rejection>, late: seq<Rejection>, r: Rejection)
    requires Together(all, early, late)
    ensures Together(all + [r], early + [r], late) && Together(all + [r], early, late + [r])
  {
    forall code
      ensures CountCode(all + [r], code) == CountCode(all, code) + if r.code == code then 1 else 0
      ensures CountCode(early + [r], code) == CountCode(early, code) + if r.code == code then 1 else 0
      ensures CountCode(late + [r], code) == CountCode(late, code) + if r.code == code then 1 else 0
    {
      CountAppends(all, r, code);
      CountAppends(early, r, code);
      CountAppends(late, r, code);
    }
  }

  /** The new log's rejections are the old ones and the insert's. */
  lemma {:induction false} RefusingRejects(log: seq<Entry>, refused: seq<Option<Error>>)
    requires |refused| == |Kept(log)|
    ensures Together(Rejections(Refusing(log, refused)), Rejections(log), Lates(Kept(log), refused, |refused|))
    decreases |log|, 1
  {
    if log != [] {
      var before, last := log[..|log| - 1], log[|log| - 1];
      assert log == before + [last];
      LogAppends(before, last);
      if last.rejection.Some? {
        RefusingRejects(before, refused);
        LogAppends(Refusing(before, refused), last);
        TogetherGrows(Rejections(Refusing(before, refused)), Rejections(before), Lates(Kept(before), refused, |refused|), last.rejection.value);
      } else {
        RefusingRejectsKept(log, before, last, refused, |refused| - 1);
      }
    }
  }

  lemma RefusingRejectsKept(log: seq<Entry>, before: seq<Entry>, last: Entry, refused: seq<Option<Error>>, n: nat)
    requires log == before + [last] && last.rejection.None?
    requires |refused| == |Kept(log)| == n + 1 && Kept(log) == Kept(before) + [last.index] && Rejections(log) == Rejections(before)
    ensures Together(Rejections(Refusing(log, refused)), Rejections(log), Lates(Kept(log), refused, |refused|))
    decreases |log|, 0
  {
    RefusingRejects(before, refused[..n]);
    LatesOfPrefix(Kept(log), refused, n, n);
    assert Kept(log)[..n] == Kept(before) && log[..|log| - 1] == before;
    var all, late := Rejections(Refusing(before, refused[..n])), Lates(Kept(log), refused, n);
    assert Together(all, Rejections(log), late);
    var e := Entry(last.index, if refused[n].Some? then Some(RejectionFor(last.index, refused[n].value)) else None);
    LogAppends(Refusing(before, refused[..n]), e);
    if refused[n].Some? {
      TogetherGrows(all, Rejections(log), late, e.rejection.value);
    } else {
      assert late + [] == late;
    }
  }

  // ---------- The first of two lists' rejections ----------

  ghost predicate Ascending(rs: seq<Rejection>) {
    forall i, j :: 0 <= i < j < |rs| ==> rs[i].index < rs[j].index
  }

  lemma {:induction false} RejectionsAscend(log: seq<Entry>)
    requires IsLog(log)
    ensures Ascending(Rejections(log)) && (forall r :: r in Rejections(log) ==> log != [] && r.index <= log[|log| - 1].index)
    ensures forall r, line :: r in Rejections(log) && line in Kept(log) ==> r.index != line
    ensures forall line :: line in Kept(log) ==> log != [] && line <= log[|log| - 1].index
    ensures forall i, j :: 0 <= i < j < |Kept(log)| ==> Kept(log)[i] < Kept(log)[j]
    decreases |log|
  {
    if log != [] {
      var before, last := log[..|log| - 1], log[|log| - 1];
      RejectionsAscend(before);
      assert before != [] ==> before[|before| - 1].index < last.index;
      forall i | 0 <= i < |Kept(before)|
        ensures Kept(before)[i] < last.index
      {
        assert Kept(before)[i] in Kept(before);
      }
    }
  }

  lemma {:induction false} LatesAscend(lines: seq<int>, refused: seq<Option<Error>>, n: nat)
    requires n <= |lines| == |refused| && forall i, j :: 0 <= i < j < |lines| ==> lines[i] < lines[j]
    ensures Ascending(Lates(lines, refused, n))
    ensures forall r :: r in Lates(lines, refused, n) ==> r.index in lines[..n]
    decreases n
  {
    if n > 0 {
      LatesAscend(lines, refused, n - 1);
    }
  }

  /** Two ascending lists agree up to n if one lies within the other and holds the other's first n. */
  lemma {:induction false} SamePrefix(some: seq<Rejection>, all: seq<Rejection>, n: nat)
    requires Ascending(some) && Ascending(all) && (forall r :: r in some ==> r in all)
    requires forall k :: 0 <= k < n && k < |all| ==> all[k] in some
    ensures FirstOf(some, n) == FirstOf(all, n)
    decreases n
  {
    if n > 0 {
      SamePrefix(some, all, n - 1);
      if n <= |all| {
        assert all[n - 1] in some;
        var j :| 0 <= j < |some| && some[j] == all[n - 1];
        SameAt(some, all, n - 1, j);
        OneMore(some, n - 1);
        OneMore(all, n - 1);
      } else {
        NoMore(some, all, n - 1);
      }
    }
  }

  lemma OneMore(rs: seq<Rejection>, n: nat)
    requires n < |rs|
    ensures FirstOf(rs, n + 1) == FirstOf(rs, n) + [rs[n]]
  {}

  lemma NoMore(some: seq<Rejection>, all: seq<Rejection>, n: nat)
    requires Ascending(some) && (forall r :: r in some ==> r in all)
    ensures FirstOf(some, n) == FirstOf(all, n) == all ==> some == all
  {
    assert |some| > n ==> some[n] in some;
    assert FirstOf(some, n) == all ==> forall m :: 0 <= m < |all| ==> all[m] == FirstOf(some, n)[m] == some[m];
  }

  lemma SameAt(some: seq<Rejection>, all: seq<Rejection>, k: nat, j: nat)
    requires Ascending(some) && Ascending(all) && (forall r :: r in some ==> r in all)
    requires k < |all| && j < |some| && some[j] == all[k] && FirstOf(some, k) == FirstOf(all, k)
    ensures k < |some| && some[k] == all[k]
  {
    assert forall i :: 0 <= i < k && i < |some| ==> some[i] == FirstOf(some, k)[i] == FirstOf(all, k)[i] == all[i];
    assert k <= j;
    assert some[k] in some;
    var m :| 0 <= m < |all| && all[m] == some[k];
    assert k <= m;
  }

  /** A part keeps its order, so nothing moves earlier in the whole. */
  lemma {:induction false} NotEarlier(part: seq<Rejection>, all: seq<Rejection>, p: nat, k: nat)
    requires Ascending(part) && Ascending(all) && (forall r :: r in part ==> r in all)
    requires p < |part| && k < |all| && part[p] == all[k]
    ensures p <= k
    decreases p
  {
    if p > 0 {
      assert part[p - 1] in part;
      var j :| 0 <= j < |all| && all[j] == part[p - 1];
      NotEarlier(part, all, p - 1, j);
      assert part[p - 1].index < part[p].index;
      assert j < k;
    }
  }

  // ---------- Sorting by index ----------

  function Inserted(r: Rejection, rs: seq<Rejection>): seq<Rejection> {
    if rs != [] && rs[0].index < r.index then [rs[0]] + Inserted(r, rs[1..]) else [r] + rs
  }

  function SortByIndex(rs: seq<Rejection>): seq<Rejection> {
    if rs == [] then [] else Inserted(rs[0], SortByIndex(rs[1..]))
  }

  lemma {:induction false} InsertedAscends(r: Rejection, rs: seq<Rejection>)
    requires Ascending(rs) && forall x :: x in rs ==> x.index != r.index
    ensures Ascending(Inserted(r, rs)) && (forall x :: x in Inserted(r, rs) <==> x == r || x in rs)
  {
    if rs != [] && rs[0].index < r.index {
      assert rs == [rs[0]] + rs[1..];
      InsertedAscends(r, rs[1..]);
      var more := Inserted(r, rs[1..]);
      forall j | 0 <= j < |more|
        ensures rs[0].index < more[j].index
      {
        assert more[j] in more;
      }
    } else if rs != [] {
      assert rs[0] in rs;
    }
  }

  lemma {:induction false} SortAscends(rs: seq<Rejection>)
    requires forall i, j :: 0 <= i < j < |rs| ==> rs[i].index != rs[j].index
    ensures Ascending(SortByIndex(rs)) && (forall x :: x in SortByIndex(rs) <==> x in rs)
  {
    if rs != [] {
      assert rs == [rs[0]] + rs[1..];
      SortAscends(rs[1..]);
      InsertedAscends(rs[0], SortByIndex(rs[1..]));
    }
  }

  /** Each side's first n are enough to find the first n of both. */
  lemma TruncatedMerge(all: seq<Rejection>, early: seq<Rejection>, late: seq<Rejection>, n: nat)
    requires Ascending(all) && Ascending(early) && Ascending(late) && (forall r :: r in all <==> r in early || r in late)
    requires forall a, b :: a in early && b in late ==> a.index != b.index
    ensures FirstOf(SortByIndex(FirstOf(early, n) + FirstOf(late, n)), n) == FirstOf(all, n)
  {
    var both := FirstOf(early, n) + FirstOf(late, n);
    forall i, j | 0 <= i < j < |both|
      ensures both[i].index != both[j].index
    {
      assert FirstOf(early, n) <= early && FirstOf(late, n) <= late;
      if i < |FirstOf(early, n)| <= j {
        assert both[i] in early && both[j] in late;
      }
    }
    SortAscends(both);
    forall k | 0 <= k < n && k < |all|
      ensures all[k] in SortByIndex(both)
    {
      InFirst(all, early, late, n, k);
    }
    SamePrefix(SortByIndex(both), all, n);
  }

  lemma InFirst(all: seq<Rejection>, early: seq<Rejection>, late: seq<Rejection>, n: nat, k: nat)
    requires Ascending(all) && Ascending(early) && Ascending(late) && (forall r :: r in all <==> r in early || r in late)
    requires k < n && k < |all|
    ensures all[k] in FirstOf(early, n) + FirstOf(late, n)
  {
    if all[k] in early {
      var p :| 0 <= p < |early| && early[p] == all[k];
      NotEarlier(early, all, p, k);
      assert FirstOf(early, n)[p] == all[k];
    } else {
      var p :| 0 <= p < |late| && late[p] == all[k];
      NotEarlier(late, all, p, k);
      assert FirstOf(late, n)[p] == all[k];
    }
  }

  // ---------- The source's own form ----------

  /** The totals, and the first of the rejections, are those of the log, of which some are queued. */
  ghost predicate Totals(log: seq<Entry>, queued: int, rejected: nat, codes: map<string, nat>, reported: seq<Rejection>) {
    && IsLog(log)
    && rejected == |Rejections(log)| && Counted(codes, Rejections(log))
    && reported == FirstOf(Rejections(log), MAX_REPORTED)
    && |log| == queued + rejected
  }

  lemma RejectedOnce(log: seq<Entry>, queued: int, rejected: nat, codes: map<string, nat>, before: seq<Rejection>, after: seq<Rejection>, e: Entry)
    requires IsLog(log) && before == FirstOf(Rejections(log), MAX_REPORTED) && |log| == queued + rejected - 1
    requires (log == [] || log[|log| - 1].index < e.index) && e.rejection.Some? && e.rejection.value.index == e.index
    requires var all := Rejections(log) + [e.rejection.value]; rejected == |all| && Counted(codes, all)
    requires after == if |before| < MAX_REPORTED then before + [e.rejection.value] else before
    ensures Totals(log + [e], queued, rejected, codes, after)
  {
    LogAppends(log, e);
    LogGrows(log, e);
    FirstGrows(Rejections(log), e.rejection.value, MAX_REPORTED);
  }

  lemma QueuedOnce(log: seq<Entry>, queued: int, rejected: nat, codes: map<string, nat>, reported: seq<Rejection>, e: Entry)
    requires Totals(log, queued - 1, rejected, codes, reported)
    requires (log == [] || log[|log| - 1].index < e.index) && e.rejection.None?
    ensures Totals(log + [e], queued, rejected, codes, reported)
  {
    LogAppends(log, e);
    LogGrows(log, e);
  }

  class Batch {
    const may: string -> bool
    var events: seq<Insert.NewEvent>
    var lines: seq<int>
    var rejected: nat
    var refused: nat
    var codes: map<string, nat>
    var reported: seq<Rejection>
    /** Every record so far, in request order. */
    ghost var log: seq<Entry>

    constructor (may: string -> bool)
      ensures this.may == may && log == [] && Queued()
    {
      this.may := may;
      events, lines, rejected, refused, codes, reported, log := [], [], 0, 0, map[], [], [];
    }

    /** The totals, and the first of the rejections, are those of the log. */
    ghost predicate Tallied()
      reads this
    {
      Totals(log, |events| - refused, rejected, codes, reported)
    }

    /** And nothing has been inserted yet: every record not rejected is queued, with its number. */
    ghost predicate Queued()
      reads this
    {
      Tallied() && refused == 0 && |events| == |lines| && lines == Kept(log)
    }

    /** index follows every record so far. */
    ghost predicate Next(index: int)
      reads this
    {
      log == [] || log[|log| - 1].index < index
    }

    /** Queues ev, unless the caller may not write to its tenant; denied is the rejection it then gets. */
    method Add(index: int, ev: Insert.NewEvent, denied: Error)
      requires Queued() && Next(index)
      modifies this
      ensures Queued() && log == old(log) + [Entry(index, if may(ev.tenant) then None else Some(RejectionFor(index, denied)))]
      ensures events == if may(ev.tenant) then old(events) + [ev] else old(events)
    {
      if !may(ev.tenant) {
        Reject(index, denied);
        return;
      }
      events, lines := events + [ev], lines + [index];
      LogAppends(log, Entry(index, None));
      QueuedOnce(log, |events|, rejected, codes, reported, Entry(index, None));
      log := log + [Entry(index, None)];
    }

    method Reject(index: int, err: Error)
      requires Queued() && Next(index)
      modifies this
      ensures Queued() && log == old(log) + [Entry(index, Some(RejectionFor(index, err)))]
      ensures events == old(events)
    {
      ghost var before := reported;
      LogAppends(log, Entry(index, Some(RejectionFor(index, err))));
      var r := Count(index, err, Rejections(log));
      if |reported| < MAX_REPORTED {
        reported := reported + [r];
      }
      RejectedOnce(log, |events|, rejected, codes, before, reported, Entry(index, Some(r)));
      log := log + [Entry(index, Some(r))];
    }

    /** Adds a rejection to the totals, which were those of before, and returns its report. */
    method Count(index: int, err: Error, ghost before: seq<Rejection>) returns (r: Rejection)
      requires rejected == |before| && Counted(codes, before)
      modifies this`rejected, this`codes
      ensures r == RejectionFor(index, err)
      ensures rejected == |before + [r]| && Counted(codes, before + [r])
    {
      r := RejectionFor(index, err);
      rejected := rejected + 1;
      forall code
        ensures CountCode(before + [r], code) == CountCode(before, code) + if r.code == code then 1 else 0
      {
        CountAppends(before, r, code);
      }
      codes := codes[r.code := (if r.code in codes then codes[r.code] else 0) + 1];
    }

    /** Adds the insert's rejections, keeping the report in request order. */
    method Merge(refusals: seq<Option<Error>>)
      requires Queued() && |refusals| == |events|
      modifies this
      ensures Tallied() && events == old(events)
      ensures |refusals| == |Kept(old(log))| && log == Refusing(old(log), refusals)
      ensures refused == |Lates(Kept(old(log)), refusals, |refusals|)|
    {
      ghost var early, all := Rejections(log), Refusing(log, refusals);
      var late := CountRefused(refusals, early);
      Merging(log, refusals);
      CountedTogether(codes, Rejections(all), early, Lates(lines, refusals, |refusals|));
      assert rejected == |Rejections(all)| && ReportsJoin(Rejections(all), reported, late);
      log := all;
      if |late| == 0 {
        return;
      }
      reported := FirstOf(SortByIndex(reported + late), MAX_REPORTED);
    }

    /** Counts the insert's rejections after those of early, and returns the first of them. */
    method CountRefused(refusals: seq<Option<Error>>, ghost early: seq<Rejection>) returns (late: seq<Rejection>)
      requires |refusals| == |lines| && refused == 0 && rejected == |early| && Counted(codes, early)
      modifies this`rejected, this`refused, this`codes
      ensures late == FirstOf(Lates(lines, refusals, |refusals|), MAX_REPORTED)
      ensures refused == |Lates(lines, refusals, |refusals|)| && rejected == |early| + refused
      ensures Counted(codes, early + Lates(lines, refusals, |refusals|))
    {
      late := [];
      assert early + [] == early;
      for i := 0 to |refusals|
        invariant late == FirstOf(Lates(lines, refusals, i), MAX_REPORTED)
        invariant refused == |Lates(lines, refusals, i)| && rejected == |early| + refused
        invariant Counted(codes, early + Lates(lines, refusals, i))
      {
        ghost var seen := Lates(lines, refusals, i);
        if refusals[i].None? {
          assert seen + [] == seen;
          continue;
        }
        refused := refused + 1;
        var r := Count(lines[i], refusals[i].value, early + seen);
        assert early + (seen + [r]) == early + seen + [r];
        if |late| < MAX_REPORTED {
          late := late + [r];
        }
      }
    }

    /** Every record is accepted or rejected, and the errors reported are the first of all rejections. */
    method Result() returns (accepted: int, rejections: nat, errors: Option<seq<Rejection>>)
      requires Tallied()
      ensures rejections == |Rejections(log)| && accepted == |log| - rejections && Sum(codes) == rejections
      ensures errors == if rejections == 0 then None else Some(FirstOf(Rejections(log), MAX_REPORTED))
    {
      CountsAddUp(codes, Rejections(log));
      accepted, rejections := |events| - refused, rejected;
      errors := if |reported| > 0 then Some(reported) else None;
    }
  }

  lemma CountedTogether(codes: map<string, nat>, all: seq<Rejection>, early: seq<Rejection>, late: seq<Rejection>)
    requires Together(all, early, late) && Counted(codes, early + late)
    ensures Counted(codes, all)
  {
    forall code
      ensures CountCode(all, code) == CountCode(early + late, code)
    {
      CountsJoin(early, late, code);
    }
  }

  /** Merging the two reports gives the first of all rejections. */
  ghost predicate ReportsJoin(all: seq<Rejection>, first: seq<Rejection>, late: seq<Rejection>) {
    && FirstOf(SortByIndex(first + late), MAX_REPORTED) == FirstOf(all, MAX_REPORTED)
    && (late == [] ==> first == FirstOf(all, MAX_REPORTED))
  }

  /** What the batch holds after the insert's rejections join it. */
  lemma Merging(log: seq<Entry>, refused: seq<Option<Error>>)
    requires IsLog(log) && |refused| == |Kept(log)|
    ensures IsLog(Refusing(log, refused))
    ensures Together(Rejections(Refusing(log, refused)), Rejections(log), Lates(Kept(log), refused, |refused|))
    ensures ReportsJoin(Rejections(Refusing(log, refused)), FirstOf(Rejections(log), MAX_REPORTED),
                        FirstOf(Lates(Kept(log), refused, |refused|), MAX_REPORTED))
  {
    var all, early, late := Rejections(Refusing(log, refused)), Rejections(log), Lates(Kept(log), refused, |refused|);
    RefusingIsLog(log, refused);
    RefusingRejects(log, refused);
    RejectionsAscend(log);
    RejectionsAscend(Refusing(log, refused));
    LatesAscend(Kept(log), refused, |refused|);
    forall a, b | a in early && b in late
      ensures a.index != b.index
    {
      assert b.index in Kept(log)[..|refused|];
      assert b.index in Kept(log);
    }
    TruncatedMerge(all, early, late, MAX_REPORTED);
    if late == [] {
      SamePrefix(early, all, MAX_REPORTED);
    }
  }

  /** Counting two lists one after the other is counting them together. */
  lemma {:induction false} CountsJoin(early: seq<Rejection>, late: seq<Rejection>, code: string)
    ensures CountCode(early + late, code) == CountCode(early, code) + CountCode(late, code)
    decreases |late|
  {
    if late == [] {
      assert early + late == early;
    } else {
      var r := late[|late| - 1];
      assert late == late[..|late| - 1] + [r];
      assert early + late == early + late[..|late| - 1] + [r];
      CountsJoin(early, late[..|late| - 1], code);
      CountAppends(early + late[..|late| - 1], r, code);
    }
  }

  lemma LogGrows(log: seq<Entry>, e: Entry)
    requires IsLog(log) && (log == [] || log[|log| - 1].index < e.index)
    requires e.rejection.Some? ==> e.rejection.value.index == e.index
    ensures IsLog(log + [e])
  {
    assert log != [] ==> forall i :: 0 <= i < |log| - 1 ==> log[i].index < log[|log| - 1].index;
  }

  lemma FirstGrows(rs: seq<Rejection>, r: Rejection, n: nat)
    ensures FirstOf(rs + [r], n) == if |FirstOf(rs, n)| < n then FirstOf(rs, n) + [r] else FirstOf(rs, n)
  {}

  lemma LogAppends(log: seq<Entry>, e: Entry)
    ensures Rejections(log + [e]) == if e.rejection.Some? then Rejections(log) + [e.rejection.value] else Rejections(log)
    ensures Kept(log + [e]) == if e.rejection.None? then Kept(log) + [e.index] else Kept(log)
  {
    assert (log + [e])[..|log|] == log;
    assert Rejections(log) + [] == Rejections(log) && Kept(log) + [] == Kept(log);
  }
}
