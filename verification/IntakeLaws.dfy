/** What a request for lines of records comes to, line by line: which become rows, and which are reported and how. */
module IntakeLaws {
  import opened Wrappers
  import opened Reading
  import opened Batches
  import opened Intake
  import Insert

  // ---------- One line ----------

  datatype Verdict = Blank | Accepted(ev: Insert.NewEvent) | Refused(err: Error)

  /** What becomes of a line. Its length is that without its line ending. */
  function VerdictOn(j: Judge, rules: Rules, base: Base, line: Bytes): Verdict {
    var content := if line != [] && line[|line| - 1] == 13 then line[..|line| - 1] else line;
    if |content| > rules.limit then Refused(j.tooLarge)
    else if rules.trim(content) == [] then Blank
    else VerdictOnRecord(j, base, rules.trim(content))
  }

  function VerdictOnRecord(j: Judge, base: Base, record: Bytes): Verdict {
    match j.normalize(record)
    case Failure(err) => Refused(err)
    case Success(ev) => if j.may(ev.tenant) then VerdictOnEvent(j, base, ev) else Refused(j.denied(ev.tenant))
  }

  /** An event of a tenant that is not there, or no longer, or one the database finds fault with, is refused. */
  function VerdictOnEvent(j: Judge, base: Base, ev: Insert.NewEvent): Verdict {
    var err := base.verdicts(ev);
    if ev.tenant !in base.tenants || err == Some(Insert.PgError("23503")) then Refused(j.refused(Insert.UnknownTenant(ev.tenant)))
    else if err.Some? && err.value.PgError? && Insert.OwnFault(err.value.code) then Refused(j.refused(Insert.Unstorable))
    else Accepted(ev)
  }

  /** The events of the lines accepted. */
  function AcceptedOf(j: Judge, rules: Rules, base: Base, lines: seq<Bytes>): seq<Insert.NewEvent> {
    if lines == [] then []
    else
      var v := VerdictOn(j, rules, base, lines[0]);
      (if v.Accepted? then [v.ev] else []) + AcceptedOf(j, rules, base, lines[1..])
  }

  /** The reports of the lines refused, the first of them being line index. */
  function RefusedOf(j: Judge, rules: Rules, base: Base, index: nat, lines: seq<Bytes>): seq<Rejection>
    decreases |lines|
  {
    if lines == [] then []
    else
      var v := VerdictOn(j, rules, base, lines[0]);
      (if v.Refused? then [Rejection(index, v.err.code, v.err.message)] else []) + RefusedOf(j, rules, base, index + 1, lines[1..])
  }

  // ---------- Joining ----------

  lemma {:induction false} QueueJoins(j: Judge, a: seq<Call>, b: seq<Call>)
    ensures Queue(j, a + b) == Queue(j, a) + Queue(j, b)
    decreases |b|
  {
    if b == [] {
      assert a + b == a;
    } else {
      QueueJoins(j, a, b[..|b| - 1]);
      assert (a + b)[..|a + b| - 1] == a + b[..|b| - 1];
    }
  }

  lemma {:induction false} RejectionsJoin(a: seq<Entry>, b: seq<Entry>)
    ensures Rejections(a + b) == Rejections(a) + Rejections(b)
    decreases |b|
  {
    if b == [] {
      assert a + b == a;
    } else {
      RejectionsJoin(a, b[..|b| - 1]);
      assert (a + b)[..|a + b| - 1] == a + b[..|b| - 1];
    }
  }

  lemma {:induction false} SinglyJoins(a: seq<Insert.NewEvent>, b: seq<Insert.NewEvent>, known: set<string>, verdicts: Insert.Verdicts)
    ensures Insert.Singly(a + b, known, verdicts) == Insert.Singly(a, known, verdicts) + Insert.Singly(b, known, verdicts)
    decreases |b|
  {
    if b == [] {
      assert a + b == a;
    } else {
      SinglyJoins(a, b[..|b| - 1], known, verdicts);
      assert (a + b)[..|a + b| - 1] == a + b[..|b| - 1];
    }
  }

  lemma OutcomesJoin(j: Judge, base: Base, a: seq<Call>, b: seq<Call>)
    ensures Outcomes(j, base, a + b) == Outcomes(j, base, a) + Outcomes(j, base, b)
  {
    assert forall i :: 0 <= i < |a + b| ==> Outcomes(j, base, a + b)[i] == (Outcomes(j, base, a) + Outcomes(j, base, b))[i];
  }

  // ---------- A line's share ----------

  lemma EventShare(j: Judge, base: Base, ev: Insert.NewEvent)
    requires ev.tenant in base.tenants ==> !Insert.Fatal(ev, base.verdicts)
    ensures var v, o := VerdictOnEvent(j, base, ev), Insert.Outcome(ev, base.tenants, base.verdicts);
            && (v.Accepted? <==> o.None?) && (v.Accepted? ==> v.ev == ev) && (v.Refused? ==> o.Some? && v.err == j.refused(o.value)) && !v.Blank?
            && (v.Accepted? <==> ev.tenant in base.tenants && base.verdicts(ev).None?)
  {
    Insert.OutcomeExactly(ev, base.tenants, base.verdicts);
  }

  lemma OneCall(j: Judge, base: Base, c: Call)
    ensures Queue(j, [c]) == QueuedFor(j, c)
    ensures Rejections(Outcomes(j, base, [c])) == if Outcome(j, base, c).rejection.Some? then [Outcome(j, base, c).rejection.value] else []
  {
    assert [c][..0] == [];
    assert Outcomes(j, base, [c]) == [Outcome(j, base, c)];
    LogAppends([], Outcome(j, base, c));
    assert [] + [Outcome(j, base, c)] == [Outcome(j, base, c)];
  }

  lemma OneSingly(ev: Insert.NewEvent, known: set<string>, verdicts: Insert.Verdicts)
    ensures Insert.Singly([ev], known, verdicts) == if ev.tenant in known && verdicts(ev).None? then [ev] else []
  {
    assert [ev][..0] == [];
  }

  /** A call's share: what of it is stored, and what is rejected. */
  ghost predicate Shares(j: Judge, base: Base, calls: seq<Call>, v: Verdict, index: nat) {
    && Insert.Singly(Queue(j, calls), base.tenants, base.verdicts) == (if v.Accepted? then [v.ev] else [])
    && Rejections(Outcomes(j, base, calls)) == (if v.Refused? then [Rejection(index, v.err.code, v.err.message)] else [])
  }

  lemma RecordShare(j: Judge, base: Base, index: nat, record: Bytes)
    requires Harmless(base, Queue(j, [Call(index, Some(record))]))
    ensures Shares(j, base, [Call(index, Some(record))], VerdictOnRecord(j, base, record), index)
    ensures !VerdictOnRecord(j, base, record).Blank?
  {
    var c := Call(index, Some(record));
    OneCall(j, base, c);
    var q := Queued(j, c.record);
    if q.Success? {
      assert Queue(j, [c]) == [q.value] && Queue(j, [c])[0] == q.value;
      EventShare(j, base, q.value);
      OneSingly(q.value, base.tenants, base.verdicts);
    }
  }

  lemma LongShare(j: Judge, base: Base, index: nat)
    ensures Shares(j, base, [Call(index, None)], Refused(j.tooLarge), index)
  {
    OneCall(j, base, Call(index, None));
  }

  lemma LineShare(j: Judge, rules: Rules, base: Base, index: nat, line: Bytes)
    requires Harmless(base, Queue(j, Report(rules, index, line)))
    ensures var calls, v := Report(rules, index, line), VerdictOn(j, rules, base, line);
            && Shares(j, base, calls, v, index) && |calls| == if v.Blank? then 0 else 1
  {
    var content := TrimSuffix(line, CR);
    if |content| > rules.limit {
      LongShare(j, base, index);
    } else if rules.trim(content) != [] {
      RecordShare(j, base, index, rules.trim(content));
    }
  }

  lemma HarmlessJoins(base: Base, a: seq<Insert.NewEvent>, b: seq<Insert.NewEvent>)
    requires Harmless(base, a + b)
    ensures Harmless(base, a) && Harmless(base, b)
  {
    assert forall k :: 0 <= k < |a| ==> (a + b)[k] == a[k];
    assert forall k :: 0 <= k < |b| ==> (a + b)[|a| + k] == b[k];
  }

  /** Line by line, what is stored singly and what is rejected. */
  lemma {:induction false} LinesShare(j: Judge, rules: Rules, base: Base, index: nat, lines: seq<Bytes>)
    requires Harmless(base, Queue(j, ReportAll(rules, index, lines)))
    ensures var calls := ReportAll(rules, index, lines);
            && Insert.Singly(Queue(j, calls), base.tenants, base.verdicts) == AcceptedOf(j, rules, base, lines)
            && Rejections(Outcomes(j, base, calls)) == RefusedOf(j, rules, base, index, lines)
            && |calls| == |AcceptedOf(j, rules, base, lines)| + |RefusedOf(j, rules, base, index, lines)|
    decreases |lines|
  {
    if lines != [] {
      var first, rest := Report(rules, index, lines[0]), ReportAll(rules, index + 1, lines[1..]);
      QueueJoins(j, first, rest);
      HarmlessJoins(base, Queue(j, first), Queue(j, rest));
      LineShare(j, rules, base, index, lines[0]);
      LinesShare(j, rules, base, index + 1, lines[1..]);
      SinglyJoins(Queue(j, first), Queue(j, rest), base.tenants, base.verdicts);
      OutcomesJoin(j, base, first, rest);
      RejectionsJoin(Outcomes(j, base, first), Outcomes(j, base, rest));
    }
  }

  /**
   * An answered request counts its lines as accepted and refused, each on its
   * own merits and blank ones not at all, reports the first hundred refused in
   * order by line number, and adds to the table just the events accepted.
   */
  lemma RequestAnswered(j: Judge, rules: Rules, base: Base, lines: seq<Bytes>, before: seq<Insert.NewEvent>, after: seq<Insert.NewEvent>, r: Response)
    requires Answers(j, base, ReportAll(rules, 0, lines), before, after, r)
    ensures var accepted, refused := AcceptedOf(j, rules, base, lines), RefusedOf(j, rules, base, 0, lines);
            && r.accepted == |accepted| && r.rejected == |refused|
            && r.errors == (if refused == [] then None else Some(if |refused| <= 100 then refused else refused[..100]))
            && multiset(after) == multiset(before) + multiset(accepted) && before <= after
  {
    var queue := Queue(j, ReportAll(rules, 0, lines));
    LinesShare(j, rules, base, 0, lines);
    Insert.SameRows(queue, base.tenants, base.verdicts);
    assert after == before + Insert.Stored(queue, Insert.Tenants(queue, base.tenants, |queue|), base.verdicts);
  }
}
