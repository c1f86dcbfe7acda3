/** backend/internal/api/ingest.go: from a request's body to stored events and the response. */
module Intake {
  import opened Wrappers
  import opened Reading
  import opened Batches
  import Insert

  /** What decides each record's outcome: the caller's rights, the normalizer, and how errors read. */
  datatype Judge = Judge(
    may: string -> bool, normalize: Bytes -> Result<Insert.NewEvent, Error>,
    tooLarge: Error, denied: string -> Error, refused: Insert.Rejection -> Error)

  /** The database's share of it. */
  datatype Base = Base(tenants: set<string>, verdicts: Insert.Verdicts)

  datatype Response = Response(accepted: int, rejected: nat, errors: Option<seq<Rejection>>)

  // ---------- Each record on its own ----------

  /** The event a record is queued as, or why it is not. */
  function Queued(j: Judge, record: Option<Bytes>): Result<Insert.NewEvent, Error> {
    if record.None? then Failure(j.tooLarge)
    else match j.normalize(record.value)
      case Failure(err) => Failure(err)
      case Success(ev) => if j.may(ev.tenant) then Success(ev) else Failure(j.denied(ev.tenant))
  }

  function EntryFor(index: int, err: Option<Error>): Entry {
    Entry(index, if err.Some? then Some(RejectionFor(index, err.value)) else None)
  }

  function Turned(j: Judge, base: Base, ev: Insert.NewEvent): Option<Error> {
    var r := Insert.Outcome(ev, base.tenants, base.verdicts);
    if r.Some? then Some(j.refused(r.value)) else None
  }

  /** The outcome of one record, whatever else the request holds. */
  function Outcome(j: Judge, base: Base, call: Call): Entry {
    match Queued(j, call.record)
    case Failure(err) => EntryFor(call.index, Some(err))
    case Success(ev) => EntryFor(call.index, Turned(j, base, ev))
  }

  function Outcomes(j: Judge, base: Base, calls: seq<Call>): (log: seq<Entry>)
    ensures |log| == |calls| && forall i :: 0 <= i < |calls| ==> log[i] == Outcome(j, base, calls[i])
  {
    if calls == [] then [] else Outcomes(j, base, calls[..|calls| - 1]) + [Outcome(j, base, calls[|calls| - 1])]
  }

  // ---------- Before the insert ----------

  function EntryBefore(j: Judge, call: Call): Entry {
    EntryFor(call.index, match Queued(j, call.record) case Failure(err) => Some(err) case Success(_) => None)
  }

  function QueuedFor(j: Judge, call: Call): seq<Insert.NewEvent> {
    match Queued(j, call.record)
    case Failure(_) => []
    case Success(ev) => [ev]
  }

  function Before(j: Judge, calls: seq<Call>): seq<Entry> {
    if calls == [] then [] else Before(j, calls[..|calls| - 1]) + [EntryBefore(j, calls[|calls| - 1])]
  }

  function Queue(j: Judge, calls: seq<Call>): seq<Insert.NewEvent> {
    if calls == [] then [] else Queue(j, calls[..|calls| - 1]) + QueuedFor(j, calls[|calls| - 1])
  }

  ghost predicate Ascend(calls: seq<Call>) {
    forall a, b :: 0 <= a < b < |calls| ==> calls[a].index < calls[b].index
  }

  /** Lines are reported in their order. */
  lemma {:induction false} ReportsAscend(rules: Rules, index: nat, lines: seq<Bytes>)
    ensures Ascend(ReportAll(rules, index, lines))
    ensures forall c :: c in ReportAll(rules, index, lines) ==> index <= c.index < index + |lines|
    decreases |lines|
  {
    if lines != [] {
      ReportsAscend(rules, index + 1, lines[1..]);
      var more := ReportAll(rules, index + 1, lines[1..]);
      forall k | 0 <= k < |more|
        ensures index < more[k].index
      {
        assert more[k] in more;
      }
    }
  }

  /** The insert's refusals of the events queued. */
  ghost predicate Refuses(j: Judge, base: Base, queue: seq<Insert.NewEvent>, refusals: seq<Option<Error>>) {
    |refusals| == |queue| && forall k :: 0 <= k < |queue| ==> refusals[k] == Turned(j, base, queue[k])
  }

  /** The insert's refusals turn the log into each record's own outcome. */
  lemma {:induction false} RefusingOutcomes(j: Judge, base: Base, calls: seq<Call>, refusals: seq<Option<Error>>)
    requires Refuses(j, base, Queue(j, calls), refusals)
    ensures |Kept(Before(j, calls))| == |Queue(j, calls)|
    ensures Refusing(Before(j, calls), refusals) == Outcomes(j, base, calls)
    decreases |calls|
  {
    if calls != [] {
      var n := |calls| - 1;
      var e := Before(j, calls)[|Before(j, calls)| - 1];
      assert Before(j, calls) == Before(j, calls[..n]) + [e];
      LogAppends(Before(j, calls[..n]), e);
      assert Before(j, calls)[..|Before(j, calls)| - 1] == Before(j, calls[..n]);
      if Queued(j, calls[n].record).Success? {
        assert Queue(j, calls[..n]) == Queue(j, calls)[..|refusals| - 1];
        RefusingOutcomes(j, base, calls[..n], refusals[..|refusals| - 1]);
      } else {
        assert Queue(j, calls[..n]) == Queue(j, calls);
        RefusingOutcomes(j, base, calls[..n], refusals);
      }
    }
  }

  lemma {:induction false} NoneQueued(j: Judge, base: Base, calls: seq<Call>)
    requires Queue(j, calls) == []
    ensures Before(j, calls) == Outcomes(j, base, calls)
    decreases |calls|
  {
    if calls != [] {
      NoneQueued(j, base, calls[..|calls| - 1]);
    }
  }

  // ---------- The source's own form ----------

  /** Queues or rejects every record reported. */
  method Collect(j: Judge, calls: seq<Call>) returns (b: Batch)
    requires Ascend(calls)
    ensures fresh(b) && b.Queued() && b.log == Before(j, calls) && b.events == Queue(j, calls)
  {
    b := new Batch(j.may);
    for i := 0 to |calls|
      invariant fresh(b) && b.may == j.may && b.Queued()
      invariant b.log == Before(j, calls[..i]) && b.events == Queue(j, calls[..i])
      invariant forall k :: i <= k < |calls| ==> b.Next(calls[k].index)
    {
      assert calls[..i + 1][..i] == calls[..i];
      assert b.Next(calls[i].index);
      OneRecord(j, calls[i], b);
    }
    assert calls[..|calls|] == calls;
  }

  method OneRecord(j: Judge, call: Call, b: Batch)
    requires b.may == j.may && b.Queued() && b.Next(call.index)
    modifies b
    ensures b.Queued()
    ensures b.log == old(b.log) + [EntryBefore(j, call)] && b.events == old(b.events) + QueuedFor(j, call)
  {
    assert b.events + [] == b.events;
    if call.record.None? {
      assert EntryBefore(j, call) == EntryFor(call.index, Some(j.tooLarge)) && QueuedFor(j, call) == [];
      b.Reject(call.index, j.tooLarge);
      return;
    }
    var ev := j.normalize(call.record.value);
    if ev.Failure? {
      assert EntryBefore(j, call) == EntryFor(call.index, Some(ev.error)) && QueuedFor(j, call) == [];
      b.Reject(call.index, ev.error);
      return;
    }
    OneJudged(j, call, ev.value);
    b.Add(call.index, ev.value, j.denied(ev.value.tenant));
  }

  lemma OneJudged(j: Judge, call: Call, ev: Insert.NewEvent)
    requires call.record.Some? && j.normalize(call.record.value) == Success(ev)
    ensures EntryBefore(j, call) == EntryFor(call.index, if j.may(ev.tenant) then None else Some(j.denied(ev.tenant)))
    ensures QueuedFor(j, call) == if j.may(ev.tenant) then [ev] else []
  {}

  /** The insert fails: there are events, and the lookup of their tenants does, or something that is no event's own. */
  ghost predicate Fails(db: Insert.Database, queue: seq<Insert.NewEvent>) {
    queue != [] && (db.lookupFails || Insert.Broken(queue, db.tenants, db.verdicts, db.scopeFails))
  }

  /** Inserts what is queued, and says what happened to every record. An error means nothing was stored. */
  method Store(j: Judge, ghost calls: seq<Call>, b: Batch, db: Insert.Database, chunk: nat) returns (res: Result<Response, Insert.DbError>)
    requires 1 <= chunk && b.Queued() && b.log == Before(j, calls) && b.events == Queue(j, calls)
    modifies b, db
    ensures res.Failure? <==> Fails(db, Queue(j, calls))
    ensures res.Failure? ==> db.rows == old(db.rows)
    ensures res.Success? ==> Answers(j, Base(db.tenants, db.verdicts), calls, old(db.rows), db.rows, res.value)
  {
    ghost var queue, rows, base := b.events, db.rows, Base(db.tenants, db.verdicts);
    if |b.events| > 0 {
      var turned := Insert.Insert(db, b.events, chunk);
      if turned.Failure? {
        return Failure(turned.error);
      }
      var refusals := Errors(j, turned.value);
      assert Refuses(j, base, queue, refusals);
      RefusingOutcomes(j, base, calls, refusals);
      b.Merge(refusals);
    } else {
      NoneQueued(j, base, calls);
      assert Insert.Stored(queue, Insert.Tenants(queue, base.tenants, |queue|), base.verdicts) == [];
    }
    assert b.log == Outcomes(j, base, calls);
    var accepted, rejected, errors := b.Result();
    res := Success(Response(accepted, rejected, errors));
  }

  method Errors(j: Judge, turned: seq<Option<Insert.Rejection>>) returns (refusals: seq<Option<Error>>)
    ensures |refusals| == |turned|
    ensures forall k :: 0 <= k < |turned| ==> refusals[k] == if turned[k].Some? then Some(j.refused(turned[k].value)) else None
  {
    refusals := [];
    for k := 0 to |turned|
      invariant |refusals| == k
      invariant forall i :: 0 <= i < k ==> refusals[i] == if turned[i].Some? then Some(j.refused(turned[i].value)) else None
    {
      refusals := refusals + [if turned[k].Some? then Some(j.refused(turned[k].value)) else None];
    }
  }

  /** What the response and the table say of the records. */
  ghost predicate Answers(j: Judge, base: Base, calls: seq<Call>, before: seq<Insert.NewEvent>, after: seq<Insert.NewEvent>, r: Response) {
    var rejections, queue := Rejections(Outcomes(j, base, calls)), Queue(j, calls);
    && r.rejected == |rejections| && r.accepted + r.rejected == |calls|
    && r.errors == (if rejections == [] then None else Some(FirstOf(rejections, MAX_REPORTED)))
    && Harmless(base, queue)
    && after == before + Insert.Stored(queue, Insert.Tenants(queue, base.tenants, |queue|), base.verdicts)
  }

  /**
   * A whole request. Each line reported is accepted or rejected on its own
   * merits; the response counts and lists them in order; and the table gains
   * what was accepted, or nothing if the body or the database failed.
   */
  method IngestNDJSON(j: Judge, rules: Rules, body: Reader, db: Insert.Database, chunk: nat) returns (res: Option<Response>)
    requires 1 <= chunk && body.Valid() && body.pos == 0 && body.size == rules.limit + 2
    modifies body`pos, db
    ensures res.None? <==> body.fails || Fails(db, Queue(j, ReportAll(rules, 0, Lines(body.body))))
    ensures res.None? ==> db.rows == old(db.rows)
    ensures res.Some? ==>
              Answers(j, Base(db.tenants, db.verdicts), ReportAll(rules, 0, Lines(body.body)), old(db.rows), db.rows, res.value)
    ensures res.Some? ==> |db.rows| == |old(db.rows)| + res.value.accepted
  {
    ReportsAscend(rules, 0, Whole(Lines(body.body), body.fails));
    var calls, whole := EachRecord(rules, body);
    if !whole {
      return None;
    }
    var b := Collect(j, calls);
    var stored := Store(j, calls, b, db, chunk);
    if stored.Failure? {
      return None;
    }
    AcceptedAreStored(j, Base(db.tenants, db.verdicts), calls, old(db.rows), db.rows, stored.value);
    res := Some(stored.value);
  }

  // ---------- Accepted is stored ----------

  /** No event fails for a reason other than its own values. */
  ghost predicate Harmless(base: Base, queue: seq<Insert.NewEvent>) {
    forall k :: 0 <= k < |queue| && queue[k].tenant in base.tenants ==> !Insert.Fatal(queue[k], base.verdicts)
  }

  lemma SinglyAppends(base: Base, queue: seq<Insert.NewEvent>, ev: Insert.NewEvent)
    requires ev.tenant in base.tenants ==> !Insert.Fatal(ev, base.verdicts)
    ensures |Insert.Singly(queue + [ev], base.tenants, base.verdicts)| ==
            |Insert.Singly(queue, base.tenants, base.verdicts)| + if Insert.Outcome(ev, base.tenants, base.verdicts).None? then 1 else 0
  {
    assert (queue + [ev])[..|queue|] == queue;
  }

  lemma {:induction false} StoredAreAccepted(j: Judge, base: Base, calls: seq<Call>)
    requires Harmless(base, Queue(j, calls))
    ensures |Insert.Singly(Queue(j, calls), base.tenants, base.verdicts)| + |Rejections(Outcomes(j, base, calls))| == |calls|
    decreases |calls|
  {
    if calls != [] {
      var n := |calls| - 1;
      var before := Queue(j, calls[..n]);
      LogAppends(Outcomes(j, base, calls[..n]), Outcome(j, base, calls[n]));
      if Queued(j, calls[n].record).Success? {
        var ev := Queued(j, calls[n].record).value;
        assert Queue(j, calls) == before + [ev];
        HarmlessParts(base, before, ev);
        SinglyAppends(base, before, ev);
      } else {
        assert Queue(j, calls) == before;
      }
      StoredAreAccepted(j, base, calls[..n]);
    }
  }

  lemma HarmlessParts(base: Base, queue: seq<Insert.NewEvent>, ev: Insert.NewEvent)
    ensures Harmless(base, queue + [ev]) ==>
              Harmless(base, queue) && (ev.tenant in base.tenants ==> !Insert.Fatal(ev, base.verdicts))
  {
    if Harmless(base, queue + [ev]) {
      assert (queue + [ev])[|queue|] == ev;
      assert forall k :: 0 <= k < |queue| ==> (queue + [ev])[k] == queue[k];
    }
  }

  /** The table gains exactly as many rows as the response says were accepted. */
  lemma AcceptedAreStored(j: Judge, base: Base, calls: seq<Call>, before: seq<Insert.NewEvent>, after: seq<Insert.NewEvent>, r: Response)
    requires Answers(j, base, calls, before, after, r)
    ensures |after| == |before| + r.accepted
  {
    var queue := Queue(j, calls);
    Insert.SameRows(queue, base.tenants, base.verdicts);
    StoredAreAccepted(j, base, calls);
    var stored := Insert.Stored(queue, Insert.Tenants(queue, base.tenants, |queue|), base.verdicts);
    assert |multiset(stored)| == |stored|;
    assert |multiset(Insert.Singly(queue, base.tenants, base.verdicts))| == |Insert.Singly(queue, base.tenants, base.verdicts)|;
  }
}
