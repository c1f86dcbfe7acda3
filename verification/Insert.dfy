/**
 * backend/internal/store/events.go: inserting events in chunks, each in a
 * savepoint, and one at a time where the database refuses one of them.
 */
module Insert {
  import opened Wrappers

  datatype NewEvent = NewEvent(tenant: string, body: string)

  /** The database's own errors, by their code, and all others. */
  datatype DbError = PgError(code: string) | OtherError

  /** What row-level security fails with. */
  const DENIED := PgError("42501")

  datatype Rejection = UnknownTenant(tenant: string) | Unstorable

  /** What an error says about the event, if it is about the event. */
  function Refusal(err: DbError, tenant: string): Option<Rejection> {
    match err
    case PgError(code) =>
      if code == "23503" then Some(UnknownTenant(tenant))
      else if code == "54000" || "22" <= code || "23" <= code then Some(Unstorable) else None
    case OtherError => None
  }

  // ---------- What inserting comes to ----------

  /** What the database does with each event, when its tenant is the scope: store it, or fail. */
  type Verdicts = NewEvent -> Option<DbError>

  function StoredAt(events: seq<NewEvent>, idx: seq<nat>, verdicts: Verdicts): seq<NewEvent>
    requires forall k :: 0 <= k < |idx| ==> idx[k] < |events|
  {
    if idx == [] then []
    else
      var e := events[idx[|idx| - 1]];
      StoredAt(events, idx[..|idx| - 1], verdicts) + if verdicts(e).None? then [e] else []
  }

  /** Why an event of a known tenant is not stored. */
  function RejectionOf(e: NewEvent, verdicts: Verdicts): Option<Rejection> {
    if verdicts(e).None? then None else Refusal(verdicts(e).value, e.tenant)
  }

  /** An error that is not about the event: nothing at all is stored. */
  predicate Fatal(e: NewEvent, verdicts: Verdicts) {
    verdicts(e).Some? && Refusal(verdicts(e).value, e.tenant).None?
  }

  lemma {:induction false} StoredJoins(events: seq<NewEvent>, a: seq<nat>, b: seq<nat>, verdicts: Verdicts)
    requires forall k :: 0 <= k < |a| ==> a[k] < |events|
    requires forall k :: 0 <= k < |b| ==> b[k] < |events|
    ensures StoredAt(events, a + b, verdicts) == StoredAt(events, a, verdicts) + StoredAt(events, b, verdicts)
  {
    if b == [] {
      assert a + b == a;
    } else {
      StoredJoins(events, a, b[..|b| - 1], verdicts);
      assert (a + b)[..|a + b| - 1] == a + b[..|b| - 1];
    }
  }

  // ---------- The database ----------

  class Database {
    var rows: seq<NewEvent>
    var scope: string
    const tenants: set<string>
    const verdicts: Verdicts
    const lookupFails: bool
    const scopeFails: string -> bool

    constructor (tenants: set<string>, verdicts: Verdicts, lookupFails: bool, scopeFails: string -> bool)
      ensures rows == [] && this.tenants == tenants && this.verdicts == verdicts
      ensures this.lookupFails == lookupFails && this.scopeFails == scopeFails
    {
      this.tenants, this.verdicts, this.lookupFails, this.scopeFails := tenants, verdicts, lookupFails, scopeFails;
      rows, scope := [], "";
    }

    /** One statement. Row-level security fails a row for any tenant but the scope. */
    method InsertOne(e: NewEvent) returns (err: Option<DbError>)
      modifies this`rows
      ensures err == if e.tenant != scope then Some(DENIED) else verdicts(e)
      ensures rows == if err.None? then old(rows) + [e] else old(rows)
    {
      err := if e.tenant != scope then Some(DENIED) else verdicts(e);
      if err.None? {
        rows := rows + [e];
      }
    }

    /** Runs a batch, and returns the first failure; the statements after it only report that the transaction is aborted. */
    method ExecBatch(params: seq<NewEvent>) returns (first: Option<DbError>)
      requires forall k :: 0 <= k < |params| ==> params[k].tenant == scope
      modifies this`rows
      ensures first.None? <==> forall k :: 0 <= k < |params| ==> verdicts(params[k]).None?
      ensures first.None? ==> rows == old(rows) + params
      ensures first.Some? ==> exists k :: 0 <= k < |params| && verdicts(params[k]) == first
    {
      first := None;
      for k := 0 to |params|
        invariant first.None? ==> rows == old(rows) + params[..k] && forall j :: 0 <= j < k ==> verdicts(params[j]).None?
        invariant first.Some? ==> exists j :: 0 <= j < k && verdicts(params[j]) == first
      {
        if first.None? {
          first := InsertOne(params[k]);
          assert params[..k + 1] == params[..k] + [params[k]];
          if first.Some? {
            assert verdicts(params[k]) == first;
          }
        }
      }
    }

    /** A batch in a savepoint, which a failure rolls back. */
    method TryBatch(params: seq<NewEvent>) returns (err: Option<DbError>)
      requires forall k :: 0 <= k < |params| ==> params[k].tenant == scope
      modifies this`rows
      ensures err.None? <==> forall k :: 0 <= k < |params| ==> verdicts(params[k]).None?
      ensures rows == old(rows) + if err.None? then params else []
      ensures err.Some? ==> exists k :: 0 <= k < |params| && verdicts(params[k]) == err
    {
      var savepoint := rows;
      err := ExecBatch(params);
      if err.Some? {
        rows := savepoint;
      }
    }
  }

  // ---------- The source's own form ----------

  type Report = seq<Option<Rejection>>

  /** Each event at idx has its rejection, or none if it was stored; the others are as they were. */
  ghost predicate Reported(events: seq<NewEvent>, idx: seq<nat>, verdicts: Verdicts, before: Report, after: Report) {
    && |before| == |after| == |events| && (forall k :: 0 <= k < |idx| ==> idx[k] < |events|)
    && (forall k :: 0 <= k < |idx| ==> after[idx[k]] == RejectionOf(events[idx[k]], verdicts))
    && (forall i :: 0 <= i < |events| && i !in idx ==> after[i] == before[i])
  }

  /** None of the events meets an error that is not about it. */
  ghost predicate Sound(events: seq<NewEvent>, idx: seq<nat>, verdicts: Verdicts)
    requires forall k :: 0 <= k < |idx| ==> idx[k] < |events|
  {
    forall k :: 0 <= k < |idx| ==> !Fatal(events[idx[k]], verdicts)
  }

  /** The events at idx have been stored, or reported. */
  ghost predicate Inserted(events: seq<NewEvent>, idx: seq<nat>, verdicts: Verdicts, before: seq<NewEvent>, after: seq<NewEvent>, first: Report, last: Report)
    requires forall k :: 0 <= k < |idx| ==> idx[k] < |events|
  {
    after == before + StoredAt(events, idx, verdicts) && Reported(events, idx, verdicts, first, last)
  }

  lemma ReportsJoin(events: seq<NewEvent>, a: seq<nat>, b: seq<nat>, verdicts: Verdicts, first: Report, then_: Report, last: Report)
    requires Reported(events, a, verdicts, first, then_) && Reported(events, b, verdicts, then_, last)
    requires forall j, k :: 0 <= j < |a| && 0 <= k < |b| ==> a[j] != b[k]
    ensures Reported(events, a + b, verdicts, first, last)
  {
    assert forall i :: i in a + b <==> i in a || i in b;
  }

  /** Inserts the events at idx in a savepoint, or one at a time if the database refuses one of them. */
  method InsertEvents(db: Database, events: seq<NewEvent>, idx: seq<nat>, rejected: array<Option<Rejection>>) returns (err: Option<DbError>)
    requires rejected.Length == |events| && idx != [] && Ascending(idx)
    requires forall k :: 0 <= k < |idx| ==> idx[k] < |events| && events[idx[k]].tenant == db.scope && rejected[idx[k]] == None
    modifies db`rows, rejected
    ensures err.None? <==> Sound(events, idx, db.verdicts)
    ensures err.None? ==> Inserted(events, idx, db.verdicts, old(db.rows), db.rows, old(rejected[..]), rejected[..])
  {
    var params := ParamsOf(events, idx);
    var tenant := events[idx[0]].tenant;
    err := db.TryBatch(params);
    if err.None? {
      AllInserted(events, idx, db.verdicts, old(db.rows), rejected[..]);
      return;
    }
    if Refusal(err.value, tenant).None? {
      ghost var k :| 0 <= k < |params| && db.verdicts(params[k]) == err;
      assert Fatal(events[idx[k]], db.verdicts);
      return;
    }
    err := InsertSingly(db, events, idx, params, tenant, rejected);
  }

  method InsertSingly(db: Database, events: seq<NewEvent>, idx: seq<nat>, params: seq<NewEvent>, tenant: string, rejected: array<Option<Rejection>>)
    returns (err: Option<DbError>)
    requires rejected.Length == |events| && |params| == |idx| && tenant == db.scope && Ascending(idx)
    requires forall k :: 0 <= k < |idx| ==> idx[k] < |events| && events[idx[k]].tenant == db.scope && rejected[idx[k]] == None
    requires forall k :: 0 <= k < |idx| ==> params[k] == events[idx[k]]
    modifies db`rows, rejected
    ensures err.None? <==> Sound(events, idx, db.verdicts)
    ensures err.None? ==> Inserted(events, idx, db.verdicts, old(db.rows), db.rows, old(rejected[..]), rejected[..])
  {
    for k := 0 to |idx|
      invariant Inserted(events, idx[..k], db.verdicts, old(db.rows), db.rows, old(rejected[..]), rejected[..])
      invariant Sound(events, idx[..k], db.verdicts)
    {
      ghost var rows, before := db.rows, rejected[..];
      OneReady(events, idx, k, db.verdicts, old(rejected[..]), before);
      err := InsertIt(db, params[k], idx[k], tenant, rejected);
      if err.Some? {
        assert Fatal(events[idx[k]], db.verdicts);
        return;
      }
      OneDone(events, idx, k, db.verdicts, old(db.rows), rows, db.rows, old(rejected[..]), before, rejected[..]);
    }
    assert idx[..|idx|] == idx;
    err := None;
  }

  lemma OneReady(events: seq<NewEvent>, idx: seq<nat>, k: nat, verdicts: Verdicts, first: Report, now: Report)
    requires k < |idx| && Ascending(idx) && forall j :: 0 <= j < |idx| ==> idx[j] < |events|
    requires Reported(events, idx[..k], verdicts, first, now)
    requires forall j :: 0 <= j < |idx| ==> first[idx[j]] == None
    ensures idx[k..k + 1] == [idx[k]] && now[idx[k]] == None
  {
    ChunkReady(events, idx, k, k + 1, verdicts, first, now);
    assert idx[k..k + 1][0] == idx[k];
  }

  lemma OneDone(events: seq<NewEvent>, idx: seq<nat>, k: nat, verdicts: Verdicts, start: seq<NewEvent>, rows: seq<NewEvent>, after: seq<NewEvent>,
                first: Report, now: Report, last: Report)
    requires k < |idx| && Ascending(idx) && forall j :: 0 <= j < |idx| ==> idx[j] < |events|
    requires Inserted(events, idx[..k], verdicts, start, rows, first, now) && Sound(events, idx[..k], verdicts)
    requires after == rows + if verdicts(events[idx[k]]).None? then [events[idx[k]]] else []
    requires |last| == |now| && last[idx[k]] == RejectionOf(events[idx[k]], verdicts) && !Fatal(events[idx[k]], verdicts)
    requires forall j :: 0 <= j < |now| && j != idx[k] ==> last[j] == now[j]
    ensures Inserted(events, idx[..k + 1], verdicts, start, after, first, last) && Sound(events, idx[..k + 1], verdicts)
  {
    assert idx[k..k + 1] == [idx[k]];
    OneReported(events, idx[k], verdicts, rows, after, now, last);
    ChunkThrough(events, idx, k, k + 1, verdicts, start, rows, after, first, now, last);
  }

  lemma OneReported(events: seq<NewEvent>, i: nat, verdicts: Verdicts, rows: seq<NewEvent>, after: seq<NewEvent>, now: Report, last: Report)
    requires i < |events| == |now| == |last| && last[i] == RejectionOf(events[i], verdicts) && !Fatal(events[i], verdicts)
    requires after == rows + if verdicts(events[i]).None? then [events[i]] else []
    requires forall j :: 0 <= j < |now| && j != i ==> last[j] == now[j]
    ensures Inserted(events, [i], verdicts, rows, after, now, last) && Sound(events, [i], verdicts)
  {
    assert [i][..0] == [] && StoredAt(events, [], verdicts) == [];
  }

  /** One event in a savepoint of its own: stored, or rejected with what the database said. */
  method InsertIt(db: Database, e: NewEvent, i: nat, tenant: string, rejected: array<Option<Rejection>>) returns (err: Option<DbError>)
    requires i < rejected.Length && e.tenant == tenant == db.scope && rejected[i] == None
    modifies db`rows, rejected
    ensures err.None? <==> !Fatal(e, db.verdicts)
    ensures err.None? ==> db.rows == old(db.rows) + if db.verdicts(e).None? then [e] else []
    ensures err.None? ==> rejected[i] == RejectionOf(e, db.verdicts)
    ensures forall j :: 0 <= j < rejected.Length && j != i ==> rejected[j] == old(rejected[j])
  {
    var params := [e];
    err := db.TryBatch(params);
    assert params[0] == e;
    if err.Some? {
      rejected[i] := Refusal(err.value, tenant);
      if rejected[i].Some? {
        err := None;
      }
    }
  }

  predicate Ascending(idx: seq<nat>) {
    forall a, b :: 0 <= a < b < |idx| ==> idx[a] < idx[b]
  }

  function ParamsOf(events: seq<NewEvent>, idx: seq<nat>): (params: seq<NewEvent>)
    requires forall k :: 0 <= k < |idx| ==> idx[k] < |events|
    ensures |params| == |idx| && forall k :: 0 <= k < |idx| ==> params[k] == events[idx[k]]
  {
    if idx == [] then [] else ParamsOf(events, idx[..|idx| - 1]) + [events[idx[|idx| - 1]]]
  }

  lemma AllInserted(events: seq<NewEvent>, idx: seq<nat>, verdicts: Verdicts, rows: seq<NewEvent>, report: Report)
    requires |report| == |events| && forall k :: 0 <= k < |idx| ==> idx[k] < |events| && report[idx[k]] == None
    requires forall k :: 0 <= k < |idx| ==> verdicts(ParamsOf(events, idx)[k]).None?
    ensures Inserted(events, idx, verdicts, rows, rows + ParamsOf(events, idx), report, report)
    ensures Sound(events, idx, verdicts)
  {
    forall k | 0 <= k < |idx|
      ensures verdicts(events[idx[k]]).None?
    {
      assert verdicts(ParamsOf(events, idx)[k]).None?;
    }
    AllStored(events, idx, verdicts);
  }

  lemma {:induction false} AllStored(events: seq<NewEvent>, idx: seq<nat>, verdicts: Verdicts)
    requires forall k :: 0 <= k < |idx| ==> idx[k] < |events| && verdicts(events[idx[k]]).None?
    ensures StoredAt(events, idx, verdicts) == ParamsOf(events, idx)
  {
    if idx != [] {
      AllStored(events, idx[..|idx| - 1], verdicts);
    }
  }

  // ---------- A whole request ----------

  /** The positions, among the first n, of a tenant's events, in order of arrival. */
  function Positions(events: seq<NewEvent>, tenant: string, n: nat): seq<nat>
    requires n <= |events|
  {
    if n == 0 then []
    else if events[n - 1].tenant == tenant then Positions(events, tenant, n - 1) + [n - 1]
    else Positions(events, tenant, n - 1)
  }

  lemma {:induction false} PositionsAre(events: seq<NewEvent>, tenant: string, n: nat)
    requires n <= |events|
    ensures var idx := Positions(events, tenant, n);
            && Ascending(idx)
            && (forall k :: 0 <= k < |idx| ==> idx[k] < n && events[idx[k]].tenant == tenant)
            && (forall i :: 0 <= i < n && events[i].tenant == tenant ==> i in idx)
  {
    if n > 0 {
      PositionsAre(events, tenant, n - 1);
    }
  }

  /** The known tenants among the first n events, in order of their first. */
  function Tenants(events: seq<NewEvent>, known: set<string>, n: nat): seq<string>
    requires n <= |events|
  {
    if n == 0 then []
    else
      var before := Tenants(events, known, n - 1);
      var t := events[n - 1].tenant;
      if t in known && t !in before then before + [t] else before
  }

  lemma {:induction false} TenantsAre(events: seq<NewEvent>, known: set<string>, n: nat)
    requires n <= |events|
    ensures var tenants := Tenants(events, known, n);
            && (forall t :: t in tenants ==> t in known && exists i :: 0 <= i < n && events[i].tenant == t)
            && (forall i :: 0 <= i < n && events[i].tenant in known ==> events[i].tenant in tenants)
            && (forall a, b :: 0 <= a < b < |tenants| ==> tenants[a] != tenants[b])
  {
    if n > 0 {
      TenantsAre(events, known, n - 1);
    }
  }

  /** What is stored of one tenant's events, among the first n. */
  function StoredUpTo(events: seq<NewEvent>, tenant: string, n: nat, verdicts: Verdicts): seq<NewEvent>
    requires n <= |events|
  {
    PositionsAre(events, tenant, n);
    StoredAt(events, Positions(events, tenant, n), verdicts)
  }

  function StoredOf(events: seq<NewEvent>, tenant: string, verdicts: Verdicts): seq<NewEvent> {
    StoredUpTo(events, tenant, |events|, verdicts)
  }

  /** What is stored, tenant by tenant. */
  function Stored(events: seq<NewEvent>, tenants: seq<string>, verdicts: Verdicts): seq<NewEvent> {
    if tenants == [] then []
    else Stored(events, tenants[..|tenants| - 1], verdicts) + StoredOf(events, tenants[|tenants| - 1], verdicts)
  }

  /** Why event e is not stored. */
  function Outcome(e: NewEvent, known: set<string>, verdicts: Verdicts): Option<Rejection> {
    if e.tenant !in known then Some(UnknownTenant(e.tenant)) else RejectionOf(e, verdicts)
  }

  /** The codes that name an event's own values: a value too large to index, or bad data, or a constraint. */
  predicate OwnFault(code: string) {
    code == "54000" || (2 <= |code| && code[0] == '2' && (code[1] == '2' || code[1] == '3'))
  }

  /**
   * An event is reported to be of an unknown tenant if its tenant was not
   * found, or had gone by the time it was stored, and to be one the database
   * will not store if that found fault with its values in any other way.
   */
  lemma OutcomeExactly(e: NewEvent, known: set<string>, verdicts: Verdicts)
    ensures var o, err := Outcome(e, known, verdicts), verdicts(e);
            && (o == Some(UnknownTenant(e.tenant)) <==> e.tenant !in known || err == Some(PgError("23503")))
            && (o == Some(Unstorable) <==> e.tenant in known && err.Some? && err.value.PgError? && err.value.code != "23503" && OwnFault(err.value.code))
            && (o == None <==> e.tenant in known && (err.None? || Fatal(e, verdicts)))
            && (Fatal(e, verdicts) <==> err.Some? && (err.value.OtherError? || !OwnFault(err.value.code)))
  {
    if verdicts(e).Some? && verdicts(e).value.PgError? {
      var code := verdicts(e).value.code;
      assert "23503"[0] == '2' && "23503"[1] == '3';
      assert "22" <= code <==> 2 <= |code| && code[0] == '2' && code[1] == '2';
      assert "23" <= code <==> 2 <= |code| && code[0] == '2' && code[1] == '3';
    }
  }

  /** Something other than an event's own values is wrong. */
  ghost predicate Broken(events: seq<NewEvent>, known: set<string>, verdicts: Verdicts, scopeFails: string -> bool) {
    exists i :: 0 <= i < |events| && events[i].tenant in known && (scopeFails(events[i].tenant) || Fatal(events[i], verdicts))
  }

  /** Distinct tenants, and which of them are known. */
  method KnownTenants(db: Database, events: seq<NewEvent>) returns (known: Result<set<string>, DbError>)
    ensures known.Failure? <==> db.lookupFails
    ensures known.Success? ==> forall i :: 0 <= i < |events| ==> (events[i].tenant in known.value <==> events[i].tenant in db.tenants)
  {
    var ids: seq<string> := [];
    for i := 0 to |events|
      invariant forall j :: 0 <= j < i ==> events[j].tenant in ids
    {
      if events[i].tenant !in ids {
        ids := ids + [events[i].tenant];
      }
    }
    if db.lookupFails {
      return Failure(OtherError);
    }
    known := Success(set t | t in ids && t in db.tenants);
  }

  /** The positions of each known tenant's events; those of unknown tenants are rejected. */
  method GroupByTenant(events: seq<NewEvent>, known: set<string>, ghost all: set<string>, rejected: array<Option<Rejection>>)
    returns (tenants: seq<string>, byTenant: map<string, seq<nat>>)
    requires rejected.Length == |events| && forall i :: 0 <= i < |events| ==> rejected[i] == None
    requires forall i :: 0 <= i < |events| ==> (events[i].tenant in known <==> events[i].tenant in all)
    modifies rejected
    ensures tenants == Tenants(events, all, |events|)
    ensures forall t :: t in tenants ==> t in byTenant && byTenant[t] == Positions(events, t, |events|)
    ensures forall i :: 0 <= i < |events| ==>
              rejected[i] == if events[i].tenant in all then None else Some(UnknownTenant(events[i].tenant))
  {
    tenants, byTenant := [], map[];
    for i := 0 to |events|
      invariant Grouped(events, all, i, tenants, byTenant)
      invariant forall j :: 0 <= j < |events| ==>
                  rejected[j] == if i <= j || events[j].tenant in all then None else Some(UnknownTenant(events[j].tenant))
    {
      var t := events[i].tenant;
      if t !in known {
        GroupUnknown(events, all, i, tenants, byTenant);
        rejected[i] := Some(UnknownTenant(t));
        continue;
      }
      if t !in byTenant {
        GroupNew(events, all, i, tenants, byTenant);
        assert byTenant[t := []][t := [] + [i]] == byTenant[t := [i]];
        tenants := tenants + [t];
        byTenant := byTenant[t := []];
      } else {
        GroupMore(events, all, i, tenants, byTenant);
      }
      byTenant := byTenant[t := byTenant[t] + [i]];
    }
  }

  ghost predicate Grouped(events: seq<NewEvent>, all: set<string>, n: nat, tenants: seq<string>, byTenant: map<string, seq<nat>>)
    requires n <= |events|
  {
    && tenants == Tenants(events, all, n)
    && (forall t :: t in byTenant <==> t in tenants)
    && (forall t :: t in tenants ==> byTenant[t] == Positions(events, t, n))
  }

  lemma GroupUnknown(events: seq<NewEvent>, all: set<string>, n: nat, tenants: seq<string>, byTenant: map<string, seq<nat>>)
    requires n < |events| && Grouped(events, all, n, tenants, byTenant) && events[n].tenant !in all
    ensures Grouped(events, all, n + 1, tenants, byTenant)
  {
    TenantsAre(events, all, n);
  }

  lemma GroupNew(events: seq<NewEvent>, all: set<string>, n: nat, tenants: seq<string>, byTenant: map<string, seq<nat>>)
    requires n < |events| && Grouped(events, all, n, tenants, byTenant)
    requires events[n].tenant in all && events[n].tenant !in byTenant
    ensures Grouped(events, all, n + 1, tenants + [events[n].tenant], byTenant[events[n].tenant := [n]])
  {
    NoneYet(events, all, events[n].tenant, n);
  }

  lemma GroupMore(events: seq<NewEvent>, all: set<string>, n: nat, tenants: seq<string>, byTenant: map<string, seq<nat>>)
    requires n < |events| && Grouped(events, all, n, tenants, byTenant)
    requires events[n].tenant in all && events[n].tenant in byTenant
    ensures Grouped(events, all, n + 1, tenants, byTenant[events[n].tenant := byTenant[events[n].tenant] + [n]])
  {
  }

  lemma {:induction false} NoneYet(events: seq<NewEvent>, known: set<string>, t: string, n: nat)
    requires n <= |events| && t in known && t !in Tenants(events, known, n)
    ensures Positions(events, t, n) == []
  {
    if n > 0 {
      NoneYet(events, known, t, n - 1);
    }
  }

  /** Inserts one tenant's events, chunk by chunk. */
  method InsertTenant(db: Database, events: seq<NewEvent>, idx: seq<nat>, chunk: nat, rejected: array<Option<Rejection>>) returns (err: Option<DbError>)
    requires rejected.Length == |events| && Ascending(idx) && 1 <= chunk
    requires forall k :: 0 <= k < |idx| ==> idx[k] < |events| && events[idx[k]].tenant == db.scope && rejected[idx[k]] == None
    modifies db`rows, rejected
    ensures err.None? <==> Sound(events, idx, db.verdicts)
    ensures err.None? ==> Inserted(events, idx, db.verdicts, old(db.rows), db.rows, old(rejected[..]), rejected[..])
  {
    var from := 0;
    assert db.rows + [] == db.rows;
    while from < |idx|
      invariant 0 <= from <= |idx|
      invariant Through(events, idx, from, db.verdicts, old(db.rows), db.rows, old(rejected[..]), rejected[..])
    {
      var to := if from + chunk < |idx| then from + chunk else |idx|;
      err := InsertChunk(db, events, idx, from, to, rejected, old(db.rows), old(rejected[..]));
      if err.Some? {
        return;
      }
      from := to;
    }
    assert idx[..|idx|] == idx;
    err := None;
  }

  /** The first n of the events at idx have been stored, or reported. */
  ghost predicate Through(events: seq<NewEvent>, idx: seq<nat>, n: nat, verdicts: Verdicts, start: seq<NewEvent>, rows: seq<NewEvent>,
                          first: Report, now: Report)
    requires n <= |idx| && forall k :: 0 <= k < |idx| ==> idx[k] < |events|
  {
    Inserted(events, idx[..n], verdicts, start, rows, first, now) && Sound(events, idx[..n], verdicts)
  }

  method InsertChunk(db: Database, events: seq<NewEvent>, idx: seq<nat>, from: nat, to: nat, rejected: array<Option<Rejection>>,
                     ghost start: seq<NewEvent>, ghost first: Report)
    returns (err: Option<DbError>)
    requires rejected.Length == |events| == |first| && Ascending(idx) && from < to <= |idx|
    requires forall k :: 0 <= k < |idx| ==> idx[k] < |events| && events[idx[k]].tenant == db.scope && first[idx[k]] == None
    requires Through(events, idx, from, db.verdicts, start, db.rows, first, rejected[..])
    modifies db`rows, rejected
    ensures err.None? ==> Through(events, idx, to, db.verdicts, start, db.rows, first, rejected[..])
    ensures err.Some? ==> !Sound(events, idx, db.verdicts)
  {
    ghost var rows, before := db.rows, rejected[..];
    ChunkReady(events, idx, from, to, db.verdicts, first, before);
    err := InsertEvents(db, events, idx[from..to], rejected);
    SoundJoins(events, idx, from, to, db.verdicts);
    if err.None? {
      ChunkThrough(events, idx, from, to, db.verdicts, start, rows, db.rows, first, before, rejected[..]);
    }
  }

  lemma ChunkThrough(events: seq<NewEvent>, idx: seq<nat>, from: nat, to: nat, verdicts: Verdicts, start: seq<NewEvent>,
                     rows: seq<NewEvent>, after: seq<NewEvent>, first: Report, then_: Report, last: Report)
    requires from <= to <= |idx| && Ascending(idx) && forall k :: 0 <= k < |idx| ==> idx[k] < |events|
    requires Through(events, idx, from, verdicts, start, rows, first, then_)
    requires Inserted(events, idx[from..to], verdicts, rows, after, then_, last) && Sound(events, idx[from..to], verdicts)
    ensures Through(events, idx, to, verdicts, start, after, first, last)
  {
    ChunkDone(events, idx, from, to, verdicts, first, then_, last);
    SoundJoins(events, idx, from, to, verdicts);
    assert start + (StoredAt(events, idx[..from], verdicts) + StoredAt(events, idx[from..to], verdicts)) == after;
  }

  lemma SoundJoins(events: seq<NewEvent>, idx: seq<nat>, from: nat, to: nat, verdicts: Verdicts)
    requires from <= to <= |idx| && forall k :: 0 <= k < |idx| ==> idx[k] < |events|
    ensures Sound(events, idx[..to], verdicts) <==> Sound(events, idx[..from], verdicts) && Sound(events, idx[from..to], verdicts)
    ensures Sound(events, idx, verdicts) ==> Sound(events, idx[..to], verdicts)
  {
    assert forall k :: 0 <= k < from ==> idx[..from][k] == idx[k] == idx[..to][k];
    assert forall k :: from <= k < to ==> idx[from..to][k - from] == idx[k] == idx[..to][k];
  }

  lemma ChunkReady(events: seq<NewEvent>, idx: seq<nat>, from: nat, to: nat, verdicts: Verdicts, first: Report, now: Report)
    requires from <= to <= |idx| && Ascending(idx) && forall k :: 0 <= k < |idx| ==> idx[k] < |events|
    requires Reported(events, idx[..from], verdicts, first, now)
    requires forall k :: 0 <= k < |idx| ==> first[idx[k]] == None
    ensures Ascending(idx[from..to])
    ensures forall k :: 0 <= k < to - from ==>
              idx[from..to][k] == idx[from + k] && idx[from..to][k] < |events| && now[idx[from..to][k]] == None
  {
    NotYet(idx, from, to);
  }

  lemma ChunkDone(events: seq<NewEvent>, idx: seq<nat>, from: nat, to: nat, verdicts: Verdicts, first: Report, then_: Report, last: Report)
    requires from <= to <= |idx| && Ascending(idx) && forall k :: 0 <= k < |idx| ==> idx[k] < |events|
    requires Reported(events, idx[..from], verdicts, first, then_) && Reported(events, idx[from..to], verdicts, then_, last)
    ensures Reported(events, idx[..to], verdicts, first, last)
    ensures StoredAt(events, idx[..to], verdicts) == StoredAt(events, idx[..from], verdicts) + StoredAt(events, idx[from..to], verdicts)
  {
    ChunksApart(idx, from, to);
    BothDone(events, idx[..from], idx[from..to], verdicts, first, then_, last);
  }

  lemma BothDone(events: seq<NewEvent>, a: seq<nat>, b: seq<nat>, verdicts: Verdicts, first: Report, then_: Report, last: Report)
    requires Reported(events, a, verdicts, first, then_) && Reported(events, b, verdicts, then_, last)
    requires forall j, k :: 0 <= j < |a| && 0 <= k < |b| ==> a[j] != b[k]
    ensures Reported(events, a + b, verdicts, first, last)
    ensures StoredAt(events, a + b, verdicts) == StoredAt(events, a, verdicts) + StoredAt(events, b, verdicts)
  {
    StoredJoins(events, a, b, verdicts);
    ReportsJoin(events, a, b, verdicts, first, then_, last);
  }

  lemma ChunksApart(idx: seq<nat>, from: nat, to: nat)
    requires from <= to <= |idx| && Ascending(idx)
    ensures forall j, k :: 0 <= j < |idx[..from]| && 0 <= k < |idx[from..to]| ==> idx[..from][j] != idx[from..to][k]
    ensures idx[..to] == idx[..from] + idx[from..to]
  {}

  lemma NotYet(idx: seq<nat>, from: nat, to: nat)
    requires Ascending(idx) && from <= to <= |idx|
    ensures Ascending(idx[from..to])
    ensures forall j, k :: 0 <= j < from <= k < |idx| ==> idx[j] != idx[k]
    ensures forall k :: from <= k < to ==> idx[k] !in idx[..from]
  {}

  /** What is reported once the first n tenants have been inserted. */
  function Midway(e: NewEvent, known: set<string>, tenants: seq<string>, verdicts: Verdicts): Option<Rejection> {
    if e.tenant !in known then Some(UnknownTenant(e.tenant))
    else if e.tenant in tenants then RejectionOf(e, verdicts) else None
  }

  ghost predicate ReportedUpTo(events: seq<NewEvent>, known: set<string>, tenants: seq<string>, verdicts: Verdicts, report: Report) {
    |report| == |events| && forall i :: 0 <= i < |events| ==> report[i] == Midway(events[i], known, tenants, verdicts)
  }

  /** The tenant's events can be inserted, and none of them meets an error that is not about it. */
  ghost predicate Works(events: seq<NewEvent>, tenant: string, verdicts: Verdicts, scopeFails: string -> bool) {
    !scopeFails(tenant) && forall i :: 0 <= i < |events| && events[i].tenant == tenant ==> !Fatal(events[i], verdicts)
  }

  lemma TenantWorks(events: seq<NewEvent>, tenant: string, verdicts: Verdicts, scopeFails: string -> bool)
    ensures forall k :: 0 <= k < |Positions(events, tenant, |events|)| ==> Positions(events, tenant, |events|)[k] < |events|
    ensures Works(events, tenant, verdicts, scopeFails) <==>
              !scopeFails(tenant) && Sound(events, Positions(events, tenant, |events|), verdicts)
  {
    PositionsAre(events, tenant, |events|);
  }

  lemma TenantReady(events: seq<NewEvent>, known: set<string>, tenants: seq<string>, n: nat, verdicts: Verdicts, report: Report)
    requires tenants == Tenants(events, known, |events|) && n < |tenants|
    requires ReportedUpTo(events, known, tenants[..n], verdicts, report)
    ensures var idx := Positions(events, tenants[n], |events|);
            Ascending(idx) && forall k :: 0 <= k < |idx| ==>
              idx[k] < |events| && events[idx[k]].tenant == tenants[n] && report[idx[k]] == None
  {
    PositionsAre(events, tenants[n], |events|);
    TenantsAre(events, known, |events|);
    assert tenants[n] in tenants && tenants[n] !in tenants[..n];
  }

  lemma TenantDone(events: seq<NewEvent>, known: set<string>, tenants: seq<string>, n: nat, verdicts: Verdicts, first: Report, last: Report)
    requires tenants == Tenants(events, known, |events|) && n < |tenants|
    requires ReportedUpTo(events, known, tenants[..n], verdicts, first)
    requires Reported(events, Positions(events, tenants[n], |events|), verdicts, first, last)
    ensures ReportedUpTo(events, known, tenants[..n + 1], verdicts, last)
    ensures Stored(events, tenants[..n + 1], verdicts) ==
            (PositionsAre(events, tenants[n], |events|);
             Stored(events, tenants[..n], verdicts) + StoredAt(events, Positions(events, tenants[n], |events|), verdicts))
  {
    PositionsAre(events, tenants[n], |events|);
    TenantsAre(events, known, |events|);
    assert tenants[..n + 1] == tenants[..n] + [tenants[n]] && tenants[..n + 1][..n] == tenants[..n];
    assert tenants[n] in tenants && tenants[n] !in tenants[..n];
    var idx := Positions(events, tenants[n], |events|);
    forall i | 0 <= i < |events|
      ensures last[i] == Midway(events[i], known, tenants[..n + 1], verdicts)
    {
      if events[i].tenant == tenants[n] {
        assert i in idx;
        var k :| 0 <= k < |idx| && idx[k] == i;
      } else {
        assert i !in idx;
      }
    }
  }

  /** Nothing is broken exactly if every tenant of the request works. */
  lemma BrokenTenant(events: seq<NewEvent>, known: set<string>, verdicts: Verdicts, scopeFails: string -> bool)
    ensures Broken(events, known, verdicts, scopeFails) <==>
              exists k :: 0 <= k < |Tenants(events, known, |events|)| && !Works(events, Tenants(events, known, |events|)[k], verdicts, scopeFails)
  {
    var tenants := Tenants(events, known, |events|);
    TenantsAre(events, known, |events|);
    if Broken(events, known, verdicts, scopeFails) {
      var i :| 0 <= i < |events| && events[i].tenant in known && (scopeFails(events[i].tenant) || Fatal(events[i], verdicts));
      var k :| 0 <= k < |tenants| && tenants[k] == events[i].tenant;
      assert !Works(events, tenants[k], verdicts, scopeFails);
    }
    if k :| 0 <= k < |tenants| && !Works(events, tenants[k], verdicts, scopeFails) {
      assert tenants[k] in tenants;
    }
  }

  /** Every tenant's events in one transaction, which any error rolls back. */
  method InsertAll(db: Database, events: seq<NewEvent>, tenants: seq<string>, byTenant: map<string, seq<nat>>, chunk: nat, rejected: array<Option<Rejection>>)
    returns (err: Option<DbError>)
    requires rejected.Length == |events| && 1 <= chunk && tenants == Tenants(events, db.tenants, |events|)
    requires forall t :: t in tenants ==> t in byTenant && byTenant[t] == Positions(events, t, |events|)
    requires ReportedUpTo(events, db.tenants, [], db.verdicts, rejected[..])
    modifies db, rejected
    ensures err.Some? <==> Broken(events, db.tenants, db.verdicts, db.scopeFails)
    ensures err.Some? ==> db.rows == old(db.rows)
    ensures err.None? ==> db.rows == old(db.rows) + Stored(events, tenants, db.verdicts)
    ensures err.None? ==> ReportedUpTo(events, db.tenants, tenants, db.verdicts, rejected[..])
  {
    var before := db.rows;
    assert tenants[..0] == [] && before + [] == before;
    for t := 0 to |tenants|
      invariant Progress(events, db.tenants, tenants, t, db.verdicts, before, db.rows, rejected[..])
      invariant AllWork(events, tenants, t, db.verdicts, db.scopeFails)
    {
      ghost var rows, report := db.rows, rejected[..];
      TenantReady(events, db.tenants, tenants, t, db.verdicts, report);
      TenantWorks(events, tenants[t], db.verdicts, db.scopeFails);
      assert tenants[t] in tenants;
      err := InsertOf(db, events, tenants[t], byTenant[tenants[t]], chunk, rejected);
      if err.Some? {
        BrokenTenant(events, db.tenants, db.verdicts, db.scopeFails);
        db.rows := before;
        return;
      }
      ProgressStep(events, db.tenants, tenants, t, db.verdicts, before, rows, db.rows, report, rejected[..]);
    }
    BrokenTenant(events, db.tenants, db.verdicts, db.scopeFails);
    assert tenants[..|tenants|] == tenants;
    err := None;
  }

  /** The first n tenants' events have been inserted, and no others. */
  ghost predicate Progress(events: seq<NewEvent>, known: set<string>, tenants: seq<string>, n: nat, verdicts: Verdicts,
                           before: seq<NewEvent>, rows: seq<NewEvent>, report: Report)
    requires n <= |tenants|
  {
    rows == before + Stored(events, tenants[..n], verdicts) && ReportedUpTo(events, known, tenants[..n], verdicts, report)
  }

  ghost predicate AllWork(events: seq<NewEvent>, tenants: seq<string>, n: nat, verdicts: Verdicts, scopeFails: string -> bool)
    requires n <= |tenants|
  {
    forall k :: 0 <= k < n ==> Works(events, tenants[k], verdicts, scopeFails)
  }

  lemma ProgressStep(events: seq<NewEvent>, known: set<string>, tenants: seq<string>, n: nat, verdicts: Verdicts,
                     before: seq<NewEvent>, rows: seq<NewEvent>, after: seq<NewEvent>, first: Report, last: Report)
    requires tenants == Tenants(events, known, |events|) && n < |tenants|
    requires Progress(events, known, tenants, n, verdicts, before, rows, first)
    requires forall k :: 0 <= k < |Positions(events, tenants[n], |events|)| ==> Positions(events, tenants[n], |events|)[k] < |events|
    requires Inserted(events, Positions(events, tenants[n], |events|), verdicts, rows, after, first, last)
    ensures Progress(events, known, tenants, n + 1, verdicts, before, after, last)
  {
    TenantDone(events, known, tenants, n, verdicts, first, last);
  }

  method InsertOf(db: Database, events: seq<NewEvent>, tenant: string, idx: seq<nat>, chunk: nat, rejected: array<Option<Rejection>>) returns (err: Option<DbError>)
    requires rejected.Length == |events| && Ascending(idx) && 1 <= chunk
    requires forall k :: 0 <= k < |idx| ==> idx[k] < |events| && events[idx[k]].tenant == tenant && rejected[idx[k]] == None
    modifies db, rejected
    ensures err.None? <==> !db.scopeFails(tenant) && Sound(events, idx, db.verdicts)
    ensures err.None? ==> Inserted(events, idx, db.verdicts, old(db.rows), db.rows, old(rejected[..]), rejected[..])
  {
    if db.scopeFails(tenant) {
      return Some(OtherError);
    }
    db.scope := tenant;
    err := InsertTenant(db, events, idx, chunk, rejected);
  }

  /**
   * Stores what it can of a request, and reports by position why any event was
   * not stored. An error means nothing was stored.
   */
  method Insert(db: Database, events: seq<NewEvent>, chunk: nat) returns (r: Result<seq<Option<Rejection>>, DbError>)
    requires 1 <= chunk
    modifies db
    ensures r.Failure? <==> events != [] && (db.lookupFails || Broken(events, db.tenants, db.verdicts, db.scopeFails))
    ensures r.Failure? ==> db.rows == old(db.rows)
    ensures r.Success? ==> db.rows == old(db.rows) + Stored(events, Tenants(events, db.tenants, |events|), db.verdicts)
    ensures r.Success? ==> |r.value| == |events| && forall i :: 0 <= i < |events| ==> r.value[i] == Outcome(events[i], db.tenants, db.verdicts)
  {
    var rejected := new Option<Rejection>[|events|](_ => None);
    if |events| == 0 {
      return Success(rejected[..]);
    }
    var known := KnownTenants(db, events);
    if known.Failure? {
      return Failure(known.error);
    }
    var tenants, byTenant := GroupByTenant(events, known.value, db.tenants, rejected);
    var err := InsertAll(db, events, tenants, byTenant, chunk, rejected);
    if err.Some? {
      return Failure(err.value);
    }
    TenantsAre(events, db.tenants, |events|);
    r := Success(rejected[..]);
  }

  // ---------- Against inserting each event singly ----------

  /** What inserting each event of a known tenant singly, in order of arrival, would store. */
  function Singly(events: seq<NewEvent>, known: set<string>, verdicts: Verdicts): seq<NewEvent> {
    if events == [] then []
    else
      var e := events[|events| - 1];
      Singly(events[..|events| - 1], known, verdicts) + if e.tenant in known && verdicts(e).None? then [e] else []
  }

  /** One tenant's rows, in their order. */
  function OfTenant(rows: seq<NewEvent>, tenant: string): seq<NewEvent> {
    if rows == [] then []
    else
      var e := rows[|rows| - 1];
      OfTenant(rows[..|rows| - 1], tenant) + if e.tenant == tenant then [e] else []
  }

  lemma {:induction false} OfTenantJoins(a: seq<NewEvent>, b: seq<NewEvent>, tenant: string)
    ensures OfTenant(a + b, tenant) == OfTenant(a, tenant) + OfTenant(b, tenant)
  {
    if b == [] {
      assert a + b == a;
    } else {
      OfTenantJoins(a, b[..|b| - 1], tenant);
      assert (a + b)[..|a + b| - 1] == a + b[..|b| - 1];
    }
  }

  lemma OfTenantAppends(rows: seq<NewEvent>, e: NewEvent, tenant: string)
    ensures OfTenant(rows + [e], tenant) == if e.tenant == tenant then OfTenant(rows, tenant) + [e] else OfTenant(rows, tenant)
  {
    assert (rows + [e])[..|rows|] == rows;
  }

  lemma StoredAppends(events: seq<NewEvent>, idx: seq<nat>, i: nat, verdicts: Verdicts)
    requires i < |events| && forall k :: 0 <= k < |idx| ==> idx[k] < |events|
    ensures StoredAt(events, idx + [i], verdicts) ==
            if verdicts(events[i]).None? then StoredAt(events, idx, verdicts) + [events[i]] else StoredAt(events, idx, verdicts)
  {
    assert (idx + [i])[..|idx|] == idx;
  }

  lemma {:induction false} OneTenantsRows(events: seq<NewEvent>, idx: seq<nat>, of: string, verdicts: Verdicts, tenant: string)
    requires forall k :: 0 <= k < |idx| ==> idx[k] < |events| && events[idx[k]].tenant == of
    ensures OfTenant(StoredAt(events, idx, verdicts), tenant) == if of == tenant then StoredAt(events, idx, verdicts) else []
  {
    if idx != [] {
      var n := |idx| - 1;
      OneTenantsRows(events, idx[..n], of, verdicts, tenant);
      assert idx == idx[..n] + [idx[n]];
      StoredAppends(events, idx[..n], idx[n], verdicts);
      OfTenantAppends(StoredAt(events, idx[..n], verdicts), events[idx[n]], tenant);
    }
  }

  lemma StoredGrows(events: seq<NewEvent>, tenant: string, n: nat, verdicts: Verdicts)
    requires n < |events|
    ensures StoredUpTo(events, tenant, n + 1, verdicts) ==
            if events[n].tenant == tenant && verdicts(events[n]).None? then StoredUpTo(events, tenant, n, verdicts) + [events[n]]
            else StoredUpTo(events, tenant, n, verdicts)
  {
    PositionsAre(events, tenant, n);
    StoredAppends(events, Positions(events, tenant, n), n, verdicts);
  }

  lemma {:induction false} SinglyOfTenant(events: seq<NewEvent>, n: nat, known: set<string>, verdicts: Verdicts, tenant: string)
    requires n <= |events| && tenant in known
    ensures OfTenant(Singly(events[..n], known, verdicts), tenant) == StoredUpTo(events, tenant, n, verdicts)
    decreases n
  {
    if n > 0 {
      SinglyOfTenant(events, n - 1, known, verdicts, tenant);
      SinglyAppends(events, n - 1, known, verdicts);
      OfTenantAppends(Singly(events[..n - 1], known, verdicts), events[n - 1], tenant);
      StoredGrows(events, tenant, n - 1, verdicts);
    }
  }

  lemma SinglyAppends(events: seq<NewEvent>, n: nat, known: set<string>, verdicts: Verdicts)
    requires n < |events|
    ensures Singly(events[..n + 1], known, verdicts) ==
            if events[n].tenant in known && verdicts(events[n]).None? then Singly(events[..n], known, verdicts) + [events[n]]
            else Singly(events[..n], known, verdicts)
  {
    assert events[..n + 1][..n] == events[..n];
  }

  predicate Apart(tenants: seq<string>) {
    forall a, b :: 0 <= a < b < |tenants| ==> tenants[a] != tenants[b]
  }

  lemma {:induction false} StoredOfTenant(events: seq<NewEvent>, tenants: seq<string>, verdicts: Verdicts, tenant: string)
    requires Apart(tenants)
    ensures OfTenant(Stored(events, tenants, verdicts), tenant) == if tenant in tenants then StoredOf(events, tenant, verdicts) else []
  {
    if tenants != [] {
      var n := |tenants| - 1;
      InLast(tenants, tenant);
      StoredOfTenant(events, tenants[..n], verdicts, tenant);
      OneStored(events, tenants[n], verdicts, tenant);
      OfTenantJoins(Stored(events, tenants[..n], verdicts), StoredOf(events, tenants[n], verdicts), tenant);
    }
  }

  lemma OneStored(events: seq<NewEvent>, of: string, verdicts: Verdicts, tenant: string)
    ensures OfTenant(StoredOf(events, of, verdicts), tenant) == if of == tenant then StoredOf(events, of, verdicts) else []
  {
    PositionsAre(events, of, |events|);
    OneTenantsRows(events, Positions(events, of, |events|), of, verdicts, tenant);
  }

  lemma InLast(tenants: seq<string>, t: string)
    requires tenants != [] && Apart(tenants)
    ensures Apart(tenants[..|tenants| - 1])
    ensures t in tenants <==> t in tenants[..|tenants| - 1] || t == tenants[|tenants| - 1]
    ensures tenants[|tenants| - 1] !in tenants[..|tenants| - 1]
  {}

  /** Chunks, savepoints and grouping by tenant store each tenant just what inserting singly would, in order of arrival. */
  lemma SameAsSingly(events: seq<NewEvent>, known: set<string>, verdicts: Verdicts, tenant: string)
    ensures OfTenant(Stored(events, Tenants(events, known, |events|), verdicts), tenant) == OfTenant(Singly(events, known, verdicts), tenant)
  {
    var tenants := Tenants(events, known, |events|);
    TenantsAre(events, known, |events|);
    StoredOfTenant(events, tenants, verdicts, tenant);
    assert events[..|events|] == events;
    if tenant in known {
      SinglyOfTenant(events, |events|, known, verdicts, tenant);
      if tenant !in tenants {
        NoneYet(events, known, tenant, |events|);
      }
    } else {
      NoneOfUnknown(events, known, verdicts, tenant);
    }
  }

  lemma {:induction false} NoneOfUnknown(events: seq<NewEvent>, known: set<string>, verdicts: Verdicts, tenant: string)
    requires tenant !in known
    ensures OfTenant(Singly(events, known, verdicts), tenant) == []
  {
    if events != [] {
      var n := |events| - 1;
      var before := Singly(events[..n], known, verdicts);
      NoneOfUnknown(events[..n], known, verdicts, tenant);
      assert (before + [events[n]])[..|before|] == before && before + [] == before;
    }
  }

  lemma {:induction false} CountOfTenant(rows: seq<NewEvent>, e: NewEvent)
    ensures multiset(OfTenant(rows, e.tenant))[e] == multiset(rows)[e]
  {
    if rows != [] {
      var n := |rows| - 1;
      CountOfTenant(rows[..n], e);
      assert rows == rows[..n] + [rows[n]];
    }
  }

  /** And altogether the same rows, none lost and none twice. */
  lemma SameRows(events: seq<NewEvent>, known: set<string>, verdicts: Verdicts)
    ensures multiset(Stored(events, Tenants(events, known, |events|), verdicts)) == multiset(Singly(events, known, verdicts))
  {
    var stored, singly := Stored(events, Tenants(events, known, |events|), verdicts), Singly(events, known, verdicts);
    forall e: NewEvent
      ensures multiset(stored)[e] == multiset(singly)[e]
    {
      SameAsSingly(events, known, verdicts, e.tenant);
      CountOfTenant(stored, e);
      CountOfTenant(singly, e);
    }
  }
}
