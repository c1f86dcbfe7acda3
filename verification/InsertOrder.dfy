/** In which order an insert stores its rows. */
module InsertOrder {
  import opened Wrappers
  import opened Insert

  /** Some event of one comes before all of other's, among the first n. */
  ghost predicate SeenFirst(events: seq<NewEvent>, n: nat, one: string, other: string)
    requires n <= |events|
  {
    exists i :: 0 <= i < n && events[i].tenant == one && forall j :: 0 <= j <= i ==> events[j].tenant != other
  }

  ghost predicate InTurn(events: seq<NewEvent>, n: nat, tenants: seq<string>)
    requires n <= |events|
  {
    forall a, b :: 0 <= a < b < |tenants| ==> SeenFirst(events, n, tenants[a], tenants[b])
  }

  lemma {:induction false} TenantsInTurn(events: seq<NewEvent>, known: set<string>, n: nat)
    requires n <= |events|
    ensures InTurn(events, n, Tenants(events, known, n))
  {
    if n > 0 {
      var before, t := Tenants(events, known, n - 1), events[n - 1].tenant;
      TenantsInTurn(events, known, n - 1);
      TenantsAre(events, known, n - 1);
      forall a, b | 0 <= a < b < |before|
        ensures SeenFirst(events, n, before[a], before[b])
      {
        var i :| 0 <= i < n - 1 && events[i].tenant == before[a] && forall j :: 0 <= j <= i ==> events[j].tenant != before[b];
      }
      if t in known && t !in before {
        forall a | 0 <= a < |before|
          ensures SeenFirst(events, n, before[a], t)
        {
          assert before[a] in before;
          var i :| 0 <= i < n - 1 && events[i].tenant == before[a];
          assert forall j :: 0 <= j <= i ==> events[j].tenant != t;
        }
      }
    }
  }

  lemma {:induction false} RowsAreOfTenant(events: seq<NewEvent>, idx: seq<nat>, verdicts: Verdicts, tenant: string)
    requires forall k :: 0 <= k < |idx| ==> idx[k] < |events| && events[idx[k]].tenant == tenant
    ensures forall i :: 0 <= i < |StoredAt(events, idx, verdicts)| ==> StoredAt(events, idx, verdicts)[i].tenant == tenant
    decreases |idx|
  {
    if idx != [] {
      RowsAreOfTenant(events, idx[..|idx| - 1], verdicts, tenant);
    }
  }

  lemma StoredAreOfTenant(events: seq<NewEvent>, tenant: string, verdicts: Verdicts)
    ensures forall i :: 0 <= i < |StoredOf(events, tenant, verdicts)| ==> StoredOf(events, tenant, verdicts)[i].tenant == tenant
  {
    PositionsAre(events, tenant, |events|);
    RowsAreOfTenant(events, Positions(events, tenant, |events|), verdicts, tenant);
  }

  /** Each row but its own tenant's comes after those of the tenants seen before. */
  ghost predicate RowsInTurn(events: seq<NewEvent>, rows: seq<NewEvent>) {
    forall k, l :: 0 <= k < l < |rows| ==>
      rows[k].tenant == rows[l].tenant || SeenFirst(events, |events|, rows[k].tenant, rows[l].tenant)
  }

  lemma {:induction false} StoredInTurn(events: seq<NewEvent>, tenants: seq<string>, verdicts: Verdicts)
    requires InTurn(events, |events|, tenants)
    ensures var rows := Stored(events, tenants, verdicts);
            RowsInTurn(events, rows) && forall i :: 0 <= i < |rows| ==> rows[i].tenant in tenants
    decreases |tenants|
  {
    if tenants != [] {
      var before, t := tenants[..|tenants| - 1], tenants[|tenants| - 1];
      StoredInTurn(events, before, verdicts);
      StoredAreOfTenant(events, t, verdicts);
      RowsJoin(events, before, t, Stored(events, before, verdicts), StoredOf(events, t, verdicts));
    }
  }

  lemma RowsJoin(events: seq<NewEvent>, tenants: seq<string>, t: string, before: seq<NewEvent>, last: seq<NewEvent>)
    requires RowsInTurn(events, before) && (forall i :: 0 <= i < |before| ==> before[i].tenant in tenants)
    requires InTurn(events, |events|, tenants + [t]) && forall i :: 0 <= i < |last| ==> last[i].tenant == t
    ensures RowsInTurn(events, before + last) && forall i :: 0 <= i < |before + last| ==> (before + last)[i].tenant in tenants + [t]
  {
    forall k | 0 <= k < |before|
      ensures SeenFirst(events, |events|, before[k].tenant, t)
    {
      var a :| 0 <= a < |tenants| && tenants[a] == before[k].tenant;
      assert (tenants + [t])[a] == tenants[a] && (tenants + [t])[|tenants|] == t;
    }
  }

  /** An insert stores its rows tenant by tenant: those whose tenant's first event came first, and each tenant's together. */
  lemma StoredByTenant(events: seq<NewEvent>, known: set<string>, verdicts: Verdicts)
    ensures RowsInTurn(events, Stored(events, Tenants(events, known, |events|), verdicts))
  {
    TenantsInTurn(events, known, |events|);
    StoredInTurn(events, Tenants(events, known, |events|), verdicts);
  }
}
