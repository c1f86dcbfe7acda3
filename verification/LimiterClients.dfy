/** What limiters that share a backend promise each client: its attempts are counted apart from everyone else's. */
module LimiterClients {
  import opened Limiter
  import opened LimiterRuns
  import opened LimiterAdvice

  /** A limiter, by its name and how many attempts a minute it allows each client. */
  datatype Named = Named(name: string, perMinute: int)

  /** A client's attempt with a limiter. */
  datatype Call = Call(limiter: Named, client: string, now: nat)

  function KeyFor(name: string, client: string): string {
    "ratelimit:" + name + ":" + client
  }

  function AttemptOf(c: Call): Attempt {
    Attempt(KeyFor(c.limiter.name, c.client), Limit(c.limiter.perMinute, c.limiter.perMinute), c.now)
  }

  // ---------- Keys ----------

  /** Of a limiter, different clients have different keys. */
  lemma ClientsApart(l: RateLimiter, one: string, other: string, now: nat, later: nat)
    ensures l.Attempted(one, now).key == l.Attempted(other, later).key <==> one == other
    ensures l.perMinute == l.burst ==> l.Attempted(one, now) == AttemptOf(Call(Named(l.name, l.perMinute), one, now))
  {
    SameRest("ratelimit:" + l.name + ":", one, other);
  }

  lemma SameRest(first: string, a: string, b: string)
    ensures first + a == first + b <==> a == b
  {
    assert (first + a)[|first|..] == a && (first + b)[|first|..] == b;
  }

  /** One of the names, with a colon after it, starts the other. */
  predicate Nested(one: string, other: string) {
    one + ":" <= other || other + ":" <= one
  }

  /** Two limiters can give two clients one key just when they have one name, or one's name and a colon start the other's. */
  lemma KeysMeet(one: string, other: string)
    ensures (exists a, b :: KeyFor(one, a) == KeyFor(other, b)) <==> one == other || Nested(one, other)
  {
    if one == other {
      assert KeyFor(one, "") == KeyFor(other, "");
    }
    if one + ":" <= other {
      Meets(one, other);
    }
    if other + ":" <= one {
      Meets(other, one);
    }
    forall a, b | KeyFor(one, a) == KeyFor(other, b)
      ensures one == other || Nested(one, other)
    {
      KeysTell(one, a, other, b);
    }
  }

  lemma Meets(short: string, long: string)
    requires short + ":" <= long
    ensures exists a :: KeyFor(short, a) == KeyFor(long, "")
    ensures exists a :: KeyFor(long, "") == KeyFor(short, a)
  {
    var a := long[|short| + 1..] + ":";
    assert long == short + ":" + long[|short| + 1..];
    assert KeyFor(short, a) == KeyFor(long, "");
  }

  lemma KeysTell(one: string, a: string, other: string, b: string)
    requires KeyFor(one, a) == KeyFor(other, b)
    ensures one == other || Nested(one, other)
    ensures one == other ==> a == b
  {
    assert KeyFor(one, a) == "ratelimit:" + (one + ":" + a) && KeyFor(other, b) == "ratelimit:" + (other + ":" + b);
    SameRest("ratelimit:", one + ":" + a, other + ":" + b);
    if |one| == |other| {
      assert (one + ":" + a)[..|one|] == one && (other + ":" + b)[..|one|] == other;
    } else if |one| < |other| {
      ShorterName(one, a, other, b);
    } else {
      ShorterName(other, b, one, a);
    }
    SameRest(one + ":", a, b);
  }

  lemma ShorterName(short: string, a: string, long: string, b: string)
    requires short + ":" + a == long + ":" + b && |short| < |long|
    ensures short + ":" <= long
  {
    var s, n := short + ":" + a, |short| + 1;
    assert s[..n] == short + ":";
    assert (long + ":" + b)[..n] == long[..n];
  }

  // ---------- Calls ----------

  /** The clock does not go back, and limiters that differ have names that keep their keys apart. */
  ghost predicate Calls(calls: seq<Call>) {
    && (forall i :: 0 <= i < |calls| ==> 1 <= calls[i].limiter.perMinute <= MINUTE)
    && (forall i, j :: 0 <= i < j < |calls| ==> calls[i].now <= calls[j].now)
    && (forall i, j :: 0 <= i < |calls| && 0 <= j < |calls| ==>
          calls[i].limiter == calls[j].limiter || (calls[i].limiter.name != calls[j].limiter.name && !Nested(calls[i].limiter.name, calls[j].limiter.name)))
  }

  function Attempts(calls: seq<Call>): (run: seq<Attempt>)
    ensures |run| == |calls| && forall i :: 0 <= i < |calls| ==> run[i] == AttemptOf(calls[i])
  {
    seq(|calls|, i requires 0 <= i < |calls| => AttemptOf(calls[i]))
  }

  /** The same client, with the same limiter. */
  predicate SameClient(c: Call, d: Call) {
    c.limiter == d.limiter && c.client == d.client
  }

  lemma CallsTell(calls: seq<Call>, i: nat, j: nat)
    requires Calls(calls) && i < |calls| && j < |calls|
    ensures AttemptOf(calls[i]).key == AttemptOf(calls[j]).key <==> SameClient(calls[i], calls[j])
  {
    if AttemptOf(calls[i]).key == AttemptOf(calls[j]).key {
      if calls[i].limiter == calls[j].limiter {
        SameRest("ratelimit:" + calls[i].limiter.name + ":", calls[i].client, calls[j].client);
      } else {
        KeysTell(calls[i].limiter.name, calls[i].client, calls[j].limiter.name, calls[j].client);
      }
    }
  }

  lemma CallsRun(calls: seq<Call>)
    requires Calls(calls)
    ensures Run(Attempts(calls))
  {
    var run := Attempts(calls);
    forall i, j | 0 <= i < j < |run| && run[i].key == run[j].key
      ensures run[i].limit == run[j].limit
    {
      CallsTell(calls, i, j);
    }
  }

  /** What Allow answers call i, the backend having been empty before the first. */
  function AnswerTo(calls: seq<Call>, i: nat): Decision
    requires i < |calls| && Calls(calls)
  {
    Decided(Attempts(calls), i)
  }

  /** This is what Allow answers, called with the backend as the calls before left it, and what it leaves. */
  lemma AllowAnswers(calls: seq<Call>, c: Call)
    requires Calls(calls) && Calls(calls + [c])
    ensures var b, a := After(Attempts(calls)), AttemptOf(c);
            && AnswerTo(calls + [c], |calls|) == Advice(a.limit, Spare(Swept(b, a.now).full, a))
            && After(Attempts(calls + [c])) == Step(b, a)
  {
    assert Attempts(calls + [c]) == Attempts(calls) + [AttemptOf(c)];
    assert (Attempts(calls) + [AttemptOf(c)])[..|calls|] == Attempts(calls);
  }

  // ---------- Nobody else matters ----------

  /** The attempts of run that are key's. */
  function Only(run: seq<Attempt>, key: string): seq<Attempt> {
    if run == [] then []
    else Only(run[..|run| - 1], key) + if run[|run| - 1].key == key then [run[|run| - 1]] else []
  }

  lemma {:induction false} OnlyAre(run: seq<Attempt>, key: string)
    ensures forall i :: 0 <= i < |Only(run, key)| ==> Only(run, key)[i].key == key && Only(run, key)[i] in run
    ensures (forall i, j :: 0 <= i < j < |run| ==> run[i].now <= run[j].now) ==>
              (forall i, j :: 0 <= i < j < |Only(run, key)| ==> Only(run, key)[i].now <= Only(run, key)[j].now)
  {
    if run != [] {
      OnlyAre(run[..|run| - 1], key);
      assert run == run[..|run| - 1] + [run[|run| - 1]];
    }
  }

  lemma OnlyRuns(run: seq<Attempt>, key: string)
    requires Run(run)
    ensures Run(Only(run, key))
  {
    OnlyAre(run, key);
    var only := Only(run, key);
    forall i, j | 0 <= i < j < |only|
      ensures only[i].limit == only[j].limit && only[i].limit.Valid()
    {
      var a :| 0 <= a < |run| && run[a] == only[i];
      var b :| 0 <= b < |run| && run[b] == only[j];
    }
    forall i | 0 <= i < |only|
      ensures only[i].limit.Valid()
    {
      assert only[i] in run;
    }
  }

  /** Two maps that say the same of key, whenever they are asked. */
  ghost predicate AlikeFor(full: map<string, nat>, other: map<string, nat>, key: string) {
    forall now :: FullAt(full, key, now) == FullAt(other, key, now)
  }

  lemma {:induction false} KeptOnly(run: seq<Attempt>, key: string)
    requires Run(run)
    ensures Run(Only(run, key)) && AlikeFor(Kept(run), Kept(Only(run, key)), key)
  {
    OnlyRuns(run, key);
    if run != [] {
      var n := |run| - 1;
      RunPrefix(run, n);
      KeptOnly(run[..n], key);
      LastOnly(run, key);
      NextAlikeFor(Kept(run[..n]), Kept(Only(run[..n], key)), run[n], key);
    }
  }

  lemma LastOnly(run: seq<Attempt>, key: string)
    requires run != []
    ensures var n := |run| - 1;
            var only := Only(run[..n], key);
            Only(run, key) == (if run[n].key == key then only + [run[n]] else only) && (only + [run[n]])[..|only|] == only
  {}

  lemma NextAlikeFor(full: map<string, nat>, other: map<string, nat>, a: Attempt, key: string)
    requires a.limit.Valid() && AlikeFor(full, other, key)
    ensures AlikeFor(Taken(full, a), if a.key == key then Taken(other, a) else other, key)
  {
    assert FullAt(full, key, a.now) == FullAt(other, key, a.now);
    forall now
      ensures FullAt(Taken(full, a), key, now) == FullAt(if a.key == key then Taken(other, a) else other, key, now)
    {
      assert FullAt(full, key, now) == FullAt(other, key, now);
    }
  }

  /** An attempt is decided as if no other key had made any. */
  lemma DecidedAlone(run: seq<Attempt>, i: nat)
    requires Run(run) && i < |run|
    ensures var before := Only(run[..i], run[i].key);
            Run(before + [run[i]]) && Decided(run, i) == Decided(before + [run[i]], |before|)
  {
    var a, before := run[i], Only(run[..i], run[i].key);
    RunPrefix(run, i + 1);
    RunPrefix(run, i);
    OnlyRuns(run[..i + 1], a.key);
    LastOnly(run[..i + 1], a.key);
    assert run[..i + 1][..i] == run[..i];
    assert (before + [a])[..|before|] == before;
    KeptOnly(run[..i], a.key);
    assert FullAt(Kept(run[..i]), a.key, a.now) == FullAt(Kept(before), a.key, a.now);
    RefinesTokenBucket(run, i);
    RefinesTokenBucket(before + [a], |before|);
  }

  /** The calls of c's client with c's limiter. */
  function OwnCalls(calls: seq<Call>, c: Call): seq<Call> {
    if calls == [] then []
    else OwnCalls(calls[..|calls| - 1], c) + if SameClient(calls[|calls| - 1], c) then [calls[|calls| - 1]] else []
  }

  lemma {:induction false} OwnAreOnly(calls: seq<Call>, c: Call)
    requires forall i :: 0 <= i < |calls| ==> (AttemptOf(calls[i]).key == AttemptOf(c).key <==> SameClient(calls[i], c))
    ensures Attempts(OwnCalls(calls, c)) == Only(Attempts(calls), AttemptOf(c).key)
  {
    if calls != [] {
      var n := |calls| - 1;
      OwnAreOnly(calls[..n], c);
      assert Attempts(calls)[..n] == Attempts(calls[..n]);
    }
  }

  lemma {:induction false} OwnAre(calls: seq<Call>, c: Call)
    ensures forall i :: 0 <= i < |OwnCalls(calls, c)| ==> OwnCalls(calls, c)[i] in calls && SameClient(OwnCalls(calls, c)[i], c)
    ensures (forall i, j :: 0 <= i < j < |calls| ==> calls[i].now <= calls[j].now) ==>
              (forall i, j :: 0 <= i < j < |OwnCalls(calls, c)| ==> OwnCalls(calls, c)[i].now <= OwnCalls(calls, c)[j].now)
  {
    if calls != [] {
      OwnAre(calls[..|calls| - 1], c);
      assert calls == calls[..|calls| - 1] + [calls[|calls| - 1]];
    }
  }

  lemma OwnCall(calls: seq<Call>, c: Call)
    requires Calls(calls + [c])
    ensures Calls(OwnCalls(calls, c) + [c])
  {
    var own, all := OwnCalls(calls, c), calls + [c];
    OwnAre(calls, c);
    assert all[|calls|] == c && forall i :: 0 <= i < |calls| ==> all[i] == calls[i];
    forall i | 0 <= i < |own|
      ensures own[i].now <= c.now && own[i].limiter == c.limiter
    {
      var k :| 0 <= k < |calls| && calls[k] == own[i];
      assert all[k].now <= all[|calls|].now;
    }
  }

  /** A call is answered as if the limiter had only ever been called by the client that makes it. */
  lemma OthersDoNotMatter(calls: seq<Call>, i: nat)
    requires Calls(calls) && i < |calls|
    ensures var own := OwnCalls(calls[..i], calls[i]);
            Calls(own + [calls[i]]) && AnswerTo(calls, i) == AnswerTo(own + [calls[i]], |own|)
  {
    var c, before := calls[i], calls[..i];
    var own := OwnCalls(before, c);
    CallsPrefix(calls, i);
    OwnCall(before, c);
    CallsRun(calls);
    DecidedAlone(Attempts(calls), i);
    forall k | 0 <= k < i
      ensures AttemptOf(before[k]).key == AttemptOf(c).key <==> SameClient(before[k], c)
    {
      CallsTell(calls, k, i);
    }
    OwnAreOnly(before, c);
    assert Attempts(calls)[..i] == Attempts(before);
    assert Attempts(own + [c]) == Attempts(own) + [AttemptOf(c)];
  }

  lemma CallsPrefix(calls: seq<Call>, i: nat)
    requires Calls(calls) && i < |calls|
    ensures Calls(calls[..i] + [calls[i]])
  {
    assert calls[..i] + [calls[i]] == calls[..i + 1];
  }

  // ---------- What a client may do ----------

  /** How many of the calls lo .. hi-1 were c's client's and were allowed. */
  function AllowedTo(calls: seq<Call>, c: Call, lo: nat, hi: nat): nat
    requires lo <= hi <= |calls| && Calls(calls)
  {
    if lo == hi then 0
    else AllowedTo(calls, c, lo, hi - 1) + if SameClient(calls[hi - 1], c) && AnswerTo(calls, hi - 1).allowed then 1 else 0
  }

  lemma {:induction false} AllowedToIs(calls: seq<Call>, i: nat, lo: nat, hi: nat)
    requires Calls(calls) && i < |calls| && lo <= hi <= |calls| && Run(Attempts(calls))
    ensures AllowedTo(calls, calls[i], lo, hi) == Count(Attempts(calls), AttemptOf(calls[i]).key, lo, hi)
  {
    if lo < hi {
      AllowedToIs(calls, i, lo, hi - 1);
      CallsTell(calls, hi - 1, i);
      AllowedIs(Attempts(calls), hi - 1);
    }
  }

  /** Within a span a client is allowed a minute's attempts, and one for each interval in the span, whoever else calls. */
  lemma ClientInSpan(calls: seq<Call>, i: nat, lo: nat, hi: nat, span: nat)
    requires Calls(calls) && i < |calls| && lo < hi <= |calls| && calls[hi - 1].now - calls[lo].now <= span
    ensures var n := calls[i].limiter.perMinute; AllowedTo(calls, calls[i], lo, hi) <= n + span / (60_000_000_000 / n)
  {
    var run, a := Attempts(calls), AttemptOf(calls[i]);
    CallsRun(calls);
    forall k | 0 <= k < |run| && run[k].key == a.key
      ensures run[k].limit == a.limit
    {
      CallsTell(calls, k, i);
    }
    AllowedToIs(calls, i, lo, hi);
    AllowedInSpan(run, a.key, a.limit, lo, hi, span);
  }

  /** How many of the calls lo .. hi-1 are c's client's. */
  function CallsBy(calls: seq<Call>, c: Call, lo: nat, hi: nat): nat
    requires lo <= hi <= |calls|
  {
    if lo == hi then 0 else CallsBy(calls, c, lo, hi - 1) + if SameClient(calls[hi - 1], c) then 1 else 0
  }

  lemma {:induction false} CallsByIs(calls: seq<Call>, i: nat, lo: nat, hi: nat)
    requires Calls(calls) && i < |calls| && lo <= hi <= |calls|
    ensures CallsBy(calls, calls[i], lo, hi) == Own(Attempts(calls), AttemptOf(calls[i]).key, lo, hi)
  {
    if lo < hi {
      CallsByIs(calls, i, lo, hi - 1);
      CallsTell(calls, hi - 1, i);
    }
  }

  /** Of a client's further calls at the same moment the first Remaining are allowed, and no others, whoever else calls. */
  lemma ClientRemaining(calls: seq<Call>, i: nat, n: nat)
    requires Calls(calls) && i < n < |calls| && AnswerTo(calls, i).allowed
    requires SameClient(calls[n], calls[i]) && calls[n].now == calls[i].now
    ensures AnswerTo(calls, n).allowed <==> CallsBy(calls, calls[i], i + 1, n) < AnswerTo(calls, i).remaining
  {
    CallsRun(calls);
    CallsTell(calls, n, i);
    CallsByIs(calls, i, i + 1, n);
    RemainingFor(Attempts(calls), i, n);
  }

  lemma RemainingFor(run: seq<Attempt>, i: nat, n: nat)
    requires Run(run) && i < n < |run| && Decided(run, i).allowed
    requires run[n].key == run[i].key && run[n].now == run[i].now
    ensures Decided(run, n).allowed <==> Own(run, run[i].key, i + 1, n) < Decided(run, i).remaining
  {
    RemainingIsExact(run, i, n);
    AllowedIs(run, n);
  }

  lemma AllowedIs(run: seq<Attempt>, i: nat)
    requires Run(run) && i < |run|
    ensures Decided(run, i).allowed <==> Allowed(run, i)
  {
    DecidedBy(run, i);
  }

  /** A client's first call is allowed, and leaves it the rest of a minute's. */
  lemma FirstAllowed(calls: seq<Call>, i: nat)
    requires Calls(calls) && i < |calls| && forall k :: 0 <= k < i ==> !SameClient(calls[k], calls[i])
    ensures var d, n := AnswerTo(calls, i), calls[i].limiter.perMinute;
            d.allowed && d.limit == n && d.remaining == n - 1 && d.retryAfter == 0
  {
    OthersDoNotMatter(calls, i);
    NoneOwn(calls[..i], calls[i]);
    var a := AttemptOf(calls[i]);
    assert Attempts([calls[i]]) == [a] && [] + [calls[i]] == [calls[i]];
    assert [a][..0] == [];
    FirstAnswer(a);
  }

  lemma {:induction false} NoneOwn(calls: seq<Call>, c: Call)
    requires forall k :: 0 <= k < |calls| ==> !SameClient(calls[k], c)
    ensures OwnCalls(calls, c) == []
  {
    if calls != [] {
      NoneOwn(calls[..|calls| - 1], c);
    }
  }

  lemma FirstAnswer(a: Attempt)
    requires a.limit.Valid()
    ensures var d := Decided([a], 0);
            d.allowed && d.limit == a.limit.burst && d.remaining == a.limit.burst - 1 && d.retryAfter == 0
  {
    var i, b := a.limit.Interval(), a.limit.burst;
    RefinesTokenBucket([a], 0);
    assert [a][..0] == [];
    assert Spare(Kept([]), a) == b * i - i == (b - 1) * i;
    MoreIsMore(1, b, i);
    AdviceInNanoseconds(a.limit, b * i - i);
    WholeBurst(b - 1, i);
  }
}
