/** Every run of the session pool: exchanges end exactly once, and stale timers do no harm. */
module QuicPoolRuns {
  import opened Core
  import opened QuicPoolSpec

  /** `ready` is what the connection of the session says when it is asked. */
  datatype Event =
    | Opens(id: nat, objection: Option<ErrorCode>, ready: bool)
    | Cancels(id: nat, ready: bool)
    | Resolves(session: nat, id: nat, outcome: Outcome, ready: bool)
    | Expires(session: nat, id: nat, ready: bool)
    | Dialed(session: nat, failure: Option<ErrorCode>)
    | Fails(session: nat, error: ErrorCode)
    | Rings(session: nat, generation: nat)
    | Stops(readySessions: set<nat>)

  predicate Enabled(p: Pool, e: Event) {
    match e
    case Opens(id, _, _) => id !in p.log && forall n :: n in p.active ==> n in p.sessions
    case Cancels(_, _) => true
    case Resolves(n, _, _, _) => n in p.sessions
    case Expires(n, _, _) => n in p.sessions
    case Dialed(n, _) => n in p.sessions && p.sessions[n].opening
    case Fails(n, _) => n in p.sessions
    case Rings(n, generation) => n in p.sessions && generation in p.sessions[n].timers
    case Stops(_) => true
  }

  function Step(p: Pool, e: Event): Pool
    requires Enabled(p, e)
  {
    match e
    case Opens(id, objection, ready) => AddNew(p, id, objection, ready)
    case Cancels(id, ready) => CancelExchange(p, id, ready)
    case Resolves(n, id, outcome, ready) => Complete(p, n, id, outcome, ready)
    case Expires(n, id, ready) => Complete(p, n, id, Error(Timeout), ready)
    case Dialed(n, failure) => Opened(p, n, failure)
    case Fails(n, error) => Fail(p, n, error)
    case Rings(n, generation) => TimerFires(p, n, generation)
    case Stops(ready) => Stop(p, ready)
  }

  /** State `k` of a run follows from the one before. */
  predicate Follows(trace: seq<Pool>, events: seq<Event>, k: nat)
    requires |trace| == |events| + 1 && 1 <= k < |trace|
  {
    Enabled(trace[k - 1], events[k - 1]) && trace[k] == Step(trace[k - 1], events[k - 1])
  }

  ghost predicate IsRun(trace: seq<Pool>, events: seq<Event>) {
    && |trace| == |events| + 1 && trace[0] == Initial()
    && forall k :: 1 <= k < |trace| ==> Follows(trace, events, k)
  }

  lemma StepKeeps(p: Pool, e: Event)
    requires Valid(p) && Enabled(p, e)
    ensures Valid(Step(p, e))
  {
    match e
    case Opens(id, objection, ready) => AddNewKeeps(p, id, objection, ready);
    case Cancels(id, ready) => CancelKeeps(p, id, ready);
    case Resolves(n, id, outcome, ready) => CompleteKeeps(p, n, id, outcome, ready);
    case Expires(n, id, ready) => CompleteKeeps(p, n, id, Error(Timeout), ready);
    case Dialed(n, failure) => OpenedKeeps(p, n, failure);
    case Fails(n, error) => FailKeeps(p, n, error);
    case Rings(n, generation) => TimerKeeps(p, n, generation);
    case Stops(ready) => StopKeeps(p, ready);
  }

  lemma {:induction false} RunsAreValid(trace: seq<Pool>, events: seq<Event>, k: nat)
    requires IsRun(trace, events) && k < |trace|
    ensures Valid(trace[k])
    decreases k
  {
    if k == 0 {
      InitialValid();
    } else {
      RunsAreValid(trace, events, k - 1);
      assert Follows(trace, events, k);
      StepKeeps(trace[k - 1], events[k - 1]);
    }
  }

  // ----- What never changes back

  /** Generations only grow, sessions that are gone stay so, and what an exchange was told stays. */
  ghost predicate Evolves(p: Pool, q: Pool) {
    Ages(p.sessions, q.sessions) && Grows(p.log, q.log) && (p.stopped ==> q.stopped)
  }

  ghost predicate Ages(before: map<nat, Session>, after: map<nat, Session>) {
    forall n :: n in before ==>
      n in after && before[n].generation <= after[n].generation && (before[n].retired ==> after[n].retired)
  }

  lemma EvolvesTransitive(p: Pool, q: Pool, r: Pool)
    requires Evolves(p, q) && Evolves(q, r)
    ensures Evolves(p, r)
  {
    GrowsTransitive(p.log, q.log, r.log);
  }

  lemma SettleEvolves(p: Pool, n: nat, ready: bool)
    requires n in p.sessions
    ensures Evolves(p, Settle(p, n, ready))
  {
  }

  lemma LeaveEvolves(p: Pool, n: nat, ids: set<nat>, outcome: Outcome)
    requires n in p.sessions
    ensures Evolves(p, Leave(p, n, ids, outcome))
  {
  }

  lemma CompleteEvolves(p: Pool, n: nat, id: nat, outcome: Outcome, ready: bool)
    requires n in p.sessions
    ensures Evolves(p, Complete(p, n, id, outcome, ready))
  {
    var q := Leave(p, n, {id}, outcome);
    LeaveEvolves(p, n, {id}, outcome);
    SettleEvolves(q, n, ready);
    if id in p.sessions[n].exchanges && q.sessions[n].exchanges == {} {
      EvolvesTransitive(p, q, Settle(q, n, ready));
    }
  }

  lemma AddEvolves(p: Pool, n: nat, id: nat)
    requires id !in p.log
    ensures Evolves(p, Add(p, n, id)) && n in Add(p, n, id).sessions
    ensures n in p.sessions ==> p.sessions[n].generation < Add(p, n, id).sessions[n].generation
  {
    assert forall k :: k in p.log ==> k != id;
  }

  lemma AddNewEvolves(p: Pool, id: nat, objection: Option<ErrorCode>, ready: bool)
    requires id !in p.log && forall n :: n in p.active ==> n in p.sessions
    ensures Evolves(p, AddNew(p, id, objection, ready))
    ensures !p.stopped && Choose(p) in p.sessions ==>
      var q := AddNew(p, id, objection, ready);
      Choose(p) in q.sessions && p.sessions[Choose(p)].generation < q.sessions[Choose(p)].generation
  {
    assert forall k :: k in p.log ==> k != id;
    var n := Choose(p);
    var q := Add(p, n, id);
    AddEvolves(p, n, id);
    match objection
    case Some(error) =>
      CompleteEvolves(q, n, id, Error(error), ready);
      EvolvesTransitive(p, q, Complete(q, n, id, Error(error), ready));
    case None =>
      EvolvesTransitive(p, q, Start(q, n));
  }

  lemma FailEvolves(p: Pool, n: nat, error: ErrorCode)
    requires n in p.sessions
    ensures Evolves(p, Fail(p, n, error))
  {
  }

  lemma OpenedEvolves(p: Pool, n: nat, failure: Option<ErrorCode>)
    requires n in p.sessions
    ensures Evolves(p, Opened(p, n, failure))
  {
    var q := Set(p, n, p.sessions[n].(opening := false));
    if failure.Some? {
      FailEvolves(q, n, failure.value);
      EvolvesTransitive(p, q, Fail(q, n, failure.value));
    }
  }

  lemma CancelAllEvolves(p: Pool, n: nat, ready: bool)
    requires n in p.sessions
    ensures Evolves(p, CancelAll(p, n, ready))
  {
    var ids := p.sessions[n].exchanges;
    LeaveEvolves(p, n, ids, Error(Cancelled));
    SettleEvolves(Leave(p, n, ids, Error(Cancelled)), n, ready);
    EvolvesTransitive(p, Leave(p, n, ids, Error(Cancelled)), Settle(Leave(p, n, ids, Error(Cancelled)), n, ready));
  }

  lemma {:induction false} CancelEachEvolves(p: Pool, numbers: seq<nat>, ready: set<nat>)
    ensures Evolves(p, CancelEach(p, numbers, ready))
  {
    if numbers != [] {
      var k := |numbers| - 1;
      var q, n := CancelEach(p, numbers[..k], ready), numbers[k];
      CancelEachEvolves(p, numbers[..k], ready);
      if n in q.sessions {
        CancelAllEvolves(q, n, n in ready);
        EvolvesTransitive(p, q, CancelAll(q, n, n in ready));
      }
    }
  }

  lemma {:induction false} RetireEachEvolves(p: Pool, numbers: seq<nat>)
    ensures Evolves(p, RetireEach(p, numbers))
  {
    if numbers != [] {
      var k := |numbers| - 1;
      var q, n := RetireEach(p, numbers[..k]), numbers[k];
      RetireEachEvolves(p, numbers[..k]);
      if n in q.sessions {
        EvolvesTransitive(p, q, Retire(q, n));
      }
    }
  }

  lemma StopEvolves(p: Pool, ready: set<nat>)
    ensures Evolves(p, Stop(p, ready))
  {
    var q := CancelEach(p.(stopped := true), p.active, ready);
    CancelEachEvolves(p.(stopped := true), p.active, ready);
    RetireEachEvolves(q.(idle := []), q.idle);
    EvolvesTransitive(p.(stopped := true), q.(idle := []), RetireEach(q.(idle := []), q.idle));
  }

  lemma StepEvolves(p: Pool, e: Event)
    requires Enabled(p, e)
    ensures Evolves(p, Step(p, e))
  {
    match e
    case Opens(id, objection, ready) => AddNewEvolves(p, id, objection, ready);
    case Cancels(id, ready) =>
      if id in p.exchanges && p.exchanges[id] in p.sessions {
        CompleteEvolves(p, p.exchanges[id], id, Error(Cancelled), ready);
      }
    case Resolves(n, id, outcome, ready) => CompleteEvolves(p, n, id, outcome, ready);
    case Expires(n, id, ready) => CompleteEvolves(p, n, id, Error(Timeout), ready);
    case Dialed(n, failure) => OpenedEvolves(p, n, failure);
    case Fails(n, error) => FailEvolves(p, n, error);
    case Rings(n, generation) =>
    case Stops(ready) => StopEvolves(p, ready);
  }

  lemma {:induction false} RunEvolves(trace: seq<Pool>, events: seq<Event>, m: nat, k: nat)
    requires IsRun(trace, events) && m <= k < |trace|
    ensures Evolves(trace[m], trace[k])
    decreases k
  {
    if m < k {
      var first, before, now := trace[m], trace[k - 1], trace[k];
      RunEvolves(trace, events, m, k - 1);
      StepOfRunEvolves(trace, events, k);
      EvolvesTransitive(first, before, now);
    }
  }

  lemma StepOfRunEvolves(trace: seq<Pool>, events: seq<Event>, k: nat)
    requires IsRun(trace, events) && 0 < k < |trace|
    ensures Evolves(trace[k - 1], trace[k])
  {
    assert Follows(trace, events, k);
    StepEvolves(trace[k - 1], events[k - 1]);
  }

  // ----- The theorems

  /**
   * In every reachable state an open exchange is held by one session only, which is
   * active and holds between 1 and 64 exchanges; idle sessions are at most 4, empty,
   * connected, distinct and none of them active; sessions in neither list are retired,
   * and hold nothing.
   */
  lemma PoolIsCoherent(trace: seq<Pool>, events: seq<Event>, k: nat)
    requires IsRun(trace, events) && k < |trace|
    ensures var p := trace[k];
      && (forall id, n :: n in p.sessions ==> (id in p.exchanges && p.exchanges[id] == n <==> id in p.sessions[n].exchanges))
      && (forall id :: id in p.exchanges ==> p.exchanges[id] in p.active)
      && Distinct(p.active) && Distinct(p.idle) && Elements(p.active) !! Elements(p.idle) && |p.idle| <= 4
    ensures var p := trace[k]; forall n :: n in p.sessions ==>
      var s := p.sessions[n];
      && (n in p.active <==> 1 <= |s.exchanges|) && |s.exchanges| <= 64
      && (s.retired <==> n !in p.active && n !in p.idle)
      && (n in p.active ==> s.opening || s.connected)
      && (n in p.idle ==> s.connected && s.generation in s.timers)
  {
    var p := trace[k];
    RunsAreValid(trace, events, k);
    forall id | id in p.exchanges ensures p.exchanges[id] in p.active {
      assert p.exchanges[id] in Held(p);
    }
    forall id, n | n in p.sessions ensures id in p.exchanges && p.exchanges[id] == n <==> id in p.sessions[n].exchanges {
      assert n in Held(p);
    }
  }

  /**
   * In every run an exchange is open or has been told exactly one thing, and never
   * anything else; after a stop none is open.
   */
  lemma ExactlyOnce(trace: seq<Pool>, events: seq<Event>, m: nat, k: nat, id: nat)
    requires IsRun(trace, events) && m <= k < |trace| && id in trace[m].log
    ensures id in trace[k].log
    ensures if id in trace[m].exchanges then trace[m].log[id] == []
            else |trace[m].log[id]| == 1 && trace[k].log[id] == trace[m].log[id]
    ensures trace[m].stopped ==> id !in trace[m].exchanges
  {
    RunsAreValid(trace, events, m);
    RunsAreValid(trace, events, k);
    RunEvolves(trace, events, m, k);
    assert |trace[k].log[id]| <= 1;
    if trace[m].stopped {
      StoppedIsEmpty(trace[m]);
    }
  }

  /** Once a resting session has been given an exchange, the timers set before leave it alone for good. */
  lemma StaleTimerIsHarmless(trace: seq<Pool>, events: seq<Event>, m: nat, k: nat, generation: nat)
    requires IsRun(trace, events) && m < k < |trace| && events[m].Opens? && !trace[m].stopped
    requires Enabled(trace[m], events[m]) && Choose(trace[m]) in trace[m].sessions
    requires generation in trace[m].sessions[Choose(trace[m])].timers
    ensures var n := Choose(trace[m]);
      n in trace[k].sessions &&
      var p, q := trace[k], TimerFires(trace[k], n, generation);
      q.active == p.active && q.idle == p.idle && q.exchanges == p.exchanges && q.sessions[n].retired == p.sessions[n].retired
  {
    var n := Choose(trace[m]);
    RunsAreValid(trace, events, m);
    assert Follows(trace, events, m + 1);
    AddNewEvolves(trace[m], events[m].id, events[m].objection, events[m].ready);
    RunEvolves(trace, events, m + 1, k);
    assert Timed(trace[m].sessions[n]);
    assert generation < trace[k].sessions[n].generation;
  }
}
