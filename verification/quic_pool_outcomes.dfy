/**
 * What each event of a run of the session pool tells each exchange: the result that was
 * set for it, or the error of its session, and nothing to anyone else.
 */
module QuicPoolOutcomes {
  import opened Core
  import opened QuicPoolSpec
  import opened QuicPoolRuns

  /** The exchanges that end between two states are told this, and the others nothing. */
  ghost predicate Tells(p: Pool, q: Pool, outcome: Outcome) {
    && (forall id :: id in q.exchanges ==> id in p.exchanges && q.exchanges[id] == p.exchanges[id])
    && (forall id :: id in p.log ==>
          id in q.log && q.log[id] == if id in p.exchanges && id !in q.exchanges then p.log[id] + [outcome] else p.log[id])
  }

  lemma TellsTransitive(p: Pool, q: Pool, r: Pool, outcome: Outcome)
    requires Tells(p, q, outcome) && Tells(q, r, outcome)
    ensures Tells(p, r, outcome)
  {
  }

  lemma SettleTellsNothing(p: Pool, n: nat, ready: bool)
    requires n in p.sessions
    ensures Settle(p, n, ready).exchanges == p.exchanges && Settle(p, n, ready).log == p.log
  {
  }

  lemma LeaveTells(p: Pool, n: nat, ids: set<nat>, outcome: Outcome)
    requires n in p.sessions && ids <= p.exchanges.Keys
    ensures Tells(p, Leave(p, n, ids, outcome), outcome)
    ensures Leave(p, n, ids, outcome).exchanges == p.exchanges - ids
  {
  }

  /** The exchanges of a session are those that are registered with it. */
  lemma HeldIds(p: Pool, n: nat)
    requires Partition(p.exchanges, Held(p)) && n in p.sessions
    ensures forall id :: id in p.sessions[n].exchanges <==> id in p.exchanges && p.exchanges[id] == n
    ensures p.sessions[n].exchanges <= p.exchanges.Keys
  {
    assert n in Held(p) && Held(p)[n] == p.sessions[n].exchanges;
  }

  // ----- Each step

  lemma CompleteTells(p: Pool, n: nat, id: nat, outcome: Outcome, ready: bool)
    requires Partition(p.exchanges, Held(p)) && n in p.sessions
    ensures var q := Complete(p, n, id, outcome, ready);
      && Tells(p, q, outcome)
      && q.exchanges == if id in p.exchanges && p.exchanges[id] == n then p.exchanges - {id} else p.exchanges
  {
    HeldIds(p, n);
    if id in p.sessions[n].exchanges {
      var q := Leave(p, n, {id}, outcome);
      LeaveTells(p, n, {id}, outcome);
      if q.sessions[n].exchanges == {} {
        SettleTellsNothing(q, n, ready);
      }
    }
  }

  /** The exchanges that are not those of a session. */
  function Apart(exchanges: map<nat, nat>, n: nat): map<nat, nat> {
    map id | id in exchanges && exchanges[id] != n :: exchanges[id]
  }

  lemma LeaveAllTells(p: Pool, n: nat, outcome: Outcome)
    requires Partition(p.exchanges, Held(p)) && n in p.sessions
    ensures var q := Leave(p, n, p.sessions[n].exchanges, outcome); Tells(p, q, outcome) && q.exchanges == Apart(p.exchanges, n)
  {
    HeldIds(p, n);
    LeaveTells(p, n, p.sessions[n].exchanges, outcome);
  }

  lemma RetiredHoldsNothing(p: Pool, n: nat)
    requires Coherent(p, {}) && n in p.sessions && p.sessions[n].retired
    ensures Apart(p.exchanges, n) == p.exchanges
  {
    HeldIds(p, n);
    assert n !in p.active && n !in p.idle;
    assert p.sessions[n].exchanges == {};
    forall id | id in p.exchanges ensures p.exchanges[id] != n {
      assert id !in p.sessions[n].exchanges;
    }
  }

  lemma FailTells(p: Pool, n: nat, error: ErrorCode)
    requires Coherent(p, {}) && n in p.sessions
    ensures Tells(p, Fail(p, n, error), Error(error)) && Fail(p, n, error).exchanges == Apart(p.exchanges, n)
  {
    LeaveAllTells(p, n, Error(error));
    if p.sessions[n].retired {
      RetiredHoldsNothing(p, n);
    }
  }

  lemma OpenedTells(p: Pool, n: nat, failure: Option<ErrorCode>)
    requires Valid(p) && n in p.sessions && p.sessions[n].opening
    ensures failure.None? ==> Opened(p, n, failure).exchanges == p.exchanges && Opened(p, n, failure).log == p.log
    ensures failure.Some? ==>
      Tells(p, Opened(p, n, failure), Error(failure.value)) && Opened(p, n, failure).exchanges == Apart(p.exchanges, n)
  {
    var q := Set(p, n, p.sessions[n].(opening := false));
    SetOpeningKeeps(p, n);
    if p.sessions[n].retired {
      RetiredHoldsNothing(p, n);
    } else if failure.Some? {
      assert Held(q) == Held(p);
      LeaveAllTells(q, n, Error(failure.value));
    }
  }

  lemma CancelTells(p: Pool, id: nat, ready: bool)
    requires Partition(p.exchanges, Held(p))
    ensures Tells(p, CancelExchange(p, id, ready), Error(Cancelled)) && CancelExchange(p, id, ready).exchanges == p.exchanges - {id}
  {
    if id in p.exchanges {
      CompleteTells(p, p.exchanges[id], id, Error(Cancelled), ready);
    }
  }

  lemma CancelAllTells(p: Pool, n: nat, ready: bool)
    requires Partition(p.exchanges, Held(p)) && n in p.sessions
    ensures Tells(p, CancelAll(p, n, ready), Error(Cancelled))
  {
    if p.sessions[n].exchanges != {} {
      LeaveAllTells(p, n, Error(Cancelled));
      SettleTellsNothing(Leave(p, n, p.sessions[n].exchanges, Error(Cancelled)), n, ready);
    }
  }

  lemma NextTells(p: Pool, q: Pool, n: nat, ready: bool)
    requires Tells(p, q, Error(Cancelled)) && Partition(q.exchanges, Held(q)) && n in q.sessions
    ensures Tells(p, CancelAll(q, n, ready), Error(Cancelled))
  {
    CancelAllTells(q, n, ready);
    TellsTransitive(p, q, CancelAll(q, n, ready), Error(Cancelled));
  }

  lemma {:induction false} CancelEachTells(p: Pool, k: nat, ready: set<nat>)
    requires Coherent(p, {}) && p.stopped && k <= |p.active| && |p.idle| <= MaximumIdle()
    ensures Tells(p, CancelEach(p, p.active[..k], ready), Error(Cancelled))
  {
    if k > 0 {
      CancelEachTells(p, k - 1, ready);
      CancelEachKeeps(p, k - 1, ready);
      assert p.active[..k][..k - 1] == p.active[..k - 1];
      var q := CancelEach(p, p.active[..k - 1], ready);
      CancelFirst(q, p.active[k - 1] in ready);
      NextTells(p, q, p.active[k - 1], p.active[k - 1] in ready);
    }
  }

  lemma {:induction false} RetireEachTellsNothing(p: Pool, numbers: seq<nat>)
    ensures RetireEach(p, numbers).exchanges == p.exchanges && RetireEach(p, numbers).log == p.log
  {
    if numbers != [] {
      RetireEachTellsNothing(p, numbers[..|numbers| - 1]);
    }
  }

  lemma StopTells(p: Pool, ready: set<nat>)
    requires Valid(p)
    ensures Tells(p, Stop(p, ready), Error(Cancelled)) && Stop(p, ready).exchanges == map[]
  {
    StopKeeps(p, ready);
    if !p.stopped {
      var s := p.(stopped := true);
      CancelEachTells(s, |p.active|, ready);
      assert p.active[..|p.active|] == p.active;
      var q := CancelEach(s, p.active, ready);
      RetireEachTellsNothing(q.(idle := []), q.idle);
    }
  }

  // ----- The events of a run

  /** What an event makes of an open exchange of a session, if it ends it. */
  function Verdict(e: Event, session: nat, id: nat): Option<Outcome> {
    match e
    case Resolves(n, x, outcome, _) => if n == session && x == id then Some(outcome) else None
    case Expires(n, x, _) => if n == session && x == id then Some(Error(Timeout)) else None
    case Cancels(x, _) => if x == id then Some(Error(Cancelled)) else None
    case Fails(n, error) => if n == session then Some(Error(error)) else None
    case Dialed(n, failure) => if n == session && failure.Some? then Some(Error(failure.value)) else None
    case Stops(_) => Some(Error(Cancelled))
    case Opens(_, _, _) => None
    case Rings(_, _) => None
  }

  /** An open exchange ends with the verdict of the event, or stays open where it is. */
  ghost predicate Judged(p: Pool, q: Pool, id: nat, verdict: Option<Outcome>)
    requires id in p.exchanges
  {
    match verdict
    case Some(outcome) => id !in q.exchanges && id in q.log && q.log[id] == [outcome]
    case None => id in q.exchanges && q.exchanges[id] == p.exchanges[id] && id in q.log && q.log[id] == []
  }

  lemma OpenIsUntold(p: Pool, id: nat)
    requires Valid(p) && id in p.exchanges
    ensures id in p.log && p.log[id] == [] && p.exchanges[id] in p.sessions && id in p.sessions[p.exchanges[id]].exchanges
  {
    assert p.exchanges[id] in Held(p);
  }

  lemma AddNewJudges(p: Pool, x: nat, objection: Option<ErrorCode>, ready: bool, id: nat)
    requires Valid(p) && x !in p.log && id in p.exchanges
    ensures Judged(p, AddNew(p, x, objection, ready), id, None)
  {
    OpenIsUntold(p, id);
    NewIsDecided(p, x, objection, ready);
  }

  /** A new exchange: open in its session, or refused. */
  lemma NewIsDecided(p: Pool, x: nat, objection: Option<ErrorCode>, ready: bool)
    requires Valid(p) && x !in p.log
    ensures var q := AddNew(p, x, objection, ready);
      if p.stopped then q.exchanges == p.exchanges && q.log == p.log[x := [Error(Cancelled)]]
      else if objection.Some? then q.exchanges == p.exchanges && q.log == p.log[x := [Error(objection.value)]]
      else q.exchanges == p.exchanges[x := Choose(p)] && q.log == p.log[x := []]
  {
    if !p.stopped && objection.Some? {
      assert x !in p.exchanges;
      RefusedLeaves(p, Choose(p), x, objection.value, ready);
    }
  }

  lemma RefusedLeaves(p: Pool, n: nat, x: nat, error: ErrorCode, ready: bool)
    requires x !in p.exchanges
    ensures n in Add(p, n, x).sessions
    ensures var q := Complete(Add(p, n, x), n, x, Error(error), ready);
      q.exchanges == p.exchanges && q.log == p.log[x := [Error(error)]]
  {
    CompletedLog(Add(p, n, x), n, x, Error(error), ready);
    assert p.exchanges[x := n] - {x} == p.exchanges;
    ToldNew(p.log, x, Error(error));
  }

  lemma ToldNew(log: map<nat, seq<Outcome>>, x: nat, outcome: Outcome)
    ensures Told(log[x := []], {x}, outcome) == log[x := [outcome]]
  {
    var told := Told(log[x := []], {x}, outcome);
    assert told.Keys == log.Keys + {x};
    assert told[x] == [] + [outcome] == [outcome];
  }

  lemma CompletedLog(p: Pool, n: nat, id: nat, outcome: Outcome, ready: bool)
    requires n in p.sessions && id in p.sessions[n].exchanges
    ensures Complete(p, n, id, outcome, ready).log == Told(p.log, {id}, outcome)
    ensures Complete(p, n, id, outcome, ready).exchanges == p.exchanges - {id}
  {
    var q := Leave(p, n, {id}, outcome);
    if q.sessions[n].exchanges == {} {
      SettleTellsNothing(q, n, ready);
    }
  }

  lemma CompleteJudges(p: Pool, n: nat, x: nat, outcome: Outcome, ready: bool, id: nat)
    requires Valid(p) && n in p.sessions && id in p.exchanges
    ensures Judged(p, Complete(p, n, x, outcome, ready), id, if n == p.exchanges[id] && x == id then Some(outcome) else None)
  {
    OpenIsUntold(p, id);
    CompleteTells(p, n, x, outcome, ready);
  }

  lemma FailJudges(p: Pool, n: nat, error: ErrorCode, id: nat)
    requires Valid(p) && n in p.sessions && id in p.exchanges
    ensures Judged(p, Fail(p, n, error), id, if n == p.exchanges[id] then Some(Error(error)) else None)
  {
    OpenIsUntold(p, id);
    FailTells(p, n, error);
  }

  lemma StepJudges(p: Pool, e: Event, id: nat)
    requires Valid(p) && Enabled(p, e) && id in p.exchanges
    ensures Judged(p, Step(p, e), id, Verdict(e, p.exchanges[id], id))
  {
    OpenIsUntold(p, id);
    match e
    case Opens(x, objection, ready) => AddNewJudges(p, x, objection, ready, id);
    case Cancels(x, ready) => CancelTells(p, x, ready);
    case Resolves(n, x, outcome, ready) => CompleteJudges(p, n, x, outcome, ready, id);
    case Expires(n, x, ready) => CompleteJudges(p, n, x, Error(Timeout), ready, id);
    case Dialed(n, failure) => OpenedTells(p, n, failure);
    case Fails(n, error) => FailJudges(p, n, error, id);
    case Rings(n, generation) =>
    case Stops(ready) => StopTells(p, ready);
  }

  /**
   * In every run, an open exchange is ended by the result that its own session sets for it,
   * and is told that result; by its deadline, with a timeout; by a cancellation or a stop;
   * and by the failure of its session or of its session's connection, with that error.
   * Every other event leaves it open in the same session, and untold.
   */
  lemma ResultsReachExchanges(trace: seq<Pool>, events: seq<Event>, k: nat, id: nat)
    requires IsRun(trace, events) && k < |events| && id in trace[k].exchanges
    ensures Judged(trace[k], trace[k + 1], id, Verdict(events[k], trace[k].exchanges[id], id))
  {
    RunsAreValid(trace, events, k);
    assert Follows(trace, events, k + 1);
    StepJudges(trace[k], events[k], id);
  }

  /** A new exchange is told at once what stands against it, or waits in a session that the pool holds open for it. */
  lemma NewExchangeIsHeldOrRefused(trace: seq<Pool>, events: seq<Event>, k: nat, id: nat, objection: Option<ErrorCode>, ready: bool)
    requires IsRun(trace, events) && k < |events| && events[k] == Opens(id, objection, ready)
    ensures var p, q := trace[k], trace[k + 1];
      && id !in p.exchanges && id in q.log
      && if p.stopped then id !in q.exchanges && q.log[id] == [Error(Cancelled)]
         else if objection.Some? then id !in q.exchanges && q.log[id] == [Error(objection.value)]
         else id in q.exchanges && q.log[id] == [] && q.exchanges[id] in q.active
  {
    var p := trace[k];
    RunsAreValid(trace, events, k);
    assert Follows(trace, events, k + 1);
    NewIsDecided(p, id, objection, ready);
    assert id !in p.exchanges;
    PoolIsCoherent(trace, events, k + 1);
  }

  /** What stands against a query: no room for a header or more than a frame holds, a path that cannot be served, a deadline that has passed. */
  lemma ObjectionIsFirst(length: nat, badPath: bool, expired: bool)
    ensures Objection(length, badPath, expired) == None <==> 12 <= length <= 65535 && !badPath && !expired
    ensures Objection(length, badPath, expired) == Some(ProtocolFraming) <==> !(12 <= length <= 65535)
    ensures Objection(length, badPath, expired) == Some(Configuration) <==> 12 <= length <= 65535 && badPath
    ensures Objection(length, badPath, expired) == Some(Timeout) <==> 12 <= length <= 65535 && !badPath && expired
  {
  }

  // ----- Where exchanges go, and where sessions rest

  /** Every active session that is not yet at its 64 exchanges holds at least this many. */
  predicate AtLeast(p: Pool, load: nat) {
    forall n :: n in p.active && n in p.sessions && |p.sessions[n].exchanges| < 64 ==> load <= |p.sessions[n].exchanges|
  }

  predicate AllFull(p: Pool) {
    forall n :: n in p.active && n in p.sessions ==> |p.sessions[n].exchanges| >= 64
  }

  lemma ChosenIsLeast(p: Pool)
    requires Valid(p)
    ensures var n := Choose(p);
      || (n in p.active && n in p.sessions && |p.sessions[n].exchanges| < 64 && AtLeast(p, |p.sessions[n].exchanges|))
      || (AllFull(p) && p.idle != [] && n == p.idle[|p.idle| - 1])
      || (AllFull(p) && p.idle == [] && n == p.nextSession)
  {
    var j := BestIsLeastLoaded(p, |p.active|);
    forall n | n in p.active && n in p.sessions && |p.sessions[n].exchanges| < 64 ensures exists i :: 0 <= i < |p.active| && p.active[i] == n && Accepts(p.sessions[n]) {
      assert InUse(p.sessions[n]);
    }
    if Best(p, |p.active|).Some? {
      assert p.active[j] in p.active;
    }
  }

  /**
   * In every run, a new exchange joins an active session that holds the fewest exchanges,
   * as long as one holds less than 64; then the one that came to rest last, and a new one
   * only if none rests.
   */
  lemma NewExchangeJoins(trace: seq<Pool>, events: seq<Event>, k: nat, id: nat, ready: bool)
    requires IsRun(trace, events) && k < |events| && events[k] == Opens(id, None, ready) && !trace[k].stopped
    ensures var p, q := trace[k], trace[k + 1];
      && id in q.exchanges
      && var n := q.exchanges[id];
         || (n in p.active && n in p.sessions && |p.sessions[n].exchanges| < 64 && AtLeast(p, |p.sessions[n].exchanges|))
         || (AllFull(p) && p.idle != [] && n == p.idle[|p.idle| - 1] && q.idle == p.idle[..|p.idle| - 1])
         || (AllFull(p) && p.idle == [] && n !in p.sessions)
  {
    RunsAreValid(trace, events, k);
    assert Follows(trace, events, k + 1);
    NewIsDecided(trace[k], id, None, ready);
    ChosenIsLeast(trace[k]);
    ChoiceFits(trace[k]);
    IdleAfterAdding(trace[k], id, ready);
    assert trace[k].nextSession !in trace[k].sessions;
  }

  lemma IdleAfterAdding(p: Pool, id: nat, ready: bool)
    requires !p.stopped && forall n :: n in p.active ==> n in p.sessions
    ensures AddNew(p, id, None, ready).idle == if Choose(p) in p.idle then p.idle[..|p.idle| - 1] else p.idle
  {
  }

  /** What happens to a session with its last exchange. */
  lemma LastCompletes(p: Pool, n: nat, id: nat, outcome: Outcome, ready: bool)
    requires Valid(p) && n in p.sessions && p.sessions[n].exchanges == {id}
    ensures var q := Complete(p, n, id, outcome, ready);
      && n in q.sessions && n !in q.active
      && if p.sessions[n].connected && ready then
           && q.idle == (if |p.idle| == 4 then p.idle[1..] else p.idle) + [n]
           && (|p.idle| == 4 ==> p.idle[0] in q.sessions && q.sessions[p.idle[0]].retired)
         else q.sessions[n].retired && q.idle == p.idle
  {
    HolderIsActive(p, n);
    LeaveKeeps(p, n, {id}, outcome, {});
    assert {} + {n} == {n} && p.sessions[n].exchanges - {id} == {};
    var r := Leave(p, n, {id}, outcome);
    assert r.active == p.active && r.idle == p.idle && !r.stopped;
    assert r.sessions[n].exchanges == {};
    assert Drained(r, n) && Coherent(r, {n});
    LastRests(r, n, ready);
  }

  lemma LastRests(p: Pool, n: nat, ready: bool)
    requires Coherent(p, {n}) && Drained(p, n) && !p.stopped && |p.idle| <= 4
    ensures var q := Settle(p, n, ready);
      && n in q.sessions && n !in q.active
      && if p.sessions[n].connected && ready then
           && q.idle == (if |p.idle| == 4 then p.idle[1..] else p.idle) + [n]
           && (|p.idle| == 4 ==> p.idle[0] in q.sessions && q.sessions[p.idle[0]].retired)
         else q.sessions[n].retired && q.idle == p.idle
  {
    OmitMembers(p.active, n);
    assert n !in p.idle;
    OmitMembers(p.idle, n);
    if p.sessions[n].connected && ready {
      var r := Set(p, n, Idled(p.sessions[n])).(active := Omit(p.active, n), idle := p.idle + [n]);
      RestKeeps(p, n);
      if |p.idle| == 4 {
        OldestIsTrimmed(r);
        assert (p.idle + [n])[1..] == p.idle[1..] + [n];
      }
    } else {
      AbsentStays(p.idle, n);
    }
  }

  lemma AbsentStays(s: seq<nat>, n: nat)
    requires n !in s
    ensures Omit(s, n) == s
  {
    assert forall i :: 0 <= i < |s| ==> s[i] in s;
  }

  lemma OldestIsTrimmed(p: Pool)
    requires Coherent(p, {}) && |p.idle| == 5
    ensures p.idle[0] in p.sessions
    ensures Trim(p).idle == p.idle[1..] && p.idle[0] in Trim(p).sessions && Trim(p).sessions[p.idle[0]].retired
    ensures Trim(p).active == p.active && Trim(p).sessions.Keys == p.sessions.Keys
  {
    assert p.idle[0] in p.idle && p.idle[0] !in p.active;
    AbsentStays(p.active, p.idle[0]);
    assert IndexOf(p.idle, p.idle[0]) == 0;
  }

  /** In every run, a session comes to rest with its last exchange, if its connection is in order; of five that rest, the one that has rested longest retires. */
  lemma SessionsRestInTurn(trace: seq<Pool>, events: seq<Event>, k: nat, n: nat, id: nat, outcome: Outcome, ready: bool)
    requires IsRun(trace, events) && k < |events| && events[k] == Resolves(n, id, outcome, ready)
    requires n in trace[k].sessions && trace[k].sessions[n].exchanges == {id}
    ensures var p, q := trace[k], trace[k + 1];
      && n in q.sessions && n !in q.active
      && if p.sessions[n].connected && ready then
           && q.idle == (if |p.idle| == 4 then p.idle[1..] else p.idle) + [n]
           && (|p.idle| == 4 ==> p.idle[0] in q.sessions && q.sessions[p.idle[0]].retired)
         else q.sessions[n].retired && q.idle == p.idle
  {
    RunsAreValid(trace, events, k);
    assert Follows(trace, events, k + 1);
    LastCompletes(trace[k], n, id, outcome, ready);
  }

  /** A resting session retires when the timer that was set for this rest rings, and at no other ring. */
  lemma RestEndsWithItsTimer(trace: seq<Pool>, events: seq<Event>, k: nat, n: nat, generation: nat)
    requires IsRun(trace, events) && k < |events| && events[k] == Rings(n, generation)
    ensures n in trace[k].sessions && n in trace[k + 1].sessions
    ensures trace[k + 1].sessions[n].retired <==>
      trace[k].sessions[n].retired || (n in trace[k].idle && generation == trace[k].sessions[n].generation)
  {
    var p := trace[k];
    RunsAreValid(trace, events, k);
    assert Follows(trace, events, k + 1);
    assert Timed(p.sessions[n]);
  }
}
