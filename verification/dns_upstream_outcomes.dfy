/**
 * What a member's return makes of an exchange of an upstream group: its outcome or its
 * next attempt, and the health that is left behind, with response codes written out.
 */
module DnsUpstreamOutcomes {
  import opened Arithmetic
  import opened Core
  import opened DnsUpstreamSpec
  import opened DnsUpstreamRuns

  /** The members' health once the event is over. */
  function HealthAfter(x: Exchange, e: Event): seq<Health>
    requires Enabled(x, e) && e.Returns?
  {
    Returned(x, e.health, e.result, e.now, e.later).1
  }

  /** The member that is being tried. */
  function Latest(x: Exchange): nat
    requires x.tried != []
  {
    x.tried[|x.tried| - 1].member
  }

  predicate IsTried(tried: seq<Attempt>, m: nat) {
    exists i :: 0 <= i < |tried| && tried[i].member == m
  }

  /** Of `n` members, some have not been tried. */
  predicate SomeLeft(tried: seq<Attempt>, n: nat) {
    exists m: nat :: m < n && !IsTried(tried, m)
  }

  predicate Rested(health: seq<Health>, m: nat, now: int)
    requires m < |health|
  {
    health[m].unhealthyUntil <= now
  }

  /** An untried member, one that is not being rested if there is one, and of those the nearest from `start` on. */
  ghost predicate IsNext(tried: seq<Attempt>, health: seq<Health>, start: nat, now: int, m: nat)
    requires start < |health|
  {
    && m < |health| && !IsTried(tried, m)
    && (Rested(health, m, now) || forall i: nat :: i < |health| && !IsTried(tried, i) ==> !Rested(health, i, now))
    && forall i: nat :: i < |health| && !IsTried(tried, i) && Rested(health, i, now) == Rested(health, m, now) ==>
         Distance(start, m, |health|) <= Distance(start, i, |health|)
  }

  /** The exchange is over, with just this outcome. */
  predicate EndsWith(x: Exchange, y: Exchange, outcome: Reply) {
    y.phase == Finished && y.outcomes == [outcome] && y.tried == x.tried
  }

  /** The next member is tried, with an equal share of the time that is left. */
  ghost predicate GoesOn(x: Exchange, y: Exchange, health: seq<Health>, start: nat, now: int)
    requires start < |health|
  {
    && y.phase == Waiting && y.outcomes == [] && |y.tried| == |x.tried| + 1 <= |health| && y.tried[..|x.tried|] == x.tried
    && var a, left := y.tried[|x.tried|], |health| - |y.tried|;
       && IsNext(x.tried, health, start, now, a.member)
       && a.at == now && a.deadline == now + (x.deadline - now) / (left + 1)
  }

  // ----- Marks and attempts

  function Marked(attempted: seq<bool>): set<nat> {
    set m: nat | m < |attempted| && attempted[m]
  }

  lemma {:induction false} MarkedSize(attempted: seq<bool>)
    ensures |Marked(attempted)| + CountUntried(attempted) == |attempted|
  {
    if attempted != [] {
      var n := |attempted| - 1;
      MarkedSize(attempted[..n]);
      CountLast(attempted);
      var front := Marked(attempted[..n]);
      assert n !in front;
      assert Marked(attempted) == if attempted[n] then front + {n} else front;
    } else {
      assert Marked(attempted) == {};
    }
  }

  lemma {:induction false} CountLast(attempted: seq<bool>)
    requires attempted != []
    ensures var n := |attempted| - 1; CountUntried(attempted) == CountUntried(attempted[..n]) + if attempted[n] then 0 else 1
  {
    if |attempted| > 1 {
      var n := |attempted| - 1;
      CountLast(attempted[1..]);
      assert attempted[1..][..n - 1] == attempted[..n][1..];
    }
  }

  /** The members that have been marked are those that have been tried. */
  lemma MarkedAreTried(x: Exchange)
    requires Valid(x)
    ensures forall m: nat :: m < |x.attempted| ==> (x.attempted[m] <==> IsTried(x.tried, m))
    ensures AnyUntried(x.attempted) <==> SomeLeft(x.tried, |x.attempted|)
  {
    var tried := Elements(Members(x.tried));
    MarkedSize(x.attempted);
    DistinctCardinality(Members(x.tried));
    CardinalityMonotone(tried, Marked(x.attempted));
    forall m: nat | m < |x.attempted| ensures x.attempted[m] <==> IsTried(x.tried, m) {
      MemberIsTried(x.tried, m);
      assert m in Marked(x.attempted) <==> x.attempted[m];
    }
    if AnyUntried(x.attempted) {
      var m :| 0 <= m < |x.attempted| && !x.attempted[m];
      assert !IsTried(x.tried, m);
    }
  }

  lemma MemberIsTried(tried: seq<Attempt>, m: nat)
    ensures m in Elements(Members(tried)) <==> IsTried(tried, m)
  {
    if IsTried(tried, m) {
      var i :| 0 <= i < |tried| && tried[i].member == m;
      assert Members(tried)[i] == m;
    }
  }

  // ----- The head of the loop

  lemma SelectIsNext(x: Exchange, health: seq<Health>, start: nat, now: int)
    requires |health| == |x.attempted| && start < |health|
    requires forall m: nat :: m < |x.attempted| ==> (x.attempted[m] <==> IsTried(x.tried, m))
    ensures match Select(start, x.attempted, health, now)
      case Some(m) => IsNext(x.tried, health, start, now, m) && SomeLeft(x.tried, |health|)
      case None => !SomeLeft(x.tried, |health|)
  {
    SelectIsNearest(start, x.attempted, health, now);
    var healthy := Healthy(x.attempted, health, now);
    assert forall i: nat :: i < |health| && !x.attempted[i] ==> (healthy[i] <==> Rested(health, i, now));
  }

  lemma HeadDecides(x: Exchange, health: seq<Health>, start: nat, now: int)
    requires Ready(x) && x.phase == Waiting && |health| == |x.attempted| && start < |health|
    ensures var y := Head(x, health, start, now).0;
      if now >= x.deadline then EndsWith(x, y, Failure(Timeout))
      else if SomeLeft(x.tried, |health|) then GoesOn(x, y, health, start, now)
      else EndsWith(x, y, Failure(if x.lastError.Some? then x.lastError.value else Configuration))
    ensures now < x.deadline ==> Head(x, health, start, now).1 == health
  {
    MarkedAreTried(x.(phase := Abandoned));
    SelectIsNext(x, health, start, now);
    var m := Select(start, x.attempted, health, now);
    if now < x.deadline && m.Some? {
      CountAfterMark(x.attempted, m.value);
      MarkedSize(x.attempted);
      assert (x.deadline - now) / 1 == x.deadline - now;
    }
  }

  // ----- The events of a run

  /** The exchange waits in state `k`, and event `k` is this return. */
  ghost predicate ReturnsAt(s: Start, trace: seq<Exchange>, events: seq<Event>, k: nat, e: Event) {
    IsRun(s, trace, events) && k < |events| && trace[k].phase == Waiting && events[k] == e && e.Returns?
  }

  lemma AtReturn(s: Start, trace: seq<Exchange>, events: seq<Event>, k: nat, e: Event)
    requires ReturnsAt(s, trace, events, k, e)
    ensures var x := trace[k];
      && Valid(x) && |x.attempted| == s.n && x.outcomes == [] && x.tried != [] && Latest(x) == x.current < s.n == |e.health|
    ensures Enabled(trace[k], e) && trace[k + 1] == Step(trace[k], e)
  {
    RunsAreValid(s, trace, events, k);
    assert Follows(trace, events, k + 1);
  }

  /**
   * In every run, a response that is neither a server failure (code 2) nor a refusal (5)
   * ends the exchange with just that response, and its member is healthy again.
   */
  lemma GoodResponseEnds(s: Start, trace: seq<Exchange>, events: seq<Event>, k: nat, e: Event, code: nat)
    requires ReturnsAt(s, trace, events, k, e) && e.result == Response(code) && code != 2 && code != 5
    ensures EndsWith(trace[k], trace[k + 1], Response(code)) && trace[k].tried != []
    ensures Enabled(trace[k], e) && Latest(trace[k]) < |e.health|
    ensures HealthAfter(trace[k], e) == e.health[Latest(trace[k]) := Health(0, 0)]
  {
    AtReturn(s, trace, events, k, e);
  }

  /** Where the loop looks for the next member. */
  function Following(x: Exchange, n: nat): nat
    requires x.tried != [] && n > 0
  {
    if Latest(x) + 1 >= n then 0 else Latest(x) + 1
  }

  predicate IsFailure(result: Reply, error: ErrorCode) {
    error != Cancelled && (result == Failure(error) || (error == Resolution && (result == Response(2) || result == Response(5))))
  }

  lemma ReturnUnfolds(x: Exchange, e: Event, error: ErrorCode)
    requires Enabled(x, e) && e.Returns? && x.phase == Waiting && IsFailure(e.result, error)
    ensures var z, start := x.(lastError := Some(error)), Wrap(x.current + 1, |x.attempted|);
      Step(x, e) ==
        if e.now < x.deadline && (e.result.Failure? || AnyUntried(x.attempted))
        then Head(z, e.health[x.current := Charged(e.health[x.current], e.now)], start, e.later).0
        else Finish(z, e.result)
  {
  }

  lemma FailureGoesOn(x: Exchange, e: Event, error: ErrorCode)
    requires Valid(x) && Enabled(x, e) && e.Returns? && x.phase == Waiting && IsFailure(e.result, error)
    ensures x.tried != [] && Latest(x) < |e.health| && Following(x, |e.health|) < |e.health|
    ensures var y, once := Step(x, e), e.health[Latest(x) := Charged(e.health[Latest(x)], e.now)];
      if e.now >= x.deadline then EndsWith(x, y, e.result)
      else if e.result.Response? && !SomeLeft(x.tried, |e.health|) then EndsWith(x, y, e.result)
      else if e.later >= x.deadline then EndsWith(x, y, Failure(Timeout))
      else if SomeLeft(x.tried, |e.health|) then GoesOn(x, y, once, Following(x, |e.health|), e.later)
      else EndsWith(x, y, e.result)
  {
    MarkedAreTried(x);
    ReturnUnfolds(x, e, error);
    NextDecides(x, e.health[x.current := Charged(e.health[x.current], e.now)], Wrap(x.current + 1, |x.attempted|), error, e.later);
  }

  lemma NextDecides(x: Exchange, health: seq<Health>, start: nat, error: ErrorCode, now: int)
    requires Valid(x) && x.phase == Waiting && |health| == |x.attempted| && start < |health|
    ensures var y := Head(x.(lastError := Some(error)), health, start, now).0;
      if now >= x.deadline then EndsWith(x, y, Failure(Timeout))
      else if SomeLeft(x.tried, |health|) then GoesOn(x, y, health, start, now)
      else EndsWith(x, y, Failure(error))
  {
    HeadDecides(x.(lastError := Some(error)), health, start, now);
  }

  lemma FailureIsCharged(x: Exchange, e: Event, error: ErrorCode)
    requires Valid(x) && Enabled(x, e) && e.Returns? && x.phase == Waiting && IsFailure(e.result, error)
    ensures x.tried != [] && Latest(x) < |e.health|
    ensures var once := Charged(e.health[Latest(x)], e.now);
      HealthAfter(x, e) == e.health[Latest(x) :=
        if e.now < x.deadline <= e.later && (e.result.Failure? || SomeLeft(x.tried, |e.health|)) then Charged(once, e.later) else once]
  {
    MarkedAreTried(x);
    ChargedTwiceIff(x, e.health, e.result, e.now, e.later);
  }

  /**
   * In every run, a server failure or a refusal (code 2 or 5) is passed on if the deadline
   * has come or no member is left; otherwise the next member is tried, unless the deadline
   * comes before the loop looks at the clock again: then the outcome is a timeout.
   */
  lemma BadResponseGoesOn(s: Start, trace: seq<Exchange>, events: seq<Event>, k: nat, e: Event, code: nat)
    requires ReturnsAt(s, trace, events, k, e) && e.result == Response(code) && (code == 2 || code == 5)
    ensures trace[k].tried != [] && Latest(trace[k]) < s.n == |e.health| && Following(trace[k], s.n) < s.n
    ensures var x, y := trace[k], trace[k + 1];
      if e.now >= x.deadline || !SomeLeft(x.tried, s.n) then EndsWith(x, y, Response(code))
      else if e.later >= x.deadline then EndsWith(x, y, Failure(Timeout))
      else GoesOn(x, y, e.health[Latest(x) := Charged(e.health[Latest(x)], e.now)], Following(x, s.n), e.later)
    ensures var x, once := trace[k], Charged(e.health[Latest(trace[k])], e.now);
      && Enabled(x, e)
      && HealthAfter(x, e) == e.health[Latest(x) :=
           if e.now < x.deadline <= e.later && SomeLeft(x.tried, s.n) then Charged(once, e.later) else once]
  {
    AtReturn(s, trace, events, k, e);
    FailureGoesOn(trace[k], e, Resolution);
    FailureIsCharged(trace[k], e, Resolution);
  }

  /**
   * In every run, an error is passed on if the deadline has come; otherwise the next member
   * is tried, and if none is left the error is passed on then; a deadline that comes before
   * the loop looks at the clock again makes the outcome a timeout.
   */
  lemma ErrorGoesOn(s: Start, trace: seq<Exchange>, events: seq<Event>, k: nat, e: Event, error: ErrorCode)
    requires ReturnsAt(s, trace, events, k, e) && e.result == Failure(error) && error != Cancelled
    ensures trace[k].tried != [] && Latest(trace[k]) < s.n == |e.health| && Following(trace[k], s.n) < s.n
    ensures var x, y := trace[k], trace[k + 1];
      if e.now >= x.deadline then EndsWith(x, y, Failure(error))
      else if e.later >= x.deadline then EndsWith(x, y, Failure(Timeout))
      else if SomeLeft(x.tried, s.n) then
        GoesOn(x, y, e.health[Latest(x) := Charged(e.health[Latest(x)], e.now)], Following(x, s.n), e.later)
      else EndsWith(x, y, Failure(error))
    ensures var x, once := trace[k], Charged(e.health[Latest(trace[k])], e.now);
      && Enabled(x, e)
      && HealthAfter(x, e) == e.health[Latest(x) := if e.now < x.deadline <= e.later then Charged(once, e.later) else once]
  {
    AtReturn(s, trace, events, k, e);
    FailureGoesOn(trace[k], e, error);
    FailureIsCharged(trace[k], e, error);
  }

  /** A member's cancellation leaves the exchange without an outcome, and nobody is charged. */
  lemma MemberCancellationAbandons(s: Start, trace: seq<Exchange>, events: seq<Event>, k: nat, e: Event)
    requires ReturnsAt(s, trace, events, k, e) && e.result == Failure(Cancelled)
    ensures trace[k + 1].phase == Abandoned && trace[k + 1].outcomes == [] && trace[k + 1].tried == trace[k].tried
    ensures Enabled(trace[k], e) && HealthAfter(trace[k], e) == e.health
  {
    AtReturn(s, trace, events, k, e);
  }

  /** The caller's cancellation is the outcome of an exchange that has none, and no event changes one that has. */
  lemma CancellationEnds(s: Start, trace: seq<Exchange>, events: seq<Event>, k: nat)
    requires IsRun(s, trace, events) && k < |events|
    ensures events[k] == Cancels && trace[k].phase != Finished ==> EndsWith(trace[k], trace[k + 1], Failure(Cancelled))
    ensures trace[k].phase == Finished ==> trace[k + 1] == trace[k]
  {
    RunsAreValid(s, trace, events, k);
    assert Follows(trace, events, k + 1);
  }

  /** An exchange starts with the first member in turn; without members, or at the deadline, it fails at once. */
  lemma FirstAttempt(s: Start, trace: seq<Exchange>, events: seq<Event>)
    requires IsRun(s, trace, events)
    ensures var x := trace[0]; var none := Exchange(s.deadline, [], 0, None, Waiting, [], []);
      if s.n == 0 then EndsWith(none, x, Failure(Configuration))
      else if s.now >= s.deadline then EndsWith(none, x, Failure(Timeout))
      else s.index < |s.health| && GoesOn(none, x, s.health, s.index, s.now)
  {
    if s.n > 0 {
      CountFresh(s.n);
      HeadDecides(Fresh(s.n, s.deadline), s.health, s.index, s.now);
      if s.now < s.deadline {
        assert !IsTried([], 0) && SomeLeft([], s.n);
      }
    }
  }

  /** The pause doubles with each failure in a row, from a quarter of a second up to half a minute. */
  lemma BackoffDoubles(failures: nat)
    requires failures >= 1
    ensures Backoff(1) == 250
    ensures Backoff(failures + 1) == if 2 * Backoff(failures) < 30000 then 2 * Backoff(failures) else 30000
  {
    if failures < 8 {
      assert Pow2(failures) == 2 * Pow2(failures - 1);
    }
    PowersAt7();
  }

  lemma PowersAt7()
    ensures Pow2(0) == 1 && Pow2(1) == 2 && Pow2(2) == 4 && Pow2(3) == 8 && Pow2(4) == 16 && Pow2(5) == 32 && Pow2(6) == 64 && Pow2(7) == 128
  {
  }
}
