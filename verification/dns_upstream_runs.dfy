/** Every run of an exchange of an upstream group. */
module DnsUpstreamRuns {
  import opened Arithmetic
  import opened Budgets
  import opened Core
  import opened DnsUpstreamSpec

  /** `health` is what other exchanges of the group have made of the members' health meanwhile. */
  datatype Event = Returns(result: Reply, now: int, later: int, health: seq<Health>) | Cancels

  predicate Enabled(x: Exchange, e: Event) {
    e.Returns? ==>
      && |e.health| == |x.attempted| && x.current < |x.attempted| && x.tried != []
      && x.tried[|x.tried| - 1].at <= e.now <= e.later
  }

  function Step(x: Exchange, e: Event): Exchange
    requires Enabled(x, e)
  {
    match e
    case Returns(result, now, later, health) => Returned(x, health, result, now, later).0
    case Cancels => CancelExchange(x)
  }

  /** State `k` of a run follows from the one before. */
  predicate Follows(trace: seq<Exchange>, events: seq<Event>, k: nat)
    requires |trace| == |events| + 1 && 1 <= k < |trace|
  {
    Enabled(trace[k - 1], events[k - 1]) && trace[k] == Step(trace[k - 1], events[k - 1])
  }

  /** How an exchange with a group of `n` members starts. */
  datatype Start = Start(n: nat, index: nat, deadline: int, health: seq<Health>, now: int)

  predicate Proper(s: Start) {
    |s.health| == s.n && (s.n > 0 ==> s.index < s.n)
  }

  ghost predicate IsRun(s: Start, trace: seq<Exchange>, events: seq<Event>) {
    && Proper(s) && |trace| == |events| + 1 && trace[0] == Begin(s.n, s.index, s.deadline, s.health, s.now).0
    && forall k :: 1 <= k < |trace| ==> Follows(trace, events, k)
  }

  lemma StepKeeps(x: Exchange, e: Event)
    requires Valid(x) && Enabled(x, e)
    ensures Valid(Step(x, e)) && |Step(x, e).attempted| == |x.attempted|
  {
    match e
    case Returns(result, now, later, health) => ReturnedKeeps(x, health, result, now, later);
    case Cancels =>
  }

  lemma {:induction false} RunsAreValid(s: Start, trace: seq<Exchange>, events: seq<Event>, k: nat)
    requires IsRun(s, trace, events) && k < |trace|
    ensures Valid(trace[k]) && |trace[k].attempted| == s.n
    decreases k
  {
    if k == 0 {
      BeginKeeps(s.n, s.index, s.deadline, s.health, s.now);
    } else {
      RunsAreValid(s, trace, events, k - 1);
      assert Follows(trace, events, k);
      StepKeeps(trace[k - 1], events[k - 1]);
    }
  }

  /** In every run each member is tried at most once, so there are at most `n` attempts, and there is at most one outcome. */
  lemma TriedOnce(s: Start, trace: seq<Exchange>, events: seq<Event>, k: nat)
    requires IsRun(s, trace, events) && k < |trace|
    ensures var x := trace[k];
      && (forall i, j :: 0 <= i < j < |x.tried| ==> x.tried[i].member != x.tried[j].member)
      && |x.tried| <= s.n && |x.outcomes| <= 1 && (x.phase == Finished <==> x.outcomes != [])
  {
    RunsAreValid(s, trace, events, k);
    var x := trace[k];
    forall i, j | 0 <= i < j < |x.tried| ensures x.tried[i].member != x.tried[j].member {
      assert Members(x.tried)[i] != Members(x.tried)[j];
    }
  }

  predicate Reports(e: Event) {
    e.Returns? && e.result != Failure(Cancelled)
  }

  /** If no member reports a cancellation, the exchange is over after as many returns as there are members. */
  lemma {:induction false} Completes(s: Start, trace: seq<Exchange>, events: seq<Event>, k: nat)
    requires IsRun(s, trace, events) && k < |trace| && forall e :: e in events ==> Reports(e)
    ensures trace[k].phase == Finished || (trace[k].phase == Waiting && |trace[k].tried| == k + 1 <= s.n)
    decreases k
  {
    RunsAreValid(s, trace, events, k);
    if k == 0 {
      BeginKeeps(s.n, s.index, s.deadline, s.health, s.now);
    } else {
      Completes(s, trace, events, k - 1);
      RunsAreValid(s, trace, events, k - 1);
      assert Follows(trace, events, k);
      assert Reports(events[k - 1]);
      ReturnedKeeps(trace[k - 1], events[k - 1].health, events[k - 1].result, events[k - 1].now, events[k - 1].later);
    }
  }

  lemma CompletesInTime(s: Start, trace: seq<Exchange>, events: seq<Event>)
    requires IsRun(s, trace, events) && |events| >= s.n && forall e :: e in events ==> Reports(e)
    ensures trace[|trace| - 1].phase == Finished && |trace[|trace| - 1].outcomes| == 1
  {
    Completes(s, trace, events, |events|);
    RunsAreValid(s, trace, events, |events|);
  }

  // ----- Shares of time

  /** Every attempt has been given `q`, and what was left at the last one is enough for as much for each member not tried before it. */
  ghost predicate Fair(x: Exchange, q: nat) {
    && (forall a :: a in x.tried ==> a.deadline - a.at >= q)
    && (x.tried != [] ==>
          var last, parts := x.tried[|x.tried| - 1], CountUntried(x.attempted) + 1;
          && last.at < x.deadline && x.deadline - last.at >= parts * q
          && last.deadline == MemberDeadline(x.deadline, last.at, parts - 1))
  }

  /** The member returns, and the loop goes on, by the time that the member was given. */
  predicate Punctual(x: Exchange, e: Event) {
    e.Returns? && (x.tried != [] ==> e.later <= x.tried[|x.tried| - 1].deadline)
  }

  /** The head of the loop, with enough time left for every member that has not been tried. */
  lemma HeadIsFair(x: Exchange, health: seq<Health>, start: nat, now: int, q: nat)
    requires |health| == |x.attempted| && (x.attempted != [] ==> start < |x.attempted|)
    requires (forall a :: a in x.tried ==> a.deadline - a.at >= q) && x.phase == Waiting
    requires x.deadline - now >= CountUntried(x.attempted) * q
    ensures var y := Head(x, health, start, now).0; y.phase == Waiting ==> Fair(y, q)
    ensures var y := Head(x, health, start, now).0; forall a :: a in y.tried ==> a.deadline - a.at >= q
  {
    var m := Select(start, x.attempted, health, now);
    if now < x.deadline && m.Some? {
      CountAfterMark(x.attempted, m.value);
      var left := CountUntried(x.attempted[m.value := true]);
      ShareBounds(x.deadline - now, left + 1, q);
      if left == 0 {
        assert 1 * q == q;
      }
    }
  }

  lemma TimeLeft(x: Exchange, now: int, q: nat)
    requires Fair(x, q) && x.tried != [] && x.tried[|x.tried| - 1].at <= now <= x.tried[|x.tried| - 1].deadline
    ensures x.deadline - now >= CountUntried(x.attempted) * q
  {
    var last, left := x.tried[|x.tried| - 1], CountUntried(x.attempted);
    if left == 0 {
      assert left * q == 0;
      ShareBounds(x.deadline - last.at, 1, 0);
    } else {
      ShareLeaves(x.deadline - last.at, left + 1, q, now - last.at);
    }
  }

  lemma ReturnedIsFair(x: Exchange, e: Event, q: nat)
    requires Valid(x) && Enabled(x, e) && Punctual(x, e) && (x.phase == Waiting ==> Fair(x, q))
    requires forall a :: a in x.tried ==> a.deadline - a.at >= q
    ensures Step(x, e).phase == Waiting ==> Fair(Step(x, e), q)
    ensures forall a :: a in Step(x, e).tried ==> a.deadline - a.at >= q
  {
    if x.phase == Waiting && e.result != Failure(Cancelled) && (e.result.Response? ==> ShouldRetry(e.result.code)) {
      TimeLeft(x, e.later, q);
      var error := if e.result.Response? then Resolution else e.result.error;
      HeadIsFair(x.(lastError := Some(error)), RecordFailure(e.health, x.current, error, e.now),
                 Wrap(x.current + 1, |x.attempted|), e.later, q);
    }
  }

  lemma BeginIsFair(s: Start)
    requires Proper(s) && s.n > 0 && s.now < s.deadline
    ensures var x := Begin(s.n, s.index, s.deadline, s.health, s.now).0; var q := Share(s.deadline - s.now, s.n);
      && (x.phase == Waiting ==> Fair(x, q)) && forall a :: a in x.tried ==> a.deadline - a.at >= q
  {
    CountFresh(s.n);
    ShareBounds(s.deadline - s.now, s.n, 0);
    HeadIsFair(Fresh(s.n, s.deadline), s.health, s.index, s.now, Share(s.deadline - s.now, s.n));
  }

  /**
   * If each member returns by the deadline it was given, every member that is tried at
   * all is given at least an equal share of the whole time.
   */
  lemma {:induction false} FairShares(s: Start, trace: seq<Exchange>, events: seq<Event>, k: nat)
    requires IsRun(s, trace, events) && k < |trace| && s.n > 0 && s.now < s.deadline
    requires forall i :: 0 <= i < |events| ==> Punctual(trace[i], events[i])
    ensures trace[k].phase == Waiting ==> Fair(trace[k], Share(s.deadline - s.now, s.n))
    ensures forall a :: a in trace[k].tried ==> a.deadline - a.at >= (s.deadline - s.now) / s.n
    decreases k
  {
    if k == 0 {
      BeginIsFair(s);
    } else {
      FairShares(s, trace, events, k - 1);
      RunsAreValid(s, trace, events, k - 1);
      assert Follows(trace, events, k);
      ReturnedIsFair(trace[k - 1], events[k - 1], Share(s.deadline - s.now, s.n));
    }
  }

  // ----- An exchange that is abandoned

  /**
   * Once a member has reported a cancellation, the loop is over without an outcome, and
   * there will be one exactly if the exchange is cancelled from outside.
   */
  lemma {:induction false} AbandonedWaitsForCancel(s: Start, trace: seq<Exchange>, events: seq<Event>, m: nat, n: nat)
    requires IsRun(s, trace, events) && m <= n < |trace| && trace[m].phase == Abandoned
    ensures if Cancels in events[m..n] then trace[n].phase == Finished && trace[n].outcomes == [Failure(Cancelled)]
            else trace[n].phase == Abandoned && trace[n].outcomes == []
    decreases n
  {
    RunsAreValid(s, trace, events, n);
    if m < n {
      AbandonedWaitsForCancel(s, trace, events, m, n - 1);
      assert Follows(trace, events, n);
      assert events[m..n] == events[m..n - 1] + [events[n - 1]];
    }
  }

  /** An exchange is abandoned exactly when the member that is being tried reports a cancellation. */
  lemma AbandonedIff(s: Start, trace: seq<Exchange>, events: seq<Event>, k: nat)
    requires IsRun(s, trace, events) && k < |events| && trace[k].phase != Abandoned
    ensures trace[k + 1].phase == Abandoned <==>
      trace[k].phase == Waiting && events[k].Returns? && events[k].result == Failure(Cancelled)
  {
    RunsAreValid(s, trace, events, k);
    assert Follows(trace, events, k + 1);
    if events[k].Returns? {
      ReturnedKeeps(trace[k], events[k].health, events[k].result, events[k].now, events[k].later);
    }
  }

  // ----- Who is charged with a failure

  lemma ReturnedTouches(x: Exchange, health: seq<Health>, result: Reply, now: int, later: int, i: nat)
    requires |health| == |x.attempted| && x.current < |x.attempted| && i < |health|
    requires i < |Returned(x, health, result, now, later).1| && Returned(x, health, result, now, later).1[i] != health[i]
    ensures x.phase == Waiting && i == x.current
  {
  }

  /** The step to state `k` of a run changes the health of member `i`. */
  ghost predicate Touched(s: Start, trace: seq<Exchange>, events: seq<Event>, k: nat, i: nat)
    requires IsRun(s, trace, events) && k < |trace| && i < s.n
  {
    if k == 0 then var health := Begin(s.n, s.index, s.deadline, s.health, s.now).1; i < |health| && health[i] != s.health[i]
    else
      assert Follows(trace, events, k);
      var x, e := trace[k - 1], events[k - 1];
      e.Returns? && i < |e.health| && var health := Returned(x, e.health, e.result, e.now, e.later).1; i < |health| && health[i] != e.health[i]
  }

  lemma {:induction false} TriedGrows(s: Start, trace: seq<Exchange>, events: seq<Event>, m: nat, n: nat)
    requires IsRun(s, trace, events) && m <= n < |trace|
    ensures trace[m].tried <= trace[n].tried
    decreases n
  {
    if m < n {
      TriedGrows(s, trace, events, m, n - 1);
      assert Follows(trace, events, n);
    }
  }

  /** What a failure makes of a member's health. */
  function Charged(h: Health, now: int): Health {
    var failures := if h.failures + 1 < 8 then h.failures + 1 else 8;
    Health(failures, now + Backoff(failures))
  }

  /** A member that is touched has been tried, or is the first one, by an exchange that starts too late. */
  lemma TouchedWasTried(s: Start, trace: seq<Exchange>, events: seq<Event>, k: nat, i: nat)
    requires IsRun(s, trace, events) && k < |trace| && i < s.n && Touched(s, trace, events, k, i)
    ensures i in Members(trace[|events|].tried) || (k == 0 && i == 0 && s.now >= s.deadline)
  {
    if k > 0 {
      assert Follows(trace, events, k);
      RunsAreValid(s, trace, events, k - 1);
      var x, e := trace[k - 1], events[k - 1];
      ReturnedTouches(x, e.health, e.result, e.now, e.later, i);
      TriedGrows(s, trace, events, k - 1, |events|);
      assert Members(trace[|events|].tried)[|x.tried| - 1] == x.tried[|x.tried| - 1].member;
    }
  }

  predicate Fails(result: Reply) {
    result != Failure(Cancelled) && (result.Response? ==> ShouldRetry(result.code))
  }

  /**
   * One pass of the loop read closely: a member that fails in time is charged once; but if the deadline passes before the
   * head of the loop looks at the clock, it is charged a second time.
   */
  lemma ChargedTwiceIff(x: Exchange, health: seq<Health>, result: Reply, now: int, later: int)
    requires |health| == |x.attempted| && x.current < |x.attempted| && x.phase == Waiting && Fails(result)
    ensures var h := Returned(x, health, result, now, later).1;
      var once := Charged(health[x.current], now);
      h == health[x.current := if now < x.deadline <= later && (result.Failure? || AnyUntried(x.attempted)) then Charged(once, later) else once]
  {
  }

  /**
   * In every run, the health of a member that was never tried changes if and only if the
   * exchange starts at or after its deadline and the charge makes a difference to the
   * first member: then that is the member, and it is charged with a failure.
   */
  lemma LateStartBlamesFirst(s: Start, trace: seq<Exchange>, events: seq<Event>)
    requires IsRun(s, trace, events)
    ensures (exists k: nat, i: nat :: k < |trace| && i < s.n && Touched(s, trace, events, k, i) && i !in Members(trace[|events|].tried)) <==>
      s.n > 0 && s.now >= s.deadline && Charged(s.health[0], s.now) != s.health[0]
    ensures s.n > 0 && s.now >= s.deadline ==>
      Begin(s.n, s.index, s.deadline, s.health, s.now).1 == s.health[0 := Charged(s.health[0], s.now)] && trace[|events|].tried == []
  {
    if k: nat, i: nat :| k < |trace| && i < s.n && Touched(s, trace, events, k, i) && i !in Members(trace[|events|].tried) {
      TouchedWasTried(s, trace, events, k, i);
    }
    if s.n > 0 && s.now >= s.deadline {
      TooLate(s, trace, events, |events|);
      if Charged(s.health[0], s.now) != s.health[0] {
        assert Touched(s, trace, events, 0, 0);
      }
    }
  }

  lemma {:induction false} TooLate(s: Start, trace: seq<Exchange>, events: seq<Event>, k: nat)
    requires IsRun(s, trace, events) && k < |trace| && s.n > 0 && s.now >= s.deadline
    ensures trace[k].phase == Finished && trace[k].tried == [] && trace[k].outcomes == [Failure(Timeout)]
    decreases k
  {
    if k > 0 {
      TooLate(s, trace, events, k - 1);
      assert Follows(trace, events, k);
    }
  }

  /** The pause after a failure is between a quarter of a second and half a minute, and never shrinks with more failures. */
  lemma {:induction false} BackoffGrows(a: nat, b: nat)
    requires 1 <= a <= b
    ensures 250 <= Backoff(a) <= Backoff(b) <= 30000
    decreases b
  {
    if a < b {
      BackoffGrows(a, b - 1);
      if b < 8 {
        assert Pow2(b - 1) == 2 * Pow2(b - 2);
      }
    }
  }
}
