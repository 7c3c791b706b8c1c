/** Dividing a time budget among the parties that are still to be tried. */
module Budgets {
  import opened Arithmetic

  /** `total / parts`, for a budget that is not negative. */
  function Share(total: nat, parts: nat): nat
    requires parts > 0
  {
    total / parts
  }

  lemma ShareBounds(total: nat, parts: nat, q: nat)
    requires parts > 0 && total >= parts * q
    ensures Share(total, parts) >= q && parts * Share(total, parts) <= total
  {
    var s := total / parts;
    assert total == parts * s + total % parts;
    if s < q {
      MulMonotone(s + 1, q, parts);
      assert (s + 1) * parts == parts * s + parts;
    }
  }

  /** Who keeps to the share leaves enough for the others to get `q` each, too. */
  lemma ShareLeaves(total: nat, parts: nat, q: nat, used: nat)
    requires parts > 0 && total >= parts * q && used <= Share(total, parts)
    ensures total - used >= (parts - 1) * q
  {
    ShareBounds(total, parts, q);
    var s := Share(total, parts);
    MulMonotone(q, s, parts - 1);
    assert parts * s == (parts - 1) * s + s;
  }
}

/**
 * An exchange of an upstream group (`DnsUpstreamGroup::Operation`,
 * src/dns/dns_upstream.cpp): members are tried one after the other, healthy ones
 * first, each with its share of the time that is left. Every stretch of the retry loop
 * between two waits is one step, at one time.
 */
module DnsUpstreamSpec {
  import opened Arithmetic
  import opened Budgets
  import opened Core

  /** `code` is the response code. */
  datatype Reply = Response(code: nat) | Failure(error: ErrorCode)

  datatype Health = Health(failures: nat, unhealthyUntil: int)

  datatype Phase = Waiting | Finished | Abandoned

  /** A member that was tried, when, and until when it may take. */
  datatype Attempt = Attempt(member: nat, at: int, deadline: int)

  /** `tried` and `outcomes` record the exchange's history. */
  datatype Exchange = Exchange(
    deadline: int, attempted: seq<bool>, current: nat, lastError: Option<ErrorCode>, phase: Phase,
    tried: seq<Attempt>, outcomes: seq<Reply>)

  predicate ShouldRetry(code: nat) {
    code == 2 || code == 5
  }

  // ----- Health

  function Backoff(failures: nat): nat {
    if failures == 0 then 0
    else if failures >= 8 || 250 * Pow2(failures - 1) > 30000 then 30000
    else 250 * Pow2(failures - 1)
  }

  function RecordFailure(health: seq<Health>, member: nat, error: ErrorCode, now: int): seq<Health> {
    if member >= |health| || error == Cancelled then health
    else
      var failures := if health[member].failures + 1 < 8 then health[member].failures + 1 else 8;
      health[member := Health(failures, now + Backoff(failures))]
  }

  function RecordSuccess(health: seq<Health>, member: nat): seq<Health> {
    if member >= |health| then health else health[member := Health(0, 0)]
  }

  // ----- Selection

  /** The first index at or after `start` in cyclic order, from the `k`-th on, that is eligible. */
  function FirstFrom(eligible: seq<bool>, start: nat, k: nat): (r: Option<nat>)
    requires start < |eligible| && k <= |eligible|
    ensures r.Some? ==> r.value < |eligible| && eligible[r.value]
    decreases |eligible| - k
  {
    if k == |eligible| then None
    else
      var i := Wrap(start + k, |eligible|);
      if eligible[i] then Some(i) else FirstFrom(eligible, start, k + 1)
  }

  /** How far `i` lies behind `start` in cyclic order. */
  function Distance(start: nat, i: nat, n: nat): (d: nat)
    requires start < n && i < n
    ensures d < n && Wrap(start + d, n) == i
  {
    if i >= start then i - start else i + n - start
  }

  lemma {:induction false} FirstFromIsNearest(eligible: seq<bool>, start: nat, k: nat)
    requires start < |eligible| && k <= |eligible|
    ensures match FirstFrom(eligible, start, k)
      case None => forall i :: 0 <= i < |eligible| && Distance(start, i, |eligible|) >= k ==> !eligible[i]
      case Some(m) => (
        && Distance(start, m, |eligible|) >= k
        && forall i :: 0 <= i < |eligible| && eligible[i] && Distance(start, i, |eligible|) >= k ==>
             Distance(start, m, |eligible|) <= Distance(start, i, |eligible|))
    decreases |eligible| - k
  {
    if k < |eligible| && !eligible[Wrap(start + k, |eligible|)] {
      FirstFromIsNearest(eligible, start, k + 1);
    }
  }

  function Untried(attempted: seq<bool>): (r: seq<bool>)
    ensures |r| == |attempted| && forall i :: 0 <= i < |r| ==> r[i] == !attempted[i]
  {
    seq(|attempted|, i requires 0 <= i < |attempted| => !attempted[i])
  }

  function Healthy(attempted: seq<bool>, health: seq<Health>, now: int): (r: seq<bool>)
    requires |health| == |attempted|
    ensures |r| == |attempted| && forall i :: 0 <= i < |r| ==> r[i] == (!attempted[i] && health[i].unhealthyUntil <= now)
  {
    seq(|attempted|, i requires 0 <= i < |attempted| => !attempted[i] && health[i].unhealthyUntil <= now)
  }

  /** `select_member`: the first healthy member that has not been tried, or else the first that has not. */
  function Select(start: nat, attempted: seq<bool>, health: seq<Health>, now: int): (r: Option<nat>)
    requires |health| == |attempted| && (attempted != [] ==> start < |attempted|)
    ensures r.Some? ==> r.value < |attempted| && !attempted[r.value]
  {
    if attempted == [] then None
    else
      var healthy := FirstFrom(Healthy(attempted, health, now), start, 0);
      if healthy.Some? then healthy else FirstFrom(Untried(attempted), start, 0)
  }

  /** A healthy member is preferred, the nearest one in cyclic order; there is none only if all have been tried. */
  lemma SelectIsNearest(start: nat, attempted: seq<bool>, health: seq<Health>, now: int)
    requires |health| == |attempted| && start < |attempted|
    ensures var n := |attempted|; var healthy := Healthy(attempted, health, now);
      match Select(start, attempted, health, now)
      case None => forall i :: 0 <= i < n ==> attempted[i]
      case Some(m) =>
        && (healthy[m] || forall i :: 0 <= i < n ==> !healthy[i])
        && forall i :: 0 <= i < n && !attempted[i] && healthy[i] == healthy[m] ==> Distance(start, m, n) <= Distance(start, i, n)
  {
    FirstFromIsNearest(Healthy(attempted, health, now), start, 0);
    FirstFromIsNearest(Untried(attempted), start, 0);
  }

  // ----- Steps

  function Finish(x: Exchange, result: Reply): Exchange {
    if x.phase == Finished then x else x.(phase := Finished, outcomes := x.outcomes + [result])
  }

  function CountUntried(attempted: seq<bool>): (r: nat)
    ensures r <= |attempted|
  {
    if attempted == [] then 0 else (if attempted[0] then 0 else 1) + CountUntried(attempted[1..])
  }

  /** The time until which a member may take, if `left` others have not been tried. */
  function MemberDeadline(deadline: int, now: int, left: nat): int
    requires now < deadline
  {
    if left > 0 then now + Share(deadline - now, left + 1) else deadline
  }

  /** The head of the retry loop, up to the next wait. */
  function Head(x: Exchange, health: seq<Health>, start: nat, now: int): (Exchange, seq<Health>)
    requires |health| == |x.attempted| && (x.attempted != [] ==> start < |x.attempted|)
  {
    if now >= x.deadline then (Finish(x.(lastError := Some(Timeout)), Failure(Timeout)), RecordFailure(health, x.current, Timeout, now))
    else match Select(start, x.attempted, health, now)
      case None => (Finish(x, Failure(if x.lastError.Some? then x.lastError.value else Configuration)), health)
      case Some(m) =>
        var attempted := x.attempted[m := true];
        (x.(attempted := attempted, current := m,
            tried := x.tried + [Attempt(m, now, MemberDeadline(x.deadline, now, CountUntried(attempted)))]), health)
  }

  function Fresh(n: nat, deadline: int): Exchange {
    Exchange(deadline, seq(n, i => false), 0, None, Waiting, [], [])
  }

  /** `start`: a group without members has nothing to offer. */
  function Begin(n: nat, start: nat, deadline: int, health: seq<Health>, now: int): (Exchange, seq<Health>)
    requires |health| == n && (n > 0 ==> start < n)
  {
    if n == 0 then (Finish(Fresh(0, deadline), Failure(Configuration)), health) else Head(Fresh(n, deadline), health, start, now)
  }

  predicate AnyUntried(attempted: seq<bool>) {
    exists i :: 0 <= i < |attempted| && !attempted[i]
  }

  /** The member that was tried last returns at `now`; `later` is when the head of the loop reads the clock again. */
  function Returned(x: Exchange, health: seq<Health>, result: Reply, now: int, later: int): (Exchange, seq<Health>)
    requires |health| == |x.attempted| && x.current < |x.attempted|
  {
    var next := Wrap(x.current + 1, |x.attempted|);
    if x.phase != Waiting then (x, health)
    else match result
      case Response(code) =>
        if !ShouldRetry(code) then (Finish(x, result), RecordSuccess(health, x.current))
        else
          var y, recorded := x.(lastError := Some(Resolution)), RecordFailure(health, x.current, Resolution, now);
          if now < x.deadline && AnyUntried(x.attempted) then Head(y, recorded, next, later) else (Finish(y, result), recorded)
      case Failure(error) =>
        if error == Cancelled then (x.(phase := Abandoned), health)
        else
          var y, recorded := x.(lastError := Some(error)), RecordFailure(health, x.current, error, now);
          if now < x.deadline then Head(y, recorded, next, later) else (Finish(y, result), recorded)
  }

  /** `cancel` by the caller, or because the group stops. */
  function CancelExchange(x: Exchange): Exchange {
    Finish(x, Failure(Cancelled))
  }

  // ----- What every step keeps

  function Members(tried: seq<Attempt>): (r: seq<nat>)
    ensures |r| == |tried| && forall i :: 0 <= i < |r| ==> r[i] == tried[i].member
  {
    seq(|tried|, i requires 0 <= i < |tried| => tried[i].member)
  }

  /** The members that have been tried are those marked, each of them once, the last one being the current one. */
  ghost predicate Valid(x: Exchange) {
    && Distinct(Members(x.tried)) && |x.tried| + CountUntried(x.attempted) == |x.attempted|
    && (forall m :: m in Members(x.tried) ==> m < |x.attempted| && x.attempted[m])
    && (forall a :: a in x.tried ==> a.at <= a.deadline <= x.deadline)
    && (x.phase == Waiting ==> x.tried != [] && x.current == x.tried[|x.tried| - 1].member && x.outcomes == [])
    && (x.phase == Finished ==> |x.outcomes| == 1)
    && (x.phase == Abandoned ==> x.outcomes == [])
  }

  lemma {:induction false} CountAfterMark(attempted: seq<bool>, m: nat)
    requires m < |attempted| && !attempted[m]
    ensures CountUntried(attempted[m := true]) == CountUntried(attempted) - 1
  {
    if m > 0 {
      CountAfterMark(attempted[1..], m - 1);
      assert attempted[m := true][1..] == attempted[1..][m - 1 := true];
    } else {
      assert attempted[0 := true][1..] == attempted[1..];
    }
  }

  lemma {:induction false} CountZero(attempted: seq<bool>)
    ensures CountUntried(attempted) == 0 <==> forall i :: 0 <= i < |attempted| ==> attempted[i]
  {
    if attempted != [] {
      CountZero(attempted[1..]);
      assert forall i :: 1 <= i < |attempted| ==> attempted[i] == attempted[1..][i - 1];
    }
  }

  lemma {:induction false} CountFresh(n: nat)
    ensures CountUntried(seq(n, i => false)) == n
  {
    if n > 0 {
      CountFresh(n - 1);
      assert seq(n, i => false)[1..] == seq(n - 1, i => false);
    }
  }

  lemma DeadlineBounds(deadline: int, now: int, left: nat)
    requires now < deadline
    ensures now <= MemberDeadline(deadline, now, left) <= deadline
  {
    if left > 0 {
      ShareBounds(deadline - now, left + 1, 0);
      MulMonotone(1, left + 1, Share(deadline - now, left + 1));
    }
  }

  /** Like `Valid`, before the head of the loop has chosen the next member. */
  ghost predicate Ready(x: Exchange) {
    Valid(x.(phase := Abandoned))
  }

  lemma HeadKeeps(x: Exchange, health: seq<Health>, start: nat, now: int)
    requires Ready(x) && x.phase == Waiting && |health| == |x.attempted| && (x.attempted != [] ==> start < |x.attempted|)
    ensures Valid(Head(x, health, start, now).0) && |Head(x, health, start, now).1| == |health|
    ensures var y := Head(x, health, start, now).0; y.phase == Waiting ==> |y.tried| == |x.tried| + 1
    ensures var y := Head(x, health, start, now).0; y.phase != Abandoned && |y.attempted| == |x.attempted|
  {
    if now < x.deadline {
      var m := Select(start, x.attempted, health, now);
      if m.Some? {
        CountAfterMark(x.attempted, m.value);
        var attempted := x.attempted[m.value := true];
        DeadlineBounds(x.deadline, now, CountUntried(attempted));
        var tried := x.tried + [Attempt(m.value, now, MemberDeadline(x.deadline, now, CountUntried(attempted)))];
        assert Members(tried) == Members(x.tried) + [m.value];
      }
    }
  }

  lemma BeginKeeps(n: nat, start: nat, deadline: int, health: seq<Health>, now: int)
    requires |health| == n && (n > 0 ==> start < n)
    ensures var x := Begin(n, start, deadline, health, now).0;
      Valid(x) && x.phase != Abandoned && |x.attempted| == n && x.deadline == deadline && (x.phase == Waiting ==> |x.tried| == 1)
  {
    CountFresh(n);
    if n > 0 {
      HeadKeeps(Fresh(n, deadline), health, start, now);
    }
  }

  lemma ReturnedKeeps(x: Exchange, health: seq<Health>, result: Reply, now: int, later: int)
    requires Valid(x) && |health| == |x.attempted| && x.current < |x.attempted|
    ensures var y := Returned(x, health, result, now, later).0;
      && Valid(y) && |y.attempted| == |x.attempted| && y.deadline == x.deadline
      && (x.phase == Waiting && y.phase == Waiting ==> |y.tried| == |x.tried| + 1)
      && (x.phase == Waiting ==> (y.phase == Abandoned <==> result == Failure(Cancelled)))
  {
    if x.phase == Waiting && result != Failure(Cancelled) && (result.Response? ==> ShouldRetry(result.code)) {
      FailedKeeps(x, health, if result.Response? then Resolution else result.error, result, now, later);
    }
  }

  /** A member has failed: another one is tried, or the exchange is over. */
  lemma FailedKeeps(x: Exchange, health: seq<Health>, error: ErrorCode, result: Reply, now: int, later: int)
    requires Valid(x) && x.phase == Waiting && |health| == |x.attempted| && x.current < |x.attempted|
    ensures var y := x.(lastError := Some(error));
      var z := Head(y, RecordFailure(health, x.current, error, now), Wrap(x.current + 1, |x.attempted|), later).0;
      && Valid(z) && |z.attempted| == |x.attempted| && z.deadline == x.deadline && z.phase != Abandoned
      && (z.phase == Waiting ==> |z.tried| == |x.tried| + 1)
      && Valid(Finish(y, result)) && Finish(y, result).phase == Finished
  {
    HeadKeeps(x.(lastError := Some(error)), RecordFailure(health, x.current, error, now), Wrap(x.current + 1, |x.attempted|), later);
  }
}
