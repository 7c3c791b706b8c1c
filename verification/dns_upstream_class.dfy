/** The upstream group and its exchanges themselves. */
module DnsUpstreams {
  import opened Arithmetic
  import opened Budgets
  import opened Core
  import opened Spec = DnsUpstreamSpec

  class DnsUpstreamGroup {
    const members: nat
    const roundRobin: bool
    var memberHealth: seq<Health>
    var nextMember: nat

    ghost predicate Valid()
      reads this
    {
      |memberHealth| == members && nextMember < WORD64
    }

    constructor (members: nat, roundRobin: bool)
      ensures Valid() && this.members == members && this.roundRobin == roundRobin
      ensures memberHealth == seq(members, i => Health(0, 0)) && nextMember == 0
    {
      this.members, this.roundRobin, nextMember := members, roundRobin, 0;
      memberHealth := seq(members, i => Health(0, 0));
    }

    /** With round-robin selection each exchange starts one member further on, until the counter wraps. */
    method NextStartIndex() returns (start: nat)
      requires Valid()
      modifies `nextMember
      ensures Valid() && (members > 0 ==> start < members)
      ensures if !roundRobin || members == 0 then start == 0 && nextMember == old(nextMember)
              else start == old(nextMember) % members && nextMember == Wrap(old(nextMember) + 1, WORD64)
    {
      if !roundRobin || members == 0 {
        return 0;
      }
      start := nextMember % members;
      nextMember := if nextMember + 1 == WORD64 then 0 else nextMember + 1;
    }

    method SelectMember(start: nat, attempted: seq<bool>, now: int) returns (r: Option<nat>)
      requires Valid() && |attempted| == members && (members > 0 ==> start < members)
      ensures r == Select(start, attempted, memberHealth, now)
    {
      if members == 0 {
        return None;
      }
      r := SelectHealthy(start, attempted, now);
      if r.None? {
        r := SelectUntried(start, attempted);
      }
    }

    method SelectHealthy(start: nat, attempted: seq<bool>, now: int) returns (r: Option<nat>)
      requires Valid() && |attempted| == members && start < members
      ensures r == FirstFrom(Healthy(attempted, memberHealth, now), start, 0)
    {
      var offset := 0;
      while offset < members
        invariant 0 <= offset <= members
        invariant FirstFrom(Healthy(attempted, memberHealth, now), start, 0) == FirstFrom(Healthy(attempted, memberHealth, now), start, offset)
      {
        ModIsWrap(start + offset, members);
        var index := (start + offset) % members;
        if !attempted[index] && memberHealth[index].unhealthyUntil <= now {
          return Some(index);
        }
        offset := offset + 1;
      }
      return None;
    }

    /** With every untried member in backoff, the first of them is probed all the same. */
    method SelectUntried(start: nat, attempted: seq<bool>) returns (r: Option<nat>)
      requires |attempted| == members && start < members
      ensures r == FirstFrom(Untried(attempted), start, 0)
    {
      var offset := 0;
      while offset < members
        invariant 0 <= offset <= members
        invariant FirstFrom(Untried(attempted), start, 0) == FirstFrom(Untried(attempted), start, offset)
      {
        ModIsWrap(start + offset, members);
        var index := (start + offset) % members;
        if !attempted[index] {
          return Some(index);
        }
        offset := offset + 1;
      }
      return None;
    }

    method RecordFailure(member: nat, error: ErrorCode, now: int)
      requires Valid()
      modifies `memberHealth
      ensures Valid() && memberHealth == Spec.RecordFailure(old(memberHealth), member, error, now)
    {
      if member >= |memberHealth| || error == Cancelled {
        return;
      }
      var failures := if memberHealth[member].failures + 1 < 8 then memberHealth[member].failures + 1 else 8;
      var backoff := BackoffOf(failures);
      memberHealth := memberHealth[member := Health(failures, now + backoff)];
    }

    /** A quarter of a second, doubled for every further failure, up to half a minute. */
    static method BackoffOf(failures: nat) returns (backoff: nat)
      requires 1 <= failures <= 8
      ensures backoff == Backoff(failures)
    {
      var multiplier := Pow2(failures - 1);
      EightDoublings();
      backoff := if 250 * multiplier > 30000 then 30000 else 250 * multiplier;
    }

    static lemma EightDoublings()
      ensures Pow2(7) == 128
    {
      assert Pow2(3) == 8;
    }

    method RecordSuccess(member: nat)
      requires Valid()
      modifies `memberHealth
      ensures Valid() && memberHealth == Spec.RecordSuccess(old(memberHealth), member)
    {
      if member >= |memberHealth| {
        return;
      }
      memberHealth := memberHealth[member := Health(0, 0)];
    }
  }

  class GroupOperation {
    const owner: DnsUpstreamGroup
    const deadline: int
    var currentIndex: nat
    var phase: Phase
    var attempted: seq<bool>
    var lastError: Option<ErrorCode>
    ghost var tried: seq<Attempt>
    ghost var outcomes: seq<Reply>

    ghost function Model(): Exchange
      reads this
    {
      Exchange(deadline, attempted, currentIndex, lastError, phase, tried, outcomes)
    }

    ghost predicate Fits()
      reads this, owner
    {
      owner.Valid() && |attempted| == owner.members
    }

    constructor (owner: DnsUpstreamGroup, deadline: int)
      requires owner.Valid()
      ensures this.owner == owner && this.deadline == deadline
      ensures Fits() && Model() == Fresh(owner.members, deadline)
    {
      this.owner, this.deadline := owner, deadline;
      currentIndex, phase, lastError, tried, outcomes := 0, Waiting, None, [], [];
      attempted := seq(owner.members, i => false);
    }

    method FinishWith(result: Reply)
      modifies `phase, `outcomes
      ensures Model() == Finish(old(Model()), result)
    {
      if phase == Finished {
        return;
      }
      phase := Finished;
      outcomes := outcomes + [result];
    }

    method Start(start: nat, now: int)
      requires Fits() && Model() == Fresh(owner.members, deadline) && (owner.members > 0 ==> start < owner.members)
      modifies this, owner
      ensures Fits() && (Model(), owner.memberHealth) == Begin(owner.members, start, deadline, old(owner.memberHealth), now)
    {
      if owner.members == 0 {
        FinishWith(Failure(Configuration));
        return;
      }
      TryNext(start, now);
    }

    /** The retry loop from its head to the next wait. */
    method TryNext(index: nat, now: int)
      requires Fits() && phase == Waiting && (attempted != [] ==> index < |attempted|)
      modifies this, owner
      ensures Fits() && (Model(), owner.memberHealth) == Head(old(Model()), old(owner.memberHealth), index, now)
    {
      if now >= deadline {
        lastError := Some(Timeout);
        owner.RecordFailure(currentIndex, Timeout, now);
        FinishWith(Failure(Timeout));
        return;
      }
      var selected := owner.SelectMember(index, attempted, now);
      if selected.None? {
        FinishWith(Failure(if lastError.Some? then lastError.value else Configuration));
        return;
      }
      currentIndex := selected.value;
      attempted := attempted[currentIndex := true];
      var left := CountFalse(attempted);
      var memberDeadline := deadline;
      if left + 1 > 1 {
        memberDeadline := now + (deadline - now) / (left + 1);
      }
      tried := tried + [Attempt(currentIndex, now, memberDeadline)];
    }

    static method CountFalse(flags: seq<bool>) returns (count: nat)
      ensures count == CountUntried(flags)
    {
      count := 0;
      assert flags[..|flags|] == flags;
      for i := 0 to |flags|
        invariant count + CountUntried(flags[i..]) == CountUntried(flags)
      {
        assert flags[i..][1..] == flags[i + 1..];
        if !flags[i] {
          count := count + 1;
        }
      }
    }

    /** The member that is being tried returns. */
    method OnMember(result: Reply, now: int, later: int)
      requires Fits() && Spec.Valid(Model()) && currentIndex < |attempted|
      modifies this, owner
      ensures Fits() && (Model(), owner.memberHealth) == Returned(old(Model()), old(owner.memberHealth), result, now, later)
    {
      if phase != Waiting {
        return;
      }
      if result == Failure(Cancelled) {
        phase := Abandoned;
        return;
      }
      if result.Response? && !ShouldRetry(result.code) {
        owner.RecordSuccess(currentIndex);
        FinishWith(result);
        return;
      }
      var left := CountFalse(attempted);
      CountZero(attempted);
      Failed(if result.Response? then Resolution else result.error, result, now, later, result.Failure? || left > 0);
    }

    /** The member's failure is recorded; another member may be tried while there is time, which the loop's head checks again. */
    method Failed(error: ErrorCode, result: Reply, now: int, later: int, more: bool)
      requires Fits() && phase == Waiting && currentIndex < |attempted|
      modifies this, owner
      ensures Fits()
      ensures var x, health := old(Model()).(lastError := Some(error)), Spec.RecordFailure(old(owner.memberHealth), old(currentIndex), error, now);
        (Model(), owner.memberHealth) ==
          if now < deadline && more then Head(x, health, Wrap(old(currentIndex) + 1, |x.attempted|), later) else (Finish(x, result), health)
    {
      lastError := Some(error);
      owner.RecordFailure(currentIndex, error, now);
      if now < deadline && more {
        var next := NextIndex(currentIndex, |attempted|);
        TryNext(next, later);
        return;
      }
      FinishWith(result);
    }

    static method NextIndex(index: nat, n: nat) returns (next: nat)
      requires index < n
      ensures next == Wrap(index + 1, n) < n
    {
      ModIsWrap(index + 1, n);
      next := (index + 1) % n;
    }

    method Cancel()
      modifies this
      ensures Model() == CancelExchange(old(Model()))
    {
      FinishWith(Failure(Cancelled));
    }
  }
}
