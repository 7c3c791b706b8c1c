/**
 * The relay between two streams (`TcpRelay`, src/proxy/tcp_relay.cpp): two pumps, a
 * watchdog and a supervisor, in any interleaving. Times are milliseconds.
 */
module TcpRelaySpec {
  import opened Core

  /** `rest` is what a write that is under way has not delivered yet. */
  datatype Phase = Reading | Writing(size: nat, rest: Bytes) | Ended | Aborted

  /** One direction: `read` is everything that was read, `delivered` what the other side has got. */
  datatype Pump = Pump(initial: Bytes, phase: Phase, read: Bytes, delivered: Bytes, counter: nat)

  datatype Watchdog = Sleeping(until: int) | Gone

  /** `reports` are the counters that the completion handler was called with, left to right first. */
  datatype Relay = Relay(leftToRight: Pump, rightToLeft: Pump, watchdog: Watchdog, lastActivity: int, finished: bool, reports: seq<(nat, nat)>)

  function IdleTimeout(): nat { 300_000 }

  function PollInterval(): nat { 30_000 }

  function BufferSize(): nat { 8192 }

  function Begin(initial: Bytes): Pump {
    Pump(initial, if initial == [] then Reading else Writing(|initial|, initial), [], [], 0)
  }

  /** The watchdog's loop, up to the next sleep. */
  function Watch(r: Relay, now: int): Relay {
    var deadline := r.lastActivity + IdleTimeout();
    if now >= deadline then Finish(r).(watchdog := Gone)
    else r.(watchdog := Sleeping(now + (if deadline - now < PollInterval() then deadline - now else PollInterval())))
  }

  function Launch(initial: Bytes, now: int): Relay {
    Watch(Relay(Begin(initial), Begin([]), Gone, now, false, []), now)
  }

  /** Only the first call counts; it reports the counters as they are. */
  function Finish(r: Relay): Relay {
    if r.finished then r else r.(finished := true, reports := r.reports + [(r.leftToRight.counter, r.rightToLeft.counter)])
  }

  function Direction(r: Relay, left: bool): Pump {
    if left then r.leftToRight else r.rightToLeft
  }

  function Set(r: Relay, left: bool, p: Pump): Relay {
    if left then r.(leftToRight := p) else r.(rightToLeft := p)
  }

  datatype Event =
    | Delivers(left: bool, count: nat)
    | WriteCompletes(left: bool, now: int)
    | WriteFails(left: bool)
    | ReadReturns(left: bool, chunk: Bytes)
    | ReadEnds(left: bool)
    | ReadFails(left: bool)
    | Wakes(now: int)
    | SleepFails
    | Supervised
    | Stops

  predicate Over(p: Pump) {
    p.phase.Ended? || p.phase.Aborted?
  }

  predicate Enabled(r: Relay, e: Event) {
    match e
    case Delivers(left, count) => Direction(r, left).phase.Writing? && count <= |Direction(r, left).phase.rest|
    case WriteCompletes(left, _) => Direction(r, left).phase.Writing? && Direction(r, left).phase.rest == []
    case WriteFails(left) => Direction(r, left).phase.Writing?
    case ReadReturns(left, chunk) => Direction(r, left).phase.Reading? && |chunk| <= BufferSize()
    case ReadEnds(left) => Direction(r, left).phase.Reading?
    case ReadFails(left) => Direction(r, left).phase.Reading?
    case Wakes(now) => r.watchdog.Sleeping? && now >= r.watchdog.until
    case SleepFails => r.watchdog.Sleeping?
    case Supervised => (Over(r.leftToRight) && Over(r.rightToLeft)) || r.watchdog.Gone?
    case Stops => true
  }

  /** Part of a write reaches the other side. */
  function Deliver(p: Pump, count: nat): Pump
    requires p.phase.Writing? && count <= |p.phase.rest|
  {
    p.(phase := p.phase.(rest := p.phase.rest[count..]), delivered := p.delivered + p.phase.rest[..count])
  }

  function Written(r: Relay, left: bool, now: int): Relay
    requires Direction(r, left).phase.Writing?
  {
    var p := Direction(r, left);
    if r.finished then Set(r, left, p.(phase := Aborted))
    else Set(r, left, p.(phase := Reading, counter := p.counter + p.phase.size)).(lastActivity := now)
  }

  function Abort(r: Relay, left: bool): Relay {
    Finish(Set(r, left, Direction(r, left).(phase := Aborted)))
  }

  function Step(r: Relay, e: Event): Relay
    requires Enabled(r, e)
  {
    match e
    case Delivers(left, count) => Set(r, left, Deliver(Direction(r, left), count))
    case WriteCompletes(left, now) => Written(r, left, now)
    case WriteFails(left) => Abort(r, left)
    case ReadReturns(left, chunk) =>
      Set(r, left, Direction(r, left).(phase := Writing(|chunk|, chunk), read := Direction(r, left).read + chunk))
    case ReadEnds(left) => Set(r, left, Direction(r, left).(phase := Ended))
    case ReadFails(left) => Abort(r, left)
    case Wakes(now) => if r.finished then r.(watchdog := Gone) else Watch(r, now)
    case SleepFails => r.(watchdog := Gone)
    case Supervised => Finish(r)
    case Stops => Finish(r)
  }

  // ----- What every step keeps

  /** Nothing is lost, added or reordered on the way, and the counter lags behind what was delivered, if at all. */
  ghost predicate Orderly(p: Pump) {
    match p.phase
    case Writing(size, rest) =>
      && p.delivered + rest == p.initial + p.read && |rest| <= size && p.counter + size == |p.delivered| + |rest|
    case Aborted => p.delivered <= p.initial + p.read && p.counter <= |p.delivered|
    case _ => p.delivered == p.initial + p.read && p.counter == |p.delivered|
  }

  ghost predicate Valid(r: Relay) {
    && Orderly(r.leftToRight) && Orderly(r.rightToLeft)
    && (r.rightToLeft.initial == [])
    && |r.reports| == (if r.finished then 1 else 0)
    && (r.finished ==> r.reports[0].0 <= r.leftToRight.counter && r.reports[0].1 <= r.rightToLeft.counter)
    && (r.watchdog.Sleeping? && !r.finished ==> r.watchdog.until <= r.lastActivity + IdleTimeout())
  }

  lemma LaunchValid(initial: Bytes, now: int)
    ensures Valid(Launch(initial, now))
  {
    assert [] + initial == initial + [];
  }

  lemma DeliverOrderly(p: Pump, count: nat)
    requires Orderly(p) && p.phase.Writing? && count <= |p.phase.rest|
    ensures Orderly(Deliver(p, count))
  {
    var rest := p.phase.rest;
    assert rest == rest[..count] + rest[count..];
    Associative(p.delivered, rest[..count], rest[count..]);
  }

  lemma ReadOrderly(p: Pump, chunk: Bytes)
    requires Orderly(p) && p.phase.Reading?
    ensures Orderly(p.(phase := Writing(|chunk|, chunk), read := p.read + chunk))
  {
    Associative(p.initial, p.read, chunk);
  }

  lemma AbortOrderly(p: Pump)
    requires Orderly(p)
    ensures Orderly(p.(phase := Aborted))
  {
    if p.phase.Writing? {
      assert p.delivered <= p.delivered + p.phase.rest;
    }
  }

  /** `WriteCompletes` needs the times of activity to go on. */
  predicate Later(r: Relay, e: Event) {
    e.WriteCompletes? ==> e.now >= r.lastActivity
  }

  lemma StepKeeps(r: Relay, e: Event)
    requires Valid(r) && Enabled(r, e) && Later(r, e)
    ensures Valid(Step(r, e))
  {
    match e
    case Delivers(left, count) => DeliverOrderly(Direction(r, left), count);
    case WriteCompletes(left, now) =>
      AbortOrderly(Direction(r, left));
      NothingAppended(Direction(r, left).delivered);
    case WriteFails(left) => AbortOrderly(Direction(r, left));
    case ReadReturns(left, chunk) => ReadOrderly(Direction(r, left), chunk);
    case ReadFails(left) => AbortOrderly(Direction(r, left));
    case _ =>
  }

  // ----- Every run

  /** State `k` of a run follows from the one before. */
  predicate Follows(trace: seq<Relay>, events: seq<Event>, k: nat)
    requires |trace| == |events| + 1 && 1 <= k < |trace|
  {
    Enabled(trace[k - 1], events[k - 1]) && Later(trace[k - 1], events[k - 1]) && trace[k] == Step(trace[k - 1], events[k - 1])
  }

  ghost predicate IsRun(initial: Bytes, now: int, trace: seq<Relay>, events: seq<Event>) {
    && |trace| == |events| + 1 && trace[0] == Launch(initial, now)
    && forall k :: 1 <= k < |trace| ==> Follows(trace, events, k)
  }

  lemma StepGoesOn(r: Relay, e: Event)
    requires Enabled(r, e)
    ensures var s := Step(r, e);
      && r.reports <= s.reports && s.leftToRight.initial == r.leftToRight.initial
      && r.leftToRight.read <= s.leftToRight.read && r.rightToLeft.read <= s.rightToLeft.read
  {
  }

  lemma {:induction false} RunsAreValid(initial: Bytes, now: int, trace: seq<Relay>, events: seq<Event>, k: nat)
    requires IsRun(initial, now, trace, events) && k < |trace|
    ensures Valid(trace[k]) && trace[k].leftToRight.initial == initial
    ensures k > 0 ==> trace[k - 1].reports <= trace[k].reports
    decreases k
  {
    if k == 0 {
      LaunchValid(initial, now);
    } else {
      RunsAreValid(initial, now, trace, events, k - 1);
      assert Follows(trace, events, k);
      StepKeeps(trace[k - 1], events[k - 1]);
      StepGoesOn(trace[k - 1], events[k - 1]);
    }
  }

  /**
   * In every run each side gets a beginning of what was sent to it, in order, after the
   * initial data; no counter is ahead of what was delivered; the completion is reported
   * at most once, with counters that are not ahead either.
   */
  lemma RelayIsFaithful(initial: Bytes, now: int, trace: seq<Relay>, events: seq<Event>, k: nat)
    requires IsRun(initial, now, trace, events) && k < |trace|
    ensures var r := trace[k];
      && r.leftToRight.delivered <= initial + r.leftToRight.read && r.rightToLeft.delivered <= r.rightToLeft.read
      && r.leftToRight.counter <= |r.leftToRight.delivered| && r.rightToLeft.counter <= |r.rightToLeft.delivered|
      && |r.reports| <= 1 && (r.finished <==> r.reports != [])
      && (r.finished ==> r.reports[0].0 <= r.leftToRight.counter && r.reports[0].1 <= r.rightToLeft.counter)
  {
    RunsAreValid(initial, now, trace, events, k);
    var r := trace[k];
    assert [] + r.rightToLeft.read == r.rightToLeft.read;
    PrefixOf(r.leftToRight);
    PrefixOf(r.rightToLeft);
  }

  lemma PrefixOf(p: Pump)
    requires Orderly(p)
    ensures p.delivered <= p.initial + p.read && p.counter <= |p.delivered|
  {
    if p.phase.Writing? {
      assert p.delivered <= p.delivered + p.phase.rest;
    }
  }

  /**
   * If both sides have ended before anything else finished the relay, the report counts
   * every octet of both directions, and all of them have been delivered.
   */
  lemma CleanEndCountsAll(initial: Bytes, now: int, trace: seq<Relay>, events: seq<Event>, k: nat)
    requires IsRun(initial, now, trace, events) && k < |events|
    requires trace[k].leftToRight.phase.Ended? && trace[k].rightToLeft.phase.Ended? && !trace[k].finished && trace[k + 1].finished
    ensures var r := trace[k + 1];
      && r.reports == [(|initial + r.leftToRight.read|, |r.rightToLeft.read|)]
      && r.leftToRight.delivered == initial + r.leftToRight.read && r.rightToLeft.delivered == r.rightToLeft.read
  {
    RunsAreValid(initial, now, trace, events, k);
    assert Follows(trace, events, k + 1);
    assert [] + trace[k].rightToLeft.read == trace[k].rightToLeft.read;
  }

  /** Once the relay has been stopped, or its supervisor has gone on, the completion has been reported exactly once, and for good. */
  lemma {:induction false} CompletesOnce(initial: Bytes, now: int, trace: seq<Relay>, events: seq<Event>, k: nat, m: nat)
    requires IsRun(initial, now, trace, events) && k < m < |trace| && (events[k].Stops? || events[k].Supervised?)
    ensures trace[m].finished && |trace[m].reports| == 1 && trace[m].reports == trace[k + 1].reports
    decreases m
  {
    RunsAreValid(initial, now, trace, events, m);
    if m == k + 1 {
      assert Follows(trace, events, m);
    } else {
      CompletesOnce(initial, now, trace, events, k, m - 1);
      assert Follows(trace, events, m);
    }
  }

  /** What ends a relay that has not ended: a failed read or write, the end of both sides or of the watchdog, a stop, or five minutes without activity. */
  predicate Fatal(r: Relay, e: Event) {
    match e
    case Delivers(_, _) => false
    case WriteCompletes(_, _) => false
    case WriteFails(_) => true
    case ReadReturns(_, _) => false
    case ReadEnds(_) => false
    case ReadFails(_) => true
    case Wakes(now) => now - r.lastActivity >= 300_000
    case SleepFails => false
    case Supervised => true
    case Stops => true
  }

  /** In every run, the completion is reported at the first fatal event, at once, with the counters as they are then; no other event reports anything. */
  lemma ReportsAtOnce(initial: Bytes, now: int, trace: seq<Relay>, events: seq<Event>, k: nat)
    requires IsRun(initial, now, trace, events) && k < |events|
    ensures var r, s := trace[k], trace[k + 1];
      if !r.finished && Fatal(r, events[k]) then s.finished && s.reports == [(r.leftToRight.counter, r.rightToLeft.counter)]
      else s.finished == r.finished && s.reports == r.reports
  {
    RunsAreValid(initial, now, trace, events, k);
    assert Follows(trace, events, k + 1);
  }

  lemma OverStaysSo(r: Relay, e: Event, left: bool)
    requires Enabled(r, e) && Over(Direction(r, left))
    ensures Direction(Step(r, e), left) == Direction(r, left)
  {
  }

  /** After a failed or final read, or a failed write, nothing is read, delivered or counted in that direction any more. */
  lemma {:induction false} EndedDirectionsStay(initial: Bytes, now: int, trace: seq<Relay>, events: seq<Event>, k: nat, m: nat, left: bool)
    requires IsRun(initial, now, trace, events) && k < m < |trace|
    requires events[k] == ReadFails(left) || events[k] == WriteFails(left) || events[k] == ReadEnds(left)
    ensures var p, q := Direction(trace[k], left), Direction(trace[m], left);
      && q.read == p.read && q.delivered == p.delivered && q.counter == p.counter
      && q.phase == if events[k].ReadEnds? then Ended else Aborted
    decreases m
  {
    if m == k + 1 {
      assert Follows(trace, events, k + 1);
    } else {
      EndedDirectionsStay(initial, now, trace, events, k, m - 1, left);
      assert Follows(trace, events, m);
      OverStaysSo(trace[m - 1], events[m - 1], left);
    }
  }

  // ----- Activity

  /** At time `t`, among the first `k` events, a write was completed, or the relay was launched. */
  ghost predicate ActiveAt(now: int, events: seq<Event>, k: nat, t: int)
    requires k <= |events|
  {
    t == now || exists j: nat :: j < k && events[j].WriteCompletes? && events[j].now == t
  }

  lemma StaysFinished(r: Relay, e: Event)
    requires Enabled(r, e) && r.finished
    ensures Step(r, e).finished
  {
  }

  lemma ActiveNext(now: int, events: seq<Event>, k: nat, t: int)
    requires k < |events|
    ensures ActiveAt(now, events, k + 1, t) <==>
      ActiveAt(now, events, k, t) || (events[k].WriteCompletes? && events[k].now == t)
  {
  }

  /** What a relay that goes on takes for its last activity is the latest one there was. */
  lemma {:induction false} LastActivityIsLatest(initial: Bytes, now: int, trace: seq<Relay>, events: seq<Event>, k: nat)
    requires IsRun(initial, now, trace, events) && k < |trace| && !trace[k].finished
    ensures ActiveAt(now, events, k, trace[k].lastActivity)
    ensures forall t :: ActiveAt(now, events, k, t) ==> t <= trace[k].lastActivity
    decreases k
  {
    if k > 0 {
      var before, e := trace[k - 1], events[k - 1];
      assert Follows(trace, events, k);
      if before.finished {
        StaysFinished(before, e);
      }
      LastActivityIsLatest(initial, now, trace, events, k - 1);
      ActiveNext(now, events, k - 1, trace[k].lastActivity);
      forall t | ActiveAt(now, events, k, t) ensures t <= trace[k].lastActivity {
        ActiveNext(now, events, k - 1, t);
      }
    }
  }

  /**
   * When the watchdog wakes up, it ends the relay if and only if the launch and every
   * completed write lie at least five minutes back.
   */
  lemma WatchdogIsPatient(initial: Bytes, now: int, trace: seq<Relay>, events: seq<Event>, k: nat)
    requires IsRun(initial, now, trace, events) && k < |events| && events[k].Wakes? && !trace[k].finished
    ensures trace[k + 1].finished <==> forall t :: ActiveAt(now, events, k, t) ==> t + 300_000 <= events[k].now
  {
    LastActivityIsLatest(initial, now, trace, events, k);
    assert Follows(trace, events, k + 1);
  }

  /** A watchdog that goes on sleeps for thirty seconds, or for as long as five minutes without activity are not over, if that is less. */
  lemma WatchdogSleeps(initial: Bytes, now: int, trace: seq<Relay>, events: seq<Event>, k: nat)
    requires IsRun(initial, now, trace, events) && k < |events| && events[k].Wakes? && !trace[k + 1].finished
    ensures var left := trace[k].lastActivity + 300_000 - events[k].now;
      0 < left && trace[k + 1].watchdog == Sleeping(events[k].now + if left < 30_000 then left else 30_000)
  {
    assert Follows(trace, events, k + 1);
  }

  /** While the relay goes on and the watchdog lives, it wakes up before there have been more than five minutes without activity. */
  lemma WatchdogIsAwake(initial: Bytes, now: int, trace: seq<Relay>, events: seq<Event>, k: nat) returns (t: int)
    requires IsRun(initial, now, trace, events) && k < |trace| && !trace[k].finished && trace[k].watchdog.Sleeping?
    ensures ActiveAt(now, events, k, t) && trace[k].watchdog.until <= t + 300_000
  {
    RunsAreValid(initial, now, trace, events, k);
    LastActivityIsLatest(initial, now, trace, events, k);
    t := trace[k].lastActivity;
  }

  /** The watchdog is gone only once the relay is over, or when its sleep has failed. */
  lemma {:induction false} WatchdogStays(initial: Bytes, now: int, trace: seq<Relay>, events: seq<Event>, k: nat)
    requires IsRun(initial, now, trace, events) && k < |trace| && trace[k].watchdog.Gone? && !trace[k].finished
    ensures exists j: nat :: j < k && events[j].SleepFails?
    decreases k
  {
    if k > 0 {
      assert Follows(trace, events, k);
      if !events[k - 1].SleepFails? {
        WatchdogStays(initial, now, trace, events, k - 1);
      }
    }
  }
}

/** The relay itself. */
module TcpRelays {
  import opened Core
  import opened Spec = TcpRelaySpec

  class TcpRelay {
    var leftToRight: Pump
    var rightToLeft: Pump
    var watchdog: Watchdog
    var lastActivity: int
    var finished: bool
    ghost var reports: seq<(nat, nat)>

    ghost function Model(): Relay
      reads this
    {
      Relay(leftToRight, rightToLeft, watchdog, lastActivity, finished, reports)
    }

    constructor (initial: Bytes, now: int)
      ensures Model() == Launch(initial, now) && Spec.Valid(Model())
    {
      leftToRight, rightToLeft := Begin(initial), Begin([]);
      watchdog, lastActivity, finished, reports := Gone, now, false, [];
      new;
      LaunchValid(initial, now);
      WatchIdle(now);
    }

    /** `finish`: closes the streams and calls the completion handler, the first time. */
    method FinishRelay()
      modifies `finished, `reports
      ensures Model() == Finish(old(Model()))
    {
      if finished {
        return;
      }
      finished := true;
      reports := reports + [(leftToRight.counter, rightToLeft.counter)];
    }

    method Touch(now: int)
      modifies `lastActivity
      ensures lastActivity == if finished then old(lastActivity) else now
    {
      if finished {
        return;
      }
      lastActivity := now;
    }

    method SetDirection(left: bool, p: Pump)
      modifies `leftToRight, `rightToLeft
      ensures Model() == Set(old(Model()), left, p)
    {
      if left {
        leftToRight := p;
      } else {
        rightToLeft := p;
      }
    }

    method OnWritten(left: bool, now: int)
      requires Direction(Model(), left).phase.Writing?
      modifies this
      ensures Model() == Written(old(Model()), left, now)
    {
      var p := if left then leftToRight else rightToLeft;
      if finished {
        SetDirection(left, p.(phase := Aborted));
        return;
      }
      SetDirection(left, p.(phase := Reading, counter := p.counter + p.phase.size));
      Touch(now);
    }

    method OnRead(left: bool, chunk: Option<Bytes>)
      requires Direction(Model(), left).phase.Reading? && (chunk.Some? ==> |chunk.value| <= BufferSize())
      modifies `leftToRight, `rightToLeft
      ensures Model() == Step(old(Model()), if chunk.None? then ReadEnds(left) else ReadReturns(left, chunk.value))
    {
      var p := if left then leftToRight else rightToLeft;
      if chunk.None? {
        SetDirection(left, p.(phase := Ended));
        return;
      }
      SetDirection(left, p.(phase := Writing(|chunk.value|, chunk.value), read := p.read + chunk.value));
    }

    /** A read or a write fails: the whole relay ends. */
    method OnFailure(left: bool)
      modifies this
      ensures Model() == Abort(old(Model()), left)
    {
      var p := if left then leftToRight else rightToLeft;
      SetDirection(left, p.(phase := Aborted));
      FinishRelay();
    }

    /** The watchdog's loop, up to its next sleep. */
    method WatchIdle(now: int)
      modifies this
      ensures Model() == Watch(old(Model()), now)
    {
      var deadline := lastActivity + 300_000;
      if now >= deadline {
        FinishRelay();
        watchdog := Gone;
        return;
      }
      var remaining := deadline - now;
      var slice := if remaining < 30_000 then remaining else 30_000;
      watchdog := Sleeping(now + slice);
    }

    /** The sleep fails; what is left of the relay goes on until the supervisor ends it. */
    method OnSleepFailed()
      requires watchdog.Sleeping?
      modifies `watchdog
      ensures Model() == Step(old(Model()), SleepFails)
    {
      watchdog := Gone;
    }

    method OnWake(now: int)
      requires watchdog.Sleeping? && now >= watchdog.until
      modifies this
      ensures Model() == Step(old(Model()), Wakes(now))
    {
      if finished {
        watchdog := Gone;
        return;
      }
      WatchIdle(now);
    }
  }
}
