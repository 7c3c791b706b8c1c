/**
 * The bootstrap resolver (`DnsBootstrapResolver`, src/dns/bootstrap_resolver.cpp):
 * servers are asked one after the other, each with its share of the time that is left,
 * and then the system.
 */
module BootstrapSpec {
  import opened Budgets
  import opened Core

  /** Address 0 is the unspecified one. */
  datatype Endpoint = Endpoint(address: nat, port: Word16)

  // ----- The list of servers

  predicate Usable(e: Endpoint) {
    e.port != 0 && e.address != 0
  }

  /** `append_unique` for one endpoint after the other. */
  function Merge(endpoints: seq<Endpoint>): seq<Endpoint> {
    if endpoints == [] then []
    else
      var servers, e := Merge(endpoints[..|endpoints| - 1]), endpoints[|endpoints| - 1];
      if !Usable(e) || e in servers then servers else servers + [e]
  }

  ghost predicate InOrder(r: seq<Endpoint>, all: seq<Endpoint>) {
    forall i, j :: 0 <= i < j < |r| ==> IndexOf(all, r[i]) < IndexOf(all, r[j])
  }

  lemma {:induction false} MergeMembers(endpoints: seq<Endpoint>)
    ensures forall e :: e in Merge(endpoints) <==> e in endpoints && Usable(e)
  {
    if endpoints != [] {
      FrontAndLast(endpoints);
      MergeMembers(endpoints[..|endpoints| - 1]);
    }
  }

  lemma OrderKept(front: seq<Endpoint>, e: Endpoint, r: seq<Endpoint>)
    requires InOrder(r, front) && forall x :: x in r ==> x in front
    ensures InOrder(r, front + [e])
  {
    forall i | 0 <= i < |r| ensures IndexOf(front + [e], r[i]) == IndexOf(front, r[i]) {
      FrontIndex(front, e, r[i]);
    }
  }

  lemma OrderExtended(front: seq<Endpoint>, e: Endpoint, r: seq<Endpoint>)
    requires InOrder(r, front) && (forall x :: x in r ==> x in front) && e !in front
    ensures InOrder(r + [e], front + [e])
  {
    OrderKept(front, e, r);
    FrontIndex(front, e, e);
    forall i | 0 <= i < |r| ensures IndexOf(front + [e], r[i]) < |front| {
      FrontIndex(front, e, r[i]);
    }
  }

  /** The usable endpoints, each of them once, in the order in which they come first. */
  lemma {:induction false} MergeKeepsFirst(endpoints: seq<Endpoint>)
    ensures forall e :: e in Merge(endpoints) <==> e in endpoints && e.port != 0 && e.address != 0
    ensures InOrder(Merge(endpoints), endpoints)
  {
    MergeMembers(endpoints);
    if endpoints != [] {
      var front, e := endpoints[..|endpoints| - 1], endpoints[|endpoints| - 1];
      MergeKeepsFirst(front);
      FrontAndLast(endpoints);
      if Usable(e) && e !in Merge(front) {
        OrderExtended(front, e, Merge(front));
      } else {
        OrderKept(front, e, Merge(front));
      }
    }
  }

  lemma FrontIndex(front: seq<Endpoint>, e: Endpoint, x: Endpoint)
    ensures x in front ==> IndexOf(front + [e], x) == IndexOf(front, x) < |front|
    ensures x == e && e !in front ==> IndexOf(front + [e], x) == |front|
  {
    var all := front + [e];
    assert forall j :: 0 <= j < |front| ==> all[j] == front[j] && front[j] in front;
    var i := IndexOf(all, x);
    if x in front {
      var k :| 0 <= k < |front| && front[k] == x;
      assert all[k] == x && i <= k;
    } else if x == e {
      assert all[|front|] == x;
    }
  }

  // ----- A request

  datatype Phase = Asking | InSystem | Done

  datatype Outcome = Addresses(addresses: seq<nat>) | Unresolved(error: ErrorCode)

  /** A server that was asked, when, and until when it may take. */
  datatype Given = Given(server: nat, at: int, deadline: int)

  /** `query` is 0 while A records are asked for and 1 for AAAA records. */
  datatype Request = Request(
    servers: nat, deadline: int, index: nat, query: nat, attempt: nat, expired: bool, deadlineExceeded: bool,
    addresses: seq<nat>, phase: Phase, given: seq<Given>, outcomes: seq<Outcome>)

  function Complete(r: Request, outcome: Outcome): Request {
    if r.phase == Done then r else r.(phase := Done, outcomes := r.outcomes + [outcome])
  }

  /** The first server from `index` on whose socket can be opened is asked; after the last one, or too late, the system. */
  function Drive(r: Request, now: int, openable: seq<bool>): Request
    decreases r.servers - r.index
  {
    if r.index >= r.servers || r.deadlineExceeded || now >= r.deadline then r.(phase := InSystem)
    else if r.index < |openable| && !openable[r.index] then Drive(r.(index := r.index + 1), now, openable)
    else
      r.(phase := Asking, query := 0, attempt := r.attempt + 1, expired := false,
         given := r.given + [Given(r.index, now, now + Share(r.deadline - now, r.servers - r.index))])
  }

  function Begin(servers: nat, deadline: int, now: int, openable: seq<bool>): Request {
    Drive(Request(servers, deadline, 0, 0, 0, false, false, [], Asking, [], []), now, openable)
  }

  function NextServer(r: Request, now: int, openable: seq<bool>): Request {
    if r.deadlineExceeded || now >= r.deadline then r.(phase := InSystem)
    else Drive(r.(index := r.index + 1), now, openable)
  }

  function Gather(addresses: seq<nat>, more: seq<nat>): seq<nat>
    decreases |more|
  {
    if more == [] then addresses
    else Gather(if more[0] in addresses then addresses else addresses + [more[0]], more[1..])
  }

  /** The current server answers; a second answer ends the request if there is any address. */
  function Answered(r: Request, addresses: seq<nat>, now: int, openable: seq<bool>): Request {
    if r.phase != Asking then r
    else if r.expired then NextServer(r, now, openable)
    else
      var s := r.(addresses := Gather(r.addresses, addresses), query := r.query + 1);
      if s.query < 2 then
        if s.deadlineExceeded || now >= s.deadline then NextServer(s, now, openable) else s
      else if s.addresses != [] then Complete(s, Addresses(s.addresses))
      else NextServer(s, now, openable)
  }

  function ServerFails(r: Request, now: int, openable: seq<bool>): Request {
    if r.phase != Asking then r else NextServer(r, now, openable)
  }

  /** The timer of an attempt fires; it is stale if another server is being asked. */
  function ServerExpires(r: Request, attempt: nat): Request {
    if r.phase == Done || r.attempt != attempt then r else r.(expired := true)
  }

  function DeadlinePasses(r: Request): Request {
    if r.phase != Asking then r else r.(deadlineExceeded := true)
  }

  function SystemAnswers(r: Request, outcome: Outcome): Request {
    if r.phase != InSystem then r else Complete(r, outcome)
  }

  // ----- Every run

  datatype Event =
    | Answers(addresses: seq<nat>, now: int)
    | Fails(now: int)
    | Expires(attempt: nat)
    | Passes
    | System(outcome: Outcome)
    | Cancels

  function Step(r: Request, e: Event, openable: seq<bool>): Request {
    match e
    case Answers(addresses, now) => Answered(r, addresses, now, openable)
    case Fails(now) => ServerFails(r, now, openable)
    case Expires(attempt) => ServerExpires(r, attempt)
    case Passes => DeadlinePasses(r)
    case System(outcome) => SystemAnswers(r, outcome)
    case Cancels => Complete(r, Unresolved(Cancelled))
  }

  function Run(servers: nat, deadline: int, now: int, openable: seq<bool>, events: seq<Event>): Request {
    if events == [] then Begin(servers, deadline, now, openable)
    else Step(Run(servers, deadline, now, openable, events[..|events| - 1]), events[|events| - 1], openable)
  }

  /** Servers are asked in order, the last one is the current one, and a request ends once. */
  ghost predicate Valid(r: Request) {
    && (forall i, j :: 0 <= i < j < |r.given| ==> r.given[i].server < r.given[j].server)
    && (forall g :: g in r.given ==> g.server < r.servers && g.server <= r.index && g.at <= g.deadline)
    && (r.phase == Asking ==> r.given != [] && r.given[|r.given| - 1].server == r.index < r.servers && r.query < 2)
    && r.attempt == |r.given|
    && |r.outcomes| == (if r.phase == Done then 1 else 0)
  }

  lemma {:induction false} DriveKeeps(r: Request, now: int, openable: seq<bool>)
    requires Valid(r.(phase := InSystem)) && r.phase != Done && forall g :: g in r.given ==> g.server < r.index
    ensures Valid(Drive(r, now, openable)) && Drive(r, now, openable).phase != Done
    ensures r.given <= Drive(r, now, openable).given
    decreases r.servers - r.index
  {
    if r.index < r.servers && !r.deadlineExceeded && now < r.deadline {
      if r.index < |openable| && !openable[r.index] {
        DriveKeeps(r.(index := r.index + 1), now, openable);
      } else {
        ShareBounds(r.deadline - now, r.servers - r.index, 0);
      }
    }
  }

  lemma NextServerKeeps(r: Request, now: int, openable: seq<bool>)
    requires Valid(r.(phase := InSystem)) && r.phase != Done
    ensures Valid(NextServer(r, now, openable)) && r.given <= NextServer(r, now, openable).given
  {
    if !r.deadlineExceeded && now < r.deadline {
      DriveKeeps(r.(index := r.index + 1), now, openable);
    }
  }

  lemma StepKeeps(r: Request, e: Event, openable: seq<bool>)
    requires Valid(r)
    ensures Valid(Step(r, e, openable)) && r.outcomes <= Step(r, e, openable).outcomes
  {
    match e
    case Answers(addresses, now) => AnsweredKeeps(r, addresses, now, openable);
    case Fails(now) =>
      if r.phase == Asking {
        NextServerKeeps(r, now, openable);
      }
    case _ =>
  }

  lemma AnsweredKeeps(r: Request, addresses: seq<nat>, now: int, openable: seq<bool>)
    requires Valid(r)
    ensures Valid(Answered(r, addresses, now, openable)) && r.outcomes <= Answered(r, addresses, now, openable).outcomes
  {
    if r.phase == Asking && r.expired {
      NextServerKeeps(r, now, openable);
    } else if r.phase == Asking {
      HeardKeeps(r, Gather(r.addresses, addresses), now, openable);
    }
  }

  lemma HeardKeeps(r: Request, addresses: seq<nat>, now: int, openable: seq<bool>)
    requires Valid(r) && r.phase == Asking
    ensures var s := r.(addresses := addresses, query := r.query + 1);
      Valid(NextServer(s, now, openable)) && Valid(Complete(s, Addresses(addresses))) && (r.query == 0 ==> Valid(s))
    ensures r.outcomes <= NextServer(r.(addresses := addresses, query := r.query + 1), now, openable).outcomes
  {
    NextServerKeeps(r.(addresses := addresses, query := r.query + 1), now, openable);
  }

  /** Every server is asked at most once, in order, and there is at most one outcome, which stays. */
  lemma {:induction false} RunsAreOrderly(servers: nat, deadline: int, now: int, openable: seq<bool>, events: seq<Event>)
    ensures Valid(Run(servers, deadline, now, openable, events)) && |Run(servers, deadline, now, openable, events).outcomes| <= 1
    ensures events != [] ==>
      Run(servers, deadline, now, openable, events[..|events| - 1]).outcomes <= Run(servers, deadline, now, openable, events).outcomes
    decreases |events|
  {
    if events == [] {
      DriveKeeps(Request(servers, deadline, 0, 0, 0, false, false, [], Asking, [], []), now, openable);
    } else {
      RunsAreOrderly(servers, deadline, now, openable, events[..|events| - 1]);
      StepKeeps(Run(servers, deadline, now, openable, events[..|events| - 1]), events[|events| - 1], openable);
    }
  }

  // ----- Shares of time

  /** Every server asked has been given `q`, and what was left is enough for as much for each of the others. */
  ghost predicate Fair(r: Request, q: nat) {
    && (forall g :: g in r.given ==> g.deadline - g.at >= q)
    && (r.phase == Asking && r.given != [] && r.index < r.servers ==>
          var last, parts := r.given[|r.given| - 1], r.servers - r.index;
          last.at < r.deadline && r.deadline - last.at >= parts * q && last.deadline == last.at + Share(r.deadline - last.at, parts))
  }

  lemma {:induction false} DriveIsFair(r: Request, now: int, openable: seq<bool>, q: nat)
    requires forall g :: g in r.given ==> g.deadline - g.at >= q
    requires r.index <= r.servers && r.deadline - now >= (r.servers - r.index) * q
    ensures Fair(Drive(r, now, openable), q)
    decreases r.servers - r.index
  {
    if r.index < r.servers && !r.deadlineExceeded && now < r.deadline {
      var parts := r.servers - r.index;
      ShareBounds(r.deadline - now, parts, q);
      if r.index < |openable| && !openable[r.index] {
        assert parts * q == (parts - 1) * q + q;
        DriveIsFair(r.(index := r.index + 1), now, openable, q);
      }
    }
  }

  /** The server in charge returns by the time that it was given. */
  predicate Punctual(r: Request, now: int) {
    r.phase == Asking && r.given != [] ==> r.given[|r.given| - 1].at <= now <= r.given[|r.given| - 1].deadline
  }

  lemma NextServerIsFair(r: Request, now: int, openable: seq<bool>, q: nat)
    requires Fair(r, q) && Punctual(r, now) && r.phase == Asking && r.given != [] && r.index < r.servers
    ensures Fair(NextServer(r, now, openable), q)
  {
    var last := r.given[|r.given| - 1];
    ShareLeaves(r.deadline - last.at, r.servers - r.index, q, now - last.at);
    if !r.deadlineExceeded && now < r.deadline {
      DriveIsFair(r.(index := r.index + 1), now, openable, q);
    }
  }

  predicate Timely(r: Request, e: Event) {
    match e
    case Answers(_, now) => Punctual(r, now)
    case Fails(now) => Punctual(r, now)
    case _ => true
  }

  lemma StepIsFair(r: Request, e: Event, openable: seq<bool>, q: nat)
    requires Valid(r) && Fair(r, q) && Timely(r, e)
    ensures Fair(Step(r, e, openable), q)
  {
    match e
    case Answers(addresses, now) =>
      if r.phase == Asking && r.expired {
        NextServerIsFair(r, now, openable, q);
      } else if r.phase == Asking {
        NextServerIsFair(r.(addresses := Gather(r.addresses, addresses), query := r.query + 1), now, openable, q);
      }
    case Fails(now) =>
      if r.phase == Asking {
        NextServerIsFair(r, now, openable, q);
      }
    case _ =>
  }

  ghost predicate AllTimely(servers: nat, deadline: int, now: int, openable: seq<bool>, events: seq<Event>) {
    forall k :: 0 <= k < |events| ==> Timely(Run(servers, deadline, now, openable, events[..k]), events[k])
  }

  lemma TimelyBefore(servers: nat, deadline: int, now: int, openable: seq<bool>, events: seq<Event>, k: nat)
    requires k <= |events| && AllTimely(servers, deadline, now, openable, events)
    ensures AllTimely(servers, deadline, now, openable, events[..k])
  {
    assert forall i :: 0 <= i < k ==> events[..k][..i] == events[..i] && events[..k][i] == events[i];
  }

  /** If every server returns by the time it was given, each server that is asked is given an equal share at least. */
  lemma {:induction false} FairShares(servers: nat, deadline: int, now: int, openable: seq<bool>, events: seq<Event>)
    requires servers > 0 && now < deadline && AllTimely(servers, deadline, now, openable, events)
    ensures Fair(Run(servers, deadline, now, openable, events), Share(deadline - now, servers))
    ensures forall g :: g in Run(servers, deadline, now, openable, events).given ==> g.deadline - g.at >= (deadline - now) / servers
    decreases |events|
  {
    var q := Share(deadline - now, servers);
    if events == [] {
      ShareBounds(deadline - now, servers, 0);
      DriveIsFair(Request(servers, deadline, 0, 0, 0, false, false, [], Asking, [], []), now, openable, q);
    } else {
      var k := |events| - 1;
      TimelyBefore(servers, deadline, now, openable, events, k);
      FairShares(servers, deadline, now, openable, events[..k]);
      RunsAreOrderly(servers, deadline, now, openable, events[..k]);
      StepIsFair(Run(servers, deadline, now, openable, events[..k]), events[k], openable, q);
    }
  }

  /** A timer that was set for an earlier server does nothing. */
  lemma StaleTimerIsHarmless(servers: nat, deadline: int, now: int, openable: seq<bool>, events: seq<Event>, attempt: nat)
    requires attempt < |Run(servers, deadline, now, openable, events).given|
    ensures var r := Run(servers, deadline, now, openable, events); ServerExpires(r, attempt) == r
  {
    RunsAreOrderly(servers, deadline, now, openable, events);
  }

  // ----- What becomes of the addresses that were gathered

  /** The second answer of a server ends the request with what was gathered. */
  predicate DeliversNow(r: Request, e: Event) {
    r.phase == Asking && e.Answers? && !r.expired && r.query == 1 && Gather(r.addresses, e.addresses) != []
  }

  /** The current server is given up: it fails, answers too late, or its second answer leaves nothing gathered. */
  predicate GivesUp(r: Request, e: Event) {
    r.phase == Asking &&
    match e
    case Fails(_) => true
    case Answers(more, now) =>
      r.expired || (r.query == 0 && (r.deadlineExceeded || now >= r.deadline)) || (r.query == 1 && Gather(r.addresses, more) == [])
    case _ => false
  }

  predicate Shut(openable: seq<bool>, i: nat) {
    i < |openable| && !openable[i]
  }

  /** No server behind the current one can be opened. */
  predicate NoServerLeft(r: Request, openable: seq<bool>) {
    forall i: nat :: r.index < i < r.servers ==> Shut(openable, i)
  }

  lemma {:induction false} DriveFallsBack(r: Request, now: int, openable: seq<bool>)
    ensures Drive(r, now, openable).phase == InSystem <==>
      r.deadlineExceeded || now >= r.deadline || forall i: nat :: r.index <= i < r.servers ==> Shut(openable, i)
    ensures Drive(r, now, openable).phase != Done && Drive(r, now, openable).addresses == r.addresses
    decreases r.servers - r.index
  {
    if r.index < r.servers && !r.deadlineExceeded && now < r.deadline {
      if Shut(openable, r.index) {
        DriveFallsBack(r.(index := r.index + 1), now, openable);
      } else {
        assert !Shut(openable, r.index);
      }
    }
  }

  /** A request falls back to the system exactly if its server is given up when it is too late, or when no other one can be opened. */
  lemma FallsBackIff(r: Request, e: Event, openable: seq<bool>)
    requires Valid(r) && r.phase == Asking
    ensures Step(r, e, openable).phase == InSystem <==>
      GivesUp(r, e) && (r.deadlineExceeded || e.now >= r.deadline || NoServerLeft(r, openable))
  {
    if e.Answers? || e.Fails? {
      DriveFallsBack(r.(index := r.index + 1), e.now, openable);
      if e.Answers? {
        DriveFallsBack(r.(index := r.index + 1, addresses := Gather(r.addresses, e.addresses), query := r.query + 1), e.now, openable);
      }
    }
  }

  /** How a request ends: with what was gathered, with what the system says, or by its cancellation. */
  lemma StepCompletes(r: Request, e: Event, openable: seq<bool>)
    requires Valid(r) && r.phase != Done
    ensures var s := Step(r, e, openable);
      s.phase == Done <==> DeliversNow(r, e) || (r.phase == InSystem && e.System?) || e.Cancels?
    ensures DeliversNow(r, e) ==> Step(r, e, openable).outcomes == [Addresses(Gather(r.addresses, e.addresses))]
    ensures r.phase == InSystem && e.System? ==> Step(r, e, openable).outcomes == [e.outcome]
    ensures e.Cancels? ==> Step(r, e, openable).outcomes == [Unresolved(Cancelled)]
  {
    assert r.outcomes == [];
    if r.phase == Asking && (e.Answers? || e.Fails?) {
      DriveFallsBack(r.(index := r.index + 1), e.now, openable);
      if e.Answers? {
        DriveFallsBack(r.(index := r.index + 1, addresses := Gather(r.addresses, e.addresses), query := r.query + 1), e.now, openable);
      }
    }
  }

  /** The request after the first `k` events of a run. */
  function After(servers: nat, deadline: int, now: int, openable: seq<bool>, events: seq<Event>, k: nat): Request
    requires k <= |events|
  {
    Run(servers, deadline, now, openable, events[..k])
  }

  lemma AfterNext(servers: nat, deadline: int, now: int, openable: seq<bool>, events: seq<Event>, k: nat)
    requires k < |events|
    ensures var r := After(servers, deadline, now, openable, events, k);
      Valid(r) && After(servers, deadline, now, openable, events, k + 1) == Step(r, events[k], openable)
  {
    assert events[..k + 1][..k] == events[..k];
    RunsAreOrderly(servers, deadline, now, openable, events[..k]);
  }

  /** A request that is over stays so, and one that has fallen back to the system asks no server again. */
  lemma {:induction false} PhasesGoOn(servers: nat, deadline: int, now: int, openable: seq<bool>, events: seq<Event>, k: nat, n: nat)
    requires k <= n <= |events|
    ensures var r, s := After(servers, deadline, now, openable, events, k), After(servers, deadline, now, openable, events, n);
      && (r.phase == Done ==> s.phase == Done && s.outcomes == r.outcomes)
      && (r.phase == InSystem ==> s.phase != Asking)
    decreases n
  {
    if k < n {
      PhasesGoOn(servers, deadline, now, openable, events, k, n - 1);
      AfterNext(servers, deadline, now, openable, events, n - 1);
    }
  }

  /** Event `k` of a run ends the request with what was gathered. */
  predicate DeliversAt(servers: nat, deadline: int, now: int, openable: seq<bool>, events: seq<Event>, k: nat) {
    k < |events| && DeliversNow(After(servers, deadline, now, openable, events, k), events[k])
  }

  /** The event with which a request ends. */
  lemma {:induction false} EndsAt(servers: nat, deadline: int, now: int, openable: seq<bool>, events: seq<Event>, n: nat) returns (k: nat)
    requires n <= |events| && After(servers, deadline, now, openable, events, n).phase == Done
    ensures k < n && After(servers, deadline, now, openable, events, k).phase != Done
    ensures After(servers, deadline, now, openable, events, k + 1).phase == Done
    ensures After(servers, deadline, now, openable, events, k + 1).outcomes == After(servers, deadline, now, openable, events, n).outcomes
    decreases n
  {
    if n == 0 {
      assert events[..0] == [];
      DriveFallsBack(Request(servers, deadline, 0, 0, 0, false, false, [], Asking, [], []), now, openable);
    } else if After(servers, deadline, now, openable, events, n - 1).phase == Done {
      k := EndsAt(servers, deadline, now, openable, events, n - 1);
      PhasesGoOn(servers, deadline, now, openable, events, n - 1, n);
    } else {
      k := n - 1;
    }
  }

  /** What was gathered is the outcome of a request if some event delivers it: then it is the only outcome. */
  lemma DeliveredIsOutcome(servers: nat, deadline: int, now: int, openable: seq<bool>, events: seq<Event>, k: nat)
    requires DeliversAt(servers, deadline, now, openable, events, k)
    ensures var r, e := After(servers, deadline, now, openable, events, k), events[k];
      Run(servers, deadline, now, openable, events).outcomes == [Addresses(Gather(r.addresses, e.addresses))]
    ensures forall m: nat :: m <= |events| ==> After(servers, deadline, now, openable, events, m).phase != InSystem
  {
    assert events[..|events|] == events;
    AfterNext(servers, deadline, now, openable, events, k);
    StepCompletes(After(servers, deadline, now, openable, events, k), events[k], openable);
    PhasesGoOn(servers, deadline, now, openable, events, k + 1, |events|);
    forall m: nat | m <= |events| ensures After(servers, deadline, now, openable, events, m).phase != InSystem {
      if m <= k {
        PhasesGoOn(servers, deadline, now, openable, events, m, k);
      } else {
        PhasesGoOn(servers, deadline, now, openable, events, k + 1, m);
      }
    }
  }

  /** From the moment a request falls back to the system, no event delivers what was gathered: only the system or a cancellation ends it. */
  lemma FallenBackIsLost(servers: nat, deadline: int, now: int, openable: seq<bool>, events: seq<Event>, k: nat)
    requires k <= |events| && After(servers, deadline, now, openable, events, k).phase == InSystem
    ensures forall n: nat :: !DeliversAt(servers, deadline, now, openable, events, n)
    ensures var t := Run(servers, deadline, now, openable, events);
      t.outcomes == [] || t.outcomes == [Unresolved(Cancelled)] || exists n: nat :: k <= n < |events| && events[n].System? && t.outcomes == [events[n].outcome]
  {
    forall n: nat ensures !DeliversAt(servers, deadline, now, openable, events, n) {
      if DeliversAt(servers, deadline, now, openable, events, n) {
        DeliveredIsOutcome(servers, deadline, now, openable, events, n);
      }
    }
    assert events[..|events|] == events;
    RunsAreOrderly(servers, deadline, now, openable, events);
    if After(servers, deadline, now, openable, events, |events|).phase == Done {
      var n := EndsAt(servers, deadline, now, openable, events, |events|);
      if n < k {
        PhasesGoOn(servers, deadline, now, openable, events, n + 1, k);
      }
      AfterNext(servers, deadline, now, openable, events, n);
      StepCompletes(After(servers, deadline, now, openable, events, n), events[n], openable);
      assert !DeliversAt(servers, deadline, now, openable, events, n);
    }
  }

  /** No server is being asked when a cancellation comes that still matters. */
  ghost predicate CancelledInVain(servers: nat, deadline: int, now: int, openable: seq<bool>, events: seq<Event>, m: nat) {
    m < |events| && events[m].Cancels? ==> After(servers, deadline, now, openable, events, m).phase == Done
  }

  lemma DeliveredUncancelled(servers: nat, deadline: int, now: int, openable: seq<bool>, events: seq<Event>, k: nat, m: nat)
    requires DeliversAt(servers, deadline, now, openable, events, k)
    ensures CancelledInVain(servers, deadline, now, openable, events, m)
  {
    AfterNext(servers, deadline, now, openable, events, k);
    StepCompletes(After(servers, deadline, now, openable, events, k), events[k], openable);
    if m < |events| && events[m].Cancels? {
      if m < k {
        AfterNext(servers, deadline, now, openable, events, m);
        PhasesGoOn(servers, deadline, now, openable, events, m + 1, k);
      } else if m > k {
        PhasesGoOn(servers, deadline, now, openable, events, k + 1, m);
      }
    }
  }

  /**
   * A request that is over has delivered what was gathered exactly if it never fell back
   * to the system and no cancellation ended it.
   */
  lemma DeliveredIff(servers: nat, deadline: int, now: int, openable: seq<bool>, events: seq<Event>)
    requires Run(servers, deadline, now, openable, events).phase == Done
    ensures (exists k: nat :: DeliversAt(servers, deadline, now, openable, events, k)) <==>
      && (forall m: nat :: m <= |events| ==> After(servers, deadline, now, openable, events, m).phase != InSystem)
      && (forall m: nat :: CancelledInVain(servers, deadline, now, openable, events, m))
  {
    if k: nat :| DeliversAt(servers, deadline, now, openable, events, k) {
      DeliveredIsOutcome(servers, deadline, now, openable, events, k);
      forall m: nat ensures CancelledInVain(servers, deadline, now, openable, events, m) {
        DeliveredUncancelled(servers, deadline, now, openable, events, k, m);
      }
    } else {
      assert events[..|events|] == events;
      var n := EndsAt(servers, deadline, now, openable, events, |events|);
      AfterNext(servers, deadline, now, openable, events, n);
      StepCompletes(After(servers, deadline, now, openable, events, n), events[n], openable);
      assert !DeliversAt(servers, deadline, now, openable, events, n);
      assert After(servers, deadline, now, openable, events, n).phase == InSystem || !CancelledInVain(servers, deadline, now, openable, events, n);
    }
  }

  // ----- What is gathered, and who is asked next

  /** Every address of the one or the other, once each; the new ones in the order in which they come first. */
  lemma {:induction false} GatherIsUnion(addresses: seq<nat>, more: seq<nat>)
    ensures var all := Gather(addresses, more);
      && addresses <= all && (forall a :: a in all <==> a in addresses || a in more)
      && (forall i :: |addresses| <= i < |all| ==> all[i] !in addresses && all[i] in more)
      && (forall i, j :: |addresses| <= i < j < |all| ==> IndexOf(more, all[i]) < IndexOf(more, all[j]))
    decreases |more|
  {
    if more != [] {
      var first, rest := more[0], more[1..];
      var grown := if first in addresses then addresses else addresses + [first];
      var all := Gather(grown, rest);
      GatherIsUnion(grown, rest);
      assert forall i :: |grown| <= i < |all| ==> all[i] != first && IndexOf(more, all[i]) == 1 + IndexOf(rest, all[i]);
      assert forall i :: |addresses| <= i < |all| ==> i >= |grown| || (all[i] == grown[i] == first);
    }
  }

  /** Server `j` is the first one from `from` on whose socket can be opened. */
  predicate IsNextServer(openable: seq<bool>, from: nat, j: nat) {
    from <= j && !Shut(openable, j) && forall i :: from <= i < j ==> Shut(openable, i)
  }

  /** The next server is asked for A records, and has its share of the time that is left. */
  ghost predicate AsksServer(r: Request, t: Request, openable: seq<bool>, from: nat, now: int) {
    && t.phase == Asking && t.query == 0 && !t.expired && t.index < r.servers && IsNextServer(openable, from, t.index)
    && t.given == r.given + [Given(t.index, now, now + (r.deadline - now) / (r.servers - t.index))]
  }

  lemma {:induction false} DriveAsks(r: Request, now: int, openable: seq<bool>)
    requires Drive(r, now, openable).phase == Asking
    ensures AsksServer(r, Drive(r, now, openable), openable, r.index, now) && Drive(r, now, openable).addresses == r.addresses
    decreases r.servers - r.index
  {
    if r.index < |openable| && !openable[r.index] {
      DriveAsks(r.(index := r.index + 1), now, openable);
    }
  }

  /** A server that is given up hands over to the next one that can be asked, unless the request falls back; what was gathered stays. */
  lemma NextServerIsAsked(r: Request, e: Event, openable: seq<bool>)
    requires Valid(r) && r.phase == Asking && GivesUp(r, e) && Step(r, e, openable).phase != InSystem
    ensures AsksServer(r, Step(r, e, openable), openable, r.index + 1, e.now)
    ensures Step(r, e, openable).addresses == if e.Answers? && !r.expired then Gather(r.addresses, e.addresses) else r.addresses
  {
    if e.Answers? && !r.expired {
      NextAsks(r.(addresses := Gather(r.addresses, e.addresses), query := r.query + 1), e.now, openable);
    } else {
      NextAsks(r, e.now, openable);
    }
  }

  lemma NextAsks(r: Request, now: int, openable: seq<bool>)
    requires r.phase == Asking && NextServer(r, now, openable).phase != InSystem
    ensures AsksServer(r, NextServer(r, now, openable), openable, r.index + 1, now)
    ensures NextServer(r, now, openable).addresses == r.addresses
  {
    DriveFallsBack(r.(index := r.index + 1), now, openable);
    DriveAsks(r.(index := r.index + 1), now, openable);
  }

  /** The first answer of a server that has time left is gathered, and the same server is asked for AAAA records. */
  lemma SecondQueryFollows(r: Request, e: Event, openable: seq<bool>)
    requires Valid(r) && r.phase == Asking && r.query == 0 && e.Answers? && !r.expired && !r.deadlineExceeded && e.now < r.deadline
    ensures Step(r, e, openable) == r.(query := 1, addresses := Gather(r.addresses, e.addresses))
  {
  }

  lemma RunOne(servers: nat, deadline: int, now: int, openable: seq<bool>, e: Event)
    ensures Run(servers, deadline, now, openable, [e]) == Step(Begin(servers, deadline, now, openable), e, openable)
  {
    assert [e][..0] == [];
  }

  /**
   * Addresses from a server's first answer are lost if the second answer does not come
   * from any server: the system is asked, and only what it says counts.
   */
  lemma FirstAnswerMayBeLost(address: nat)
    ensures var r := Run(1, 10, 0, [], [Answers([address], 1), Fails(2), System(Unresolved(Resolution))]);
      r.addresses == [address] && r.outcomes == [Unresolved(Resolution)]
  {
    var a, b, c := Answers([address], 1), Fails(2), System(Unresolved(Resolution));
    assert [a, b, c][..2] == [a, b] && [a, b][..1] == [a];
    assert Gather([], [address]) == [address] by {
      assert [address][1..] == [] && [] + [address] == [address];
    }
    var begun := Begin(1, 10, 0, []);
    RunOne(1, 10, 0, [], a);
    assert Run(1, 10, 0, [], [a, b]) == Step(Step(begun, a, []), b, []);
  }
}

/** The bootstrap resolver's list of servers, and one request, themselves. */
module Bootstraps {
  import Arithmetic
  import opened Budgets
  import opened Core
  import opened Spec = BootstrapSpec

  method MergeServers(configured: seq<Endpoint>, defaults: seq<Endpoint>) returns (servers: seq<Endpoint>)
    ensures servers == Merge(configured + defaults)
  {
    servers := [];
    var all := configured + defaults;
    for i := 0 to |all|
      invariant servers == Merge(all[..i])
    {
      assert all[..i + 1][..i] == all[..i];
      if Usable(all[i]) && all[i] !in servers {
        servers := servers + [all[i]];
      }
    }
    assert all[..|all|] == all;
  }

  class BootstrapRequest {
    const servers: nat
    const deadline: int
    /** For which servers a socket can be opened. */
    const openable: seq<bool>
    var serverIndex: nat
    var queryIndex: nat
    var serverAttempt: nat
    var serverExpired: bool
    var deadlineExceeded: bool
    var addresses: seq<nat>
    var phase: Phase
    ghost var given: seq<Given>
    ghost var outcomes: seq<Outcome>

    ghost function Model(): Request
      reads this
    {
      Request(servers, deadline, serverIndex, queryIndex, serverAttempt, serverExpired, deadlineExceeded, addresses, phase, given, outcomes)
    }

    constructor (servers: nat, deadline: int, openable: seq<bool>)
      ensures Model() == Request(servers, deadline, 0, 0, 0, false, false, [], Asking, [], [])
      ensures this.openable == openable
    {
      this.servers, this.deadline, this.openable := servers, deadline, openable;
      serverIndex, queryIndex, serverAttempt, serverExpired, deadlineExceeded := 0, 0, 0, false, false;
      addresses, phase, given, outcomes := [], Asking, [], [];
    }

    method Finish(outcome: Outcome)
      modifies `phase, `outcomes
      ensures Model() == Complete(old(Model()), outcome)
    {
      if phase != Done {
        phase := Done;
        outcomes := outcomes + [outcome];
      }
    }

    /** The driver's loop, up to the next wait: servers whose socket cannot be opened are passed over. */
    method Drive(now: int)
      modifies this
      ensures Model() == Spec.Drive(old(Model()), now, openable)
    {
      while serverIndex < servers && !deadlineExceeded && now < deadline
        invariant Spec.Drive(Model(), now, openable) == Spec.Drive(old(Model()), now, openable)
        decreases servers - serverIndex
      {
        if serverIndex < |openable| && !openable[serverIndex] {
          serverIndex := serverIndex + 1;
          continue;
        }
        OpenServer(now);
        return;
      }
      phase := InSystem;
    }

    method OpenServer(now: int)
      requires serverIndex < servers && now < deadline
      modifies this
      ensures Model() == old(Model()).(phase := Asking, query := 0, attempt := old(serverAttempt) + 1, expired := false,
        given := old(given) + [Given(old(serverIndex), now, now + Share(deadline - now, servers - old(serverIndex)))])
    {
      serverExpired := false;
      serverAttempt := serverAttempt + 1;
      queryIndex := 0;
      phase := Asking;
      var budget := (deadline - now) / (servers - serverIndex);
      BudgetFits(deadline - now, servers - serverIndex);
      var serverDeadline := if deadline < now + budget then deadline else now + budget;
      given := given + [Given(serverIndex, now, serverDeadline)];
    }

    static lemma BudgetFits(total: nat, parts: nat)
      requires parts > 0
      ensures total / parts == Share(total, parts) <= total
    {
      ShareBounds(total, parts, 0);
      Arithmetic.MulMonotone(1, parts, Share(total, parts));
    }

    method Next(now: int)
      modifies this
      ensures Model() == NextServer(old(Model()), now, openable)
    {
      if deadlineExceeded || now >= deadline {
        phase := InSystem;
        return;
      }
      serverIndex := serverIndex + 1;
      Drive(now);
    }

    method OnAnswer(more: seq<nat>, now: int)
      modifies this
      ensures Model() == Answered(old(Model()), more, now, openable)
    {
      if phase != Asking {
        return;
      }
      if serverExpired {
        Next(now);
        return;
      }
      Collect(more);
      queryIndex := queryIndex + 1;
      if queryIndex < 2 {
        if deadlineExceeded || now >= deadline {
          Next(now);
        }
        return;
      }
      if addresses != [] {
        Finish(Addresses(addresses));
        return;
      }
      Next(now);
    }

    method Collect(more: seq<nat>)
      modifies `addresses
      ensures addresses == Gather(old(addresses), more)
    {
      assert more[0..] == more;
      for i := 0 to |more|
        invariant Gather(addresses, more[i..]) == Gather(old(addresses), more)
      {
        assert more[i..][1..] == more[i + 1..];
        if more[i] !in addresses {
          addresses := addresses + [more[i]];
        }
      }
    }

    method OnServerDeadline(attempt: nat)
      modifies `serverExpired
      ensures Model() == ServerExpires(old(Model()), attempt)
    {
      if phase == Done || serverAttempt != attempt {
        return;
      }
      serverExpired := true;
    }

    method OnDeadline()
      modifies `deadlineExceeded
      ensures Model() == DeadlinePasses(old(Model()))
    {
      if phase != Asking {
        return;
      }
      deadlineExceeded := true;
    }
  }
}
