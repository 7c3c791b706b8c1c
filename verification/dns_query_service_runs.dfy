/** Every run of the query service: what its requests are told, and by whom. */
module DnsQueryRuns {
  import opened Core
  import opened CacheKey
  import DnsCache
  import opened DnsQueryServiceSpec

  datatype Event =
    | Asks(request: nat, query: Query, now: int)
    | Cancels(request: nat)
    | Finishes(operation: nat, reply: Reply, now: int)
    | RequestsStop
    | Stops
    | Clears

  /** A stop runs on the owner's strand some time after it was requested; replies may come at any time. */
  predicate Enabled(s: Service, e: Event) {
    match e
    case Asks(request, _, now) => request !in s.asked && now >= s.clock
    case Finishes(o, _, now) => o in s.ops && now >= s.clock
    case Stops => s.stopped
    case _ => true
  }

  function Step(s: Service, e: Event): Service
    requires Enabled(s, e)
  {
    match e
    case Asks(request, q, now) => Ask(s, request, q, now)
    case Cancels(request) => Cancel(s, request)
    case Finishes(o, reply, now) => Finish(s, o, reply, now)
    case RequestsStop => RequestStop(s)
    case Stops => StopAll(s)
    case Clears => Clear(s)
  }

  lemma StepKeeps(s: Service, e: Event)
    requires Valid(s) && Enabled(s, e)
    ensures Valid(Step(s, e))
  {
    match e
    case Asks(request, q, now) => AskKeeps(s, request, q, now);
    case Cancels(request) => CancelKeeps(s, request);
    case Finishes(o, reply, now) => FinishKeeps(s, o, reply, now);
    case RequestsStop =>
    case Stops => StopKeeps(s);
    case Clears => ClearKeeps(s);
  }

  /** State `n` of a run follows from the one before. */
  ghost predicate Follows(trace: seq<Service>, events: seq<Event>, n: nat)
    requires |trace| == |events| + 1 && 1 <= n < |trace|
  {
    Enabled(trace[n - 1], events[n - 1]) && trace[n] == Step(trace[n - 1], events[n - 1])
  }

  /** The states of a run from a new service on, and the events between them. */
  ghost predicate IsRun(config: Config, trace: seq<Service>, events: seq<Event>) {
    && |trace| == |events| + 1 && trace[0] == Initial(config)
    && forall n :: 1 <= n < |trace| ==> Follows(trace, events, n)
  }

  lemma {:induction false} RunsAreValid(config: Config, trace: seq<Service>, events: seq<Event>, n: nat)
    requires IsRun(config, trace, events) && n < |trace|
    ensures Valid(trace[n]) && trace[n].config == config
    decreases n
  {
    if n == 0 {
      InitialValid(config);
    } else {
      RunsAreValid(config, trace, events, n - 1);
      assert Follows(trace, events, n);
      StepKeeps(trace[n - 1], events[n - 1]);
      StepRemembers(trace[n - 1], events[n - 1]);
    }
  }

  /** What a request was told, and what it asked, stays; so does the configuration, and a stop. */
  ghost predicate Remembers(s: Service, t: Service) {
    && t.config == s.config && (s.stopped ==> t.stopped)
    && Grows(s.log, t.log)
    && Extends(s.asked, t.asked)
  }

  lemma AskRemembers(s: Service, request: nat, q: Query, now: int)
    requires request !in s.asked && s.log.Keys == s.asked.Keys
    ensures Remembers(s, Ask(s, request, q, now))
  {
    var t := Register(s, request, Described(s, q)).(clock := now);
    RegisterRemembers(s, request, Described(s, q), now);
    match Objection(s, q)
    case Some(error) => PostRemembers(t, request, Failure(error));
    case None => LookRemembers(t, request);
    RemembersTransitive(s, t, Ask(s, request, q, now));
  }

  lemma RegisterRemembers(s: Service, request: nat, a: Asked, now: int)
    requires request !in s.asked && request !in s.log
    ensures Remembers(s, Register(s, request, a).(clock := now))
  {
  }

  lemma PostRemembers(s: Service, request: nat, t: Terminal)
    requires request in s.log
    ensures Remembers(s, Post(s, request, t))
  {
  }

  lemma LookRemembers(s: Service, request: nat)
    requires request in s.asked && request in s.log
    ensures Remembers(s, Look(s, request))
  {
  }

  lemma StepRemembers(s: Service, e: Event)
    requires Valid(s) && Enabled(s, e)
    ensures Remembers(s, Step(s, e))
  {
    match e
    case Asks(request, q, now) =>
      assert s.log.Keys == s.asked.Keys;
      AskRemembers(s, request, q, now);
    case _ => OtherRemembers(s, e);
  }

  lemma FinishRemembers(s: Service, o: nat, reply: Reply, now: int)
    requires o in s.ops
    ensures Remembers(s, Finish(s, o, reply, now))
  {
  }

  lemma StopRemembers(s: Service)
    ensures Remembers(s, StopAll(s))
  {
  }

  lemma CancelRemembers(s: Service, request: nat)
    ensures Remembers(s, Cancel(s, request))
  {
  }

  lemma OtherRemembers(s: Service, e: Event)
    requires Enabled(s, e) && !e.Asks?
    ensures Remembers(s, Step(s, e))
  {
    match e
    case Cancels(request) => CancelRemembers(s, request);
    case Finishes(o, reply, now) => FinishRemembers(s, o, reply, now);
    case Stops => StopRemembers(s);
    case _ =>
  }

  lemma {:induction false} RunRemembers(config: Config, trace: seq<Service>, events: seq<Event>, m: nat, n: nat)
    requires IsRun(config, trace, events) && m <= n < |trace|
    ensures Remembers(trace[m], trace[n])
    decreases n
  {
    if m < n {
      var first, before, now := trace[m], trace[n - 1], trace[n];
      RunRemembers(config, trace, events, m, n - 1);
      StepOfRunRemembers(config, trace, events, n);
      RemembersTransitive(first, before, now);
    }
  }

  lemma StepOfRunRemembers(config: Config, trace: seq<Service>, events: seq<Event>, n: nat)
    requires IsRun(config, trace, events) && 0 < n < |trace|
    ensures Remembers(trace[n - 1], trace[n])
  {
    RunsAreValid(config, trace, events, n - 1);
    assert Follows(trace, events, n);
    StepRemembers(trace[n - 1], events[n - 1]);
  }

  lemma RemembersTransitive(s: Service, t: Service, u: Service)
    requires Remembers(s, t) && Remembers(t, u)
    ensures Remembers(s, u)
  {
    GrowsTransitive(s.log, t.log, u.log);
  }

  /** A stopped service in which nothing is open or in flight stays so. */
  ghost predicate AtRest(s: Service) {
    s.stopped && s.requests == map[] && s.inFlight == map[] && Waiting(s) == map[]
  }

  lemma NothingOpen(s: Service)
    requires Valid(s) && s.stopped && s.requests == map[]
    ensures AtRest(s)
  {
    assert forall o :: o in Waiting(s) ==> Waiting(s)[o][0].request in s.requests;
    NothingInFlight(s.inFlight, Keyed(s));
  }

  lemma NothingInFlight(inFlight: map<Bytes, nat>, keyed: map<nat, Bytes>)
    requires Flights(inFlight, keyed) && keyed.Keys == {}
    ensures inFlight == map[]
  {
  }

  lemma StopRests(s: Service)
    requires Valid(s) && s.stopped
    ensures AtRest(StopAll(s))
  {
    StopKeeps(s);
    NothingOpen(StopAll(s));
  }

  lemma StepStaysAtRest(s: Service, e: Event)
    requires Valid(s) && Enabled(s, e) && AtRest(s)
    ensures AtRest(Step(s, e))
  {
    StepKeeps(s, e);
    NothingOpen(Step(s, e));
  }

  lemma {:induction false} StopIsFinal(config: Config, trace: seq<Service>, events: seq<Event>, m: nat, n: nat)
    requires IsRun(config, trace, events) && m < n < |trace| && events[m] == Stops
    ensures AtRest(trace[n])
    decreases n
  {
    var before, e := trace[n - 1], events[n - 1];
    RunsAreValid(config, trace, events, n - 1);
    assert Follows(trace, events, n);
    if m < n - 1 {
      StopIsFinal(config, trace, events, m, n - 1);
      StepStaysAtRest(before, e);
    } else {
      StopRests(before);
    }
  }

  /**
   * In every run a request is open or has been told exactly one thing, which fits its
   * own transaction ID and stays the only one; once the owner has stopped, no request
   * is open, whatever comes later.
   */
  lemma ExactlyOnce(config: Config, trace: seq<Service>, events: seq<Event>, m: nat, n: nat, r: nat)
    requires IsRun(config, trace, events) && m <= n < |trace| && r in trace[m].asked
    ensures r in trace[m].log && r in trace[n].log && r in trace[n].asked && trace[n].asked[r] == trace[m].asked[r]
    ensures if r in trace[m].requests then trace[m].log[r] == []
            else |trace[m].log[r]| == 1 && Fits(trace[m].log[r][0], trace[m].asked[r].id) && trace[n].log[r] == trace[m].log[r]
    ensures n > m && events[m] == Stops ==> |trace[n].log[r]| == 1
  {
    RunsAreValid(config, trace, events, m);
    RunsAreValid(config, trace, events, n);
    RunRemembers(config, trace, events, m, n);
    if n > m && events[m] == Stops {
      StopIsFinal(config, trace, events, m, n);
    }
    assert |trace[n].log[r]| <= 1;
  }

  /** The open requests are exactly the waiters of exchanges in flight, each waiting on one of them. */
  lemma RequestsAreWaiters(config: Config, trace: seq<Service>, events: seq<Event>, n: nat, r: nat, o: nat)
    requires IsRun(config, trace, events) && n < |trace| && o in trace[n].ops
    ensures var s := trace[n];
      && (r in s.requests && s.requests[r] == o <==> !s.ops[o].completed && r in Ids(s.ops[o].waiters))
      && (!s.ops[o].completed <==> s.ops[o].key in s.inFlight && s.inFlight[s.ops[o].key] == o)
      && (!s.ops[o].completed ==> s.ops[o].waiters != [] && Distinct(Requests(s.ops[o].waiters)))
  {
    var s := trace[n];
    RunsAreValid(config, trace, events, n);
    if !s.ops[o].completed {
      assert Waiting(s)[o] == s.ops[o].waiters && o in Keyed(s) && Keyed(s)[o] == s.ops[o].key;
    } else {
      assert o !in Waiting(s) && o !in Keyed(s);
    }
  }
}
