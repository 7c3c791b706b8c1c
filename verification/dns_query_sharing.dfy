/**
 * Who shares an exchange: when all that wait for an exchange have asked for what it sends,
 * from the group that it is sent to.
 */
module DnsQuerySharing {
  import opened Core
  import opened CacheKey
  import opened DnsQueryServiceSpec
  import opened DnsQueryRuns
  import PolicyRouting
  import Names

  // ----- Where exchanges and their waiters come from

  predicate Hands(config: Config, e: Event, wire: Bytes, route: Route) {
    e.Asks? && e.query.wire == wire && RouteOf(config, e.query.name) == Ok(route)
  }

  /** One of the first `n` events asks with this wire, and goes this way. */
  ghost predicate HandedIn(config: Config, events: seq<Event>, n: nat, wire: Bytes, route: Route) {
    exists j: nat :: j < n && j < |events| && Hands(config, events[j], wire, route)
  }

  ghost predicate AllHandedIn(s: Service, events: seq<Event>, n: nat) {
    forall o :: o in s.ops && !s.ops[o].completed ==>
      && HandedIn(s.config, events, n, s.ops[o].wire, s.ops[o].route)
      && forall w :: w in s.ops[o].waiters ==>
           w.request in s.asked && HandedIn(s.config, events, n, s.asked[w.request].wire, s.asked[w.request].route)
  }

  /** No exchange gets a new waiter, and none is new. */
  ghost predicate Shrinks(before: map<nat, Operation>, after: map<nat, Operation>) {
    forall o :: o in after && !after[o].completed ==>
      && o in before && !before[o].completed && after[o].route == before[o].route && after[o].wire == before[o].wire
      && forall w :: w in after[o].waiters ==> w in before[o].waiters
  }

  lemma HandedInLater(config: Config, events: seq<Event>, n: nat, wire: Bytes, route: Route)
    requires HandedIn(config, events, n, wire, route)
    ensures HandedIn(config, events, n + 1, wire, route)
  {
  }

  lemma ShrinksKeeps(s: Service, t: Service, events: seq<Event>, n: nat)
    requires AllHandedIn(s, events, n) && t.config == s.config && Extends(s.asked, t.asked) && Shrinks(s.ops, t.ops)
    ensures AllHandedIn(t, events, n + 1)
  {
    forall o | o in t.ops && !t.ops[o].completed
      ensures HandedIn(t.config, events, n + 1, t.ops[o].wire, t.ops[o].route)
      ensures forall w :: w in t.ops[o].waiters ==>
        w.request in t.asked && HandedIn(t.config, events, n + 1, t.asked[w.request].wire, t.asked[w.request].route)
    {
      HandedInLater(s.config, events, n, s.ops[o].wire, s.ops[o].route);
      forall w | w in t.ops[o].waiters
        ensures w.request in t.asked && HandedIn(t.config, events, n + 1, t.asked[w.request].wire, t.asked[w.request].route)
      {
        HandedInLater(s.config, events, n, s.asked[w.request].wire, s.asked[w.request].route);
      }
    }
  }

  lemma OneShrinks(ops: map<nat, Operation>, o: nat, left: seq<Waiter>, completed: bool)
    requires o in ops && !ops[o].completed && forall w :: w in left ==> w in ops[o].waiters
    ensures Shrinks(ops, ops[o := ops[o].(waiters := left, completed := completed)])
  {
  }

  lemma CancelShrinks(s: Service, request: nat)
    requires Parked(Waiting(s), s.requests) && (request in s.requests ==> s.requests[request] in s.ops && request in s.log)
    ensures Shrinks(s.ops, Cancel(s, request).ops)
  {
    if request in s.requests {
      var o := s.requests[request];
      var left := WithoutRequest(s.ops[o].waiters, request);
      assert o in Waiting(s) && Distinct(Requests(Waiting(s)[o]));
      WithoutRequestIds(s.ops[o].waiters, request);
      OneShrinks(s.ops, o, left, left == []);
    }
  }

  lemma FinishShrinks(s: Service, o: nat, reply: Reply, now: int)
    requires o in s.ops
    ensures Shrinks(s.ops, Finish(s, o, reply, now).ops)
  {
    if !s.ops[o].completed {
      OneShrinks(s.ops, o, [], true);
    }
  }

  lemma JoinKeeps(s: Service, request: nat, events: seq<Event>, n: nat)
    requires AllHandedIn(s, events, n) && request in s.asked && HandedIn(s.config, events, n, s.asked[request].wire, s.asked[request].route)
    ensures AllHandedIn(Join(s, request, KeyOf(s, s.asked[request])), events, n)
  {
  }

  lemma LookKeeps(s: Service, request: nat, events: seq<Event>, n: nat)
    requires AllHandedIn(s, events, n) && request in s.asked && request in s.log
    requires HandedIn(s.config, events, n, s.asked[request].wire, s.asked[request].route)
    ensures AllHandedIn(Look(s, request), events, n)
  {
    var key := KeyOf(s, s.asked[request]);
    if !Hit(s, key) {
      JoinKeeps(s.(cache := DnsCache.Forget(s.cache, key)), request, events, n);
    }
  }

  lemma AskKeeps(s: Service, request: nat, q: Query, now: int, events: seq<Event>, n: nat)
    requires request !in s.asked && AllHandedIn(s, events, n) && n < |events| && events[n] == Asks(request, q, now)
    ensures AllHandedIn(Ask(s, request, q, now), events, n + 1)
  {
    var t := Register(s, request, Described(s, q)).(clock := now);
    assert Extends(s.asked, t.asked) && Shrinks(s.ops, t.ops);
    ShrinksKeeps(s, t, events, n);
    if Objection(s, q).None? {
      assert Hands(s.config, events[n], q.wire, t.asked[request].route);
      LookKeeps(t, request, events, n + 1);
    }
  }

  lemma CancelKeeps(s: Service, request: nat, events: seq<Event>, n: nat)
    requires Valid(s) && AllHandedIn(s, events, n)
    ensures AllHandedIn(Cancel(s, request), events, n + 1)
  {
    DnsQueryServiceSpec.CancelKeeps(s, request);
    CancelShrinks(s, request);
    ShrinksKeeps(s, Cancel(s, request), events, n);
  }

  lemma FinishKeeps(s: Service, o: nat, reply: Reply, now: int, events: seq<Event>, n: nat)
    requires o in s.ops && AllHandedIn(s, events, n)
    ensures AllHandedIn(Finish(s, o, reply, now), events, n + 1)
  {
    FinishShrinks(s, o, reply, now);
    ShrinksKeeps(s, Finish(s, o, reply, now), events, n);
  }

  lemma OtherKeeps(s: Service, e: Event, events: seq<Event>, n: nat)
    requires Enabled(s, e) && AllHandedIn(s, events, n) && (e.RequestsStop? || e.Stops? || e.Clears?)
    ensures AllHandedIn(Step(s, e), events, n + 1)
  {
    ShrinksKeeps(s, Step(s, e), events, n);
  }

  lemma StepKeeps(s: Service, events: seq<Event>, n: nat)
    requires Valid(s) && n < |events| && Enabled(s, events[n]) && AllHandedIn(s, events, n)
    ensures AllHandedIn(Step(s, events[n]), events, n + 1)
  {
    match events[n]
    case Asks(request, q, now) => AskKeeps(s, request, q, now, events, n);
    case Cancels(request) => CancelKeeps(s, request, events, n);
    case Finishes(o, reply, now) => FinishKeeps(s, o, reply, now, events, n);
    case _ => OtherKeeps(s, events[n], events, n);
  }

  lemma {:induction false} RunsAreHandedIn(config: Config, trace: seq<Service>, events: seq<Event>, n: nat)
    requires IsRun(config, trace, events) && n < |trace|
    ensures AllHandedIn(trace[n], events, n)
    decreases n
  {
    if n > 0 {
      RunsAreHandedIn(config, trace, events, n - 1);
      RunsAreValid(config, trace, events, n - 1);
      assert Follows(trace, events, n);
      StepKeeps(trace[n - 1], events, n - 1);
    }
  }

  /** The events behind an exchange and one of its waiters, whose keys are equal. */
  lemma BothHandedIn(config: Config, trace: seq<Service>, events: seq<Event>, n: nat, o: nat, w: Waiter) returns (i: nat, j: nat)
    requires IsRun(config, trace, events) && n < |trace|
    requires o in trace[n].ops && !trace[n].ops[o].completed && w in trace[n].ops[o].waiters
    ensures w.request in trace[n].asked && trace[n].asked[w.request].id == w.responseId
    ensures var a, op := trace[n].asked[w.request], trace[n].ops[o];
      && i < |events| && Hands(config, events[i], a.wire, a.route) && j < |events| && Hands(config, events[j], op.wire, op.route)
      && |a.wire| >= 12 && |op.wire| >= 12
      && Key(a.wire, a.route.group, config.generation) == Key(op.wire, op.route.group, config.generation)
  {
    var s := trace[n];
    RunsAreValid(config, trace, events, n);
    RunsAreHandedIn(config, trace, events, n);
    SharesIn(s, o, w);
    i :| i < n && i < |events| && Hands(config, events[i], s.asked[w.request].wire, s.asked[w.request].route);
    j :| j < n && j < |events| && Hands(config, events[j], s.ops[o].wire, s.ops[o].route);
  }

  lemma SharesIn(s: Service, o: nat, w: Waiter)
    requires Shared(Waiting(s), Keyed(s), s.config, s.asked)
    requires o in s.ops && !s.ops[o].completed && w in s.ops[o].waiters
    ensures Shares(w, s.ops[o].key, s.config, s.asked)
  {
    assert w in Waiting(s)[o];
  }

  /** The query that is sent is, up to the ID, what the waiter asked, and goes where the waiter's query was to go. */
  predicate Agrees(w: Waiter, op: Operation, asked: map<nat, Asked>) {
    && w.request in asked && asked[w.request].id == w.responseId && asked[w.request].route == op.route
    && |asked[w.request].wire| >= 2 && |op.wire| >= 2 && asked[w.request].wire[2..] == op.wire[2..]
  }

  ghost predicate AllAgree(s: Service) {
    forall o, w :: o in s.ops && !s.ops[o].completed && w in s.ops[o].waiters ==> Agrees(w, s.ops[o], s.asked)
  }

  // ----- Packets whose wire says what they ask for

  predicate Begins(a: Bytes, b: Bytes) {
    |a| >= 2 && |b| >= 2 && a[2..] <= b[2..]
  }

  predicate SameName(a: Event, b: Event) {
    a.Asks? && b.Asks? && Begins(a.query.wire, b.query.wire) ==> Names.Normalize(a.query.name) == Names.Normalize(b.query.name)
  }

  /** The wire fixes the name, whatever the ID, and whatever follows behind. */
  ghost predicate Named(events: seq<Event>) {
    forall i, j :: 0 <= i < |events| && 0 <= j < |events| ==> SameName(events[i], events[j])
  }

  /** Of two queries with the same key, that for the longer name begins the other one. */
  lemma EqualKeysBegin(wire: Bytes, group: Bytes, otherWire: Bytes, other: Bytes, generation: nat)
    requires Key(wire, group, generation) == Key(otherWire, other, generation) && |wire| >= 2 && |otherWire| >= 2 && |group| >= |other|
    ensures Begins(wire, otherWire)
  {
    EqualKeys(wire, group, otherWire, other, generation);
    SuffixOf(WithoutId(otherWire), Tag(other), WithoutId(wire), Tag(group));
    assert WithoutId(wire)[2..] == wire[2..] && WithoutId(otherWire)[2..] == otherWire[2..];
  }

  lemma SameNameSameRoute(config: Config, a: string, b: string)
    requires Names.Normalize(a) == Names.Normalize(b)
    ensures RouteOf(config, a) == RouteOf(config, b)
  {
  }

  /**
   * As long as every packet's wire says what name it asks for, all waiters agree with
   * their exchange in every run, whatever the groups are called.
   */
  lemma NamedQueriesAgree(config: Config, trace: seq<Service>, events: seq<Event>, n: nat)
    requires IsRun(config, trace, events) && n < |trace| && Named(events)
    ensures AllAgree(trace[n])
  {
    var s := trace[n];
    forall o, w | o in s.ops && !s.ops[o].completed && w in s.ops[o].waiters ensures Agrees(w, s.ops[o], s.asked) {
      var i, j := BothHandedIn(config, trace, events, n, o, w);
      var a, op := s.asked[w.request], s.ops[o];
      if |a.route.group| >= |op.route.group| {
        EqualKeysBegin(a.wire, a.route.group, op.wire, op.route.group, config.generation);
      } else {
        EqualKeysBegin(op.wire, op.route.group, a.wire, a.route.group, config.generation);
      }
      assert SameName(events[i], events[j]) && SameName(events[j], events[i]);
      SameNameSameRoute(config, events[i].query.name, events[j].query.name);
      EqualKeys(a.wire, a.route.group, op.wire, op.route.group, config.generation);
      SameNameSameQuery(a.wire, a.route.group, op.wire, op.route.group);
    }
  }

  // ----- Packets whose wire and questions are handed in side by side

  /** The router sends two names so that one group's name hides the other's, or one to a group called like the default one and the other to the default one. */
  predicate Clash(config: Config, x: string, y: string) {
    && RouteOf(config, x).Ok? && RouteOf(config, y).Ok?
    && var a, b := RouteOf(config, x).value, RouteOf(config, y).value;
       HidesName(a.group, b.group) || (a.target == NamedGroup(DEFAULT) && b.target == DefaultGroup)
  }

  lemma SameGroupSameRoute(config: Config, x: string, y: string)
    requires RouteOf(config, x).Ok? && RouteOf(config, y).Ok? && RouteOf(config, x).value.group == RouteOf(config, y).value.group
    ensures RouteOf(config, x) == RouteOf(config, y) || Clash(config, x, y) || Clash(config, y, x)
  {
  }

  /** If no two names clash, all waiters agree with their exchange in every run, whatever the packets are. */
  lemma WaitersAgree(config: Config, trace: seq<Service>, events: seq<Event>, n: nat)
    requires IsRun(config, trace, events) && n < |trace| && forall x, y :: !Clash(config, x, y)
    ensures AllAgree(trace[n])
  {
    var s := trace[n];
    forall o, w | o in s.ops && !s.ops[o].completed && w in s.ops[o].waiters ensures Agrees(w, s.ops[o], s.asked) {
      var i, j := BothHandedIn(config, trace, events, n, o, w);
      var a, op := s.asked[w.request], s.ops[o];
      var x, y := events[i].query.name, events[j].query.name;
      EqualKeysHide(a.wire, a.route.group, op.wire, op.route.group, config.generation);
      assert !Clash(config, x, y) && !Clash(config, y, x);
      SameGroupSameRoute(config, x, y);
    }
  }

  predicate Plain(q: Query) {
    !q.response && q.questions == 1 && |q.wire| >= 12
  }

  /** A run of two queries with the same key: the second one waits for what the first one has sent. */
  lemma TwoAsks(config: Config, q: Query, other: Query) returns (trace: seq<Service>, events: seq<Event>)
    requires Plain(q) && Plain(other) && RouteOf(config, q.name).Ok? && RouteOf(config, other.name).Ok?
    requires Key(q.wire, RouteOf(config, q.name).value.group, config.generation) ==
      Key(other.wire, RouteOf(config, other.name).value.group, config.generation)
    ensures IsRun(config, trace, events) && events == [Asks(1, q, 0), Asks(2, other, 0)]
    ensures var s := trace[2];
      && 0 in s.ops && !s.ops[0].completed && s.ops[0].wire == q.wire && s.ops[0].route == RouteOf(config, q.name).value
      && Waiter(2, other.id) in s.ops[0].waiters
      && 2 in s.asked && s.asked[2] == Asked(other.wire, other.id, RouteOf(config, other.name).value)
  {
    var route, otherRoute := RouteOf(config, q.name).value, RouteOf(config, other.name).value;
    var key := Key(q.wire, route.group, config.generation);
    var s := Ask(Initial(config), 1, q, 0);
    var op := Operation(key, q.wire, route, [Waiter(1, q.id)], false);
    assert s == Initial(config).(inFlight := map[key := 0], ops := map[0 := op], requests := map[1 := 0], nextOp := 1,
                                 log := map[1 := []], asked := map[1 := Asked(q.wire, q.id, route)]);
    var t := Ask(s, 2, other, 0);
    assert t.ops == map[0 := op.(waiters := [Waiter(1, q.id)] + [Waiter(2, other.id)])];
    assert ([Waiter(1, q.id)] + [Waiter(2, other.id)])[1] == Waiter(2, other.id);
    trace, events := [Initial(config), s, t], [Asks(1, q, 0), Asks(2, other, 0)];
  }

  /** What the second query of a bad run has behind the first one's octets. */
  function Excess(a: Bytes, b: Bytes): Bytes {
    if HidesName(a, b) then Tag(a)[..|a| - |b|] else []
  }

  /**
   * Of any two names that clash, and of any packet, a run in which a query waits for the
   * answer to another one, or from another group: first the packet is asked for the one
   * name, then, with some octets behind it, for the other.
   */
  lemma ClashIsShared(config: Config, x: string, y: string, q: Query) returns (trace: seq<Service>, events: seq<Event>)
    requires Clash(config, x, y) && Plain(q)
    ensures IsRun(config, trace, events) && !AllAgree(trace[|events|])
    ensures var more := Excess(RouteOf(config, x).value.group, RouteOf(config, y).value.group);
      events == [Asks(1, q.(name := x), 0), Asks(2, q.(name := y, wire := q.wire + more), 0)]
    ensures var s := trace[2];
      && 0 in s.ops && !s.ops[0].completed && s.ops[0].route == RouteOf(config, x).value && Waiter(2, q.id) in s.ops[0].waiters
      && 2 in s.asked && s.asked[2].route == RouteOf(config, y).value != s.ops[0].route
  {
    var a, b := RouteOf(config, x).value.group, RouteOf(config, y).value.group;
    var other := q.(name := y, wire := q.wire + Excess(a, b));
    if HidesName(a, b) {
      HiddenKeys(q.wire, a, b, config.generation);
    } else {
      assert q.wire + [] == q.wire;
    }
    trace, events := TwoAsks(config, q.(name := x), other);
    assert !Agrees(Waiter(2, q.id), trace[2].ops[0], trace[2].asked);
  }

  lemma HiddenKeys(wire: Bytes, a: Bytes, b: Bytes, generation: nat)
    requires HidesName(a, b) && |wire| >= 2
    ensures Key(wire, a, generation) == Key(wire + Excess(a, b), b, generation)
  {
    var more := Excess(a, b);
    TwoParts(Tag(a), |a| - |b|);
    assert WithoutId(wire + more) == WithoutId(wire) + more;
    Associative(WithoutId(wire), more, Tag(b));
  }

  /** In every run of a service with this configuration all waiters agree with their exchanges. */
  ghost predicate AlwaysAgrees(config: Config) {
    forall trace, events :: IsRun(config, trace, events) ==> AllAgree(trace[|events|])
  }

  /** Coalescing never goes wrong, whatever packets are handed in, exactly if no two names clash. */
  lemma AgreeIffNoClash(config: Config)
    ensures AlwaysAgrees(config) <==> forall x, y :: !Clash(config, x, y)
  {
    if forall x, y :: !Clash(config, x, y) {
      forall trace, events | IsRun(config, trace, events) ensures AllAgree(trace[|events|]) {
        WaitersAgree(config, trace, events, |events|);
      }
    } else {
      var x, y :| Clash(config, x, y);
      var root: Bytes := [0, 7, 1, 0, 0, 1, 0, 0, 0, 0, 0, 0, 0, 0, 1, 0, 1];
      var trace, events := ClashIsShared(config, x, y, Query(root, 7, false, 1, x));
      assert !AllAgree(trace[|events|]);
    }
  }

  /** Without a router, and with names without NUL octets, none of them the default group's own, no names clash. */
  lemma PlainNamesNeverClash(config: Config, x: string, y: string)
    requires config.router.None? || (DEFAULT !in config.groups && forall g :: g in config.groups ==> 0 !in g && |g| < 0x100_0000_0000_0000)
    ensures !Clash(config, x, y)
  {
    if RouteOf(config, x).Ok? && RouteOf(config, y).Ok? && config.router.Some? {
      var a, b := RouteOf(config, x).value.group, RouteOf(config, y).value.group;
      PlainNames(a);
      HidesNameIff(a, b);
    }
  }

  /** A router whose names clash: one rule leads to a group that is called like the default one. */
  lemma SomeNamesClash(generation: nat)
    ensures var rule := PolicyRouting.Rule(PolicyRouting.Exact, "a", DEFAULT);
      Clash(Config({DEFAULT}, Some(PolicyRouting.Router(SYSTEM, [rule])), generation, 1, 5), "a", "b")
  {
    var router := PolicyRouting.Router(SYSTEM, [PolicyRouting.Rule(PolicyRouting.Exact, "a", DEFAULT)]);
    assert Names.Normalize("a") == "a" && Names.Normalize("b") == "b";
    assert router.rules[1..] == [];
    assert PolicyRouting.SelectGroup(router, "a") == DEFAULT && PolicyRouting.SelectGroup(router, "b") == SYSTEM;
    assert |SYSTEM| != |DEFAULT|;
  }
}

/** Queries that spell out the name they ask for, label by label, say it in their wire. */
module DnsQuerySpelling {
  import opened Core
  import Names
  import opened DnsCodecSpec
  import opened DnsParser
  import opened DnsRoundTrip
  import Service = DnsQueryServiceSpec
  import Runs = DnsQueryRuns
  import Sharing = DnsQuerySharing

  /** Behind the header stands the name, as labels and without a pointer. */
  ghost predicate Spelled(q: Service.Query) {
    exists labels: seq<string> :: AllGood(labels) && Holds(q.wire, 12, EncodeLabels(labels) + [0]) && q.name == JoinAll(labels)
  }

  lemma BeginningHolds(a: Bytes, b: Bytes, part: Bytes)
    requires Sharing.Begins(a, b) && Holds(a, 12, part)
    ensures Holds(b, 12, part)
  {
    forall k | 0 <= k < |part| ensures b[12 + k] == part[k] {
      assert b[12 + k] == b[2..][10 + k] == a[2..][10 + k] == a[12 + k] == a[12..12 + |part|][k];
    }
  }

  lemma SpelledNamesAreFixed(a: Service.Query, b: Service.Query)
    requires Spelled(a) && Spelled(b) && Sharing.Begins(a.wire, b.wire)
    ensures a.name == b.name
  {
    var first: seq<string> :| AllGood(first) && Holds(a.wire, 12, EncodeLabels(first) + [0]) && a.name == JoinAll(first);
    var second: seq<string> :| AllGood(second) && Holds(b.wire, 12, EncodeLabels(second) + [0]) && b.name == JoinAll(second);
    BeginningHolds(a.wire, b.wire, EncodeLabels(first) + [0]);
    LabelsAreRead(b.wire, 12, 12, first);
    LabelsAreRead(b.wire, 12, 12, second);
  }

  /** The codec's own queries spell out the normalized name. */
  lemma EncodedQueriesAreSpelled(q: Question, id: Word16)
    requires ByteName(Names.Normalize(q.name)) && EncodeQuery(q, id).Ok?
    ensures Spelled(Service.Query(EncodeQuery(q, id).value, id, false, 1, Names.Normalize(q.name)))
  {
    var name := Names.Normalize(q.name);
    var w := EncodeQuery(q, id).value;
    SplitBytes(name);
    PartHolds(Header(id, 1, 0, 0, 0), EncodeLabels(Split(name)) + [0], Octets16(q.kind) + Octets16(q.classCode));
    JoinOfSplit(name);
  }

  lemma PartHolds(header: Bytes, part: Bytes, rest: Bytes)
    ensures Holds(header + (part + rest), |header|, part)
  {
  }

  /** So all waiters agree with their exchange in every run of queries that spell out their names, whatever the groups are called. */
  lemma SpelledQueriesAgree(config: Service.Config, trace: seq<Service.Service>, events: seq<Runs.Event>, n: nat)
    requires Runs.IsRun(config, trace, events) && n < |trace|
    requires forall i :: 0 <= i < |events| && events[i].Asks? ==> Spelled(events[i].query)
    ensures Sharing.AllAgree(trace[n])
  {
    forall i, j | 0 <= i < |events| && 0 <= j < |events| ensures Sharing.SameName(events[i], events[j]) {
      if events[i].Asks? && events[j].Asks? && Sharing.Begins(events[i].query.wire, events[j].query.wire) {
        SpelledNamesAreFixed(events[i].query, events[j].query);
      }
    }
    Sharing.NamedQueriesAgree(config, trace, events, n);
  }
}
