/**
 * What each event of a run of the query service tells each request, and what it leaves
 * for later ones: the terminals are written out here, octets and codes included.
 */
module DnsQueryOutcomes {
  import opened Core
  import opened CacheKey
  import opened DnsQueryServiceSpec
  import opened DnsQueryRuns
  import opened PolicyRouting
  import DnsCache
  import Names

  /** The packet as a waiter gets it: the request's ID, high octet first, and the rest as it came. */
  function Copy(wire: Bytes, id: Word16): Terminal
    requires |wire| >= 2
  {
    Answer([id / 256, id % 256] + wire[2..], id)
  }

  // ----- Ends of exchanges

  /** A waiter of an exchange that ends is told what the exchange brought. */
  lemma WaiterIsTold(s: Service, o: nat, reply: Reply, now: int, r: nat)
    requires Valid(s) && o in s.ops && r in s.requests && s.requests[r] == o
    ensures r in s.asked && r in s.log && s.log[r] == [] && !s.ops[o].completed
    ensures Finish(s, o, reply, now).log[r] == [Deliver(reply, s.asked[r].id)]
    ensures r !in Finish(s, o, reply, now).requests
  {
    var waiters := s.ops[o].waiters;
    assert o in Waiting(s) && r in Ids(Waiting(s)[o]);
    ResponseIdOf(waiters, r);
    var w := Waiter(r, ResponseId(waiters, r));
    assert w in Waiting(s)[o];
    assert Shares(w, Keyed(s)[o], s.config, s.asked);
  }

  lemma WaitersWait(s: Service, o: nat, r: nat)
    requires Parked(Waiting(s), s.requests) && o in s.ops && !s.ops[o].completed
    ensures r in Ids(s.ops[o].waiters) <==> r in s.requests && s.requests[r] == o
  {
    assert o in Waiting(s) && Waiting(s)[o] == s.ops[o].waiters;
  }

  /** Nobody else is told anything by it. */
  lemma OthersAreNotTold(s: Service, o: nat, reply: Reply, now: int, r: nat)
    requires Valid(s) && o in s.ops && r in s.log && !(r in s.requests && s.requests[r] == o)
    ensures r in Finish(s, o, reply, now).log && Finish(s, o, reply, now).log[r] == s.log[r]
    ensures r in s.requests <==> r in Finish(s, o, reply, now).requests
  {
    if !s.ops[o].completed {
      WaitersWait(s, o, r);
    }
  }

  /**
   * In every run, a packet that an exchange brings reaches each of the requests that wait
   * for it, whatever its response code, under the request's own ID and otherwise octet for
   * octet; one without room for an ID is a framing error to each. Who does not wait for
   * that exchange is told nothing.
   */
  lemma PacketReachesWaiters(config: Config, trace: seq<Service>, events: seq<Event>, k: nat, o: nat, packet: DnsCache.Response, now: int, r: nat)
    requires IsRun(config, trace, events) && k < |events| && events[k] == Finishes(o, Received(packet), now) && r in trace[k].log
    ensures r in trace[k + 1].log
    ensures if r in trace[k].requests && trace[k].requests[r] == o then
              && r in trace[k].asked && trace[k].log[r] == []
              && trace[k + 1].log[r] == [if |packet.wire| < 2 then Failure(ProtocolFraming) else Copy(packet.wire, trace[k].asked[r].id)]
            else trace[k + 1].log[r] == trace[k].log[r]
  {
    RunsAreValid(config, trace, events, k);
    assert Follows(trace, events, k + 1);
    if r in trace[k].requests && trace[k].requests[r] == o {
      WaiterIsTold(trace[k], o, Received(packet), now, r);
    } else {
      OthersAreNotTold(trace[k], o, Received(packet), now, r);
    }
  }

  /** An exchange that fails fails each of its waiters, with the same error, and nobody else. */
  lemma FailureReachesWaiters(config: Config, trace: seq<Service>, events: seq<Event>, k: nat, o: nat, error: ErrorCode, now: int, r: nat)
    requires IsRun(config, trace, events) && k < |events| && events[k] == Finishes(o, Lost(error), now) && r in trace[k].log
    ensures r in trace[k + 1].log
    ensures if r in trace[k].requests && trace[k].requests[r] == o
            then trace[k].log[r] == [] && trace[k + 1].log[r] == [Failure(error)]
            else trace[k + 1].log[r] == trace[k].log[r]
  {
    RunsAreValid(config, trace, events, k);
    assert Follows(trace, events, k + 1);
    if r in trace[k].requests && trace[k].requests[r] == o {
      WaiterIsTold(trace[k], o, Lost(error), now, r);
    } else {
      OthersAreNotTold(trace[k], o, Lost(error), now, r);
    }
  }

  // ----- Cancellation

  lemma CancelLog(s: Service, request: nat)
    requires request in s.requests ==> s.requests[request] in s.ops && request in s.log
    ensures request in s.requests ==> Cancel(s, request).requests == s.requests - {request}
    ensures request in s.requests ==> Cancel(s, request).log == s.log[request := s.log[request] + [Failure(Cancelled)]]
    ensures request !in s.requests ==> Cancel(s, request) == s
  {
  }

  lemma CancelledIsTold(s: Service, request: nat, r: nat)
    requires Valid(s) && r in s.log
    ensures r in Cancel(s, request).log
    ensures r == request && r in s.requests ==> Cancel(s, request).log[r] == [Failure(Cancelled)] && r !in Cancel(s, request).requests
    ensures r != request || r !in s.requests ==> Cancel(s, request).log[r] == s.log[r]
  {
    CancelKeeps(s, request);
    CancelLog(s, request);
    if r in s.requests {
      assert s.log[r] == [];
    }
  }

  lemma StoppedIsTold(s: Service, r: nat)
    requires Valid(s) && r in s.log
    ensures r in StopAll(s).log && StopAll(s).log[r] == if r in s.requests then [Failure(Cancelled)] else s.log[r]
  {
    if r in s.requests {
      assert s.log[r] == [];
    }
  }

  /** A cancellation is told to the open request that it is for, and a stop to every open request; nothing else tells one. */
  lemma CancellationIsTold(config: Config, trace: seq<Service>, events: seq<Event>, k: nat, r: nat)
    requires IsRun(config, trace, events) && k < |events| && r in trace[k].log
    requires !events[k].Asks? && !events[k].Finishes?
    ensures r in trace[k + 1].log
    ensures if r in trace[k].requests && (events[k] == Cancels(r) || events[k] == Stops)
            then trace[k].log[r] == [] && trace[k + 1].log[r] == [Failure(Cancelled)]
            else trace[k + 1].log[r] == trace[k].log[r]
    ensures trace[k + 1].cache.entries == if events[k].Clears? then map[] else trace[k].cache.entries
  {
    var s := trace[k];
    RunsAreValid(config, trace, events, k);
    assert Follows(trace, events, k + 1);
    match events[k]
    case Cancels(request) => CancelledIsTold(s, request, r);
    case Stops => StoppedIsTold(s, r);
    case _ =>
  }

  // ----- New requests

  /** A policy names the group for a name; without one there is nothing to name. */
  ghost predicate PolicyNames(config: Config, name: string, group: Bytes) {
    config.router.Some? && group == SelectGroup(config.router.value, Names.Normalize(name))
  }

  /** The groups that stand for the default group unless one of that name is configured. */
  ghost predicate StandsForDefault(group: Bytes) {
    || group == []
    || group == [0x64, 0x65, 0x66, 0x61, 0x75, 0x6c, 0x74]
    || group == [0x24, 0x64, 0x65, 0x66, 0x61, 0x75, 0x6c, 0x74]
    || group == [0x73, 0x79, 0x73, 0x74, 0x65, 0x6d]
  }

  /** A query that is neither looked up nor sent, and the reason. */
  ghost predicate Refused(s: Service, q: Query, error: ErrorCode) {
    if s.stopped then error == Cancelled
    else if q.response || q.questions != 1 || |q.wire| < 12 then error == ProtocolFraming
    else error == Configuration && exists group :: PolicyNames(s.config, q.name, group) && group !in s.config.groups && !StandsForDefault(group)
  }

  /** A query that is looked up. */
  ghost predicate Accepted(s: Service, q: Query) {
    && !s.stopped && !q.response && q.questions == 1 && |q.wire| >= 12
    && forall group :: PolicyNames(s.config, q.name, group) ==> group in s.config.groups || StandsForDefault(group)
  }

  lemma ObjectionIsRefusal(s: Service, q: Query)
    ensures forall error :: Refused(s, q, error) <==> Objection(s, q) == Some(error)
    ensures Accepted(s, q) <==> Objection(s, q) == None
    ensures Accepted(s, q) ==> RouteOf(s.config, q.name).Ok?
  {
    assert DEFAULT[1..] == [0x64, 0x65, 0x66, 0x61, 0x75, 0x6c, 0x74];
    if s.config.router.Some? {
      assert PolicyNames(s.config, q.name, SelectGroup(s.config.router.value, Names.Normalize(q.name)));
    }
  }

  /** A query goes to the group that the policy names, if it is configured, and otherwise to the default group. */
  lemma RouteIsNamed(config: Config, name: string)
    requires RouteOf(config, name).Ok?
    ensures var route := RouteOf(config, name).value;
      && (forall group :: PolicyNames(config, name, group) && group in config.groups ==> route == Route(NamedGroup(group), group))
      && ((forall group :: PolicyNames(config, name, group) ==> group !in config.groups) ==>
            route == Route(DefaultGroup, [0x24, 0x64, 0x65, 0x66, 0x61, 0x75, 0x6c, 0x74]))
  {
    if config.router.Some? {
      assert PolicyNames(config, name, SelectGroup(config.router.value, Names.Normalize(name)));
    }
  }

  lemma LookTellsOneself(s: Service, request: nat, r: nat)
    requires request in s.asked && request in s.log && r in s.log && r != request
    ensures r in Look(s, request).log && Look(s, request).log[r] == s.log[r]
  {
  }

  lemma AskTellsOneself(s: Service, request: nat, q: Query, now: int, r: nat)
    requires r in s.log && r != request
    ensures r in Ask(s, request, q, now).log && Ask(s, request, q, now).log[r] == s.log[r]
  {
    if Objection(s, q).None? {
      LookTellsOneself(Register(s, request, Described(s, q)).(clock := now), request, r);
    }
  }

  /** A new request tells nobody else anything. */
  lemma AskersAloneAreTold(config: Config, trace: seq<Service>, events: seq<Event>, k: nat, q: Query, now: int, request: nat, r: nat)
    requires IsRun(config, trace, events) && k < |events| && events[k] == Asks(request, q, now) && r in trace[k].log
    ensures r != request && r in trace[k + 1].log && trace[k + 1].log[r] == trace[k].log[r]
  {
    RunsAreValid(config, trace, events, k);
    assert Follows(trace, events, k + 1);
    assert trace[k].log.Keys == trace[k].asked.Keys;
    AskTellsOneself(trace[k], request, q, now, r);
  }

  lemma RefusedAsks(s: Service, request: nat, q: Query, now: int, error: ErrorCode)
    requires Objection(s, q) == Some(error)
    ensures var t := Ask(s, request, q, now);
      && request in t.log && t.log[request] == [Failure(error)]
      && t.requests == s.requests && t.ops == s.ops && t.cache == s.cache
  {
  }

  /** A request that is refused is told why, at once, and leaves everything else as it is. */
  lemma RefusedIsTold(config: Config, trace: seq<Service>, events: seq<Event>, k: nat, r: nat, q: Query, now: int, error: ErrorCode)
    requires IsRun(config, trace, events) && k < |events| && events[k] == Asks(r, q, now) && Refused(trace[k], q, error)
    ensures r in trace[k + 1].log && trace[k + 1].log[r] == [Failure(error)] && r !in trace[k + 1].requests
    ensures trace[k + 1].ops == trace[k].ops && trace[k + 1].cache == trace[k].cache
  {
    RunsAreValid(config, trace, events, k);
    assert Follows(trace, events, k + 1);
    ObjectionIsRefusal(trace[k], q);
    RefusedAsks(trace[k], r, q, now, error);
    assert trace[k].log.Keys == trace[k].asked.Keys;
  }

  /** The key of a query, for the group that it goes to. */
  function KeyFor(config: Config, q: Query): Bytes
    requires RouteOf(config, q.name).Ok?
  {
    Key(q.wire, RouteOf(config, q.name).value.group, config.generation)
  }

  lemma AcceptedIsLookedUp(s: Service, request: nat, q: Query, now: int)
    requires Objection(s, q).None? && RouteOf(s.config, q.name).Ok?
    ensures var t := Register(s, request, Asked(q.wire, q.id, RouteOf(s.config, q.name).value)).(clock := now);
      request in t.asked && request in t.log && t.log[request] == [] && Ask(s, request, q, now) == Look(t, request)
    ensures var t := Register(s, request, Asked(q.wire, q.id, RouteOf(s.config, q.name).value)).(clock := now);
      KeyOf(t, t.asked[request]) == KeyFor(s.config, q)
  {
  }

  /** A request for which the cache has a live answer is told that answer, at once, under its own ID. */
  lemma LiveEntryIsTold(config: Config, trace: seq<Service>, events: seq<Event>, k: nat, r: nat, q: Query, now: int)
    requires IsRun(config, trace, events) && k < |events| && events[k] == Asks(r, q, now)
    requires Accepted(trace[k], q)
    ensures RouteOf(config, q.name).Ok?
    ensures var key := KeyFor(config, q);
      key in trace[k].cache.entries && trace[k].cache.entries[key].expires > now ==>
        var wire := trace[k].cache.entries[key].packet.wire;
        && r in trace[k + 1].log && r !in trace[k + 1].requests && trace[k + 1].ops == trace[k].ops
        && trace[k + 1].cache.entries == trace[k].cache.entries
        && trace[k + 1].log[r] == [if |wire| < 2 then Failure(ProtocolFraming) else Copy(wire, q.id)]
  {
    RunsAreValid(config, trace, events, k);
    assert Follows(trace, events, k + 1);
    ObjectionIsRefusal(trace[k], q);
    AcceptedIsLookedUp(trace[k], r, q, now);
  }

  /** The exchange that a new request waits for. */
  function ExchangeFor(s: Service, key: Bytes): nat {
    if key in s.inFlight then s.inFlight[key] else s.nextOp
  }

  lemma JoinWaits(s: Service, request: nat, key: Bytes)
    requires Registered(s, request)
    ensures var t, o, a := Join(s, request, key), ExchangeFor(s, key), s.asked[request];
      && t.log == s.log && request in t.requests && t.requests[request] == o && o in t.ops
      && (key in s.inFlight ==> o in s.ops && t.ops == s.ops[o := s.ops[o].(waiters := s.ops[o].waiters + [Waiter(request, a.id)])])
      && (key !in s.inFlight ==> t.ops == s.ops[o := Operation(key, a.wire, a.route, [Waiter(request, a.id)], false)])
  {
    if key in s.inFlight {
      assert s.inFlight[key] in Keyed(s);
    }
  }

  /** The request waits for the exchange in flight for its key, which goes on as it was, or for a new one that sends its own query where it is routed. */
  ghost predicate Waits(s: Service, t: Service, r: nat, q: Query, key: Bytes, route: Route) {
    var o := ExchangeFor(s, key);
    && r in t.log && t.log[r] == [] && r in t.requests && t.requests[r] == o
    && (key in s.inFlight ==> o in s.ops && t.ops == s.ops[o := s.ops[o].(waiters := s.ops[o].waiters + [Waiter(r, q.id)])])
    && (key !in s.inFlight ==> t.ops == s.ops[o := Operation(key, q.wire, route, [Waiter(r, q.id)], false)])
  }

  lemma LookWaits(s: Service, r: nat, q: Query, key: Bytes, route: Route)
    requires Registered(s, r) && s.asked[r] == Asked(q.wire, q.id, route) && key == KeyOf(s, s.asked[r]) && !Hit(s, key)
    ensures Waits(s, Look(s, r), r, q, key, route) && Look(s, r).cache.entries == s.cache.entries - {key}
  {
    ForgetFresh(s, r, key);
    JoinWaits(s.(cache := DnsCache.Forget(s.cache, key)), r, key);
  }

  lemma AskWaits(s: Service, r: nat, q: Query, now: int, key: Bytes)
    requires Valid(s) && r !in s.asked && now >= s.clock && Objection(s, q).None? && RouteOf(s.config, q.name).Ok?
    requires key == KeyFor(s.config, q) && !Hit(s.(clock := now), key)
    ensures Waits(s, Ask(s, r, q, now), r, q, key, RouteOf(s.config, q.name).value)
    ensures Ask(s, r, q, now).cache.entries == s.cache.entries - {key}
  {
    var route := RouteOf(s.config, q.name).value;
    var t := Register(s, r, Asked(q.wire, q.id, route)).(clock := now);
    RegisterKeeps(s, r, Asked(q.wire, q.id, route), now);
    AcceptedIsLookedUp(s, r, q, now);
    LookWaits(t, r, q, key, route);
  }

  /** Any other request waits: for the exchange that is in flight for its key, or for one of its own. */
  lemma NewRequestWaits(config: Config, trace: seq<Service>, events: seq<Event>, k: nat, r: nat, q: Query, now: int)
    requires IsRun(config, trace, events) && k < |events| && events[k] == Asks(r, q, now) && Accepted(trace[k], q)
    ensures RouteOf(config, q.name).Ok?
    ensures var key := KeyFor(config, q);
      !(key in trace[k].cache.entries && trace[k].cache.entries[key].expires > now) ==>
        && Waits(trace[k], trace[k + 1], r, q, key, RouteOf(config, q.name).value)
        && trace[k + 1].cache.entries == trace[k].cache.entries - {key}
  {
    var s := trace[k];
    RunsAreValid(config, trace, events, k);
    assert Follows(trace, events, k + 1);
    ObjectionIsRefusal(s, q);
    var key := KeyFor(config, q);
    if !(key in s.cache.entries && s.cache.entries[key].expires > now) {
      AskWaits(s, r, q, now, key);
    }
  }

  // ----- What a reply leaves in the cache

  /** The other entries are as they were; none of them is lost while there is room or the key is known. */
  ghost predicate OthersStay(before: map<Bytes, DnsCache.Entry>, after: map<Bytes, DnsCache.Entry>, capacity: nat, key: Bytes) {
    && (forall other :: other in after && other != key ==> other in before && after[other] == before[other])
    && (|before| < capacity || key in before ==> forall other :: other in before ==> other in after)
  }

  lemma StoreSpares(c: DnsCache.Cache, capacity: nat, key: Bytes, packet: DnsCache.Response, expires: int)
    requires DnsCache.Valid(c) && 0 < capacity && |c.lru| <= capacity
    ensures OthersStay(c.entries, DnsCache.Store(c, capacity, key, packet, expires).entries, capacity, key)
  {
    DnsCache.SameSize(c);
    DnsCache.ForgetKeeps(c, key);
    DnsCache.KeepKeeps(DnsCache.Forget(c, key), capacity - 1);
    forall other | other in c.entries && other != key && (|c.entries| < capacity || key in c.entries)
      ensures other in DnsCache.Store(c, capacity, key, packet, expires).entries
    {
      DnsCache.StoreCosts(c, capacity, key, packet, expires, other);
    }
  }

  lemma StoredIsNewest(c: DnsCache.Cache, capacity: nat, key: Bytes, packet: DnsCache.Response, expires: int)
    requires capacity > 0
    ensures var d := DnsCache.Store(c, capacity, key, packet, expires);
      key in d.entries && d.entries[key].packet == packet && d.entries[key].expires == expires
  {
  }

  /**
   * A packet with a lifetime is kept under the key of its exchange until exactly that
   * lifetime has passed, if the cache keeps anything; without a lifetime, or when the
   * exchange fails, the cache stays as it is.
   */
  lemma ReplyIsKept(config: Config, trace: seq<Service>, events: seq<Event>, k: nat, o: nat, reply: Reply, now: int)
    requires IsRun(config, trace, events) && k < |events| && events[k] == Finishes(o, reply, now)
    ensures o in trace[k].ops
    ensures reply.Received? && !trace[k].ops[o].completed && config.capacity > 0 && DnsCache.CacheTtl(reply.packet, config.negativeTtl).Some? ==>
      var key, entries := trace[k].ops[o].key, trace[k + 1].cache.entries;
      && key in entries && entries[key].packet == reply.packet
      && entries[key].expires == now + DnsCache.CacheTtl(reply.packet, config.negativeTtl).value
      && OthersStay(trace[k].cache.entries, entries, config.capacity, key)
    ensures trace[k].ops[o].completed || reply.Lost? || DnsCache.CacheTtl(reply.packet, config.negativeTtl).None? ==>
      trace[k + 1].cache == trace[k].cache
  {
    RunsAreValid(config, trace, events, k);
    assert Follows(trace, events, k + 1);
    if reply.Received? && config.capacity > 0 && DnsCache.CacheTtl(reply.packet, config.negativeTtl).Some? {
      StoredIsNewest(trace[k].cache, config.capacity, trace[k].ops[o].key, reply.packet,
                     now + DnsCache.CacheTtl(reply.packet, config.negativeTtl).value);
      StoreSpares(trace[k].cache, config.capacity, trace[k].ops[o].key, reply.packet,
                  now + DnsCache.CacheTtl(reply.packet, config.negativeTtl).value);
    }
  }

  /** Whoever asks for the same next, before the lifetime has passed, is answered without an exchange. */
  lemma RepliesServeTheNext(config: Config, trace: seq<Service>, events: seq<Event>, k: nat, o: nat, packet: DnsCache.Response, arrived: int, r: nat, q: Query, now: int)
    requires IsRun(config, trace, events) && k + 1 < |events|
    requires events[k] == Finishes(o, Received(packet), arrived) && events[k + 1] == Asks(r, q, now)
    requires config.capacity > 0 && DnsCache.CacheTtl(packet, config.negativeTtl).Some? && o in trace[k].ops && !trace[k].ops[o].completed
    requires now < arrived + DnsCache.CacheTtl(packet, config.negativeTtl).value
    requires Accepted(trace[k + 1], q)
    ensures RouteOf(config, q.name).Ok?
    ensures KeyFor(config, q) == trace[k].ops[o].key ==>
      r in trace[k + 2].log && trace[k + 2].log[r] == [if |packet.wire| < 2 then Failure(ProtocolFraming) else Copy(packet.wire, q.id)]
  {
    ReplyIsKept(config, trace, events, k, o, Received(packet), arrived);
    LiveEntryIsTold(config, trace, events, k + 1, r, q, now);
  }
}
