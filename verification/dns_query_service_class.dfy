/** The query service itself. An operation is the record kept under its number. */
module DnsQueryServices {
  import opened Core
  import opened CacheKey
  import opened DnsCache
  import opened Spec = DnsQueryServiceSpec
  import PolicyRouting
  import Names

  lemma ToldNothing(log: map<nat, seq<Terminal>>, reply: Reply)
    ensures Told(log, [], reply) == log
  {
  }

  lemma ToldOneMore(log: map<nat, seq<Terminal>>, waiters: seq<Waiter>, i: nat, reply: Reply)
    requires i < |waiters| && Distinct(Requests(waiters)) && waiters[i].request in log
    ensures var told, w := Told(log, waiters[..i], reply), waiters[i];
      w.request in told && Told(log, waiters[..i + 1], reply) == told[w.request := told[w.request] + [Deliver(reply, w.responseId)]]
  {
    var before, after, w := waiters[..i], waiters[..i + 1], waiters[i];
    assert after == before + [w];
    assert Ids(after) == Ids(before) + {w.request};
    assert Requests(waiters)[i] == w.request && forall j :: 0 <= j < i ==> Requests(waiters)[j] == before[j].request;
    forall r | r in Ids(after) ensures ResponseId(after, r) == if r in Ids(before) then ResponseId(before, r) else w.responseId {
      IndexOfPrefix(before, w, r);
    }
  }

  lemma IndexOfPrefix(before: seq<Waiter>, w: Waiter, r: nat)
    requires w.request !in Ids(before) && (r in Ids(before) || r == w.request)
    ensures ResponseId(before + [w], r) == if r in Ids(before) then ResponseId(before, r) else w.responseId
  {
    var all, some := Requests(before + [w]), Requests(before);
    var i, k := IndexOf(all, r), IndexOf(some, r);
    assert forall j :: 0 <= j < |before| ==> all[j] == some[j] && before[j] in before;
    assert all[|before|] == w.request;
    if r in Ids(before) {
      var v :| v in before && v.request == r;
      var j :| 0 <= j < |before| && before[j] == v;
      assert some[j] == r && all[k] == r && i <= k;
      assert some[i] == r;
    }
  }

  lemma LiveFacts(s: Service, o: nat)
    requires Flights(s.inFlight, Keyed(s)) && Parked(Waiting(s), s.requests) && Logged(s.log, s.asked, s.requests)
    requires o in s.ops && !s.ops[o].completed
    ensures s.ops[o].key in s.inFlight && s.inFlight[s.ops[o].key] == o
    ensures Distinct(Requests(s.ops[o].waiters)) && Ids(s.ops[o].waiters) <= s.log.Keys
  {
    assert Waiting(s)[o] == s.ops[o].waiters && o in Keyed(s);
    assert forall w :: w in s.ops[o].waiters ==> w.request in s.requests;
  }

  function Marked(s: Service, o: nat): Service
    requires o in s.ops
  {
    s.(ops := s.ops[o := s.ops[o].(completed := true)])
  }

  lemma MarkedComplete(s: Service, o: nat, reply: Reply)
    requires o in s.ops
    ensures Spec.Complete(Marked(s, o), o, reply) == Spec.Complete(s, o, reply)
  {
  }

  lemma CompleteEmpty(s: Service, o: nat, error: ErrorCode)
    requires o in s.ops && s.ops[o].waiters == []
    ensures Spec.Complete(s, o, Lost(error)) ==
      s.(ops := s.ops[o := s.ops[o].(completed := true)], inFlight := s.inFlight - {s.ops[o].key})
  {
    ToldNothing(s.log, Lost(error));
  }

  lemma FirstRequest(waiters: seq<Waiter>, request: nat, i: nat)
    requires i <= |waiters| && (forall j :: 0 <= j < i ==> waiters[j].request != request)
    requires i < |waiters| ==> waiters[i].request == request
    ensures IndexOf(Requests(waiters), request) == i
    ensures request in Ids(waiters) <==> i < |waiters|
  {
    assert i < |waiters| ==> Requests(waiters)[i] == request;
    assert forall j :: 0 <= j < i ==> Requests(waiters)[j] != request;
    assert i < |waiters| ==> waiters[i] in waiters;
  }

  lemma RequestFacts(s: Service, request: nat)
    requires Parked(Waiting(s), s.requests) && Logged(s.log, s.asked, s.requests) && request in s.requests
    ensures var o := s.requests[request]; o in s.ops && !s.ops[o].completed && request in Ids(s.ops[o].waiters)
    ensures request in s.log
  {
    assert s.requests[request] in Waiting(s);
  }

  function Detached(s: Service, request: nat): Service
    requires request in s.requests && s.requests[request] in s.ops && request in s.log
  {
    var o := s.requests[request];
    Post(s.(requests := s.requests - {request}, ops := s.ops[o := s.ops[o].(waiters := WithoutRequest(s.ops[o].waiters, request))]),
         request, Failure(ErrorCode.Cancelled))
  }

  lemma CancelInSteps(s: Service, request: nat)
    requires request in s.requests && s.requests[request] in s.ops && !s.ops[s.requests[request]].completed && request in s.log
    ensures var o, t := s.requests[request], Detached(s, request);
      Cancel(s, request) ==
        if t.ops[o].waiters != [] then t
        else t.(ops := t.ops[o := t.ops[o].(completed := true)], inFlight := t.inFlight - {t.ops[o].key})
  {
    var o, t := s.requests[request], Detached(s, request);
    if t.ops[o].waiters != [] {
      assert Cancel(s, request).ops == t.ops;
    } else {
      assert Cancel(s, request).ops == t.ops[o := t.ops[o].(completed := true)];
    }
  }

  /** An exchange that is cancelled makes no difference to a service that is about to cancel every one. */
  lemma StopAbsorbs(s: Service, o: nat)
    requires o in s.ops && !s.ops[o].completed
    requires Ids(s.ops[o].waiters) <= s.requests.Keys
    ensures StopAll(Spec.Complete(s, o, Lost(ErrorCode.Cancelled))) == StopAll(s)
  {
    var t := Spec.Complete(s, o, Lost(ErrorCode.Cancelled));
    assert StopAll(t).ops == StopAll(s).ops;
    assert StopAll(t).log == StopAll(s).log;
  }

  lemma StopStep(s: Service, key: Bytes)
    requires Spec.Valid(s) && key in s.inFlight
    ensures var o := s.inFlight[key];
      && o in s.ops && !s.ops[o].completed && s.ops[o].key == key
      && Distinct(Requests(s.ops[o].waiters)) && Ids(s.ops[o].waiters) <= s.log.Keys
      && Spec.Valid(Spec.Complete(s, o, Lost(ErrorCode.Cancelled)))
      && StopAll(Spec.Complete(s, o, Lost(ErrorCode.Cancelled))) == StopAll(s)
  {
    var o := s.inFlight[key];
    assert o in Keyed(s);
    LiveFacts(s, o);
    CompleteKeeps(s, o, Lost(ErrorCode.Cancelled));
    CompleteParked(Waiting(s), s.requests, o);
    StopAbsorbs(s, o);
  }

  lemma StopNothing(s: Service)
    requires Flights(s.inFlight, Keyed(s)) && Parked(Waiting(s), s.requests) && s.inFlight == map[]
    ensures StopAll(s) == s && s.requests == map[]
  {
    assert Keyed(s) == map[];
    assert forall o :: o in s.ops && !s.ops[o].completed ==> o in Keyed(s);
    assert Waiting(s) == map[];
  }

  class DnsQueryService {
    const config: Config
    var stopped: bool
    var inFlight: map<Bytes, nat>
    var ops: map<nat, Operation>
    var requests: map<nat, nat>
    var cache: map<Bytes, Entry>
    var cacheLru: seq<Node>
    var cacheSize: nat
    var nextNode: nat
    var nextOp: nat
    /** The time of the last step, what was asked, and every terminal that a handler was called with. */
    ghost var clock: int
    ghost var asked: map<nat, Asked>
    ghost var log: map<nat, seq<Terminal>>

    ghost function Cached(): Cache
      reads this
    {
      Cache(cache, cacheLru, nextNode)
    }

    ghost function Model(): Service
      reads this
    {
      Service(config, stopped, inFlight, ops, requests, Cached(), clock, nextOp, log, asked)
    }

    constructor (config: Config)
      ensures Model() == Initial(config) && Spec.Valid(Model()) && cacheSize == |cache|
    {
      this.config := config;
      stopped, inFlight, ops, requests := false, map[], map[], map[];
      cache, cacheLru, cacheSize, nextNode, nextOp := map[], [], 0, 0, 0;
      clock, asked, log := 0, map[], map[];
      new;
      InitialValid(config);
    }

    ghost method Tell(request: nat, terminal: Terminal)
      requires request in log
      modifies `log
      ensures Model() == Post(old(Model()), request, terminal)
    {
      log := log[request := log[request] + [terminal]];
    }

    /** The handler gets the packet under its own transaction ID. */
    method PostPacket(request: nat, packet: Response, responseId: Word16)
      requires request in log
      modifies `log
      ensures Model() == Post(old(Model()), request, Deliver(Received(packet), responseId))
    {
      if |packet.wire| < 2 {
        Tell(request, Failure(ProtocolFraming));
        return;
      }
      var wire := packet.wire;
      wire := wire[0 := responseId / 256];
      wire := wire[1 := responseId % 256];
      assert wire == WithId(packet.wire, responseId);
      Tell(request, Answer(wire, responseId));
    }

    /** Takes a key out of map and list, if it is there. */
    method EraseCached(key: Bytes)
      requires DnsCache.Valid(Cached())
      modifies `cache, `cacheLru
      ensures Cached() == Forget(old(Cached()), key) && DnsCache.Valid(Cached()) && key !in cache
    {
      ForgetKeeps(Cached(), key);
      if key in cache {
        cacheLru := Omit(cacheLru, cache[key].position);
        cache := cache - {key};
      }
    }

    /** Makes room for one entry: the least recently used ones go. */
    method Evict()
      requires DnsCache.Valid(Cached()) && config.capacity > 0
      modifies `cache, `cacheLru
      ensures Cached() == Keep(old(Cached()), config.capacity - 1)
    {
      SameSize(Cached());
      while |cache| >= config.capacity && cacheLru != []
        invariant DnsCache.Valid(Cached()) && |cache| == |cacheLru|
        invariant Keep(Cached(), config.capacity - 1) == Keep(old(Cached()), config.capacity - 1)
      {
        DropLastKeeps(Cached());
        cache := cache - {cacheLru[|cacheLru| - 1].key};
        cacheLru := cacheLru[..|cacheLru| - 1];
        SameSize(Cached());
      }
    }

    method StoreAnswer(key: Bytes, packet: Response, expires: int)
      requires DnsCache.Valid(Cached()) && config.capacity > 0
      modifies `cache, `cacheLru, `cacheSize, `nextNode
      ensures Model() == old(Model()).(cache := Store(old(Cached()), config.capacity, key, packet, expires)) && cacheSize == |cache|
    {
      EraseCached(key);
      Evict();
      var node := Node(nextNode, key);
      nextNode := nextNode + 1;
      cacheLru := [node] + cacheLru;
      cache := cache[key := Entry(packet, expires, node)];
      cacheSize := |cache|;
    }

    // ----- Completion of an exchange

    method Erase(waiters: seq<Waiter>)
      modifies `requests
      ensures Model() == old(Model()).(requests := old(requests) - Ids(waiters))
    {
      for i := 0 to |waiters|
        invariant requests == old(requests) - Ids(waiters[..i])
        invariant Model() == old(Model()).(requests := requests)
      {
        assert waiters[..i + 1] == waiters[..i] + [waiters[i]];
        requests := requests - {waiters[i].request};
      }
      assert waiters[..|waiters|] == waiters;
    }

    method PostAll(waiters: seq<Waiter>, reply: Reply)
      requires Distinct(Requests(waiters)) && Ids(waiters) <= log.Keys
      modifies `log
      ensures Model() == old(Model()).(log := Told(old(log), waiters, reply))
    {
      ToldNothing(log, reply);
      for i := 0 to |waiters|
        invariant Model() == old(Model()).(log := Told(old(log), waiters[..i], reply))
      {
        assert waiters[i] in waiters;
        ToldOneMore(old(log), waiters, i, reply);
        if reply.Lost? {
          Tell(waiters[i].request, Failure(reply.error));
        } else {
          PostPacket(waiters[i].request, reply.packet, waiters[i].responseId);
        }
      }
      assert waiters[..|waiters|] == waiters;
    }

    /** What may be kept of a reply goes into the cache. */
    method Remember(key: Bytes, reply: Reply, now: int)
      requires reply.Received? ==> now == clock
      requires DnsCache.Valid(Cached()) && cacheSize == |cache|
      modifies `cache, `cacheLru, `cacheSize, `nextNode
      ensures Model() == old(Model()).(cache := Learn(old(Model()), key, reply)) && cacheSize == |cache|
    {
      var ttl := None;
      if reply.Received? {
        ttl := ComputeCacheTtl(reply.packet, config.negativeTtl);
      }
      if ttl.Some? && config.capacity > 0 {
        StoreAnswer(key, reply.packet, now + ttl.value);
      }
    }

    /** What `Complete` finds, besides the mark that the operation has completed. */
    ghost predicate Completable(o: nat)
      reads this
    {
      && o in ops && ops[o].key in inFlight && inFlight[ops[o].key] == o
      && Distinct(Requests(ops[o].waiters)) && Ids(ops[o].waiters) <= log.Keys
      && DnsCache.Valid(Cached()) && cacheSize == |cache|
    }

    method Complete(o: nat, reply: Reply, now: int)
      requires reply.Received? ==> now == clock
      requires Completable(o) && ops[o].completed
      modifies this
      ensures Model() == Spec.Complete(old(Model()), o, reply) && cacheSize == |cache|
    {
      var key := ops[o].key;
      if key in inFlight && inFlight[key] == o {
        inFlight := inFlight - {key};
      }
      Remember(key, reply, now);
      var waiters := ops[o].waiters;
      ops := ops[o := ops[o].(waiters := [])];
      Erase(waiters);
      PostAll(waiters, reply);
    }

    method FinishOperation(o: nat, reply: Reply, now: int)
      requires Spec.Valid(Model()) && o in ops && now >= clock && cacheSize == |cache|
      modifies this
      ensures Model() == Finish(old(Model()), o, reply, now) && cacheSize == |cache|
    {
      clock := now;
      if ops[o].completed {
        return;
      }
      ghost var s := Model();
      LiveFacts(s, o);
      Mark(o);
      MarkedComplete(s, o, reply);
      Complete(o, reply, now);
    }

    method Mark(o: nat)
      requires o in ops
      modifies `ops
      ensures Model() == Marked(old(Model()), o)
    {
      ops := ops[o := ops[o].(completed := true)];
    }

    // ----- The owner's steps

    method QueryOnOwner(request: nat, q: Query, now: int)
      requires Spec.Valid(Model()) && request !in asked && now >= clock && cacheSize == |cache|
      modifies this
      ensures Model() == Ask(old(Model()), request, q, now) && cacheSize == |cache|
    {
      clock, asked, log := now, asked[request := Described(Model(), q)], log[request := []];
      if stopped {
        Tell(request, Failure(ErrorCode.Cancelled));
        return;
      }
      if q.response || q.questions != 1 || |q.wire| < 12 {
        Tell(request, Failure(ProtocolFraming));
        return;
      }
      var route := Route(DefaultGroup, DEFAULT);
      if config.router.Some? {
        var decision := PolicyRouting.Select(config.router.value, Names.Normalize(q.name));
        if decision in config.groups {
          route := Route(NamedGroup(decision), decision);
        } else if !Builtin(decision) {
          Tell(request, Failure(Configuration));
          return;
        }
      }
      LookUp(request, q, route, now);
    }

    method LookUp(request: nat, q: Query, route: Route, now: int)
      requires request in asked && asked[request] == Asked(q.wire, q.id, route) && request in log && now == clock
      requires DnsCache.Valid(Cached()) && cacheSize == |cache| && forall k :: k in inFlight ==> inFlight[k] in ops
      modifies this
      ensures Model() == Look(old(Model()), request) && cacheSize == |cache|
    {
      var key := Key(q.wire, route.group, config.generation);
      if key in cache && cache[key].expires > now {
        ServeCached(request, key, q.id);
        return;
      }
      DropExpired(key);
      WaitOrLaunch(request, key, q, route);
    }

    method DropExpired(key: Bytes)
      requires DnsCache.Valid(Cached()) && cacheSize == |cache|
      modifies `cache, `cacheLru, `cacheSize
      ensures Model() == old(Model()).(cache := Forget(old(Cached()), key)) && cacheSize == |cache|
    {
      if key in cache {
        EraseCached(key);
        cacheSize := |cache|;
      }
    }

    method ServeCached(request: nat, key: Bytes, id: Word16)
      requires request in asked && asked[request].id == id && request in log && key in cache
      modifies `cacheLru, `log
      ensures Model() == Serve(old(Model()), request, key)
    {
      cacheLru := [cache[key].position] + Omit(cacheLru, cache[key].position);
      PostPacket(request, cache[key].packet, id);
    }

    method WaitOrLaunch(request: nat, key: Bytes, q: Query, route: Route)
      requires request in asked && asked[request] == Asked(q.wire, q.id, route)
      requires forall k :: k in inFlight ==> inFlight[k] in ops
      modifies `ops, `inFlight, `requests, `nextOp
      ensures Model() == Join(old(Model()), request, key)
    {
      if key in inFlight {
        var o := inFlight[key];
        ops := ops[o := ops[o].(waiters := ops[o].waiters + [Waiter(request, q.id)])];
        requests := requests[request := o];
        return;
      }
      var o := nextOp;
      nextOp := nextOp + 1;
      ops := ops[o := Operation(key, q.wire, route, [Waiter(request, q.id)], false)];
      inFlight := inFlight[key := o];
      requests := requests[request := o];
    }

    /** Takes the first waiter with the request's number out of the operation. */
    method RemoveWaiter(o: nat, request: nat) returns (found: bool)
      requires o in ops
      modifies `ops
      ensures found == (request in Ids(old(ops[o].waiters)))
      ensures ops == old(ops)[o := old(ops[o]).(waiters := WithoutRequest(old(ops[o].waiters), request))]
    {
      var waiters := ops[o].waiters;
      var i := 0;
      while i < |waiters| && waiters[i].request != request
        invariant i <= |waiters| && forall j :: 0 <= j < i ==> waiters[j].request != request
      {
        i := i + 1;
      }
      FirstRequest(waiters, request, i);
      if i == |waiters| {
        return false;
      }
      ops := ops[o := ops[o].(waiters := waiters[..i] + waiters[i + 1..])];
      return true;
    }

    /** Nothing happens to an operation that has completed. */
    method CancelShared(o: nat)
      requires o in ops && !ops[o].completed ==> Completable(o)
      requires o in ops && cacheSize == |cache|
      modifies this
      ensures cacheSize == |cache|
      ensures Model() == if old(ops[o].completed) then old(Model()) else Spec.Complete(old(Model()), o, Lost(ErrorCode.Cancelled))
    {
      if ops[o].completed {
        return;
      }
      ghost var s := Model();
      Mark(o);
      MarkedComplete(s, o, Lost(ErrorCode.Cancelled));
      Complete(o, Lost(ErrorCode.Cancelled), 0);
    }

    method CancelOnOwner(request: nat)
      requires Spec.Valid(Model()) && cacheSize == |cache|
      modifies this
      ensures Model() == Cancel(old(Model()), request) && cacheSize == |cache|
    {
      if request !in requests {
        return;
      }
      var o := requests[request];
      RequestFacts(Model(), request);
      LiveFacts(Model(), o);
      CancelInSteps(Model(), request);
      var found := Detach(o, request);
      if found && ops[o].waiters == [] {
        CancelEmptied(o);
      }
    }

    method Detach(o: nat, request: nat) returns (found: bool)
      requires request in requests && requests[request] == o && o in ops && request in Ids(ops[o].waiters) && request in log
      requires Completable(o)
      modifies `requests, `ops, `log
      ensures found && Model() == Detached(old(Model()), request)
      ensures Completable(o) && ops[o].waiters == WithoutRequest(old(ops[o].waiters), request)
    {
      WithoutRequestIds(ops[o].waiters, request);
      requests := requests - {request};
      found := RemoveWaiter(o, request);
      if !found {
        return;
      }
      Tell(request, Failure(ErrorCode.Cancelled));
    }

    /** The last waiter has left. */
    method CancelEmptied(o: nat)
      requires Completable(o) && !ops[o].completed && ops[o].waiters == []
      modifies this
      ensures Model() == old(Model()).(ops := old(ops)[o := old(ops)[o].(completed := true)], inFlight := old(inFlight) - {old(ops)[o].key})
      ensures cacheSize == |cache|
    {
      CompleteEmpty(Model(), o, ErrorCode.Cancelled);
      CancelShared(o);
    }

    method StopOnOwner()
      requires Spec.Valid(Model()) && cacheSize == |cache|
      modifies this
      ensures Model() == StopAll(old(Model())) && cacheSize == |cache|
    {
      while inFlight != map[]
        invariant Spec.Valid(Model()) && cacheSize == |cache|
        invariant StopAll(Model()) == StopAll(old(Model()))
        decreases |inFlight|
      {
        CancelFirst();
      }
      StopNothing(Model());
      requests := map[];
    }

    method CancelFirst()
      requires Spec.Valid(Model()) && cacheSize == |cache| && inFlight != map[]
      modifies this
      ensures Spec.Valid(Model()) && cacheSize == |cache| && |inFlight| < old(|inFlight|)
      ensures StopAll(Model()) == StopAll(old(Model()))
    {
      var key :| key in inFlight;
      StopStep(Model(), key);
      ghost var t := Spec.Complete(Model(), inFlight[key], Lost(ErrorCode.Cancelled));
      CancelInFlight(key);
      assert Model() == t;
    }

    method CancelInFlight(key: Bytes)
      requires key in inFlight && inFlight[key] in ops && !ops[inFlight[key]].completed && Completable(inFlight[key])
      requires ops[inFlight[key]].key == key
      modifies this
      ensures Model() == Spec.Complete(old(Model()), old(inFlight)[key], Lost(ErrorCode.Cancelled)) && cacheSize == |cache|
      ensures inFlight == old(inFlight) - {key}
    {
      CancelShared(inFlight[key]);
    }

    method ClearCache()
      modifies `cache, `cacheLru, `cacheSize
      ensures Model() == Clear(old(Model())) && cacheSize == |cache|
    {
      cache, cacheLru, cacheSize := map[], [], 0;
    }
  }
}
