/**
 * The query service (`DnsQueryService`, src/dns/dns_query_service.cpp) as a function
 * of its state: one step for every stretch of code that the owner's strand runs, and
 * a log of the terminals that the requests' handlers receive.
 */
module DnsQueryServiceSpec {
  import opened Core
  import opened CacheKey
  import opened DnsCache
  import opened PolicyRouting
  import Names

  /** The group that serves queries without a policy, or a configured group. */
  datatype Target = DefaultGroup | NamedGroup(name: Bytes)

  /** `name` is that of the first question, if there is one; wire and questions are handed in side by side. */
  datatype Query = Query(wire: Bytes, id: Word16, response: bool, questions: nat, name: string)

  datatype Reply = Received(packet: Response) | Lost(error: ErrorCode)

  datatype Terminal = Answer(wire: Bytes, id: Word16) | Failure(error: ErrorCode)

  /** What a request asked for, and where its query goes. */
  datatype Asked = Asked(wire: Bytes, id: Word16, route: Route)

  datatype Route = Route(target: Target, group: Bytes)

  datatype Waiter = Waiter(request: nat, responseId: Word16)

  /** One exchange with a group, shared by its waiters. */
  datatype Operation = Operation(key: Bytes, wire: Bytes, route: Route, waiters: seq<Waiter>, completed: bool)

  datatype Config = Config(groups: set<Bytes>, router: Option<Router>, generation: nat, capacity: nat, negativeTtl: int)

  datatype Service = Service(
    config: Config, stopped: bool, inFlight: map<Bytes, nat>, ops: map<nat, Operation>, requests: map<nat, nat>,
    cache: Cache, clock: int, nextOp: nat, log: map<nat, seq<Terminal>>, asked: map<nat, Asked>)

  function Initial(config: Config): Service {
    Service(config, false, map[], map[], map[], Empty(0), 0, 0, map[], map[])
  }

  /** "$default" */
  const DEFAULT: Bytes := [0x24, 0x64, 0x65, 0x66, 0x61, 0x75, 0x6c, 0x74]
  /** "system" */
  const SYSTEM: Bytes := [0x73, 0x79, 0x73, 0x74, 0x65, 0x6d]

  predicate Builtin(group: Bytes) {
    group == [] || group == DEFAULT[1..] || group == DEFAULT || group == SYSTEM
  }

  /** Where a policy's decision sends a query; without a policy there is no decision. */
  function Select(groups: set<Bytes>, decision: Option<Bytes>): Result<Route> {
    if decision.None? then Ok(Route(DefaultGroup, DEFAULT))
    else if decision.value in groups then Ok(Route(NamedGroup(decision.value), decision.value))
    else if Builtin(decision.value) then Ok(Route(DefaultGroup, DEFAULT))
    else Err(Configuration)
  }

  /** Where a query for this name goes. */
  function RouteOf(config: Config, name: string): Result<Route> {
    Select(config.groups, if config.router.None? then None else Some(SelectGroup(config.router.value, Names.Normalize(name))))
  }

  /** What a waiter receives of a shared reply. */
  function Deliver(reply: Reply, id: Word16): Terminal {
    match reply
    case Lost(error) => Failure(error)
    case Received(packet) => if |packet.wire| < 2 then Failure(ProtocolFraming) else Answer(WithId(packet.wire, id), id)
  }

  // ----- Waiters

  function Requests(waiters: seq<Waiter>): (r: seq<nat>)
    ensures |r| == |waiters| && forall i :: 0 <= i < |waiters| ==> r[i] == waiters[i].request
  {
    seq(|waiters|, i requires 0 <= i < |waiters| => waiters[i].request)
  }

  function WithoutRequest(waiters: seq<Waiter>, request: nat): seq<Waiter> {
    var i := IndexOf(Requests(waiters), request);
    if i == |waiters| then waiters else waiters[..i] + waiters[i + 1..]
  }

  function Ids(waiters: seq<Waiter>): set<nat> {
    set w | w in waiters :: w.request
  }

  /** The transaction ID under which a waiter asked. */
  function ResponseId(waiters: seq<Waiter>, request: nat): Word16 {
    var i := IndexOf(Requests(waiters), request);
    if i == |waiters| then 0 else waiters[i].responseId
  }

  // ----- Steps

  function Post(s: Service, request: nat, terminal: Terminal): Service
    requires request in s.log
  {
    s.(log := s.log[request := s.log[request] + [terminal]])
  }

  function Register(s: Service, request: nat, asked: Asked): Service {
    s.(asked := s.asked[request := asked], log := s.log[request := []])
  }

  /** A query that is not looked up: why, if there is a reason. */
  function Objection(s: Service, q: Query): Option<ErrorCode> {
    if s.stopped then Some(Cancelled)
    else if q.response || q.questions != 1 || |q.wire| < 12 then Some(ProtocolFraming)
    else match RouteOf(s.config, q.name)
      case Err(error) => Some(error)
      case Ok(_) => None
  }

  function Described(s: Service, q: Query): Asked {
    match RouteOf(s.config, q.name)
    case Err(_) => Asked(q.wire, q.id, Route(DefaultGroup, DEFAULT))
    case Ok(route) => Asked(q.wire, q.id, route)
  }

  /** `query_on_owner` at time `now`. */
  function Ask(s: Service, request: nat, q: Query, now: int): Service {
    var t := Register(s, request, Described(s, q)).(clock := now);
    match Objection(s, q)
    case Some(error) => Post(t, request, Failure(error))
    case None => Look(t, request)
  }

  function KeyOf(s: Service, asked: Asked): Bytes {
    Key(asked.wire, asked.route.group, s.config.generation)
  }

  predicate Hit(s: Service, key: Bytes) {
    key in s.cache.entries && s.cache.entries[key].expires > s.clock
  }

  function Look(s: Service, request: nat): Service
    requires request in s.asked && request in s.log
  {
    var key := KeyOf(s, s.asked[request]);
    if Hit(s, key) then Serve(s, request, key)
    else Join(s.(cache := Forget(s.cache, key)), request, key)
  }

  function Serve(s: Service, request: nat, key: Bytes): Service
    requires key in s.cache.entries && request in s.asked && request in s.log
  {
    Post(s.(cache := Touch(s.cache, key)), request, Deliver(Received(s.cache.entries[key].packet), s.asked[request].id))
  }

  /** The query waits for the exchange that is in flight for its key, or starts one. */
  function Join(s: Service, request: nat, key: Bytes): Service
    requires request in s.asked
  {
    var a := s.asked[request];
    if key in s.inFlight && s.inFlight[key] in s.ops then
      var o := s.inFlight[key];
      s.(ops := s.ops[o := s.ops[o].(waiters := s.ops[o].waiters + [Waiter(request, a.id)])], requests := s.requests[request := o])
    else
      s.(ops := s.ops[s.nextOp := Operation(key, a.wire, a.route, [Waiter(request, a.id)], false)],
         inFlight := s.inFlight[key := s.nextOp], requests := s.requests[request := s.nextOp], nextOp := s.nextOp + 1)
  }

  /** `cancel_on_owner`: the last waiter takes the exchange with it. */
  function Cancel(s: Service, request: nat): Service {
    if request !in s.requests || s.requests[request] !in s.ops || request !in s.log then s
    else
      var o := s.requests[request];
      var left := WithoutRequest(s.ops[o].waiters, request);
      var t := Post(s.(requests := s.requests - {request}, ops := s.ops[o := s.ops[o].(waiters := left, completed := left == [])]),
                    request, Failure(ErrorCode.Cancelled));
      if left == [] then t.(inFlight := t.inFlight - {s.ops[o].key}) else t
  }

  function Lifetime(reply: Reply, negativeTtl: int): Option<int> {
    if reply.Lost? then None else CacheTtl(reply.packet, negativeTtl)
  }

  function Learn(s: Service, key: Bytes, reply: Reply): Cache {
    var ttl := Lifetime(reply, s.config.negativeTtl);
    if ttl.None? then s.cache
    else Store(s.cache, s.config.capacity, key, reply.packet, s.clock + ttl.value)
  }

  function Told(log: map<nat, seq<Terminal>>, waiters: seq<Waiter>, reply: Reply): map<nat, seq<Terminal>> {
    map r | r in log :: if r in Ids(waiters) then log[r] + [Deliver(reply, ResponseId(waiters, r))] else log[r]
  }

  /** `complete`: the reply is cached if it may be, and every waiter gets its copy. */
  function Complete(s: Service, o: nat, reply: Reply): Service
    requires o in s.ops
  {
    var op := s.ops[o];
    s.(ops := s.ops[o := op.(waiters := [], completed := true)], inFlight := s.inFlight - {op.key},
       requests := s.requests - Ids(op.waiters), cache := Learn(s, op.key, reply), log := Told(s.log, op.waiters, reply))
  }

  /** `Operation::finish`: a terminal that comes after completion is dropped. */
  function Finish(s: Service, o: nat, reply: Reply, now: int): Service
    requires o in s.ops
  {
    var t := s.(clock := now);
    if t.ops[o].completed then t else Complete(t, o, reply)
  }

  function RequestStop(s: Service): Service {
    s.(stopped := true)
  }

  /** `stop_on_owner`: every exchange is cancelled. */
  function StopAll(s: Service): Service {
    s.(ops := map o | o in s.ops :: if s.ops[o].completed then s.ops[o] else s.ops[o].(waiters := [], completed := true),
       inFlight := map[], requests := map[],
       log := map r | r in s.log :: if r in s.requests then s.log[r] + [Failure(ErrorCode.Cancelled)] else s.log[r])
  }

  function Clear(s: Service): Service {
    s.(cache := Empty(s.cache.next))
  }

  // ----- What every step keeps, as predicates over projections of the state

  /** The exchanges that have not completed, with their waiters. */
  function Waiting(s: Service): map<nat, seq<Waiter>> {
    map o | o in s.ops && !s.ops[o].completed :: s.ops[o].waiters
  }

  function Keyed(s: Service): map<nat, Bytes> {
    map o | o in s.ops && !s.ops[o].completed :: s.ops[o].key
  }

  /** In flight, under its key, is exactly what has not completed. */
  ghost predicate Flights(inFlight: map<Bytes, nat>, keyed: map<nat, Bytes>) {
    && (forall k :: k in inFlight ==> inFlight[k] in keyed && keyed[inFlight[k]] == k)
    && (forall o :: o in keyed ==> keyed[o] in inFlight && inFlight[keyed[o]] == o)
  }

  /** The open requests are the disjoint union of the waiters, and no exchange is without a waiter. */
  ghost predicate Parked(waiting: map<nat, seq<Waiter>>, requests: map<nat, nat>) {
    && (forall o :: o in waiting ==> waiting[o] != [] && Distinct(Requests(waiting[o])))
    && (forall o, w :: o in waiting && w in waiting[o] ==> w.request in requests && requests[w.request] == o)
    && (forall r :: r in requests ==> requests[r] in waiting && r in Ids(waiting[requests[r]]))
  }

  /** What may be delivered for a question: a failure, or an answer under the question's own transaction ID. */
  predicate Fits(t: Terminal, id: Word16) {
    t.Answer? ==> t.id == id && |t.wire| >= 2 && t.wire[0] as int * 256 + t.wire[1] == id
  }

  /** No terminal for an open request, and exactly one for every other. */
  ghost predicate Logged(log: map<nat, seq<Terminal>>, asked: map<nat, Asked>, requests: map<nat, nat>) {
    && log.Keys == asked.Keys && requests.Keys <= asked.Keys
    && (forall r :: r in log && r in requests ==> log[r] == [])
    && (forall r :: r in log && r !in requests ==> |log[r]| == 1 && Fits(log[r][0], asked[r].id))
  }

  predicate Routed(groups: set<Bytes>, route: Route) {
    match route.target
    case DefaultGroup => route.group == DEFAULT
    case NamedGroup(name) => route.group == name && name in groups
  }

  /** A waiter asked under its own ID for what its exchange's key stands for. */
  predicate Shares(w: Waiter, key: Bytes, config: Config, asked: map<nat, Asked>) {
    && w.request in asked && asked[w.request].id == w.responseId && |asked[w.request].wire| >= 12
    && Routed(config.groups, asked[w.request].route)
    && Key(asked[w.request].wire, asked[w.request].route.group, config.generation) == key
  }

  ghost predicate Shared(waiting: map<nat, seq<Waiter>>, keyed: map<nat, Bytes>, config: Config, asked: map<nat, Asked>) {
    waiting.Keys == keyed.Keys && forall o, w :: o in waiting && w in waiting[o] ==> Shares(w, keyed[o], config, asked)
  }

  /** What is sent for an exchange is what its key stands for. */
  ghost predicate Sent(ops: map<nat, Operation>, config: Config, next: nat) {
    forall o :: o in ops ==>
      && o < next && |ops[o].wire| >= 12 && Routed(config.groups, ops[o].route)
      && ops[o].key == Key(ops[o].wire, ops[o].route.group, config.generation)
  }

  /** No entry outlives the lifetime of its answer. */
  ghost predicate Fresh(entries: map<Bytes, Entry>, clock: int, negativeTtl: int) {
    forall k :: k in entries ==>
      var ttl := CacheTtl(entries[k].packet, negativeTtl);
      ttl.Some? && entries[k].expires <= clock + ttl.value
  }

  ghost predicate Kept(c: Cache, config: Config, clock: int) {
    DnsCache.Valid(c) && |c.lru| <= config.capacity && Fresh(c.entries, clock, config.negativeTtl)
  }

  ghost predicate Valid(s: Service) {
    && Flights(s.inFlight, Keyed(s))
    && Parked(Waiting(s), s.requests)
    && Logged(s.log, s.asked, s.requests)
    && Shared(Waiting(s), Keyed(s), s.config, s.asked)
    && Sent(s.ops, s.config, s.nextOp)
    && Kept(s.cache, s.config, s.clock)
  }

  lemma InitialValid(config: Config)
    ensures Valid(Initial(config))
  {
  }

  // ----- Asking

  lemma WithIdFits(wire: Bytes, id: Word16)
    requires |wire| >= 2
    ensures WithId(wire, id)[0] as int * 256 + WithId(wire, id)[1] == id
  {
  }

  lemma DeliverFits(reply: Reply, id: Word16)
    ensures Fits(Deliver(reply, id), id)
  {
    if reply.Received? && |reply.packet.wire| >= 2 {
      WithIdFits(reply.packet.wire, id);
    }
  }

  lemma SelectRoutes(config: Config, name: string)
    ensures RouteOf(config, name).Ok? ==> Routed(config.groups, RouteOf(config, name).value)
  {
  }

  /** A request that is answered without waiting. */
  lemma AnsweredLogged(log: map<nat, seq<Terminal>>, asked: map<nat, Asked>, requests: map<nat, nat>, r: nat, a: Asked, t: Terminal)
    requires Logged(log, asked, requests) && r !in asked && Fits(t, a.id)
    ensures Logged(log[r := [t]], asked[r := a], requests)
  {
  }

  lemma WaitingLogged(log: map<nat, seq<Terminal>>, asked: map<nat, Asked>, requests: map<nat, nat>, r: nat, a: Asked, o: nat)
    requires Logged(log, asked, requests) && r !in asked
    ensures Logged(log[r := []], asked[r := a], requests[r := o])
  {
  }

  lemma StillShared(waiting: map<nat, seq<Waiter>>, keyed: map<nat, Bytes>, config: Config, asked: map<nat, Asked>, r: nat, a: Asked)
    requires Shared(waiting, keyed, config, asked) && r !in asked
    ensures Shared(waiting, keyed, config, asked[r := a])
  {
  }

  lemma JoinParked(waiting: map<nat, seq<Waiter>>, requests: map<nat, nat>, o: nat, w: Waiter)
    requires Parked(waiting, requests) && o in waiting && w.request !in requests
    ensures Parked(waiting[o := waiting[o] + [w]], requests[w.request := o])
  {
    var ws := waiting[o] + [w];
    assert Requests(ws) == Requests(waiting[o]) + [w.request];
    assert forall i :: 0 <= i < |waiting[o]| ==> waiting[o][i] in waiting[o] && waiting[o][i].request != w.request;
    assert w in ws && Ids(ws) == Ids(waiting[o]) + {w.request};
  }

  lemma LaunchParked(waiting: map<nat, seq<Waiter>>, requests: map<nat, nat>, o: nat, w: Waiter)
    requires Parked(waiting, requests) && o !in waiting && w.request !in requests
    ensures Parked(waiting[o := [w]], requests[w.request := o])
  {
    assert w in [w] && Ids([w]) == {w.request};
  }

  /** The parts of the invariant that a request without a terminal does not break. */
  ghost predicate Registered(s: Service, request: nat) {
    && Flights(s.inFlight, Keyed(s))
    && Parked(Waiting(s), s.requests)
    && request in s.asked && request in s.log && request !in s.requests && s.log[request] == []
    && Logged(s.log[request := [Failure(ErrorCode.Cancelled)]], s.asked, s.requests)
    && Shared(Waiting(s), Keyed(s), s.config, s.asked)
    && Sent(s.ops, s.config, s.nextOp)
    && Kept(s.cache, s.config, s.clock)
  }

  lemma RegisterKeeps(s: Service, request: nat, a: Asked, now: int)
    requires Valid(s) && request !in s.asked && now >= s.clock
    ensures Registered(Register(s, request, a).(clock := now), request)
  {
    var t := Register(s, request, a).(clock := now);
    StillShared(Waiting(s), Keyed(s), s.config, s.asked, request, a);
    AnsweredLogged(s.log, s.asked, s.requests, request, a, Failure(ErrorCode.Cancelled));
    assert t.log[request := [Failure(ErrorCode.Cancelled)]] == s.log[request := [Failure(ErrorCode.Cancelled)]];
  }

  lemma PostKeeps(s: Service, request: nat, t: Terminal)
    requires Registered(s, request) && Fits(t, s.asked[request].id)
    ensures Valid(Post(s, request, t))
  {
    assert s.log[request] + [t] == [t];
  }

  lemma ServeKeeps(s: Service, request: nat, key: Bytes)
    requires Registered(s, request) && key in s.cache.entries
    ensures Valid(Serve(s, request, key))
  {
    TouchKeeps(s.cache, key);
    OmitMembers(s.cache.lru, s.cache.entries[key].position);
    DeliverFits(Received(s.cache.entries[key].packet), s.asked[request].id);
    PostKeeps(s.(cache := Touch(s.cache, key)), request, Deliver(Received(s.cache.entries[key].packet), s.asked[request].id));
  }

  // What the predicates keep when one exchange changes.

  lemma FlightsWith(inFlight: map<Bytes, nat>, keyed: map<nat, Bytes>, o: nat, key: Bytes)
    requires Flights(inFlight, keyed) && o !in keyed && key !in inFlight
    ensures Flights(inFlight[key := o], keyed[o := key])
  {
  }

  lemma FlightsWithout(inFlight: map<Bytes, nat>, keyed: map<nat, Bytes>, o: nat)
    requires Flights(inFlight, keyed) && o in keyed
    ensures Flights(inFlight - {keyed[o]}, keyed - {o})
  {
  }

  lemma SharedWith(waiting: map<nat, seq<Waiter>>, keyed: map<nat, Bytes>, config: Config, asked: map<nat, Asked>, o: nat, w: Waiter, key: Bytes)
    requires Shared(waiting, keyed, config, asked) && Shares(w, key, config, asked)
    ensures Shared(waiting[o := [w]], keyed[o := key], config, asked)
    ensures o in waiting && keyed[o] == key ==> Shared(waiting[o := waiting[o] + [w]], keyed, config, asked)
  {
  }

  lemma SharedWithout(waiting: map<nat, seq<Waiter>>, keyed: map<nat, Bytes>, config: Config, asked: map<nat, Asked>, o: nat, left: seq<Waiter>)
    requires Shared(waiting, keyed, config, asked) && o in waiting && forall w :: w in left ==> w in waiting[o]
    ensures Shared(waiting - {o}, keyed - {o}, config, asked) && Shared(waiting[o := left], keyed, config, asked)
  {
  }

  lemma SentSame(ops: map<nat, Operation>, config: Config, next: nat, o: nat, waiters: seq<Waiter>, completed: bool)
    requires Sent(ops, config, next) && o in ops
    ensures Sent(ops[o := ops[o].(waiters := waiters, completed := completed)], config, next)
  {
  }

  lemma SentWith(ops: map<nat, Operation>, config: Config, next: nat, op: Operation)
    requires Sent(ops, config, next) && |op.wire| >= 12 && Routed(config.groups, op.route)
    requires op.key == Key(op.wire, op.route.group, config.generation)
    ensures Sent(ops[next := op], config, next + 1) && next !in ops
  {
  }

  function SetWaiters(s: Service, o: nat, waiters: seq<Waiter>, completed: bool): Service
    requires o in s.ops
  {
    s.(ops := s.ops[o := s.ops[o].(waiters := waiters, completed := completed)])
  }

  lemma SetProjections(s: Service, o: nat, waiters: seq<Waiter>)
    requires o in s.ops && !s.ops[o].completed
    ensures o in Waiting(s) && Waiting(s)[o] == s.ops[o].waiters && o in Keyed(s) && Keyed(s)[o] == s.ops[o].key
    ensures Waiting(SetWaiters(s, o, waiters, false)) == Waiting(s)[o := waiters] && Keyed(SetWaiters(s, o, waiters, false)) == Keyed(s)
    ensures Waiting(SetWaiters(s, o, waiters, true)) == Waiting(s) - {o} && Keyed(SetWaiters(s, o, waiters, true)) == Keyed(s) - {o}
  {
  }

  lemma NewProjections(s: Service, op: Operation)
    requires s.nextOp !in s.ops && !op.completed
    ensures var t := s.(ops := s.ops[s.nextOp := op]);
      Waiting(t) == Waiting(s)[s.nextOp := op.waiters] && Keyed(t) == Keyed(s)[s.nextOp := op.key]
    ensures s.nextOp !in Waiting(s) && s.nextOp !in Keyed(s)
  {
  }

  lemma RequestLogged(log: map<nat, seq<Terminal>>, asked: map<nat, Asked>, requests: map<nat, nat>, r: nat, o: nat)
    requires r in log && r !in requests && log[r] == [] && Logged(log[r := [Failure(ErrorCode.Cancelled)]], asked, requests)
    ensures Logged(log, asked, requests[r := o])
  {
  }

  /** The request waits for an exchange that stands for the same key. */
  lemma WaitKeeps(s: Service, request: nat, o: nat, w: Waiter)
    requires Registered(s, request) && o in s.ops && !s.ops[o].completed
    requires w.request == request && Shares(w, s.ops[o].key, s.config, s.asked)
    ensures Valid(SetWaiters(s, o, s.ops[o].waiters + [w], false).(requests := s.requests[request := o]))
  {
    SetProjections(s, o, s.ops[o].waiters + [w]);
    JoinParked(Waiting(s), s.requests, o, w);
    SharedWith(Waiting(s), Keyed(s), s.config, s.asked, o, w, s.ops[o].key);
    SentSame(s.ops, s.config, s.nextOp, o, s.ops[o].waiters + [w], false);
    RequestLogged(s.log, s.asked, s.requests, request, o);
  }

  lemma LaunchKeeps(s: Service, request: nat, op: Operation, w: Waiter)
    requires Registered(s, request) && op.key !in s.inFlight && op.waiters == [w] && !op.completed
    requires w.request == request && Shares(w, op.key, s.config, s.asked)
    requires |op.wire| >= 12 && Routed(s.config.groups, op.route) && op.key == Key(op.wire, op.route.group, s.config.generation)
    ensures Valid(s.(ops := s.ops[s.nextOp := op], inFlight := s.inFlight[op.key := s.nextOp],
                     requests := s.requests[request := s.nextOp], nextOp := s.nextOp + 1))
  {
    SentWith(s.ops, s.config, s.nextOp, op);
    NewProjections(s, op);
    FlightsWith(s.inFlight, Keyed(s), s.nextOp, op.key);
    LaunchParked(Waiting(s), s.requests, s.nextOp, w);
    SharedWith(Waiting(s), Keyed(s), s.config, s.asked, s.nextOp, w, op.key);
    RequestLogged(s.log, s.asked, s.requests, request, s.nextOp);
  }

  lemma JoinKeeps(s: Service, request: nat)
    requires Registered(s, request) && |s.asked[request].wire| >= 12 && Routed(s.config.groups, s.asked[request].route)
    ensures Valid(Join(s, request, KeyOf(s, s.asked[request])))
  {
    var a, key := s.asked[request], KeyOf(s, s.asked[request]);
    var w := Waiter(request, a.id);
    if key in s.inFlight {
      assert s.inFlight[key] in Keyed(s);
      WaitKeeps(s, request, s.inFlight[key], w);
    } else {
      LaunchKeeps(s, request, Operation(key, a.wire, a.route, [w], false), w);
    }
  }

  lemma ForgetFresh(s: Service, request: nat, key: Bytes)
    requires Registered(s, request)
    ensures Registered(s.(cache := Forget(s.cache, key)), request)
  {
    ForgetKeeps(s.cache, key);
  }

  lemma LookKeeps(s: Service, request: nat)
    requires Registered(s, request) && |s.asked[request].wire| >= 12 && Routed(s.config.groups, s.asked[request].route)
    ensures Valid(Look(s, request))
  {
    var key := KeyOf(s, s.asked[request]);
    if Hit(s, key) {
      ServeKeeps(s, request, key);
    } else {
      ForgetFresh(s, request, key);
      JoinKeeps(s.(cache := Forget(s.cache, key)), request);
    }
  }

  lemma AskKeeps(s: Service, request: nat, q: Query, now: int)
    requires Valid(s) && request !in s.asked && now >= s.clock
    ensures Valid(Ask(s, request, q, now))
  {
    var a := Described(s, q);
    RegisterKeeps(s, request, a, now);
    SelectRoutes(s.config, q.name);
    match Objection(s, q)
    case Some(error) => PostKeeps(Register(s, request, a).(clock := now), request, Failure(error));
    case None => LookKeeps(Register(s, request, a).(clock := now), request);
  }

  // ----- Ends of requests

  lemma WithoutRequestIds(waiters: seq<Waiter>, request: nat)
    requires Distinct(Requests(waiters))
    ensures var left := WithoutRequest(waiters, request);
      Distinct(Requests(left)) && Ids(left) == Ids(waiters) - {request} && forall w :: w in left ==> w in waiters
  {
    var i := IndexOf(Requests(waiters), request);
    if i < |waiters| {
      WithoutIndex(waiters, i);
    }
  }

  lemma WithoutIndex(waiters: seq<Waiter>, i: nat)
    requires Distinct(Requests(waiters)) && i < |waiters|
    ensures var left := waiters[..i] + waiters[i + 1..];
      Distinct(Requests(left)) && Ids(left) == Ids(waiters) - {waiters[i].request} && forall w :: w in left ==> w in waiters
  {
    var left := waiters[..i] + waiters[i + 1..];
    assert forall k :: 0 <= k < |left| ==> left[k] == waiters[if k < i then k else k + 1];
    DistinctWithout(waiters, i, left);
    forall w | w in waiters ensures w in left || w.request == waiters[i].request {
      var k :| 0 <= k < |waiters| && waiters[k] == w;
      assert k < i ==> left[k] == w;
      assert k > i ==> left[k - 1] == w;
    }
    forall w | w in left ensures w.request != waiters[i].request {
      var k :| 0 <= k < |left| && left[k] == w;
      assert Requests(waiters)[if k < i then k else k + 1] == w.request;
    }
  }

  lemma DistinctWithout(waiters: seq<Waiter>, i: nat, left: seq<Waiter>)
    requires Distinct(Requests(waiters)) && i < |waiters| && |left| == |waiters| - 1
    requires forall k :: 0 <= k < |left| ==> left[k] == waiters[if k < i then k else k + 1]
    ensures Distinct(Requests(left))
  {
    assert forall k :: 0 <= k < |left| ==> Requests(left)[k] == Requests(waiters)[if k < i then k else k + 1];
  }

  lemma LeaveParked(waiting: map<nat, seq<Waiter>>, requests: map<nat, nat>, r: nat)
    requires Parked(waiting, requests) && r in requests
    ensures var o := requests[r]; var left := WithoutRequest(waiting[o], r);
      Parked(if left == [] then waiting - {o} else waiting[o := left], requests - {r})
  {
    var o := requests[r];
    var left := WithoutRequest(waiting[o], r);
    WithoutRequestIds(waiting[o], r);
    forall q | q in requests && q != r && requests[q] == o ensures q in Ids(left) {
      assert q in Ids(waiting[o]);
    }
  }

  lemma EndLogged(log: map<nat, seq<Terminal>>, asked: map<nat, Asked>, requests: map<nat, nat>, r: nat, t: Terminal)
    requires Logged(log, asked, requests) && r in requests && Fits(t, asked[r].id)
    ensures Logged(log[r := log[r] + [t]], asked, requests - {r})
  {
  }

  lemma CancelKeeps(s: Service, request: nat)
    requires Valid(s)
    ensures request in s.requests ==> s.requests[request] in s.ops && request in s.log
    ensures Valid(Cancel(s, request))
  {
    if request in s.requests {
      var o := s.requests[request];
      assert o in Waiting(s);
      var left := WithoutRequest(s.ops[o].waiters, request);
      SetProjections(s, o, left);
      LeaveParked(Waiting(s), s.requests, request);
      EndLogged(s.log, s.asked, s.requests, request, Failure(ErrorCode.Cancelled));
      WithoutRequestIds(Waiting(s)[o], request);
      SharedWithout(Waiting(s), Keyed(s), s.config, s.asked, o, left);
      FlightsWithout(s.inFlight, Keyed(s), o);
      SentSame(s.ops, s.config, s.nextOp, o, left, left == []);
    }
  }

  lemma CompleteParked(waiting: map<nat, seq<Waiter>>, requests: map<nat, nat>, o: nat)
    requires Parked(waiting, requests) && o in waiting
    ensures Parked(waiting - {o}, requests - Ids(waiting[o]))
    ensures Ids(waiting[o]) <= requests.Keys
  {
  }

  lemma ResponseIdOf(waiters: seq<Waiter>, r: nat)
    requires r in Ids(waiters)
    ensures Waiter(r, ResponseId(waiters, r)) in waiters
  {
    var i := IndexOf(Requests(waiters), r);
    var w :| w in waiters && w.request == r;
    var k :| 0 <= k < |waiters| && waiters[k] == w;
    assert Requests(waiters)[k] == r;
    assert waiters[i] == Waiter(r, ResponseId(waiters, r));
  }

  lemma ToldLogged(log: map<nat, seq<Terminal>>, asked: map<nat, Asked>, requests: map<nat, nat>, waiters: seq<Waiter>, reply: Reply)
    requires Logged(log, asked, requests) && Ids(waiters) <= requests.Keys
    requires forall w :: w in waiters ==> w.request in asked && asked[w.request].id == w.responseId
    ensures Logged(Told(log, waiters, reply), asked, requests - Ids(waiters))
  {
    forall r | r in Ids(waiters) ensures ResponseId(waiters, r) == asked[r].id && Fits(Deliver(reply, ResponseId(waiters, r)), asked[r].id) {
      ResponseIdOf(waiters, r);
      DeliverFits(reply, ResponseId(waiters, r));
    }
  }

  lemma StoreFresh(c: Cache, capacity: nat, key: Bytes, packet: Response, expires: int, clock: int, negativeTtl: int)
    requires DnsCache.Valid(c) && Fresh(c.entries, clock, negativeTtl) && CacheTtl(packet, negativeTtl).Some?
    requires expires == clock + CacheTtl(packet, negativeTtl).value
    ensures Fresh(Store(c, capacity, key, packet, expires).entries, clock, negativeTtl)
  {
    if capacity > 0 {
      var d := Forget(c, key);
      ForgetKeeps(c, key);
      KeepKeeps(d, capacity - 1);
      assert forall k :: k in d.entries ==> k in c.entries && d.entries[k] == c.entries[k];
    }
  }

  lemma LearnKeeps(s: Service, key: Bytes, reply: Reply)
    requires Kept(s.cache, s.config, s.clock)
    ensures Kept(Learn(s, key, reply), s.config, s.clock)
  {
    var ttl := Lifetime(reply, s.config.negativeTtl);
    if ttl.Some? {
      LearnedKeeps(s.cache, s.config, key, reply.packet, s.clock + ttl.value, s.clock);
    }
  }

  lemma LearnedKeeps(c: Cache, config: Config, key: Bytes, packet: Response, expires: int, clock: int)
    requires Kept(c, config, clock)
    requires CacheTtl(packet, config.negativeTtl).Some? && expires == clock + CacheTtl(packet, config.negativeTtl).value
    ensures Kept(Store(c, config.capacity, key, packet, expires), config, clock)
  {
    StoreKeeps(c, config.capacity, key, packet, expires);
    StoreFresh(c, config.capacity, key, packet, expires, clock, config.negativeTtl);
  }

  lemma CompleteLogged(s: Service, o: nat, reply: Reply)
    requires Logged(s.log, s.asked, s.requests) && Shared(Waiting(s), Keyed(s), s.config, s.asked)
    requires o in Waiting(s) && Ids(s.ops[o].waiters) <= s.requests.Keys
    ensures Logged(Told(s.log, s.ops[o].waiters, reply), s.asked, s.requests - Ids(s.ops[o].waiters))
  {
    forall w | w in s.ops[o].waiters ensures w.request in s.asked && s.asked[w.request].id == w.responseId {
      assert w in Waiting(s)[o];
      assert Shares(w, Keyed(s)[o], s.config, s.asked);
    }
    ToldLogged(s.log, s.asked, s.requests, s.ops[o].waiters, reply);
  }

  lemma CompleteKeeps(s: Service, o: nat, reply: Reply)
    requires Valid(s) && o in s.ops && !s.ops[o].completed
    ensures Valid(Complete(s, o, reply))
  {
    SetProjections(s, o, []);
    CompleteParked(Waiting(s), s.requests, o);
    CompleteLogged(s, o, reply);
    LearnKeeps(s, s.ops[o].key, reply);
    SharedWithout(Waiting(s), Keyed(s), s.config, s.asked, o, []);
    FlightsWithout(s.inFlight, Keyed(s), o);
    SentSame(s.ops, s.config, s.nextOp, o, [], true);
  }

  lemma FinishKeeps(s: Service, o: nat, reply: Reply, now: int)
    requires Valid(s) && o in s.ops && now >= s.clock
    ensures Valid(Finish(s, o, reply, now))
  {
    var t := s.(clock := now);
    assert Valid(t);
    if !t.ops[o].completed {
      CompleteKeeps(t, o, reply);
    }
  }

  lemma StopProjections(s: Service)
    ensures Waiting(StopAll(s)) == map[] && Keyed(StopAll(s)) == map[]
  {
  }

  lemma StopLogged(s: Service)
    requires Logged(s.log, s.asked, s.requests)
    ensures Logged(StopAll(s).log, s.asked, map[])
  {
  }

  lemma StopSent(s: Service)
    requires Sent(s.ops, s.config, s.nextOp)
    ensures Sent(StopAll(s).ops, s.config, s.nextOp)
  {
  }

  lemma StopKeeps(s: Service)
    requires Valid(s)
    ensures Valid(StopAll(s)) && StopAll(s).requests == map[]
  {
    StopProjections(s);
    StopLogged(s);
    StopSent(s);
  }

  lemma ClearKeeps(s: Service)
    requires Valid(s)
    ensures Valid(Clear(s))
  {
  }
}
