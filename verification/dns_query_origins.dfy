/** Where answers come from: every one that a request is told goes back to one reply to an exchange for the same query. */
module DnsQueryOrigins {
  import opened Core
  import opened CacheKey
  import opened DnsQueryServiceSpec
  import opened DnsQueryRuns
  import DnsCache

  /** Event `k` is the first end of an exchange under this key, and brings this packet. */
  ghost predicate Came(trace: seq<Service>, events: seq<Event>, k: nat, key: Bytes, packet: DnsCache.Response) {
    && k < |events| && k < |trace| && events[k].Finishes? && events[k].reply == Received(packet)
    && events[k].operation in trace[k].ops && !trace[k].ops[events[k].operation].completed
    && trace[k].ops[events[k].operation].key == key
  }

  /** What is kept of the packet that came with event `k`, and how long. */
  ghost predicate KeptSince(config: Config, trace: seq<Service>, events: seq<Event>, k: nat, key: Bytes, packet: DnsCache.Response, expires: int) {
    && Came(trace, events, k, key, packet)
    && DnsCache.CacheTtl(packet, config.negativeTtl).Some?
    && expires == events[k].now + DnsCache.CacheTtl(packet, config.negativeTtl).value
  }

  ghost predicate CacheIsFounded(config: Config, trace: seq<Service>, events: seq<Event>, n: nat)
    requires n < |trace|
  {
    forall key :: key in trace[n].cache.entries ==>
      exists k: nat :: k < n && KeptSince(config, trace, events, k, key, trace[n].cache.entries[key].packet, trace[n].cache.entries[key].expires)
  }

  // ----- The cache

  lemma StoredEntries(c: DnsCache.Cache, capacity: nat, key: Bytes, packet: DnsCache.Response, expires: int, k: Bytes)
    requires DnsCache.Valid(c) && k in DnsCache.Store(c, capacity, key, packet, expires).entries
    ensures var e := DnsCache.Store(c, capacity, key, packet, expires).entries[k];
      || (k in c.entries && c.entries[k].packet == e.packet && c.entries[k].expires == e.expires)
      || (k == key && e.packet == packet && e.expires == expires)
  {
    if capacity > 0 {
      DnsCache.ForgetKeeps(c, key);
      DnsCache.KeepKeeps(DnsCache.Forget(c, key), capacity - 1);
    }
  }

  lemma LearnedEntries(s: Service, key: Bytes, reply: Reply, k: Bytes)
    requires DnsCache.Valid(s.cache) && k in Learn(s, key, reply).entries
    ensures var e := Learn(s, key, reply).entries[k];
      || (k in s.cache.entries && s.cache.entries[k].packet == e.packet && s.cache.entries[k].expires == e.expires)
      || (k == key && reply == Received(e.packet) && Lifetime(reply, s.config.negativeTtl).Some?
          && e.expires == s.clock + Lifetime(reply, s.config.negativeTtl).value)
  {
    if Lifetime(reply, s.config.negativeTtl).Some? {
      StoredEntries(s.cache, s.config.capacity, key, reply.packet, s.clock + Lifetime(reply, s.config.negativeTtl).value, k);
    }
  }

  lemma LookedUpEntries(s: Service, request: nat, k: Bytes)
    requires request in s.asked && request in s.log && k in Look(s, request).cache.entries
    ensures k in s.cache.entries && Look(s, request).cache.entries[k] == s.cache.entries[k]
  {
  }

  lemma AskedEntries(s: Service, request: nat, q: Query, now: int, k: Bytes)
    requires k in Ask(s, request, q, now).cache.entries
    ensures k in s.cache.entries && Ask(s, request, q, now).cache.entries[k] == s.cache.entries[k]
  {
    var t := Register(s, request, Described(s, q)).(clock := now);
    if Objection(s, q).None? {
      LookedUpEntries(t, request, k);
    }
  }

  lemma FinishedEntries(s: Service, o: nat, reply: Reply, now: int, k: Bytes)
    requires DnsCache.Valid(s.cache) && o in s.ops && k in Finish(s, o, reply, now).cache.entries
    ensures var e := Finish(s, o, reply, now).cache.entries[k];
      || (k in s.cache.entries && s.cache.entries[k].packet == e.packet && s.cache.entries[k].expires == e.expires)
      || (!s.ops[o].completed && k == s.ops[o].key && reply == Received(e.packet) && Lifetime(reply, s.config.negativeTtl).Some?
          && e.expires == now + Lifetime(reply, s.config.negativeTtl).value)
  {
    if !s.ops[o].completed {
      LearnedEntries(s.(clock := now), s.ops[o].key, reply, k);
    }
  }

  lemma OtherEntries(s: Service, e: Event, k: Bytes)
    requires Enabled(s, e) && !e.Asks? && !e.Finishes? && k in Step(s, e).cache.entries
    ensures k in s.cache.entries && Step(s, e).cache.entries[k] == s.cache.entries[k]
  {
  }

  lemma {:induction false} CacheFounded(config: Config, trace: seq<Service>, events: seq<Event>, n: nat)
    requires IsRun(config, trace, events) && n < |trace|
    ensures CacheIsFounded(config, trace, events, n)
    decreases n
  {
    if n > 0 {
      CacheFounded(config, trace, events, n - 1);
      RunsAreValid(config, trace, events, n - 1);
      assert Follows(trace, events, n);
      forall key | key in trace[n].cache.entries
        ensures exists k: nat :: k < n && KeptSince(config, trace, events, k, key, trace[n].cache.entries[key].packet, trace[n].cache.entries[key].expires)
      {
        EntryFounded(config, trace, events, n, key);
      }
    }
  }

  lemma EntryFounded(config: Config, trace: seq<Service>, events: seq<Event>, n: nat, key: Bytes)
    requires |trace| == |events| + 1 && 0 < n < |trace| && Follows(trace, events, n) && trace[n - 1].config == config
    requires Valid(trace[n - 1]) && CacheIsFounded(config, trace, events, n - 1) && key in trace[n].cache.entries
    ensures exists k: nat :: k < n && KeptSince(config, trace, events, k, key, trace[n].cache.entries[key].packet, trace[n].cache.entries[key].expires)
  {
    var s, e, entry := trace[n - 1], events[n - 1], trace[n].cache.entries[key];
    if e.Asks? {
      AskedEntries(s, e.request, e.query, e.now, key);
    } else if e.Finishes? {
      FinishedEntries(s, e.operation, e.reply, e.now, key);
    } else {
      OtherEntries(s, e, key);
    }
    if key in s.cache.entries && s.cache.entries[key].packet == entry.packet && s.cache.entries[key].expires == entry.expires {
      var k: nat :| k < n - 1 && KeptSince(config, trace, events, k, key, s.cache.entries[key].packet, s.cache.entries[key].expires);
    } else {
      assert KeptSince(config, trace, events, n - 1, key, entry.packet, entry.expires);
    }
  }

  /** A cached answer is the packet of an earlier reply for its key; it is served only within that packet's lifetime from then on. */
  lemma ServedWithinLifetime(config: Config, trace: seq<Service>, events: seq<Event>, n: nat, now: int, key: Bytes) returns (k: nat)
    requires IsRun(config, trace, events) && n < |trace| && Hit(trace[n].(clock := now), key)
    ensures k < n && Came(trace, events, k, key, trace[n].cache.entries[key].packet)
    ensures var ttl := DnsCache.CacheTtl(trace[n].cache.entries[key].packet, config.negativeTtl);
      ttl.Some? && now < events[k].now + ttl.value
  {
    CacheFounded(config, trace, events, n);
    k :| k < n && KeptSince(config, trace, events, k, key, trace[n].cache.entries[key].packet, trace[n].cache.entries[key].expires);
  }

  // ----- Answers

  /** The packet of event `k` under the request's own ID. */
  ghost predicate Carries(events: seq<Event>, k: nat, a: Asked, t: Terminal)
    requires k < |events| && events[k].Finishes? && events[k].reply.Received?
  {
    var packet := events[k].reply.packet;
    |packet.wire| >= 2 && t == Answer(WithId(packet.wire, a.id), a.id)
  }

  /** The request waited for the exchange that ended with event `k`. */
  ghost predicate ToldByReply(config: Config, trace: seq<Service>, events: seq<Event>, k: nat, r: nat, a: Asked, t: Terminal) {
    && k < |events| && events[k].Finishes? && events[k].reply.Received?
    && Came(trace, events, k, Key(a.wire, a.route.group, config.generation), events[k].reply.packet)
    && r in trace[k].requests && trace[k].requests[r] == events[k].operation && Carries(events, k, a, t)
  }

  /** The request came with event `m`, within the lifetime of what had come with event `k`. */
  ghost predicate ToldFromCache(config: Config, trace: seq<Service>, events: seq<Event>, k: nat, m: nat, r: nat, a: Asked, t: Terminal) {
    && k < m < |events| && events[k].Finishes? && events[k].reply.Received? && events[m].Asks? && events[m].request == r
    && Came(trace, events, k, Key(a.wire, a.route.group, config.generation), events[k].reply.packet)
    && DnsCache.CacheTtl(events[k].reply.packet, config.negativeTtl).Some?
    && events[m].now < events[k].now + DnsCache.CacheTtl(events[k].reply.packet, config.negativeTtl).value
    && Carries(events, k, a, t)
  }

  ghost predicate Founded(config: Config, trace: seq<Service>, events: seq<Event>, n: nat, r: nat, a: Asked, t: Terminal) {
    || (exists k: nat :: k < n && ToldByReply(config, trace, events, k, r, a, t))
    || (exists k: nat, m: nat :: m < n && ToldFromCache(config, trace, events, k, m, r, a, t))
  }

  ghost predicate IsAnswered(s: Service, r: nat) {
    r in s.log && s.log[r] != [] && s.log[r][0].Answer?
  }

  /** A reply tells its waiters. */
  lemma FinishAnswers(s: Service, o: nat, reply: Reply, now: int, r: nat)
    requires Valid(s) && o in s.ops && IsAnswered(Finish(s, o, reply, now), r) && !IsAnswered(s, r)
    ensures !s.ops[o].completed && reply.Received? && r in s.requests && s.requests[r] == o && r in s.asked
    ensures KeyOf(s, s.asked[r]) == s.ops[o].key && Finish(s, o, reply, now).log[r] == [Deliver(reply, s.asked[r].id)]
  {
    var waiters := s.ops[o].waiters;
    assert !s.ops[o].completed && r in Ids(waiters);
    ResponseIdOf(waiters, r);
    var w := Waiter(r, ResponseId(waiters, r));
    assert w in Waiting(s)[o];
    assert Shares(w, Keyed(s)[o], s.config, s.asked);
  }

  lemma LookAnswers(s: Service, request: nat, r: nat)
    requires request in s.asked && request in s.log && s.log[request] == [] && IsAnswered(Look(s, request), r) && !IsAnswered(s, r)
    ensures var key := KeyOf(s, s.asked[request]);
      r == request && Hit(s, key) && Look(s, request).log[r] == [Deliver(Received(s.cache.entries[key].packet), s.asked[r].id)]
  {
  }

  /** A question is answered at once only from the cache. */
  lemma AskAnswers(s: Service, request: nat, q: Query, now: int, r: nat)
    requires Valid(s) && request !in s.asked && IsAnswered(Ask(s, request, q, now), r) && !IsAnswered(s, r)
    ensures var t, a := Ask(s, request, q, now), Described(s, q);
      && r == request && r in t.asked && t.asked[r] == a && Hit(s.(clock := now), KeyOf(s, a))
      && t.log[r] == [Deliver(Received(s.cache.entries[KeyOf(s, a)].packet), a.id)]
  {
    var t := Register(s, request, Described(s, q)).(clock := now);
    assert !IsAnswered(t, r);
    if Objection(s, q).None? {
      LookAnswers(t, request, r);
    }
  }

  lemma CancelAnswers(s: Service, request: nat, r: nat)
    requires Valid(s) && IsAnswered(Cancel(s, request), r)
    ensures IsAnswered(s, r)
  {
  }

  lemma StopAnswers(s: Service, r: nat)
    requires Valid(s) && IsAnswered(StopAll(s), r)
    ensures IsAnswered(s, r)
  {
  }

  /** Request `r` asked for `a` and has been told `t`. */
  ghost predicate Tells(s: Service, r: nat, a: Asked, t: Terminal) {
    r in s.asked && s.asked[r] == a && r in s.log && s.log[r] != [] && s.log[r][0] == t
  }

  lemma ReplyFounds(config: Config, trace: seq<Service>, events: seq<Event>, k: nat, n: nat, r: nat, a: Asked, t: Terminal)
    requires k < n && ToldByReply(config, trace, events, k, r, a, t)
    ensures Founded(config, trace, events, n, r, a, t)
  {
  }

  lemma CacheFounds(config: Config, trace: seq<Service>, events: seq<Event>, k: nat, m: nat, n: nat, r: nat, a: Asked, t: Terminal)
    requires m < n && ToldFromCache(config, trace, events, k, m, r, a, t)
    ensures Founded(config, trace, events, n, r, a, t)
  {
  }

  /** The step to state `n` gives request `r` an answer. */
  ghost predicate Answering(config: Config, trace: seq<Service>, events: seq<Event>, n: nat, r: nat) {
    && |trace| == |events| + 1 && 0 < n < |trace| && Valid(trace[n - 1]) && trace[n - 1].config == config
    && IsAnswered(trace[n], r) && !IsAnswered(trace[n - 1], r)
  }

  ghost predicate Asking(s: Service, e: Event, t: Service) {
    e.Asks? && e.request !in s.asked && t == Ask(s, e.request, e.query, e.now)
  }

  ghost predicate Finishing(s: Service, e: Event, t: Service) {
    e.Finishes? && e.operation in s.ops && t == Finish(s, e.operation, e.reply, e.now)
  }

  lemma AskHits(s: Service, e: Event, t: Service, r: nat)
    requires Valid(s) && Asking(s, e, t) && IsAnswered(t, r) && !IsAnswered(s, r)
    ensures Hit(s.(clock := e.now), KeyOf(s, Described(s, e.query)))
  {
    AskAnswers(s, e.request, e.query, e.now, r);
  }

  lemma AskedIsToldFromCache(config: Config, trace: seq<Service>, events: seq<Event>, n: nat, r: nat, k: nat) returns (a: Asked, t: Terminal)
    requires Answering(config, trace, events, n, r) && Asking(trace[n - 1], events[n - 1], trace[n]) && k < n - 1
    requires var key := KeyOf(trace[n - 1], Described(trace[n - 1], events[n - 1].query));
      && key in trace[n - 1].cache.entries && Hit(trace[n - 1].(clock := events[n - 1].now), key)
      && KeptSince(config, trace, events, k, key, trace[n - 1].cache.entries[key].packet, trace[n - 1].cache.entries[key].expires)
    ensures Tells(trace[n], r, a, t) && ToldFromCache(config, trace, events, k, n - 1, r, a, t)
  {
    var s, e := trace[n - 1], events[n - 1];
    AskAnswers(s, e.request, e.query, e.now, r);
    a, t := trace[n].asked[r], trace[n].log[r][0];
  }

  /** An answer at once is founded if the cache is. */
  lemma AskedFounds(config: Config, trace: seq<Service>, events: seq<Event>, n: nat, r: nat) returns (a: Asked, t: Terminal)
    requires Answering(config, trace, events, n, r) && Asking(trace[n - 1], events[n - 1], trace[n]) && CacheIsFounded(config, trace, events, n - 1)
    ensures Tells(trace[n], r, a, t) && Founded(config, trace, events, n, r, a, t)
  {
    var s, e := trace[n - 1], events[n - 1];
    AskHits(s, e, trace[n], r);
    var key := KeyOf(s, Described(s, e.query));
    var k: nat :| k < n - 1 && KeptSince(config, trace, events, k, key, s.cache.entries[key].packet, s.cache.entries[key].expires);
    a, t := AskedIsToldFromCache(config, trace, events, n, r, k);
    CacheFounds(config, trace, events, k, n - 1, n, r, a, t);
  }

  lemma FinishedIsToldByReply(config: Config, trace: seq<Service>, events: seq<Event>, k: nat, t: Service, r: nat)
    requires k < |events| && k < |trace| && events[k].Finishes? && events[k].operation in trace[k].ops && Valid(trace[k]) && trace[k].config == config
    requires t == Finish(trace[k], events[k].operation, events[k].reply, events[k].now) && IsAnswered(t, r) && !IsAnswered(trace[k], r)
    ensures r in t.asked && ToldByReply(config, trace, events, k, r, t.asked[r], t.log[r][0])
  {
    FinishAnswers(trace[k], events[k].operation, events[k].reply, events[k].now, r);
  }

  /** An answer by a reply is founded. */
  lemma FinishedFounds(config: Config, trace: seq<Service>, events: seq<Event>, n: nat, r: nat) returns (a: Asked, t: Terminal)
    requires Answering(config, trace, events, n, r) && Finishing(trace[n - 1], events[n - 1], trace[n])
    ensures Tells(trace[n], r, a, t) && Founded(config, trace, events, n, r, a, t)
  {
    FinishedIsToldByReply(config, trace, events, n - 1, trace[n], r);
    a, t := trace[n].asked[r], trace[n].log[r][0];
    ReplyFounds(config, trace, events, n - 1, n, r, a, t);
  }

  lemma RunSteps(config: Config, trace: seq<Service>, events: seq<Event>, n: nat)
    requires IsRun(config, trace, events) && 0 < n < |trace|
    ensures Valid(trace[n - 1]) && trace[n - 1].config == config
    ensures events[n - 1].Asks? ==> Asking(trace[n - 1], events[n - 1], trace[n])
    ensures events[n - 1].Finishes? ==> Finishing(trace[n - 1], events[n - 1], trace[n])
  {
    RunsAreValid(config, trace, events, n - 1);
    assert Follows(trace, events, n);
  }

  lemma AskedAnswerFounded(config: Config, trace: seq<Service>, events: seq<Event>, n: nat, r: nat) returns (a: Asked, t: Terminal)
    requires IsRun(config, trace, events) && 0 < n < |trace| && IsAnswered(trace[n], r) && !IsAnswered(trace[n - 1], r)
    requires events[n - 1].Asks?
    ensures Tells(trace[n], r, a, t) && Founded(config, trace, events, n, r, a, t)
  {
    RunSteps(config, trace, events, n);
    CacheFounded(config, trace, events, n - 1);
    a, t := AskedFounds(config, trace, events, n, r);
  }

  lemma FinishedAnswerFounded(config: Config, trace: seq<Service>, events: seq<Event>, n: nat, r: nat) returns (a: Asked, t: Terminal)
    requires IsRun(config, trace, events) && 0 < n < |trace| && IsAnswered(trace[n], r) && !IsAnswered(trace[n - 1], r)
    requires events[n - 1].Finishes?
    ensures Tells(trace[n], r, a, t) && Founded(config, trace, events, n, r, a, t)
  {
    RunSteps(config, trace, events, n);
    a, t := FinishedFounds(config, trace, events, n, r);
  }

  lemma OtherAnswers(s: Service, e: Event, r: nat)
    requires Valid(s) && Enabled(s, e) && !e.Asks? && !e.Finishes? && IsAnswered(Step(s, e), r)
    ensures IsAnswered(s, r)
  {
    match e
    case Cancels(request) => CancelAnswers(s, request, r);
    case Stops => StopAnswers(s, r);
    case _ =>
  }

  /**
   * In every run, an answer that a request is told is, under the request's own ID, the
   * packet of a reply to an exchange for the request's own key: of the one that it waited
   * for, or of an earlier one that had not outlived its lifetime when the request came.
   */
  lemma {:induction false} AnswersAreFounded(config: Config, trace: seq<Service>, events: seq<Event>, n: nat, r: nat)
    requires IsRun(config, trace, events) && n < |trace| && IsAnswered(trace[n], r)
    ensures r in trace[n].asked && Founded(config, trace, events, n, r, trace[n].asked[r], trace[n].log[r][0])
    decreases n
  {
    if n > 0 {
      if !events[n - 1].Asks? && !events[n - 1].Finishes? {
        RunsAreValid(config, trace, events, n - 1);
        assert Follows(trace, events, n);
        OtherAnswers(trace[n - 1], events[n - 1], r);
      }
      if IsAnswered(trace[n - 1], r) {
        AnswersAreFounded(config, trace, events, n - 1, r);
        StepOfRunRemembers(config, trace, events, n);
      } else if events[n - 1].Asks? {
        var a, t := AskedAnswerFounded(config, trace, events, n, r);
      } else {
        var a, t := FinishedAnswerFounded(config, trace, events, n, r);
      }
    }
  }
}
