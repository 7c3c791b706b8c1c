/**
 * The pool of QUIC sessions behind a DNS transport (`QuicDnsTransport` and its
 * `Operation`, src/dns/quic_dns_transport.cpp) as a function of its state. An
 * `Operation` is the record kept under its session number.
 */
module QuicPoolSpec {
  import opened Core

  /** An outcome of an exchange: a decoded answer, or why there is none. */
  datatype Outcome = Answer(message: seq<Octet>) | Error(error: ErrorCode)

  /** `timers` holds the generations for which an idle timer is under way. */
  datatype Session = Session(
    exchanges: set<nat>, retired: bool, idle: bool, started: bool, opening: bool, connected: bool,
    generation: nat, timers: set<nat>)

  datatype Pool = Pool(
    sessions: map<nat, Session>, exchanges: map<nat, nat>, active: seq<nat>, idle: seq<nat>,
    nextSession: nat, stopped: bool, log: map<nat, seq<Outcome>>)

  function MaximumIdle(): nat { 4 }

  function MaximumExchanges(): nat { 64 }

  function Initial(): Pool {
    Pool(map[], map[], [], [], 0, false, map[])
  }

  function NewSession(): Session {
    Session({}, false, false, false, false, false, 0, {})
  }

  function Set(p: Pool, n: nat, s: Session): Pool {
    p.(sessions := p.sessions[n := s])
  }

  // ----- Sessions coming to rest

  function Retired(s: Session): Session {
    s.(retired := true, idle := false, generation := s.generation + 1, exchanges := {})
  }

  function Idled(s: Session): Session {
    s.(idle := true, generation := s.generation + 1, timers := s.timers + {s.generation + 1})
  }

  /** `retire_session` with `session_retired`. */
  function Retire(p: Pool, n: nat): Pool
    requires n in p.sessions
  {
    if p.sessions[n].retired then p
    else Set(p, n, Retired(p.sessions[n])).(active := Omit(p.active, n), idle := Omit(p.idle, n))
  }

  /** The session that has been idle for longest goes when there are too many. */
  function Trim(p: Pool): Pool {
    if |p.idle| > MaximumIdle() && p.idle[0] in p.sessions then Retire(p, p.idle[0]) else p
  }

  /** `enter_idle_or_retire` with `session_idle`; `ready` is what the connection says. */
  function Settle(p: Pool, n: nat, ready: bool): Pool
    requires n in p.sessions
  {
    if !p.sessions[n].connected || !ready then Retire(p, n)
    else
      var q := Set(p, n, Idled(p.sessions[n]));
      if p.stopped then Retire(q, n)
      else Trim(q.(active := Omit(p.active, n), idle := p.idle + [n]))
  }

  function SettleIfEmpty(p: Pool, n: nat, ready: bool): Pool
    requires n in p.sessions
  {
    if p.sessions[n].exchanges == {} then Settle(p, n, ready) else p
  }

  // ----- Exchanges

  function Told(log: map<nat, seq<Outcome>>, ids: set<nat>, outcome: Outcome): map<nat, seq<Outcome>> {
    map id | id in log :: if id in ids then log[id] + [outcome] else log[id]
  }

  /** Exchanges of a session end with the same outcome. */
  function Leave(p: Pool, n: nat, ids: set<nat>, outcome: Outcome): Pool
    requires n in p.sessions
  {
    Set(p, n, p.sessions[n].(exchanges := p.sessions[n].exchanges - ids))
      .(exchanges := p.exchanges - ids, log := Told(p.log, ids, outcome))
  }

  /** A result is set and drained: the exchange is over, and with the last one the session comes to rest. */
  function Complete(p: Pool, n: nat, id: nat, outcome: Outcome, ready: bool): Pool
    requires n in p.sessions
  {
    if id !in p.sessions[n].exchanges then p
    else SettleIfEmpty(Leave(p, n, {id}, outcome), n, ready)
  }

  predicate Accepts(s: Session) {
    !s.retired && |s.exchanges| < MaximumExchanges()
  }

  /** The first of the least loaded sessions among `active[..k]` that accept an exchange. */
  function Best(p: Pool, k: nat): Option<nat>
    requires k <= |p.active| && forall i :: 0 <= i < k ==> p.active[i] in p.sessions
    ensures Best(p, k).Some? ==> Best(p, k).value in p.sessions
  {
    if k == 0 then None
    else
      var best, n := Best(p, k - 1), p.active[k - 1];
      if Accepts(p.sessions[n]) && (best.None? || |p.sessions[n].exchanges| < |p.sessions[best.value].exchanges|)
      then Some(n) else best
  }

  /** Where a new exchange goes: an active session, the one that came to rest last, or a new one. */
  function Choose(p: Pool): nat
    requires forall n :: n in p.active ==> n in p.sessions
  {
    var best := Best(p, |p.active|);
    if best.Some? then best.value
    else if p.idle != [] then p.idle[|p.idle| - 1]
    else p.nextSession
  }

  function Joined(s: Session, id: nat): Session {
    s.(exchanges := s.exchanges + {id}, idle := false, generation := s.generation + 1)
  }

  function Add(p: Pool, n: nat, id: nat): Pool {
    var before := if n in p.sessions then p.sessions[n] else NewSession();
    Set(p, n, Joined(before, id)).(
      active := if n in p.active then p.active else p.active + [n],
      idle := if n in p.idle then p.idle[..|p.idle| - 1] else p.idle,
      nextSession := if n in p.sessions then p.nextSession else p.nextSession + 1,
      exchanges := p.exchanges[id := n], log := p.log[id := []])
  }

  function Start(p: Pool, n: nat): Pool
    requires n in p.sessions
  {
    if p.sessions[n].started then p else Set(p, n, p.sessions[n].(started := true, opening := true))
  }

  /** Why an exchange fails before anything is sent. */
  function Objection(length: nat, badPath: bool, expired: bool): Option<ErrorCode> {
    if length < 12 || length > 0xffff then Some(ProtocolFraming)
    else if badPath then Some(Configuration)
    else if expired then Some(Timeout)
    else None
  }

  /** `add_new_exchange` with `Operation::add_exchange`. */
  function AddNew(p: Pool, id: nat, objection: Option<ErrorCode>, ready: bool): Pool
    requires forall n :: n in p.active ==> n in p.sessions
  {
    if p.stopped then p.(log := p.log[id := [Error(Cancelled)]])
    else
      var n := Choose(p);
      var q := Add(p, n, id);
      match objection
      case Some(error) => Complete(q, n, id, Error(error), ready)
      case None => Start(q, n)
  }

  /** `fail_session`: every exchange of the session fails with it. */
  function Fail(p: Pool, n: nat, error: ErrorCode): Pool
    requires n in p.sessions
  {
    if p.sessions[n].retired then p
    else Retire(Leave(p, n, p.sessions[n].exchanges, Error(error)), n)
  }

  /** `datagram_opened`: `failure` says why there is no connection. */
  function Opened(p: Pool, n: nat, failure: Option<ErrorCode>): Pool
    requires n in p.sessions
  {
    var q := Set(p, n, p.sessions[n].(opening := false));
    if p.sessions[n].retired then q
    else if p.sessions[n].exchanges == {} then Retire(q, n)
    else match failure
      case Some(error) => Fail(q, n, error)
      case None => Set(q, n, q.sessions[n].(connected := true))
  }

  /** The idle timer of a generation fires; it is stale unless the session has rested since. */
  function TimerFires(p: Pool, n: nat, generation: nat): Pool
    requires n in p.sessions
  {
    var s := p.sessions[n];
    var q := Set(p, n, s.(timers := s.timers - {generation}));
    if !s.retired && generation == s.generation && s.exchanges == {} then Retire(q, n) else q
  }

  function CancelExchange(p: Pool, id: nat, ready: bool): Pool {
    if id in p.exchanges && p.exchanges[id] in p.sessions then Complete(p, p.exchanges[id], id, Error(Cancelled), ready) else p
  }

  // ----- Stopping

  /** `Operation::cancel_all` */
  function CancelAll(p: Pool, n: nat, ready: bool): Pool
    requires n in p.sessions
  {
    if p.sessions[n].exchanges == {} then p
    else Settle(Leave(p, n, p.sessions[n].exchanges, Error(Cancelled)), n, ready)
  }

  /** Every session of `numbers` is cancelled in turn; `ready` says which connections are. */
  function CancelEach(p: Pool, numbers: seq<nat>, ready: set<nat>): Pool {
    if numbers == [] then p
    else
      var q := CancelEach(p, numbers[..|numbers| - 1], ready);
      var n := numbers[|numbers| - 1];
      if n in q.sessions then CancelAll(q, n, n in ready) else q
  }

  function RetireEach(p: Pool, numbers: seq<nat>): Pool {
    if numbers == [] then p
    else
      var q := RetireEach(p, numbers[..|numbers| - 1]);
      var n := numbers[|numbers| - 1];
      if n in q.sessions && q.sessions[n].exchanges == {} then Retire(q, n) else q
  }

  function Stop(p: Pool, ready: set<nat>): Pool {
    if p.stopped then p
    else
      var q := CancelEach(p.(stopped := true), p.active, ready);
      RetireEach(q.(idle := []), q.idle)
  }

  // ----- What every step keeps

  /** A session that is in use: it has room for its exchanges and a connection, or one that is being opened. */
  predicate InUse(s: Session) {
    && !s.retired && !s.idle && |s.exchanges| <= MaximumExchanges()
    && (s.started <==> s.opening || s.connected) && !(s.opening && s.connected)
  }

  predicate Busy(s: Session) {
    InUse(s) && s.exchanges != {} && s.started
  }

  predicate Resting(s: Session) {
    !s.retired && s.idle && s.exchanges == {} && s.started && s.connected && !s.opening
  }

  predicate Gone(s: Session) {
    s.retired && !s.idle && s.exchanges == {}
  }

  /** A timer of the current generation belongs to a resting session, and every resting session has one. */
  predicate Timed(s: Session) {
    && (forall g :: g in s.timers ==> g <= s.generation && (g == s.generation ==> s.idle))
    && (s.idle ==> s.generation in s.timers)
  }

  /** Active sessions are busy, idle ones rest, and every other session is gone; `unsettled` ones may be in between. */
  ghost predicate Listed(active: seq<nat>, idle: seq<nat>, sessions: map<nat, Session>, unsettled: set<nat>) {
    && Distinct(active) && Distinct(idle)
    && (forall n :: n in active ==> n in sessions && InUse(sessions[n]) && (n !in unsettled ==> Busy(sessions[n])))
    && (forall n :: n in idle ==> n in sessions && Resting(sessions[n]))
    && (forall n :: n in sessions ==> n in active || n in idle || Gone(sessions[n]))
  }

  ghost predicate Clocked(sessions: map<nat, Session>, next: nat) {
    forall n :: n in sessions ==> n < next && Timed(sessions[n])
  }

  function Held(p: Pool): map<nat, set<nat>> {
    map n | n in p.sessions :: p.sessions[n].exchanges
  }

  /** The registered exchanges are the disjoint union of the sessions' exchanges. */
  ghost predicate Partition(exchanges: map<nat, nat>, held: map<nat, set<nat>>) {
    && (forall id :: id in exchanges ==> exchanges[id] in held && id in held[exchanges[id]])
    && (forall n, id :: n in held && id in held[n] ==> id in exchanges && exchanges[id] == n)
  }

  ghost predicate Logged(log: map<nat, seq<Outcome>>, open: set<nat>) {
    open <= log.Keys && forall id :: id in log ==> if id in open then log[id] == [] else |log[id]| == 1
  }

  ghost predicate Coherent(p: Pool, unsettled: set<nat>) {
    && Partition(p.exchanges, Held(p))
    && Listed(p.active, p.idle, p.sessions, unsettled)
    && Clocked(p.sessions, p.nextSession)
    && Logged(p.log, p.exchanges.Keys)
  }

  ghost predicate Valid(p: Pool) {
    Coherent(p, {}) && |p.idle| <= MaximumIdle() && (p.stopped ==> p.active == [] && p.idle == [])
  }

  lemma InitialValid()
    ensures Valid(Initial())
  {
  }

  // ----- Retiring

  lemma GoneListed(active: seq<nat>, idle: seq<nat>, sessions: map<nat, Session>, u: set<nat>, n: nat, s: Session)
    requires Listed(active, idle, sessions, u) && Gone(s)
    ensures Listed(Omit(active, n), Omit(idle, n), sessions[n := s], u - {n})
  {
    OmitMembers(active, n);
    OmitMembers(idle, n);
  }

  lemma SetClocked(sessions: map<nat, Session>, next: nat, n: nat, s: Session)
    requires Clocked(sessions, next) && n < next && Timed(s)
    ensures Clocked(sessions[n := s], next)
  {
  }

  /** A session without exchanges leaves the lists for good. */
  lemma GoneKeeps(p: Pool, n: nat, s: Session, u: set<nat>)
    requires Coherent(p, u) && n in p.sessions && p.sessions[n].exchanges == {} && Gone(s) && Timed(s)
    ensures Coherent(Set(p, n, s).(active := Omit(p.active, n), idle := Omit(p.idle, n)), u - {n})
  {
    GoneListed(p.active, p.idle, p.sessions, u, n, s);
    SetClocked(p.sessions, p.nextSession, n, s);
    assert Held(Set(p, n, s)) == Held(p);
  }

  lemma RetireKeeps(p: Pool, n: nat, u: set<nat>)
    requires Coherent(p, u) && n in p.sessions && p.sessions[n].exchanges == {} && !p.sessions[n].retired
    ensures Coherent(Retire(p, n), u - {n})
  {
    GoneKeeps(p, n, Retired(p.sessions[n]), u);
  }

  lemma Retire0(p: Pool, n: nat)
    requires Coherent(p, {}) && n in p.sessions && p.sessions[n].exchanges == {}
    ensures Coherent(Retire(p, n), {})
  {
    if !p.sessions[n].retired {
      RetireKeeps(p, n, {});
      assert {} - {n} == {};
    }
  }

  // ----- Coming to rest

  /** A session of the active list whose last exchange has ended. */
  ghost predicate Drained(p: Pool, n: nat) {
    n in p.active && n in p.sessions && InUse(p.sessions[n]) && p.sessions[n].exchanges == {}
  }

  lemma RestListed(active: seq<nat>, idle: seq<nat>, sessions: map<nat, Session>, n: nat)
    requires Listed(active, idle, sessions, {n}) && n in active && sessions[n].exchanges == {} && sessions[n].connected
    ensures Listed(Omit(active, n), idle + [n], sessions[n := Idled(sessions[n])], {})
  {
    OmitMembers(active, n);
    assert n !in idle;
  }

  lemma RestKeeps(p: Pool, n: nat)
    requires Coherent(p, {n}) && Drained(p, n) && p.sessions[n].connected
    ensures Coherent(Set(p, n, Idled(p.sessions[n])).(active := Omit(p.active, n), idle := p.idle + [n]), {})
  {
    RestListed(p.active, p.idle, p.sessions, n);
    SetClocked(p.sessions, p.nextSession, n, Idled(p.sessions[n]));
    assert Held(Set(p, n, Idled(p.sessions[n]))) == Held(p);
  }

  lemma TrimKeeps(p: Pool)
    requires Coherent(p, {}) && |p.idle| <= MaximumIdle() + 1
    ensures Coherent(Trim(p), {}) && |Trim(p).idle| <= MaximumIdle()
  {
    if |p.idle| > MaximumIdle() {
      assert p.idle[0] in p.idle;
      Retire0(p, p.idle[0]);
      OmitMembers(p.idle, p.idle[0]);
    }
  }

  lemma SettleKeeps(p: Pool, n: nat, ready: bool)
    requires Coherent(p, {n}) && Drained(p, n) && |p.idle| <= MaximumIdle()
    ensures Coherent(Settle(p, n, ready), {}) && |Settle(p, n, ready).idle| <= MaximumIdle()
  {
    assert {n} - {n} == {};
    OmitMembers(p.idle, n);
    if !p.sessions[n].connected || !ready {
      RetireKeeps(p, n, {n});
    } else if p.stopped {
      var gone := Retired(Idled(p.sessions[n]));
      GoneKeeps(p, n, gone, {n});
      assert Set(Set(p, n, Idled(p.sessions[n])), n, gone) == Set(p, n, gone);
    } else {
      RestKeeps(p, n);
      TrimKeeps(Set(p, n, Idled(p.sessions[n])).(active := Omit(p.active, n), idle := p.idle + [n]));
    }
  }

  // ----- Exchanges that end

  lemma HolderIsActive(p: Pool, n: nat)
    requires Listed(p.active, p.idle, p.sessions, {}) && n in p.sessions && p.sessions[n].exchanges != {}
    ensures n in p.active && Busy(p.sessions[n])
  {
  }

  lemma LeavePartition(exchanges: map<nat, nat>, held: map<nat, set<nat>>, n: nat, ids: set<nat>)
    requires Partition(exchanges, held) && n in held && ids <= held[n]
    ensures Partition(exchanges - ids, held[n := held[n] - ids]) && ids <= exchanges.Keys
  {
    var left := held[n := held[n] - ids];
    assert forall id :: id in ids ==> exchanges[id] == n;
    forall m, id | m in left && id in left[m] ensures id in exchanges - ids && (exchanges - ids)[id] == m {
      assert id in held[m];
    }
  }

  lemma LeaveListed(active: seq<nat>, idle: seq<nat>, sessions: map<nat, Session>, u: set<nat>, n: nat, ids: set<nat>)
    requires Listed(active, idle, sessions, u) && n in active
    ensures n in sessions && Listed(active, idle, sessions[n := sessions[n].(exchanges := sessions[n].exchanges - ids)], u + {n})
  {
    CardinalityMonotone(sessions[n].exchanges - ids, sessions[n].exchanges);
  }

  lemma LeaveLogged(log: map<nat, seq<Outcome>>, exchanges: map<nat, nat>, ids: set<nat>, outcome: Outcome)
    requires Logged(log, exchanges.Keys) && ids <= exchanges.Keys
    ensures Logged(Told(log, ids, outcome), (exchanges - ids).Keys)
  {
  }

  lemma LeaveKeeps(p: Pool, n: nat, ids: set<nat>, outcome: Outcome, u: set<nat>)
    requires Coherent(p, u) && n in p.active && n in p.sessions && ids <= p.sessions[n].exchanges
    ensures Coherent(Leave(p, n, ids, outcome), u + {n})
  {
    LeavePartition(p.exchanges, Held(p), n, ids);
    LeaveListed(p.active, p.idle, p.sessions, u, n, ids);
    LeaveLogged(p.log, p.exchanges, ids, outcome);
    SetClocked(p.sessions, p.nextSession, n, p.sessions[n].(exchanges := p.sessions[n].exchanges - ids));
    LeaveHeld(p, n, ids, outcome);
  }

  lemma LeaveHeld(p: Pool, n: nat, ids: set<nat>, outcome: Outcome)
    requires n in p.sessions
    ensures n in Held(p) && Held(Leave(p, n, ids, outcome)) == Held(p)[n := Held(p)[n] - ids]
  {
  }

  lemma SettledIsListed(active: seq<nat>, idle: seq<nat>, sessions: map<nat, Session>, n: nat)
    requires Listed(active, idle, sessions, {n}) && n in sessions && Busy(sessions[n])
    ensures Listed(active, idle, sessions, {})
  {
  }

  /** `n` may have been left without exchanges, or have got its first one. */
  lemma SettleIfEmptyKeeps(p: Pool, n: nat, ready: bool)
    requires Coherent(p, {n}) && n in p.active && n in p.sessions && |p.idle| <= MaximumIdle()
    requires p.sessions[n].exchanges != {} ==> p.sessions[n].started
    ensures Coherent(SettleIfEmpty(p, n, ready), {}) && |SettleIfEmpty(p, n, ready).idle| <= MaximumIdle()
  {
    if p.sessions[n].exchanges == {} {
      SettleKeeps(p, n, ready);
    } else {
      SettledIsListed(p.active, p.idle, p.sessions, n);
    }
  }

  lemma CompleteKeepsCoherent(p: Pool, n: nat, id: nat, outcome: Outcome, ready: bool)
    requires Coherent(p, {n}) && n in p.active && n in p.sessions && id in p.sessions[n].exchanges && |p.idle| <= MaximumIdle()
    requires p.sessions[n].exchanges != {id} ==> p.sessions[n].started
    ensures Coherent(Complete(p, n, id, outcome, ready), {}) && |Complete(p, n, id, outcome, ready).idle| <= MaximumIdle()
  {
    LeaveKeeps(p, n, {id}, outcome, {n});
    assert {n} + {n} == {n};
    assert p.sessions[n].exchanges - {id} != {} ==> p.sessions[n].exchanges != {id};
    SettleIfEmptyKeeps(Leave(p, n, {id}, outcome), n, ready);
  }

  /** After a stop nothing is open, and no session is left that could change. */
  lemma StoppedIsEmpty(p: Pool)
    requires Coherent(p, {}) && p.active == [] && p.idle == []
    ensures p.exchanges == map[] && forall n :: n in p.sessions ==> Gone(p.sessions[n])
  {
    assert forall n :: n in Held(p) ==> Held(p)[n] == {};
  }

  lemma CompleteKeeps(p: Pool, n: nat, id: nat, outcome: Outcome, ready: bool)
    requires Valid(p) && n in p.sessions
    ensures Valid(Complete(p, n, id, outcome, ready))
  {
    if id in p.sessions[n].exchanges {
      HolderIsActive(p, n);
      Weaken(p, n);
      CompleteKeepsCoherent(p, n, id, outcome, ready);
      assert !p.stopped;
    }
  }

  lemma Weaken(p: Pool, n: nat)
    requires Coherent(p, {})
    ensures Coherent(p, {n})
  {
  }

  lemma CancelKeeps(p: Pool, id: nat, ready: bool)
    requires Valid(p)
    ensures Valid(CancelExchange(p, id, ready))
  {
    if id in p.exchanges {
      CompleteKeeps(p, p.exchanges[id], id, Error(Cancelled), ready);
    }
  }

  // ----- New exchanges

  /** Among `active[..k]`, the session at `j` accepts, none that accepts has less load, and none before it has as little. */
  ghost predicate LeastLoaded(p: Pool, k: nat, j: nat)
    requires k <= |p.active| && forall i :: 0 <= i < k ==> p.active[i] in p.sessions
  {
    && j < k && Accepts(p.sessions[p.active[j]])
    && forall i :: 0 <= i < k && Accepts(p.sessions[p.active[i]]) ==>
         var least, load := |p.sessions[p.active[j]].exchanges|, |p.sessions[p.active[i]].exchanges|;
         if i < j then least < load else least <= load
  }

  /** The chosen session is the first of the least loaded ones, and there is none only if all are full. */
  lemma {:induction false} BestIsLeastLoaded(p: Pool, k: nat) returns (j: nat)
    requires k <= |p.active| && forall i :: 0 <= i < k ==> p.active[i] in p.sessions
    ensures Best(p, k).None? ==> forall i :: 0 <= i < k ==> !Accepts(p.sessions[p.active[i]])
    ensures Best(p, k).Some? ==> LeastLoaded(p, k, j) && p.active[j] == Best(p, k).value
  {
    j := 0;
    if k > 0 {
      j := BestIsLeastLoaded(p, k - 1);
      var before, n := Best(p, k - 1), p.active[k - 1];
      if Accepts(p.sessions[n]) && (before.None? || |p.sessions[n].exchanges| < |p.sessions[before.value].exchanges|) {
        j := k - 1;
      }
    }
  }

  lemma ChoiceFits(p: Pool)
    requires Valid(p)
    ensures var n := Choose(p);
      || (n in p.active && Accepts(p.sessions[n]))
      || (n !in p.active && p.idle != [] && n == p.idle[|p.idle| - 1])
      || (n !in p.active && n !in p.idle && n !in p.sessions && n == p.nextSession)
  {
    var j := BestIsLeastLoaded(p, |p.active|);
    if Best(p, |p.active|).Some? {
      assert p.active[j] in p.active;
    } else if p.idle != [] {
      assert p.idle[|p.idle| - 1] in p.idle;
    } else {
      assert p.nextSession !in p.sessions;
    }
  }

  lemma AddPartition(exchanges: map<nat, nat>, held: map<nat, set<nat>>, n: nat, id: nat)
    requires Partition(exchanges, held) && id !in exchanges
    ensures Partition(exchanges[id := n], held[n := (if n in held then held[n] else {}) + {id}])
  {
  }

  lemma AddLogged(log: map<nat, seq<Outcome>>, exchanges: map<nat, nat>, id: nat, n: nat)
    requires Logged(log, exchanges.Keys) && id !in log
    ensures Logged(log[id := []], exchanges[id := n].Keys) && id !in exchanges
  {
  }

  /** The session is in use once it has its exchange, though it may not have been started. */
  lemma AddListed(p: Pool, n: nat, id: nat)
    requires Listed(p.active, p.idle, p.sessions, {}) && (n in p.active ==> Accepts(p.sessions[n]))
    requires n in p.idle ==> n == p.idle[|p.idle| - 1]
    requires n in p.sessions ==> n in p.active || n in p.idle
    ensures var q := Add(p, n, id); Listed(q.active, q.idle, q.sessions, {n}) && n in q.active
  {
    var q := Add(p, n, id);
    if n in p.idle {
      assert forall m :: m in p.idle ==> m in q.idle || m == n;
    }
    if n in p.sessions {
      JoinedSize(p.sessions[n], id);
    }
  }

  lemma JoinedSize(s: Session, id: nat)
    ensures |Joined(s, id).exchanges| <= |s.exchanges| + 1
  {
  }

  lemma AddClocked(p: Pool, n: nat, id: nat)
    requires Clocked(p.sessions, p.nextSession) && (n in p.sessions || n == p.nextSession)
    ensures var q := Add(p, n, id); Clocked(q.sessions, q.nextSession)
  {
  }

  lemma AddKeeps(p: Pool, n: nat, id: nat)
    requires Valid(p) && id !in p.log && n == Choose(p)
    ensures Coherent(Add(p, n, id), {n}) && n in Add(p, n, id).active && |Add(p, n, id).idle| <= MaximumIdle()
    ensures n in Add(p, n, id).sessions && id in Add(p, n, id).sessions[n].exchanges
  {
    ChoiceFits(p);
    AddedKeeps(p, n, id);
  }

  lemma AddedKeeps(p: Pool, n: nat, id: nat)
    requires Coherent(p, {}) && id !in p.log && (n in p.active ==> Accepts(p.sessions[n]))
    requires n in p.idle ==> n == p.idle[|p.idle| - 1]
    requires if n in p.sessions then n in p.active || n in p.idle else n == p.nextSession
    ensures Coherent(Add(p, n, id), {n})
  {
    AddLogged(p.log, p.exchanges, id, n);
    AddPartition(p.exchanges, Held(p), n, id);
    AddListed(p, n, id);
    AddClocked(p, n, id);
    AddHeld(p, n, id);
  }

  lemma AddHeld(p: Pool, n: nat, id: nat)
    ensures Held(Add(p, n, id)) == Held(p)[n := (if n in Held(p) then Held(p)[n] else {}) + {id}]
  {
  }

  lemma StartKeeps(p: Pool, n: nat)
    requires Coherent(p, {n}) && n in p.active && n in p.sessions && p.sessions[n].exchanges != {}
    ensures Coherent(Start(p, n), {})
  {
    assert Held(Start(p, n)) == Held(p);
  }

  lemma OnlyExchange(p: Pool, n: nat, id: nat)
    requires Valid(p) && id !in p.log && n == Choose(p)
    ensures var s := Add(p, n, id).sessions[n]; s.exchanges == {id} || s.started
  {
    ChoiceFits(p);
  }

  lemma AddNewKeeps(p: Pool, id: nat, objection: Option<ErrorCode>, ready: bool)
    requires Valid(p) && id !in p.log
    ensures Valid(AddNew(p, id, objection, ready))
  {
    if !p.stopped {
      var n := Choose(p);
      AddKeeps(p, n, id);
      OnlyExchange(p, n, id);
      match objection
      case Some(error) => CompleteKeepsCoherent(Add(p, n, id), n, id, Error(error), ready);
      case None => StartKeeps(Add(p, n, id), n);
    }
  }

  // ----- Connections and timers

  lemma FailKeeps(p: Pool, n: nat, error: ErrorCode)
    requires Valid(p) && n in p.sessions
    ensures Valid(Fail(p, n, error))
  {
    if !p.sessions[n].retired {
      FailKeepsCoherent(p, n, error);
    }
  }

  lemma FailKeepsCoherent(p: Pool, n: nat, error: ErrorCode)
    requires Coherent(p, {}) && n in p.sessions && !p.sessions[n].retired
    ensures Coherent(Fail(p, n, error), {}) && |Fail(p, n, error).idle| <= |p.idle|
    ensures p.active != [] || p.idle != []
  {
    OmitMembers(p.idle, n);
    if p.sessions[n].exchanges == {} {
      LeaveNothing(p, n, Error(error));
      RetireKeeps(p, n, {});
      assert {} - {n} == {};
    } else {
      LeaveKeeps(p, n, p.sessions[n].exchanges, Error(error), {});
      var q := Leave(p, n, p.sessions[n].exchanges, Error(error));
      assert q.sessions[n].exchanges == {};
      RetireKeeps(q, n, {n});
      assert {} + {n} == {n} && {n} - {n} == {};
    }
  }

  lemma LeaveNothing(p: Pool, n: nat, outcome: Outcome)
    requires n in p.sessions
    ensures Leave(p, n, {}, outcome) == p
  {
    assert Told(p.log, {}, outcome) == p.log && p.exchanges - {} == p.exchanges;
    assert p.sessions[n].exchanges - {} == p.sessions[n].exchanges;
    assert p.sessions[n := p.sessions[n]] == p.sessions;
  }

  lemma SetOpeningKeeps(p: Pool, n: nat)
    requires Coherent(p, {}) && n in p.sessions && p.sessions[n].opening
    ensures p.sessions[n].retired ==> Coherent(Set(p, n, p.sessions[n].(opening := false)), {})
    ensures !p.sessions[n].retired ==> n in p.active && p.sessions[n].exchanges != {}
    ensures !p.sessions[n].retired ==> Coherent(Set(p, n, p.sessions[n].(opening := false, connected := true)), {})
  {
    assert Held(Set(p, n, p.sessions[n].(opening := false))) == Held(p);
    assert Held(Set(p, n, p.sessions[n].(opening := false, connected := true))) == Held(p);
  }

  lemma OpenedKeeps(p: Pool, n: nat, failure: Option<ErrorCode>)
    requires Valid(p) && n in p.sessions && p.sessions[n].opening
    ensures Valid(Opened(p, n, failure))
  {
    SetOpeningKeeps(p, n);
    if !p.sessions[n].retired {
      match failure
      case Some(error) =>
        OpenFailedKeeps(p, n, error);
      case None =>
        var s := p.sessions[n].(opening := false);
        assert Set(Set(p, n, s), n, s.(connected := true)) == Set(p, n, s.(connected := true));
    }
  }

  lemma OpenFailedSteps(p: Pool, n: nat, error: ErrorCode)
    requires n in p.sessions && !p.sessions[n].retired
    ensures var s := p.sessions[n];
      var q := Leave(p, n, s.exchanges, Error(error));
      Fail(Set(p, n, s.(opening := false)), n, error) ==
      Set(q, n, Retired(s.(opening := false))).(active := Omit(p.active, n), idle := Omit(p.idle, n))
  {
    var s, t := p.sessions[n], p.sessions[n].(opening := false);
    assert Retired(t.(exchanges := t.exchanges - t.exchanges)) == Retired(t);
    SetTwice(p, n, s.(exchanges := s.exchanges - s.exchanges), Retired(t));
    SetTwice(p, n, t, t.(exchanges := t.exchanges - t.exchanges));
    SetTwice(p, n, t.(exchanges := t.exchanges - t.exchanges), Retired(t));
  }

  lemma SetTwice(p: Pool, n: nat, s: Session, t: Session)
    ensures p.sessions[n := s][n := t] == p.sessions[n := t]
  {
  }

  lemma OpenFailedKeeps(p: Pool, n: nat, error: ErrorCode)
    requires Valid(p) && n in p.sessions && p.sessions[n].opening && !p.sessions[n].retired
    ensures Valid(Fail(Set(p, n, p.sessions[n].(opening := false)), n, error))
  {
    var s := p.sessions[n];
    SetOpeningKeeps(p, n);
    OpenFailedSteps(p, n, error);
    OpenFailedCoherent(p, n, error);
    OmitMembers(p.idle, n);
  }

  lemma OpenFailedCoherent(p: Pool, n: nat, error: ErrorCode)
    requires Coherent(p, {}) && n in p.sessions && n in p.active
    ensures var s := p.sessions[n];
      Coherent(Set(Leave(p, n, s.exchanges, Error(error)), n, Retired(s.(opening := false)))
        .(active := Omit(p.active, n), idle := Omit(p.idle, n)), {})
  {
    var s := p.sessions[n];
    LeaveKeeps(p, n, s.exchanges, Error(error), {});
    assert {} + {n} == {n} && {n} - {n} == {};
    var q := Leave(p, n, s.exchanges, Error(error));
    assert q.sessions[n].exchanges == {};
    GoneKeeps(q, n, Retired(s.(opening := false)), {n});
  }

  lemma StaleTimerKeeps(p: Pool, n: nat, generation: nat)
    requires Coherent(p, {}) && n in p.sessions
    requires p.sessions[n].retired || generation != p.sessions[n].generation || p.sessions[n].exchanges != {}
    ensures Coherent(Set(p, n, p.sessions[n].(timers := p.sessions[n].timers - {generation})), {})
  {
    var t := p.sessions[n].(timers := p.sessions[n].timers - {generation});
    assert Held(Set(p, n, t)) == Held(p);
    SetClocked(p.sessions, p.nextSession, n, t);
  }

  lemma TimerRetires(p: Pool, n: nat, generation: nat)
    requires Coherent(p, {}) && n in p.sessions && !p.sessions[n].retired && generation == p.sessions[n].generation
    requires p.sessions[n].exchanges == {}
    ensures Coherent(TimerFires(p, n, generation), {}) && |TimerFires(p, n, generation).idle| <= |p.idle|
  {
    var t := p.sessions[n].(timers := p.sessions[n].timers - {generation});
    OmitMembers(p.idle, n);
    GoneKeeps(p, n, Retired(t), {});
    assert {} - {n} == {};
    assert Set(Set(p, n, t), n, Retired(t)) == Set(p, n, Retired(t));
  }

  lemma TimerKeeps(p: Pool, n: nat, generation: nat)
    requires Valid(p) && n in p.sessions
    ensures Valid(TimerFires(p, n, generation))
  {
    var s := p.sessions[n];
    if !s.retired && generation == s.generation && s.exchanges == {} {
      TimerRetires(p, n, generation);
    } else {
      StaleTimerKeeps(p, n, generation);
    }
  }

  // ----- Stopping

  lemma SettleStopped(p: Pool, ready: bool)
    requires p.stopped && p.active != [] && p.active[0] !in p.idle && p.active[0] in p.sessions && !p.sessions[p.active[0]].retired
    ensures var q := Settle(p, p.active[0], ready); q.stopped && q.active == p.active[1..] && q.idle == p.idle
  {
  }

  lemma CancelFirst(p: Pool, ready: bool)
    requires Coherent(p, {}) && p.stopped && p.active != [] && |p.idle| <= MaximumIdle()
    ensures p.active[0] in p.sessions
    ensures var q := CancelAll(p, p.active[0], ready);
      Coherent(q, {}) && q.stopped && q.active == p.active[1..] && q.idle == p.idle
  {
    var n := p.active[0];
    assert n in p.active && n !in p.idle;
    var q := Leave(p, n, p.sessions[n].exchanges, Error(Cancelled));
    CancelledDrained(p, n);
    SettleStopped(q, ready);
    SettleKeeps(q, n, ready);
  }

  lemma CancelledDrained(p: Pool, n: nat)
    requires Coherent(p, {}) && n in p.active
    ensures n in p.sessions
    ensures var q := Leave(p, n, p.sessions[n].exchanges, Error(Cancelled)); Coherent(q, {n}) && Drained(q, n)
  {
    LeaveKeeps(p, n, p.sessions[n].exchanges, Error(Cancelled), {});
    assert {} + {n} == {n};
    assert p.sessions[n].exchanges - p.sessions[n].exchanges == {};
  }

  lemma {:induction false} CancelEachKeeps(p: Pool, k: nat, ready: set<nat>)
    requires Coherent(p, {}) && p.stopped && k <= |p.active| && |p.idle| <= MaximumIdle()
    ensures var q := CancelEach(p, p.active[..k], ready);
      Coherent(q, {}) && q.stopped && q.active == p.active[k..] && q.idle == p.idle
  {
    if k > 0 {
      CancelEachKeeps(p, k - 1, ready);
      assert p.active[..k][..k - 1] == p.active[..k - 1];
      var q := CancelEach(p, p.active[..k - 1], ready);
      assert q.active[0] == p.active[k - 1];
      CancelFirst(q, p.active[k - 1] in ready);
    }
  }

  lemma RetireFirst(p: Pool)
    requires Coherent(p, {}) && p.idle != [] && p.active == []
    ensures var n := p.idle[0];
      && n in p.sessions && p.sessions[n].exchanges == {}
      && Coherent(Retire(p, n), {}) && Retire(p, n) == Retire(p.(idle := []), n).(idle := p.idle[1..])
  {
    var n := p.idle[0];
    assert n in p.idle;
    Retire0(p, n);
  }

  lemma {:induction false} RetireEachKeeps(p: Pool, idle: seq<nat>, k: nat)
    requires Coherent(p.(idle := idle), {}) && p.idle == [] && p.active == [] && k <= |idle|
    ensures var q := RetireEach(p, idle[..k]);
      Coherent(q.(idle := idle[k..]), {}) && q.idle == [] && q.active == [] && q.stopped == p.stopped
  {
    if k == 0 {
      assert idle[0..] == idle;
    } else {
      RetireEachKeeps(p, idle, k - 1);
      assert idle[..k][..k - 1] == idle[..k - 1];
      var q := RetireEach(p, idle[..k - 1]);
      RetireFirst(q.(idle := idle[k - 1..]));
      assert q.(idle := idle[k - 1..]).(idle := []) == q;
      assert idle[k - 1..][1..] == idle[k..];
    }
  }

  lemma StopKeeps(p: Pool, ready: set<nat>)
    requires Valid(p)
    ensures Valid(Stop(p, ready)) && Stop(p, ready).stopped
    ensures Stop(p, ready).active == [] && Stop(p, ready).idle == [] && Stop(p, ready).exchanges == map[]
  {
    if !p.stopped {
      var p0 := p.(stopped := true);
      CancelEachKeeps(p0, |p.active|, ready);
      assert p.active[..|p.active|] == p.active;
      var q := CancelEach(p0, p.active, ready);
      assert q.(idle := []).(idle := q.idle) == q;
      RetireEachKeeps(q.(idle := []), q.idle, |q.idle|);
      assert q.idle[..|q.idle|] == q.idle;
      var r := RetireEach(q.(idle := []), q.idle);
      assert r.(idle := []) == r && q.idle[|q.idle|..] == [];
    }
    StoppedIsEmpty(Stop(p, ready));
  }
}
