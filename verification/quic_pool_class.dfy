/** The QUIC transport itself. A session is the record kept under its number. */
module QuicTransports {
  import opened Core
  import opened Spec = QuicPoolSpec

  lemma LeaveTwice(p: Pool, n: nat, a: set<nat>, b: set<nat>, outcome: Outcome)
    requires n in p.sessions && a !! b
    ensures Leave(Leave(p, n, a, outcome), n, b, outcome) == Leave(p, n, a + b, outcome)
  {
    var s := p.sessions[n];
    assert s.exchanges - a - b == s.exchanges - (a + b);
    assert Leave(Leave(p, n, a, outcome), n, b, outcome).sessions == Leave(p, n, a + b, outcome).sessions;
    assert Told(Told(p.log, a, outcome), b, outcome) == Told(p.log, a + b, outcome);
    assert p.exchanges - a - b == p.exchanges - (a + b);
  }

  lemma OmitAbsent(s: seq<nat>, n: nat)
    requires n !in s
    ensures Omit(s, n) == s
  {
  }

  lemma OmitFirst(s: seq<nat>)
    requires Distinct(s) && s != []
    ensures Omit(s, s[0]) == s[1..] && s[0] !in s[1..]
  {
  }

  lemma HolderFacts(p: Pool, n: nat, id: nat)
    requires Valid(p) && n in p.sessions && id in p.sessions[n].exchanges
    ensures id in p.exchanges && p.exchanges[id] == n && id in p.log
    ensures n in p.active && n !in p.idle && !p.sessions[n].retired
  {
    assert n in Held(p);
    HolderIsActive(p, n);
  }

  /** To retire a session first and complete its exchanges then comes to the same. */
  lemma FailInSteps(p: Pool, n: nat, error: ErrorCode)
    requires n in p.sessions && !p.sessions[n].retired
    ensures var ids := p.sessions[n].exchanges;
      Fail(p, n, error) == Retire(p, n).(exchanges := p.exchanges - ids, log := Told(p.log, ids, Error(error)))
  {
    var s := p.sessions[n];
    assert Retired(s.(exchanges := s.exchanges - s.exchanges)) == Retired(s);
    SetTwice(p, n, s.(exchanges := s.exchanges - s.exchanges), Retired(s));
  }

  /** The chosen session is in the active list but has not got its exchange yet. */
  function Enlisted(p: Pool, n: nat): Pool
    requires forall m :: m in p.active ==> m in p.sessions
  {
    if Best(p, |p.active|).Some? then p
    else if p.idle != [] then p.(active := p.active + [n], idle := p.idle[..|p.idle| - 1])
    else p.(sessions := p.sessions[n := NewSession()], active := p.active + [n], nextSession := p.nextSession + 1)
  }

  lemma AddInSteps(p: Pool, n: nat, id: nat)
    requires Valid(p) && id !in p.log && n == Choose(p)
    ensures n in Enlisted(p, n).sessions
    ensures Add(p, n, id) ==
      Set(Enlisted(p, n), n, Joined(Enlisted(p, n).sessions[n], id)).(exchanges := p.exchanges[id := n], log := p.log[id := []])
  {
    ChoiceFits(p);
    var best := Best(p, |p.active|);
    if best.Some? {
      var j := BestIsLeastLoaded(p, |p.active|);
      assert p.active[j] == n;
      assert n in p.active && n !in p.idle;
    } else if p.idle != [] {
      assert n in p.idle && n !in p.active;
    } else {
      assert n !in p.active && n !in p.sessions;
      SetTwice(p, n, NewSession(), Joined(NewSession(), id));
    }
  }

  lemma HeldFacts(p: Pool, n: nat)
    requires Coherent(p, {}) && n in p.sessions
    ensures p.sessions[n].exchanges <= p.exchanges.Keys <= p.log.Keys
  {
    assert n in Held(p);
  }

  /** The step of `cancel_all` for one exchange, while `left` have not been cancelled yet. */
  lemma CancelOneMore(p: Pool, n: nat, left: set<nat>, id: nat, ready: bool)
    requires n in p.sessions && left <= p.sessions[n].exchanges && id in left
    ensures var held := p.sessions[n].exchanges;
      Complete(Leave(p, n, held - left, Error(Cancelled)), n, id, Error(Cancelled), ready) ==
        if left == {id} then Spec.CancelAll(p, n, ready) else Leave(p, n, held - (left - {id}), Error(Cancelled))
  {
    var held := p.sessions[n].exchanges;
    LeaveTwice(p, n, held - left, {id}, Error(Cancelled));
    assert (held - left) + {id} == held - (left - {id});
    assert held - (held - left) == left && held - (held - (left - {id})) == left - {id};
    if left == {id} {
      assert held - (left - {id}) == held;
    } else {
      assert left - {id} != {};
    }
  }

  lemma RestingFacts(p: Pool)
    requires Coherent(p, {}) && p.idle != []
    ensures p.idle[0] in p.sessions && p.sessions[p.idle[0]].exchanges == {}
  {
    assert p.idle[0] in p.idle;
  }

  class QuicDnsTransport {
    var sessions: map<nat, Session>
    var exchanges: map<nat, nat>
    var activeSessions: seq<nat>
    var idleSessions: seq<nat>
    var nextSession: nat
    var stopped: bool
    /** Every outcome that a handler was called with. */
    ghost var log: map<nat, seq<Outcome>>

    ghost function Model(): Pool
      reads this
    {
      Pool(sessions, exchanges, activeSessions, idleSessions, nextSession, stopped, log)
    }

    constructor ()
      ensures Model() == Initial() && Valid(Model())
    {
      sessions, exchanges, activeSessions, idleSessions, nextSession, stopped, log := map[], map[], [], [], 0, false, map[];
      new;
      InitialValid();
    }

    /** `QuicDnsTransport::complete`: the handler is called once, and the registration is gone. */
    method CompleteRegistered(id: nat, outcome: Outcome)
      requires id in exchanges ==> id in log
      modifies `exchanges, `log
      ensures exchanges == old(exchanges) - {id}
      ensures log == if id in old(exchanges) then old(log)[id := old(log)[id] + [outcome]] else old(log)
    {
      if id !in exchanges {
        return;
      }
      exchanges := exchanges - {id};
      log := log[id := log[id] + [outcome]];
    }

    method SessionRetired(n: nat)
      modifies `activeSessions, `idleSessions
      ensures activeSessions == Omit(old(activeSessions), n) && idleSessions == Omit(old(idleSessions), n)
    {
      activeSessions := Omit(activeSessions, n);
      idleSessions := Omit(idleSessions, n);
    }

    method RetireSession(n: nat)
      requires n in sessions
      modifies this
      ensures Model() == Retire(old(Model()), n)
    {
      if sessions[n].retired {
        return;
      }
      var s := sessions[n];
      sessions := sessions[n := s.(retired := true, idle := false, generation := s.generation + 1, exchanges := {})];
      SessionRetired(n);
    }

    /** `close_idle`: a session that holds exchanges would be left alone. */
    method CloseIdle(n: nat)
      requires n in sessions && sessions[n].exchanges == {}
      modifies this
      ensures Model() == Retire(old(Model()), n)
    {
      if sessions[n].retired || sessions[n].exchanges != {} {
        return;
      }
      RetireSession(n);
    }

    /** What the methods of a session that is not idle rely on. */
    ghost predicate Tidy(n: nat)
      reads this
    {
      && n in sessions && !sessions[n].retired && n !in idleSessions
      && Distinct(activeSessions) && Distinct(idleSessions)
      && forall m :: m in idleSessions ==> m in sessions && sessions[m].exchanges == {} && !sessions[m].retired
    }

    method EnterIdleOrRetire(n: nat, ready: bool)
      requires Tidy(n) && sessions[n].exchanges == {}
      modifies this
      ensures Model() == Settle(old(Model()), n, ready)
    {
      if sessions[n].retired {
        return;
      }
      if !sessions[n].connected || !ready {
        RetireSession(n);
        return;
      }
      var s := sessions[n];
      sessions := sessions[n := s.(idle := true, generation := s.generation + 1, timers := s.timers + {s.generation + 1})];
      SessionIdle(n);
    }

    method SessionIdle(n: nat)
      requires Tidy(n) && sessions[n].exchanges == {} && sessions[n].idle
      modifies this
      ensures Model() == if stopped then Retire(old(Model()), n)
        else Trim(old(Model()).(active := Omit(old(activeSessions), n), idle := old(idleSessions) + [n]))
    {
      OmitMembers(activeSessions, n);
      OmitAbsent(Omit(activeSessions, n), n);
      activeSessions := Omit(activeSessions, n);
      if stopped || !sessions[n].idle || sessions[n].retired {
        CloseIdle(n);
        return;
      }
      if n !in idleSessions {
        idleSessions := idleSessions + [n];
      }
      CloseOldest();
    }

    method CloseOldest()
      requires Distinct(idleSessions) && forall m :: m in idleSessions ==> m in sessions && sessions[m].exchanges == {} && !sessions[m].retired
      modifies this
      ensures Model() == Trim(old(Model()))
    {
      if |idleSessions| > 4 {
        var oldest := idleSessions[0];
        OmitFirst(idleSessions);
        OmitAbsent(idleSessions[1..], oldest);
        idleSessions := idleSessions[1..];
        CloseIdle(oldest);
      }
    }

    /** A result has been set and is drained. */
    method CompleteExchange(n: nat, id: nat, outcome: Outcome, ready: bool)
      requires Tidy(n) && id in sessions[n].exchanges && id in exchanges && id in log
      modifies this
      ensures Model() == Complete(old(Model()), n, id, outcome, ready)
    {
      ghost var p := Model();
      EndExchange(n, id, outcome);
      assert Model() == Leave(p, n, {id}, outcome);
      if sessions[n].exchanges == {} {
        EnterIdleOrRetire(n, ready);
      }
    }

    method EndExchange(n: nat, id: nat, outcome: Outcome)
      requires n in sessions && id in exchanges && id in log
      modifies `sessions, `exchanges, `log
      ensures Model() == Leave(old(Model()), n, {id}, outcome)
    {
      sessions := sessions[n := sessions[n].(exchanges := sessions[n].exchanges - {id})];
      CompleteRegistered(id, outcome);
    }

    /** A result for an exchange that is over already changes nothing. */
    method CompleteIfHeld(n: nat, id: nat, outcome: Outcome, ready: bool)
      requires Valid(Model()) && n in sessions
      modifies this
      ensures Model() == Complete(old(Model()), n, id, outcome, ready)
    {
      if id !in sessions[n].exchanges {
        return;
      }
      HolderFacts(Model(), n, id);
      CompleteExchange(n, id, outcome, ready);
    }

    method CancelRegistered(id: nat, ready: bool)
      requires Valid(Model())
      modifies this
      ensures Model() == CancelExchange(old(Model()), id, ready)
    {
      if id in exchanges {
        assert exchanges[id] in Held(Model());
        CompleteIfHeld(exchanges[id], id, Error(Cancelled), ready);
      }
    }

    method FailSession(n: nat, error: ErrorCode)
      requires n in sessions && sessions[n].exchanges <= exchanges.Keys && exchanges.Keys <= log.Keys
      modifies this
      ensures Model() == Fail(old(Model()), n, error)
    {
      if sessions[n].retired {
        return;
      }
      ghost var p := Model();
      var ids := sessions[n].exchanges;
      RetireSession(n);
      CompleteEach(ids, error);
      FailInSteps(p, n, error);
    }

    method CompleteEach(ids: set<nat>, error: ErrorCode)
      requires ids <= exchanges.Keys && exchanges.Keys <= log.Keys
      modifies `exchanges, `log
      ensures exchanges == old(exchanges) - ids && log == Told(old(log), ids, Error(error))
    {
      var left := ids;
      while left != {}
        invariant left <= ids
        invariant exchanges == old(exchanges) - (ids - left) && log == Told(old(log), ids - left, Error(error))
      {
        var id :| id in left;
        CompleteRegistered(id, Error(error));
        assert ids - (left - {id}) == (ids - left) + {id};
        left := left - {id};
      }
      assert ids - {} == ids;
    }

    // ----- New exchanges

    /** The active session with the fewest exchanges that accepts one more. */
    method Candidate() returns (best: Option<nat>)
      requires forall n :: n in activeSessions ==> n in sessions
      ensures best == Best(Model(), |activeSessions|)
    {
      best := None;
      for i := 0 to |activeSessions|
        invariant best == Best(Model(), i)
      {
        var n := activeSessions[i];
        if !sessions[n].retired && |sessions[n].exchanges| < 64 {
          if best.None? || |sessions[n].exchanges| < |sessions[best.value].exchanges| {
            best := Some(n);
          }
        }
      }
    }

    method AddNewExchange(id: nat, length: nat, badPath: bool, expired: bool, ready: bool)
      requires Valid(Model()) && id !in log
      modifies this
      ensures Model() == AddNew(old(Model()), id, Objection(length, badPath, expired), ready)
    {
      if stopped {
        log := log[id := [Error(Cancelled)]];
        return;
      }
      ghost var p := Model();
      var n := Select();
      exchanges, log := exchanges[id := n], log[id := []];
      AddKeeps(p, n, id);
      AddInSteps(p, n, id);
      Join(n, id);
      assert Model() == Add(p, n, id);
      AddedIsTidy(n);
      Submit(n, id, length, badPath, expired, ready);
    }

    /** The first part of `add_exchange`: the exchange belongs to the session, which is not idle any more. */
    method Join(n: nat, id: nat)
      requires n in sessions
      modifies `sessions
      ensures Model() == Set(old(Model()), n, Joined(old(sessions)[n], id))
    {
      var s := sessions[n];
      sessions := sessions[n := s.(generation := s.generation + 1, idle := false, exchanges := s.exchanges + {id})];
    }

    /** The second part: an exchange that cannot be sent fails at once. */
    method Submit(n: nat, id: nat, length: nat, badPath: bool, expired: bool, ready: bool)
      requires Tidy(n) && id in sessions[n].exchanges && id in exchanges && id in log
      modifies this
      ensures Model() == match Objection(length, badPath, expired)
        case Some(error) => Complete(old(Model()), n, id, Error(error), ready)
        case None => Start(old(Model()), n)
    {
      if length < 12 || length > 0xffff {
        CompleteExchange(n, id, Error(ProtocolFraming), ready);
        return;
      }
      if badPath {
        CompleteExchange(n, id, Error(Configuration), ready);
        return;
      }
      if expired {
        CompleteExchange(n, id, Error(Timeout), ready);
        return;
      }
      if !sessions[n].started {
        sessions := sessions[n := sessions[n].(started := true, opening := true)];
      }
    }

    lemma AddedIsTidy(n: nat)
      requires Listed(activeSessions, idleSessions, sessions, {n}) && n in activeSessions
      ensures Tidy(n)
    {
    }

    /** The session for a new exchange, in the active list. */
    method Select() returns (n: nat)
      requires forall n :: n in activeSessions ==> n in sessions
      modifies this
      ensures n == Choose(old(Model())) && Model() == Enlisted(old(Model()), n)
    {
      var best := Candidate();
      if best.Some? {
        n := best.value;
        return;
      }
      if idleSessions != [] {
        n := idleSessions[|idleSessions| - 1];
        idleSessions := idleSessions[..|idleSessions| - 1];
        activeSessions := activeSessions + [n];
        return;
      }
      n := nextSession;
      nextSession := nextSession + 1;
      sessions := sessions[n := NewSession()];
      activeSessions := activeSessions + [n];
    }

    // ----- Connections and timers

    /** The dialer's answer for a session: a datagram handle, or the reason why there is none. */
    method DatagramOpened(n: nat, failure: Option<ErrorCode>)
      requires Valid(Model()) && n in sessions && sessions[n].opening
      modifies this
      ensures Model() == Opened(old(Model()), n, failure)
    {
      HeldFacts(Model(), n);
      SetOpeningKeeps(Model(), n);
      sessions := sessions[n := sessions[n].(opening := false)];
      if sessions[n].retired {
        return;
      }
      assert sessions[n].exchanges != {}; // the session that is being opened is never found empty
      if failure.Some? {
        FailSession(n, failure.value);
        return;
      }
      sessions := sessions[n := sessions[n].(connected := true)];
    }

    method OnIdleTimer(n: nat, generation: nat)
      requires n in sessions
      modifies this
      ensures Model() == TimerFires(old(Model()), n, generation)
    {
      sessions := sessions[n := sessions[n].(timers := sessions[n].timers - {generation})];
      if !sessions[n].retired && generation == sessions[n].generation && sessions[n].exchanges == {} {
        CloseIdle(n);
      }
    }

    // ----- Stopping

    method CancelAll(n: nat, ready: bool)
      requires Tidy(n) && sessions[n].exchanges <= exchanges.Keys && exchanges.Keys <= log.Keys
      modifies this
      ensures Model() == Spec.CancelAll(old(Model()), n, ready)
    {
      ghost var p := Model();
      var left := sessions[n].exchanges;
      LeaveNothing(p, n, Error(Cancelled));
      assert left - left == {};
      while left != {}
        invariant left <= p.sessions[n].exchanges
        invariant left != {} ==> Tidy(n) && Model() == Leave(p, n, p.sessions[n].exchanges - left, Error(Cancelled))
        invariant left == {} ==> Model() == Spec.CancelAll(p, n, ready)
      {
        var id :| id in left;
        CancelOneMore(p, n, left, id, ready);
        CompleteExchange(n, id, Error(Cancelled), ready);
        left := left - {id};
      }
    }

    method StopTransport(ready: set<nat>)
      requires Valid(Model())
      modifies this
      ensures Model() == Stop(old(Model()), ready)
    {
      if stopped {
        return;
      }
      ghost var p := Model().(stopped := true);
      stopped := true;
      var active := activeSessions;
      for i := 0 to |active|
        invariant Model() == CancelEach(p, active[..i], ready)
      {
        CancelEachKeeps(p, i, ready);
        assert active[..i + 1][..i] == active[..i] && active[i] == active[i..][0];
        FirstIsTidy();
        HeldFacts(Model(), active[i]);
        CancelAll(active[i], active[i] in ready);
      }
      assert active[..|active|] == active;
      CancelEachKeeps(p, |active|, ready);
      CloseAll();
    }

    lemma FirstIsTidy()
      requires Coherent(Model(), {}) && activeSessions != []
      ensures Tidy(activeSessions[0])
    {
      assert activeSessions[0] in activeSessions;
      Weaken(Model(), activeSessions[0]);
      AddedIsTidy(activeSessions[0]);
    }

    method CloseAll()
      requires Coherent(Model(), {}) && activeSessions == []
      modifies this
      ensures Model() == RetireEach(old(Model()).(idle := []), old(idleSessions))
    {
      ghost var q := Model().(idle := []);
      assert q.(idle := idleSessions) == Model();
      var idle := idleSessions;
      idleSessions := [];
      for i := 0 to |idle|
        invariant Model() == RetireEach(q, idle[..i])
      {
        RetireEachKeeps(q, idle, i);
        assert idle[..i + 1][..i] == idle[..i] && idle[i] == idle[i..][0];
        RestingFacts(Model().(idle := idle[i..]));
        CloseIdle(idle[i]);
      }
      assert idle[..|idle|] == idle;
    }
  }
}
