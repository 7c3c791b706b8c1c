/**
 * How often the plain DNS transport sends the frame of an exchange over its TCP session:
 * once, unless so many exchanges are opened while an ID is still used by the session that
 * it is given out again.
 */
module DnsTransportFrames {
  import opened Core
  import opened TransactionIds
  import opened TcpSessionSpec
  import opened DnsTransportSpec
  import opened DnsTransportReuse
  import Frames = TcpSessionRuns

  /** The live exchanges that have not gone over to TCP, with their IDs. */
  function Unjoined(t: Transport): map<nat, Word16> {
    map id | id in t.ops && id in t.operations && t.ops[id].phase != AwaitingTcp :: t.ops[id].queryId
  }

  predicate UsedBy(session: Option<Session>, q: Word16) {
    session.Some? && Frames.StillUsed(session.value, q)
  }

  /** The session's frames are in order, and it does not use the ID of an exchange that may still join it. */
  ghost predicate Ordered(session: Option<Session>, unjoined: map<nat, Word16>) {
    && (session.Some? ==> Frames.Orderly(session.value))
    && forall id :: id in unjoined ==> !UsedBy(session, unjoined[id])
  }

  /** Nothing is used that was not used before. */
  ghost predicate Narrows(s: Session, u: Session) {
    forall q :: Frames.StillUsed(u, q) ==> Frames.StillUsed(s, q)
  }

  lemma FlushNarrows(s: Session)
    ensures Narrows(s, FlushWrites(s, s.generation))
  {
  }

  lemma LoseNarrows(s: Session, error: ErrorCode)
    requires forall w :: w in s.writes ==> w.generation <= s.generation
    ensures Narrows(s, FailAll(CloseConnection(s), error))
  {
  }

  lemma WrittenNarrows(s: Session, w: Write, ok: bool)
    requires TcpSessionSpec.Valid(s) && w in s.writes
    ensures Narrows(s, Written(s, w, ok))
  {
    var t := s.(writes := s.writes - {w});
    if w.generation == t.generation && !t.stopped {
      if ok {
        var u := t.(writing := false, queue := PopIf(t.queue, w.id));
        assert Narrows(s, u);
        FlushNarrows(u);
      } else {
        LoseNarrows(t.(writing := false), TransportIo);
      }
    }
  }

  lemma ConnectedNarrows(s: Session, generation: nat)
    ensures Narrows(s, Connected(s, generation))
  {
    var t := s.(connects := s.connects - {generation}, stream := Some(generation));
    if generation == t.generation && !t.stopped {
      FlushNarrows(ReadFrame(t.(connecting := false, connected := true), generation));
    }
  }

  lemma BodyNarrows(s: Session, generation: nat, frame: Option<Frame>)
    requires TcpSessionSpec.Valid(s)
    ensures Narrows(s, BodyRead(s, generation, frame))
  {
    var t := s.(pulls := s.pulls - {Read(generation, true)});
    if generation == t.generation && !t.stopped {
      LoseNarrows(t, TransportIo);
      LoseNarrows(t, ProtocolFraming);
    }
  }

  lemma CallNarrows(s: Session, call: TcpSessionSpec.Event)
    requires TcpSessionSpec.Valid(s) && TcpSessionSpec.Enabled(s, call)
    ensures Narrows(s, TcpSessionSpec.Step(s, call))
  {
    match call
    case Opened(generation) => ConnectedNarrows(s, generation);
    case OpenFailed(generation, error) => LoseNarrows(s.(connects := s.connects - {generation}), error);
    case WriteDone(write, ok) => WrittenNarrows(s, write, ok);
    case LengthDone(generation, _) =>
      LoseNarrows(s.(pulls := s.pulls - {Read(generation, false)}, reading := false), TransportIo);
      LoseNarrows(s.(pulls := s.pulls - {Read(generation, false)}, reading := false), ProtocolFraming);
    case BodyDone(generation, frame) => BodyNarrows(s, generation, frame);
    case DeadlineFired(_) =>
  }

  lemma FailNarrows(s: Session, id: Word16, error: ErrorCode)
    ensures Narrows(s, FailRequest(s, id, error))
  {
  }

  // ----- The transport's steps

  lemma FinishOrdered(t: Transport, id: nat, outcome: Outcome)
    requires id in t.ops && id in t.log && Ordered(t.session, Unjoined(t))
    ensures Ordered(Finish(t, id, outcome).session, Unjoined(Finish(t, id, outcome)))
  {
    var op := t.ops[id];
    if !op.completed {
      assert Unjoined(Finish(t, id, outcome)) == Unjoined(t) - {id};
      if op.phase == AwaitingTcp && t.session.Some? {
        Frames.FailRequestStaysOrderly(t.session.value, op.queryId, Cancelled);
        FailNarrows(t.session.value, op.queryId, Cancelled);
      }
    }
  }

  lemma PhaseOrdered(t: Transport, id: nat, phase: Phase)
    requires id in t.ops && phase != AwaitingTcp && t.ops[id].phase != AwaitingTcp && Ordered(t.session, Unjoined(t))
    ensures Ordered(SetPhase(t, id, phase).session, Unjoined(SetPhase(t, id, phase)))
  {
    assert Unjoined(SetPhase(t, id, phase)) == Unjoined(t);
  }

  lemma EndOrdered(t: Transport, id: nat, outcome: Outcome)
    requires id in t.ops && id in t.log && t.ops[id].phase != AwaitingTcp && Ordered(t.session, Unjoined(t))
    ensures var u := Finish(SetPhase(t, id, Gone), id, outcome); Ordered(u.session, Unjoined(u))
  {
    PhaseOrdered(t, id, Gone);
    FinishOrdered(SetPhase(t, id, Gone), id, outcome);
  }

  lemma ExchangeUses(s: Session, q: Word16, length: nat, owner: nat, other: Word16)
    requires Frames.StillUsed(Exchange(s, q, length, owner), other) && other != q
    ensures Frames.StillUsed(s, other)
  {
    if !s.stopped && 0 < length <= 0xffff && q !in s.pending {
      var u := ConnectIfNeeded(s.(pending := s.pending[q := owner], queue := s.queue + [q]));
      FlushNarrows(u);
      assert Frames.StillUsed(u, other);
    }
  }

  lemma JoinOrdered(t: Transport, id: nat)
    requires DnsTransportSpec.Valid(t) && id in t.operations && id in t.ops && t.ops[id].phase != AwaitingTcp && !t.stopped
    requires Ordered(t.session, Unjoined(t))
    ensures var s := if t.session.Some? then t.session.value else TcpSessionSpec.Initial();
      var u := SetPhase(t, id, AwaitingTcp).(session := Some(Exchange(s, t.ops[id].queryId, t.ops[id].length, id)));
      Ordered(u.session, Unjoined(u))
  {
    var s := if t.session.Some? then t.session.value else TcpSessionSpec.Initial();
    var q, length := t.ops[id].queryId, t.ops[id].length;
    var u := SetPhase(t, id, AwaitingTcp).(session := Some(Exchange(s, q, length, id)));
    if t.session.Some? {
      IdIsFreeOnSession(t, id);
    }
    assert id in Unjoined(t) && !Frames.StillUsed(s, q);
    Frames.RequestStaysOrderly(s, q, length, id);
    forall other | other in Unjoined(u) ensures !UsedBy(u.session, Unjoined(u)[other]) {
      assert other in Held(t) && id in Held(t) && other != id && other in Unjoined(t);
      assert Unjoined(u)[other] == Unjoined(t)[other] != q;
      if UsedBy(u.session, Unjoined(u)[other]) {
        ExchangeUses(s, q, length, id, Unjoined(u)[other]);
      }
    }
  }

  lemma RunTcpOrdered(t: Transport, id: nat)
    requires DnsTransportSpec.Valid(t) && id in t.ops && id in t.log && t.ops[id].phase != AwaitingTcp && Ordered(t.session, Unjoined(t))
    ensures Ordered(RunTcp(t, id).session, Unjoined(RunTcp(t, id)))
  {
    if t.ops[id].completed {
      PhaseOrdered(t, id, Gone);
    } else if t.stopped {
      FinishOrdered(t, id, Error(Configuration));
    } else {
      assert id in t.operations;
      JoinOrdered(t, id);
    }
  }

  lemma RunOrdered(t: Transport, id: nat, expired: bool)
    requires DnsTransportSpec.Valid(t) && At(t, id, Ready) && Ordered(t.session, Unjoined(t))
    ensures Ordered(Run(t, id, expired).session, Unjoined(Run(t, id, expired)))
  {
    if expired {
      EndOrdered(t, id, Error(Timeout));
    } else if t.preferTcp {
      RunTcpOrdered(t, id);
    } else {
      PhaseOrdered(t, id, Opening);
    }
  }

  lemma DialedOrdered(t: Transport, id: nat, failure: Option<ErrorCode>)
    requires At(t, id, Opening) && Ordered(t.session, Unjoined(t))
    ensures Ordered(DatagramOpened(t, id, failure).session, Unjoined(DatagramOpened(t, id, failure)))
  {
    PhaseOrdered(t, id, Gone);
    PhaseOrdered(t, id, Sending);
    if failure.Some? {
      EndOrdered(t, id, Error(failure.value));
    }
  }

  lemma SentOrdered(t: Transport, id: nat, failure: Option<ErrorCode>)
    requires At(t, id, Sending) && Ordered(t.session, Unjoined(t))
    ensures Ordered(Sent(t, id, failure).session, Unjoined(Sent(t, id, failure)))
  {
    PhaseOrdered(t, id, Gone);
    PhaseOrdered(t, id, Receiving);
    if failure.Some? {
      EndOrdered(t, id, Error(failure.value));
    }
  }

  lemma ArrivedOrdered(t: Transport, id: nat, arrival: Arrival)
    requires DnsTransportSpec.Valid(t) && At(t, id, Receiving) && Ordered(t.session, Unjoined(t))
    ensures Ordered(Arrived(t, id, arrival).session, Unjoined(Arrived(t, id, arrival)))
  {
    PhaseOrdered(t, id, Gone);
    RunTcpOrdered(t, id);
    match arrival
    case ReceiveFailed(error) => EndOrdered(t, id, Error(error));
    case Undecodable(error) => EndOrdered(t, id, Error(error));
    case Decoded(packet) => EndOrdered(t, id, Answer(packet));
    case Foreign =>
  }

  lemma RepliedOrdered(t: Transport, id: nat, decoded: Option<Packet>)
    requires id in t.ops && id in t.log && t.session.Some? && id in t.session.value.channels && Ordered(t.session, Unjoined(t))
    ensures Ordered(TcpReplied(t, id, decoded).session, Unjoined(TcpReplied(t, id, decoded)))
  {
    var reply := t.session.value.channels[id];
    FinishOrdered(t, id, if reply.Lost? then Error(reply.error) else Error(ProtocolFraming));
    if decoded.Some? {
      FinishOrdered(t, id, Answer(decoded.value));
    }
  }

  /** An ID that is given out is not used by the session. */
  ghost predicate Rested(t: Transport) {
    !t.stopped ==>
      var chosen := Scan(t.active, t.cursor, IdCount()).0; chosen.Some? ==> !UsedBy(t.session, chosen.value)
  }

  lemma RejectOrdered(t: Transport, query: seq<Question>, length: nat, cursor: Word16, error: ErrorCode)
    requires t.nextExchange !in t.operations && Ordered(t.session, Unjoined(t))
    ensures var u := Reject(t, query, length, cursor, error); Ordered(u.session, Unjoined(u))
  {
    assert Unjoined(Reject(t, query, length, cursor, error)) == Unjoined(t);
  }

  lemma BeginOrdered(t: Transport, query: seq<Question>, length: nat, q: Word16, cursor: Word16)
    requires Ordered(t.session, Unjoined(t)) && !UsedBy(t.session, q)
    ensures var u := Begin(t, query, length, q, cursor); Ordered(u.session, Unjoined(u))
  {
    assert Unjoined(Begin(t, query, length, q, cursor)) == Unjoined(t)[t.nextExchange := q];
  }

  lemma OpenOrdered(t: Transport, query: seq<Question>, length: nat)
    requires DnsTransportSpec.Valid(t) && Ordered(t.session, Unjoined(t)) && Rested(t)
    ensures Ordered(Open(t, query, length).session, Unjoined(Open(t, query, length)))
  {
    NextIsNew(t);
    var (chosen, cursor) := Scan(t.active, t.cursor, IdCount());
    if t.stopped {
      RejectOrdered(t, query, length, t.cursor, Cancelled);
    } else if chosen.None? {
      RejectOrdered(t, query, length, cursor, Configuration);
    } else {
      BeginOrdered(t, query, length, chosen.value, cursor);
      if length < 2 {
        FinishOrdered(Begin(t, query, length, chosen.value, cursor), t.nextExchange, Error(ProtocolFraming));
      }
    }
  }

  lemma StopOrdered(t: Transport)
    requires DnsTransportSpec.Valid(t) && Ordered(t.session, Unjoined(t))
    ensures Ordered(StopAll(t).session, Unjoined(StopAll(t)))
  {
    if !t.stopped && t.session.Some? && !t.session.value.stopped {
      Frames.LossStaysOrderly(t.session.value.(stopped := true), Cancelled);
    }
  }

  lemma SessionOrdered(t: Transport, call: TcpSessionSpec.Event)
    requires DnsTransportSpec.Valid(t) && Ordered(t.session, Unjoined(t)) && t.session.Some? && TcpSessionSpec.Enabled(t.session.value, call)
    ensures Ordered(Some(TcpSessionSpec.Step(t.session.value, call)), Unjoined(t))
  {
    Frames.CallStaysOrderly(t.session.value, call);
    CallNarrows(t.session.value, call);
  }

  lemma StepOrdered(t: Transport, e: DnsTransportSpec.Event)
    requires DnsTransportSpec.Valid(t) && DnsTransportSpec.Enabled(t, e) && Ordered(t.session, Unjoined(t))
    requires e.OpenExchange? ==> Rested(t)
    ensures var u := DnsTransportSpec.Step(t, e); Ordered(u.session, Unjoined(u))
  {
    match e
    case OpenExchange(query, length) => OpenOrdered(t, query, length);
    case RunTask(id, expired) => RunOrdered(t, id, expired);
    case DialDone(id, failure) => DialedOrdered(t, id, failure);
    case SendDone(id, failure) => SentOrdered(t, id, failure);
    case ReceiveDone(id, arrival) => ArrivedOrdered(t, id, arrival);
    case TcpWake(id, decoded) => RepliedOrdered(t, id, decoded);
    case Expire(id) => FinishOrdered(t, id, Error(Timeout));
    case CancelRequest(id) =>
      if id in t.operations {
        FinishOrdered(t, id, Error(Cancelled));
      }
    case OnSession(event) => SessionOrdered(t, event);
    case StopRequest => StopOrdered(t);
  }

  // ----- Every run

  /** `q` was given out for the last time before state `m` by event `k`. */
  ghost predicate LastUse(trace: seq<Transport>, events: seq<DnsTransportSpec.Event>, k: nat, m: nat, q: Word16) {
    k < m <= |events| && Uses(trace, events, k, q) && forall j: nat :: k < j < m ==> !Uses(trace, events, j, q)
  }

  /**
   * As long as the session uses an ID, fewer than 65534 exchanges, less those that were
   * live then, are opened from its last use on.
   */
  ghost predicate Patient(trace: seq<Transport>, events: seq<DnsTransportSpec.Event>) {
    forall k: nat, m: nat, q: Word16 :: m < |trace| && LastUse(trace, events, k, m, q) && UsedBy(trace[m].session, q) ==>
      Openings(events, k + 1, m) + |trace[k].active| < 0xfffe
  }

  ghost predicate GivenOut(trace: seq<Transport>, events: seq<DnsTransportSpec.Event>, n: nat, q: Word16) {
    exists k: nat :: k < n && Uses(trace, events, k, q)
  }

  lemma {:induction false} FindLastUse(trace: seq<Transport>, events: seq<DnsTransportSpec.Event>, n: nat, q: Word16) returns (k: nat)
    requires n <= |events| && GivenOut(trace, events, n, q)
    ensures LastUse(trace, events, k, n, q)
    decreases n
  {
    if Uses(trace, events, n - 1, q) {
      k := n - 1;
    } else {
      k := FindLastUse(trace, events, n - 1, q);
    }
  }

  function IdsOf(t: Transport): set<Word16> {
    set id | id in t.ops :: t.ops[id].queryId
  }

  /** The IDs of all exchanges, and those that the session uses, have been given out. */
  ghost predicate AllGivenOut(trace: seq<Transport>, events: seq<DnsTransportSpec.Event>, n: nat)
    requires n < |trace|
  {
    forall q: Word16 :: q != 0 && (q in IdsOf(trace[n]) || UsedBy(trace[n].session, q)) ==> GivenOut(trace, events, n, q)
  }

  /** No ID is used on the session, or held by an exchange, that was not one before, but for those given out. */
  ghost predicate Inherits(t: Transport, u: Transport, given: set<Word16>) {
    && IdsOf(u) <= IdsOf(t) + given + {0}
    && forall q :: UsedBy(u.session, q) ==> UsedBy(t.session, q) || q in IdsOf(t)
  }

  lemma PhaseIds(t: Transport, id: nat, phase: Phase)
    requires id in t.ops
    ensures IdsOf(SetPhase(t, id, phase)) == IdsOf(t)
  {
    assert forall k :: k in t.ops ==> SetPhase(t, id, phase).ops[k].queryId == t.ops[k].queryId;
  }

  lemma FinishInherits(t: Transport, id: nat, outcome: Outcome)
    requires id in t.ops && id in t.log
    ensures Inherits(t, Finish(t, id, outcome), {})
  {
    if t.session.Some? {
      FailNarrows(t.session.value, t.ops[id].queryId, Cancelled);
    }
  }

  lemma EndInherits(t: Transport, id: nat, outcome: Outcome)
    requires id in t.ops && id in t.log
    ensures Inherits(t, Finish(SetPhase(t, id, Gone), id, outcome), {})
  {
    PhaseIds(t, id, Gone);
    FinishInherits(SetPhase(t, id, Gone), id, outcome);
  }

  lemma PhaseInherits(t: Transport, id: nat, phase: Phase)
    requires id in t.ops
    ensures Inherits(t, SetPhase(t, id, phase), {})
  {
    PhaseIds(t, id, phase);
  }

  lemma RunTcpInherits(t: Transport, id: nat)
    requires id in t.ops && id in t.log
    ensures Inherits(t, RunTcp(t, id), {})
  {
    PhaseInherits(t, id, Gone);
    FinishInherits(t, id, Error(Configuration));
    if !t.ops[id].completed && !t.stopped {
      PhaseIds(t, id, AwaitingTcp);
      var s := if t.session.Some? then t.session.value else TcpSessionSpec.Initial();
      var q, length := t.ops[id].queryId, t.ops[id].length;
      forall other | UsedBy(RunTcp(t, id).session, other) ensures UsedBy(t.session, other) || other in IdsOf(t) {
        if other != q {
          ExchangeUses(s, q, length, id, other);
        }
      }
    }
  }

  lemma ArrivedInherits(t: Transport, id: nat, arrival: Arrival)
    requires id in t.ops && id in t.log
    ensures Inherits(t, Arrived(t, id, arrival), {})
  {
    RunTcpInherits(t, id);
    PhaseInherits(t, id, Gone);
    match arrival
    case ReceiveFailed(error) => EndInherits(t, id, Error(error));
    case Undecodable(error) => EndInherits(t, id, Error(error));
    case Decoded(packet) => EndInherits(t, id, Answer(packet));
    case Foreign =>
  }

  lemma RepliedInherits(t: Transport, id: nat, decoded: Option<Packet>)
    requires id in t.ops && id in t.log && t.session.Some? && id in t.session.value.channels
    ensures Inherits(t, TcpReplied(t, id, decoded), {})
  {
    var reply := t.session.value.channels[id];
    FinishInherits(t, id, if reply.Lost? then Error(reply.error) else Error(ProtocolFraming));
    if decoded.Some? {
      FinishInherits(t, id, Answer(decoded.value));
    }
  }

  lemma OpenInherits(t: Transport, query: seq<Question>, length: nat)
    ensures var chosen := Scan(t.active, t.cursor, IdCount()).0;
      Inherits(t, Open(t, query, length), if !t.stopped && chosen.Some? then {chosen.value} else {})
  {
    var (chosen, cursor) := Scan(t.active, t.cursor, IdCount());
    if !t.stopped && chosen.Some? {
      BeginInherits(t, query, length, chosen.value, cursor);
      if length < 2 {
        FinishInherits(Begin(t, query, length, chosen.value, cursor), t.nextExchange, Error(ProtocolFraming));
      }
    } else {
      RejectInherits(t, query, length, cursor, Configuration);
      RejectInherits(t, query, length, t.cursor, Cancelled);
    }
  }

  lemma BeginInherits(t: Transport, query: seq<Question>, length: nat, q: Word16, cursor: Word16)
    ensures var u := Begin(t, query, length, q, cursor);
      IdsOf(u) <= IdsOf(t) + {q} && u.session == t.session && u.ops[t.nextExchange].phase == Ready
  {
  }

  lemma RejectInherits(t: Transport, query: seq<Question>, length: nat, cursor: Word16, error: ErrorCode)
    ensures Inherits(t, Reject(t, query, length, cursor, error), {})
  {
  }

  lemma StopInherits(t: Transport)
    requires DnsTransportSpec.Valid(t)
    ensures Inherits(t, StopAll(t), {})
  {
    assert forall id :: id in StopAll(t).ops ==> id in t.ops && StopAll(t).ops[id].queryId == t.ops[id].queryId;
    if !t.stopped && t.session.Some? && !t.session.value.stopped {
      LoseNarrows(t.session.value.(stopped := true), Cancelled);
    }
  }

  lemma SessionInherits(t: Transport, call: TcpSessionSpec.Event)
    requires DnsTransportSpec.Valid(t) && t.session.Some? && TcpSessionSpec.Enabled(t.session.value, call)
    ensures Inherits(t, t.(session := Some(TcpSessionSpec.Step(t.session.value, call))), {})
  {
    CallNarrows(t.session.value, call);
  }

  lemma DatagramInherits(t: Transport, id: nat, failure: Option<ErrorCode>)
    requires id in t.ops && id in t.log
    ensures Inherits(t, DatagramOpened(t, id, failure), {}) && Inherits(t, Sent(t, id, failure), {})
  {
    PhaseInherits(t, id, Gone);
    PhaseInherits(t, id, Sending);
    PhaseInherits(t, id, Receiving);
    if failure.Some? {
      EndInherits(t, id, Error(failure.value));
    }
  }

  lemma RunInherits(t: Transport, id: nat, expired: bool)
    requires id in t.ops && id in t.log
    ensures Inherits(t, Run(t, id, expired), {})
  {
    EndInherits(t, id, Error(Timeout));
    RunTcpInherits(t, id);
    PhaseInherits(t, id, Opening);
  }

  lemma StepInherits(t: Transport, e: DnsTransportSpec.Event)
    requires DnsTransportSpec.Valid(t) && DnsTransportSpec.Enabled(t, e) && !e.OpenExchange?
    ensures Inherits(t, DnsTransportSpec.Step(t, e), {})
  {
    match e
    case RunTask(id, expired) => RunInherits(t, id, expired);
    case DialDone(id, failure) => DatagramInherits(t, id, failure);
    case SendDone(id, failure) => DatagramInherits(t, id, failure);
    case ReceiveDone(id, arrival) => ArrivedInherits(t, id, arrival);
    case TcpWake(id, decoded) => RepliedInherits(t, id, decoded);
    case Expire(id) => FinishInherits(t, id, Error(Timeout));
    case CancelRequest(id) =>
      if id in t.operations {
        FinishInherits(t, id, Error(Cancelled));
      }
    case OnSession(event) => SessionInherits(t, event);
    case StopRequest => StopInherits(t);
  }

  lemma {:induction false} UsedWereGivenOut(trace: seq<Transport>, events: seq<DnsTransportSpec.Event>, n: nat)
    requires IsRun(trace, events) && n < |trace|
    ensures AllGivenOut(trace, events, n)
    decreases n
  {
    if n > 0 {
      UsedWereGivenOut(trace, events, n - 1);
      RunsAreValid(trace, events, n - 1);
      assert Follows(trace, events, n);
      var t, e := trace[n - 1], events[n - 1];
      if e.OpenExchange? {
        OpenInherits(t, e.query, e.length);
      } else {
        StepInherits(t, e);
      }
      GivenOutNext(trace, events, n);
    }
  }

  lemma GivenOutNext(trace: seq<Transport>, events: seq<DnsTransportSpec.Event>, n: nat)
    requires |trace| == |events| + 1 && 0 < n < |trace| && AllGivenOut(trace, events, n - 1)
    requires var t := trace[n - 1]; var chosen := Scan(t.active, t.cursor, IdCount()).0;
      Inherits(t, trace[n], if events[n - 1].OpenExchange? && !t.stopped && chosen.Some? then {chosen.value} else {})
    ensures AllGivenOut(trace, events, n)
  {
    var t := trace[n - 1];
    forall q: Word16 | q != 0 && (q in IdsOf(trace[n]) || UsedBy(trace[n].session, q)) ensures GivenOut(trace, events, n, q) {
      if q in IdsOf(t) || UsedBy(t.session, q) {
        assert GivenOut(trace, events, n - 1, q);
      } else {
        assert Uses(trace, events, n - 1, q);
      }
    }
  }

  /** In a patient run, an ID that is given out is never one that the session still uses. */
  lemma PatientRunsRest(trace: seq<Transport>, events: seq<DnsTransportSpec.Event>, n: nat)
    requires IsRun(trace, events) && n < |events| && Patient(trace, events) && events[n].OpenExchange?
    ensures Rested(trace[n])
  {
    var t := trace[n];
    var chosen := Scan(t.active, t.cursor, IdCount()).0;
    if !t.stopped && chosen.Some? && UsedBy(t.session, chosen.value) {
      var q := chosen.value;
      UsedWereGivenOut(trace, events, n);
      var k := FindLastUse(trace, events, n, q);
      IdsComeBackLate(trace, events, k, n, q);
      assert false;
    }
  }

  /**
   * In every patient run of the transport, no exchange's frame goes out twice over TCP,
   * and that of every exchange that waits is in the queue or has gone out.
   */
  lemma {:induction false} FramesGoOutOnce(trace: seq<Transport>, events: seq<DnsTransportSpec.Event>, n: nat)
    requires IsRun(trace, events) && n < |trace| && Patient(trace, events)
    ensures Ordered(trace[n].session, Unjoined(trace[n]))
    ensures trace[n].session.Some? ==>
      var s := trace[n].session.value;
      Distinct(s.frames) && forall q :: q in s.pending ==> q in s.queue || s.pending[q] in s.frames
    decreases n
  {
    if n > 0 {
      FramesGoOutOnce(trace, events, n - 1);
      RunsAreValid(trace, events, n - 1);
      assert Follows(trace, events, n);
      if events[n - 1].OpenExchange? {
        PatientRunsRest(trace, events, n - 1);
      }
      StepOrdered(trace[n - 1], events[n - 1]);
    }
  }
}
