/**
 * Transaction IDs of a DNS transport (`next_query_id`, src/dns/dns_transport.cpp):
 * a 16-bit cursor that skips zero and the IDs in use.
 */
module TransactionIds {
  import opened Arithmetic
  import opened Core

  /** The number of non-zero IDs, which is also the number of attempts. */
  function IdCount(): nat { 0xffff }

  function Advance(cursor: Word16): (r: Word16)
    ensures r != 0
  {
    if cursor == 0xffff then 1 else cursor + 1
  }

  /** The first ID of the next `n` ones in cyclic order that is free, and the cursor behind it. */
  function Scan(active: set<Word16>, cursor: Word16, n: nat): (r: (Option<Word16>, Word16))
    ensures n > 0 || cursor != 0 ==> r.1 != 0
    ensures r.0.Some? ==> r.0.value != 0 && r.0.value !in active
    decreases n
  {
    if n == 0 then (None, cursor)
    else if cursor != 0 && cursor !in active then (Some(cursor), Advance(cursor))
    else Scan(active, Advance(cursor), n - 1)
  }

  function Ahead(cursor: Word16, k: nat): (r: Word16)
    requires cursor != 0 && k < IdCount()
    ensures r != 0
  {
    1 + Wrap(cursor - 1 + k, IdCount())
  }

  lemma {:induction false} ScanFails(active: set<Word16>, cursor: Word16, n: nat)
    requires cursor != 0 && n <= IdCount()
    ensures Scan(active, cursor, n).0 == None ==> forall k: nat :: k < n ==> Ahead(cursor, k) in active
    decreases n
  {
    if n > 0 && cursor in active {
      ScanFails(active, Advance(cursor), n - 1);
      forall k: nat | Scan(active, cursor, n).0 == None && k < n ensures Ahead(cursor, k) in active {
        if k > 0 {
          assert Ahead(Advance(cursor), k - 1) == Ahead(cursor, k);
        }
      }
    }
  }

  /** The scan gives up exactly when every non-zero ID is in use. */
  lemma ScanFailsIffFull(active: set<Word16>, cursor: Word16)
    requires cursor != 0
    ensures Scan(active, cursor, IdCount()).0 == None <==> forall id: Word16 :: id != 0 ==> id in active
  {
    ScanFails(active, cursor, IdCount());
    if Scan(active, cursor, IdCount()).0 == None {
      forall id: Word16 | id != 0 ensures id in active {
        var k := if id >= cursor then id - cursor else id - cursor + IdCount();
        assert Ahead(cursor, k) == id;
      }
    }
  }
}

/**
 * The plain DNS transport (`AsioDnsTransport`, src/dns/dns_transport.cpp) as a
 * function of its state: every stretch of code between two suspensions of an
 * exchange is one step, and the outcomes handed to callers are logged.
 */
module DnsTransportSpec {
  import opened Core
  import opened TransactionIds
  import opened TcpSessionSpec
  import Names

  datatype Question = Question(name: string, kind: Word16, classCode: Word16)

  datatype Packet = Packet(response: bool, truncated: bool, questions: seq<Question>)

  datatype Outcome = Answer(packet: Packet) | Error(error: ErrorCode)

  /** Where the coroutine of an exchange is suspended. */
  datatype Phase = Ready | Opening | Sending | Receiving | AwaitingTcp | Gone

  /** `length` is the size of the query's wire form. */
  datatype Operation = Operation(query: seq<Question>, length: nat, queryId: Word16, phase: Phase, completed: bool)

  datatype Transport = Transport(
    preferTcp: bool, ops: map<nat, Operation>, operations: set<nat>, active: set<Word16>, cursor: Word16,
    nextExchange: nat, stopped: bool, session: Option<Session>, log: map<nat, seq<Outcome>>)

  /** What the datagram socket delivers. */
  datatype Arrival = ReceiveFailed(error: ErrorCode) | Foreign | Undecodable(error: ErrorCode) | Decoded(packet: Packet)

  predicate SameQuestion(response: Packet, query: seq<Question>) {
    && response.response && |response.questions| == |query|
    && forall i :: 0 <= i < |query| ==>
         && Names.Normalize(response.questions[i].name) == Names.Normalize(query[i].name)
         && response.questions[i].kind == query[i].kind
         && response.questions[i].classCode == query[i].classCode
  }

  function Initial(preferTcp: bool): Transport {
    Transport(preferTcp, map[], {}, {}, 1, 1, false, None, map[])
  }

  // ----- Steps

  function SetPhase(t: Transport, id: nat, phase: Phase): Transport
    requires id in t.ops
  {
    t.(ops := t.ops[id := t.ops[id].(phase := phase)])
  }

  /** Leaving the shared session: the entry under the operation's transaction ID is cancelled. */
  function Leave(session: Option<Session>, op: Operation): Option<Session> {
    if op.phase == AwaitingTcp && session.Some? then Some(FailRequest(session.value, op.queryId, Cancelled)) else session
  }

  /** `Operation::finish` with the transport's `complete`: only the first outcome of an exchange counts. */
  function Finish(t: Transport, id: nat, outcome: Outcome): Transport
    requires id in t.ops && id in t.log
  {
    var op := t.ops[id];
    if op.completed then t
    else t.(ops := t.ops[id := op.(completed := true)], operations := t.operations - {id},
            active := t.active - {op.queryId}, session := Leave(t.session, op), log := t.log[id := t.log[id] + [outcome]])
  }

  /** A new operation that owns the transaction ID `q`. */
  function Begin(t: Transport, query: seq<Question>, length: nat, q: Word16, cursor: Word16): Transport {
    t.(ops := t.ops[t.nextExchange := Operation(query, length, q, Ready, false)],
       operations := t.operations + {t.nextExchange}, log := t.log[t.nextExchange := []],
       nextExchange := t.nextExchange + 1, active := t.active + {q}, cursor := cursor)
  }

  /** An exchange that fails before it owns a transaction ID leaves only its outcome behind. */
  function Reject(t: Transport, query: seq<Question>, length: nat, cursor: Word16, error: ErrorCode): Transport {
    t.(ops := t.ops[t.nextExchange := Operation(query, length, 0, Ready, true)],
       log := t.log[t.nextExchange := [Error(error)]], nextExchange := t.nextExchange + 1, cursor := cursor)
  }

  /** `open_exchange` together with `Operation::start`. */
  function Open(t: Transport, query: seq<Question>, length: nat): Transport {
    if t.stopped then Reject(t, query, length, t.cursor, Cancelled)
    else
      var (chosen, cursor) := Scan(t.active, t.cursor, IdCount());
      if chosen.None? then Reject(t, query, length, cursor, Configuration)
      else
        var u := Begin(t, query, length, chosen.value, cursor);
        if length < 2 then Finish(u, t.nextExchange, Error(ProtocolFraming)) else u
  }

  function RunTcp(t: Transport, id: nat): Transport
    requires id in t.ops && id in t.log
  {
    if t.ops[id].completed then SetPhase(t, id, Gone)
    else if t.stopped then Finish(t, id, Error(Configuration))
    else
      var session := if t.session.Some? then t.session.value else TcpSessionSpec.Initial();
      SetPhase(t, id, AwaitingTcp).(session := Some(Exchange(session, t.ops[id].queryId, t.ops[id].length, id)))
  }

  function Run(t: Transport, id: nat, expired: bool): Transport
    requires id in t.ops && id in t.log
  {
    if expired then Finish(SetPhase(t, id, Gone), id, Error(Timeout))
    else if t.preferTcp then RunTcp(t, id)
    else SetPhase(t, id, Opening)
  }

  /** The dialer's answer: a datagram handle, or the reason why there is none. */
  function DatagramOpened(t: Transport, id: nat, failure: Option<ErrorCode>): Transport
    requires id in t.ops && id in t.log
  {
    if t.ops[id].completed then SetPhase(t, id, Gone)
    else if failure.Some? then Finish(SetPhase(t, id, Gone), id, Error(failure.value))
    else SetPhase(t, id, Sending)
  }

  function Sent(t: Transport, id: nat, failure: Option<ErrorCode>): Transport
    requires id in t.ops && id in t.log
  {
    if failure.Some? then Finish(SetPhase(t, id, Gone), id, Error(failure.value))
    else if t.ops[id].completed then SetPhase(t, id, Gone)
    else SetPhase(t, id, Receiving)
  }

  /** Datagrams of strangers and answers to other questions are skipped; a truncated answer goes on over TCP. */
  function Arrived(t: Transport, id: nat, arrival: Arrival): Transport
    requires id in t.ops && id in t.log
  {
    if arrival.ReceiveFailed? then Finish(SetPhase(t, id, Gone), id, Error(arrival.error))
    else if t.ops[id].completed then SetPhase(t, id, Gone)
    else match arrival
      case Foreign => t
      case Undecodable(error) => Finish(SetPhase(t, id, Gone), id, Error(error))
      case Decoded(packet) =>
        if !SameQuestion(packet, t.ops[id].query) then t
        else if packet.truncated then RunTcp(t, id)
        else Finish(SetPhase(t, id, Gone), id, Answer(packet))
      case ReceiveFailed(_) => t
  }

  /** The one-shot channel of a TCP exchange wakes its operation; `decoded` is the parsed reply. */
  function TcpReplied(t: Transport, id: nat, decoded: Option<Packet>): Transport
    requires id in t.ops && id in t.log && t.session.Some? && id in t.session.value.channels
  {
    if t.ops[id].completed then t
    else if t.session.value.channels[id].Lost? then Finish(t, id, Error(t.session.value.channels[id].error))
    else if decoded.None? || !SameQuestion(decoded.value, t.ops[id].query) then Finish(t, id, Error(ProtocolFraming))
    else Finish(t, id, Answer(decoded.value))
  }

  function CancelExchange(t: Transport, id: nat): Transport
    requires id in t.operations ==> id in t.ops && id in t.log
  {
    if id in t.operations then Finish(t, id, Error(Cancelled)) else t
  }

  /** Every operation is cancelled and the session is stopped. */
  function StopAll(t: Transport): Transport {
    if t.stopped then t
    else t.(
      stopped := true,
      ops := map id | id in t.ops :: t.ops[id].(completed := t.ops[id].completed || id in t.operations),
      operations := {}, active := {},
      log := map id | id in t.log :: if id in t.operations then t.log[id] + [Error(Cancelled)] else t.log[id],
      session := if t.session.Some? then Some(Stop(t.session.value)) else None)
  }

  // ----- What every step keeps. The invariants speak of projections of the
  // ----- state, so that a step that leaves a projection alone keeps them.

  /** The transaction IDs of the live operations. */
  function Held(t: Transport): map<nat, Word16> {
    map id | id in t.ops && id in t.operations :: t.ops[id].queryId
  }

  function Asked(t: Transport): map<nat, seq<Question>> {
    map id | id in t.ops :: t.ops[id].query
  }

  function Finished(t: Transport): set<nat> {
    set id | id in t.ops && t.ops[id].completed
  }

  /** The live operations that wait on the session, with their transaction IDs. */
  function Waiters(t: Transport): map<nat, Word16> {
    map id | id in t.ops && id in t.operations && t.ops[id].phase == AwaitingTcp :: t.ops[id].queryId
  }

  /** The operations that have gone over to TCP. */
  function OnTcp(t: Transport): set<nat> {
    set id | id in t.ops && t.ops[id].phase == AwaitingTcp
  }

  /** Every exchange is live or finished, and numbered consecutively. */
  ghost predicate Counted(all: set<nat>, live: set<nat>, finished: set<nat>, next: nat) {
    next >= 1 && (forall id :: id in all <==> 1 <= id < next) && live !! finished && live + finished == all
  }

  /** Live operations hold distinct non-zero transaction IDs, and these are the active ones. */
  ghost predicate Owned(held: map<nat, Word16>, active: set<Word16>) {
    && (forall id :: id in held ==> held[id] != 0 && held[id] in active)
    && (forall a, b :: a in held && b in held && held[a] == held[b] ==> a == b)
    && (forall q :: q in active ==> exists id :: id in held && held[id] == q)
  }

  /** Session entries belong to live operations under their own IDs, and every operation that waits is served. */
  ghost predicate Served(waiters: map<nat, Word16>, onTcp: set<nat>, s: Session) {
    && (forall q :: q in s.pending ==> s.pending[q] in waiters && waiters[s.pending[q]] == q)
    && s.channels.Keys <= onTcp
    && (forall id :: id in waiters && id !in s.channels ==> waiters[id] in s.pending && s.pending[waiters[id]] == id)
  }

  /** One outcome for every finished exchange, none for a live one, and answers only to the question asked. */
  ghost predicate Logged(log: map<nat, seq<Outcome>>, live: set<nat>, asked: map<nat, seq<Question>>) {
    && log.Keys == asked.Keys
    && (forall id :: id in log && id in live ==> log[id] == [])
    && (forall id :: id in log && id !in live ==> |log[id]| == 1)
    && (forall id :: id in log && id !in live && log[id][0].Answer? ==> SameQuestion(log[id][0].packet, asked[id]))
  }

  ghost predicate Sharing(session: Option<Session>, stopped: bool, waiters: map<nat, Word16>, onTcp: set<nat>) {
    match session
    case None => onTcp == {}
    case Some(s) => TcpSessionSpec.Valid(s) && s.stopped == stopped && Served(waiters, onTcp, s)
  }

  ghost predicate Valid(t: Transport) {
    && t.cursor != 0 && (t.stopped ==> t.operations == {})
    && Counted(t.ops.Keys, t.operations, Finished(t), t.nextExchange)
    && Owned(Held(t), t.active)
    && Sharing(t.session, t.stopped, Waiters(t), OnTcp(t))
    && Logged(t.log, t.operations, Asked(t))
  }

  // ----- Finishing an exchange

  lemma FinishProjections(t: Transport, id: nat, outcome: Outcome)
    requires id in t.ops && id in t.log && !t.ops[id].completed
    ensures var u := Finish(t, id, outcome);
      && u.ops.Keys == t.ops.Keys && Held(u) == Held(t) - {id} && Asked(u) == Asked(t)
      && Finished(u) == Finished(t) + {id} && Waiters(u) == Waiters(t) - {id} && OnTcp(u) == OnTcp(t)
  {
  }

  lemma HeldWaiters(t: Transport)
    ensures forall id :: id in Waiters(t) ==> id in Held(t) && Waiters(t)[id] == Held(t)[id]
    ensures Waiters(t).Keys <= OnTcp(t)
  {
  }

  lemma Released(held: map<nat, Word16>, active: set<Word16>, id: nat)
    requires Owned(held, active) && id in held
    ensures Owned(held - {id}, active - {held[id]})
  {
    forall q | q in active - {held[id]} ensures exists k :: k in held - {id} && (held - {id})[k] == q {
      var k :| k in held && held[k] == q;
      assert k in held - {id};
    }
  }

  lemma LeaveServed(waiters: map<nat, Word16>, onTcp: set<nat>, s: Session, id: nat)
    requires Served(waiters, onTcp, s) && id in waiters && id in onTcp
    requires forall a, b :: a in waiters && b in waiters && waiters[a] == waiters[b] ==> a == b
    ensures Served(waiters - {id}, onTcp, FailRequest(s, waiters[id], Cancelled))
  {
  }

  lemma FinishKeeps(t: Transport, id: nat, outcome: Outcome)
    requires Valid(t) && id in t.ops
    requires outcome.Answer? ==> SameQuestion(outcome.packet, t.ops[id].query)
    ensures Valid(Finish(t, id, outcome))
    ensures id !in Finish(t, id, outcome).operations
  {
    if t.ops[id].completed {
      assert id in Finished(t);
    } else {
      assert id !in Finished(t);
      FinishProjections(t, id, outcome);
      Released(Held(t), t.active, id);
      LeaveKeeps(t, id);
    }
  }

  lemma LeaveKeeps(t: Transport, id: nat)
    requires Sharing(t.session, t.stopped, Waiters(t), OnTcp(t)) && Owned(Held(t), t.active)
    requires id in t.ops && id in t.operations
    ensures Sharing(Leave(t.session, t.ops[id]), t.stopped, Waiters(t) - {id}, OnTcp(t))
  {
    HeldWaiters(t);
    if t.ops[id].phase == AwaitingTcp {
      assert id in OnTcp(t) && id in Waiters(t);
      FailRequestKeeps(t.session.value, t.ops[id].queryId, Cancelled);
      LeaveServed(Waiters(t), OnTcp(t), t.session.value, id);
    } else {
      assert Waiters(t) - {id} == Waiters(t);
    }
  }

  // ----- The steps of an exchange

  lemma PhaseProjections(t: Transport, id: nat, phase: Phase)
    requires id in t.ops
    ensures var u := SetPhase(t, id, phase);
      && u.ops.Keys == t.ops.Keys && Held(u) == Held(t) && Asked(u) == Asked(t) && Finished(u) == Finished(t)
    ensures t.ops[id].phase != AwaitingTcp && phase != AwaitingTcp ==>
      Waiters(SetPhase(t, id, phase)) == Waiters(t) && OnTcp(SetPhase(t, id, phase)) == OnTcp(t)
    ensures phase == AwaitingTcp && id in t.operations ==>
      && Waiters(SetPhase(t, id, phase)) == Waiters(t)[id := t.ops[id].queryId]
      && OnTcp(SetPhase(t, id, phase)) == OnTcp(t) + {id}
  {
  }

  lemma PhaseKeeps(t: Transport, id: nat, phase: Phase)
    requires Valid(t) && id in t.ops && t.ops[id].phase != AwaitingTcp && phase != AwaitingTcp
    ensures Valid(SetPhase(t, id, phase))
  {
    PhaseProjections(t, id, phase);
  }

  /** The coroutine ends with an outcome; the operation may have finished before. */
  lemma EndKeeps(t: Transport, id: nat, outcome: Outcome)
    requires Valid(t) && id in t.ops && t.ops[id].phase != AwaitingTcp
    requires outcome.Answer? ==> SameQuestion(outcome.packet, t.ops[id].query)
    ensures Valid(Finish(SetPhase(t, id, Gone), id, outcome))
  {
    PhaseKeeps(t, id, Gone);
    FinishKeeps(SetPhase(t, id, Gone), id, outcome);
  }

  /** The branch that reports an ID already in use on the session is never taken. */
  lemma IdIsFreeOnSession(t: Transport, id: nat)
    requires Valid(t) && id in t.operations && t.ops[id].phase != AwaitingTcp && t.session.Some?
    ensures t.ops[id].queryId !in t.session.value.pending
    ensures id !in t.session.value.channels && id !in t.session.value.pending.Values
  {
    var s, q := t.session.value, t.ops[id].queryId;
    assert id !in OnTcp(t) && id !in Waiters(t);
    HeldWaiters(t);
    assert id !in Finished(t) && id in Held(t) && Held(t)[id] == q;
    assert forall p :: p in s.pending ==> s.pending[p] in Held(t) && Held(t)[s.pending[p]] == p;
  }

  lemma JoinServed(waiters: map<nat, Word16>, onTcp: set<nat>, s: Session, id: nat, q: Word16, length: nat)
    requires Served(waiters, onTcp, s) && id !in onTcp && waiters.Keys <= onTcp && q !in s.pending
    ensures Served(waiters[id := q], onTcp + {id}, Exchange(s, q, length, id))
  {
    ExchangeEffect(s, q, length, id);
    JoinPending(waiters, onTcp, s, Exchange(s, q, length, id), id, q);
  }

  lemma JoinPending(waiters: map<nat, Word16>, onTcp: set<nat>, s: Session, r: Session, id: nat, q: Word16)
    requires Served(waiters, onTcp, s) && id !in onTcp && waiters.Keys <= onTcp && q !in s.pending
    requires (r.pending == s.pending && r.channels.Keys == s.channels.Keys + {id})
          || (r.pending == s.pending[q := id] && r.channels == s.channels)
    ensures Served(waiters[id := q], onTcp + {id}, r)
  {
  }

  lemma RunTcpKeeps(t: Transport, id: nat)
    requires Valid(t) && id in t.ops && t.ops[id].phase != AwaitingTcp
    ensures Valid(RunTcp(t, id))
  {
    if t.ops[id].completed {
      PhaseKeeps(t, id, Gone);
    } else if t.stopped {
      FinishKeeps(t, id, Error(Configuration));
    } else {
      assert id !in Finished(t);
      PhaseProjections(t, id, AwaitingTcp);
      JoinKeeps(t, id);
    }
  }

  lemma JoinKeeps(t: Transport, id: nat)
    requires Valid(t) && id in t.operations && t.ops[id].phase != AwaitingTcp && !t.stopped
    ensures Sharing(RunTcp(t, id).session, false, Waiters(t)[id := t.ops[id].queryId], OnTcp(t) + {id})
  {
    var op := t.ops[id];
    var s := if t.session.Some? then t.session.value else TcpSessionSpec.Initial();
    assert id !in Finished(t);
    HeldWaiters(t);
    assert id !in OnTcp(t);
    if t.session.Some? {
      IdIsFreeOnSession(t, id);
    }
    ExchangeKeeps(s, op.queryId, op.length, id);
    JoinServed(Waiters(t), OnTcp(t), s, id, op.queryId, op.length);
  }

  lemma RunKeeps(t: Transport, id: nat, expired: bool)
    requires Valid(t) && id in t.ops && t.ops[id].phase == Ready
    ensures Valid(Run(t, id, expired))
  {
    EndKeeps(t, id, Error(Timeout));
    RunTcpKeeps(t, id);
    PhaseKeeps(t, id, Opening);
  }

  lemma DatagramOpenedKeeps(t: Transport, id: nat, failure: Option<ErrorCode>)
    requires Valid(t) && id in t.ops && t.ops[id].phase == Opening
    ensures Valid(DatagramOpened(t, id, failure))
  {
    PhaseKeeps(t, id, Gone);
    PhaseKeeps(t, id, Sending);
    if failure.Some? {
      EndKeeps(t, id, Error(failure.value));
    }
  }

  lemma SentKeeps(t: Transport, id: nat, failure: Option<ErrorCode>)
    requires Valid(t) && id in t.ops && t.ops[id].phase == Sending
    ensures Valid(Sent(t, id, failure))
  {
    PhaseKeeps(t, id, Gone);
    PhaseKeeps(t, id, Receiving);
    if failure.Some? {
      EndKeeps(t, id, Error(failure.value));
    }
  }

  lemma ArrivedKeeps(t: Transport, id: nat, arrival: Arrival)
    requires Valid(t) && id in t.ops && t.ops[id].phase == Receiving
    ensures Valid(Arrived(t, id, arrival))
  {
    PhaseKeeps(t, id, Gone);
    match arrival
    case ReceiveFailed(error) => EndKeeps(t, id, Error(error));
    case Foreign =>
    case Undecodable(error) => EndKeeps(t, id, Error(error));
    case Decoded(packet) => DecodedKeeps(t, id, packet);
  }

  lemma DecodedKeeps(t: Transport, id: nat, packet: Packet)
    requires Valid(t) && id in t.ops && t.ops[id].phase == Receiving
    ensures Valid(Arrived(t, id, Decoded(packet)))
  {
    if t.ops[id].completed {
      PhaseKeeps(t, id, Gone);
    } else if SameQuestion(packet, t.ops[id].query) {
      RunTcpKeeps(t, id);
      EndKeeps(t, id, Answer(packet));
    }
  }

  lemma TcpRepliedKeeps(t: Transport, id: nat, decoded: Option<Packet>)
    requires Valid(t) && id in t.ops && t.session.Some? && id in t.session.value.channels
    ensures Valid(TcpReplied(t, id, decoded))
  {
    if t.session.value.channels[id].Lost? {
      FinishKeeps(t, id, Error(t.session.value.channels[id].error));
    } else if decoded.None? || !SameQuestion(decoded.value, t.ops[id].query) {
      FinishKeeps(t, id, Error(ProtocolFraming));
    } else {
      FinishKeeps(t, id, Answer(decoded.value));
    }
  }

  // ----- Opening an exchange

  lemma BeginProjections(t: Transport, query: seq<Question>, length: nat, q: Word16, cursor: Word16)
    requires t.nextExchange !in t.ops && t.operations <= t.ops.Keys
    ensures var u, id := Begin(t, query, length, q, cursor), t.nextExchange;
      && Held(u) == Held(t)[id := q] && Asked(u) == Asked(t)[id := query] && Finished(u) == Finished(t)
      && Waiters(u) == Waiters(t) && OnTcp(u) == OnTcp(t)
  {
  }

  lemma Acquired(held: map<nat, Word16>, active: set<Word16>, id: nat, q: Word16)
    requires Owned(held, active) && id !in held && q != 0 && q !in active
    ensures Owned(held[id := q], active + {q})
  {
    var h := held[id := q];
    forall p | p in active + {q} ensures exists k :: k in h && h[k] == p {
      if p == q {
        assert id in h;
      } else {
        var k :| k in held && held[k] == p;
        assert k in h;
      }
    }
  }

  lemma NextIsNew(t: Transport)
    requires Counted(t.ops.Keys, t.operations, Finished(t), t.nextExchange)
    ensures t.nextExchange !in t.ops && t.nextExchange !in t.operations && t.operations <= t.ops.Keys
    ensures Counted(t.ops.Keys + {t.nextExchange}, t.operations + {t.nextExchange}, Finished(t), t.nextExchange + 1)
    ensures Counted(t.ops.Keys + {t.nextExchange}, t.operations, Finished(t) + {t.nextExchange}, t.nextExchange + 1)
  {
  }

  lemma BeginKeeps(t: Transport, query: seq<Question>, length: nat, q: Word16, cursor: Word16)
    requires Valid(t) && !t.stopped && q != 0 && q !in t.active && cursor != 0
    ensures Valid(Begin(t, query, length, q, cursor))
  {
    NextIsNew(t);
    BeginProjections(t, query, length, q, cursor);
    Acquired(Held(t), t.active, t.nextExchange, q);
  }

  lemma RejectProjections(t: Transport, query: seq<Question>, length: nat, cursor: Word16, error: ErrorCode)
    requires t.nextExchange !in t.ops && t.operations <= t.ops.Keys
    ensures var u := Reject(t, query, length, cursor, error);
      && Held(u) == Held(t) && Asked(u) == Asked(t)[t.nextExchange := query]
      && Finished(u) == Finished(t) + {t.nextExchange} && Waiters(u) == Waiters(t) && OnTcp(u) == OnTcp(t)
  {
  }

  lemma RejectKeeps(t: Transport, query: seq<Question>, length: nat, cursor: Word16, error: ErrorCode)
    requires Valid(t) && cursor != 0
    ensures Valid(Reject(t, query, length, cursor, error))
  {
    NextIsNew(t);
    RejectProjections(t, query, length, cursor, error);
  }

  lemma OpenKeeps(t: Transport, query: seq<Question>, length: nat)
    requires Valid(t)
    ensures Valid(Open(t, query, length))
  {
    var (chosen, cursor) := Scan(t.active, t.cursor, IdCount());
    if t.stopped {
      RejectKeeps(t, query, length, t.cursor, Cancelled);
    } else if chosen.None? {
      RejectKeeps(t, query, length, cursor, Configuration);
    } else {
      var u := Begin(t, query, length, chosen.value, cursor);
      BeginKeeps(t, query, length, chosen.value, cursor);
      if length < 2 {
        FinishKeeps(u, t.nextExchange, Error(ProtocolFraming));
      }
    }
  }

  // ----- Stopping, and the session's own steps

  lemma StopProjections(t: Transport)
    requires t.operations <= t.ops.Keys && !t.stopped
    ensures var u := StopAll(t);
      && Held(u) == map[] && Asked(u) == Asked(t) && Finished(u) == Finished(t) + t.operations
      && Waiters(u) == map[] && OnTcp(u) == OnTcp(t)
  {
  }

  lemma StopServed(waiters: map<nat, Word16>, onTcp: set<nat>, s: Session)
    requires Served(waiters, onTcp, s) && waiters.Keys <= onTcp && TcpSessionSpec.Valid(s)
    ensures Served(map[], onTcp, Stop(s))
  {
  }

  lemma StopKeepsValid(t: Transport)
    requires Valid(t)
    ensures Valid(StopAll(t))
  {
    if !t.stopped {
      StopProjections(t);
      HeldWaiters(t);
      if t.session.Some? {
        StopKeeps(t.session.value);
        StopServed(Waiters(t), OnTcp(t), t.session.value);
      }
    }
  }

  lemma ServedProgress(waiters: map<nat, Word16>, onTcp: set<nat>, s: Session, r: Session)
    requires Served(waiters, onTcp, s) && Progress(s, r) && waiters.Keys <= onTcp
    ensures Served(waiters, onTcp, r)
  {
  }

  lemma SessionKeeps(t: Transport, e: TcpSessionSpec.Event)
    requires Valid(t) && t.session.Some? && TcpSessionSpec.Enabled(t.session.value, e)
    ensures Valid(t.(session := Some(TcpSessionSpec.Step(t.session.value, e))))
  {
    var u := t.(session := Some(TcpSessionSpec.Step(t.session.value, e)));
    TcpSessionSpec.StepKeeps(t.session.value, e);
    StepProgress(t.session.value, e);
    assert Waiters(u) == Waiters(t) && OnTcp(u) == OnTcp(t);
    assert Held(u) == Held(t) && Asked(u) == Asked(t) && Finished(u) == Finished(t);
    HeldWaiters(t);
    ServedProgress(Waiters(t), OnTcp(t), t.session.value, u.session.value);
  }

  // ----- Runs

  datatype Event =
    | OpenExchange(query: seq<Question>, length: nat)
    | RunTask(id: nat, expired: bool)
    | DialDone(id: nat, failure: Option<ErrorCode>)
    | SendDone(id: nat, failure: Option<ErrorCode>)
    | ReceiveDone(id: nat, arrival: Arrival)
    | TcpWake(id: nat, decoded: Option<Packet>)
    | Expire(id: nat)
    | CancelRequest(id: nat)
    | OnSession(event: TcpSessionSpec.Event)
    | StopRequest

  predicate At(t: Transport, id: nat, phase: Phase) {
    id in t.ops && id in t.log && t.ops[id].phase == phase
  }

  /** An event happens only when the exchange is suspended where the event resumes it. */
  predicate Enabled(t: Transport, e: Event) {
    match e
    case OpenExchange(_, _) => true
    case RunTask(id, _) => At(t, id, Ready)
    case DialDone(id, _) => At(t, id, Opening)
    case SendDone(id, _) => At(t, id, Sending)
    case ReceiveDone(id, _) => At(t, id, Receiving)
    case TcpWake(id, _) => At(t, id, AwaitingTcp) && t.session.Some? && id in t.session.value.channels
    case Expire(id) => id in t.ops && id in t.log
    case CancelRequest(id) => id in t.operations ==> id in t.ops && id in t.log
    case OnSession(event) => t.session.Some? && TcpSessionSpec.Enabled(t.session.value, event)
    case StopRequest => true
  }

  function Step(t: Transport, e: Event): Transport
    requires Enabled(t, e)
  {
    match e
    case OpenExchange(query, length) => Open(t, query, length)
    case RunTask(id, expired) => Run(t, id, expired)
    case DialDone(id, failure) => DatagramOpened(t, id, failure)
    case SendDone(id, failure) => Sent(t, id, failure)
    case ReceiveDone(id, arrival) => Arrived(t, id, arrival)
    case TcpWake(id, decoded) => TcpReplied(t, id, decoded)
    case Expire(id) => Finish(t, id, Error(Timeout))
    case CancelRequest(id) => CancelExchange(t, id)
    case OnSession(event) => t.(session := Some(TcpSessionSpec.Step(t.session.value, event)))
    case StopRequest => StopAll(t)
  }

  lemma StepKeeps(t: Transport, e: Event)
    requires Valid(t) && Enabled(t, e)
    ensures Valid(Step(t, e))
  {
    match e
    case OpenExchange(query, length) => OpenKeeps(t, query, length);
    case RunTask(id, expired) => RunKeeps(t, id, expired);
    case DialDone(id, failure) => DatagramOpenedKeeps(t, id, failure);
    case SendDone(id, failure) => SentKeeps(t, id, failure);
    case ReceiveDone(id, arrival) => ArrivedKeeps(t, id, arrival);
    case TcpWake(id, decoded) => TcpRepliedKeeps(t, id, decoded);
    case Expire(id) => FinishKeeps(t, id, Error(Timeout));
    case CancelRequest(id) => CancelKeeps(t, id);
    case OnSession(event) => SessionKeeps(t, event);
    case StopRequest => StopKeepsValid(t);
  }

  lemma CancelKeeps(t: Transport, id: nat)
    requires Valid(t)
    ensures Valid(CancelExchange(t, id))
  {
    if id in t.operations {
      FinishKeeps(t, id, Error(Cancelled));
    }
  }

  lemma InitialValid(preferTcp: bool)
    ensures Valid(Initial(preferTcp))
  {
    var t := Initial(preferTcp);
    assert OnTcp(t) == {};
  }

  /** `trace` is a run: it begins with a new transport and each state follows from the one before. */
  ghost predicate IsRun(trace: seq<Transport>, events: seq<Event>) {
    && |trace| == |events| + 1
    && (trace[0] == Initial(true) || trace[0] == Initial(false))
    && forall n :: 1 <= n < |trace| ==> Follows(trace, events, n)
  }

  /** State `n` of a run follows from the one before. */
  predicate Follows(trace: seq<Transport>, events: seq<Event>, n: nat)
    requires |trace| == |events| + 1 && 1 <= n < |trace|
  {
    Enabled(trace[n - 1], events[n - 1]) && trace[n] == Step(trace[n - 1], events[n - 1])
  }

  /** Every state of every run is valid. */
  lemma {:induction false} RunsAreValid(trace: seq<Transport>, events: seq<Event>, n: nat)
    requires IsRun(trace, events) && n < |trace|
    ensures Valid(trace[n])
  {
    if n == 0 {
      InitialValid(true);
      InitialValid(false);
    } else {
      RunsAreValid(trace, events, n - 1);
      assert Follows(trace, events, n);
      StepKeeps(trace[n - 1], events[n - 1]);
    }
  }

  lemma ArrivedRemembers(t: Transport, id: nat, arrival: Arrival)
    requires At(t, id, Receiving)
    ensures Grows(t.log, Arrived(t, id, arrival).log)
  {
  }

  lemma OpenRemembers(t: Transport, query: seq<Question>, length: nat)
    requires t.nextExchange !in t.log
    ensures Grows(t.log, Open(t, query, length).log)
  {
    assert forall id :: id in t.log ==> id != t.nextExchange;
  }

  lemma FinishRemembers(t: Transport, id: nat, outcome: Outcome)
    requires id in t.ops && id in t.log
    ensures Grows(t.log, Finish(t, id, outcome).log)
  {
  }

  lemma StepRemembers(t: Transport, e: Event)
    requires t.nextExchange !in t.log && Enabled(t, e)
    ensures Grows(t.log, Step(t, e).log)
  {
    match e
    case OpenExchange(query, length) => OpenRemembers(t, query, length);
    case ReceiveDone(id, arrival) => ArrivedRemembers(t, id, arrival);
    case Expire(id) => FinishRemembers(t, id, Error(Timeout));
    case _ =>
  }

  lemma NextIsUnlogged(t: Transport)
    requires Valid(t)
    ensures t.nextExchange !in t.log
  {
    assert t.nextExchange !in Asked(t);
  }

  lemma {:induction false} RunRemembers(trace: seq<Transport>, events: seq<Event>, m: nat, n: nat)
    requires IsRun(trace, events) && m <= n < |trace|
    ensures Grows(trace[m].log, trace[n].log)
    decreases n
  {
    if m < n {
      var first, before, now := trace[m].log, trace[n - 1].log, trace[n].log;
      RunRemembers(trace, events, m, n - 1);
      StepOfRunRemembers(trace, events, n);
      GrowsTransitive(first, before, now);
    }
  }

  lemma StepOfRunRemembers(trace: seq<Transport>, events: seq<Event>, n: nat)
    requires IsRun(trace, events) && 0 < n < |trace|
    ensures Grows(trace[n - 1].log, trace[n].log)
  {
    var t, e, u := trace[n - 1], events[n - 1], trace[n];
    RunsAreValid(trace, events, n - 1);
    NextIsUnlogged(t);
    assert Follows(trace, events, n);
    StepRemembers(t, e);
  }

  /**
   * In every run, an exchange that is not live any more has been answered exactly
   * once, with an answer to its own question or with an error, and never again; a
   * live one has not been answered; after a stop none is live.
   */
  lemma ExactlyOnce(trace: seq<Transport>, events: seq<Event>, m: nat, n: nat, id: nat)
    requires IsRun(trace, events) && m <= n < |trace| && id in trace[m].ops
    ensures id in trace[m].log && id in trace[n].log
    ensures id in trace[m].operations <==> trace[m].log[id] == []
    ensures id !in trace[m].operations ==> |trace[m].log[id]| == 1 && trace[n].log[id] == trace[m].log[id]
    ensures id !in trace[m].operations && trace[m].log[id][0].Answer? ==>
      SameQuestion(trace[m].log[id][0].packet, trace[m].ops[id].query)
    ensures trace[m].stopped ==> id !in trace[m].operations
  {
    RunsAreValid(trace, events, m);
    RunsAreValid(trace, events, n);
    RunRemembers(trace, events, m, n);
    assert Asked(trace[m])[id] == trace[m].ops[id].query;
    assert |trace[n].log[id]| <= 1;
  }

  /** In every run, the live exchanges hold distinct non-zero transaction IDs: exactly the active ones. */
  lemma IdsAreExclusive(trace: seq<Transport>, events: seq<Event>, n: nat, a: nat, b: nat)
    requires IsRun(trace, events) && n < |trace| && a in trace[n].operations && b in trace[n].operations
    ensures a in trace[n].ops && b in trace[n].ops && trace[n].ops[a].queryId != 0
    ensures trace[n].ops[a].queryId == trace[n].ops[b].queryId ==> a == b
    ensures trace[n].active == set k | k in trace[n].operations && k in trace[n].ops :: trace[n].ops[k].queryId
  {
    var t := trace[n];
    RunsAreValid(trace, events, n);
    assert Held(t)[a] == t.ops[a].queryId && Held(t)[b] == t.ops[b].queryId;
    forall q | q in t.active ensures exists k :: k in t.operations && k in t.ops && t.ops[k].queryId == q {
      var k :| k in Held(t) && Held(t)[k] == q;
    }
    forall k | k in t.operations && k in t.ops ensures t.ops[k].queryId in t.active {
      assert k in Held(t);
    }
  }

  /** An exchange that waits for TCP has its reply, or is served by a call that is under way. */
  lemma WaitingIsServed(trace: seq<Transport>, events: seq<Event>, n: nat, id: nat)
    requires IsRun(trace, events) && n < |trace| && id in trace[n].operations && At(trace[n], id, AwaitingTcp)
    ensures trace[n].session.Some?
    ensures var s := trace[n].session.value;
      id in s.channels || s.generation in s.connects || exists r :: r in s.pulls && r.generation == s.generation
  {
    var t := trace[n];
    RunsAreValid(trace, events, n);
    assert id in OnTcp(t) && id in Waiters(t);
    if id !in t.session.value.channels {
      NoLostWakeup(t.session.value);
    }
  }
}

/** The steps of opening an exchange, one method at a time. */
module DnsTransportOpening {
  import opened Core
  import opened TransactionIds
  import opened DnsTransportSpec

  function Registered(t: Transport, query: seq<Question>, length: nat): Transport {
    t.(ops := t.ops[t.nextExchange := Operation(query, length, 0, Ready, false)],
       operations := t.operations + {t.nextExchange}, log := t.log[t.nextExchange := []], nextExchange := t.nextExchange + 1)
  }

  predicate Unstarted(t: Transport, id: nat) {
    && id in t.ops && !t.ops[id].completed && t.ops[id].queryId == 0 && t.ops[id].phase == Ready
    && id in t.log && t.log[id] == [] && 0 !in t.active
  }

  function Refused(t: Transport, id: nat, error: ErrorCode): Transport
    requires id in t.ops
  {
    t.(ops := t.ops[id := t.ops[id].(completed := true)], operations := t.operations - {id}, log := t.log[id := [Error(error)]])
  }

  function Started(t: Transport, id: nat): Transport
    requires id in t.ops && id in t.log
  {
    var (chosen, cursor) := Scan(t.active, t.cursor, IdCount());
    if chosen.None? then Refused(t.(cursor := cursor), id, Configuration)
    else
      var u := t.(ops := t.ops[id := t.ops[id].(queryId := chosen.value)], active := t.active + {chosen.value}, cursor := cursor);
      if t.ops[id].length < 2 then Finish(u, id, Error(ProtocolFraming)) else u
  }

  lemma OpenInSteps(t: Transport, query: seq<Question>, length: nat)
    requires Valid(t)
    ensures Unstarted(Registered(t, query, length), t.nextExchange)
    ensures Open(t, query, length) ==
      if t.stopped then Refused(Registered(t, query, length), t.nextExchange, Cancelled)
      else Started(Registered(t, query, length), t.nextExchange)
  {
    NextIsNew(t);
    var id, u := t.nextExchange, Registered(t, query, length);
    RefusedIsRejected(t, query, length, Cancelled, t.cursor);
    if !t.stopped {
      var (chosen, cursor) := Scan(t.active, t.cursor, IdCount());
      RefusedIsRejected(t, query, length, Configuration, cursor);
      if chosen.Some? {
        assert u.ops[id := u.ops[id].(queryId := chosen.value)] == Begin(t, query, length, chosen.value, cursor).ops;
      }
    }
  }

  lemma RefusedIsRejected(t: Transport, query: seq<Question>, length: nat, error: ErrorCode, cursor: Word16)
    requires t.nextExchange !in t.operations
    ensures Refused(Registered(t, query, length).(cursor := cursor), t.nextExchange, error) == Reject(t, query, length, cursor, error)
  {
    var u, r := Refused(Registered(t, query, length).(cursor := cursor), t.nextExchange, error), Reject(t, query, length, cursor, error);
    assert u.ops == r.ops && u.operations == r.operations && u.log == r.log;
  }
}

/** How a stop that cancels one operation after the other comes to the state that `StopAll` names. */
module DnsTransportStopping {
  import opened Core
  import opened TcpSessionSpec
  import opened Spec = DnsTransportSpec

  ghost predicate StoppingSession(start: Option<Session>, now: Option<Session>) {
    match (start, now)
    case (None, None) => true
    case (Some(s), Some(t)) => TcpSessionSpec.Valid(t) && !t.stopped && Stop(t) == Stop(s)
    case _ => false
  }

  /** The operations of `start` that are not in `live` have been told that they were cancelled. */
  function StopPartly(start: Transport, live: set<nat>, active: set<Word16>, session: Option<Session>): Transport {
    start.(stopped := true, operations := live, active := active, session := session,
      ops := map id | id in start.ops :: start.ops[id].(completed := id !in live),
      log := map id | id in start.log :: if id in start.operations - live then start.log[id] + [Error(Cancelled)] else start.log[id])
  }

  ghost predicate Stopping(start: Transport, t: Transport) {
    && t.operations <= start.operations <= start.ops.Keys
    && t == StopPartly(start, t.operations, t.active, t.session)
    && Owned(Held(t), t.active)
    && StoppingSession(start.session, t.session)
    && start.log.Keys == start.ops.Keys
  }

  lemma StoppingStarts(start: Transport)
    requires Spec.Valid(start) && !start.stopped
    ensures Stopping(start, start.(stopped := true))
  {
    var t := start.(stopped := true);
    assert Held(t) == Held(start) && start.log.Keys == Asked(start).Keys;
    forall id | id in start.ops ensures start.ops[id].completed == (id !in start.operations) {
      assert start.ops[id].completed <==> id in Finished(start);
    }
    var u := StopPartly(start, t.operations, t.active, t.session);
    assert t.ops == u.ops && t.log == u.log;
  }

  lemma ValuesWithout(pending: map<Word16, nat>, q: Word16)
    requires q in pending
    ensures pending.Values == (pending - {q}).Values + {pending[q]}
  {
    forall o | o in pending.Values ensures o in (pending - {q}).Values + {pending[q]} {
      var p :| p in pending && pending[p] == o;
      assert p == q || p in pending - {q};
    }
  }

  lemma LoseTwice(channels: map<nat, Reply>, owners: set<nat>, o: nat)
    ensures Lose(channels[o := Lost(Cancelled)], owners, Cancelled) == Lose(channels, owners + {o}, Cancelled)
  {
  }

  /** A cancelled request makes no difference to a session that is about to be stopped. */
  lemma StopAbsorbs(s: Session, q: Word16)
    requires TcpSessionSpec.Valid(s) && !s.stopped
    ensures Stop(FailRequest(s, q, Cancelled)) == Stop(s)
  {
    if q in s.pending {
      ValuesWithout(s.pending, q);
      LoseTwice(s.channels, (s.pending - {q}).Values, s.pending[q]);
    }
  }

  lemma PartlyFinish(start: Transport, t: Transport, id: nat)
    requires t.operations <= start.operations <= start.ops.Keys && start.log.Keys == start.ops.Keys && id in t.operations
    requires t == StopPartly(start, t.operations, t.active, t.session)
    ensures id in t.ops && id in t.log && !t.ops[id].completed
    ensures var u := Finish(t, id, Error(Cancelled));
      u.operations == t.operations - {id} && u == StopPartly(start, u.operations, u.active, u.session)
  {
    var u := Finish(t, id, Error(Cancelled));
    var v := StopPartly(start, u.operations, u.active, u.session);
    assert u.ops == v.ops && u.log == v.log;
  }

  lemma StoppingSessionStep(start: Option<Session>, now: Option<Session>, op: Operation)
    requires StoppingSession(start, now)
    ensures StoppingSession(start, Leave(now, op))
  {
    if op.phase == AwaitingTcp && now.Some? {
      StopAbsorbs(now.value, op.queryId);
      FailRequestKeeps(now.value, op.queryId, Cancelled);
    }
  }

  lemma StoppingStep(start: Transport, t: Transport, id: nat)
    requires Stopping(start, t) && id in t.operations
    ensures id in t.ops && id in t.log && !t.ops[id].completed
    ensures Stopping(start, Finish(t, id, Error(Cancelled)))
    ensures Finish(t, id, Error(Cancelled)).operations == t.operations - {id}
  {
    PartlyFinish(start, t, id);
    FinishProjections(t, id, Error(Cancelled));
    Released(Held(t), t.active, id);
    StoppingSessionStep(start.session, t.session, t.ops[id]);
  }

  lemma StoppingEnds(start: Transport, t: Transport)
    requires Spec.Valid(start) && !start.stopped && Stopping(start, t) && t.operations == {}
    ensures StopAll(start) == t.(session := if t.session.Some? then Some(Stop(t.session.value)) else None)
  {
    var v := StopAll(start);
    forall id | id in start.ops ensures start.ops[id].completed || id in start.operations {
      assert id in Finished(start) || id in start.operations;
    }
    assert t.ops == v.ops && t.log == v.log;
    NoneHeld(t);
  }

  lemma NoneHeld(t: Transport)
    requires Owned(Held(t), t.active) && t.operations == {}
    ensures t.active == {}
  {
    assert Held(t) == map[];
  }
}

/** The transport itself. An operation is the record kept under its exchange number. */
module DnsTransports {
  import opened Core
  import opened TransactionIds
  import opened Sessions = TcpSessions
  import SessionSpec = TcpSessionSpec
  import opened Spec = DnsTransportSpec
  import opened DnsTransportOpening
  import opened DnsTransportStopping

  class AsioDnsTransport {
    const preferTcp: bool
    var ops: map<nat, Operation>
    var operations: set<nat>
    var activeQueryIds: set<Word16>
    var nextQueryId: Word16
    var nextExchangeId: nat
    var stopped: bool
    var session: TcpSession?
    /** Every outcome that a handler was called with. */
    ghost var log: map<nat, seq<Outcome>>

    ghost function Model(): Transport
      reads this, session
    {
      Transport(preferTcp, ops, operations, activeQueryIds, nextQueryId, nextExchangeId, stopped,
                if session == null then None else Some(session.Model()), log)
    }

    constructor (preferTcp: bool)
      ensures Model() == Initial(preferTcp) && Valid(Model())
    {
      this.preferTcp := preferTcp;
      ops, operations, activeQueryIds, log := map[], {}, {}, map[];
      nextQueryId, nextExchangeId, stopped, session := 1, 1, false, null;
      new;
      InitialValid(preferTcp);
    }

    /** A free non-zero ID, unless all of them are in use. */
    method NextQueryId() returns (r: Option<Word16>)
      modifies `nextQueryId
      ensures (r, nextQueryId) == Scan(activeQueryIds, old(nextQueryId), IdCount())
      ensures r.Some? ==> r.value != 0 && r.value !in activeQueryIds
      ensures old(nextQueryId) != 0 ==> (r.None? <==> forall id: Word16 :: id != 0 ==> id in activeQueryIds)
    {
      if nextQueryId != 0 {
        ScanFailsIffFull(activeQueryIds, nextQueryId);
      }
      var attempt := 0;
      while attempt < 0xffff
        invariant 0 <= attempt <= IdCount()
        invariant Scan(activeQueryIds, nextQueryId, IdCount() - attempt) == Scan(activeQueryIds, old(nextQueryId), IdCount())
      {
        var id := nextQueryId;
        nextQueryId := (nextQueryId + 1) % 0x1_0000;
        if nextQueryId == 0 {
          nextQueryId := 1;
        }
        if id != 0 && id !in activeQueryIds {
          return Some(id);
        }
        attempt := attempt + 1;
      }
      return None;
    }

    /** The record of an operation and the set of live operations agree. */
    ghost predicate Recorded(id: nat)
      reads this, session
    {
      && id in ops && id in log && (ops[id].completed <==> id !in operations)
      && (session != null ==> SessionSpec.Valid(session.Model()))
    }

    lemma ValidRecorded()
      requires Valid(Model())
      ensures forall id :: id in ops ==> Recorded(id)
      ensures forall id :: id in operations ==> id in ops
    {
      assert forall id :: id in ops ==> id in Asked(Model());
      assert forall id :: id in ops ==> (id in Finished(Model()) <==> ops[id].completed);
    }

    method FinishOperation(id: nat, outcome: Outcome)
      requires Recorded(id)
      modifies this, session
      ensures Model() == Finish(old(Model()), id, outcome) && session == old(session)
      ensures session != null ==> SessionSpec.Valid(session.Model())
    {
      if ops[id].completed {
        return;
      }
      ops := ops[id := ops[id].(completed := true)];
      CloseSockets(id);
      Complete(id, outcome);
    }

    method CloseSockets(id: nat)
      requires id in ops && (session != null ==> SessionSpec.Valid(session.Model()))
      modifies session
      ensures Model() == old(Model()).(session := Leave(old(Model()).session, ops[id]))
      ensures session != null ==> SessionSpec.Valid(session.Model())
    {
      if ops[id].phase == AwaitingTcp && session != null {
        session.Cancel(ops[id].queryId);
      }
    }

    method Complete(id: nat, outcome: Outcome)
      requires id in ops && id in operations && id in log
      modifies `operations, `activeQueryIds, `log
      ensures Model() == old(Model()).(operations := old(operations) - {id},
        active := old(activeQueryIds) - {ops[id].queryId}, log := old(log)[id := old(log)[id] + [outcome]])
    {
      operations := operations - {id};
      activeQueryIds := activeQueryIds - {ops[id].queryId};
      log := log[id := log[id] + [outcome]];
    }

    method Suspend(id: nat, phase: Phase)
      requires id in ops
      modifies `ops
      ensures Model() == SetPhase(old(Model()), id, phase)
    {
      ops := ops[id := ops[id].(phase := phase)];
    }

    /** The coroutine ends with an outcome, which counts unless the operation has finished before. */
    method End(id: nat, outcome: Outcome)
      requires Recorded(id)
      modifies this, session
      ensures Model() == Finish(SetPhase(old(Model()), id, Gone), id, outcome) && session == old(session)
    {
      Suspend(id, Gone);
      FinishOperation(id, outcome);
    }

    method OpenExchange(query: seq<Question>, length: nat) returns (id: nat)
      requires Valid(Model())
      modifies this, session
      ensures Valid(Model()) && Model() == Open(old(Model()), query, length)
      ensures id == old(nextExchangeId)
    {
      OpenKeeps(Model(), query, length);
      OpenInSteps(Model(), query, length);
      id := Register(query, length);
      if stopped {
        Refuse(id, Cancelled);
      } else {
        Start(id);
      }
    }

    method Register(query: seq<Question>, length: nat) returns (id: nat)
      requires Valid(Model())
      modifies this
      ensures Model() == Registered(old(Model()), query, length) && id == old(nextExchangeId) && session == old(session)
      ensures Recorded(id) && ops[id] == Operation(query, length, 0, Ready, false) && log[id] == []
    {
      NextIsNew(Model());
      id := nextExchangeId;
      nextExchangeId := nextExchangeId + 1;
      ops := ops[id := Operation(query, length, 0, Ready, false)];
      operations := operations + {id};
      log := log[id := []];
    }

    /** Finishes an operation that owns no transaction ID. */
    method Refuse(id: nat, error: ErrorCode)
      requires Recorded(id) && Unstarted(Model(), id)
      modifies this, session
      ensures Model() == Refused(old(Model()), id, error) && session == old(session)
    {
      FinishOperation(id, Error(error));
      assert [] + [Error(error)] == [Error(error)];
    }

    method Start(id: nat)
      requires Recorded(id) && Unstarted(Model(), id)
      modifies this, session
      ensures Model() == Started(old(Model()), id) && session == old(session)
    {
      var chosen := NextQueryId();
      if chosen.None? {
        Refuse(id, Configuration);
        return;
      }
      ops := ops[id := ops[id].(queryId := chosen.value)];
      activeQueryIds := activeQueryIds + {chosen.value};
      if ops[id].length < 2 {
        FinishOperation(id, Error(ProtocolFraming));
      }
    }

    /** The shared session of a transport that has not been stopped, made on first use. */
    method Session() returns (shared: TcpSession)
      modifies `session
      ensures shared == session
      ensures if old(session) != null then session == old(session)
              else fresh(session) && session.Model() == SessionSpec.Initial() && SessionSpec.Valid(session.Model())
    {
      if session == null {
        session := new TcpSession();
      }
      return session;
    }

    method RunTcp(id: nat)
      requires Valid(Model()) && id in ops && ops[id].phase != AwaitingTcp
      modifies this, session
      ensures Valid(Model()) && Model() == Spec.RunTcp(old(Model()), id)
      ensures session == old(session) || fresh(session)
    {
      ValidRecorded();
      RunTcpKeeps(Model(), id);
      if ops[id].completed {
        Suspend(id, Gone);
        return;
      }
      assert !stopped; // a stopped transport has no live operation left, so its missing session is never met
      Join(id);
    }

    method Join(id: nat)
      requires Valid(Model()) && id in operations && id in ops && ops[id].phase != AwaitingTcp && !stopped
      modifies this, session
      ensures session == old(session) || fresh(session)
      ensures var t := old(Model());
        var s := if t.session.Some? then t.session.value else SessionSpec.Initial();
        Model() == SetPhase(t, id, AwaitingTcp).(session := Some(SessionSpec.Exchange(s, t.ops[id].queryId, t.ops[id].length, id)))
    {
      if session != null {
        IdIsFreeOnSession(Model(), id);
      }
      var shared := Session();
      Suspend(id, AwaitingTcp);
      shared.Exchange(ops[id].queryId, ops[id].length, id);
    }

    method OnTask(id: nat, expired: bool)
      requires Valid(Model()) && id in ops && ops[id].phase == Ready
      modifies this, session
      ensures Valid(Model()) && Model() == Run(old(Model()), id, expired)
      ensures session == old(session) || fresh(session)
    {
      ValidRecorded();
      RunKeeps(Model(), id, expired);
      if expired {
        End(id, Error(Timeout));
        return;
      }
      if preferTcp {
        RunTcp(id);
        return;
      }
      Suspend(id, Opening);
    }

    method OnDialed(id: nat, failure: Option<ErrorCode>)
      requires Valid(Model()) && id in ops && ops[id].phase == Opening
      modifies this, session
      ensures Valid(Model()) && Model() == DatagramOpened(old(Model()), id, failure) && session == old(session)
    {
      ValidRecorded();
      DatagramOpenedKeeps(Model(), id, failure);
      if ops[id].completed {
        Suspend(id, Gone);
        return;
      }
      if failure.Some? {
        End(id, Error(failure.value));
        return;
      }
      Suspend(id, Sending);
    }

    method OnSent(id: nat, failure: Option<ErrorCode>)
      requires Valid(Model()) && id in ops && ops[id].phase == Sending
      modifies this, session
      ensures Valid(Model()) && Model() == Sent(old(Model()), id, failure) && session == old(session)
    {
      ValidRecorded();
      SentKeeps(Model(), id, failure);
      if failure.Some? {
        End(id, Error(failure.value));
        return;
      }
      if ops[id].completed {
        Suspend(id, Gone);
        return;
      }
      Suspend(id, Receiving);
    }

    method OnReceived(id: nat, arrival: Arrival)
      requires Valid(Model()) && id in ops && ops[id].phase == Receiving
      modifies this, session
      ensures Valid(Model()) && Model() == Arrived(old(Model()), id, arrival)
      ensures session == old(session) || fresh(session)
    {
      ValidRecorded();
      ArrivedKeeps(Model(), id, arrival);
      if arrival.ReceiveFailed? {
        End(id, Error(arrival.error));
        return;
      }
      if ops[id].completed {
        Suspend(id, Gone);
        return;
      }
      if arrival.Foreign? {
        return;
      }
      if arrival.Undecodable? {
        End(id, Error(arrival.error));
        return;
      }
      if !SameQuestion(arrival.packet, ops[id].query) {
        return;
      }
      if arrival.packet.truncated {
        RunTcp(id);
        return;
      }
      End(id, Answer(arrival.packet));
    }

    method OnTcpReply(id: nat, decoded: Option<Packet>)
      requires Valid(Model()) && id in ops && session != null && id in session.channels
      modifies this, session
      ensures Valid(Model()) && Model() == TcpReplied(old(Model()), id, decoded) && session == old(session)
    {
      ValidRecorded();
      TcpRepliedKeeps(Model(), id, decoded);
      if ops[id].completed {
        return;
      }
      if session.channels[id].Lost? {
        FinishOperation(id, Error(session.channels[id].error));
        return;
      }
      if decoded.None? || !SameQuestion(decoded.value, ops[id].query) {
        FinishOperation(id, Error(ProtocolFraming));
        return;
      }
      FinishOperation(id, Answer(decoded.value));
    }

    method OnDeadline(id: nat)
      requires Valid(Model()) && id in ops
      modifies this, session
      ensures Valid(Model()) && Model() == Finish(old(Model()), id, Error(Timeout)) && session == old(session)
    {
      ValidRecorded();
      FinishKeeps(Model(), id, Error(Timeout));
      FinishOperation(id, Error(Timeout));
    }

    method Cancel(id: nat)
      requires Valid(Model())
      modifies this, session
      ensures Valid(Model()) && Model() == CancelExchange(old(Model()), id) && session == old(session)
    {
      ValidRecorded();
      CancelKeeps(Model(), id);
      if id in operations {
        FinishOperation(id, Error(Cancelled));
      }
    }

    method StopTransport()
      requires Valid(Model())
      modifies this, session
      ensures Valid(Model()) && Model() == StopAll(old(Model())) && session == old(session)
    {
      StopKeepsValid(Model());
      if stopped {
        return;
      }
      ghost var start := Model();
      stopped := true;
      StoppingStarts(start);
      CancelAll(start);
      StoppingEnds(start, Model());
      if session != null {
        session.StopSession();
      }
    }

    /** Operations are cancelled one at a time until none is live. */
    method CancelAll(ghost start: Transport)
      requires Stopping(start, Model())
      modifies this, session
      ensures session == old(session) && operations == {} && Stopping(start, Model())
    {
      while operations != {}
        invariant session == old(session) && Stopping(start, Model())
        decreases |operations|
      {
        var id :| id in operations;
        StoppingStep(start, Model(), id);
        FinishOperation(id, Error(Cancelled));
      }
    }
  }
}
