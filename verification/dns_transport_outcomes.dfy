/**
 * What each event of a run of the plain transport tells each exchange, and where it
 * leaves those that it tells nothing: outcomes and error codes are written out here.
 */
module DnsTransportOutcomes {
  import opened Core
  import opened TransactionIds
  import opened DnsTransportSpec
  import Names

  /** The exchange is live, has been told nothing, and its coroutine is suspended here. */
  predicate Awaits(t: Transport, id: nat, phase: Phase) {
    id in t.operations && At(t, id, phase) && !t.ops[id].completed && t.log[id] == []
  }

  /** The exchange has been told exactly this, and its transaction ID is free again. */
  predicate Ended(t: Transport, id: nat, outcome: Outcome) {
    id in t.log && t.log[id] == [outcome] && id !in t.operations && id in t.ops && t.ops[id].queryId !in t.active
  }

  /** The exchange waits under its ID on the shared session, or its channel there has been filled. */
  predicate OnSharedSession(t: Transport, id: nat) {
    && Awaits(t, id, AwaitingTcp) && t.session.Some?
    && var q, s := t.ops[id].queryId, t.session.value;
       (q in s.pending && s.pending[q] == id) || id in s.channels
  }

  /** What a question asks for, however its name is spelled. */
  function Asks(questions: seq<Question>): (r: seq<(string, Word16, Word16)>)
    ensures |r| == |questions|
    ensures forall i :: 0 <= i < |questions| ==> r[i] == (Names.Normalize(questions[i].name), questions[i].kind, questions[i].classCode)
  {
    seq(|questions|, i requires 0 <= i < |questions| => (Names.Normalize(questions[i].name), questions[i].kind, questions[i].classCode))
  }

  /** A message answers a query if it is a response and asks for the same. */
  lemma SameQuestionIff(packet: Packet, query: seq<Question>)
    ensures SameQuestion(packet, query) <==> packet.response && Asks(packet.questions) == Asks(query)
  {
    if packet.response && Asks(packet.questions) == Asks(query) {
      assert |packet.questions| == |Asks(query)|;
      forall i | 0 <= i < |query| ensures Asks(packet.questions)[i] == Asks(query)[i] {
      }
    }
  }

  lemma LiveIsUntold(t: Transport, id: nat)
    requires Valid(t)
    ensures id in t.operations ==> id in t.ops && id in t.log && !t.ops[id].completed && t.log[id] == [] && !t.stopped
    ensures id in t.ops && !t.ops[id].completed ==> id in t.operations
    ensures id in t.ops <==> id in t.log
  {
    assert id in t.ops <==> id in Asked(t);
    assert id in t.ops && t.ops[id].completed <==> id in Finished(t);
  }

  lemma FinishEnds(t: Transport, id: nat, outcome: Outcome)
    requires id in t.ops && id in t.log && t.log[id] == [] && !t.ops[id].completed
    ensures Ended(Finish(t, id, outcome), id, outcome)
    ensures forall x :: x in t.log && x != id ==> x in Finish(t, id, outcome).log && Finish(t, id, outcome).log[x] == t.log[x]
  {
  }

  lemma LeavesEnded(t: Transport, id: nat, phase: Phase, outcome: Outcome)
    requires id in t.ops && id in t.log && t.log[id] == [] && !t.ops[id].completed
    ensures Ended(Finish(SetPhase(t, id, phase), id, outcome), id, outcome)
  {
    FinishEnds(SetPhase(t, id, phase), id, outcome);
  }

  lemma JoinsSession(t: Transport, id: nat, phase: Phase)
    requires Valid(t) && Awaits(t, id, phase) && phase != AwaitingTcp
    ensures OnSharedSession(RunTcp(t, id), id)
  {
    LiveIsUntold(t, id);
    RunTcpKeeps(t, id);
    var u := RunTcp(t, id);
    assert id in OnTcp(u) && id in Waiters(u);
  }

  // ----- Datagrams

  lemma AnswerArrives(t: Transport, id: nat, packet: Packet)
    requires Valid(t) && Awaits(t, id, Receiving)
    ensures var u := Arrived(t, id, Decoded(packet));
      && (!SameQuestion(packet, t.ops[id].query) ==> u == t)
      && (SameQuestion(packet, t.ops[id].query) && !packet.truncated ==> Ended(u, id, Answer(packet)))
      && (SameQuestion(packet, t.ops[id].query) && packet.truncated ==> OnSharedSession(u, id))
  {
    LeavesEnded(t, id, Gone, Answer(packet));
    JoinsSession(t, id, Receiving);
  }

  lemma ArrivalFails(t: Transport, id: nat, arrival: Arrival)
    requires Awaits(t, id, Receiving) && !arrival.Decoded?
    ensures var u := Arrived(t, id, arrival);
      && (arrival.Foreign? ==> u == t)
      && (arrival.Undecodable? ==> Ended(u, id, Error(arrival.error)))
      && (arrival.ReceiveFailed? ==> Ended(u, id, Error(arrival.error)))
  {
    if arrival.Undecodable? || arrival.ReceiveFailed? {
      LeavesEnded(t, id, Gone, Error(arrival.error));
    }
  }

  /**
   * In every run, a whole answer to the question of an exchange that waits for a datagram
   * ends it with just that answer; a truncated one sends it on to the shared session,
   * untold; a stranger's datagram and an answer to another question change nothing.
   */
  lemma DatagramDecides(trace: seq<Transport>, events: seq<Event>, k: nat, id: nat, arrival: Arrival)
    requires IsRun(trace, events) && k < |events| && events[k] == ReceiveDone(id, arrival) && Awaits(trace[k], id, Receiving)
    ensures var t, u := trace[k], trace[k + 1];
      match arrival
      case Decoded(packet) =>
        if !SameQuestion(packet, t.ops[id].query) then u == t
        else if packet.truncated then OnSharedSession(u, id)
        else Ended(u, id, Answer(packet))
      case Foreign => u == t
      case Undecodable(error) => Ended(u, id, Error(error))
      case ReceiveFailed(error) => Ended(u, id, Error(error))
  {
    RunsAreValid(trace, events, k);
    assert Follows(trace, events, k + 1);
    if arrival.Decoded? {
      AnswerArrives(trace[k], id, arrival.packet);
    } else {
      ArrivalFails(trace[k], id, arrival);
    }
  }

  /** In every run, what a datagram answers is never truncated. */
  lemma DatagramAnswersAreWhole(trace: seq<Transport>, events: seq<Event>, k: nat, id: nat)
    requires IsRun(trace, events) && k < |events| && events[k].ReceiveDone? && id in trace[k].operations
    ensures id in trace[k].log && id in trace[k + 1].log && trace[k].log[id] == []
    ensures trace[k + 1].log[id] != [] && trace[k + 1].log[id][0].Answer? ==>
      !trace[k + 1].log[id][0].packet.truncated && events[k] == ReceiveDone(id, Decoded(trace[k + 1].log[id][0].packet))
  {
    var e := events[k];
    RunsAreValid(trace, events, k);
    LiveIsUntold(trace[k], id);
    assert Follows(trace, events, k + 1);
    if e.id == id {
      DatagramDecides(trace, events, k, id, e.arrival);
    } else {
      OthersAreNotTold(trace, events, k, id);
    }
  }

  // ----- The shared session

  /** A reply of the session ends the exchange that it is for, with the message that it holds or with an error. */
  lemma ReplyDecides(trace: seq<Transport>, events: seq<Event>, k: nat, id: nat, decoded: Option<Packet>)
    requires IsRun(trace, events) && k < |events| && events[k] == TcpWake(id, decoded) && id in trace[k].operations
    ensures id in trace[k].ops && trace[k].session.Some? && id in trace[k].session.value.channels
    ensures match trace[k].session.value.channels[id]
      case Lost(error) => Ended(trace[k + 1], id, Error(error))
      case Received(_) =>
        if decoded.Some? && SameQuestion(decoded.value, trace[k].ops[id].query) then Ended(trace[k + 1], id, Answer(decoded.value))
        else Ended(trace[k + 1], id, Error(ProtocolFraming))
  {
    var t := trace[k];
    RunsAreValid(trace, events, k);
    LiveIsUntold(t, id);
    assert Follows(trace, events, k + 1);
    match t.session.value.channels[id]
    case Lost(error) => FinishEnds(t, id, Error(error));
    case Received(_) =>
      if decoded.Some? && SameQuestion(decoded.value, t.ops[id].query) {
        FinishEnds(t, id, Answer(decoded.value));
      } else {
        FinishEnds(t, id, Error(ProtocolFraming));
      }
  }

  // ----- The way to the answer

  lemma Proceeds(t: Transport, id: nat, from: Phase, to: Phase)
    requires Awaits(t, id, from)
    ensures Awaits(SetPhase(t, id, to), id, to)
  {
  }

  /** A live exchange asks over TCP at once if that is preferred, and otherwise opens a socket, sends and receives; the first call that fails ends it with its error. */
  lemma WayToAnswer(trace: seq<Transport>, events: seq<Event>, k: nat, id: nat)
    requires IsRun(trace, events) && k < |events| && id in trace[k].operations
    ensures var t, u := trace[k], trace[k + 1];
      match events[k]
      case RunTask(x, expired) =>
        x == id ==> if expired then Ended(u, id, Error(Timeout)) else if t.preferTcp then OnSharedSession(u, id) else Awaits(u, id, Opening)
      case DialDone(x, failure) =>
        x == id ==> if failure.Some? then Ended(u, id, Error(failure.value)) else Awaits(u, id, Sending)
      case SendDone(x, failure) =>
        x == id ==> if failure.Some? then Ended(u, id, Error(failure.value)) else Awaits(u, id, Receiving)
      case _ => true
  {
    var t, e := trace[k], events[k];
    RunsAreValid(trace, events, k);
    LiveIsUntold(t, id);
    assert Follows(trace, events, k + 1);
    match e
    case RunTask(x, expired) =>
      if x == id {
        LeavesEnded(t, id, Gone, Error(Timeout));
        JoinsSession(t, id, Ready);
        Proceeds(t, id, Ready, Opening);
      }
    case DialDone(x, failure) =>
      if x == id {
        CallEnds(t, id, failure);
        Proceeds(t, id, Opening, Sending);
      }
    case SendDone(x, failure) =>
      if x == id {
        CallEnds(t, id, failure);
        Proceeds(t, id, Sending, Receiving);
      }
    case _ =>
  }

  lemma CallEnds(t: Transport, id: nat, failure: Option<ErrorCode>)
    requires id in t.ops && id in t.log && t.log[id] == [] && !t.ops[id].completed
    ensures failure.Some? ==> Ended(Finish(SetPhase(t, id, Gone), id, Error(failure.value)), id, Error(failure.value))
  {
    if failure.Some? {
      LeavesEnded(t, id, Gone, Error(failure.value));
    }
  }

  /** A deadline ends a live exchange with a timeout, a cancellation with a cancellation, and a stop every one of them. */
  lemma EndsFromOutside(trace: seq<Transport>, events: seq<Event>, k: nat, id: nat)
    requires IsRun(trace, events) && k < |events| && id in trace[k].operations
    ensures events[k] == Expire(id) ==> Ended(trace[k + 1], id, Error(Timeout))
    ensures events[k] == CancelRequest(id) || events[k] == StopRequest ==> Ended(trace[k + 1], id, Error(Cancelled))
  {
    var t := trace[k];
    RunsAreValid(trace, events, k);
    LiveIsUntold(t, id);
    assert Follows(trace, events, k + 1);
    FinishEnds(t, id, Error(Timeout));
    FinishEnds(t, id, Error(Cancelled));
  }

  // ----- Everybody else

  predicate SameLog(t: Transport, u: Transport, id: nat) {
    id in t.log && id in u.log && u.log[id] == t.log[id]
  }

  /** The event is one for this exchange, or for all of them. */
  predicate Concerns(e: Event, id: nat) {
    match e
    case OpenExchange(_, _) => false
    case RunTask(x, _) => x == id
    case DialDone(x, _) => x == id
    case SendDone(x, _) => x == id
    case ReceiveDone(x, _) => x == id
    case TcpWake(x, _) => x == id
    case Expire(x) => x == id
    case CancelRequest(x) => x == id
    case OnSession(_) => false
    case StopRequest => true
  }

  lemma FinishTellsOne(t: Transport, x: nat, outcome: Outcome, id: nat)
    requires x in t.ops && x in t.log && id in t.log && id != x
    ensures SameLog(t, Finish(t, x, outcome), id)
  {
  }

  lemma StepTellsOne(t: Transport, e: Event, id: nat)
    requires Enabled(t, e) && !Concerns(e, id) && id in t.log && t.nextExchange !in t.log
    ensures SameLog(t, Step(t, e), id)
  {
    match e
    case OpenExchange(query, length) => OpenTellsOne(t, query, length, id);
    case RunTask(x, expired) =>
    case DialDone(x, failure) =>
    case SendDone(x, failure) =>
    case ReceiveDone(x, arrival) => ArrivalTellsOne(t, x, arrival, id);
    case TcpWake(x, decoded) =>
    case Expire(x) => FinishTellsOne(t, x, Error(Timeout), id);
    case CancelRequest(x) =>
    case OnSession(event) =>
    case StopRequest =>
  }

  lemma OpenTellsOne(t: Transport, query: seq<Question>, length: nat, id: nat)
    requires id in t.log && t.nextExchange !in t.log
    ensures SameLog(t, Open(t, query, length), id)
  {
    assert id != t.nextExchange;
  }

  lemma ArrivalTellsOne(t: Transport, x: nat, arrival: Arrival, id: nat)
    requires At(t, x, Receiving) && id in t.log && id != x
    ensures SameLog(t, Arrived(t, x, arrival), id)
  {
  }

  /** In every run, an event for one exchange tells no other one anything. */
  lemma OthersAreNotTold(trace: seq<Transport>, events: seq<Event>, k: nat, id: nat)
    requires IsRun(trace, events) && k < |events| && id in trace[k].log && !Concerns(events[k], id)
    ensures SameLog(trace[k], trace[k + 1], id)
  {
    RunsAreValid(trace, events, k);
    NextIsUnlogged(trace[k]);
    assert Follows(trace, events, k + 1);
    StepTellsOne(trace[k], events[k], id);
  }

  // ----- New exchanges

  /** A new exchange is refused by a stopped transport, for want of an ID, and for a query without room for one; any other is live and untold. */
  lemma OpeningDecides(trace: seq<Transport>, events: seq<Event>, k: nat, query: seq<Question>, length: nat)
    requires IsRun(trace, events) && k < |events| && events[k] == OpenExchange(query, length)
    ensures var t, u, id := trace[k], trace[k + 1], trace[k].nextExchange;
      && id !in t.log && id in u.log && id in u.ops && u.ops[id].query == query
      && if t.stopped then u.log[id] == [Error(Cancelled)] && u.operations == t.operations
         else if forall q: Word16 :: q != 0 ==> q in t.active then u.log[id] == [Error(Configuration)] && u.operations == t.operations
         else if length < 2 then u.log[id] == [Error(ProtocolFraming)] && u.operations == t.operations && u.active == t.active
         else && Awaits(u, id, Ready) && u.operations == t.operations + {id}
              && u.ops[id].queryId !in t.active && u.active == t.active + {u.ops[id].queryId}
  {
    var t := trace[k];
    RunsAreValid(trace, events, k);
    NextIsUnlogged(t);
    NextIsNew(t);
    assert Follows(trace, events, k + 1);
    ScanFailsIffFull(t.active, t.cursor);
    OpenDecides(t, query, length);
  }

  lemma OpenDecides(t: Transport, query: seq<Question>, length: nat)
    requires t.nextExchange !in t.operations
    ensures var u, id, chosen := Open(t, query, length), t.nextExchange, Scan(t.active, t.cursor, IdCount()).0;
      && id in u.log && id in u.ops && u.ops[id].query == query
      && if t.stopped then u.log[id] == [Error(Cancelled)] && u.operations == t.operations
         else if chosen.None? then u.log[id] == [Error(Configuration)] && u.operations == t.operations
         else if length < 2 then u.log[id] == [Error(ProtocolFraming)] && u.operations == t.operations && u.active == t.active
         else && Awaits(u, id, Ready) && u.operations == t.operations + {id}
              && u.ops[id].queryId == chosen.value && u.active == t.active + {u.ops[id].queryId}
  {
  }
}
