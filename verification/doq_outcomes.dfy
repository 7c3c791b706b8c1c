/**
 * What each event of a run of a DNS-over-QUIC session makes of each live exchange, and in
 * which order and form the queries go out.
 */
module DoqOutcomes {
  import opened Core
  import opened DoqFraming
  import opened DoqSessionSpec
  import opened DoqRuns

  /** The octets are a message with a transaction ID of zero, behind its length. */
  predicate IsFramed(bytes: Bytes, message: Bytes) {
    && 2 <= |message| <= 65535 && message[0] == 0 && message[1] == 0
    && bytes == [|message| / 256, |message| % 256] + message
  }

  predicate Ended(d: Doq, id: nat, outcome: Outcome) {
    id !in d.live && id in d.log && d.log[id] == [outcome]
  }

  predicate StillLive(d: Doq, id: nat) {
    id in d.live && id in d.log && d.log[id] == []
  }

  /** All octets that have come for a live exchange, and whether they are the last: too many end it, and so do the last ones. */
  ghost predicate StreamDecides(d: Doq, id: nat, queryId: Word16, all: Bytes, fin: bool, failure: Option<ErrorCode>) {
    if |all| > 65537 then Ended(d, id, Error(ProtocolFraming))
    else if !fin then StillLive(d, id) && id in d.arrived && d.arrived[id] == all
    else
      && (forall message :: IsFramed(all, message) ==>
            Ended(d, id, if failure.Some? then Error(failure.value) else Answer([queryId / 256, queryId % 256] + message[2..])))
      && ((forall message :: !IsFramed(all, message)) ==> Ended(d, id, Error(ProtocolFraming)))
  }

  /** A pump leaves an exchange live, or ends it with the error with which a stream was refused. */
  ghost predicate PumpDecides(d: Doq, id: nat, openings: seq<Opening>) {
    StillLive(d, id) || exists o :: o in openings && o.Refused? && Ended(d, id, Error(o.error))
  }

  lemma LiveIsUntold(d: Doq, id: nat)
    requires Valid(d) && id in d.live
    ensures StillLive(d, id) && id in d.exchanges && id in d.arrived && d.exchanges[id].result.None? && !d.retired
  {
    assert id !in Resolved(d) && id in Queries(d);
  }

  lemma JudgedIsFramed(all: Bytes, queryId: Word16, failure: Option<ErrorCode>)
    ensures forall message :: IsFramed(all, message) ==>
      OutcomeOf(Judge(all), queryId, failure) == if failure.Some? then Error(failure.value) else Answer([queryId / 256, queryId % 256] + message[2..])
    ensures (forall message :: !IsFramed(all, message)) ==> OutcomeOf(Judge(all), queryId, failure) == Error(ProtocolFraming)
  {
    forall message | IsFramed(all, message) ensures Judge(all) == Message(message) {
      AcceptedIffFramed(all, message);
    }
    if Judge(all).Message? {
      AcceptedIffFramed(all, Judge(all).bytes);
      assert IsFramed(all, Judge(all).bytes);
    }
  }

  lemma DataDecides(d: Doq, stream: nat, data: Bytes, fin: bool, failure: Option<ErrorCode>)
    requires Valid(d) && stream in d.streams && d.streams[stream] in d.live
    ensures var id := d.streams[stream];
      && id in d.arrived && id in d.exchanges
      && StreamDecides(Data(d, stream, data, fin, failure), id, d.exchanges[id].queryId, d.arrived[id] + data, fin, failure)
  {
    var id := d.streams[stream];
    EndJudgesAll(d, stream, data, fin, failure);
    DataKeeps(d, stream, data, fin, failure);
    JudgedIsFramed(d.arrived[id] + data, d.exchanges[id].queryId, failure);
  }

  lemma ResolveLeaves(d: Doq, id: nat, outcome: Outcome, k: nat)
    requires id in d.exchanges && id in d.log && k != id && StillLive(d, k)
    ensures StillLive(Resolve(d, id, outcome), k) && Resolve(d, id, outcome).arrived == d.arrived
  {
  }

  lemma FragmentLeaves(d: Doq, id: nat, data: Bytes, fin: bool, failure: Option<ErrorCode>, k: nat)
    requires id in d.exchanges && id in d.log && k != id && StillLive(d, k) && k in d.arrived
    ensures var t := Fragment(d, id, data, fin, failure); StillLive(t, k) && k in t.arrived && t.arrived[k] == d.arrived[k]
  {
    var t, outcome := FragmentInSteps(d, id, data, fin, failure);
    if outcome.Some? {
      ResolveLeaves(t, id, outcome.value, k);
    }
  }

  lemma DataLeaves(d: Doq, stream: nat, data: Bytes, fin: bool, failure: Option<ErrorCode>, k: nat)
    requires StillLive(d, k) && k in d.arrived && !(stream in d.streams && d.streams[stream] == k)
    ensures var t := Data(d, stream, data, fin, failure); StillLive(t, k) && k in t.arrived && t.arrived[k] == d.arrived[k]
  {
    if stream in d.streams && d.streams[stream] in d.exchanges && d.streams[stream] in d.log {
      FragmentLeaves(d, d.streams[stream], data, fin, failure, k);
    }
  }

  lemma {:induction false} PumpIsDecisive(d: Doq, openings: seq<Opening>, id: nat)
    requires Valid(d) && id in d.live
    ensures PumpDecides(Pump(d, openings), id, openings)
    decreases |d.pending|
  {
    LiveIsUntold(d, id);
    if d.pending != [] {
      var first, popped := d.pending[0], d.(pending := d.pending[1..]);
      if !Waits(d, first) {
        SkipKeeps(d);
        PumpIsDecisive(popped, openings, id);
      } else if openings != [] && openings[0].Refused? {
        assert openings[0] in openings;
      } else if openings != [] && openings[0].Opened? {
        SendKeeps(d, first);
        PumpIsDecisive(Send(popped, first), openings[1..], id);
      }
    }
  }

  /** The stream leads to this exchange. */
  predicate LeadsTo(d: Doq, stream: nat, id: nat) {
    stream in d.streams && d.streams[stream] == id
  }

  ghost predicate Decided(d: Doq, t: Doq, e: Event, id: nat)
    requires id in d.exchanges && id in d.arrived
  {
    match e
    case Adds(_, _, _) => StillLive(t, id)
    case Handshaken(alpn, openings) => if alpn != "doq" then Ended(t, id, Error(Authentication)) else PumpDecides(t, id, openings)
    case Pumps(openings) => PumpDecides(t, id, openings)
    case Delivers(stream, data, fin, failure) =>
      if LeadsTo(d, stream, id) then StreamDecides(t, id, d.exchanges[id].queryId, d.arrived[id] + data, fin, failure)
      else StillLive(t, id) && id in t.arrived && t.arrived[id] == d.arrived[id]
    case Closes(stream) => if LeadsTo(d, stream, id) then Ended(t, id, Error(TransportIo)) else StillLive(t, id)
    case Resets(stream) => if LeadsTo(d, stream, id) then Ended(t, id, Error(TransportIo)) else StillLive(t, id)
    case Cancels(x, error) => if x == id then Ended(t, id, Error(error)) else StillLive(t, id)
    case Breaks(error) => Ended(t, id, Error(error))
  }

  lemma ReadyPumps(d: Doq, openings: seq<Opening>, id: nat)
    requires Valid(d) && id in d.live
    ensures PumpDecides(Pump(d.(ready := true), openings), id, openings)
  {
    ReadyKeeps(d);
    PumpIsDecisive(d.(ready := true), openings, id);
  }

  lemma StreamEnds(d: Doq, stream: nat, id: nat)
    requires Valid(d) && id in d.live && id in d.exchanges && id in d.arrived
    ensures Decided(d, Closed(d, stream), Closes(stream), id) && Decided(d, Reset(d, stream), Resets(stream), id)
  {
    LiveIsUntold(d, id);
    if stream in d.streams && d.streams[stream] != id {
      assert d.streams[stream] in Streamed(d);
      ResolveLeaves(d, d.streams[stream], Error(TransportIo), id);
      ResolveLeaves(Unlinked(d, stream), d.streams[stream], Error(TransportIo), id);
    }
  }

  lemma CancelDecides(d: Doq, x: nat, error: ErrorCode, id: nat)
    requires Valid(d) && id in d.live && id in d.exchanges && id in d.arrived
    ensures Decided(d, Cancel(d, x, error), Cancels(x, error), id)
  {
    LiveIsUntold(d, id);
    if x in d.live {
      LiveIsUntold(d, x);
      if x != id {
        ResolveLeaves(d, x, Error(error), id);
      }
    }
  }

  /**
   * In every run, a live exchange ends with the message that its stream delivers, framed,
   * under the query's own ID, or with an error: for octets that are no such message, for a
   * stream that is closed, reset or refused, for a peer that speaks another protocol, for
   * a session that breaks, or as it is cancelled. Whatever happens to other exchanges and
   * their streams leaves it live, with what has come for it so far.
   */
  lemma EventsDecide(trace: seq<Doq>, events: seq<Event>, n: nat, id: nat)
    requires IsRun(trace, events) && n < |events| && id in trace[n].live
    ensures id in trace[n].exchanges && id in trace[n].arrived && Decided(trace[n], trace[n + 1], events[n], id)
  {
    var d := trace[n];
    RunsAreValid(trace, events, n);
    assert Follows(trace, events, n);
    LiveIsUntold(d, id);
    match events[n]
    case Adds(x, query, queryId) =>
    case Handshaken(alpn, openings) => ReadyPumps(d, openings, id);
    case Pumps(openings) => PumpIsDecisive(d, openings, id);
    case Delivers(stream, data, fin, failure) =>
      if LeadsTo(d, stream, id) {
        DataDecides(d, stream, data, fin, failure);
      } else {
        DataLeaves(d, stream, data, fin, failure, id);
      }
    case Closes(stream) => StreamEnds(d, stream, id);
    case Resets(stream) => StreamEnds(d, stream, id);
    case Cancels(x, error) => CancelDecides(d, x, error, id);
    case Breaks(error) =>
  }

  // ----- Queries on their way

  function Waiting(d: Doq): set<nat> {
    set id | id in d.live && Waits(d, id)
  }

  /** Those that wait for a stream, in the order of the queue. */
  function Line(pending: seq<nat>, waiting: set<nat>): seq<nat> {
    if pending == [] then [] else (if pending[0] in waiting then [pending[0]] else []) + Line(pending[1..], waiting)
  }

  /** How many streams the engine opens before it is blocked or refuses one. */
  function Granted(openings: seq<Opening>): nat {
    if openings == [] || !openings[0].Opened? then 0 else 1 + Granted(openings[1..])
  }

  lemma {:induction false} LineWithout(pending: seq<nat>, waiting: set<nat>, id: nat)
    requires id !in pending
    ensures Line(pending, waiting - {id}) == Line(pending, waiting)
  {
    if pending != [] {
      LineWithout(pending[1..], waiting, id);
    }
  }

  lemma {:induction false} LineIsPart(pending: seq<nat>, waiting: set<nat>)
    ensures forall id :: id in Line(pending, waiting) <==> id in pending && id in waiting
  {
    if pending != [] {
      LineIsPart(pending[1..], waiting);
    }
  }

  /** The query of an exchange on a stream: its length, an ID of zero, and the rest. */
  predicate Carries(d: Doq, stream: nat, id: nat, query: Bytes) {
    && 2 <= |query| <= 65535 && LeadsTo(d, stream, id)
    && stream in d.sent && d.sent[stream] == Sent(id, [|query| / 256, |query| % 256, 0, 0] + query[2..])
  }

  /** The first `count` of the line are sent on streams from `first` on. */
  ghost predicate SentInTurn(d: Doq, t: Doq, line: seq<nat>, count: nat, first: nat) {
    && count <= |line| && t.nextStream == first + count
    && forall i :: 0 <= i < count ==> line[i] in d.exchanges && Carries(t, first + i, line[i], d.exchanges[line[i]].query)
  }

  lemma SendCarries(d: Doq, id: nat)
    requires id in d.exchanges && Framable(d.exchanges[id].query)
    ensures Carries(Send(d, id), d.nextStream, id, d.exchanges[id].query)
  {
    var query := d.exchanges[id].query;
    assert Frame(query) == [|query| / 256, |query| % 256, 0, 0] + query[2..];
  }

  /** What went out on a stream, and where it leads, stays. */
  ghost predicate SameStream(d: Doq, t: Doq, stream: nat) {
    && (stream in t.streams <==> stream in d.streams) && (stream in d.streams ==> t.streams[stream] == d.streams[stream])
    && (stream in t.sent <==> stream in d.sent) && (stream in d.sent ==> t.sent[stream] == d.sent[stream])
  }

  lemma {:induction false} PumpKeepsStreams(d: Doq, openings: seq<Opening>, stream: nat)
    requires stream < d.nextStream && !Pump(d, openings).retired
    ensures SameStream(d, Pump(d, openings), stream)
    decreases |d.pending|
  {
    if d.pending != [] && !d.retired {
      var first, popped := d.pending[0], d.(pending := d.pending[1..]);
      if !Waits(d, first) {
        assert Pump(d, openings) == Pump(popped, openings);
        PumpKeepsStreams(popped, openings, stream);
      } else if openings != [] && openings[0].Opened? {
        assert Pump(d, openings) == Pump(Send(popped, first), openings[1..]);
        PumpKeepsStreams(Send(popped, first), openings[1..], stream);
      }
    }
  }

  lemma SendWaiting(d: Doq, id: nat)
    requires Valid(d) && d.pending != [] && d.pending[0] == id && Waits(d, id)
    ensures Waiting(Send(d.(pending := d.pending[1..]), id)) == Waiting(d) - {id}
  {
  }

  lemma SkipWaiting(d: Doq)
    requires d.pending != []
    ensures Waiting(d.(pending := d.pending[1..])) == Waiting(d)
  {
  }

  /** What a pump has made of the line. */
  ghost predicate InTurn(d: Doq, openings: seq<Opening>, t: Doq) {
    var line, granted := Line(d.pending, Waiting(d)), Granted(openings);
    if granted < |line| && granted < |openings| && openings[granted].Refused? then
      t.retired && forall id :: id in d.live ==> Ended(t, id, Error(openings[granted].error))
    else
      var count := if granted < |line| then granted else |line|;
      && SentInTurn(d, t, line, count, d.nextStream) && !t.retired && t.live == d.live
      && Line(t.pending, Waiting(t)) == line[count..]
  }

  /**
   * Queries go out in the order in which they were asked, on consecutive streams, as many
   * of those that wait as the engine opens streams for; the others go on waiting, in
   * order, or fail with the session if the engine refuses a stream.
   */
  lemma {:induction false} PumpSendsInTurn(d: Doq, openings: seq<Opening>)
    requires Valid(d) && !d.retired
    ensures InTurn(d, openings, Pump(d, openings))
    decreases |d.pending|
  {
    if d.pending != [] {
      var first, popped := d.pending[0], d.(pending := d.pending[1..]);
      if !Waits(d, first) {
        SkipKeeps(d);
        PumpSendsInTurn(popped, openings);
        assert Pump(d, openings) == Pump(popped, openings);
        SkippedInTurn(d, openings, Pump(popped, openings));
      } else if openings != [] && openings[0].Opened? {
        SendKeeps(d, first);
        PumpSendsInTurn(Send(popped, first), openings[1..]);
        NextInTurn(d, openings);
        FirstOfLine(d);
        assert Pump(d, openings) == Pump(Send(popped, first), openings[1..]);
        SentInTurnWithNext(d, openings, Pump(d, openings));
      } else {
        StuckInTurn(d, openings);
      }
    }
  }

  lemma SkippedInTurn(d: Doq, openings: seq<Opening>, t: Doq)
    requires d.pending != [] && !Waits(d, d.pending[0]) && InTurn(d.(pending := d.pending[1..]), openings, t)
    ensures InTurn(d, openings, t)
  {
    SkipWaiting(d);
    assert Line(d.pending, Waiting(d)) == Line(d.pending[1..], Waiting(d));
  }

  lemma StuckInTurn(d: Doq, openings: seq<Opening>)
    requires Valid(d) && !d.retired && d.pending != [] && Waits(d, d.pending[0]) && (openings == [] || !openings[0].Opened?)
    ensures InTurn(d, openings, Pump(d, openings))
  {
    assert Line(d.pending, Waiting(d))[0] == d.pending[0];
    if openings != [] && openings[0].Refused? {
      AllFail(d, openings[0].error);
    }
  }

  lemma SentInTurnWithNext(d: Doq, openings: seq<Opening>, t: Doq)
    requires d.pending != [] && Waits(d, d.pending[0]) && openings != [] && openings[0].Opened?
    requires InTurn(Send(d.(pending := d.pending[1..]), d.pending[0]), openings[1..], t)
    requires LineSplits(d)
    requires !t.retired ==> Carries(t, d.nextStream, d.pending[0], d.exchanges[d.pending[0]].query)
    ensures InTurn(d, openings, t)
  {
    var s, first := Send(d.(pending := d.pending[1..]), d.pending[0]), d.pending[0];
    var line, rest, granted := Line(d.pending, Waiting(d)), Line(s.pending, Waiting(s)), Granted(openings[1..]);
    assert Granted(openings) == granted + 1 && s.live == d.live;
    assert granted < |openings[1..]| ==> openings[granted + 1] == openings[1..][granted];
    if granted < |rest| && granted < |openings[1..]| && openings[1..][granted].Refused? {
      assert t.retired;
    } else {
      var count := if granted < |rest| then granted else |rest|;
      SentQueries(d, first);
      OneMoreSent(d, s, t, first, rest, count);
      assert line[count + 1..] == rest[count..];
    }
  }

  /** The first of the line is sent, and the others are what is left of it. */
  ghost predicate LineSplits(d: Doq)
    requires d.pending != [] && Waits(d, d.pending[0])
  {
    var s := Send(d.(pending := d.pending[1..]), d.pending[0]);
    Line(d.pending, Waiting(d)) == [d.pending[0]] + Line(s.pending, Waiting(s))
  }

  lemma FirstOfLine(d: Doq)
    requires Valid(d) && d.pending != [] && Waits(d, d.pending[0])
    ensures LineSplits(d)
  {
    SendWaiting(d, d.pending[0]);
    LineWithout(d.pending[1..], Waiting(d), d.pending[0]);
  }

  lemma SentQueries(d: Doq, id: nat)
    requires d.pending != [] && id in d.exchanges && Framable(d.exchanges[id].query)
    ensures var s := Send(d.(pending := d.pending[1..]), id);
      && s.exchanges.Keys == d.exchanges.Keys && s.nextStream == d.nextStream + 1
      && forall k :: k in d.exchanges ==> s.exchanges[k].query == d.exchanges[k].query
  {
  }

  lemma OneMoreSent(d: Doq, s: Doq, t: Doq, first: nat, rest: seq<nat>, count: nat)
    requires first in d.exchanges && s.exchanges.Keys == d.exchanges.Keys && s.nextStream == d.nextStream + 1
    requires forall k :: k in d.exchanges ==> s.exchanges[k].query == d.exchanges[k].query
    requires Carries(t, d.nextStream, first, d.exchanges[first].query) && SentInTurn(s, t, rest, count, s.nextStream)
    ensures SentInTurn(d, t, [first] + rest, count + 1, d.nextStream)
  {
    var line := [first] + rest;
    forall i | 0 <= i < count + 1 ensures line[i] in d.exchanges && Carries(t, d.nextStream + i, line[i], d.exchanges[line[i]].query) {
      if i > 0 {
        assert line[i] == rest[i - 1];
        assert Carries(t, s.nextStream + (i - 1), rest[i - 1], s.exchanges[rest[i - 1]].query);
      }
    }
  }

  lemma AllFail(d: Doq, error: ErrorCode)
    requires Valid(d) && !d.retired
    ensures forall id :: id in d.live ==> Ended(Fail(d, error), id, Error(error))
  {
  }

  lemma NextInTurn(d: Doq, openings: seq<Opening>)
    requires Valid(d) && !d.retired && d.pending != [] && Waits(d, d.pending[0]) && openings != [] && openings[0].Opened?
    requires var s := Send(d.(pending := d.pending[1..]), d.pending[0]); Valid(s) && s.nextStream == d.nextStream + 1
    ensures !Pump(d, openings).retired ==> Carries(Pump(d, openings), d.nextStream, d.pending[0], d.exchanges[d.pending[0]].query)
  {
    var s := Send(d.(pending := d.pending[1..]), d.pending[0]);
    if !Pump(d, openings).retired {
      SendCarries(d.(pending := d.pending[1..]), d.pending[0]);
      assert Pump(d, openings) == Pump(s, openings[1..]);
      PumpKeepsStreams(s, openings[1..], d.nextStream);
    }
  }
}
