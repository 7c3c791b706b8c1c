/** Whole runs of a DNS-over-QUIC session: what its exchanges are told, and on what grounds. */
module DoqRuns {
  import opened Core
  import opened DoqFraming
  import opened DoqSessionSpec

  datatype Event =
    | Adds(id: nat, query: Bytes, queryId: Word16)
    | Handshaken(alpn: string, openings: seq<Opening>)
    | Pumps(openings: seq<Opening>)
    | Delivers(stream: nat, data: Bytes, fin: bool, failure: Option<ErrorCode>)
    | Closes(stream: nat)
    | Resets(stream: nat)
    | Cancels(id: nat, error: ErrorCode)
    | Breaks(error: ErrorCode)

  /** An exchange is added under a number of its own, and refused by a session that has retired. */
  predicate Enabled(d: Doq, e: Event) {
    e.Adds? ==> e.id !in d.exchanges && !d.retired && Framable(e.query)
  }

  function Step(d: Doq, e: Event): Doq {
    match e
    case Adds(id, query, queryId) => Add(d, id, query, queryId)
    case Handshaken(alpn, openings) => if alpn != "doq" then Fail(d, Authentication) else Pump(d.(ready := true), openings)
    case Pumps(openings) => if d.ready then Pump(d, openings) else d
    case Delivers(stream, data, fin, failure) => Data(d, stream, data, fin, failure)
    case Closes(stream) => Closed(d, stream)
    case Resets(stream) => Reset(d, stream)
    case Cancels(id, error) => Cancel(d, id, error)
    case Breaks(error) => Fail(d, error)
  }

  ghost predicate Follows(trace: seq<Doq>, events: seq<Event>, n: nat)
    requires n < |events| && n + 1 < |trace|
  {
    Enabled(trace[n], events[n]) && trace[n + 1] == Step(trace[n], events[n])
  }

  ghost predicate IsRun(trace: seq<Doq>, events: seq<Event>) {
    && |trace| == |events| + 1 && trace[0] == Initial()
    && forall n :: 0 <= n < |events| ==> Follows(trace, events, n)
  }

  lemma StepKeeps(d: Doq, e: Event)
    requires Valid(d) && Enabled(d, e)
    ensures Valid(Step(d, e))
  {
    match e
    case Adds(id, query, queryId) => AddKeeps(d, id, query, queryId);
    case Handshaken(alpn, openings) => HandshakeKeeps(d, alpn, openings);
    case Pumps(openings) => PumpKeeps(d, openings);
    case Delivers(stream, data, fin, failure) => DataKeeps(d, stream, data, fin, failure);
    case Closes(stream) => ClosedKeeps(d, stream);
    case Resets(stream) => ResetKeeps(d, stream);
    case Cancels(id, error) => CancelKeeps(d, id, error);
    case Breaks(error) => FailKeeps(d, error);
  }

  lemma ReadyKeeps(d: Doq)
    requires Valid(d)
    ensures Valid(d.(ready := true))
  {
    SameProjections(d, d.(ready := true));
  }

  lemma HandshakeKeeps(d: Doq, alpn: string, openings: seq<Opening>)
    requires Valid(d)
    ensures Valid(Step(d, Handshaken(alpn, openings)))
  {
    ReadyKeeps(d);
    PumpKeeps(d.(ready := true), openings);
    FailKeeps(d, Authentication);
  }

  lemma {:induction false} RunsAreValid(trace: seq<Doq>, events: seq<Event>, n: nat)
    requires IsRun(trace, events) && n < |trace|
    ensures Valid(trace[n])
    decreases n
  {
    if n == 0 {
      InitialValid();
    } else {
      RunsAreValid(trace, events, n - 1);
      assert Follows(trace, events, n - 1);
      StepKeeps(trace[n - 1], events[n - 1]);
    }
  }

  // ----- What a run remembers

  /** The query of an exchange and its ID never change. */
  ghost predicate Known(before: map<nat, Exchange>, after: map<nat, Exchange>) {
    forall id :: id in before ==> id in after && after[id].query == before[id].query && after[id].queryId == before[id].queryId
  }

  /** An exchange that has ended is told nothing more, and gathers nothing more. */
  ghost predicate Still(log: map<nat, seq<Outcome>>, live: set<nat>, arrived: map<nat, Bytes>,
                        laterLog: map<nat, seq<Outcome>>, laterLive: set<nat>, laterArrived: map<nat, Bytes>) {
    && log.Keys <= laterLog.Keys
    && forall id :: id in log && id !in live ==>
         id !in laterLive && laterLog[id] == log[id] && (id in arrived ==> id in laterArrived && laterArrived[id] == arrived[id])
  }

  ghost predicate Remembers(d: Doq, t: Doq) {
    Known(d.exchanges, t.exchanges) && Extends(d.sent, t.sent) && Still(d.log, d.live, d.arrived, t.log, t.live, t.arrived)
  }

  lemma StillTransitive(a: Doq, b: Doq, c: Doq)
    requires Still(a.log, a.live, a.arrived, b.log, b.live, b.arrived) && Still(b.log, b.live, b.arrived, c.log, c.live, c.arrived)
    ensures Still(a.log, a.live, a.arrived, c.log, c.live, c.arrived)
  {
  }

  lemma RemembersTransitive(d: Doq, t: Doq, u: Doq)
    requires Remembers(d, t) && Remembers(t, u)
    ensures Remembers(d, u)
  {
    StillTransitive(d, t, u);
    assert Known(d.exchanges, u.exchanges) && Extends(d.sent, u.sent);
  }

  lemma PutKnown(exchanges: map<nat, Exchange>, id: nat, e: Exchange)
    requires id in exchanges ==> e.query == exchanges[id].query && e.queryId == exchanges[id].queryId
    ensures Known(exchanges, exchanges[id := e])
  {
  }

  lemma EndStill(log: map<nat, seq<Outcome>>, live: set<nat>, arrived: map<nat, Bytes>, id: nat, outcome: Outcome)
    requires id in live && id in log
    ensures Still(log, live, arrived, log[id := log[id] + [outcome]], live - {id}, arrived)
  {
  }

  lemma ResolveRemembers(d: Doq, id: nat, outcome: Outcome)
    requires id in d.exchanges && id in d.log
    ensures Remembers(d, Resolve(d, id, outcome))
  {
    PutKnown(d.exchanges, id, d.exchanges[id].(result := Some(outcome)));
    if id in d.live {
      EndStill(d.log, d.live, d.arrived, id, outcome);
    }
  }

  lemma GrowRemembers(d: Doq, id: nat, data: Bytes)
    requires id in d.exchanges
    ensures Remembers(d, Grow(d, id, data))
  {
    PutKnown(d.exchanges, id, d.exchanges[id].(response := d.exchanges[id].response + data));
  }

  lemma SendRemembers(d: Doq, id: nat)
    requires Valid(d) && d.pending != [] && d.pending[0] == id && Waits(d, id)
    ensures Remembers(d, Send(d.(pending := d.pending[1..]), id))
  {
    PutKnown(d.exchanges, id, d.exchanges[id].(stream := Some(d.nextStream)));
    assert d.nextStream !in d.sent;
  }

  lemma FailRemembers(d: Doq, error: ErrorCode)
    ensures Remembers(d, Fail(d, error))
  {
  }

  /** One pass of the pump: it is over, or goes on from another state. */
  lemma PumpOnce(d: Doq, openings: seq<Opening>) returns (t: Doq, rest: seq<Opening>, goesOn: bool)
    requires Valid(d)
    ensures Remembers(d, t)
    ensures if goesOn then Valid(t) && |t.pending| < |d.pending| && Pump(d, openings) == Pump(t, rest) && t.log == d.log && t.live == d.live
            else Pump(d, openings) == t && (t == d || exists error :: t == Fail(d, error))
  {
    t, rest, goesOn := d, openings, false;
    if d.pending != [] && !d.retired {
      var id, popped := d.pending[0], d.(pending := d.pending[1..]);
      if !Waits(d, id) {
        SkipKeeps(d);
        t, goesOn := popped, true;
      } else if openings != [] && openings[0].Refused? {
        FailRemembers(d, openings[0].error);
        t := Fail(d, openings[0].error);
      } else if openings != [] && openings[0].Opened? {
        SendKeeps(d, id);
        SendRemembers(d, id);
        t, rest, goesOn := Send(popped, id), openings[1..], true;
      }
    }
  }

  lemma {:induction false} PumpRemembers(d: Doq, openings: seq<Opening>)
    requires Valid(d)
    ensures Remembers(d, Pump(d, openings))
    decreases |d.pending|
  {
    var t, rest, goesOn := PumpOnce(d, openings);
    if goesOn {
      PumpRemembers(t, rest);
      RemembersTransitive(d, t, Pump(t, rest));
    }
  }

  /** A fragment is gathered, or not, and may then bring the end of the exchange. */
  lemma FragmentInSteps(d: Doq, id: nat, data: Bytes, fin: bool, failure: Option<ErrorCode>) returns (t: Doq, outcome: Option<Outcome>)
    requires id in d.exchanges && id in d.log
    ensures t == d || t == Grow(d, id, data)
    ensures Fragment(d, id, data, fin, failure) == if outcome.Some? then Resolve(t, id, outcome.value) else t
  {
    var e := d.exchanges[id];
    if e.result.Some? {
      return d, None;
    }
    var (grown, verdict) := Receive(e.response, data, fin);
    t := if grown == e.response then d else Grow(d, id, data);
    outcome := if verdict.Incomplete? then None else Some(OutcomeOf(verdict, e.queryId, failure));
  }

  lemma FragmentRemembers(d: Doq, id: nat, data: Bytes, fin: bool, failure: Option<ErrorCode>)
    requires id in d.exchanges && id in d.log
    ensures Remembers(d, Fragment(d, id, data, fin, failure))
  {
    var t, outcome := FragmentInSteps(d, id, data, fin, failure);
    GrowRemembers(d, id, data);
    assert Remembers(d, t);
    if outcome.Some? {
      ResolveRemembers(t, id, outcome.value);
      RemembersTransitive(d, t, Resolve(t, id, outcome.value));
    }
  }

  lemma DataRemembers(d: Doq, stream: nat, data: Bytes, fin: bool, failure: Option<ErrorCode>)
    ensures Remembers(d, Data(d, stream, data, fin, failure))
  {
    if stream in d.streams && d.streams[stream] in d.exchanges && d.streams[stream] in d.log {
      FragmentRemembers(d, d.streams[stream], data, fin, failure);
    }
  }

  lemma ClosedRemembers(d: Doq, stream: nat)
    ensures Remembers(d, Closed(d, stream))
  {
    if stream in d.streams && d.streams[stream] in d.exchanges && d.streams[stream] in d.log {
      var id, t := d.streams[stream], Unlinked(d, stream);
      PutKnown(d.exchanges, id, d.exchanges[id].(stream := None));
      assert Remembers(d, t);
      if id in d.live {
        ResolveRemembers(t, id, Error(TransportIo));
        RemembersTransitive(d, t, Resolve(t, id, Error(TransportIo)));
      }
    }
  }

  lemma AddRemembers(d: Doq, id: nat, query: Bytes, queryId: Word16)
    requires Valid(d) && id !in d.exchanges
    ensures Remembers(d, Add(d, id, query, queryId))
  {
    assert id !in d.log;
  }

  lemma ReadyRemembers(d: Doq, openings: seq<Opening>)
    requires Valid(d)
    ensures Remembers(d, Pump(d.(ready := true), openings))
  {
    ReadyKeeps(d);
    PumpRemembers(d.(ready := true), openings);
  }

  lemma HandshakeRemembers(d: Doq, alpn: string, openings: seq<Opening>)
    requires Valid(d)
    ensures Remembers(d, Step(d, Handshaken(alpn, openings)))
  {
    if alpn != "doq" {
      FailRemembers(d, Authentication);
      assert Step(d, Handshaken(alpn, openings)) == Fail(d, Authentication);
    } else {
      ReadyRemembers(d, openings);
      assert Step(d, Handshaken(alpn, openings)) == Pump(d.(ready := true), openings);
    }
  }

  lemma ResetRemembers(d: Doq, stream: nat)
    ensures Remembers(d, Reset(d, stream))
  {
    if stream in d.streams && d.streams[stream] in d.exchanges && d.streams[stream] in d.log {
      ResolveRemembers(d, d.streams[stream], Error(TransportIo));
    }
  }

  lemma CancelRemembers(d: Doq, id: nat, error: ErrorCode)
    ensures Remembers(d, Cancel(d, id, error))
  {
    if id in d.live && id in d.exchanges && id in d.log {
      ResolveRemembers(d, id, Error(error));
    }
  }

  lemma StepRemembers(d: Doq, e: Event)
    requires Valid(d) && Enabled(d, e)
    ensures Remembers(d, Step(d, e))
  {
    match e
    case Adds(id, query, queryId) => AddRemembers(d, id, query, queryId);
    case Handshaken(alpn, openings) => HandshakeRemembers(d, alpn, openings);
    case Pumps(openings) => PumpRemembers(d, openings);
    case Delivers(stream, data, fin, failure) => DataRemembers(d, stream, data, fin, failure);
    case Closes(stream) => ClosedRemembers(d, stream);
    case Resets(stream) => ResetRemembers(d, stream);
    case Cancels(id, error) => CancelRemembers(d, id, error);
    case Breaks(error) => FailRemembers(d, error);
  }

  lemma {:induction false} RunRemembers(trace: seq<Doq>, events: seq<Event>, m: nat, n: nat)
    requires IsRun(trace, events) && m <= n < |trace|
    ensures Remembers(trace[m], trace[n])
    decreases n
  {
    if m < n {
      RunRemembers(trace, events, m, n - 1);
      RunsAreValid(trace, events, n - 1);
      assert Follows(trace, events, n - 1);
      StepRemembers(trace[n - 1], events[n - 1]);
      RemembersTransitive(trace[m], trace[n - 1], trace[n]);
    }
  }

  /**
   * In every run an exchange is live and has been told nothing, or has been told exactly
   * one thing, which stays the only one; none is live in a session that has retired.
   */
  lemma ExactlyOnce(trace: seq<Doq>, events: seq<Event>, m: nat, n: nat, id: nat)
    requires IsRun(trace, events) && m <= n < |trace| && id in trace[m].exchanges
    ensures id in trace[m].log && id in trace[n].log
    ensures if id in trace[m].live then trace[m].log[id] == []
            else |trace[m].log[id]| == 1 && trace[n].log[id] == trace[m].log[id]
    ensures trace[m].retired ==> id !in trace[m].live
  {
    RunsAreValid(trace, events, m);
    RunRemembers(trace, events, m, n);
  }

  // ----- What an answer rests on

  /** The answer's octets are all that came for the exchange, framed, under the query's ID; and the query had been sent. */
  ghost predicate Founded(d: Doq, id: nat, message: Bytes) {
    && id in d.arrived && id in d.exchanges && 2 <= |message| <= 0xffff && d.arrived[id] == Frame(message)
    && message[0] == d.exchanges[id].queryId / 256 && message[1] == d.exchanges[id].queryId % 256
    && exists s :: s in d.sent && d.sent[s].id == id && Framable(d.exchanges[id].query) && d.sent[s].message == Frame(d.exchanges[id].query)
  }

  ghost predicate Answered(d: Doq, id: nat) {
    id in d.log && id !in d.live && d.log[id] != [] && d.log[id][0].Answer?
  }

  ghost predicate AllFounded(d: Doq) {
    forall id :: Answered(d, id) ==> Founded(d, id, d.log[id][0].message)
  }

  /** A step in which no exchange ends with an answer. */
  ghost predicate Answerless(d: Doq, t: Doq) {
    forall id :: Answered(t, id) ==> Answered(d, id)
  }

  lemma AnswerlessKeeps(d: Doq, t: Doq)
    requires AllFounded(d) && Remembers(d, t) && Answerless(d, t)
    ensures AllFounded(t)
  {
    forall id | Answered(t, id) ensures Founded(t, id, t.log[id][0].message) {
      StaysFounded(d, t, id);
    }
  }

  lemma ResolveAnswerless(d: Doq, id: nat, error: ErrorCode)
    requires id in d.exchanges && id in d.log && (id in d.live ==> d.log[id] == [])
    ensures Answerless(d, Resolve(d, id, Error(error)))
  {
  }

  lemma FailAnswerless(d: Doq, error: ErrorCode)
    requires Valid(d)
    ensures Answerless(d, Fail(d, error))
  {
  }

  lemma {:induction false} PumpAnswerless(d: Doq, openings: seq<Opening>)
    requires Valid(d)
    ensures Answerless(d, Pump(d, openings))
    decreases |d.pending|
  {
    var t, rest, goesOn := PumpOnce(d, openings);
    if goesOn {
      PumpAnswerless(t, rest);
    } else if t != d {
      var error :| t == Fail(d, error);
      FailAnswerless(d, error);
    }
  }

  /** The exchange that ends with the data, if any. */
  lemma NewAnswerFounded(d: Doq, stream: nat, data: Bytes, fin: bool, failure: Option<ErrorCode>)
    requires Valid(d) && stream in d.streams && d.streams[stream] in d.live
    ensures var id, t := d.streams[stream], Data(d, stream, data, fin, failure);
      Answered(t, id) ==> Founded(t, id, t.log[id][0].message)
  {
    var id, t := d.streams[stream], Data(d, stream, data, fin, failure);
    EndJudgesAll(d, stream, data, fin, failure);
    if Answered(t, id) {
      DataRemembers(d, stream, data, fin, failure);
      AnswersWereFramed(d.arrived[id] + data, d.exchanges[id].queryId, failure, t.log[id][0].message);
      GatheredAll(d, stream, data, fin, failure);
      StreamCarries(d, stream);
      assert stream in t.sent && t.sent[stream].id == id;
    }
  }

  lemma StreamCarries(d: Doq, stream: nat)
    requires Valid(d) && stream in d.streams
    ensures var id := d.streams[stream];
      && stream in d.sent && d.sent[stream].id == id && id in d.exchanges && Framable(d.exchanges[id].query)
      && d.sent[stream].message == Frame(d.exchanges[id].query)
  {
    assert d.streams[stream] in Streamed(d);
    assert d.sent[stream].id in Queries(d);
  }

  lemma StaysFounded(d: Doq, t: Doq, id: nat)
    requires AllFounded(d) && Remembers(d, t) && Answered(d, id)
    ensures Answered(t, id) && Founded(t, id, t.log[id][0].message)
  {
    var s :| s in d.sent && d.sent[s].id == id;
    assert s in t.sent && t.sent[s].id == id;
  }

  lemma DataFounded(d: Doq, stream: nat, data: Bytes, fin: bool, failure: Option<ErrorCode>)
    requires Valid(d) && AllFounded(d)
    ensures AllFounded(Data(d, stream, data, fin, failure))
  {
    var t := Data(d, stream, data, fin, failure);
    DataRemembers(d, stream, data, fin, failure);
    forall id | Answered(t, id) ensures Founded(t, id, t.log[id][0].message) {
      if stream in d.streams && d.streams[stream] == id && id in d.live {
        NewAnswerFounded(d, stream, data, fin, failure);
      } else {
        OthersUntouched(d, stream, data, fin, failure, id);
        StaysFounded(d, t, id);
      }
    }
  }

  lemma ResolveTouches(d: Doq, id: nat, outcome: Outcome, k: nat)
    requires id in d.exchanges && id in d.log && !(k == id && k in d.live)
    ensures Answered(Resolve(d, id, outcome), k) ==> Answered(d, k)
  {
    if d.exchanges[id].result.None? && id in d.live {
      assert Answered(End(d, id, outcome), k) ==> Answered(d, k);
    }
  }

  lemma OthersUntouched(d: Doq, stream: nat, data: Bytes, fin: bool, failure: Option<ErrorCode>, k: nat)
    requires !(stream in d.streams && d.streams[stream] == k && k in d.live) && Answered(Data(d, stream, data, fin, failure), k)
    ensures Answered(d, k)
  {
    if stream in d.streams && d.streams[stream] in d.exchanges && d.streams[stream] in d.log {
      var id := d.streams[stream];
      var t, outcome := FragmentInSteps(d, id, data, fin, failure);
      if outcome.Some? {
        ResolveTouches(t, id, outcome.value, k);
      }
    }
  }

  /** What came last is part of what came. */
  lemma GatheredAll(d: Doq, stream: nat, data: Bytes, fin: bool, failure: Option<ErrorCode>)
    requires Valid(d) && stream in d.streams && d.streams[stream] in d.live && d.streams[stream] in d.arrived
    requires |d.arrived[d.streams[stream]]| + |data| <= Limit()
    ensures var id, t := d.streams[stream], Data(d, stream, data, fin, failure);
      id in t.arrived && t.arrived[id] == d.arrived[id] + data
  {
    var id := d.streams[stream];
    assert id in Responses(d) && id !in Resolved(d);
    if d.exchanges[id].response + data == d.exchanges[id].response {
      assert data == [];
    }
  }

  lemma StepFounded(d: Doq, e: Event)
    requires Valid(d) && Enabled(d, e) && AllFounded(d)
    ensures AllFounded(Step(d, e))
  {
    if e.Delivers? {
      DataFounded(d, e.stream, e.data, e.fin, e.failure);
    } else {
      StepRemembers(d, e);
      StepAnswerless(d, e);
      AnswerlessKeeps(d, Step(d, e));
    }
  }

  lemma StepAnswerless(d: Doq, e: Event)
    requires Valid(d) && Enabled(d, e) && !e.Delivers?
    ensures Answerless(d, Step(d, e))
  {
    match e
    case Adds(id, query, queryId) =>
    case Handshaken(alpn, openings) =>
      ReadyKeeps(d);
      PumpAnswerless(d.(ready := true), openings);
      FailAnswerless(d, Authentication);
    case Pumps(openings) => PumpAnswerless(d, openings);
    case Closes(stream) =>
      if stream in d.streams {
        assert d.streams[stream] in Streamed(d);
        ResolveAnswerless(Unlinked(d, stream), d.streams[stream], TransportIo);
      }
    case Resets(stream) =>
      if stream in d.streams {
        assert d.streams[stream] in Streamed(d);
        ResolveAnswerless(d, d.streams[stream], TransportIo);
      }
    case Cancels(id, error) =>
      if id in d.live {
        ResolveAnswerless(d, id, error);
      }
    case Breaks(error) => FailAnswerless(d, error);
  }

  /**
   * In every run an exchange that was told an answer was sent on exactly one stream, as
   * its query framed, and the octets that came back for it are exactly the answer,
   * framed, under the ID of the query.
   */
  lemma {:induction false} AnswersAreFounded(trace: seq<Doq>, events: seq<Event>, n: nat)
    requires IsRun(trace, events) && n < |trace|
    ensures AllFounded(trace[n])
    ensures forall s, t :: s in trace[n].sent && t in trace[n].sent && trace[n].sent[s].id == trace[n].sent[t].id ==> s == t
    decreases n
  {
    RunsAreValid(trace, events, n);
    if n > 0 {
      AnswersAreFounded(trace, events, n - 1);
      RunsAreValid(trace, events, n - 1);
      assert Follows(trace, events, n - 1);
      StepFounded(trace[n - 1], events[n - 1]);
    }
  }
}
