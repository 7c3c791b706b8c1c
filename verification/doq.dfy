/**
 * DNS over QUIC on one session (src/dns/doq_dns_transport.cpp): a query is framed with
 * its length and sent on a stream of its own, and the response is put together from
 * whatever fragments the stream delivers (sections 4.2 and 4.2.1 of RFC 9250).
 */
module DoqFraming {
  import opened Core

  /** The longest message with its length prefix. */
  function Limit(): nat { 0xffff + 2 }

  /** What a response stream is good for once it is complete, or has grown too long. */
  datatype Verdict = Incomplete | Rejected | Message(bytes: Bytes)

  function Prefix(length: nat): Bytes
    requires length <= 0xffff
  {
    [length / 256, length % 256]
  }

  /** A query is sent with its length in front and with a transaction ID of zero. */
  function Frame(wire: Bytes): Bytes
    requires 2 <= |wire| <= 0xffff
  {
    Prefix(|wire|) + [0, 0] + wire[2..]
  }

  function PrefixValue(bytes: Bytes): nat
    requires |bytes| >= 2
  {
    bytes[0] as int * 256 + bytes[1]
  }

  /** The verdict on all octets of a finished stream; it knows nothing of fragments. */
  function Judge(bytes: Bytes): (v: Verdict)
    ensures v != Incomplete
  {
    if |bytes| > Limit() || |bytes| < 2 then Rejected
    else if PrefixValue(bytes) == 0 || |bytes| != PrefixValue(bytes) + 2 then Rejected
    else if |bytes| < 4 || bytes[2] != 0 || bytes[3] != 0 then Rejected
    else Message(bytes[2..])
  }

  /** One fragment, given the octets that came before. */
  function Receive(response: Bytes, data: Bytes, fin: bool): (r: (Bytes, Verdict)) {
    if |response| + |data| > Limit() then (response, Rejected)
    else if !fin then (response + data, Incomplete)
    else (response + data, Judge(response + data))
  }

  /** A stream delivers `fragments` and ends with the last one; nothing is read after a rejection. */
  function Deliver(response: Bytes, fragments: seq<Bytes>): Verdict
    requires fragments != []
    decreases |fragments|
  {
    var (grown, verdict) := Receive(response, fragments[0], |fragments| == 1);
    if verdict != Incomplete || |fragments| == 1 then verdict else Deliver(grown, fragments[1..])
  }

  lemma {:induction false} DeliveredIsJudged(response: Bytes, fragments: seq<Bytes>)
    requires fragments != [] && |response| <= Limit()
    ensures Deliver(response, fragments) == Judge(response + Concat(fragments))
    decreases |fragments|
  {
    var first, rest := fragments[0], Concat(fragments[1..]);
    assert response + Concat(fragments) == (response + first) + rest;
    if |response| + |first| <= Limit() {
      if |fragments| == 1 {
        assert rest == [] && (response + first) + rest == response + first;
      } else {
        DeliveredIsJudged(response + first, fragments[1..]);
      }
    }
  }

  /** What becomes of a response depends on its octets only, not on how they were cut into fragments. */
  lemma FragmentsDoNotMatter(a: seq<Bytes>, b: seq<Bytes>)
    requires a != [] && b != [] && Concat(a) == Concat(b)
    ensures Deliver([], a) == Deliver([], b) == Judge(Concat(a))
  {
    DeliveredIsJudged([], a);
    DeliveredIsJudged([], b);
    assert [] + Concat(a) == Concat(a) && [] + Concat(b) == Concat(b);
  }

  /** Exactly the framed messages with a transaction ID of zero are accepted, and as what was framed. */
  lemma AcceptedIffFramed(bytes: Bytes, message: Bytes)
    ensures Judge(bytes) == Message(message) <==>
      2 <= |message| <= 0xffff && message[0] == 0 && message[1] == 0 && bytes == Prefix(|message|) + message
  {
    if Judge(bytes) == Message(message) {
      assert PrefixValue(bytes) / 256 == bytes[0] && PrefixValue(bytes) % 256 == bytes[1];
      assert bytes == bytes[..2] + bytes[2..] && bytes[..2] == [bytes[0], bytes[1]];
    }
    if 2 <= |message| <= 0xffff && bytes == Prefix(|message|) + message {
      assert bytes[2..] == message && PrefixValue(bytes) == |message|;
      assert bytes[2] == message[0] && bytes[3] == message[1];
    }
  }

  /** However a framed query is cut into fragments, it is read back, and restoring its ID gives the query itself. */
  lemma FrameRoundTrip(wire: Bytes, id: Word16, fragments: seq<Bytes>)
    requires 2 <= |wire| <= 0xffff && wire[0] == id / 256 && wire[1] == id % 256
    requires fragments != [] && Concat(fragments) == Frame(wire)
    ensures Deliver([], fragments).Message? && |Deliver([], fragments).bytes| >= 2
    ensures WithId(Deliver([], fragments).bytes, id) == wire
  {
    var message: Bytes := [0, 0] + wire[2..];
    FragmentsDoNotMatter(fragments, [Frame(wire)]);
    assert Concat([Frame(wire)]) == Frame(wire) + Concat([]) == Frame(wire);
    assert Frame(wire) == Prefix(|message|) + message;
    AcceptedIffFramed(Frame(wire), message);
    assert WithId(message, id) == wire;
  }
}

/**
 * The exchanges of one session and their streams, as a function of the session's
 * state. An exchange is the record kept under its number; it stays reachable through
 * its stream after it has ended.
 */
module DoqSessionSpec {
  import opened Core
  import opened DoqFraming

  datatype Outcome = Answer(message: Bytes) | Error(error: ErrorCode)

  datatype Exchange = Exchange(query: Bytes, queryId: Word16, stream: Option<nat>, response: Bytes, result: Option<Outcome>)

  /** What went out on a stream. */
  datatype Sent = Sent(id: nat, message: Bytes)

  /** `sent`, `arrived` (what came in for an exchange while it was live) and `log` record the session's history. */
  datatype Doq = Doq(
    exchanges: map<nat, Exchange>, live: set<nat>, pending: seq<nat>, streams: map<nat, nat>, nextStream: nat,
    ready: bool, retired: bool, sent: map<nat, Sent>, arrived: map<nat, Bytes>, log: map<nat, seq<Outcome>>)

  /** The engine's answer to a request for a stream. */
  datatype Opening = Opened | Blocked | Refused(error: ErrorCode)

  function Initial(): Doq {
    Doq(map[], {}, [], map[], 0, false, false, map[], map[], map[])
  }

  function Put(d: Doq, id: nat, e: Exchange): Doq {
    d.(exchanges := d.exchanges[id := e])
  }

  /** `complete_exchange` */
  function End(d: Doq, id: nat, outcome: Outcome): Doq
    requires id in d.log
  {
    d.(live := d.live - {id}, log := d.log[id := d.log[id] + [outcome]])
  }

  /** A result is set and drained; the result of an exchange that has ended stays where it is. */
  function Resolve(d: Doq, id: nat, outcome: Outcome): Doq
    requires id in d.exchanges && id in d.log
  {
    if d.exchanges[id].result.Some? then d
    else if id in d.live then End(d, id, outcome)
    else Put(d, id, d.exchanges[id].(result := Some(outcome)))
  }

  /** Every live exchange ends with the same error. */
  function Fail(d: Doq, error: ErrorCode): Doq {
    if d.retired then d
    else d.(retired := true, live := {}, pending := [], streams := map[],
            log := map id | id in d.log :: if id in d.live then d.log[id] + [Error(error)] else d.log[id])
  }

  function Add(d: Doq, id: nat, query: Bytes, queryId: Word16): Doq {
    d.(exchanges := d.exchanges[id := Exchange(query, queryId, None, [], None)], live := d.live + {id},
       pending := d.pending + [id], arrived := d.arrived[id := []], log := d.log[id := []])
  }

  /** The query of the exchange goes out, framed, on the next stream. */
  function Send(d: Doq, id: nat): Doq
    requires id in d.exchanges && 2 <= |d.exchanges[id].query| <= 0xffff
  {
    Put(d, id, d.exchanges[id].(stream := Some(d.nextStream))).(
      streams := d.streams[d.nextStream := id], sent := d.sent[d.nextStream := Sent(id, Frame(d.exchanges[id].query))],
      nextStream := d.nextStream + 1)
  }

  predicate Waits(d: Doq, id: nat) {
    id in d.live && id in d.exchanges && d.exchanges[id].result.None? && d.exchanges[id].stream.None?
    && 2 <= |d.exchanges[id].query| <= 0xffff
  }

  /** `pump_open_pending_exchanges`: `openings` are the engine's answers, after which it is blocked. */
  function Pump(d: Doq, openings: seq<Opening>): Doq
    decreases |d.pending|
  {
    if d.pending == [] || d.retired then d
    else
      var id := d.pending[0];
      if !Waits(d, id) then Pump(d.(pending := d.pending[1..]), openings)
      else if openings == [] || openings[0].Blocked? then d
      else if openings[0].Refused? then Fail(d, openings[0].error)
      else Pump(Send(d.(pending := d.pending[1..]), id), openings[1..])
  }

  /** What a verdict on a response means for the exchange; `failure` is why a message may not be its answer. */
  function OutcomeOf(v: Verdict, queryId: Word16, failure: Option<ErrorCode>): Outcome {
    match v
    case Message(bytes) =>
      if failure.Some? then Error(failure.value)
      else if |bytes| < 2 then Error(ProtocolFraming)
      else Answer(WithId(bytes, queryId))
    case _ => Error(ProtocolFraming)
  }

  /** `on_doq_stream_data` */
  function Data(d: Doq, stream: nat, data: Bytes, fin: bool, failure: Option<ErrorCode>): Doq {
    if stream !in d.streams || d.streams[stream] !in d.exchanges || d.streams[stream] !in d.log then d
    else Fragment(d, d.streams[stream], data, fin, failure)
  }

  function Fragment(d: Doq, id: nat, data: Bytes, fin: bool, failure: Option<ErrorCode>): Doq
    requires id in d.exchanges && id in d.log
  {
    var e := d.exchanges[id];
    if e.result.Some? then d
    else
      var (grown, verdict) := Receive(e.response, data, fin);
      var t := if grown == e.response then d else Grow(d, id, data);
      if verdict.Incomplete? then t else Resolve(t, id, OutcomeOf(verdict, e.queryId, failure))
  }

  /** The octets of the exchange grow by what has arrived. */
  function Grow(d: Doq, id: nat, data: Bytes): Doq
    requires id in d.exchanges
  {
    Put(d, id, d.exchanges[id].(response := d.exchanges[id].response + data)).(
      arrived := if id in d.live && id in d.arrived then d.arrived[id := d.arrived[id] + data] else d.arrived)
  }

  /** `on_doq_stream_closed` */
  function Closed(d: Doq, stream: nat): Doq {
    if stream !in d.streams || d.streams[stream] !in d.exchanges || d.streams[stream] !in d.log then d
    else
      var id := d.streams[stream];
      var t := Put(d, id, d.exchanges[id].(stream := None)).(streams := d.streams - {stream});
      if id in d.live then Resolve(t, id, Error(TransportIo)) else t
  }

  /** `on_doq_stream_reset` */
  function Reset(d: Doq, stream: nat): Doq {
    if stream !in d.streams || d.streams[stream] !in d.exchanges || d.streams[stream] !in d.log then d
    else Resolve(d, d.streams[stream], Error(TransportIo))
  }

  /** `cancel_exchange`, also for the deadline. */
  function Cancel(d: Doq, id: nat, error: ErrorCode): Doq {
    if id !in d.live || id !in d.exchanges || id !in d.log then d else Resolve(d, id, Error(error))
  }

  // ----- What every step keeps, as predicates over projections of the state

  function Queries(d: Doq): map<nat, Bytes> {
    map id | id in d.exchanges :: d.exchanges[id].query
  }

  /** The exchanges that have a stream. */
  function Streamed(d: Doq): map<nat, nat> {
    map id | id in d.exchanges && d.exchanges[id].stream.Some? :: d.exchanges[id].stream.value
  }

  function Resolved(d: Doq): set<nat> {
    set id | id in d.exchanges && d.exchanges[id].result.Some?
  }

  function Responses(d: Doq): map<nat, Bytes> {
    map id | id in d.exchanges :: d.exchanges[id].response
  }

  /** The stream of an exchange leads back to it. */
  ghost predicate Linked(streams: map<nat, nat>, streamed: map<nat, nat>, next: nat) {
    forall s :: s in streams ==> s < next && streams[s] in streamed && streamed[streams[s]] == s
  }

  predicate Framable(query: Bytes) {
    2 <= |query| <= 0xffff
  }

  /** Every stream carried one query, framed, and no query went out twice. */
  ghost predicate Carried(queries: map<nat, Bytes>, streamed: map<nat, nat>, sent: map<nat, Sent>, next: nat) {
    && (forall s :: s in sent ==> s < next && sent[s].id in queries && Framable(queries[sent[s].id]) && sent[s].message == Frame(queries[sent[s].id]))
    && (forall s, t :: s in sent && t in sent && sent[s].id == sent[t].id ==> s == t)
    && (forall id :: id in streamed ==> streamed[id] in sent && sent[streamed[id]].id == id)
  }

  /** A live exchange has a stream, or is in the queue and has not been sent. */
  ghost predicate Queued(queries: map<nat, Bytes>, live: set<nat>, pending: seq<nat>, streams: map<nat, nat>, streamed: map<nat, nat>, sent: map<nat, Sent>) {
    && Distinct(pending) && (forall id :: id in pending ==> id in queries)
    && (forall id :: id in live ==> id in queries && Framable(queries[id]))
    && (forall id :: id in live ==> if id in streamed then streamed[id] in streams && streams[streamed[id]] == id else id in pending)
    && (forall s :: s in sent && sent[s].id in live ==> sent[s].id in streamed)
  }

  /** What a live exchange has gathered is all that came for it. */
  ghost predicate Gathered(responses: map<nat, Bytes>, live: set<nat>, arrived: map<nat, Bytes>) {
    forall id :: id in live ==> id in responses && id in arrived && responses[id] == arrived[id] && |arrived[id]| <= Limit()
  }

  ghost predicate Logged(log: map<nat, seq<Outcome>>, live: set<nat>, resolved: set<nat>, all: set<nat>) {
    && log.Keys == all && live <= all && live !! resolved
    && forall id :: id in log ==> if id in live then log[id] == [] else |log[id]| == 1
  }

  ghost predicate Valid(d: Doq) {
    && Linked(d.streams, Streamed(d), d.nextStream)
    && Carried(Queries(d), Streamed(d), d.sent, d.nextStream)
    && Queued(Queries(d), d.live, d.pending, d.streams, Streamed(d), d.sent)
    && Gathered(Responses(d), d.live, d.arrived)
    && Logged(d.log, d.live, Resolved(d), d.exchanges.Keys)
    && (d.retired ==> d.live == {} && d.pending == [] && d.streams == map[])
  }

  lemma InitialValid()
    ensures Valid(Initial())
  {
  }

  lemma PutProjections(d: Doq, id: nat, e: Exchange)
    requires id in d.exchanges && e.query == d.exchanges[id].query
    ensures var t := Put(d, id, e);
      && Queries(t) == Queries(d) && t.exchanges.Keys == d.exchanges.Keys
      && Resolved(t) == (if e.result.Some? then Resolved(d) + {id} else Resolved(d) - {id})
      && Responses(t) == Responses(d)[id := e.response]
  {
  }

  lemma PutStreamed(d: Doq, id: nat, e: Exchange)
    requires id in d.exchanges
    ensures Streamed(Put(d, id, e)) == if e.stream.Some? then Streamed(d)[id := e.stream.value] else Streamed(d) - {id}
  {
  }

  lemma SameStream(d: Doq, id: nat)
    requires id in d.exchanges
    ensures (if d.exchanges[id].stream.Some? then Streamed(d)[id := d.exchanges[id].stream.value] else Streamed(d) - {id}) == Streamed(d)
    ensures Responses(d)[id := d.exchanges[id].response] == Responses(d)
    ensures d.exchanges[id].result.None? ==> Resolved(d) - {id} == Resolved(d)
  {
  }

  lemma ResolveKeeps(d: Doq, id: nat, outcome: Outcome)
    requires Valid(d) && id in d.exchanges
    ensures id in d.log && Valid(Resolve(d, id, outcome))
  {
    if id !in d.live {
      PutProjections(d, id, d.exchanges[id].(result := Some(outcome)));
      PutStreamed(d, id, d.exchanges[id].(result := Some(outcome)));
      SameStream(d, id);
    } else {
      EndKeeps(d, id, outcome);
    }
  }

  lemma EndKeeps(d: Doq, id: nat, outcome: Outcome)
    requires Valid(d) && id in d.live && id in d.log
    ensures Valid(End(d, id, outcome))
  {
  }

  lemma FailKeeps(d: Doq, error: ErrorCode)
    requires Valid(d)
    ensures Valid(Fail(d, error))
  {
  }

  lemma AddProjections(d: Doq, id: nat, query: Bytes, queryId: Word16)
    requires id !in d.exchanges
    ensures var t := Add(d, id, query, queryId);
      && Queries(t) == Queries(d)[id := query] && Streamed(t) == Streamed(d) && Resolved(t) == Resolved(d)
      && Responses(t) == Responses(d)[id := []] && t.exchanges.Keys == d.exchanges.Keys + {id}
  {
  }

  lemma AddQueued(queries: map<nat, Bytes>, live: set<nat>, pending: seq<nat>, streams: map<nat, nat>, streamed: map<nat, nat>,
                  sent: map<nat, Sent>, id: nat, query: Bytes)
    requires Queued(queries, live, pending, streams, streamed, sent) && id !in queries && Framable(query)
    requires (forall s :: s in sent ==> sent[s].id in queries) && (forall k :: k in streamed ==> k in queries)
    ensures Queued(queries[id := query], live + {id}, pending + [id], streams, streamed, sent)
  {
  }

  lemma AddKeeps(d: Doq, id: nat, query: Bytes, queryId: Word16)
    requires Valid(d) && id !in d.exchanges && !d.retired && Framable(query)
    ensures Valid(Add(d, id, query, queryId))
  {
    AddProjections(d, id, query, queryId);
    AddQueued(Queries(d), d.live, d.pending, d.streams, Streamed(d), d.sent, id, query);
    AddLogged(d.log, d.live, Resolved(d), d.exchanges.Keys, id);
    AddCarried(Queries(d), Streamed(d), d.sent, d.nextStream, id, query);
    AddGathered(Responses(d), d.live, d.arrived, id);
  }

  lemma AddGathered(responses: map<nat, Bytes>, live: set<nat>, arrived: map<nat, Bytes>, id: nat)
    requires Gathered(responses, live, arrived)
    ensures Gathered(responses[id := []], live + {id}, arrived[id := []])
  {
  }

  lemma AddLogged(log: map<nat, seq<Outcome>>, live: set<nat>, resolved: set<nat>, all: set<nat>, id: nat)
    requires Logged(log, live, resolved, all) && id !in all && resolved <= all
    ensures Logged(log[id := []], live + {id}, resolved, all + {id})
  {
  }

  lemma AddCarried(queries: map<nat, Bytes>, streamed: map<nat, nat>, sent: map<nat, Sent>, next: nat, id: nat, query: Bytes)
    requires Carried(queries, streamed, sent, next) && id !in queries
    ensures Carried(queries[id := query], streamed, sent, next)
  {
  }

  lemma SendCarried(queries: map<nat, Bytes>, streamed: map<nat, nat>, sent: map<nat, Sent>, next: nat, id: nat)
    requires Carried(queries, streamed, sent, next) && id in queries && Framable(queries[id]) && id !in streamed
    requires forall s :: s in sent ==> sent[s].id != id
    ensures Carried(queries, streamed[id := next], sent[next := Sent(id, Frame(queries[id]))], next + 1)
  {
  }

  lemma SendQueued(queries: map<nat, Bytes>, live: set<nat>, pending: seq<nat>, streams: map<nat, nat>, streamed: map<nat, nat>,
                   sent: map<nat, Sent>, next: nat, id: nat, message: Bytes)
    requires Queued(queries, live, pending, streams, streamed, sent) && pending != [] && pending[0] == id && id !in streamed
    requires next !in streams
    ensures Queued(queries, live, pending[1..], streams[next := id], streamed[id := next], sent[next := Sent(id, message)])
  {
    assert forall k :: k in pending ==> k == id || k in pending[1..];
  }

  lemma SendLinked(streams: map<nat, nat>, streamed: map<nat, nat>, next: nat, id: nat)
    requires Linked(streams, streamed, next) && id !in streamed
    ensures Linked(streams[next := id], streamed[id := next], next + 1) && next !in streams
  {
  }

  lemma WaitingIsUnsent(d: Doq, id: nat)
    requires Queued(Queries(d), d.live, d.pending, d.streams, Streamed(d), d.sent) && Waits(d, id)
    ensures id !in Streamed(d) && forall s :: s in d.sent ==> d.sent[s].id != id
  {
  }

  lemma SendKeeps(d: Doq, id: nat)
    requires Valid(d) && d.pending != [] && d.pending[0] == id && Waits(d, id) && !d.retired
    ensures Valid(Send(d.(pending := d.pending[1..]), id))
  {
    WaitingIsUnsent(d, id);
    SendLinked(d.streams, Streamed(d), d.nextStream, id);
    SendCarried(Queries(d), Streamed(d), d.sent, d.nextStream, id);
    SendQueued(Queries(d), d.live, d.pending, d.streams, Streamed(d), d.sent, d.nextStream, id, Frame(d.exchanges[id].query));
    SentProjections(d, id);
  }

  lemma SentProjections(d: Doq, id: nat)
    requires id in d.exchanges && d.pending != [] && Framable(d.exchanges[id].query) && d.exchanges[id].result.None?
    ensures var t := Send(d.(pending := d.pending[1..]), id);
      && Queries(t) == Queries(d) && Streamed(t) == Streamed(d)[id := d.nextStream] && Resolved(t) == Resolved(d)
      && Responses(t) == Responses(d) && t.exchanges.Keys == d.exchanges.Keys
  {
    var e := d.exchanges[id].(stream := Some(d.nextStream));
    PutProjections(d, id, e);
    PutStreamed(d, id, e);
    SameStream(d, id);
    SameProjections(Put(d, id, e), Send(d.(pending := d.pending[1..]), id));
  }

  lemma SameProjections(d: Doq, t: Doq)
    requires t.exchanges == d.exchanges
    ensures Queries(t) == Queries(d) && Streamed(t) == Streamed(d) && Resolved(t) == Resolved(d) && Responses(t) == Responses(d)
  {
  }

  lemma SkipKeeps(d: Doq)
    requires Valid(d) && d.pending != [] && !Waits(d, d.pending[0])
    ensures Valid(d.(pending := d.pending[1..]))
  {
    var id, t := d.pending[0], d.(pending := d.pending[1..]);
    assert id in d.live ==> id in Streamed(d) || id in Resolved(d);
    assert Queries(t) == Queries(d) && Streamed(t) == Streamed(d) && Resolved(t) == Resolved(d) && Responses(t) == Responses(d);
    assert forall k :: k in d.pending ==> k == id || k in d.pending[1..];
  }

  lemma {:induction false} PumpKeeps(d: Doq, openings: seq<Opening>)
    requires Valid(d)
    ensures Valid(Pump(d, openings))
    decreases |d.pending|
  {
    if d.pending != [] && !d.retired {
      var id := d.pending[0];
      var popped := d.(pending := d.pending[1..]);
      if !Waits(d, id) {
        SkipKeeps(d);
        PumpKeeps(popped, openings);
        assert Pump(d, openings) == Pump(popped, openings);
      } else if openings != [] && openings[0].Refused? {
        FailKeeps(d, openings[0].error);
        assert Pump(d, openings) == Fail(d, openings[0].error);
      } else if openings != [] && openings[0].Opened? {
        SendKeeps(d, id);
        PumpKeeps(Send(popped, id), openings[1..]);
        assert Pump(d, openings) == Pump(Send(popped, id), openings[1..]);
      }
    }
  }

  lemma GrowKeeps(d: Doq, id: nat, data: Bytes)
    requires Valid(d) && id in d.exchanges && |d.exchanges[id].response| + |data| <= Limit()
    requires d.exchanges[id].result.None?
    ensures Valid(Grow(d, id, data))
  {
    var e := d.exchanges[id].(response := d.exchanges[id].response + data);
    PutProjections(d, id, e);
    PutStreamed(d, id, e);
    SameStream(d, id);
    SameProjections(Put(d, id, e), Grow(d, id, data));
  }

  lemma FragmentKeeps(d: Doq, id: nat, data: Bytes, fin: bool, failure: Option<ErrorCode>)
    requires Valid(d) && id in d.exchanges
    ensures id in d.log && Valid(Fragment(d, id, data, fin, failure))
  {
    var e := d.exchanges[id];
    if e.result.None? {
      var (grown, verdict) := Receive(e.response, data, fin);
      var t := if grown == e.response then d else Grow(d, id, data);
      if grown != e.response {
        GrowKeeps(d, id, data);
      }
      if verdict != Incomplete {
        ResolveKeeps(t, id, OutcomeOf(verdict, e.queryId, failure));
      }
    }
  }

  lemma DataKeeps(d: Doq, stream: nat, data: Bytes, fin: bool, failure: Option<ErrorCode>)
    requires Valid(d)
    ensures Valid(Data(d, stream, data, fin, failure))
  {
    if stream in d.streams {
      FragmentKeeps(d, d.streams[stream], data, fin, failure);
    }
  }

  lemma ResetKeeps(d: Doq, stream: nat)
    requires Valid(d)
    ensures Valid(Reset(d, stream))
  {
    if stream in d.streams {
      ResolveKeeps(d, d.streams[stream], Error(TransportIo));
    }
  }

  lemma CancelKeeps(d: Doq, id: nat, error: ErrorCode)
    requires Valid(d)
    ensures Valid(Cancel(d, id, error))
  {
    if id in d.live {
      ResolveKeeps(d, id, Error(error));
    }
  }

  /** A stream that closes takes its exchange with it, unless the exchange has ended. */
  lemma ClosedKeeps(d: Doq, stream: nat)
    requires Valid(d)
    ensures Valid(Closed(d, stream))
  {
    if stream in d.streams {
      var id := d.streams[stream];
      assert id in Streamed(d);
      if id in d.live {
        EndKeeps(d, id, Error(TransportIo));
        ClosedInSteps(d, stream);
        UnlinkKeeps(End(d, id, Error(TransportIo)), stream);
      } else {
        UnlinkKeeps(d, stream);
      }
    }
  }

  function Unlinked(d: Doq, stream: nat): Doq
    requires stream in d.streams && d.streams[stream] in d.exchanges
  {
    Put(d, d.streams[stream], d.exchanges[d.streams[stream]].(stream := None)).(streams := d.streams - {stream})
  }

  lemma ClosedInSteps(d: Doq, stream: nat)
    requires Valid(d) && stream in d.streams && d.streams[stream] in d.live
    ensures var id := d.streams[stream];
      id in d.exchanges && id in d.log && Closed(d, stream) == Unlinked(End(d, id, Error(TransportIo)), stream)
  {
    assert d.streams[stream] !in Resolved(d);
  }

  lemma UnlinkedParts(queries: map<nat, Bytes>, live: set<nat>, pending: seq<nat>, streams: map<nat, nat>, streamed: map<nat, nat>,
                      sent: map<nat, Sent>, next: nat, stream: nat)
    requires Queued(queries, live, pending, streams, streamed, sent) && Linked(streams, streamed, next)
    requires stream in streams && streams[stream] !in live
    ensures Queued(queries, live, pending, streams - {stream}, streamed - {streams[stream]}, sent)
    ensures Linked(streams - {stream}, streamed - {streams[stream]}, next)
  {
  }

  lemma UnlinkKeeps(d: Doq, stream: nat)
    requires Valid(d) && stream in d.streams && d.streams[stream] in d.exchanges && d.streams[stream] !in d.live
    ensures Valid(Unlinked(d, stream))
  {
    var id := d.streams[stream];
    var e := d.exchanges[id].(stream := None);
    PutProjections(d, id, e);
    PutStreamed(d, id, e);
    SameStream(d, id);
    SameProjections(Put(d, id, e), Unlinked(d, stream));
    UnlinkedParts(Queries(d), d.live, d.pending, d.streams, Streamed(d), d.sent, d.nextStream, stream);
  }

  // ----- What a response comes to

  /**
   * When the stream of a live exchange ends, the exchange ends with the verdict on all
   * octets that came for it, in whatever fragments and between whatever other events;
   * until then it goes on, unless there are too many.
   */
  lemma EndJudgesAll(d: Doq, stream: nat, data: Bytes, fin: bool, failure: Option<ErrorCode>)
    requires Valid(d) && stream in d.streams && d.streams[stream] in d.live
    ensures var id := d.streams[stream];
      && id in d.arrived && id in d.exchanges
      && var t, all := Data(d, stream, data, fin, failure), d.arrived[id] + data;
         if fin || |all| > Limit() then
           id !in t.live && id in t.log && t.log[id] == [OutcomeOf(Judge(all), d.exchanges[id].queryId, failure)]
         else
           id in t.live && id in t.arrived && t.arrived[id] == all
  {
    var id := d.streams[stream];
    assert id in Responses(d) && id !in Resolved(d);
    assert d.arrived[id] + [] == d.arrived[id];
    if d.exchanges[id].response + data == d.exchanges[id].response {
      assert data == [];
    }
  }

  /** An exchange ends with an answer only if its octets are the answer's, framed, and the ID is the query's. */
  lemma AnswersWereFramed(all: Bytes, queryId: Word16, failure: Option<ErrorCode>, message: Bytes)
    requires OutcomeOf(Judge(all), queryId, failure) == Answer(message)
    ensures failure.None? && 2 <= |message| <= 0xffff && all == Frame(message)
    ensures message[0] == queryId / 256 && message[1] == queryId % 256
  {
    AcceptedIffFramed(all, Judge(all).bytes);
    assert [0, 0] + message[2..] == Judge(all).bytes;
  }

  /** Each query goes out on one stream, once, framed. */
  lemma SentOnce(d: Doq, s: nat, t: nat)
    requires Valid(d) && s in d.sent && t in d.sent
    ensures d.sent[s].id in d.exchanges && Framable(d.exchanges[d.sent[s].id].query)
    ensures d.sent[s].message == Frame(d.exchanges[d.sent[s].id].query)
    ensures d.sent[s].id == d.sent[t].id ==> s == t
  {
    assert d.sent[s].id in Queries(d);
  }
}

/** The session's side of DNS over QUIC itself. */
module DoqSessions {
  import opened Core
  import opened DoqFraming
  import opened Spec = DoqSessionSpec

  class DoqSession {
    var exchanges: map<nat, Exchange>
    var live: set<nat>
    var pending: seq<nat>
    var streams: map<nat, nat>
    var nextStream: nat
    var handshakeCompleted: bool
    var retired: bool
    /** What went out on each stream, what came in for each exchange, and what each was told. */
    ghost var sent: map<nat, Sent>
    ghost var arrived: map<nat, Bytes>
    ghost var log: map<nat, seq<Outcome>>

    ghost function Model(): Doq
      reads this
    {
      Doq(exchanges, live, pending, streams, nextStream, handshakeCompleted, retired, sent, arrived, log)
    }

    constructor ()
      ensures Model() == Initial() && Valid(Model())
    {
      exchanges, live, pending, streams, nextStream := map[], {}, [], map[], 0;
      handshakeCompleted, retired, sent, arrived, log := false, false, map[], map[], map[];
      new;
      InitialValid();
    }

    /** A new exchange waits for its stream. */
    method Enqueue(id: nat, query: Bytes, queryId: Word16)
      modifies this
      ensures Model() == Add(old(Model()), id, query, queryId)
    {
      exchanges := exchanges[id := Exchange(query, queryId, None, [], None)];
      live := live + {id};
      pending := pending + [id];
      arrived, log := arrived[id := []], log[id := []];
    }

    /** The handshake is over; only the protocol's own name is accepted. */
    method OnQuicReady(alpn: string, openings: seq<Opening>)
      requires live <= log.Keys
      modifies this
      ensures Model() == if alpn != "doq" then Spec.Fail(old(Model()), Authentication)
                         else Pump(old(Model()).(ready := true), openings)
    {
      if alpn != "doq" {
        FailSession(Authentication);
        return;
      }
      handshakeCompleted := true;
      PumpOpenPendingExchanges(openings);
    }

    /** A result is set and drained. */
    method SetAndDrain(id: nat, outcome: Outcome)
      requires id in exchanges && id in log
      modifies this
      ensures Model() == Resolve(old(Model()), id, outcome)
    {
      if exchanges[id].result.Some? {
        return;
      }
      if id in live {
        live := live - {id};
        log := log[id := log[id] + [outcome]];
        return;
      }
      exchanges := exchanges[id := exchanges[id].(result := Some(outcome))];
    }

    method FailSession(error: ErrorCode)
      requires live <= log.Keys
      modifies this
      ensures Model() == Spec.Fail(old(Model()), error)
    {
      if retired {
        return;
      }
      var ids := live;
      retired := true;
      live, streams, pending := {}, map[], [];
      CompleteEach(ids, error);
    }

    ghost method CompleteEach(ids: set<nat>, error: ErrorCode)
      requires ids <= log.Keys
      modifies `log
      ensures log == map id | id in old(log) :: if id in ids then old(log)[id] + [Error(error)] else old(log)[id]
    {
      var left := ids;
      while left != {}
        invariant left <= ids
        invariant log == map id | id in old(log) :: if id in ids - left then old(log)[id] + [Error(error)] else old(log)[id]
      {
        var id :| id in left;
        log := log[id := log[id] + [Error(error)]];
        left := left - {id};
      }
    }

    /** Queued exchanges get their streams until the engine is blocked; `openings` are its answers. */
    method PumpOpenPendingExchanges(openings: seq<Opening>)
      requires live <= log.Keys
      modifies this
      ensures Model() == if old(handshakeCompleted) then Pump(old(Model()), openings) else old(Model())
    {
      if !handshakeCompleted || retired {
        return;
      }
      var next := 0;
      while pending != [] && !retired
        invariant next <= |openings| && live <= log.Keys && handshakeCompleted
        invariant Pump(Model(), openings[next..]) == Pump(old(Model()), openings)
        decreases |pending|
      {
        var id := pending[0];
        if id !in live || id !in exchanges || exchanges[id].result.Some? || exchanges[id].stream.Some?
           || |exchanges[id].query| < 2 || |exchanges[id].query| > 0xffff {
          pending := pending[1..];
          continue;
        }
        if next == |openings| || openings[next].Blocked? {
          return;
        }
        if openings[next].Refused? {
          FailSession(openings[next].error);
          return;
        }
        assert openings[next..][1..] == openings[next + 1..];
        next := next + 1;
        pending := pending[1..];
        SendQuery(id);
      }
    }

    method SendQuery(id: nat)
      requires id in exchanges && Framable(exchanges[id].query)
      modifies `exchanges, `streams, `nextStream, `sent
      ensures Model() == Send(old(Model()), id)
    {
      var stream := nextStream;
      nextStream := nextStream + 1;
      exchanges := exchanges[id := exchanges[id].(stream := Some(stream))];
      streams := streams[stream := id];
      var wire := exchanges[id].query;
      var message: Bytes := [|wire| / 256, |wire| % 256] + wire;
      message := message[2 := 0];
      message := message[3 := 0];
      assert message == Frame(wire);
      sent := sent[stream := Sent(id, message)];
    }

    method OnStreamData(stream: nat, data: Bytes, fin: bool, failure: Option<ErrorCode>)
      requires Valid(Model())
      modifies this
      ensures Model() == Data(old(Model()), stream, data, fin, failure)
    {
      if stream !in streams {
        return;
      }
      var id := streams[stream];
      assert id in Streamed(Model());
      Gather(id, data, fin, failure);
    }

    method Gather(id: nat, data: Bytes, fin: bool, failure: Option<ErrorCode>)
      requires id in exchanges && id in log
      modifies this
      ensures Model() == Fragment(old(Model()), id, data, fin, failure)
    {
      var e := exchanges[id];
      if e.result.Some? {
        return;
      }
      if |e.response| + |data| > 0xffff + 2 {
        SetAndDrain(id, Error(ProtocolFraming));
        return;
      }
      if data != [] {
        Append(id, data);
      }
      assert data == [] ==> e.response + data == e.response;
      assert data != [] ==> |e.response + data| != |e.response|;
      if fin {
        Finish(id, failure);
      }
    }

    method Append(id: nat, data: Bytes)
      requires id in exchanges
      modifies `exchanges, `arrived
      ensures Model() == Grow(old(Model()), id, data)
    {
      exchanges := exchanges[id := exchanges[id].(response := exchanges[id].response + data)];
      arrived := if id in live && id in arrived then arrived[id := arrived[id] + data] else arrived;
    }

    /** The stream has ended. */
    method Finish(id: nat, failure: Option<ErrorCode>)
      requires id in exchanges && id in log && |exchanges[id].response| <= Limit()
      modifies this
      ensures Model() == Resolve(old(Model()), id, OutcomeOf(Judge(old(exchanges)[id].response), old(exchanges)[id].queryId, failure))
    {
      var queryId := exchanges[id].queryId;
      var message := Unframe(exchanges[id].response);
      if message.None? {
        SetAndDrain(id, Error(ProtocolFraming));
        return;
      }
      if failure.Some? {
        SetAndDrain(id, Error(failure.value));
        return;
      }
      var restored := message.value;
      restored := restored[0 := queryId / 256];
      restored := restored[1 := queryId % 256];
      assert restored == WithId(message.value, queryId);
      SetAndDrain(id, Answer(restored));
    }

    /** Length prefix and transaction ID decide whether there is a message. */
    static method Unframe(response: Bytes) returns (message: Option<Bytes>)
      requires |response| <= Limit()
      ensures Judge(response) == if message.Some? then Message(message.value) else Rejected
      ensures message.Some? ==> |message.value| >= 2
    {
      if |response| < 2 {
        return None;
      }
      var length := response[0] as int * 256 + response[1];
      if length == 0 || |response| != length + 2 {
        return None;
      }
      if |response[2..]| < 2 || response[2] != 0 || response[3] != 0 {
        return None;
      }
      return Some(response[2..]);
    }

    method OnStreamClosed(stream: nat)
      requires Valid(Model())
      modifies this
      ensures Model() == Closed(old(Model()), stream)
    {
      if stream !in streams {
        return;
      }
      var id := streams[stream];
      assert id in Streamed(Model());
      exchanges := exchanges[id := exchanges[id].(stream := None)];
      streams := streams - {stream};
      if exchanges[id].result.None? && id in live {
        SetAndDrain(id, Error(TransportIo));
      }
    }

    method OnStreamReset(stream: nat)
      requires Valid(Model())
      modifies this
      ensures Model() == Reset(old(Model()), stream)
    {
      if stream !in streams {
        return;
      }
      assert streams[stream] in Streamed(Model());
      SetAndDrain(streams[stream], Error(TransportIo));
    }

    method CancelExchange(id: nat, error: ErrorCode)
      requires Valid(Model())
      modifies this
      ensures Model() == Cancel(old(Model()), id, error)
    {
      if id !in live || exchanges[id].result.Some? {
        return;
      }
      SetAndDrain(id, Error(error));
    }
  }
}
