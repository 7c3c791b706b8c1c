/** What each event of a run of the DNS-over-TLS session makes of each request that waits in it. */
module DotSessionOutcomes {
  import opened Core
  import opened TcpCalls = TcpSessionSpec
  import opened DotSessionSpec

  /** What an event makes of the request under the ID `q`, if it ends it. */
  function Verdict(e: DotSessionSpec.Event, q: Word16): Option<Reply> {
    match e
    case Asks(_, _, _) => None
    case Leaves(id, error) => if id == q then Some(Lost(error)) else None
    case DialEnds(_, failure) => if failure.Some? then Some(Lost(failure.value)) else None
    case HandshakeEnds(_, failure) => if failure.Some? then Some(Lost(failure.value)) else None
    case WriteEnds(_, ok) => if ok then None else Some(Lost(TransportIo))
    case LengthEnds(_, length) =>
      if length.None? then Some(Lost(TransportIo)) else if length.value == 0 then Some(Lost(ProtocolFraming)) else None
    case BodyEnds(_, frame) =>
      if frame.None? then Some(Lost(TransportIo))
      else if frame.value.Short? then Some(Lost(ProtocolFraming))
      else if frame.value.id == q then Some(Received(frame.value))
      else None
    case Stops => Some(Lost(Cancelled))
  }

  ghost predicate Judged(s: DotSession, t: DotSession, q: Word16, verdict: Option<Reply>)
    requires q in s.pending
  {
    var owner := s.pending[q];
    owner in t.told &&
    match verdict
    case Some(reply) => q !in t.pending && t.told[owner] == [reply]
    case None => q in t.pending && t.pending[q] == owner && t.told[owner] == []
  }

  /** The request waits, alone under its ID, and has been told nothing. */
  ghost predicate IsWaiting(s: DotSession, q: Word16) {
    && !s.stopped && !s.retired && q in s.pending && s.pending[q] in s.told && s.told[s.pending[q]] == []
    && forall p :: p in s.pending && s.pending[p] == s.pending[q] ==> p == q
  }

  lemma WaitsWhenPending(s: DotSession, q: Word16)
    requires DotSessionSpec.Valid(s) && q in s.pending
    ensures IsWaiting(s, q)
  {
    assert s.pending[q] in s.pending.Values;
  }

  /** On a session that has not retired, every call is one of its only connection. */
  lemma CallIsCurrent(s: DotSession, e: DotSessionSpec.Event)
    requires DotSessionSpec.Valid(s) && !s.retired && DotSessionSpec.Enabled(s, e)
    ensures e.DialEnds? || e.HandshakeEnds? || e.LengthEnds? || e.BodyEnds? ==> e.generation == s.generation
    ensures e.WriteEnds? ==> e.write.generation == s.generation
    ensures e.LengthEnds? || e.BodyEnds? ==> s.connected
  {
  }

  lemma LossJudges(s: DotSession, error: ErrorCode, q: Word16)
    requires IsWaiting(s, q)
    ensures Judged(s, DotSessionSpec.Lose(s, error, s.generation), q, Some(Lost(error)))
  {
    assert s.pending[q] in s.pending.Values;
  }

  lemma StopJudges(s: DotSession, q: Word16)
    requires IsWaiting(s, q)
    ensures Judged(s, Halt(s), q, Some(Lost(Cancelled)))
  {
    assert s.pending[q] in s.pending.Values;
  }

  lemma WritingTellsNobody(s: DotSession, generation: nat)
    ensures WriteOn(s, generation).pending == s.pending && WriteOn(s, generation).told == s.told
    ensures EnsureWriting(s, generation).pending == s.pending && EnsureWriting(s, generation).told == s.told
  {
  }

  lemma AskJudges(s: DotSession, id: Word16, size: nat, owner: nat, q: Word16)
    requires IsWaiting(s, q) && owner !in s.told
    ensures Judged(s, Ask(s, id, size, owner), q, None)
  {
    var t := Connect(s.(pending := s.pending[id := owner], queue := s.queue + [id], told := s.told[owner := []]));
    WritingTellsNobody(t, t.generation);
  }

  lemma LinkJudges(s: DotSession, failure: Option<ErrorCode>, q: Word16)
    requires IsWaiting(s, q)
    ensures Judged(s, Dialed(s, s.generation, failure), q, if failure.Some? then Some(Lost(failure.value)) else None)
    ensures Judged(s, Secured(s, s.generation, failure), q, if failure.Some? then Some(Lost(failure.value)) else None)
  {
    var t, u := s.(dials := s.dials - {s.generation}), s.(handshakes := s.handshakes - {s.generation});
    if failure.Some? {
      LossJudges(t, failure.value, q);
      LossJudges(u, failure.value, q);
    } else {
      WritingTellsNobody(ReadOn(u.(connecting := false, connected := true), s.generation), s.generation);
    }
  }

  lemma WriteJudges(s: DotSession, w: Write, ok: bool, q: Word16)
    requires IsWaiting(s, q) && w.generation == s.generation
    ensures Judged(s, FrameWritten(s, w, ok), q, if ok then None else Some(Lost(TransportIo)))
  {
    var t := s.(writes := s.writes - {w});
    if ok {
      WritingTellsNobody(t.(queue := PopIf(t.queue, w.id)), w.generation);
    } else {
      LossJudges(t.(writing := false), TransportIo, q);
    }
  }

  lemma LengthJudges(s: DotSession, length: Option<Word16>, q: Word16)
    requires IsWaiting(s, q) && s.connected
    ensures Judged(s, LengthArrived(s, s.generation, length), q, Verdict(LengthEnds(s.generation, length), q))
  {
    var t := s.(pulls := s.pulls - {Read(s.generation, false)});
    if length.None? {
      LossJudges(t, TransportIo, q);
    } else if length.value == 0 {
      LossJudges(t, ProtocolFraming, q);
    }
  }

  lemma BodyJudges(s: DotSession, frame: Option<Frame>, q: Word16)
    requires IsWaiting(s, q)
    ensures Judged(s, BodyArrived(s, s.generation, frame), q, Verdict(BodyEnds(s.generation, frame), q))
  {
    var t := s.(pulls := s.pulls - {Read(s.generation, true)});
    if frame.None? {
      LossJudges(t, TransportIo, q);
    } else if frame.value.Short? {
      LossJudges(t, ProtocolFraming, q);
    }
  }

  /**
   * In every run, a request that waits is ended by a response under its own transaction
   * ID, and is told just that response; by what makes it leave, with that error; by a
   * stop; or with the connection: by a dial or a handshake that fails, with its error, by
   * a failed write or read, and by a frame that is empty or too short. Everything else
   * leaves it waiting.
   */
  lemma ResponsesReachRequests(trace: seq<DotSession>, events: seq<DotSessionSpec.Event>, n: nat, q: Word16)
    requires IsRun(trace, events) && n < |events| && q in trace[n].pending
    ensures Judged(trace[n], trace[n + 1], q, Verdict(events[n], q))
  {
    var s, e := trace[n], events[n];
    RunsAreValid(trace, events, n);
    assert Follows(trace, events, n);
    WaitsWhenPending(s, q);
    CallIsCurrent(s, e);
    match e
    case Asks(id, size, owner) => AskJudges(s, id, size, owner, q);
    case Leaves(id, error) =>
    case DialEnds(generation, failure) => LinkJudges(s, failure, q);
    case HandshakeEnds(generation, failure) => LinkJudges(s, failure, q);
    case WriteEnds(write, ok) => WriteJudges(s, write, ok, q);
    case LengthEnds(generation, length) => LengthJudges(s, length, q);
    case BodyEnds(generation, frame) => BodyJudges(s, frame, q);
    case Stops => StopJudges(s, q);
  }

  /** A new request is refused by a session that has retired, for a length that no frame can have, and under an ID that another one waits under; any other waits, on a session that connects. */
  lemma RequestIsHeldOrRefused(trace: seq<DotSession>, events: seq<DotSessionSpec.Event>, n: nat, id: Word16, size: nat, owner: nat)
    requires IsRun(trace, events) && n < |events| && events[n] == Asks(id, size, owner)
    ensures var s, t := trace[n], trace[n + 1];
      && owner in t.told
      && if s.retired then t.pending == s.pending && t.told[owner] == [Lost(Cancelled)]
         else if size == 0 || size > 65535 || id in s.pending then t.pending == s.pending && t.told[owner] == [Lost(ProtocolFraming)]
         else t.pending == s.pending[id := owner] && t.told[owner] == [] && !t.retired && (t.connecting || t.connected)
  {
    var s := trace[n];
    RunsAreValid(trace, events, n);
    assert Follows(trace, events, n);
    var t := Connect(s.(pending := s.pending[id := owner], queue := s.queue + [id], told := s.told[owner := []]));
    WritingTellsNobody(t, t.generation);
  }
}
