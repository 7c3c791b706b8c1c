/**
 * What each event of a run of the multiplexed TCP session makes of each request that
 * waits: its own response, one error for a reason of its own, or the error of the connection.
 */
module TcpSessionOutcomes {
  import opened Core
  import opened TcpSessionSpec
  import opened Runs = TcpSessionRuns

  /** What an event makes of the request under the ID `q`, if it ends it; a call of an older connection ends none. */
  function Verdict(generation: nat, e: Runs.Event, q: Word16): Option<Reply> {
    match e
    case Requests(_, _, _) => None
    case Cancels(id) => if id == q then Some(Lost(Cancelled)) else None
    case Stops => Some(Lost(Cancelled))
    case CallsBack(call) => CallVerdict(generation, call, q)
  }

  function CallVerdict(generation: nat, call: TcpSessionSpec.Event, q: Word16): Option<Reply> {
    match call
    case Opened(_) => None
    case OpenFailed(g, error) => if g == generation then Some(Lost(error)) else None
    case WriteDone(write, ok) => if write.generation == generation && !ok then Some(Lost(TransportIo)) else None
    case LengthDone(g, length) =>
      if g != generation then None
      else if length.None? then Some(Lost(TransportIo))
      else if length.value == 0 then Some(Lost(ProtocolFraming))
      else None
    case BodyDone(g, frame) =>
      if g != generation then None
      else if frame.None? then Some(Lost(TransportIo))
      else if frame.value.Short? then Some(Lost(ProtocolFraming))
      else if frame.value.id == q then Some(Received(frame.value))
      else None
    case DeadlineFired(id) => if id == q then Some(Lost(Timeout)) else None
  }

  /** A request that waited under `q` has its verdict, or still waits there. */
  ghost predicate Judged(s: Session, t: Session, q: Word16, verdict: Option<Reply>)
    requires q in s.pending
  {
    match verdict
    case Some(reply) => q !in t.pending && s.pending[q] in t.channels && t.channels[s.pending[q]] == reply
    case None => q in t.pending && t.pending[q] == s.pending[q] && s.pending[q] !in t.channels
  }

  lemma FlushKeepsRequests(s: Session, generation: nat)
    ensures FlushWrites(s, generation).pending == s.pending && FlushWrites(s, generation).channels == s.channels
  {
  }

  lemma LossJudges(s: Session, error: ErrorCode, q: Word16)
    requires !s.stopped && q in s.pending
    ensures Judged(s, FailAll(CloseConnection(s), error), q, Some(Lost(error)))
  {
    assert s.pending[q] in s.pending.Values;
  }

  lemma CallJudges(s: Session, call: TcpSessionSpec.Event, q: Word16)
    requires Valid(s) && TcpSessionSpec.Enabled(s, call) && q in s.pending
    ensures Judged(s, TcpSessionSpec.Step(s, call), q, CallVerdict(s.generation, call, q))
  {
    match call
    case Opened(generation) => ConnectedJudges(s, generation, q);
    case OpenFailed(generation, error) => LossJudges(s.(connects := s.connects - {generation}), error, q);
    case WriteDone(write, ok) => WrittenJudges(s, write, ok, q);
    case LengthDone(generation, length) => LengthJudges(s, generation, length, q);
    case BodyDone(generation, frame) => BodyJudges(s, generation, frame, q);
    case DeadlineFired(id) =>
  }

  lemma ConnectedJudges(s: Session, generation: nat, q: Word16)
    requires Waiting(s) && q in s.pending
    ensures Judged(s, Connected(s, generation), q, None)
  {
    var t := s.(connects := s.connects - {generation}, stream := Some(generation));
    FlushKeepsRequests(ReadFrame(t.(connecting := false, connected := true), generation), generation);
  }

  /** The request waits on a session that has not been stopped. */
  predicate IsWaiting(s: Session, q: Word16) {
    !s.stopped && q in s.pending && s.pending[q] !in s.channels
  }

  lemma WrittenJudges(s: Session, w: Write, ok: bool, q: Word16)
    requires IsWaiting(s, q)
    ensures Judged(s, Written(s, w, ok), q, CallVerdict(s.generation, WriteDone(w, ok), q))
  {
    var t := s.(writes := s.writes - {w});
    FlushKeepsRequests(t.(writing := false, queue := PopIf(t.queue, w.id)), w.generation);
    LossJudges(t.(writing := false), TransportIo, q);
  }

  lemma LengthJudges(s: Session, generation: nat, length: Option<Word16>, q: Word16)
    requires IsWaiting(s, q)
    ensures Judged(s, LengthRead(s, generation, length), q, CallVerdict(s.generation, LengthDone(generation, length), q))
  {
    var t := s.(pulls := s.pulls - {Read(generation, false)}, reading := false);
    if generation == s.generation && length.None? {
      LossJudges(t, TransportIo, q);
    } else if generation == s.generation && length.value == 0 {
      LossJudges(t, ProtocolFraming, q);
    }
  }

  lemma BodyJudges(s: Session, generation: nat, frame: Option<Frame>, q: Word16)
    requires IsWaiting(s, q) && forall p :: p in s.pending && s.pending[p] == s.pending[q] ==> p == q
    ensures Judged(s, BodyRead(s, generation, frame), q, CallVerdict(s.generation, BodyDone(generation, frame), q))
  {
    var t := s.(pulls := s.pulls - {Read(generation, true)});
    if generation == s.generation {
      if frame.None? {
        LossJudges(t, TransportIo, q);
      } else {
        DispatchJudges(t, frame.value, q);
      }
    }
  }

  lemma DispatchJudges(s: Session, frame: Frame, q: Word16)
    requires IsWaiting(s, q) && forall p :: p in s.pending && s.pending[p] == s.pending[q] ==> p == q
    ensures Judged(s, Dispatch(s, frame, s.generation), q,
                   if frame.Short? then Some(Lost(ProtocolFraming)) else if frame.id == q then Some(Received(frame)) else None)
  {
    if frame.Short? {
      LossJudges(s, ProtocolFraming, q);
    }
  }

  lemma RequestJudges(s: Session, id: Word16, length: nat, owner: nat, q: Word16)
    requires Waiting(s) && q in s.pending && owner !in s.pending.Values
    ensures Judged(s, Exchange(s, id, length, owner), q, None)
  {
    assert s.pending[q] in s.pending.Values;
    var t := ConnectIfNeeded(s.(pending := s.pending[id := owner], queue := s.queue + [id]));
    FlushKeepsRequests(t, t.generation);
  }

  /**
   * In every run, a request that waits is ended by a response under its own transaction ID,
   * and is told just that response; by its deadline, with a timeout; by its cancellation or
   * a stop; or with the running connection: by a failed connect with its error, by a failed
   * write or read, and by a frame that is empty or too short. Everything else, calls of
   * earlier connections included, leaves it waiting.
   */
  lemma ResponsesReachRequests(trace: seq<Session>, events: seq<Runs.Event>, n: nat, q: Word16)
    requires IsRun(trace, events) && n < |events| && q in trace[n].pending
    ensures Judged(trace[n], trace[n + 1], q, Verdict(trace[n].generation, events[n], q))
  {
    var s := trace[n];
    Runs.RunsAreValid(trace, events, n);
    assert Follows(trace, events, n);
    assert !s.stopped;
    match events[n]
    case Requests(id, length, owner) => RequestJudges(s, id, length, owner, q);
    case Cancels(id) =>
    case CallsBack(call) => CallJudges(s, call, q);
    case Stops => assert s.pending[q] in s.pending.Values;
  }

  /** A new request is refused once the session is stopped, for a length that no frame can have, and under an ID that another one waits under; any other waits, on a session that connects. */
  lemma RequestIsHeldOrRefused(trace: seq<Session>, events: seq<Runs.Event>, n: nat, id: Word16, length: nat, owner: nat)
    requires IsRun(trace, events) && n < |events| && events[n] == Requests(id, length, owner)
    ensures var s, t := trace[n], trace[n + 1];
      if s.stopped then t.pending == s.pending && t.channels == s.channels[owner := Lost(Cancelled)]
      else if length == 0 || length > 65535 || id in s.pending then
        t.pending == s.pending && t.channels == s.channels[owner := Lost(ProtocolFraming)]
      else t.pending == s.pending[id := owner] && t.channels == s.channels && (t.connecting || t.connected)
  {
    var s := trace[n];
    Runs.RunsAreValid(trace, events, n);
    assert Follows(trace, events, n);
    var t := ConnectIfNeeded(s.(pending := s.pending[id := owner], queue := s.queue + [id]));
    FlushKeepsRequests(t, t.generation);
  }
}
