/**
 * The multiplexed TCP session of the plain DNS transport
 * (`AsioDnsTransport::TcpSession`, src/dns/dns_transport.cpp): requests are keyed by
 * transaction ID, frames leave through one write queue, and every asynchronous
 * call carries the generation of the connection it was made on. The calls that
 * have been started and have not called back yet are part of the state.
 */
module TcpSessionSpec {
  import opened Core

  /** A response frame: too short to hold a transaction ID, or its ID and its body. */
  datatype Frame = Short | Frame(id: Word16, body: seq<Octet>)

  datatype Reply = Received(frame: Frame) | Lost(error: ErrorCode)

  /** A read of a length prefix, or of the body that follows it. */
  datatype Read = Read(generation: nat, body: bool)

  datatype Write = Write(generation: nat, id: Word16)

  datatype Session = Session(
    pending: map<Word16, nat>, queue: seq<Word16>, generation: nat,
    connecting: bool, connected: bool, writing: bool, reading: bool, stopped: bool, stream: Option<nat>,
    connects: set<nat>, writes: set<Write>, pulls: set<Read>,
    channels: map<nat, Reply>, frames: seq<nat>)

  // ----- The session as a function of its state. `channels` holds the one-shot
  // ----- channel of every operation whose handler has been called; `frames` records
  // ----- whose frames have been handed to a stream, one after the other.

  function Initial(): Session {
    Session(map[], [], 0, false, false, false, false, false, None, {}, {}, {}, map[], [])
  }

  function CloseConnection(s: Session): Session {
    s.(generation := s.generation + 1, connecting := false, connected := false, writing := false,
       reading := false, stream := None)
  }

  function Lose(channels: map<nat, Reply>, owners: set<nat>, error: ErrorCode): map<nat, Reply> {
    channels + map o | o in owners :: Lost(error)
  }

  function FailAll(s: Session, error: ErrorCode): Session {
    s.(pending := map[], queue := [], channels := Lose(s.channels, s.pending.Values, error))
  }

  function ConnectionFailed(s: Session, error: ErrorCode, generation: nat): Session {
    if generation != s.generation || s.stopped then s else FailAll(CloseConnection(s), error)
  }

  function ConnectIfNeeded(s: Session): Session {
    if s.stopped || s.connected || s.connecting || s.pending == map[] then s
    else s.(connecting := true, connects := s.connects + {s.generation})
  }

  /** The write queue without the leading requests that nobody waits for any more. */
  function DropDead(queue: seq<Word16>, pending: map<Word16, nat>): (r: seq<Word16>)
    ensures r != [] ==> r[0] in pending
    ensures forall q :: q in r ==> q in queue
  {
    if queue != [] && queue[0] !in pending then DropDead(queue[1..], pending) else queue
  }

  function FlushWrites(s: Session, generation: nat): Session {
    if s.stopped || generation != s.generation || !s.connected || s.writing then s
    else
      var queue := DropDead(s.queue, s.pending);
      if queue == [] then s.(queue := queue)
      else s.(queue := queue, writing := true, writes := s.writes + {Write(generation, queue[0])},
              frames := s.frames + [s.pending[queue[0]]])
  }

  function ReadFrame(s: Session, generation: nat): Session {
    if s.stopped || generation != s.generation || !s.connected || s.reading then s
    else s.(reading := true, pulls := s.pulls + {Read(generation, false)})
  }

  /** The dialer opened a stream: the handle is stored first, the generation is checked afterwards. */
  function Connected(s: Session, generation: nat): Session {
    var t := s.(connects := s.connects - {generation}, stream := Some(generation));
    if generation != t.generation || t.stopped then t
    else FlushWrites(ReadFrame(t.(connecting := false, connected := true), generation), generation)
  }

  function ConnectFailed(s: Session, generation: nat, error: ErrorCode): Session {
    ConnectionFailed(s.(connects := s.connects - {generation}), error, generation)
  }

  function PopIf(queue: seq<Word16>, id: Word16): seq<Word16> {
    if queue != [] && queue[0] == id then queue[1..] else queue
  }

  function Written(s: Session, w: Write, ok: bool): Session {
    var t := s.(writes := s.writes - {w});
    if w.generation != t.generation || t.stopped then t
    else if !ok then ConnectionFailed(t.(writing := false), TransportIo, w.generation)
    else FlushWrites(t.(writing := false, queue := PopIf(t.queue, w.id)), w.generation)
  }

  /** `length` is the decoded length prefix, absent when the read failed. */
  function LengthRead(s: Session, generation: nat, length: Option<Word16>): Session {
    var t := s.(pulls := s.pulls - {Read(generation, false)});
    if generation != t.generation || t.stopped then t
    else
      var u := t.(reading := false);
      if length.None? then ConnectionFailed(u, TransportIo, generation)
      else if length.value == 0 then ConnectionFailed(u, ProtocolFraming, generation)
      else u.(pulls := u.pulls + {Read(generation, true)})
  }

  function BodyRead(s: Session, generation: nat, frame: Option<Frame>): Session {
    var t := s.(pulls := s.pulls - {Read(generation, true)});
    if generation != t.generation || t.stopped then t
    else if frame.None? then ConnectionFailed(t, TransportIo, generation)
    else Dispatch(t, frame.value, generation)
  }

  function Dispatch(s: Session, frame: Frame, generation: nat): Session {
    if frame.Short? then ConnectionFailed(s, ProtocolFraming, generation)
    else if frame.id in s.pending then
      ReadFrame(s.(pending := s.pending - {frame.id}, channels := s.channels[s.pending[frame.id] := Received(frame)]), generation)
    else ReadFrame(s, generation)
  }

  function Without(queue: seq<Word16>, id: Word16): (r: seq<Word16>)
    ensures forall q :: q in r <==> q in queue && q != id
  {
    if queue == [] then []
    else (if queue[0] == id then [] else [queue[0]]) + Without(queue[1..], id)
  }

  function FailRequest(s: Session, id: Word16, error: ErrorCode): Session {
    if id !in s.pending then s
    else s.(pending := s.pending - {id}, queue := Without(s.queue, id), channels := s.channels[s.pending[id] := Lost(error)])
  }

  /** `length` is the size of the encoded query and `owner` the operation behind the handler. */
  function Exchange(s: Session, id: Word16, length: nat, owner: nat): Session {
    if s.stopped then s.(channels := s.channels[owner := Lost(Cancelled)])
    else if length == 0 || length > 0xffff then s.(channels := s.channels[owner := Lost(ProtocolFraming)])
    else if id in s.pending then s.(channels := s.channels[owner := Lost(ProtocolFraming)])
    else
      var t := ConnectIfNeeded(s.(pending := s.pending[id := owner], queue := s.queue + [id]));
      FlushWrites(t, t.generation)
  }

  function Stop(s: Session): Session {
    if s.stopped then s else FailAll(CloseConnection(s.(stopped := true)), Cancelled)
  }

  // ----- What every step keeps

  /** Nobody is left waiting on a session on which nothing is under way. */
  ghost predicate Awake(s: Session) {
    && (s.pending != map[] && !s.stopped ==> s.connecting || s.connected)
    && (s.connected && !s.writing ==> s.queue == [])
    && (s.connecting ==> s.generation in s.connects)
    && (s.connected ==> Read(s.generation, false) in s.pulls || Read(s.generation, true) in s.pulls)
    && (s.writing ==> exists id :: Write(s.generation, id) in s.writes)
  }

  /** The flags exclude each other as they should. */
  ghost predicate Phases(s: Session) {
    && !(s.connecting && s.connected)
    && (!s.connected ==> !s.writing && !s.reading)
    && (s.stopped ==> s.pending == map[] && s.queue == [] && !s.connecting && !s.connected)
    && (s.connected ==> s.stream == Some(s.generation))
  }

  /** The calls under way: at most one of each kind on the running connection, older ones only after a stop. */
  ghost predicate Calls(s: Session) {
    && (forall g :: g in s.connects ==> if s.stopped then g < s.generation else g == s.generation && s.connecting)
    && (forall w :: w in s.writes ==> w.generation <= s.generation && (w.generation == s.generation ==> s.writing))
    && (forall v, w :: v in s.writes && w in s.writes && v.generation == w.generation ==> v == w)
    && (forall r :: r in s.pulls ==> r.generation <= s.generation)
    && (forall r :: r in s.pulls && r.generation == s.generation ==> s.connected && r.body == !s.reading)
  }

  /** Each handler waits under one ID and has not been called. */
  ghost predicate Waiting(s: Session) {
    && (forall p, q :: p in s.pending && q in s.pending && s.pending[p] == s.pending[q] ==> p == q)
    && (forall q :: q in s.pending ==> s.pending[q] !in s.channels)
  }

  ghost predicate Valid(s: Session) {
    Awake(s) && Phases(s) && Calls(s) && Waiting(s)
  }

  lemma CloseAndFail(s: Session, error: ErrorCode)
    requires Phases(s) && Calls(s) && Waiting(s) && !s.stopped && s.connects == {}
    ensures Valid(FailAll(CloseConnection(s), error))
  {
  }

  lemma FlushKeeps(s: Session)
    requires Phases(s) && Calls(s) && Waiting(s) && !s.stopped
    requires s.pending != map[] ==> s.connecting || s.connected
    requires s.connecting ==> s.generation in s.connects
    requires s.connected ==> Read(s.generation, false) in s.pulls || Read(s.generation, true) in s.pulls
    requires s.writing ==> exists id :: Write(s.generation, id) in s.writes
    ensures Valid(FlushWrites(s, s.generation))
  {
    var t := FlushWrites(s, s.generation);
    if t.writing && !s.writing {
      assert Write(t.generation, t.queue[0]) in t.writes;
    }
  }

  lemma ConnectedKeeps(s: Session, generation: nat)
    requires Valid(s) && generation in s.connects
    ensures Valid(Connected(s, generation))
  {
    var t := s.(connects := s.connects - {generation}, stream := Some(generation));
    if generation == t.generation && !t.stopped {
      FlushKeeps(ReadFrame(t.(connecting := false, connected := true), generation));
    }
  }

  lemma ConnectFailedKeeps(s: Session, generation: nat, error: ErrorCode)
    requires Valid(s) && generation in s.connects
    ensures Valid(ConnectFailed(s, generation, error))
  {
  }

  lemma WrittenKeeps(s: Session, w: Write, ok: bool)
    requires Valid(s) && w in s.writes
    ensures Valid(Written(s, w, ok))
  {
    var t := s.(writes := s.writes - {w});
    if w.generation == t.generation && !t.stopped {
      if ok {
        FlushKeeps(t.(writing := false, queue := PopIf(t.queue, w.id)));
      } else {
        CloseAndFail(t.(writing := false), TransportIo);
      }
    }
  }

  lemma LengthReadKeeps(s: Session, generation: nat, length: Option<Word16>)
    requires Valid(s) && Read(generation, false) in s.pulls
    ensures Valid(LengthRead(s, generation, length))
  {
    var t := s.(pulls := s.pulls - {Read(generation, false)});
    if generation == t.generation && !t.stopped {
      if length.None? {
        CloseAndFail(t.(reading := false), TransportIo);
      } else if length.value == 0 {
        CloseAndFail(t.(reading := false), ProtocolFraming);
      }
    }
  }

  lemma DispatchKeeps(s: Session, frame: Frame)
    requires Phases(s) && Calls(s) && Waiting(s) && s.connected && !s.reading
    requires !s.writing ==> s.queue == []
    requires s.writing ==> exists id :: Write(s.generation, id) in s.writes
    requires forall r :: r in s.pulls ==> r.generation != s.generation
    ensures Valid(Dispatch(s, frame, s.generation))
  {
    if frame.Short? {
      CloseAndFail(s, ProtocolFraming);
    }
  }

  lemma BodyReadKeeps(s: Session, generation: nat, frame: Option<Frame>)
    requires Valid(s) && Read(generation, true) in s.pulls
    ensures Valid(BodyRead(s, generation, frame))
  {
    var t := s.(pulls := s.pulls - {Read(generation, true)});
    if generation == t.generation && !t.stopped {
      if frame.None? {
        CloseAndFail(t, TransportIo);
      } else {
        DispatchKeeps(t, frame.value);
      }
    }
  }

  lemma FailRequestKeeps(s: Session, id: Word16, error: ErrorCode)
    requires Valid(s)
    ensures Valid(FailRequest(s, id, error))
  {
    if id in s.pending && s.queue == [] {
      assert Without(s.queue, id) == [];
    }
  }

  lemma ExchangeKeeps(s: Session, id: Word16, length: nat, owner: nat)
    requires Valid(s) && owner !in s.channels && owner !in s.pending.Values
    ensures Valid(Exchange(s, id, length, owner))
  {
    if !s.stopped && 0 < length <= 0xffff && id !in s.pending {
      FlushKeeps(ConnectIfNeeded(s.(pending := s.pending[id := owner], queue := s.queue + [id])));
    }
  }

  lemma ExchangeEffect(s: Session, id: Word16, length: nat, owner: nat)
    requires id !in s.pending
    ensures var t := Exchange(s, id, length, owner);
      && t.stopped == s.stopped
      && if s.stopped || length == 0 || length > 0xffff
         then t.pending == s.pending && t.channels.Keys == s.channels.Keys + {owner}
         else t.pending == s.pending[id := owner] && t.channels == s.channels
  {
  }

  lemma StopKeeps(s: Session)
    requires Valid(s)
    ensures Valid(Stop(s))
  {
    if !s.stopped {
      var t := FailAll(CloseConnection(s.(stopped := true)), Cancelled);
    }
  }

  // ----- Call-backs as events

  datatype Event =
    | Opened(generation: nat)
    | OpenFailed(generation: nat, error: ErrorCode)
    | WriteDone(write: Write, ok: bool)
    | LengthDone(generation: nat, length: Option<Word16>)
    | BodyDone(generation: nat, frame: Option<Frame>)
    | DeadlineFired(id: Word16)

  /** A call-back happens only for a call that is under way; a request's deadline may fire at any time. */
  predicate Enabled(s: Session, e: Event) {
    match e
    case Opened(generation) => generation in s.connects
    case OpenFailed(generation, _) => generation in s.connects
    case WriteDone(write, _) => write in s.writes
    case LengthDone(generation, _) => Read(generation, false) in s.pulls
    case BodyDone(generation, _) => Read(generation, true) in s.pulls
    case DeadlineFired(_) => true
  }

  function Step(s: Session, e: Event): Session {
    match e
    case Opened(generation) => Connected(s, generation)
    case OpenFailed(generation, error) => ConnectFailed(s, generation, error)
    case WriteDone(write, ok) => Written(s, write, ok)
    case LengthDone(generation, length) => LengthRead(s, generation, length)
    case BodyDone(generation, frame) => BodyRead(s, generation, frame)
    case DeadlineFired(id) => FailRequest(s, id, Timeout)
  }

  /** Requests leave the session only by a call of their handler, and nobody else's handler is called. */
  ghost predicate Handed(pending: map<Word16, nat>, channels: map<nat, Reply>, left: map<Word16, nat>, filled: map<nat, Reply>) {
    && (forall q :: q in left ==> q in pending && left[q] == pending[q])
    && (forall o :: o in channels ==> o in filled && filled[o] == channels[o])
    && (forall q :: q in pending && q !in left ==> pending[q] in filled)
    && (forall o :: o in filled && o !in channels ==> exists q :: q in pending && q !in left && pending[q] == o)
  }

  ghost predicate Progress(s: Session, t: Session) {
    t.stopped == s.stopped && Handed(s.pending, s.channels, t.pending, t.channels)
  }

  lemma FailRequestProgress(s: Session, id: Word16, error: ErrorCode)
    requires Waiting(s)
    ensures Progress(s, FailRequest(s, id, error))
  {
    var t := FailRequest(s, id, error);
    if id in s.pending {
      assert id !in t.pending;
    }
  }

  lemma FailAllProgress(s: Session, error: ErrorCode, generation: nat)
    requires Waiting(s)
    ensures Progress(s, ConnectionFailed(s, error, generation))
  {
    var t := ConnectionFailed(s, error, generation);
    forall o | o in t.channels && o !in s.channels ensures exists q :: q in s.pending && q !in t.pending && s.pending[q] == o {
      assert o in s.pending.Values;
    }
  }

  lemma DispatchProgress(s: Session, frame: Frame, generation: nat)
    requires Waiting(s)
    ensures Progress(s, Dispatch(s, frame, generation))
  {
    if frame.Short? {
      FailAllProgress(s, ProtocolFraming, generation);
    } else if frame.id in s.pending {
      assert frame.id !in Dispatch(s, frame, generation).pending;
    }
  }

  lemma StepKeeps(s: Session, e: Event)
    requires Valid(s) && Enabled(s, e)
    ensures Valid(Step(s, e))
  {
    match e
    case Opened(generation) => ConnectedKeeps(s, generation);
    case OpenFailed(generation, error) => ConnectFailedKeeps(s, generation, error);
    case WriteDone(write, ok) => WrittenKeeps(s, write, ok);
    case LengthDone(generation, length) => LengthReadKeeps(s, generation, length);
    case BodyDone(generation, frame) => BodyReadKeeps(s, generation, frame);
    case DeadlineFired(id) => FailRequestKeeps(s, id, Timeout);
  }

  lemma StepProgress(s: Session, e: Event)
    requires Waiting(s)
    ensures Progress(s, Step(s, e))
  {
    match e
    case Opened(generation) =>
    case OpenFailed(generation, error) => FailAllProgress(s.(connects := s.connects - {generation}), error, generation);
    case WriteDone(write, ok) => WrittenProgress(s, write, ok);
    case LengthDone(generation, length) => LengthProgress(s, generation, length);
    case BodyDone(generation, frame) => BodyProgress(s, generation, frame);
    case DeadlineFired(id) => FailRequestProgress(s, id, Timeout);
  }

  lemma WrittenProgress(s: Session, w: Write, ok: bool)
    requires Waiting(s)
    ensures Progress(s, Written(s, w, ok))
  {
    var t := s.(writes := s.writes - {w});
    if w.generation == t.generation && !t.stopped && !ok {
      FailAllProgress(t.(writing := false), TransportIo, w.generation);
    }
  }

  lemma LengthProgress(s: Session, generation: nat, length: Option<Word16>)
    requires Waiting(s)
    ensures Progress(s, LengthRead(s, generation, length))
  {
    var t := s.(pulls := s.pulls - {Read(generation, false)});
    var u := t.(reading := false);
    if generation != t.generation || t.stopped {
    } else if length.None? {
      FailAllProgress(u, TransportIo, generation);
    } else if length.value == 0 {
      FailAllProgress(u, ProtocolFraming, generation);
    }
  }

  lemma BodyProgress(s: Session, generation: nat, frame: Option<Frame>)
    requires Waiting(s)
    ensures Progress(s, BodyRead(s, generation, frame))
  {
    var t := s.(pulls := s.pulls - {Read(generation, true)});
    if frame.None? {
      FailAllProgress(t, TransportIo, generation);
    } else {
      DispatchProgress(t, frame.value, generation);
    }
  }

  lemma LoseNext(channels: map<nat, Reply>, owners: set<nat>, rest: set<nat>, owner: nat, error: ErrorCode)
    requires rest <= owners && owner in rest
    ensures Lose(channels, owners - (rest - {owner}), error) == Lose(channels, owners - rest, error)[owner := Lost(error)]
  {
  }

  /** A waiting request always has a call under way that will serve or fail it. */
  lemma NoLostWakeup(s: Session)
    requires Valid(s) && s.pending != map[]
    ensures s.generation in s.connects || (exists r :: r in s.pulls && r.generation == s.generation)
    ensures s.connected && s.queue != [] ==> exists id :: Write(s.generation, id) in s.writes
  {
    if s.connected {
      var r :| r in s.pulls && r.generation == s.generation;
    }
  }

  /** A call of an older connection changes nothing but the record of calls, and after a stop the stream handle. */
  lemma StaleCallsChangeNothing(s: Session, generation: nat, w: Write, ok: bool, length: Option<Word16>,
                                frame: Option<Frame>, error: ErrorCode)
    requires Valid(s) && generation != s.generation && w.generation != s.generation
    ensures ConnectFailed(s, generation, error) == s.(connects := s.connects - {generation})
    ensures Written(s, w, ok) == s.(writes := s.writes - {w})
    ensures LengthRead(s, generation, length) == s.(pulls := s.pulls - {Read(generation, false)})
    ensures BodyRead(s, generation, frame) == s.(pulls := s.pulls - {Read(generation, true)})
    ensures generation in s.connects ==> s.stopped
    ensures Connected(s, generation) == s.(connects := s.connects - {generation}, stream := Some(generation))
  {
  }

}

/** The session as the object that the transport shares between its operations. */
module TcpSessions {
  import opened Core
  import opened Spec = TcpSessionSpec

  class TcpSession {
    var pending: map<Word16, nat>
    var writeQueue: seq<Word16>
    var generation: nat
    var connecting: bool
    var connected: bool
    var writing: bool
    var reading: bool
    var stopped: bool
    var stream: Option<nat>
    var connects: set<nat>
    var writes: set<Write>
    var pulls: set<Read>
    var channels: map<nat, Reply>
    ghost var frames: seq<nat>

    ghost function Model(): Session
      reads this
    {
      Session(pending, writeQueue, generation, connecting, connected, writing, reading, stopped, stream,
              connects, writes, pulls, channels, frames)
    }

    constructor ()
      ensures Model() == Initial() && Valid(Model())
    {
      pending, writeQueue, generation, channels, frames := map[], [], 0, map[], [];
      connecting, connected, writing, reading, stopped := false, false, false, false, false;
      stream, connects, writes, pulls := None, {}, {}, {};
    }

    /** Calls the handler of `owner`: its one-shot channel takes the reply. */
    method Send(owner: nat, reply: Reply)
      modifies `channels
      ensures Model() == old(Model()).(channels := old(channels)[owner := reply])
    {
      channels := channels[owner := reply];
    }

    method Exchange(id: Word16, length: nat, owner: nat)
      requires Valid(Model()) && owner !in channels && owner !in pending.Values
      modifies this
      ensures Valid(Model()) && Model() == Spec.Exchange(old(Model()), id, length, owner)
    {
      ExchangeKeeps(Model(), id, length, owner);
      if stopped {
        Send(owner, Lost(Cancelled));
        return;
      }
      if length == 0 || length > 0xffff {
        Send(owner, Lost(ProtocolFraming));
        return;
      }
      if id in pending {
        Send(owner, Lost(ProtocolFraming));
        return;
      }
      pending := pending[id := owner];
      writeQueue := writeQueue + [id];
      ConnectIfNeeded();
      FlushWrites(generation);
    }

    method Cancel(id: Word16)
      requires Valid(Model())
      modifies this
      ensures Valid(Model()) && Model() == FailRequest(old(Model()), id, Cancelled)
    {
      FailRequestKeeps(Model(), id, Cancelled);
      Fail(id, Cancelled);
    }

    method DeadlineFired(id: Word16)
      requires Valid(Model())
      modifies this
      ensures Valid(Model()) && Model() == FailRequest(old(Model()), id, Timeout)
    {
      FailRequestKeeps(Model(), id, Timeout);
      Fail(id, Timeout);
    }

    method StopSession()
      requires Valid(Model())
      modifies this
      ensures Valid(Model()) && Model() == Stop(old(Model()))
    {
      StopKeeps(Model());
      if stopped {
        return;
      }
      stopped := true;
      Close();
      FailEverything(Cancelled);
    }

    method ConnectIfNeeded()
      modifies `connecting, `connects
      ensures Model() == Spec.ConnectIfNeeded(old(Model()))
    {
      if stopped || connected || connecting || pending == map[] {
        return;
      }
      connecting := true;
      connects := connects + {generation};
    }

    method OnOpened(generation: nat)
      requires Valid(Model()) && generation in connects
      modifies this
      ensures Valid(Model()) && Model() == Connected(old(Model()), generation)
    {
      ConnectedKeeps(Model(), generation);
      connects := connects - {generation};
      stream := Some(generation);
      OnConnected(generation);
    }

    method OnConnected(generation: nat)
      modifies `connecting, `connected, `reading, `writing, `pulls, `writes, `writeQueue, `frames
      ensures Model() == (var s := old(Model());
        if generation != s.generation || s.stopped then s
        else Spec.FlushWrites(Spec.ReadFrame(s.(connecting := false, connected := true), generation), generation))
    {
      if generation != this.generation || stopped {
        return;
      }
      connecting := false;
      connected := true;
      ReadFrame(generation);
      FlushWrites(generation);
    }

    method OnOpenFailed(generation: nat, error: ErrorCode)
      requires Valid(Model()) && generation in connects
      modifies this
      ensures Valid(Model()) && Model() == ConnectFailed(old(Model()), generation, error)
    {
      ConnectFailedKeeps(Model(), generation, error);
      connects := connects - {generation};
      ConnectionLost(error, generation);
    }

    method FlushWrites(generation: nat)
      modifies `writeQueue, `writing, `writes, `frames
      ensures Model() == Spec.FlushWrites(old(Model()), generation)
    {
      if stopped || generation != this.generation || !connected || writing {
        return;
      }
      while writeQueue != [] && writeQueue[0] !in pending
        invariant Model() == old(Model()).(queue := writeQueue)
        invariant DropDead(writeQueue, pending) == DropDead(old(writeQueue), pending)
        decreases |writeQueue|
      {
        writeQueue := writeQueue[1..];
      }
      if writeQueue == [] {
        return;
      }
      writing := true;
      writes := writes + {Write(generation, writeQueue[0])};
      frames := frames + [pending[writeQueue[0]]];
    }

    method OnWritten(w: Write, ok: bool)
      requires Valid(Model()) && w in writes
      modifies this
      ensures Valid(Model()) && Model() == Written(old(Model()), w, ok)
    {
      WrittenKeeps(Model(), w, ok);
      writes := writes - {w};
      if w.generation != generation || stopped {
        return;
      }
      writing := false;
      if !ok {
        ConnectionLost(TransportIo, w.generation);
        return;
      }
      if writeQueue != [] && writeQueue[0] == w.id {
        writeQueue := writeQueue[1..];
      }
      FlushWrites(w.generation);
    }

    method ReadFrame(generation: nat)
      modifies `reading, `pulls
      ensures Model() == Spec.ReadFrame(old(Model()), generation)
    {
      if stopped || generation != this.generation || !connected || reading {
        return;
      }
      reading := true;
      pulls := pulls + {Read(generation, false)};
    }

    method OnLength(generation: nat, length: Option<Word16>)
      requires Valid(Model()) && Read(generation, false) in pulls
      modifies this
      ensures Valid(Model()) && Model() == LengthRead(old(Model()), generation, length)
    {
      LengthReadKeeps(Model(), generation, length);
      pulls := pulls - {Read(generation, false)};
      if generation != this.generation || stopped {
        return;
      }
      reading := false;
      if length.None? {
        ConnectionLost(TransportIo, generation);
        return;
      }
      if length.value == 0 {
        ConnectionLost(ProtocolFraming, generation);
        return;
      }
      pulls := pulls + {Read(generation, true)};
    }

    method OnBody(generation: nat, frame: Option<Frame>)
      requires Valid(Model()) && Read(generation, true) in pulls
      modifies this
      ensures Valid(Model()) && Model() == BodyRead(old(Model()), generation, frame)
    {
      BodyReadKeeps(Model(), generation, frame);
      pulls := pulls - {Read(generation, true)};
      if generation != this.generation || stopped {
        return;
      }
      if frame.None? {
        ConnectionLost(TransportIo, generation);
        return;
      }
      DispatchResponse(frame.value, generation);
    }

    method DispatchResponse(frame: Frame, generation: nat)
      modifies this
      ensures Model() == Dispatch(old(Model()), frame, generation)
    {
      if frame.Short? {
        ConnectionLost(ProtocolFraming, generation);
        return;
      }
      if frame.id in pending {
        var owner := pending[frame.id];
        pending := pending - {frame.id};
        Send(owner, Received(frame));
      }
      ReadFrame(generation);
    }

    method Fail(id: Word16, error: ErrorCode)
      modifies `pending, `writeQueue, `channels
      ensures Model() == FailRequest(old(Model()), id, error)
    {
      if id !in pending {
        return;
      }
      var owner := pending[id];
      pending := pending - {id};
      writeQueue := Erase(writeQueue, id);
      Send(owner, Lost(error));
    }

    static method Erase(queue: seq<Word16>, id: Word16) returns (kept: seq<Word16>)
      ensures kept == Without(queue, id)
    {
      kept := [];
      var i := 0;
      while i < |queue|
        invariant 0 <= i <= |queue|
        invariant kept + Without(queue[i..], id) == Without(queue, id)
      {
        assert queue[i..][1..] == queue[i + 1..];
        if queue[i] != id {
          kept := kept + [queue[i]];
        }
        i := i + 1;
      }
    }

    method FailEverything(error: ErrorCode)
      modifies `pending, `writeQueue, `channels
      ensures Model() == FailAll(old(Model()), error)
    {
      var owners := pending.Values;
      pending := map[];
      writeQueue := [];
      var rest := owners;
      while rest != {}
        invariant rest <= owners
        invariant Model() == old(Model()).(pending := map[], queue := [], channels := Lose(old(channels), owners - rest, error))
      {
        var owner :| owner in rest;
        LoseNext(old(channels), owners, rest, owner, error);
        rest := rest - {owner};
        Send(owner, Lost(error));
      }
      assert owners - rest == owners;
    }

    method ConnectionLost(error: ErrorCode, generation: nat)
      modifies this
      ensures Model() == ConnectionFailed(old(Model()), error, generation)
    {
      if generation != this.generation || stopped {
        return;
      }
      Close();
      FailEverything(error);
    }

    method Close()
      modifies `generation, `connecting, `connected, `writing, `reading, `stream
      ensures Model() == CloseConnection(old(Model()))
    {
      generation := generation + 1;
      connecting := false;
      connected := false;
      writing := false;
      reading := false;
      stream := None;
    }
  }
}
