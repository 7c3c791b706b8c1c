/**
 * The session of the DNS-over-TLS transport (`DotDnsTransport::Session`,
 * src/dns/dot_dns_transport.cpp). Unlike the session of the plain transport it never
 * connects again: once its connection is lost, or its last request leaves before it is
 * connected, it retires and the transport makes another one. One loop writes, one loop
 * reads; the writing loop ends when its queue is empty and is started by the next request.
 */
module DotSessionSpec {
  import opened Core
  import opened TcpCalls = TcpSessionSpec

  datatype DotSession = DotSession(
    pending: map<Word16, nat>, queue: seq<Word16>, generation: nat,
    connecting: bool, connected: bool, writing: bool, retired: bool, stopped: bool,
    dials: set<nat>, handshakes: set<nat>, writes: set<Write>, pulls: set<Read>,
    told: map<nat, seq<Reply>>, frames: seq<nat>)

  // ----- The session as a function of its state. `told` records what each
  // ----- requesting operation has been told, and `frames` whose frames have been
  // ----- handed to the connection, one after the other.

  function Fresh(): DotSession {
    DotSession(map[], [], 0, false, false, false, false, false, {}, {}, {}, {}, map[], [])
  }

  function Tell(told: map<nat, seq<Reply>>, owner: nat, reply: Reply): map<nat, seq<Reply>> {
    told[owner := (if owner in told then told[owner] else []) + [reply]]
  }

  function TellAll(told: map<nat, seq<Reply>>, owners: set<nat>, error: ErrorCode): map<nat, seq<Reply>> {
    map o | o in told :: if o in owners then told[o] + [Lost(error)] else told[o]
  }

  function Close(s: DotSession): DotSession {
    s.(generation := s.generation + 1, connecting := false, connected := false, writing := false)
  }

  function TellEverybody(s: DotSession, error: ErrorCode): DotSession {
    s.(pending := map[], queue := [], told := TellAll(s.told, s.pending.Values, error))
  }

  /** `connection_failed` */
  function Lose(s: DotSession, error: ErrorCode, generation: nat): DotSession {
    if generation != s.generation || s.stopped then s else TellEverybody(Close(s.(retired := true)), error)
  }

  function Halt(s: DotSession): DotSession {
    if s.stopped then s else TellEverybody(Close(s.(retired := true, stopped := true)), Cancelled)
  }

  /** A request leaves; if it was the last one and the connection is still being made, the session retires. */
  function Drop(s: DotSession, id: Word16, error: ErrorCode): DotSession {
    if id !in s.pending then s
    else
      var t := s.(pending := s.pending - {id}, queue := Without(s.queue, id), told := Tell(s.told, s.pending[id], Lost(error)));
      if t.pending == map[] && t.connecting then Close(t.(retired := true)) else t
  }

  /** A loop of the connection of this generation goes on. */
  predicate Runs(s: DotSession, generation: nat) {
    !s.stopped && !s.retired && generation == s.generation && s.connected
  }

  /** The writing loop from its head to its next wait, or to its end. */
  function WriteOn(s: DotSession, generation: nat): DotSession {
    if !Runs(s, generation) then s.(writing := false)
    else
      var queue := DropDead(s.queue, s.pending);
      if queue == [] then s.(queue := queue, writing := false)
      else s.(queue := queue, writes := s.writes + {Write(generation, queue[0])}, frames := s.frames + [s.pending[queue[0]]])
  }

  function EnsureWriting(s: DotSession, generation: nat): DotSession {
    if !Runs(s, generation) || s.writing then s else WriteOn(s.(writing := true), generation)
  }

  /** The reading loop from its head to the wait for the next length, or to its end. */
  function ReadOn(s: DotSession, generation: nat): DotSession {
    if Runs(s, generation) then s.(pulls := s.pulls + {Read(generation, false)}) else s
  }

  function Connect(s: DotSession): DotSession {
    if s.stopped || s.retired || s.connected || s.connecting || s.pending == map[] then s
    else s.(connecting := true, dials := s.dials + {s.generation})
  }

  function Ask(s: DotSession, id: Word16, length: nat, owner: nat): DotSession {
    if s.stopped || s.retired then s.(told := Tell(s.told, owner, Lost(Cancelled)))
    else if length == 0 || length > 0xffff || id in s.pending then s.(told := Tell(s.told, owner, Lost(ProtocolFraming)))
    else
      var t := Connect(s.(pending := s.pending[id := owner], queue := s.queue + [id], told := s.told[owner := []]));
      EnsureWriting(t, t.generation)
  }

  function Dialed(s: DotSession, generation: nat, failure: Option<ErrorCode>): DotSession {
    var t := s.(dials := s.dials - {generation});
    if generation != t.generation || t.stopped then t
    else if failure.Some? then Lose(t, failure.value, generation)
    else t.(handshakes := t.handshakes + {generation})
  }

  function Secured(s: DotSession, generation: nat, failure: Option<ErrorCode>): DotSession {
    var t := s.(handshakes := s.handshakes - {generation});
    if generation != t.generation || t.stopped then t
    else if failure.Some? then Lose(t, failure.value, generation)
    else EnsureWriting(ReadOn(t.(connecting := false, connected := true), generation), generation)
  }

  /** The queue is popped and the flag cleared whatever has become of the connection. */
  function FrameWritten(s: DotSession, w: Write, ok: bool): DotSession {
    var t := s.(writes := s.writes - {w});
    if ok then WriteOn(t.(queue := PopIf(t.queue, w.id)), w.generation)
    else Lose(t.(writing := false), TransportIo, w.generation)
  }

  function LengthArrived(s: DotSession, generation: nat, length: Option<Word16>): DotSession {
    var t := s.(pulls := s.pulls - {Read(generation, false)});
    if length.None? then Lose(t, TransportIo, generation)
    else if length.value == 0 then Lose(t, ProtocolFraming, generation)
    else if !Runs(t, generation) then Lose(t, TransportIo, generation)
    else t.(pulls := t.pulls + {Read(generation, true)})
  }

  /** A body that has arrived is dispatched without another look at the connection. */
  function BodyArrived(s: DotSession, generation: nat, frame: Option<Frame>): DotSession {
    var t := s.(pulls := s.pulls - {Read(generation, true)});
    if frame.None? then Lose(t, TransportIo, generation)
    else ReadOn(Answer(t, frame.value, generation), generation)
  }

  function Answer(s: DotSession, frame: Frame, generation: nat): DotSession {
    if frame.Short? then Lose(s, ProtocolFraming, generation)
    else if frame.id in s.pending then s.(pending := s.pending - {frame.id}, told := Tell(s.told, s.pending[frame.id], Received(frame)))
    else s
  }

  // ----- What every step keeps

  /** The flags exclude each other as they should, and nobody is left in a session that will do nothing. */
  ghost predicate Phases(s: DotSession) {
    && (s.stopped ==> s.retired)
    && (s.retired ==> s.pending == map[] && s.queue == [] && !s.connecting && !s.connected)
    && !(s.connecting && s.connected) && (s.writing ==> s.connected)
    && (s.pending != map[] ==> s.connecting || s.connected)
    && (s.connecting ==> forall q :: q in s.queue ==> q in s.pending)
    && (!s.connecting && !s.writing ==> s.queue == [])
  }

  /** The calls under way: on the one connection that the session makes, a dial or a handshake, or one read and at most one write. */
  ghost predicate Calls(s: DotSession) {
    Links(s) && WriteCalls(s.writes, s.generation, s.writing)
  }

  ghost predicate Links(s: DotSession) {
    && (!s.retired ==> s.generation == 0)
    && (forall g :: g in s.dials ==> g <= s.generation && (g == s.generation ==> s.connecting))
    && (forall g :: g in s.handshakes ==> g <= s.generation && (g == s.generation ==> s.connecting))
    && (s.connecting ==> (s.generation in s.dials <==> s.generation !in s.handshakes))
    && (forall r :: r in s.pulls ==> r.generation <= s.generation && (r.generation == s.generation ==> s.connected))
    && (s.connected ==> (Read(s.generation, false) in s.pulls <==> Read(s.generation, true) !in s.pulls))
  }

  ghost predicate WriteCalls(writes: set<Write>, generation: nat, writing: bool) {
    && (forall w :: w in writes ==> w.generation <= generation && (w.generation == generation ==> writing))
    && (forall v, w :: v in writes && w in writes && v.generation == w.generation ==> v == w)
    && (writing ==> exists id :: Write(generation, id) in writes)
  }

  /** A request that waits has been told nothing, every other one exactly one thing. */
  ghost predicate Told(told: map<nat, seq<Reply>>, pending: map<Word16, nat>) {
    && (forall p, q :: p in pending && q in pending && pending[p] == pending[q] ==> p == q)
    && (forall q :: q in pending ==> pending[q] in told)
    && (forall o :: o in told ==> if o in pending.Values then told[o] == [] else |told[o]| == 1)
  }

  ghost predicate Valid(s: DotSession) {
    Phases(s) && Calls(s) && Told(s.told, s.pending)
  }

  lemma TellOne(told: map<nat, seq<Reply>>, pending: map<Word16, nat>, id: Word16, reply: Reply)
    requires Told(told, pending) && id in pending
    ensures Told(Tell(told, pending[id], reply), pending - {id})
  {
    var owner, left := pending[id], pending - {id};
    assert told[owner] == [];
    forall o | o in told ensures o in left.Values <==> o in pending.Values && o != owner {
      if o in pending.Values && o != owner {
        var q :| q in pending && pending[q] == o;
        assert q in left && left[q] == o;
      }
    }
  }

  lemma TellTheRest(told: map<nat, seq<Reply>>, pending: map<Word16, nat>, error: ErrorCode)
    requires Told(told, pending)
    ensures Told(TellAll(told, pending.Values, error), map[])
  {
  }

  lemma RetireKeeps(s: DotSession, error: ErrorCode)
    requires s.retired && Told(s.told, s.pending)
    requires (forall g :: g in s.dials ==> g <= s.generation) && (forall g :: g in s.handshakes ==> g <= s.generation)
    requires forall r :: r in s.pulls ==> r.generation <= s.generation
    requires forall w :: w in s.writes ==> w.generation <= s.generation
    requires forall v, w :: v in s.writes && w in s.writes && v.generation == w.generation ==> v == w
    ensures Valid(TellEverybody(Close(s), error))
  {
    TellTheRest(s.told, s.pending, error);
  }

  lemma LoseKeeps(s: DotSession, error: ErrorCode, generation: nat)
    requires Valid(s)
    ensures Valid(Lose(s, error, generation))
  {
    if generation == s.generation && !s.stopped {
      RetireKeeps(s.(retired := true), error);
    }
  }

  lemma HaltKeeps(s: DotSession)
    requires Valid(s)
    ensures Valid(Halt(s)) && Halt(s).stopped && Halt(s).pending == map[]
  {
    if !s.stopped {
      RetireKeeps(s.(retired := true, stopped := true), Cancelled);
    }
  }

  lemma {:induction false} NothingLeft(queue: seq<Word16>, id: Word16)
    requires forall q :: q in queue ==> q == id
    ensures Without(queue, id) == []
  {
    if queue != [] {
      assert queue[0] in queue && forall q :: q in queue[1..] ==> q in queue;
      NothingLeft(queue[1..], id);
    }
  }

  lemma DropKeeps(s: DotSession, id: Word16, error: ErrorCode)
    requires Valid(s)
    ensures Valid(Drop(s, id, error))
  {
    if id in s.pending {
      TellOne(s.told, s.pending, id, Lost(error));
      if s.pending - {id} == map[] && s.connecting {
        assert forall q :: q in s.pending && q != id ==> q in s.pending - {id};
        NothingLeft(s.queue, id);
      } else if s.queue == [] {
        assert Without(s.queue, id) == [];
      }
    }
  }

  lemma {:induction false} DropDeadNone(queue: seq<Word16>, pending: map<Word16, nat>)
    ensures DropDead(queue, pending) == [] ==> forall q :: q in queue ==> q !in pending
  {
    if queue != [] {
      DropDeadNone(queue[1..], pending);
    }
  }

  lemma WriteOnKeeps(s: DotSession, generation: nat)
    requires Runs(s, generation) && s.writing && Phases(s) && Links(s) && Told(s.told, s.pending)
    requires WriteCalls(s.writes, s.generation, false)
    ensures Valid(WriteOn(s, generation))
  {
    var t := WriteOn(s, generation);
    if t.writing {
      assert Write(t.generation, t.queue[0]) in t.writes;
    }
  }

  lemma EnsureWritingKeeps(s: DotSession)
    requires Phases(s.(writing := s.connected)) && Links(s) && Told(s.told, s.pending)
    requires WriteCalls(s.writes, s.generation, s.writing) && (s.writing ==> s.connected)
    ensures Valid(EnsureWriting(s, s.generation))
  {
    if Runs(s, s.generation) && !s.writing {
      WriteOnKeeps(s.(writing := true), s.generation);
    }
  }

  lemma AskTold(told: map<nat, seq<Reply>>, pending: map<Word16, nat>, id: Word16, owner: nat)
    requires Told(told, pending) && owner !in told && id !in pending
    ensures Told(told[owner := []], pending[id := owner])
  {
    var t := pending[id := owner];
    assert t[id] == owner;
    forall o | o in told ensures o in t.Values <==> o in pending.Values {
      if o in pending.Values {
        var q :| q in pending && pending[q] == o;
        assert q in t && t[q] == o;
      }
    }
  }

  lemma AskKeeps(s: DotSession, id: Word16, length: nat, owner: nat)
    requires Valid(s) && owner !in s.told
    ensures Valid(Ask(s, id, length, owner))
  {
    if !s.stopped && !s.retired && 0 < length <= 0xffff && id !in s.pending {
      var t := Connect(s.(pending := s.pending[id := owner], queue := s.queue + [id], told := s.told[owner := []]));
      AskTold(s.told, s.pending, id, owner);
      EnsureWritingKeeps(t);
    }
  }

  lemma DialedKeeps(s: DotSession, generation: nat, failure: Option<ErrorCode>)
    requires Valid(s) && generation in s.dials
    ensures Valid(Dialed(s, generation, failure))
  {
    var t := s.(dials := s.dials - {generation});
    if generation == t.generation && !t.stopped && failure.Some? {
      RetireKeeps(t.(retired := true), failure.value);
    }
  }

  lemma SecuredKeeps(s: DotSession, generation: nat, failure: Option<ErrorCode>)
    requires Valid(s) && generation in s.handshakes
    ensures Valid(Secured(s, generation, failure))
  {
    var t := s.(handshakes := s.handshakes - {generation});
    if generation == t.generation && !t.stopped {
      if failure.Some? {
        RetireKeeps(t.(retired := true), failure.value);
      } else {
        EnsureWritingKeeps(ReadOn(t.(connecting := false, connected := true), generation));
      }
    }
  }

  lemma FrameWrittenKeeps(s: DotSession, w: Write, ok: bool)
    requires Valid(s) && w in s.writes
    ensures Valid(FrameWritten(s, w, ok))
  {
    var t := s.(writes := s.writes - {w});
    if w.generation != s.generation {
      assert s.retired;
    } else if ok {
      WriteOnKeeps(t.(queue := PopIf(t.queue, w.id)), w.generation);
    } else {
      RetireKeeps(t.(writing := false, retired := true), TransportIo);
    }
  }

  lemma LengthArrivedKeeps(s: DotSession, generation: nat, length: Option<Word16>)
    requires Valid(s) && Read(generation, false) in s.pulls
    ensures Valid(LengthArrived(s, generation, length))
  {
    var t := s.(pulls := s.pulls - {Read(generation, false)});
    if generation == s.generation {
      if length.None? {
        RetireKeeps(t.(retired := true), TransportIo);
      } else if length.value == 0 {
        RetireKeeps(t.(retired := true), ProtocolFraming);
      }
    }
  }

  lemma BodyArrivedKeeps(s: DotSession, generation: nat, frame: Option<Frame>)
    requires Valid(s) && Read(generation, true) in s.pulls
    ensures Valid(BodyArrived(s, generation, frame))
  {
    var t := s.(pulls := s.pulls - {Read(generation, true)});
    if generation == s.generation {
      if frame.None? {
        RetireKeeps(t.(retired := true), TransportIo);
      } else if frame.value.Short? {
        RetireKeeps(t.(retired := true), ProtocolFraming);
      } else if frame.value.id in s.pending {
        TellOne(s.told, s.pending, frame.value.id, Received(frame.value));
      }
    }
  }

  // ----- Runs

  datatype Event =
    | Asks(id: Word16, size: nat, owner: nat)
    | Leaves(id: Word16, error: ErrorCode)
    | DialEnds(generation: nat, failure: Option<ErrorCode>)
    | HandshakeEnds(generation: nat, failure: Option<ErrorCode>)
    | WriteEnds(write: Write, ok: bool)
    | LengthEnds(generation: nat, length: Option<Word16>)
    | BodyEnds(generation: nat, frame: Option<Frame>)
    | Stops

  /** A call-back happens only for a call that is under way; `Leaves` is a cancellation or a deadline. */
  predicate Enabled(s: DotSession, e: Event) {
    match e
    case Asks(_, _, owner) => owner !in s.told
    case Leaves(_, _) => true
    case DialEnds(generation, _) => generation in s.dials
    case HandshakeEnds(generation, _) => generation in s.handshakes
    case WriteEnds(write, _) => write in s.writes
    case LengthEnds(generation, _) => Read(generation, false) in s.pulls
    case BodyEnds(generation, _) => Read(generation, true) in s.pulls
    case Stops => true
  }

  function Step(s: DotSession, e: Event): DotSession {
    match e
    case Asks(id, size, owner) => Ask(s, id, size, owner)
    case Leaves(id, error) => Drop(s, id, error)
    case DialEnds(generation, failure) => Dialed(s, generation, failure)
    case HandshakeEnds(generation, failure) => Secured(s, generation, failure)
    case WriteEnds(write, ok) => FrameWritten(s, write, ok)
    case LengthEnds(generation, length) => LengthArrived(s, generation, length)
    case BodyEnds(generation, frame) => BodyArrived(s, generation, frame)
    case Stops => Halt(s)
  }

  lemma StepKeeps(s: DotSession, e: Event)
    requires Valid(s) && Enabled(s, e)
    ensures Valid(Step(s, e))
  {
    match e
    case Asks(id, size, owner) => AskKeeps(s, id, size, owner);
    case Leaves(id, error) => DropKeeps(s, id, error);
    case DialEnds(generation, failure) => DialedKeeps(s, generation, failure);
    case HandshakeEnds(generation, failure) => SecuredKeeps(s, generation, failure);
    case WriteEnds(write, ok) => FrameWrittenKeeps(s, write, ok);
    case LengthEnds(generation, length) => LengthArrivedKeeps(s, generation, length);
    case BodyEnds(generation, frame) => BodyArrivedKeeps(s, generation, frame);
    case Stops => HaltKeeps(s);
  }

  ghost predicate Follows(trace: seq<DotSession>, events: seq<Event>, n: nat)
    requires n < |events| && n + 1 < |trace|
  {
    Enabled(trace[n], events[n]) && trace[n + 1] == Step(trace[n], events[n])
  }

  ghost predicate IsRun(trace: seq<DotSession>, events: seq<Event>) {
    && |trace| == |events| + 1 && trace[0] == Fresh()
    && forall n :: 0 <= n < |events| ==> Follows(trace, events, n)
  }

  lemma {:induction false} RunsAreValid(trace: seq<DotSession>, events: seq<Event>, n: nat)
    requires IsRun(trace, events) && n < |trace|
    ensures Valid(trace[n])
    decreases n
  {
    if n > 0 {
      RunsAreValid(trace, events, n - 1);
      assert Follows(trace, events, n - 1);
      StepKeeps(trace[n - 1], events[n - 1]);
    }
  }

  /**
   * In every run a request that waits is in a session that has not retired, with a dial,
   * a handshake or a read under way; and once connected, a queue that is not empty has a
   * write under way, although the writing loop does not start itself again.
   */
  lemma RunsAreAwake(trace: seq<DotSession>, events: seq<Event>, n: nat)
    requires IsRun(trace, events) && n < |trace| && trace[n].pending != map[]
    ensures var s := trace[n];
      && !s.retired
      && (s.generation in s.dials || s.generation in s.handshakes || exists r :: r in s.pulls && r.generation == s.generation)
      && (s.connected && s.queue != [] ==> exists id :: Write(s.generation, id) in s.writes)
  {
    RunsAreValid(trace, events, n);
    var s := trace[n];
    if s.connected {
      var r := if Read(s.generation, false) in s.pulls then Read(s.generation, false) else Read(s.generation, true);
      assert r in s.pulls && r.generation == s.generation;
    }
  }

  /** What was told stays; a session that has retired stays so. */
  ghost predicate Remembers(s: DotSession, t: DotSession) {
    && (forall o :: o in s.told ==> o in t.told && s.told[o] <= t.told[o])
    && (s.retired ==> t.retired)
  }

  lemma LoseRemembers(s: DotSession, error: ErrorCode, generation: nat)
    ensures Remembers(s, Lose(s, error, generation))
  {
  }

  lemma StepRemembers(s: DotSession, e: Event)
    requires Valid(s) && Enabled(s, e)
    ensures Remembers(s, Step(s, e))
  {
    match e
    case Asks(id, size, owner) =>
    case Leaves(id, error) =>
    case DialEnds(generation, failure) =>
      LoseRemembers(s.(dials := s.dials - {generation}), if failure.Some? then failure.value else Timeout, generation);
    case HandshakeEnds(generation, failure) =>
      LoseRemembers(s.(handshakes := s.handshakes - {generation}), if failure.Some? then failure.value else Timeout, generation);
    case WriteEnds(write, ok) => LoseRemembers(s.(writes := s.writes - {write}, writing := false), TransportIo, write.generation);
    case LengthEnds(generation, length) => LengthRemembers(s, generation, length);
    case BodyEnds(generation, frame) => BodyRemembers(s, generation, frame);
    case Stops =>
  }

  lemma LengthRemembers(s: DotSession, generation: nat, length: Option<Word16>)
    ensures Remembers(s, LengthArrived(s, generation, length))
  {
    LoseRemembers(s.(pulls := s.pulls - {Read(generation, false)}), TransportIo, generation);
    LoseRemembers(s.(pulls := s.pulls - {Read(generation, false)}), ProtocolFraming, generation);
  }

  lemma BodyRemembers(s: DotSession, generation: nat, frame: Option<Frame>)
    ensures Remembers(s, BodyArrived(s, generation, frame))
  {
    var t := s.(pulls := s.pulls - {Read(generation, true)});
    if frame.None? {
      LoseRemembers(t, TransportIo, generation);
    } else {
      AnswerRemembers(t, frame.value, generation);
    }
  }

  lemma AnswerRemembers(s: DotSession, frame: Frame, generation: nat)
    ensures Remembers(s, Answer(s, frame, generation))
  {
    if frame.Short? {
      LoseRemembers(s, ProtocolFraming, generation);
    }
  }

  lemma RemembersTransitive(s: DotSession, t: DotSession, u: DotSession)
    requires Remembers(s, t) && Remembers(t, u)
    ensures Remembers(s, u)
  {
    forall o | o in s.told ensures o in u.told && s.told[o] <= u.told[o] {
      assert o in t.told && s.told[o] <= t.told[o];
    }
  }

  lemma StepOfRunRemembers(trace: seq<DotSession>, events: seq<Event>, n: nat)
    requires IsRun(trace, events) && n + 1 < |trace|
    ensures Remembers(trace[n], trace[n + 1])
  {
    RunsAreValid(trace, events, n);
    assert Follows(trace, events, n);
    StepRemembers(trace[n], events[n]);
  }

  lemma {:induction false} RunRemembers(trace: seq<DotSession>, events: seq<Event>, m: nat, n: nat)
    requires IsRun(trace, events) && m <= n < |trace|
    ensures Remembers(trace[m], trace[n])
    decreases n
  {
    if m < n {
      RunRemembers(trace, events, m, n - 1);
      StepOfRunRemembers(trace, events, n - 1);
      RemembersTransitive(trace[m], trace[n - 1], trace[n]);
    }
  }

  /**
   * In every run a request waits and has been told nothing, or has been told exactly one
   * thing, which stays the only one; a session that has retired stays so, and nobody
   * waits in it.
   */
  lemma ToldExactlyOnce(trace: seq<DotSession>, events: seq<Event>, m: nat, n: nat, owner: nat)
    requires IsRun(trace, events) && m <= n < |trace| && owner in trace[m].told
    ensures owner in trace[n].told
    ensures if owner in trace[m].pending.Values then trace[m].told[owner] == []
            else |trace[m].told[owner]| == 1 && trace[n].told[owner] == trace[m].told[owner]
    ensures trace[m].retired ==> trace[n].retired && trace[n].pending == map[] && |trace[n].told[owner]| == 1
  {
    RunsAreValid(trace, events, m);
    RunsAreValid(trace, events, n);
    RunRemembers(trace, events, m, n);
  }

  /** Whatever calls back into a session that has retired changes nothing but the record of calls. */
  lemma RetiredStaysAsItIs(s: DotSession, e: Event)
    requires Valid(s) && s.retired && Enabled(s, e) && !e.Asks? && !e.Stops?
    ensures var t := Step(s, e);
      && t.dials <= s.dials && t.handshakes <= s.handshakes && t.writes <= s.writes && t.pulls <= s.pulls
      && t == s.(dials := t.dials, handshakes := t.handshakes, writes := t.writes, pulls := t.pulls)
  {
  }

  /** The last request that leaves before there is a connection takes the session with it; later ones do not. */
  lemma LeavingRetires(s: DotSession, id: Word16, error: ErrorCode)
    requires Valid(s) && !s.retired
    ensures Drop(s, id, error).retired <==> s.connecting && id in s.pending && forall q :: q in s.pending ==> q == id
  {
    if id in s.pending {
      assert forall q :: q in s.pending - {id} <==> q in s.pending && q != id;
    }
  }
}

/** The session as an object, and the transport's choice of a session. */
module DotSessions {
  import opened Core
  import opened TcpCalls = TcpSessionSpec
  import opened TcpSessions
  import opened Spec = DotSessionSpec

  class DotTlsSession {
    var pending: map<Word16, nat>
    var writeQueue: seq<Word16>
    var generation: nat
    var connecting: bool
    var connected: bool
    var writing: bool
    var retired: bool
    var stopped: bool
    var dials: set<nat>
    var handshakes: set<nat>
    var writes: set<Write>
    var pulls: set<Read>
    /** What each operation was told, and whose frames have been written or are being written. */
    ghost var told: map<nat, seq<Reply>>
    ghost var frames: seq<nat>

    ghost function Model(): Spec.DotSession
      reads this
    {
      Spec.DotSession(pending, writeQueue, generation, connecting, connected, writing, retired, stopped,
                      dials, handshakes, writes, pulls, told, frames)
    }

    /** Whoever waits has been entered. */
    ghost predicate Entered()
      reads this
    {
      pending.Values <= told.Keys
    }

    constructor ()
      ensures Model() == Fresh() && Spec.Valid(Model())
    {
      pending, writeQueue, generation, told, frames := map[], [], 0, map[], [];
      connecting, connected, writing, retired, stopped := false, false, false, false, false;
      dials, handshakes, writes, pulls := {}, {}, {}, {};
    }

    method Call(owner: nat, reply: Reply)
      modifies `told
      ensures Model() == old(Model()).(told := Tell(old(told), owner, reply))
    {
      told := told[owner := (if owner in told then told[owner] else []) + [reply]];
    }

    method Exchange(id: Word16, length: nat, owner: nat)
      requires owner !in told
      modifies this
      ensures Model() == Ask(old(Model()), id, length, owner)
    {
      if stopped || retired {
        Call(owner, Lost(Cancelled));
        return;
      }
      if length == 0 || length > 0xffff || id in pending {
        Call(owner, Lost(ProtocolFraming));
        return;
      }
      pending, told := pending[id := owner], told[owner := []];
      writeQueue := writeQueue + [id];
      ConnectIfNeeded();
      EnsureWriteLoop(generation);
    }

    method ConnectIfNeeded()
      modifies `connecting, `dials
      ensures Model() == Connect(old(Model()))
    {
      if stopped || retired || connected || connecting || pending == map[] {
        return;
      }
      connecting := true;
      dials := dials + {generation};
    }

    method EnsureWriteLoop(generation: nat)
      modifies `writing, `writeQueue, `writes, `frames
      ensures Model() == EnsureWriting(old(Model()), generation)
    {
      if stopped || retired || generation != this.generation || !connected || writing {
        return;
      }
      writing := true;
      RunWriteLoop(generation);
    }

    /** The loop from its head: dead entries are dropped, and the first live frame is written, or the loop ends. */
    method RunWriteLoop(generation: nat)
      modifies `writing, `writeQueue, `writes, `frames
      ensures Model() == WriteOn(old(Model()), generation)
    {
      if !stopped && !retired && generation == this.generation && connected {
        while writeQueue != [] && writeQueue[0] !in pending
          invariant Model() == old(Model()).(queue := writeQueue)
          invariant DropDead(writeQueue, pending) == DropDead(old(writeQueue), pending)
          decreases |writeQueue|
        {
          writeQueue := writeQueue[1..];
        }
        if writeQueue != [] {
          writes := writes + {Write(generation, writeQueue[0])};
          frames := frames + [pending[writeQueue[0]]];
          return;
        }
      }
      writing := false;
    }

    method OnWritten(w: Write, ok: bool)
      requires Entered()
      modifies this
      ensures Model() == FrameWritten(old(Model()), w, ok)
    {
      writes := writes - {w};
      if !ok {
        writing := false;
        ConnectionFailed(TransportIo, w.generation);
        return;
      }
      if writeQueue != [] && writeQueue[0] == w.id {
        writeQueue := writeQueue[1..];
      }
      RunWriteLoop(w.generation);
    }

    method OnDialed(generation: nat, failure: Option<ErrorCode>)
      requires Entered()
      modifies this
      ensures Model() == Dialed(old(Model()), generation, failure)
    {
      dials := dials - {generation};
      if generation != this.generation || stopped {
        return;
      }
      if failure.Some? {
        ConnectionFailed(failure.value, generation);
        return;
      }
      handshakes := handshakes + {generation};
    }

    method OnSecured(generation: nat, failure: Option<ErrorCode>)
      requires Entered()
      modifies this
      ensures Model() == Secured(old(Model()), generation, failure)
    {
      handshakes := handshakes - {generation};
      if generation != this.generation || stopped {
        return;
      }
      if failure.Some? {
        ConnectionFailed(failure.value, generation);
        return;
      }
      connecting, connected := false, true;
      RunReadLoop(generation);
      EnsureWriteLoop(generation);
    }

    method RunReadLoop(generation: nat)
      modifies `pulls
      ensures Model() == ReadOn(old(Model()), generation)
    {
      if !stopped && !retired && generation == this.generation && connected {
        pulls := pulls + {Read(generation, false)};
      }
    }

    method OnLength(generation: nat, length: Option<Word16>)
      requires Entered()
      modifies this
      ensures Model() == LengthArrived(old(Model()), generation, length)
    {
      pulls := pulls - {Read(generation, false)};
      if length.None? {
        ConnectionFailed(TransportIo, generation);
      } else if length.value == 0 {
        ConnectionFailed(ProtocolFraming, generation);
      } else if stopped || retired || generation != this.generation || !connected {
        ConnectionFailed(TransportIo, generation);
      } else {
        pulls := pulls + {Read(generation, true)};
      }
    }

    method OnBody(generation: nat, frame: Option<Frame>)
      requires Entered()
      modifies this
      ensures Model() == BodyArrived(old(Model()), generation, frame)
    {
      pulls := pulls - {Read(generation, true)};
      if frame.None? {
        ConnectionFailed(TransportIo, generation);
        return;
      }
      DispatchResponse(frame.value, generation);
      RunReadLoop(generation);
    }

    method DispatchResponse(frame: Frame, generation: nat)
      requires Entered()
      modifies this
      ensures Model() == Answer(old(Model()), frame, generation)
    {
      if frame.Short? {
        ConnectionFailed(ProtocolFraming, generation);
        return;
      }
      if frame.id in pending {
        var owner := pending[frame.id];
        pending := pending - {frame.id};
        Call(owner, Received(frame));
      }
    }

    method FailRequest(id: Word16, error: ErrorCode)
      modifies this
      ensures Model() == Drop(old(Model()), id, error)
    {
      if id !in pending {
        return;
      }
      var owner := pending[id];
      pending := pending - {id};
      writeQueue := TcpSession.Erase(writeQueue, id);
      ghost var left := old(Model()).(pending := old(pending) - {id}, queue := Without(old(writeQueue), id));
      assert Model() == left;
      if pending == map[] && connecting {
        retired := true;
        CloseConnection();
        assert Model() == Spec.Close(left.(retired := true));
      }
      Call(owner, Lost(error));
    }

    method StopSession()
      requires Entered()
      modifies this
      ensures Model() == Halt(old(Model()))
    {
      if stopped {
        return;
      }
      stopped, retired := true, true;
      CloseConnection();
      FailAll(Cancelled);
    }

    method ConnectionFailed(error: ErrorCode, generation: nat)
      requires Entered()
      modifies this
      ensures Model() == Spec.Lose(old(Model()), error, generation)
    {
      if generation != this.generation || stopped {
        return;
      }
      retired := true;
      CloseConnection();
      FailAll(error);
    }

    method CloseConnection()
      modifies `generation, `connecting, `connected, `writing
      ensures Model() == Close(old(Model()))
    {
      generation := generation + 1;
      connecting, connected, writing := false, false, false;
    }

    /** Every request that waits gets the error, one after the other. */
    method FailAll(error: ErrorCode)
      requires Entered()
      modifies `pending, `writeQueue, `told
      ensures Model() == TellEverybody(old(Model()), error)
    {
      var owners := pending.Values;
      pending, writeQueue := map[], [];
      var rest := owners;
      while rest != {}
        invariant rest <= owners
        invariant Model() == old(Model()).(pending := map[], queue := [], told := TellAll(old(told), owners - rest, error))
      {
        var owner :| owner in rest;
        TellNext(old(told), owners, rest, owner, error);
        rest := rest - {owner};
        Call(owner, Lost(error));
      }
      assert owners - rest == owners;
    }

    static lemma TellNext(told: map<nat, seq<Reply>>, owners: set<nat>, rest: set<nat>, owner: nat, error: ErrorCode)
      requires rest <= owners && owner in rest && owner in told
      ensures var before := TellAll(told, owners - rest, error);
        TellAll(told, owners - (rest - {owner}), error) == Tell(before, owner, Lost(error))
    {
    }
  }

  class DotDnsTransport {
    var session: DotTlsSession?
    var stopped: bool

    constructor ()
      ensures session == null && !stopped
    {
      session, stopped := null, false;
    }

    /** The session that has not retired, or a new one. */
    method CurrentSession() returns (current: DotTlsSession?)
      modifies `session
      ensures stopped ==> current == null && session == old(session)
      ensures !stopped ==> current != null && session == current && !current.retired
      ensures !stopped && old(session) != null && !old(session.retired) ==> current == old(session)
      ensures !stopped && (old(session) == null || old(session.retired)) ==> fresh(current) && current.Model() == Fresh()
    {
      if stopped {
        return null;
      }
      if session == null || session.retired {
        session := new DotTlsSession();
      }
      return session;
    }
  }
}
