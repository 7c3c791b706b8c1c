/**
 * Which frames a TCP session sends. The write queue and the completion of a write know
 * a request by its transaction ID only, so all depends on when an ID is used again.
 */
module TcpSessionRuns {
  import opened Core
  import opened TcpSessionSpec

  datatype Event =
    | Requests(id: Word16, length: nat, owner: nat)
    | Cancels(id: Word16)
    | CallsBack(call: TcpSessionSpec.Event)
    | Stops

  predicate Enabled(s: Session, e: Event) {
    match e
    case Requests(_, _, owner) => owner !in s.channels && owner !in s.pending.Values
    case CallsBack(call) => TcpSessionSpec.Enabled(s, call)
    case _ => true
  }

  function Step(s: Session, e: Event): Session {
    match e
    case Requests(id, length, owner) => Exchange(s, id, length, owner)
    case Cancels(id) => FailRequest(s, id, Cancelled)
    case CallsBack(call) => TcpSessionSpec.Step(s, call)
    case Stops => Stop(s)
  }

  lemma StepKeeps(s: Session, e: Event)
    requires Valid(s) && Enabled(s, e)
    ensures Valid(Step(s, e))
  {
    match e
    case Requests(id, length, owner) => ExchangeKeeps(s, id, length, owner);
    case Cancels(id) => FailRequestKeeps(s, id, Cancelled);
    case CallsBack(call) => TcpSessionSpec.StepKeeps(s, call);
    case Stops => StopKeeps(s);
  }

  /** The frame of an earlier request under this ID waits in the queue, or is being written. */
  predicate StillUsed(s: Session, id: Word16) {
    id in s.queue || Write(s.generation, id) in s.writes
  }

  /** No request is made under an ID that is still used. */
  predicate Spares(s: Session, e: Event) {
    e.Requests? ==> !StillUsed(s, e.id)
  }

  ghost predicate Follows(trace: seq<Session>, events: seq<Event>, n: nat)
    requires n < |events| && n + 1 < |trace|
  {
    Enabled(trace[n], events[n]) && trace[n + 1] == Step(trace[n], events[n])
  }

  ghost predicate Segment(trace: seq<Session>, events: seq<Event>) {
    |trace| == |events| + 1 && forall n :: 0 <= n < |events| ==> Follows(trace, events, n)
  }

  ghost predicate IsRun(trace: seq<Session>, events: seq<Event>) {
    Segment(trace, events) && trace[0] == Initial()
  }

  lemma {:induction false} RunsAreValid(trace: seq<Session>, events: seq<Event>, n: nat)
    requires IsRun(trace, events) && n < |trace|
    ensures Valid(trace[n])
    decreases n
  {
    if n > 0 {
      RunsAreValid(trace, events, n - 1);
      assert Follows(trace, events, n - 1);
      StepKeeps(trace[n - 1], events[n - 1]);
    }
  }

  /** In every run, a request that waits has a connect, or a read and in case of a queue a write, under way. */
  lemma RunsAreAwake(trace: seq<Session>, events: seq<Event>, n: nat)
    requires IsRun(trace, events) && n < |trace| && trace[n].pending != map[]
    ensures var s := trace[n];
      && (s.generation in s.connects || exists r :: r in s.pulls && r.generation == s.generation)
      && (s.connected && s.queue != [] ==> exists id :: Write(s.generation, id) in s.writes)
  {
    RunsAreValid(trace, events, n);
    NoLostWakeup(trace[n]);
  }

  // ----- Frames

  /** The IDs whose frames are being written on the running connection: one at most. */
  function Writing(s: Session): set<Word16> {
    set w | w in s.writes && w.generation == s.generation :: w.id
  }

  /**
   * No frame has gone out twice; what waits is in the queue or has gone out; and what
   * stands in the queue has not gone out, unless it is just being written and comes first.
   */
  ghost predicate Sending(queue: seq<Word16>, pending: map<Word16, nat>, writing: set<Word16>, frames: seq<nat>) {
    && Distinct(frames) && Distinct(queue)
    && (forall q :: q in pending ==> q in queue || pending[q] in frames)
    && (forall q :: q in queue && q in pending && pending[q] in frames ==> q in writing)
    && (forall q :: q in writing && q in pending ==> pending[q] in frames)
    && (forall q :: q in writing && q in queue ==> queue[0] == q)
  }

  /** Whose frame has gone out still waits, or has been answered. */
  ghost predicate Accounted(frames: seq<nat>, pending: map<Word16, nat>, channels: map<nat, Reply>) {
    forall o :: o in frames ==> o in channels || o in pending.Values
  }

  ghost predicate Orderly(s: Session) {
    Sending(s.queue, s.pending, Writing(s), s.frames) && Accounted(s.frames, s.pending, s.channels)
  }

  lemma {:induction false} DropDeadKeeps(queue: seq<Word16>, pending: map<Word16, nat>)
    ensures Distinct(queue) ==> Distinct(DropDead(queue, pending))
    ensures forall q :: q in queue && q in pending ==> q in DropDead(queue, pending)
  {
    if queue != [] && queue[0] !in pending {
      DropDeadKeeps(queue[1..], pending);
      assert forall q :: q in queue ==> q == queue[0] || q in queue[1..];
    }
  }

  /** Nothing is being written, and the frame of the first request goes out. */
  lemma NextFrame(queue: seq<Word16>, pending: map<Word16, nat>, frames: seq<nat>)
    requires Sending(queue, pending, {}, frames) && queue != [] && queue[0] in pending
    requires forall p, q :: p in pending && q in pending && pending[p] == pending[q] ==> p == q
    ensures Sending(queue, pending, {queue[0]}, frames + [pending[queue[0]]])
  {
    var o := pending[queue[0]];
    assert o !in frames;
    assert forall x :: x in frames + [o] <==> x in frames || x == o;
  }

  lemma FlushStaysOrderly(s: Session)
    requires Orderly(s) && Waiting(s) && (s.connected && !s.writing ==> Writing(s) == {})
    ensures Orderly(FlushWrites(s, s.generation))
  {
    if !s.stopped && s.connected && !s.writing {
      var queue := DropDead(s.queue, s.pending);
      DropDeadKeeps(s.queue, s.pending);
      assert Sending(queue, s.pending, {}, s.frames);
      if queue != [] {
        NextFrame(queue, s.pending, s.frames);
        assert Writing(FlushWrites(s, s.generation)) == {queue[0]};
      }
    }
  }

  /** A request joins the queue under an ID that is not used any more. */
  lemma JoinKeeps(queue: seq<Word16>, pending: map<Word16, nat>, writing: set<Word16>, frames: seq<nat>, id: Word16, owner: nat)
    requires Sending(queue, pending, writing, frames) && id !in queue && id !in writing && id !in pending && owner !in frames
    ensures Sending(queue + [id], pending[id := owner], writing, frames)
  {
    assert forall q :: q in queue + [id] <==> q in queue || q == id;
  }

  lemma JoinAccounted(frames: seq<nat>, pending: map<Word16, nat>, channels: map<nat, Reply>, id: Word16, owner: nat)
    requires Accounted(frames, pending, channels) && id !in pending
    ensures Accounted(frames, pending[id := owner], channels)
  {
    var t := pending[id := owner];
    forall o | o in frames && o !in channels ensures o in t.Values {
      var q :| q in pending && pending[q] == o;
      assert q in t && t[q] == o;
    }
  }

  lemma RequestStaysOrderly(s: Session, id: Word16, length: nat, owner: nat)
    requires Valid(s) && Orderly(s) && owner !in s.channels && owner !in s.pending.Values && !StillUsed(s, id)
    ensures Orderly(Exchange(s, id, length, owner))
  {
    if !s.stopped && 0 < length <= 0xffff && id !in s.pending {
      JoinKeeps(s.queue, s.pending, Writing(s), s.frames, id, owner);
      JoinAccounted(s.frames, s.pending, s.channels, id, owner);
      var t := ConnectIfNeeded(s.(pending := s.pending[id := owner], queue := s.queue + [id]));
      assert t.writes == s.writes && t.generation == s.generation;
      assert Writing(t) == Writing(s);
      FlushStaysOrderly(t);
    }
  }

  lemma {:induction false} WithoutIsDistinct(queue: seq<Word16>, id: Word16)
    requires Distinct(queue)
    ensures Distinct(Without(queue, id))
    ensures queue != [] && queue[0] != id ==> Without(queue, id) != [] && Without(queue, id)[0] == queue[0]
  {
    if queue != [] {
      WithoutIsDistinct(queue[1..], id);
      assert queue[0] !in Without(queue[1..], id);
    }
  }

  lemma FailRequestStaysOrderly(s: Session, id: Word16, error: ErrorCode)
    requires Orderly(s)
    ensures Orderly(FailRequest(s, id, error))
  {
    if id in s.pending {
      WithoutIsDistinct(s.queue, id);
      var t := FailRequest(s, id, error);
      assert Writing(t) == Writing(s);
      assert Sending(t.queue, t.pending, Writing(s), s.frames);
    }
  }

  /** A connection is lost, or the session stops: nobody waits any more. */
  lemma LossStaysOrderly(s: Session, error: ErrorCode)
    requires Distinct(s.frames) && Accounted(s.frames, s.pending, s.channels)
    requires forall w :: w in s.writes ==> w.generation <= s.generation
    ensures Orderly(FailAll(CloseConnection(s), error))
  {
    assert Writing(FailAll(CloseConnection(s), error)) == {};
  }

  /** The write that was under way is over, and the frame leaves the front of the queue. */
  lemma PopKeeps(queue: seq<Word16>, pending: map<Word16, nat>, id: Word16, frames: seq<nat>)
    requires Sending(queue, pending, {id}, frames)
    ensures Sending(PopIf(queue, id), pending, {}, frames)
  {
    if queue != [] && queue[0] == id {
      assert forall q :: q in queue ==> q == id || q in queue[1..];
      assert id !in queue[1..];
    }
  }

  lemma WrittenStaysOrderly(s: Session, w: Write, ok: bool)
    requires Valid(s) && Orderly(s) && w in s.writes
    ensures Orderly(Written(s, w, ok))
  {
    var t := s.(writes := s.writes - {w});
    if w.generation != t.generation || t.stopped {
      assert Writing(t) == Writing(s) || s.stopped;
      if s.stopped {
        assert s.pending == map[] && s.queue == [];
      }
    } else if !ok {
      LossStaysOrderly(t.(writing := false), TransportIo);
    } else {
      assert Writing(s) == {w.id} && Writing(t) == {};
      PopKeeps(s.queue, s.pending, w.id, s.frames);
      var u := t.(writing := false, queue := PopIf(t.queue, w.id));
      assert Writing(u) == {};
      FlushStaysOrderly(u);
    }
  }

  /** Reading changes nothing about frames. */
  lemma ReadStaysOrderly(s: Session, t: Session)
    requires Orderly(s) && t.queue == s.queue && t.pending == s.pending && t.frames == s.frames && t.channels == s.channels
    requires t.writes == s.writes && t.generation == s.generation
    ensures Orderly(t)
  {
    assert Writing(t) == Writing(s);
  }

  lemma ConnectedStaysOrderly(s: Session, generation: nat)
    requires Valid(s) && Orderly(s) && generation in s.connects
    ensures Orderly(Connected(s, generation))
  {
    var t := s.(connects := s.connects - {generation}, stream := Some(generation));
    if generation != t.generation || t.stopped {
      ReadStaysOrderly(s, t);
    } else {
      var u := ReadFrame(t.(connecting := false, connected := true), generation);
      ReadStaysOrderly(s, u);
      assert Writing(u) == {};
      FlushStaysOrderly(u);
    }
  }

  lemma DispatchStaysOrderly(s: Session, frame: Frame)
    requires Orderly(s) && forall w :: w in s.writes ==> w.generation <= s.generation
    ensures Orderly(Dispatch(s, frame, s.generation))
  {
    if frame.Short? {
      if !s.stopped {
        LossStaysOrderly(s, ProtocolFraming);
      }
    } else if frame.id in s.pending {
      var t := s.(pending := s.pending - {frame.id}, channels := s.channels[s.pending[frame.id] := Received(frame)]);
      assert Writing(t) == Writing(s);
      forall o | o in t.frames ensures o in t.channels || o in t.pending.Values {
        if o !in t.channels {
          var q :| q in s.pending && s.pending[q] == o;
          assert q in t.pending && t.pending[q] == o;
        }
      }
      ReadStaysOrderly(t, ReadFrame(t, s.generation));
    } else {
      ReadStaysOrderly(s, ReadFrame(s, s.generation));
    }
  }

  lemma BodyReadStaysOrderly(s: Session, generation: nat, frame: Option<Frame>)
    requires Valid(s) && Orderly(s)
    ensures Orderly(BodyRead(s, generation, frame))
  {
    var t := s.(pulls := s.pulls - {Read(generation, true)});
    ReadStaysOrderly(s, t);
    if generation == t.generation && !t.stopped {
      if frame.None? {
        LossStaysOrderly(t, TransportIo);
      } else {
        DispatchStaysOrderly(t, frame.value);
      }
    }
  }

  lemma LengthReadStaysOrderly(s: Session, generation: nat, length: Option<Word16>)
    requires Valid(s) && Orderly(s)
    ensures Orderly(LengthRead(s, generation, length))
  {
    var t := s.(pulls := s.pulls - {Read(generation, false)});
    ReadStaysOrderly(s, t);
    if generation == t.generation && !t.stopped {
      var u := t.(reading := false);
      if length.None? {
        LossStaysOrderly(u, TransportIo);
      } else if length.value == 0 {
        LossStaysOrderly(u, ProtocolFraming);
      } else {
        ReadStaysOrderly(s, u.(pulls := u.pulls + {Read(generation, true)}));
      }
    }
  }

  lemma ConnectFailedStaysOrderly(s: Session, generation: nat, error: ErrorCode)
    requires Valid(s) && Orderly(s)
    ensures Orderly(ConnectFailed(s, generation, error))
  {
    var t := s.(connects := s.connects - {generation});
    ReadStaysOrderly(s, t);
    if generation == t.generation && !t.stopped {
      LossStaysOrderly(t, error);
    }
  }

  lemma StepStaysOrderly(s: Session, e: Event)
    requires Valid(s) && Orderly(s) && Enabled(s, e) && Spares(s, e)
    ensures Orderly(Step(s, e))
  {
    match e
    case Requests(id, length, owner) => RequestStaysOrderly(s, id, length, owner);
    case Cancels(id) => FailRequestStaysOrderly(s, id, Cancelled);
    case CallsBack(call) => CallStaysOrderly(s, call);
    case Stops =>
      if !s.stopped {
        LossStaysOrderly(s.(stopped := true), Cancelled);
      }
  }

  lemma CallStaysOrderly(s: Session, call: TcpSessionSpec.Event)
    requires Valid(s) && Orderly(s) && TcpSessionSpec.Enabled(s, call)
    ensures Orderly(TcpSessionSpec.Step(s, call))
  {
    match call
    case Opened(generation) => ConnectedStaysOrderly(s, generation);
    case OpenFailed(generation, error) => ConnectFailedStaysOrderly(s, generation, error);
    case WriteDone(write, ok) => WrittenStaysOrderly(s, write, ok);
    case LengthDone(generation, length) => LengthReadStaysOrderly(s, generation, length);
    case BodyDone(generation, frame) => BodyReadStaysOrderly(s, generation, frame);
    case DeadlineFired(id) => FailRequestStaysOrderly(s, id, Timeout);
  }

  /**
   * In every run in which no ID is used again while its frame waits or is being written,
   * no frame goes out twice, and the frame of every request that waits is in the queue
   * or has gone out.
   */
  lemma {:induction false} FramesGoOutOnce(trace: seq<Session>, events: seq<Event>, n: nat)
    requires IsRun(trace, events) && n < |trace| && forall k :: 0 <= k < n ==> Spares(trace[k], events[k])
    ensures Orderly(trace[n])
    ensures Distinct(trace[n].frames)
    ensures forall q :: q in trace[n].pending ==> q in trace[n].queue || trace[n].pending[q] in trace[n].frames
    decreases n
  {
    if n > 0 {
      FramesGoOutOnce(trace, events, n - 1);
      RunsAreValid(trace, events, n - 1);
      assert Follows(trace, events, n - 1);
      StepStaysOrderly(trace[n - 1], events[n - 1]);
    }
  }

  /** A request waits, but its frame is neither in the queue nor has it ever gone out. */
  ghost predicate Forgotten(s: Session, id: Word16) {
    id in s.pending && id !in s.queue && s.pending[id] !in s.frames
  }

  /**
   * If an ID is used again while its old frame is being written, the end of that write
   * makes the session forget the new request exactly if its frame is the only one in
   * the queue: it is taken for the old one.
   */
  lemma ReusedIdIsForgotten(s: Session, id: Word16, length: nat, owner: nat)
    requires Valid(s) && Orderly(s) && owner !in s.channels && owner !in s.pending.Values
    requires id !in s.pending && 0 < length <= 0xffff && Write(s.generation, id) in s.writes
    ensures var t := Exchange(s, id, length, owner);
      && Write(s.generation, id) in t.writes
      && (Forgotten(Written(t, Write(s.generation, id), true), id) <==> s.queue == [])
  {
    var t, w := Exchange(s, id, length, owner), Write(s.generation, id);
    assert t == s.(pending := s.pending[id := owner], queue := s.queue + [id]);
    var queue := PopIf(s.queue + [id], id);
    var u := t.(writes := t.writes - {w}, writing := false, queue := queue);
    assert Written(t, w, true) == FlushWrites(u, u.generation);
    assert owner !in s.frames;
    if s.queue != [] {
      assert queue[|queue| - 1] == id;
      DropDeadKeeps(queue, t.pending);
    }
  }

  /** Connected, with a request being written and another one in the queue. */
  function Halfway(): Session {
    Initial().(pending := map[5 := 0, 6 := 1], queue := [5, 6], connected := true, stream := Some(0), reading := true, pulls := {Read(0, false)},
               writing := true, writes := {Write(0, 5)}, frames := [0])
  }

  lemma LeadsHalfway() returns (trace: seq<Session>, events: seq<Event>)
    ensures Segment(trace, events) && trace[0] == Initial() && trace[|events|] == Halfway()
  {
    events := [Requests(5, 20, 0), CallsBack(Opened(0)), Requests(6, 20, 1)];
    var s := Initial().(pending := map[5 := 0], queue := [5], connecting := true, connects := {0});
    assert Step(Initial(), events[0]) == s;
    var t := s.(connects := {}, connecting := false, connected := true, stream := Some(0), reading := true, pulls := {Read(0, false)},
                writing := true, writes := {Write(0, 5)}, frames := [0]);
    assert Step(s, events[1]) == t;
    trace := [Initial(), s, t, Halfway()];
  }

  /** The second request is answered although it was never sent, and its ID is used again. */
  function Doubled(body: seq<Octet>): Session {
    Halfway().(pending := map[5 := 0, 6 := 2], queue := [5, 6, 6], channels := map[1 := Received(Frame(6, body))])
  }

  lemma LeadsToDoubled(body: seq<Octet>) returns (trace: seq<Session>, events: seq<Event>)
    ensures Segment(trace, events) && trace[0] == Halfway() && trace[|events|] == Doubled(body)
  {
    events := [CallsBack(LengthDone(0, Some(20))), CallsBack(BodyDone(0, Some(Frame(6, body)))), Requests(6, 20, 2)];
    var s := Halfway().(reading := false, pulls := {Read(0, true)});
    assert Step(Halfway(), events[0]) == s;
    var t := Halfway().(pending := map[5 := 0], channels := map[1 := Received(Frame(6, body))]);
    assert Step(s, events[1]) == t;
    trace := [Halfway(), s, t, Doubled(body)];
  }

  lemma DoubledGoesOut(body: seq<Octet>) returns (trace: seq<Session>, events: seq<Event>)
    ensures Segment(trace, events) && trace[0] == Doubled(body) && trace[|events|].frames == [0, 2, 2]
  {
    events := [CallsBack(WriteDone(Write(0, 5), true)), CallsBack(WriteDone(Write(0, 6), true))];
    var s := Doubled(body).(queue := [6, 6], writes := {Write(0, 6)}, frames := [0, 2]);
    assert Step(Doubled(body), events[0]) == s;
    var t := s.(queue := [6], frames := [0, 2, 2]);
    assert Step(s, events[1]) == t;
    trace := [Doubled(body), s, t];
  }

  lemma Joined(a: seq<Session>, first: seq<Event>, b: seq<Session>, second: seq<Event>)
    requires Segment(a, first) && Segment(b, second) && a[|first|] == b[0]
    ensures Segment(a[..|first|] + b, first + second)
  {
    var trace, events := a[..|first|] + b, first + second;
    forall n | 0 <= n < |events| ensures Follows(trace, events, n) {
      if n < |first| {
        assert Follows(a, first, n) && trace[n + 1] == a[n + 1];
      } else {
        assert Follows(b, second, n - |first|);
      }
    }
  }

  /**
   * A response that comes before its query was sent leaves the query's ID in the queue.
   * Used again, the ID stands there twice, and the new frame goes out twice: in this run
   * that of request 2.
   */
  lemma SendsTwice(body: seq<Octet>) returns (trace: seq<Session>, events: seq<Event>)
    ensures IsRun(trace, events) && trace[|events|].frames == [0, 2, 2]
  {
    var a, first := LeadsHalfway();
    var b, second := LeadsToDoubled(body);
    var c, third := DoubledGoesOut(body);
    Joined(b, second, c, third);
    Joined(a, first, b[..|second|] + c, second + third);
    trace, events := a[..|first|] + (b[..|second|] + c), first + (second + third);
  }
}
