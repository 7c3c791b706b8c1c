/** Which frames the DNS-over-TLS session sends, and in which order: every request's once, in the order of the requests. */
module DotSessionFrames {
  import opened Core
  import TcpSessionSpec
  import opened DotSessionSpec
  import Frames = TcpSessionRuns
  import Order = TcpSessionOrder

  /** The IDs whose frames are being written on the running connection. */
  function Writing(s: DotSession): set<Word16> {
    set w | w in s.writes && w.generation == s.generation :: w.id
  }

  /** The frame of an earlier request under this ID waits in the queue, or is being written. */
  predicate StillUsed(s: DotSession, id: Word16) {
    id in s.queue || TcpSessionSpec.Write(s.generation, id) in s.writes
  }

  /** No request is made under an ID that is still used. */
  predicate Spares(s: DotSession, e: Event) {
    e.Asks? ==> !StillUsed(s, e.id)
  }

  /** Frames as in the plain session, in the order of the requests, and only of operations that have asked. */
  ghost predicate Orderly(rank: map<nat, nat>, s: DotSession) {
    && Frames.Sending(s.queue, s.pending, Writing(s), s.frames)
    && Order.InTurn(rank, s.queue, s.pending, s.frames)
    && (forall o :: o in s.frames ==> o in s.told)
  }

  /** When each operation made its request: the number of the event. */
  function Rank(events: seq<Event>): (r: map<nat, nat>)
    ensures forall o :: o in r ==> r[o] < |events| && events[r[o]].Asks? && events[r[o]].owner == o
  {
    if events == [] then map[]
    else
      var k := |events| - 1;
      var before := Rank(events[..k]);
      if events[k].Asks? then before[events[k].owner := k] else before
  }

  // ----- The loops

  /** The parts of the invariant that a step on queue and writes is about. */
  ghost predicate Lined(rank: map<nat, nat>, queue: seq<Word16>, pending: map<Word16, nat>, writing: set<Word16>, frames: seq<nat>) {
    Frames.Sending(queue, pending, writing, frames) && Order.InTurn(rank, queue, pending, frames)
  }

  lemma DropDeadLined(rank: map<nat, nat>, queue: seq<Word16>, pending: map<Word16, nat>, frames: seq<nat>)
    requires Lined(rank, queue, pending, {}, frames)
    ensures Lined(rank, TcpSessionSpec.DropDead(queue, pending), pending, {}, frames)
  {
    Frames.DropDeadKeeps(queue, pending);
    Order.DropDeadSorted(rank, queue, pending);
    Order.LeaveInTurn(rank, queue, pending, frames, TcpSessionSpec.DropDead(queue, pending), pending);
  }

  lemma NextLined(rank: map<nat, nat>, queue: seq<Word16>, pending: map<Word16, nat>, frames: seq<nat>)
    requires Lined(rank, queue, pending, {}, frames) && queue != [] && queue[0] in pending
    requires forall p, q :: p in pending && q in pending && pending[p] == pending[q] ==> p == q
    ensures Lined(rank, queue, pending, {queue[0]}, frames + [pending[queue[0]]]) && pending[queue[0]] !in frames
  {
    assert queue[0] in queue;
    Frames.NextFrame(queue, pending, frames);
    Order.SendInTurn(rank, queue, pending, frames);
  }

  lemma WriteOnStaysOrderly(rank: map<nat, nat>, s: DotSession)
    requires Orderly(rank, s) && Told(s.told, s.pending) && Writing(s) == {}
    ensures Orderly(rank, WriteOn(s, s.generation))
  {
    var t := WriteOn(s, s.generation);
    if Runs(s, s.generation) {
      DropDeadLined(rank, s.queue, s.pending, s.frames);
      var queue := TcpSessionSpec.DropDead(s.queue, s.pending);
      if queue == [] {
        assert Writing(t) == {};
      } else {
        NextLined(rank, queue, s.pending, s.frames);
        assert Writing(t) == {queue[0]};
      }
    } else {
      assert Writing(t) == {};
    }
  }

  lemma EnsureStaysOrderly(rank: map<nat, nat>, s: DotSession)
    requires Orderly(rank, s) && Told(s.told, s.pending) && (!s.writing ==> Writing(s) == {})
    ensures Orderly(rank, EnsureWriting(s, s.generation))
  {
    if Runs(s, s.generation) && !s.writing {
      var t := s.(writing := true);
      assert Writing(t) == Writing(s);
      WriteOnStaysOrderly(rank, t);
    }
  }

  /** Nobody waits any more, and the connection is gone. */
  lemma EverybodyLeaves(rank: map<nat, nat>, s: DotSession, error: ErrorCode)
    requires Orderly(rank, s) && forall w :: w in s.writes ==> w.generation <= s.generation
    ensures Orderly(rank, TellEverybody(Close(s), error))
  {
    var t := TellEverybody(Close(s), error);
    assert Writing(t) == {};
    Order.LeaveInTurn(rank, s.queue, s.pending, s.frames, [], map[]);
  }

  /** Nothing has changed for the frames. */
  lemma SameFrames(rank: map<nat, nat>, s: DotSession, t: DotSession)
    requires Orderly(rank, s) && t.queue == s.queue && t.pending == s.pending && t.frames == s.frames && t.told.Keys == s.told.Keys
    requires t.generation == s.generation && forall w: TcpSessionSpec.Write :: w.generation == s.generation ==> (w in t.writes <==> w in s.writes)
    ensures Orderly(rank, t)
  {
    assert Writing(t) == Writing(s);
  }

  // ----- The steps

  lemma AskStaysOrderly(rank: map<nat, nat>, s: DotSession, id: Word16, size: nat, owner: nat, k: nat)
    requires Valid(s) && Orderly(rank, s) && owner !in s.told && !StillUsed(s, id) && forall o :: o in rank ==> rank[o] < k
    ensures Orderly(rank[owner := k], Ask(s, id, size, owner))
  {
    assert owner !in s.frames && forall q :: q in s.pending ==> s.pending[q] != owner;
    if s.stopped || s.retired || size == 0 || size > 0xffff || id in s.pending {
      Order.NewcomerInTurn(rank, s.queue, s.pending, s.frames, owner, k);
      assert Writing(Ask(s, id, size, owner)) == Writing(s);
    } else {
      Frames.JoinKeeps(s.queue, s.pending, Writing(s), s.frames, id, owner);
      Order.JoinInTurn(rank, s.queue, s.pending, s.frames, id, owner, k);
      var t := Connect(s.(pending := s.pending[id := owner], queue := s.queue + [id], told := s.told[owner := []]));
      assert Writing(t) == Writing(s);
      AskTold(s.told, s.pending, id, owner);
      EnsureStaysOrderly(rank[owner := k], t);
    }
  }

  lemma WithoutLined(rank: map<nat, nat>, queue: seq<Word16>, pending: map<Word16, nat>, writing: set<Word16>, frames: seq<nat>, id: Word16)
    requires Lined(rank, queue, pending, writing, frames)
    ensures Lined(rank, TcpSessionSpec.Without(queue, id), pending - {id}, writing, frames)
  {
    Frames.WithoutIsDistinct(queue, id);
    Order.WithoutSorted(rank, queue, id, pending);
    Order.LeaveInTurn(rank, queue, pending, frames, TcpSessionSpec.Without(queue, id), pending - {id});
  }

  lemma DropStaysOrderly(rank: map<nat, nat>, s: DotSession, id: Word16, error: ErrorCode)
    requires Valid(s) && Orderly(rank, s)
    ensures Orderly(rank, Drop(s, id, error))
  {
    if id in s.pending {
      WithoutLined(rank, s.queue, s.pending, Writing(s), s.frames, id);
      var t := s.(pending := s.pending - {id}, queue := TcpSessionSpec.Without(s.queue, id), told := Tell(s.told, s.pending[id], TcpSessionSpec.Lost(error)));
      assert Writing(t) == Writing(s);
      if t.pending == map[] && t.connecting {
        assert Writing(Close(t.(retired := true))) == {};
        assert Writing(s) == {};
      }
    }
  }

  lemma LoseStaysOrderly(rank: map<nat, nat>, s: DotSession, error: ErrorCode, generation: nat)
    requires Orderly(rank, s) && forall w :: w in s.writes ==> w.generation <= s.generation
    ensures Orderly(rank, Lose(s, error, generation))
  {
    var t := s.(retired := true);
    assert Writing(t) == Writing(s);
    EverybodyLeaves(rank, t, error);
  }

  lemma LinkStaysOrderly(rank: map<nat, nat>, s: DotSession, generation: nat, failure: Option<ErrorCode>)
    requires Valid(s) && Orderly(rank, s)
    ensures Orderly(rank, Dialed(s, generation, failure))
    ensures generation in s.handshakes ==> Orderly(rank, Secured(s, generation, failure))
  {
    var t, u := s.(dials := s.dials - {generation}), s.(handshakes := s.handshakes - {generation});
    SameFrames(rank, s, t);
    SameFrames(rank, s, u);
    if failure.Some? {
      LoseStaysOrderly(rank, t, failure.value, generation);
      LoseStaysOrderly(rank, u, failure.value, generation);
    } else if generation in s.handshakes && generation == s.generation && !s.stopped {
      var v := ReadOn(u.(connecting := false, connected := true), generation);
      SameFrames(rank, s, v);
      assert Writing(v) == {};
      EnsureStaysOrderly(rank, v);
    }
  }

  lemma PopLined(rank: map<nat, nat>, queue: seq<Word16>, pending: map<Word16, nat>, id: Word16, frames: seq<nat>)
    requires Lined(rank, queue, pending, {id}, frames)
    ensures Lined(rank, TcpSessionSpec.PopIf(queue, id), pending, {}, frames)
  {
    Frames.PopKeeps(queue, pending, id, frames);
    if queue != [] && queue[0] == id {
      Order.TailSorted(rank, queue, pending);
      Order.LeaveInTurn(rank, queue, pending, frames, queue[1..], pending);
    }
  }

  lemma WrittenStaysOrderly(rank: map<nat, nat>, s: DotSession, w: TcpSessionSpec.Write, ok: bool)
    requires Valid(s) && Orderly(rank, s) && w in s.writes
    ensures Orderly(rank, FrameWritten(s, w, ok))
  {
    var t := s.(writes := s.writes - {w});
    if w.generation != s.generation {
      SameFrames(rank, s, t);
      assert s.retired && s.queue == [];
      SameFrames(rank, s, t.(writing := false));
    } else if !ok {
      assert Writing(t.(writing := false)) == {} && Writing(s) == {w.id};
      LostWrite(rank, t.(writing := false), w);
    } else {
      var u := t.(queue := TcpSessionSpec.PopIf(t.queue, w.id));
      assert Writing(s) == {w.id} && Writing(u) == {};
      PopLined(rank, s.queue, s.pending, w.id, s.frames);
      WriteOnStaysOrderly(rank, u);
    }
  }

  lemma LostWrite(rank: map<nat, nat>, s: DotSession, w: TcpSessionSpec.Write)
    requires Order.InTurn(rank, s.queue, s.pending, s.frames) && Distinct(s.frames) && (forall o :: o in s.frames ==> o in s.told)
    requires w.generation == s.generation && !s.stopped && forall v :: v in s.writes ==> v.generation <= s.generation
    ensures Orderly(rank, Lose(s, TransportIo, w.generation))
  {
    assert Writing(Lose(s, TransportIo, w.generation)) == {};
    Order.LeaveInTurn(rank, s.queue, s.pending, s.frames, [], map[]);
  }

  lemma LengthStaysOrderly(rank: map<nat, nat>, s: DotSession, generation: nat, length: Option<Word16>)
    requires Valid(s) && Orderly(rank, s)
    ensures Orderly(rank, LengthArrived(s, generation, length))
  {
    var t := s.(pulls := s.pulls - {TcpSessionSpec.Read(generation, false)});
    SameFrames(rank, s, t);
    LoseStaysOrderly(rank, t, TransportIo, generation);
    LoseStaysOrderly(rank, t, ProtocolFraming, generation);
    SameFrames(rank, s, t.(pulls := t.pulls + {TcpSessionSpec.Read(generation, true)}));
  }

  lemma BodyStaysOrderly(rank: map<nat, nat>, s: DotSession, generation: nat, frame: Option<TcpSessionSpec.Frame>)
    requires Valid(s) && Orderly(rank, s)
    ensures Orderly(rank, BodyArrived(s, generation, frame))
  {
    var t := s.(pulls := s.pulls - {TcpSessionSpec.Read(generation, true)});
    SameFrames(rank, s, t);
    if frame.None? {
      LoseStaysOrderly(rank, t, TransportIo, generation);
    } else {
      AnswerStaysOrderly(rank, t, frame.value, generation);
      SameFrames(rank, Answer(t, frame.value, generation), ReadOn(Answer(t, frame.value, generation), generation));
    }
  }

  lemma AnswerStaysOrderly(rank: map<nat, nat>, s: DotSession, frame: TcpSessionSpec.Frame, generation: nat)
    requires Orderly(rank, s) && forall w :: w in s.writes ==> w.generation <= s.generation
    ensures Orderly(rank, Answer(s, frame, generation))
  {
    if frame.Short? {
      LoseStaysOrderly(rank, s, ProtocolFraming, generation);
    } else if frame.id in s.pending {
      Order.LeaveInTurn(rank, s.queue, s.pending, s.frames, s.queue, s.pending - {frame.id});
      assert Writing(Answer(s, frame, generation)) == Writing(s);
    }
  }

  lemma StepStaysOrderly(rank: map<nat, nat>, s: DotSession, e: Event)
    requires Valid(s) && Enabled(s, e) && Orderly(rank, s) && !e.Asks?
    ensures Orderly(rank, Step(s, e))
  {
    match e
    case Leaves(id, error) => DropStaysOrderly(rank, s, id, error);
    case DialEnds(generation, failure) => LinkStaysOrderly(rank, s, generation, failure);
    case HandshakeEnds(generation, failure) => LinkStaysOrderly(rank, s, generation, failure);
    case WriteEnds(write, ok) => WrittenStaysOrderly(rank, s, write, ok);
    case LengthEnds(generation, length) => LengthStaysOrderly(rank, s, generation, length);
    case BodyEnds(generation, frame) => BodyStaysOrderly(rank, s, generation, frame);
    case Stops =>
      var t := s.(retired := true, stopped := true);
      assert Writing(t) == Writing(s);
      EverybodyLeaves(rank, t, Cancelled);
  }

  lemma {:induction false} RunsAreOrderly(trace: seq<DotSession>, events: seq<Event>, n: nat)
    requires IsRun(trace, events) && n < |trace| && forall k :: 0 <= k < n ==> Spares(trace[k], events[k])
    ensures Orderly(Rank(events[..n]), trace[n])
    decreases n
  {
    if n > 0 {
      var s, e, rank := trace[n - 1], events[n - 1], Rank(events[..n - 1]);
      RunsAreOrderly(trace, events, n - 1);
      RunsAreValid(trace, events, n - 1);
      assert Follows(trace, events, n - 1);
      assert events[..n][..n - 1] == events[..n - 1];
      if e.Asks? {
        AskStaysOrderly(rank, s, e.id, e.size, e.owner, n - 1);
      } else {
        StepStaysOrderly(rank, s, e);
      }
    } else {
      assert Writing(trace[0]) == {};
    }
  }

  /**
   * In every run in which no ID is used again while its frame waits or is being written,
   * no frame goes out twice, and whoever waits stands in the queue or its frame has gone out.
   */
  lemma FramesGoOutOnce(trace: seq<DotSession>, events: seq<Event>, n: nat)
    requires IsRun(trace, events) && n < |trace| && forall k :: 0 <= k < n ==> Spares(trace[k], events[k])
    ensures Distinct(trace[n].frames)
    ensures forall q :: q in trace[n].pending ==> q in trace[n].queue || trace[n].pending[q] in trace[n].frames
  {
    RunsAreOrderly(trace, events, n);
  }

  /** In such a run, frames go out in the order of their requests. */
  lemma FramesGoOutInTurn(trace: seq<DotSession>, events: seq<Event>, n: nat, i: nat, j: nat) returns (a: nat, b: nat)
    requires IsRun(trace, events) && n < |trace| && forall k :: 0 <= k < n ==> Spares(trace[k], events[k])
    requires i < j < |trace[n].frames|
    ensures a < b < n && events[a].Asks? && events[b].Asks?
    ensures events[a].owner == trace[n].frames[i] && events[b].owner == trace[n].frames[j]
  {
    RunsAreOrderly(trace, events, n);
    var rank, frames := Rank(events[..n]), trace[n].frames;
    assert frames[i] in frames && frames[j] in frames;
    a, b := rank[frames[i]], rank[frames[j]];
  }
}
