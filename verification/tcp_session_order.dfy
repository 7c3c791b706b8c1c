/** The order in which a TCP session sends its frames: that of the requests. */
module TcpSessionOrder {
  import opened Core
  import opened TcpSessionSpec
  import opened Runs = TcpSessionRuns

  /** When each operation made its request: the number of the event. */
  function Rank(events: seq<Runs.Event>): (r: map<nat, nat>)
    ensures forall o :: o in r ==> r[o] < |events| && events[r[o]].Requests? && events[r[o]].owner == o
  {
    if events == [] then map[]
    else
      var k := |events| - 1;
      var before := Rank(events[..k]);
      if events[k].Requests? then before[events[k].owner := k] else before
  }

  predicate Known(rank: map<nat, nat>, frames: seq<nat>, pending: map<Word16, nat>) {
    (forall f :: f in frames ==> f in rank) && (forall q :: q in pending ==> pending[q] in rank)
  }

  /** The requests of the queue that still wait are in the order in which they were made. */
  predicate Sorted(rank: map<nat, nat>, queue: seq<Word16>, pending: map<Word16, nat>)
    requires forall q :: q in pending ==> pending[q] in rank
  {
    forall i, j :: 0 <= i < j < |queue| && queue[i] in pending && queue[j] in pending ==> rank[pending[queue[i]]] < rank[pending[queue[j]]]
  }

  /** Frames have gone out in order, and those that wait in the queue come after them, in order. */
  predicate InTurn(rank: map<nat, nat>, queue: seq<Word16>, pending: map<Word16, nat>, frames: seq<nat>) {
    && Known(rank, frames, pending) && Sorted(rank, queue, pending)
    && (forall i, j :: 0 <= i < j < |frames| ==> rank[frames[i]] < rank[frames[j]])
    && (forall f, q :: f in frames && q in queue && q in pending && pending[q] !in frames ==> rank[f] < rank[pending[q]])
  }

  ghost predicate SessionInTurn(rank: map<nat, nat>, s: Session) {
    InTurn(rank, s.queue, s.pending, s.frames)
  }

  // ----- What can happen to a queue

  /** Requests leave; those that stay keep their order. */
  lemma LeaveInTurn(rank: map<nat, nat>, queue: seq<Word16>, pending: map<Word16, nat>, frames: seq<nat>, left: seq<Word16>, waiting: map<Word16, nat>)
    requires InTurn(rank, queue, pending, frames) && Sorted(rank, left, pending)
    requires (forall q :: q in left ==> q in queue) && forall q :: q in waiting ==> q in pending && waiting[q] == pending[q]
    ensures InTurn(rank, left, waiting, frames)
  {
  }

  lemma {:induction false} DropDeadSorted(rank: map<nat, nat>, queue: seq<Word16>, pending: map<Word16, nat>)
    requires (forall q :: q in pending ==> pending[q] in rank) && Sorted(rank, queue, pending)
    ensures Sorted(rank, DropDead(queue, pending), pending)
  {
    if queue != [] && queue[0] !in pending {
      TailSorted(rank, queue, pending);
      DropDeadSorted(rank, queue[1..], pending);
    }
  }

  lemma TailSorted(rank: map<nat, nat>, queue: seq<Word16>, pending: map<Word16, nat>)
    requires (forall q :: q in pending ==> pending[q] in rank) && Sorted(rank, queue, pending) && queue != []
    ensures Sorted(rank, queue[1..], pending)
  {
    assert forall i :: 0 <= i < |queue| - 1 ==> queue[1..][i] == queue[i + 1];
  }

  lemma {:induction false} WithoutSorted(rank: map<nat, nat>, queue: seq<Word16>, id: Word16, pending: map<Word16, nat>)
    requires (forall q :: q in pending ==> pending[q] in rank) && Sorted(rank, queue, pending)
    ensures Sorted(rank, Without(queue, id), pending)
  {
    if queue != [] {
      var rest := Without(queue[1..], id);
      TailSorted(rank, queue, pending);
      WithoutSorted(rank, queue[1..], id, pending);
      HeadComesFirst(rank, queue, pending);
      assert forall q :: q in rest ==> q in queue[1..];
      HeadSorted(rank, queue[0], rest, pending);
      assert [] + rest == rest;
    }
  }

  predicate IsFirst(rank: map<nat, nat>, head: Word16, rest: seq<Word16>, pending: map<Word16, nat>)
    requires forall q :: q in pending ==> pending[q] in rank
  {
    head in pending ==> forall q :: q in rest && q in pending ==> rank[pending[head]] < rank[pending[q]]
  }

  lemma HeadComesFirst(rank: map<nat, nat>, queue: seq<Word16>, pending: map<Word16, nat>)
    requires (forall q :: q in pending ==> pending[q] in rank) && Sorted(rank, queue, pending) && queue != []
    ensures IsFirst(rank, queue[0], queue[1..], pending)
  {
    forall q | q in queue[1..] && q in pending && queue[0] in pending ensures rank[pending[queue[0]]] < rank[pending[q]] {
      var i :| 0 <= i < |queue[1..]| && queue[1..][i] == q;
      assert queue[i + 1] == q;
    }
  }

  lemma HeadSorted(rank: map<nat, nat>, head: Word16, rest: seq<Word16>, pending: map<Word16, nat>)
    requires (forall q :: q in pending ==> pending[q] in rank) && Sorted(rank, rest, pending) && IsFirst(rank, head, rest, pending)
    ensures Sorted(rank, [head] + rest, pending)
  {
    assert forall i :: 0 <= i < |rest| ==> ([head] + rest)[i + 1] == rest[i] && rest[i] in rest;
  }

  /** The first of the queue goes out. */
  lemma SendInTurn(rank: map<nat, nat>, queue: seq<Word16>, pending: map<Word16, nat>, frames: seq<nat>)
    requires InTurn(rank, queue, pending, frames) && queue != [] && queue[0] in pending && pending[queue[0]] !in frames
    ensures InTurn(rank, queue, pending, frames + [pending[queue[0]]])
  {
    var o := pending[queue[0]];
    assert queue[0] in queue;
    assert forall i :: 0 <= i < |frames| ==> frames[i] in frames;
    forall q | q in queue && q in pending && pending[q] !in frames + [o] ensures rank[o] < rank[pending[q]] {
      var i :| 0 <= i < |queue| && queue[i] == q;
      assert pending[q] != o ==> i > 0;
      assert o in frames + [o];
    }
  }

  /** A new request joins the queue. */
  lemma JoinInTurn(rank: map<nat, nat>, queue: seq<Word16>, pending: map<Word16, nat>, frames: seq<nat>, id: Word16, owner: nat, k: nat)
    requires InTurn(rank, queue, pending, frames) && id !in queue && id !in pending && owner !in frames
    requires (forall q :: q in pending ==> pending[q] != owner) && forall o :: o in rank ==> rank[o] < k
    ensures InTurn(rank[owner := k], queue + [id], pending[id := owner], frames)
  {
    assert forall i :: 0 <= i < |queue| ==> queue[i] in queue;
    assert forall i :: 0 <= i < |frames| ==> frames[i] in frames;
  }

  // ----- The steps of the session

  lemma FlushInTurn(rank: map<nat, nat>, s: Session)
    requires Orderly(s) && SessionInTurn(rank, s) && (s.connected && !s.writing ==> Writing(s) == {})
    ensures SessionInTurn(rank, FlushWrites(s, s.generation))
  {
    if !s.stopped && s.connected && !s.writing {
      var queue := DropDead(s.queue, s.pending);
      DropDeadSorted(rank, s.queue, s.pending);
      LeaveInTurn(rank, s.queue, s.pending, s.frames, queue, s.pending);
      if queue != [] {
        assert queue[0] in s.queue;
        SendInTurn(rank, queue, s.pending, s.frames);
      }
    }
  }

  lemma LossInTurn(rank: map<nat, nat>, s: Session, error: ErrorCode)
    requires SessionInTurn(rank, s)
    ensures SessionInTurn(rank, FailAll(CloseConnection(s), error))
  {
    LeaveInTurn(rank, s.queue, s.pending, s.frames, [], map[]);
  }

  lemma FailRequestInTurn(rank: map<nat, nat>, s: Session, id: Word16, error: ErrorCode)
    requires SessionInTurn(rank, s)
    ensures SessionInTurn(rank, FailRequest(s, id, error))
  {
    WithoutSorted(rank, s.queue, id, s.pending);
    LeaveInTurn(rank, s.queue, s.pending, s.frames, Without(s.queue, id), s.pending - {id});
  }

  lemma WrittenInTurn(rank: map<nat, nat>, s: Session, w: Write, ok: bool)
    requires Valid(s) && Orderly(s) && w in s.writes && SessionInTurn(rank, s)
    ensures SessionInTurn(rank, Written(s, w, ok))
  {
    var t := s.(writes := s.writes - {w});
    if w.generation == t.generation && !t.stopped {
      if !ok {
        LossInTurn(rank, t.(writing := false), TransportIo);
      } else {
        var u := t.(writing := false, queue := PopIf(t.queue, w.id));
        assert Writing(s) == {w.id} && Writing(u) == {};
        PopKeeps(s.queue, s.pending, w.id, s.frames);
        PoppedInTurn(rank, s, w.id);
        FlushInTurn(rank, u);
      }
    }
  }

  lemma PoppedInTurn(rank: map<nat, nat>, s: Session, id: Word16)
    requires SessionInTurn(rank, s)
    ensures InTurn(rank, PopIf(s.queue, id), s.pending, s.frames)
  {
    if s.queue != [] && s.queue[0] == id {
      TailSorted(rank, s.queue, s.pending);
      LeaveInTurn(rank, s.queue, s.pending, s.frames, s.queue[1..], s.pending);
    }
  }

  lemma ConnectedInTurn(rank: map<nat, nat>, s: Session, generation: nat)
    requires Valid(s) && Orderly(s) && generation in s.connects && SessionInTurn(rank, s)
    ensures SessionInTurn(rank, Connected(s, generation))
  {
    var t := s.(connects := s.connects - {generation}, stream := Some(generation));
    if generation == t.generation && !t.stopped {
      var u := ReadFrame(t.(connecting := false, connected := true), generation);
      ReadStaysOrderly(s, u);
      assert Writing(u) == {};
      FlushInTurn(rank, u);
    }
  }

  lemma LengthInTurn(rank: map<nat, nat>, s: Session, generation: nat, length: Option<Word16>)
    requires SessionInTurn(rank, s)
    ensures SessionInTurn(rank, LengthRead(s, generation, length))
  {
    var t := s.(pulls := s.pulls - {Read(generation, false)}, reading := false);
    LossInTurn(rank, t, TransportIo);
    LossInTurn(rank, t, ProtocolFraming);
  }

  lemma BodyInTurn(rank: map<nat, nat>, s: Session, generation: nat, frame: Option<Frame>)
    requires SessionInTurn(rank, s)
    ensures SessionInTurn(rank, BodyRead(s, generation, frame))
  {
    var t := s.(pulls := s.pulls - {Read(generation, true)});
    if generation == t.generation && !t.stopped {
      if frame.None? {
        LossInTurn(rank, t, TransportIo);
      } else if frame.value.Short? {
        LossInTurn(rank, t, ProtocolFraming);
      } else {
        LeaveInTurn(rank, s.queue, s.pending, s.frames, s.queue, s.pending - {frame.value.id});
      }
    }
  }

  lemma CallInTurn(rank: map<nat, nat>, s: Session, call: TcpSessionSpec.Event)
    requires Valid(s) && Orderly(s) && TcpSessionSpec.Enabled(s, call) && SessionInTurn(rank, s)
    ensures SessionInTurn(rank, TcpSessionSpec.Step(s, call))
  {
    match call
    case Opened(generation) => ConnectedInTurn(rank, s, generation);
    case OpenFailed(generation, error) => LossInTurn(rank, s.(connects := s.connects - {generation}), error);
    case WriteDone(write, ok) => WrittenInTurn(rank, s, write, ok);
    case LengthDone(generation, length) => LengthInTurn(rank, s, generation, length);
    case BodyDone(generation, frame) => BodyInTurn(rank, s, generation, frame);
    case DeadlineFired(id) => FailRequestInTurn(rank, s, id, Timeout);
  }

  lemma RequestInTurn(rank: map<nat, nat>, s: Session, id: Word16, length: nat, owner: nat, k: nat)
    requires Valid(s) && Orderly(s) && owner !in s.channels && owner !in s.pending.Values && !StillUsed(s, id)
    requires SessionInTurn(rank, s) && forall o :: o in rank ==> rank[o] < k
    ensures SessionInTurn(rank[owner := k], Exchange(s, id, length, owner))
  {
    assert owner !in s.frames;
    assert forall q :: q in s.pending ==> s.pending[q] in s.pending.Values;
    if !s.stopped && 0 < length <= 0xffff && id !in s.pending {
      JoinKeeps(s.queue, s.pending, Writing(s), s.frames, id, owner);
      JoinAccounted(s.frames, s.pending, s.channels, id, owner);
      JoinInTurn(rank, s.queue, s.pending, s.frames, id, owner, k);
      var t := ConnectIfNeeded(s.(pending := s.pending[id := owner], queue := s.queue + [id]));
      assert Writing(t) == Writing(s);
      FlushInTurn(rank[owner := k], t);
    } else {
      NewcomerInTurn(rank, s.queue, s.pending, s.frames, owner, k);
    }
  }

  lemma NewcomerInTurn(rank: map<nat, nat>, queue: seq<Word16>, pending: map<Word16, nat>, frames: seq<nat>, owner: nat, k: nat)
    requires InTurn(rank, queue, pending, frames) && owner !in frames && forall q :: q in pending ==> pending[q] != owner
    ensures InTurn(rank[owner := k], queue, pending, frames)
  {
    assert forall i :: 0 <= i < |frames| ==> frames[i] in frames;
  }

  lemma {:induction false} RunInTurn(trace: seq<Session>, events: seq<Runs.Event>, n: nat)
    requires IsRun(trace, events) && n < |trace| && forall k :: 0 <= k < n ==> Spares(trace[k], events[k])
    ensures SessionInTurn(Rank(events[..n]), trace[n])
    decreases n
  {
    if n > 0 {
      var s, e, rank := trace[n - 1], events[n - 1], Rank(events[..n - 1]);
      RunInTurn(trace, events, n - 1);
      FramesGoOutOnce(trace, events, n - 1);
      RunsAreValid(trace, events, n - 1);
      assert Follows(trace, events, n - 1);
      assert events[..n][..n - 1] == events[..n - 1];
      match e
      case Requests(id, length, owner) => RequestInTurn(rank, s, id, length, owner, n - 1);
      case Cancels(id) => FailRequestInTurn(rank, s, id, Cancelled);
      case CallsBack(call) => CallInTurn(rank, s, call);
      case Stops => LossInTurn(rank, s.(stopped := true), Cancelled);
    }
  }

  /**
   * In every run in which no ID is used again while its frame waits or is being written,
   * frames go out in the order of their requests; and of the requests that wait, none
   * whose frame has not gone out was made before one whose frame has.
   */
  lemma FramesGoOutInTurn(trace: seq<Session>, events: seq<Runs.Event>, n: nat, i: nat, j: nat) returns (a: nat, b: nat)
    requires IsRun(trace, events) && n < |trace| && forall k :: 0 <= k < n ==> Spares(trace[k], events[k])
    requires i < j < |trace[n].frames|
    ensures a < b < n && events[a].Requests? && events[b].Requests?
    ensures events[a].owner == trace[n].frames[i] && events[b].owner == trace[n].frames[j]
  {
    RunInTurn(trace, events, n);
    var rank, frames := Rank(events[..n]), trace[n].frames;
    assert frames[i] in frames && frames[j] in frames;
    a, b := rank[frames[i]], rank[frames[j]];
  }

  lemma NobodyIsOvertaken(trace: seq<Session>, events: seq<Runs.Event>, n: nat, q: Word16, f: nat) returns (a: nat, b: nat)
    requires IsRun(trace, events) && n < |trace| && forall k :: 0 <= k < n ==> Spares(trace[k], events[k])
    requires q in trace[n].pending && trace[n].pending[q] !in trace[n].frames && f in trace[n].frames
    ensures a < b < n && events[a].Requests? && events[b].Requests?
    ensures events[a].owner == f && events[b].owner == trace[n].pending[q]
  {
    RunInTurn(trace, events, n);
    FramesGoOutOnce(trace, events, n);
    var rank := Rank(events[..n]);
    a, b := rank[f], rank[trace[n].pending[q]];
  }
}
