/**
 * How often a frame is sent by a TCP session whose IDs are used again too early: once for
 * every entry of the ID that the writing reaches while the request waits.
 */
module TcpSessionCopies {
  import opened Core
  import opened TcpSessionSpec
  import opened Runs = TcpSessionRuns

  /** How often the frame of `owner` has gone out. */
  function Copies(s: Session, owner: nat): nat {
    multiset(s.frames)[owner]
  }

  function Entries(queue: seq<Word16>, id: Word16): nat {
    multiset(queue)[id]
  }

  /** The entry of this ID at the front of the queue goes when the write under way ends. */
  predicate Leaving(s: Session, id: Word16) {
    Write(s.generation, id) in s.writes && s.queue != [] && s.queue[0] == id
  }

  /** The entries of this ID that have not been written yet. */
  function Due(s: Session, id: Word16): nat {
    Entries(s.queue, id) - (if Leaving(s, id) then 1 else 0)
  }

  /** If something is being written under this ID, it is the entry at the front. */
  predicate Settled(s: Session, id: Word16) {
    Write(s.generation, id) in s.writes ==> Leaving(s, id)
  }

  predicate Waits(s: Session, id: Word16, owner: nat) {
    id in s.pending && s.pending[id] == owner
  }

  /** Copies that have gone out, and entries that are still due, do not become more, and not fewer if all is settled. */
  ghost predicate AddsUp(s: Session, t: Session, id: Word16, owner: nat) {
    && Copies(t, owner) + Due(t, id) <= Copies(s, owner) + Due(s, id)
    && (Settled(s, id) ==> Settled(t, id) && Copies(t, owner) + Due(t, id) == Copies(s, owner) + Due(s, id))
  }

  lemma {:induction false} DropDeadEntries(queue: seq<Word16>, pending: map<Word16, nat>, id: Word16)
    requires id in pending
    ensures Entries(DropDead(queue, pending), id) == Entries(queue, id)
  {
    if queue != [] && queue[0] !in pending {
      assert queue == [queue[0]] + queue[1..];
      DropDeadEntries(queue[1..], pending, id);
    }
  }

  lemma {:induction false} WithoutEntries(queue: seq<Word16>, other: Word16, id: Word16)
    requires other != id
    ensures Entries(Without(queue, other), id) == Entries(queue, id)
    ensures queue != [] && queue[0] == id ==> Without(queue, other) != [] && Without(queue, other)[0] == id
  {
    if queue != [] {
      assert queue == [queue[0]] + queue[1..];
      WithoutEntries(queue[1..], other, id);
    }
  }

  lemma PopEntries(queue: seq<Word16>, id: Word16, w: Word16)
    ensures Entries(PopIf(queue, w), id) == Entries(queue, id) - (if queue != [] && queue[0] == w && w == id then 1 else 0)
  {
    if queue != [] {
      assert queue == [queue[0]] + queue[1..];
    }
  }

  /** Nothing is being written on the running connection. */
  predicate Quiet(s: Session) {
    forall w :: w in s.writes ==> w.generation != s.generation
  }

  lemma FlushAddsUp(s: Session, id: Word16, owner: nat)
    requires Waits(s, id, owner) && (!s.writing ==> Quiet(s))
    requires forall p, q :: p in s.pending && q in s.pending && s.pending[p] == s.pending[q] ==> p == q
    ensures AddsUp(s, FlushWrites(s, s.generation), id, owner)
  {
    if !s.stopped && s.connected && !s.writing {
      DropDeadEntries(s.queue, s.pending, id);
      var queue := DropDead(s.queue, s.pending);
      if queue != [] {
        var t := FlushWrites(s, s.generation);
        assert t.frames == s.frames + [s.pending[queue[0]]];
        assert Leaving(t, queue[0]);
      }
    }
  }

  /** What is neither queued, written nor sent changes nothing. */
  lemma SameAddsUp(s: Session, t: Session, id: Word16, owner: nat)
    requires t.queue == s.queue && t.writes == s.writes && t.generation == s.generation && t.frames == s.frames
    ensures AddsUp(s, t, id, owner)
  {
  }

  lemma AddsUpTransitive(s: Session, t: Session, u: Session, id: Word16, owner: nat)
    requires AddsUp(s, t, id, owner) && AddsUp(t, u, id, owner)
    ensures AddsUp(s, u, id, owner)
  {
  }

  lemma FailAddsUp(s: Session, other: Word16, error: ErrorCode, id: Word16, owner: nat)
    requires Waits(s, id, owner) && Waits(FailRequest(s, other, error), id, owner)
    ensures AddsUp(s, FailRequest(s, other, error), id, owner)
  {
    if other in s.pending {
      WithoutEntries(s.queue, other, id);
    }
  }

  lemma RequestAddsUp(s: Session, other: Word16, length: nat, newcomer: nat, id: Word16, owner: nat)
    requires Valid(s) && Waits(s, id, owner) && newcomer !in s.channels && newcomer !in s.pending.Values
    ensures AddsUp(s, Exchange(s, other, length, newcomer), id, owner)
  {
    if !s.stopped && 0 < length <= 0xffff && other !in s.pending {
      var t := ConnectIfNeeded(s.(pending := s.pending[other := newcomer], queue := s.queue + [other]));
      assert AddsUp(s, t, id, owner);
      assert !t.writing ==> Quiet(t);
      FlushAddsUp(t, id, owner);
      AddsUpTransitive(s, t, FlushWrites(t, t.generation), id, owner);
    }
  }

  lemma WrittenAddsUp(s: Session, w: Write, ok: bool, id: Word16, owner: nat)
    requires Valid(s) && w in s.writes && Waits(s, id, owner) && Waits(Written(s, w, ok), id, owner)
    ensures AddsUp(s, Written(s, w, ok), id, owner)
  {
    var t := s.(writes := s.writes - {w});
    if w.generation == s.generation && !s.stopped && ok {
      PopEntries(s.queue, id, w.id);
      var u := t.(writing := false, queue := PopIf(t.queue, w.id));
      assert Quiet(u);
      assert AddsUp(s, u, id, owner);
      FlushAddsUp(u, id, owner);
      AddsUpTransitive(s, u, FlushWrites(u, u.generation), id, owner);
    }
  }

  lemma ConnectedAddsUp(s: Session, generation: nat, id: Word16, owner: nat)
    requires Valid(s) && generation in s.connects && Waits(s, id, owner)
    ensures AddsUp(s, Connected(s, generation), id, owner)
  {
    var t := s.(connects := s.connects - {generation}, stream := Some(generation));
    if generation == t.generation && !t.stopped {
      var u := ReadFrame(t.(connecting := false, connected := true), generation);
      SameAddsUp(s, u, id, owner);
      assert Quiet(u);
      FlushAddsUp(u, id, owner);
      AddsUpTransitive(s, u, FlushWrites(u, u.generation), id, owner);
    }
  }

  lemma BodyAddsUp(s: Session, generation: nat, frame: Option<Frame>, id: Word16, owner: nat)
    requires Waits(s, id, owner) && Waits(BodyRead(s, generation, frame), id, owner)
    ensures AddsUp(s, BodyRead(s, generation, frame), id, owner)
  {
    SameAddsUp(s, BodyRead(s, generation, frame), id, owner);
  }

  /** As long as a request waits, every step makes as many entries due no more as copies go out. */
  lemma StepAddsUp(s: Session, e: Runs.Event, id: Word16, owner: nat)
    requires Valid(s) && Runs.Enabled(s, e) && Waits(s, id, owner) && Waits(Runs.Step(s, e), id, owner)
    ensures AddsUp(s, Runs.Step(s, e), id, owner)
  {
    match e
    case Requests(other, length, newcomer) => RequestAddsUp(s, other, length, newcomer, id, owner);
    case Cancels(other) => FailAddsUp(s, other, Cancelled, id, owner);
    case CallsBack(call) => CallAddsUp(s, call, id, owner);
    case Stops =>
  }

  lemma CallAddsUp(s: Session, call: TcpSessionSpec.Event, id: Word16, owner: nat)
    requires Valid(s) && TcpSessionSpec.Enabled(s, call) && Waits(s, id, owner) && Waits(TcpSessionSpec.Step(s, call), id, owner)
    ensures AddsUp(s, TcpSessionSpec.Step(s, call), id, owner)
  {
    match call
    case Opened(generation) => ConnectedAddsUp(s, generation, id, owner);
    case WriteDone(write, ok) => WrittenAddsUp(s, write, ok, id, owner);
    case BodyDone(generation, frame) => BodyAddsUp(s, generation, frame, id, owner);
    case DeadlineFired(other) => FailAddsUp(s, other, Timeout, id, owner);
    case LengthDone(generation, length) => SameAddsUp(s, LengthRead(s, generation, length), id, owner);
    case OpenFailed(generation, error) => SameAddsUp(s, ConnectFailed(s, generation, error), id, owner);
  }

  // ----- Every run

  /** The owner's request waits, or has been answered. */
  ghost predicate Known(s: Session, owner: nat) {
    owner in s.channels || owner in s.pending.Values
  }

  ghost predicate Adopts(s: Session, t: Session, owner: nat) {
    && (Known(s, owner) ==> Known(t, owner) && forall q :: Waits(t, q, owner) ==> Waits(s, q, owner))
  }

  lemma HandedAdopts(s: Session, t: Session, owner: nat)
    requires Handed(s.pending, s.channels, t.pending, t.channels)
    ensures Adopts(s, t, owner)
  {
    if owner in s.pending.Values && owner !in t.channels {
      var q :| q in s.pending && s.pending[q] == owner;
      assert q in t.pending;
    }
  }

  /** Who is known stays so, and does not wait under another ID. */
  lemma StepAdopts(s: Session, e: Runs.Event, owner: nat)
    requires Valid(s) && Runs.Enabled(s, e)
    ensures Adopts(s, Runs.Step(s, e), owner)
  {
    match e
    case Requests(id, length, newcomer) => RequestAdopts(s, id, length, newcomer, owner);
    case Cancels(id) =>
      FailRequestProgress(s, id, Cancelled);
      HandedAdopts(s, FailRequest(s, id, Cancelled), owner);
    case CallsBack(call) =>
      StepProgress(s, call);
      HandedAdopts(s, TcpSessionSpec.Step(s, call), owner);
    case Stops =>
      if !s.stopped {
        FailAllProgress(s, Cancelled, s.generation);
        HandedAdopts(s, ConnectionFailed(s, Cancelled, s.generation), owner);
      }
  }

  lemma RequestAdopts(s: Session, id: Word16, length: nat, newcomer: nat, owner: nat)
    requires newcomer !in s.channels && newcomer !in s.pending.Values
    ensures Adopts(s, Exchange(s, id, length, newcomer), owner)
  {
    if id !in s.pending {
      ExchangeEffect(s, id, length, newcomer);
      if owner in s.pending.Values {
        var q :| q in s.pending && s.pending[q] == owner;
        assert Waits(Exchange(s, id, length, newcomer), q, owner);
      }
    }
  }

  /** A step sends one frame at most, of a request that waits then. */
  ghost predicate SendsOne(s: Session, t: Session) {
    t.frames == s.frames || exists q :: q in t.pending && t.frames == s.frames + [t.pending[q]]
  }

  lemma FlushSendsOne(s: Session, t: Session)
    requires t.frames == s.frames
    ensures SendsOne(s, FlushWrites(t, t.generation))
  {
    var queue := DropDead(t.queue, t.pending);
    if queue != [] {
      assert queue[0] in t.pending;
    }
  }

  lemma StepSendsOne(s: Session, e: Runs.Event)
    requires Valid(s) && Runs.Enabled(s, e)
    ensures SendsOne(s, Runs.Step(s, e))
  {
    match e
    case Requests(id, length, owner) =>
      FlushSendsOne(s, ConnectIfNeeded(s.(pending := s.pending[id := owner], queue := s.queue + [id])));
    case Cancels(_) =>
    case CallsBack(call) => CallSendsOne(s, call);
    case Stops =>
  }

  lemma CallSendsOne(s: Session, call: TcpSessionSpec.Event)
    requires Valid(s) && TcpSessionSpec.Enabled(s, call)
    ensures SendsOne(s, TcpSessionSpec.Step(s, call))
  {
    match call
    case Opened(g) =>
      FlushSendsOne(s, ReadFrame(s.(connects := s.connects - {g}, stream := Some(g), connecting := false, connected := true), g));
    case WriteDone(w, _) =>
      FlushSendsOne(s, s.(writes := s.writes - {w}, writing := false, queue := PopIf(s.queue, w.id)));
    case _ =>
  }

  /** Whose frame has gone out is known, however IDs are used. */
  lemma {:induction false} FramesAreKnown(trace: seq<Session>, events: seq<Runs.Event>, n: nat)
    requires IsRun(trace, events) && n < |trace|
    ensures forall o :: o in trace[n].frames ==> Known(trace[n], o)
    decreases n
  {
    if n > 0 {
      FramesAreKnown(trace, events, n - 1);
      RunsAreValid(trace, events, n - 1);
      assert Runs.Follows(trace, events, n - 1);
      StepSendsOne(trace[n - 1], events[n - 1]);
      forall o | o in trace[n].frames ensures Known(trace[n], o) {
        StepAdopts(trace[n - 1], events[n - 1], o);
      }
    }
  }

  /** A request that has just been made: its copies to come are the entries of its ID. */
  lemma RequestCounts(s: Session, id: Word16, length: nat, owner: nat)
    requires Valid(s) && !Known(s, owner) && (forall o :: o in s.frames ==> Known(s, o))
    ensures var t := Exchange(s, id, length, owner);
      Known(t, owner) && forall q :: Waits(t, q, owner) ==> q == id
    ensures var t := Exchange(s, id, length, owner);
      Waits(t, id, owner) ==>
        && Copies(t, owner) + Due(t, id) <= 1 + Entries(s.queue, id)
        && (Write(s.generation, id) !in s.writes ==> Settled(t, id) && Copies(t, owner) + Due(t, id) == 1 + Entries(s.queue, id))
  {
    var t := Exchange(s, id, length, owner);
    if !s.stopped && 0 < length <= 0xffff && id !in s.pending {
      var u := ConnectIfNeeded(s.(pending := s.pending[id := owner], queue := s.queue + [id]));
      assert owner !in s.frames;
      assert Copies(u, owner) == 0 && Entries(u.queue, id) == 1 + Entries(s.queue, id);
      assert u.writes == s.writes && (!u.writing ==> Quiet(u));
      FlushAddsUp(u, id, owner);
      assert Waits(t, id, owner);
    }
  }

  /** Event `k` is the request of this owner. */
  ghost predicate RequestedAt(trace: seq<Session>, events: seq<Runs.Event>, k: nat, id: Word16, owner: nat) {
    IsRun(trace, events) && k < |events| && events[k].Requests? && events[k].id == id && events[k].owner == owner
  }

  lemma {:induction false} StaysUnderItsId(trace: seq<Session>, events: seq<Runs.Event>, k: nat, n: nat, id: Word16, owner: nat)
    requires RequestedAt(trace, events, k, id, owner) && k < n < |trace|
    ensures Known(trace[n], owner) && forall q :: Waits(trace[n], q, owner) ==> q == id
    ensures n > k + 1 && Waits(trace[n], id, owner) ==> Waits(trace[n - 1], id, owner)
    decreases n
  {
    RunsAreValid(trace, events, n - 1);
    assert Runs.Follows(trace, events, n - 1);
    if n == k + 1 {
      FramesAreKnown(trace, events, k);
      RequestCounts(trace[k], id, events[k].length, owner);
    } else {
      StaysUnderItsId(trace, events, k, n - 1, id, owner);
      StepAdopts(trace[n - 1], events[n - 1], owner);
    }
  }

  /**
   * In every run, as long as a request waits: the copies of its frame that have gone out,
   * and the entries of its ID that are still due, are together no more than the entries
   * there were when it was made, and its own; and just as many, unless an older frame
   * was being written under its ID at that time.
   */
  lemma {:induction false} CopiesAddUp(trace: seq<Session>, events: seq<Runs.Event>, k: nat, n: nat, id: Word16, owner: nat)
    requires RequestedAt(trace, events, k, id, owner) && k < n < |trace| && Waits(trace[n], id, owner)
    ensures Copies(trace[n], owner) + Due(trace[n], id) <= 1 + Entries(trace[k].queue, id)
    ensures Write(trace[k].generation, id) !in trace[k].writes ==>
      Settled(trace[n], id) && Copies(trace[n], owner) + Due(trace[n], id) == 1 + Entries(trace[k].queue, id)
    decreases n
  {
    if n == k + 1 {
      FirstCounts(trace, events, k, id, owner);
    } else {
      StaysUnderItsId(trace, events, k, n, id, owner);
      CopiesAddUp(trace, events, k, n - 1, id, owner);
      RunsAreValid(trace, events, n - 1);
      assert Runs.Follows(trace, events, n - 1);
      StepAddsUp(trace[n - 1], events[n - 1], id, owner);
    }
  }

  lemma FirstCounts(trace: seq<Session>, events: seq<Runs.Event>, k: nat, id: Word16, owner: nat)
    requires RequestedAt(trace, events, k, id, owner) && Waits(trace[k + 1], id, owner)
    ensures Copies(trace[k + 1], owner) + Due(trace[k + 1], id) <= 1 + Entries(trace[k].queue, id)
    ensures Write(trace[k].generation, id) !in trace[k].writes ==>
      Settled(trace[k + 1], id) && Copies(trace[k + 1], owner) + Due(trace[k + 1], id) == 1 + Entries(trace[k].queue, id)
  {
    RunsAreValid(trace, events, k);
    assert Runs.Follows(trace, events, k);
    FramesAreKnown(trace, events, k);
    RequestCounts(trace[k], id, events[k].length, owner);
  }

  /**
   * Corollary: a frame goes out more than once exactly if its ID stood in the queue when the request
   * was made, and the writing reaches more than one of the entries while the request waits.
   */
  lemma GoesOutAgainIff(trace: seq<Session>, events: seq<Runs.Event>, k: nat, n: nat, id: Word16, owner: nat)
    requires RequestedAt(trace, events, k, id, owner) && k < n < |trace| && Waits(trace[n], id, owner)
    requires Write(trace[k].generation, id) !in trace[k].writes
    ensures Copies(trace[n], owner) >= 2 <==> Due(trace[n], id) < Entries(trace[k].queue, id)
  {
    CopiesAddUp(trace, events, k, n, id, owner);
  }

  lemma OthersKeepCopies(s: Session, t: Session, owner: nat)
    requires SendsOne(s, t) && owner !in t.pending.Values
    ensures Copies(t, owner) == Copies(s, owner)
  {
    if t.frames != s.frames {
      var q :| q in t.pending && t.frames == s.frames + [t.pending[q]];
      assert t.pending[q] != owner;
    }
  }

  /** In every run, a frame never goes out more often than its ID stood in the queue when the request was made, and once. */
  lemma {:induction false} NeverMoreCopies(trace: seq<Session>, events: seq<Runs.Event>, k: nat, n: nat, id: Word16, owner: nat)
    requires RequestedAt(trace, events, k, id, owner) && k < n < |trace|
    ensures Copies(trace[n], owner) <= 1 + Entries(trace[k].queue, id)
    decreases n
  {
    StaysUnderItsId(trace, events, k, n, id, owner);
    if Waits(trace[n], id, owner) {
      CopiesAddUp(trace, events, k, n, id, owner);
    } else {
      RunsAreValid(trace, events, n - 1);
      assert Runs.Follows(trace, events, n - 1);
      StepSendsOne(trace[n - 1], events[n - 1]);
      forall q | q in trace[n].pending ensures trace[n].pending[q] != owner {
        assert Waits(trace[n], q, owner) ==> q == id;
      }
      OthersKeepCopies(trace[n - 1], trace[n], owner);
      if n == k + 1 {
        FramesAreKnown(trace, events, k);
        assert owner !in trace[k].frames;
      } else {
        NeverMoreCopies(trace, events, k, n - 1, id, owner);
      }
    }
  }

  // ----- Frames that never go out

  /**
   * When a write under a waiting request's ID ends that was not its own, the request is
   * forgotten exactly if no entry of its ID is due.
   */
  lemma ForgottenIff(s: Session, id: Word16, owner: nat)
    requires Valid(s) && Waits(s, id, owner) && owner !in s.frames && Write(s.generation, id) in s.writes && !s.stopped
    ensures Forgotten(Written(s, Write(s.generation, id), true), id) <==> Due(s, id) == 0
  {
    var w := Write(s.generation, id);
    var queue := PopIf(s.queue, id);
    PopEntries(s.queue, id, id);
    var u := s.(writes := s.writes - {w}, writing := false, queue := queue);
    assert Written(s, w, true) == FlushWrites(u, u.generation);
    DropDeadKeeps(queue, s.pending);
    if Due(s, id) > 0 {
      assert id in queue;
    } else {
      assert id !in queue;
    }
  }

  /** In every run, a request under whose ID nothing was being written when it was made is never forgotten. */
  lemma NeverForgotten(trace: seq<Session>, events: seq<Runs.Event>, k: nat, n: nat, id: Word16, owner: nat)
    requires RequestedAt(trace, events, k, id, owner) && k < n < |trace| && Waits(trace[n], id, owner)
    requires Write(trace[k].generation, id) !in trace[k].writes
    ensures !Forgotten(trace[n], id)
  {
    CopiesAddUp(trace, events, k, n, id, owner);
  }
}
