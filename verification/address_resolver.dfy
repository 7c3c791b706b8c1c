/**
 * Address resolution across queries (`AddressResolver::Operation`,
 * src/dns/address_resolver.cpp): while a response holds no address but a CNAME record,
 * the record's target is asked for.
 */
module AddressResolverSpec {
  import opened Core
  import opened Names
  import opened DnsAnswersSpec

  datatype Outcome = Resolved(answer: Answer) | Unresolved(error: ErrorCode)

  /** `asked` are the names that were asked for, `followed` the CNAME records that led from one to the next. */
  datatype Operation = Operation(
    original: Question, current: Question, visited: seq<string>, cnameTtl: Word32, cancelRequested: bool,
    asked: seq<string>, followed: seq<Record>, outcomes: seq<Outcome>)

  function Finish(op: Operation, outcome: Outcome): Operation {
    if op.outcomes != [] then op else op.(outcomes := [outcome])
  }

  /** `complete_answer` */
  function CompleteAnswer(op: Operation, a: Answer): Operation {
    var ttl := if a.addresses != [] && op.cnameTtl != NoTtl() then Least(a.ttl, op.cnameTtl) else a.ttl;
    Finish(op, Resolved(a.(question := op.original, ttl := ttl)))
  }

  /** The first query goes out. */
  function Begin(q: Question): Operation {
    Operation(q, q, [Normalize(q.name)], NoTtl(), false, [Normalize(q.name)], [], [])
  }

  function RequestCancel(op: Operation): Operation {
    if op.outcomes != [] then op else op.(cancelRequested := true)
  }

  /** The CNAME record to follow to another query, if any. */
  function NextCname(op: Operation, p: Packet): Option<Record> {
    var cname := FindCname(p.answers, op.current.classCode, Normalize(op.current.name));
    if cname.None? || |op.visited| >= 8 then None
    else if Target(cname.value) == "" || Target(cname.value) in op.visited then None
    else cname
  }

  function Evaluate(op: Operation, p: Packet, a: Answer): Operation {
    if a.addresses != [] || a.code != 0 || (op.current.kind != A && op.current.kind != AAAA) then CompleteAnswer(op, a)
    else
      var cname := NextCname(op, p);
      if cname.None? then CompleteAnswer(op, a)
      else
        var target := Target(cname.value);
        op.(visited := op.visited + [target], cnameTtl := Least(op.cnameTtl, cname.value.ttl), current := op.current.(name := target),
            asked := op.asked + [target], followed := op.followed + [cname.value])
  }

  /** The query that is under way returns. */
  function Returned(op: Operation, result: Result<Packet>): Operation {
    if op.outcomes != [] then op
    else if op.cancelRequested then Finish(op, Unresolved(Cancelled))
    else match result
      case Err(error) => Finish(op, Unresolved(error))
      case Ok(p) =>
        match ToAddressAnswer(p)
        case Err(error) => Finish(op, Unresolved(error))
        case Ok(a) => Evaluate(op, p, a)
  }

  datatype Event = Returns(result: Result<Packet>) | Cancels

  function Step(op: Operation, e: Event): Operation {
    match e
    case Returns(result) => Returned(op, result)
    case Cancels => RequestCancel(op)
  }

  function Run(q: Question, events: seq<Event>): Operation {
    if events == [] then Begin(q) else Step(Run(q, events[..|events| - 1]), events[|events| - 1])
  }

  // ----- What every step keeps

  /** The records of the chain lead through the visited names, which differ; each of them has been asked for once. */
  ghost predicate Valid(op: Operation) {
    && op.asked == op.visited && Distinct(op.visited) && 1 <= |op.visited| <= 8
    && IsPath(op.followed, op.original.classCode, Normalize(op.original.name), Normalize(op.current.name))
    && Normalize(op.current.name) == op.visited[|op.visited| - 1]
    && op.current.classCode == op.original.classCode && op.current.kind == op.original.kind
    && op.cnameTtl == LeastTtl(op.followed, NoTtl())
    && |op.outcomes| <= 1
  }

  lemma FollowKeeps(op: Operation, p: Packet)
    requires Valid(op) && NextCname(op, p).Some?
    ensures var c := NextCname(op, p).value;
      && IsPath(op.followed + [c], op.original.classCode, Normalize(op.original.name), Target(c))
      && Normalize(Target(c)) == Target(c) && Distinct(op.visited + [Target(c)])
      && LeastTtl(op.followed + [c], NoTtl()) == Least(op.cnameTtl, c.ttl)
  {
    var c := NextCname(op, p).value;
    NormalizedTwice(c.target.value);
    assert IsPath([c], op.original.classCode, Normalize(op.current.name), Target(c)) by {
      assert [c][1..] == [];
    }
    PathAppend(op.followed, op.original.classCode, Normalize(op.original.name), Normalize(op.current.name), [c], Target(c));
    assert (op.followed + [c])[..|op.followed|] == op.followed;
  }

  lemma StepKeeps(op: Operation, e: Event)
    requires Valid(op)
    ensures Valid(Step(op, e)) && op.outcomes <= Step(op, e).outcomes && op.original == Step(op, e).original
  {
    if e.Returns? && e.result.Ok? && ToAddressAnswer(e.result.value).Ok? {
      EvaluateKeeps(op, e.result.value, ToAddressAnswer(e.result.value).value);
    }
  }

  /** The next query's state. */
  function Follow(op: Operation, c: Record): Operation
    requires c.target.Some?
  {
    op.(visited := op.visited + [Target(c)], cnameTtl := Least(op.cnameTtl, c.ttl), current := op.current.(name := Target(c)),
        asked := op.asked + [Target(c)], followed := op.followed + [c])
  }

  lemma FollowIsValid(op: Operation, p: Packet)
    requires Valid(op) && NextCname(op, p).Some?
    ensures Valid(Follow(op, NextCname(op, p).value))
  {
    FollowKeeps(op, p);
  }

  lemma CompleteIsValid(op: Operation, a: Answer)
    requires Valid(op)
    ensures Valid(CompleteAnswer(op, a)) && op.outcomes <= CompleteAnswer(op, a).outcomes
  {
  }

  lemma EvaluateInCases(op: Operation, p: Packet, a: Answer)
    ensures Evaluate(op, p, a) == CompleteAnswer(op, a)
      || (NextCname(op, p).Some? && Evaluate(op, p, a) == Follow(op, NextCname(op, p).value))
  {
  }

  lemma EvaluateKeeps(op: Operation, p: Packet, a: Answer)
    requires Valid(op)
    ensures Valid(Evaluate(op, p, a)) && op.outcomes <= Evaluate(op, p, a).outcomes && op.original == Evaluate(op, p, a).original
  {
    EvaluateInCases(op, p, a);
    if Evaluate(op, p, a) == CompleteAnswer(op, a) {
      CompleteIsValid(op, a);
    } else {
      FollowIsValid(op, p);
    }
  }

  /** In every run at most eight queries are sent, for different names, and at most one outcome is delivered, once. */
  lemma {:induction false} RunsAreBounded(q: Question, events: seq<Event>)
    ensures var op := Run(q, events);
      Valid(op) && op.original == q && |op.asked| <= 8 && Distinct(op.asked) && |op.outcomes| <= 1
    ensures events != [] ==> Run(q, events[..|events| - 1]).outcomes <= Run(q, events).outcomes
    decreases |events|
  {
    if events != [] {
      RunsAreBounded(q, events[..|events| - 1]);
      StepKeeps(Run(q, events[..|events| - 1]), events[|events| - 1]);
    }
  }

  /** The response answers the query that is under way, as the transports check. */
  predicate Answers(p: Packet, current: Question) {
    && |p.questions| == 1 && Normalize(p.questions[0].name) == Normalize(current.name)
    && p.questions[0].kind == current.kind && p.questions[0].classCode == current.classCode
  }

  /** Event `k` brings a response that is looked at. */
  ghost predicate Taken(q: Question, events: seq<Event>, k: nat) {
    && k < |events| && events[k].Returns? && events[k].result.Ok?
    && Run(q, events[..k]).outcomes == [] && !Run(q, events[..k]).cancelRequested
  }

  function PacketAt(events: seq<Event>, k: nat): Packet
    requires k < |events| && events[k].Returns? && events[k].result.Ok?
  {
    events[k].result.value
  }

  /** Every response that is looked at answers the query that was under way then. */
  ghost predicate AllAnswer(q: Question, events: seq<Event>) {
    forall k: nat :: Taken(q, events, k) ==> Answers(PacketAt(events, k), Run(q, events[..k]).current)
  }

  /** `r` is an answer record of a response to a query of this resolution. */
  ghost predicate Received(q: Question, events: seq<Event>, r: Record) {
    exists k: nat :: Taken(q, events, k) && r in PacketAt(events, k).answers && Answers(PacketAt(events, k), Run(q, events[..k]).current)
  }

  lemma TakenBefore(q: Question, events: seq<Event>, n: nat, k: nat)
    requires n <= |events|
    ensures Taken(q, events[..n], k) <==> k < n && Taken(q, events, k)
    ensures Taken(q, events[..n], k) ==> PacketAt(events[..n], k) == PacketAt(events, k) && events[..n][..k] == events[..k]
  {
    if k < n {
      assert events[..n][..k] == events[..k];
    }
  }

  lemma AllAnswerBefore(q: Question, events: seq<Event>, n: nat)
    requires n <= |events| && AllAnswer(q, events)
    ensures AllAnswer(q, events[..n])
  {
    forall k: nat | Taken(q, events[..n], k) ensures Answers(PacketAt(events[..n], k), Run(q, events[..n][..k]).current) {
      TakenBefore(q, events, n, k);
    }
  }

  lemma ReceivedBefore(q: Question, events: seq<Event>, n: nat, r: Record)
    requires n <= |events| && Received(q, events[..n], r)
    ensures Received(q, events, r)
  {
    var k: nat :| Taken(q, events[..n], k) && r in PacketAt(events[..n], k).answers
      && Answers(PacketAt(events[..n], k), Run(q, events[..n][..k]).current);
    TakenBefore(q, events, n, k);
  }

  /** The step that follows a record: the record stands in the response that is looked at. */
  lemma FollowedComesFrom(op: Operation, e: Event)
    ensures Step(op, e).followed != op.followed ==>
      && op.outcomes == [] && !op.cancelRequested && e.Returns? && e.result.Ok?
      && exists c :: c in e.result.value.answers && Step(op, e).followed == op.followed + [c]
  {
    if e.Returns? && e.result.Ok? && ToAddressAnswer(e.result.value).Ok? {
      EvaluateInCases(op, e.result.value, ToAddressAnswer(e.result.value).value);
    }
  }

  /** In every run, every record that led from one query to the next was received in answer to one. */
  lemma {:induction false} FollowedWereReceived(q: Question, events: seq<Event>)
    requires AllAnswer(q, events)
    ensures forall r :: r in Run(q, events).followed ==> Received(q, events, r)
    decreases |events|
  {
    if events != [] {
      var n := |events| - 1;
      var before := Run(q, events[..n]);
      AllAnswerBefore(q, events, n);
      FollowedWereReceived(q, events[..n]);
      FollowedComesFrom(before, events[n]);
      forall r | r in Run(q, events).followed ensures Received(q, events, r) {
        if r in before.followed {
          ReceivedBefore(q, events, n, r);
        } else {
          assert Taken(q, events, n) && r in PacketAt(events, n).answers;
        }
      }
    }
  }

  /** The chain as it stands once response `k` has been looked at: from query to query, and then through that response. */
  ghost function WholeChain(q: Question, events: seq<Event>, k: nat): seq<Record>
    requires Taken(q, events, k) && PacketAt(events, k).questions != []
  {
    Run(q, events[..k]).followed + Chain(PacketAt(events, k))
  }

  /** What a response that completes the resolution delivers. */
  lemma CompletedBy(q: Question, events: seq<Event>, k: nat)
    requires Taken(q, events, k) && Answers(PacketAt(events, k), Run(q, events[..k]).current)
    requires var t := Step(Run(q, events[..k]), events[k]); t.outcomes != [] && t.outcomes[0].Resolved? && t.outcomes[0].answer.addresses != []
    ensures var a, p := Step(Run(q, events[..k]), events[k]).outcomes[0].answer, PacketAt(events, k);
      var chain := WholeChain(q, events, k);
      var end := End(Chain(p), Normalize(Run(q, events[..k]).current.name));
      var used := Used(p.answers, q, end);
      && a.question == q && IsPath(chain, q.classCode, Normalize(q.name), end) && a.addresses == Addresses(used)
      && (forall r :: r in chain ==> a.ttl <= r.ttl) && (forall r :: r in used ==> a.ttl <= r.ttl)
      && exists r :: r in chain + used && a.ttl == r.ttl
  {
    var op, p := Run(q, events[..k]), PacketAt(events, k);
    RunsAreBounded(q, events[..k]);
    AnswerIsSound(p);
    var end := End(Chain(p), Normalize(op.current.name));
    SameUsed(p.answers, p.questions[0], q, end);
    PathAppend(op.followed, q.classCode, Normalize(q.name), Normalize(op.current.name), Chain(p), end);
    LeastTtlIsLeast(op.followed, NoTtl());
    LeastTtlIsAttained(op.followed, NoTtl());
  }

  // ----- What a response makes of a resolution

  /** Record `i` of the response leads to another query: the first CNAME record of the name that was asked for last, with a target that is new, and not the ninth. */
  ghost predicate LeadsToQuery(op: Operation, p: Packet, i: nat)
    requires op.asked != []
  {
    && p.code == 0 && (op.current.kind == 1 || op.current.kind == 28) && |op.asked| < 8
    && IsFirstCname(p.answers, op.current.classCode, op.asked[|op.asked| - 1], i) && p.answers[i].target.Some?
    && Target(p.answers[i]) != "" && Target(p.answers[i]) !in op.asked
  }

  lemma NextCnameLeads(op: Operation, p: Packet)
    requires Valid(op) && p.code == 0 && (op.current.kind == 1 || op.current.kind == 28)
    ensures forall i: nat :: LeadsToQuery(op, p, i) ==> NextCname(op, p) == Some(p.answers[i])
    ensures NextCname(op, p).Some? ==> exists i: nat :: LeadsToQuery(op, p, i)
  {
    FindCnameIsFirst(p.answers, op.current.classCode, Normalize(op.current.name));
    if NextCname(op, p).Some? {
      var i: nat :| IsFirstCname(p.answers, op.current.classCode, Normalize(op.current.name), i);
      assert LeadsToQuery(op, p, i);
    }
  }

  /**
   * In every run, a response without addresses leads to the next query if and only if one
   * of its records does, and then to that record's target; any other response is delivered
   * with its own code and its own addresses.
   */
  lemma ResponseDecides(q: Question, events: seq<Event>, k: nat)
    requires Taken(q, events, k) && ToAddressAnswer(PacketAt(events, k)).Ok? && Run(q, events[..k]).asked != []
    ensures var op, t, p := Run(q, events[..k]), Step(Run(q, events[..k]), events[k]), PacketAt(events, k);
      && (forall i: nat :: ToAddressAnswer(p).value.addresses == [] && LeadsToQuery(op, p, i) ==> AsksNext(op, t, Target(p.answers[i])))
      && (ToAddressAnswer(p).value.addresses != [] || (forall i: nat :: !LeadsToQuery(op, p, i)) ==> Delivers(op, t, p))
  {
    var op, p := Run(q, events[..k]), PacketAt(events, k);
    RunsAreBounded(q, events[..k]);
    AnswerIsSound(p);
    if p.code == 0 && (op.current.kind == 1 || op.current.kind == 28) {
      NextCnameLeads(op, p);
    }
  }

  predicate AsksNext(op: Operation, t: Operation, name: string) {
    t.asked == op.asked + [name] && t.outcomes == [] && t.current == op.current.(name := name)
  }

  /** The response ends the resolution, under the original question, with its own code and addresses. */
  predicate Delivers(op: Operation, t: Operation, p: Packet)
    requires ToAddressAnswer(p).Ok?
  {
    && t.asked == op.asked && |t.outcomes| == 1 && t.outcomes[0].Resolved?
    && t.outcomes[0].answer.question == op.original && t.outcomes[0].answer.code == p.code
    && t.outcomes[0].answer.addresses == ToAddressAnswer(p).value.addresses
  }

  /** In every run, an error ends a resolution as it is, a message that is no response to one question with a framing error, and whatever comes after a cancellation with that. */
  lemma FailureDecides(q: Question, events: seq<Event>, k: nat, result: Result<Packet>)
    requires k < |events| && events[k] == Returns(result) && Run(q, events[..k]).outcomes == []
    ensures var op, t := Run(q, events[..k]), Step(Run(q, events[..k]), events[k]);
      && (op.cancelRequested ==> t.outcomes == [Unresolved(Cancelled)] && t.asked == op.asked)
      && (!op.cancelRequested && result.Err? ==> t.outcomes == [Unresolved(result.error)] && t.asked == op.asked)
      && (!op.cancelRequested && result.Ok? && (!result.value.response || |result.value.questions| != 1) ==>
            t.outcomes == [Unresolved(ProtocolFraming)] && t.asked == op.asked)
      && (!op.cancelRequested && result.Ok? && result.value.response && |result.value.questions| == 1 ==> ToAddressAnswer(result.value).Ok?)
  {
  }

  /** Which records are used depends on type and class of the question only. */
  lemma {:induction false} SameUsed(answers: seq<Record>, a: Question, b: Question, name: string)
    requires a.kind == b.kind && a.classCode == b.classCode
    ensures Used(answers, a, name) == Used(answers, b, name)
  {
    if answers != [] {
      SameUsed(answers[..|answers| - 1], a, b, name);
    }
  }

  /** The response with which a resolution was completed. */
  lemma {:induction false} CompletedOnce(q: Question, events: seq<Event>) returns (k: nat)
    requires Run(q, events).outcomes != [] && Run(q, events).outcomes[0].Resolved?
    ensures Taken(q, events, k) && Run(q, events).outcomes == Step(Run(q, events[..k]), events[k]).outcomes
    decreases |events|
  {
    var n := |events| - 1;
    var before := Run(q, events[..n]);
    RunsAreBounded(q, events);
    if before.outcomes != [] {
      k := CompletedOnce(q, events[..n]);
      TakenBefore(q, events, n, k);
      assert events[..n][k] == events[k];
    } else {
      k := n;
    }
  }

  /**
   * In every run, the addresses that are delivered are those of exactly the matching
   * records of one response, at the end of one chain of CNAME records. The chain starts
   * at the original name and goes through all queries, and each of its records stands in
   * a response that answered the query under way. The TTL is at most that of each record
   * of the chain and of each address.
   */
  lemma AddressesAreAtEndOfChain(q: Question, events: seq<Event>) returns (k: nat)
    requires AllAnswer(q, events)
    requires var t := Run(q, events); t.outcomes != [] && t.outcomes[0].Resolved? && t.outcomes[0].answer.addresses != []
    ensures Taken(q, events, k) && PacketAt(events, k).questions != []
    ensures var a, p := Run(q, events).outcomes[0].answer, PacketAt(events, k);
      var chain := WholeChain(q, events, k);
      var end := End(Chain(p), Normalize(Run(q, events[..k]).current.name));
      && a.question == q && IsPath(chain, q.classCode, Normalize(q.name), end)
      && (forall r :: r in chain ==> Received(q, events, r) && a.ttl <= r.ttl)
      && a.addresses == Addresses(Used(p.answers, q, end))
      && (forall r :: r in p.answers && IsAddress(r, q, end) ==> a.ttl <= r.ttl)
      && exists r :: r in chain + Used(p.answers, q, end) && a.ttl == r.ttl
  {
    k := CompletedOnce(q, events);
    CompletedBy(q, events, k);
    var p, current := PacketAt(events, k), Run(q, events[..k]).current;
    UsedIsComplete(p.answers, q, End(Chain(p), Normalize(current.name)));
    AllAnswerBefore(q, events, k);
    FollowedWereReceived(q, events[..k]);
    AnswerIsSound(p);
    forall r | r in WholeChain(q, events, k) ensures Received(q, events, r) {
      if r in Run(q, events[..k]).followed {
        ReceivedBefore(q, events, k, r);
      }
    }
  }
}

/** The resolution itself. */
module AddressResolvers {
  import opened Core
  import opened Names
  import opened DnsAnswersSpec
  import Evaluation = DnsAnswers
  import opened Spec = AddressResolverSpec

  class AddressOperation {
    const original: Question
    var current: Question
    var visitedNames: seq<string>
    var cnameTtl: Word32
    var cancelRequested: bool
    var completed: bool
    ghost var asked: seq<string>
    ghost var followed: seq<Record>
    ghost var outcomes: seq<Outcome>

    ghost function Model(): Operation
      reads this
    {
      Operation(original, current, visitedNames, cnameTtl, cancelRequested, asked, followed, outcomes)
    }

    ghost predicate Marked()
      reads this
    {
      completed <==> outcomes != []
    }

    constructor (q: Question)
      ensures Model() == Begin(q) && Marked()
    {
      original, current, visitedNames := q, q, [Normalize(q.name)];
      cnameTtl, cancelRequested, completed := 0xffff_ffff, false, false;
      asked, followed, outcomes := [Normalize(q.name)], [], [];
    }

    method Cancel()
      requires Marked()
      modifies `cancelRequested
      ensures Model() == RequestCancel(old(Model())) && Marked()
    {
      if completed {
        return;
      }
      cancelRequested := true;
    }

    method FinishWith(outcome: Outcome)
      requires Marked()
      modifies `completed, `outcomes
      ensures Model() == Finish(old(Model()), outcome) && Marked()
    {
      if completed {
        return;
      }
      completed := true;
      outcomes := [outcome];
    }

    method Complete(answer: Answer)
      requires Marked()
      modifies `completed, `outcomes
      ensures Model() == CompleteAnswer(old(Model()), answer) && Marked()
    {
      var a := answer.(question := original);
      if a.addresses != [] && cnameTtl != 0xffff_ffff {
        a := a.(ttl := Least(a.ttl, cnameTtl));
      }
      FinishWith(Resolved(a));
    }

    method OnReply(result: Result<Packet>)
      requires Marked()
      modifies this
      ensures Model() == Returned(old(Model()), result) && Marked()
    {
      if completed {
        return;
      }
      if cancelRequested {
        FinishWith(Unresolved(Cancelled));
        return;
      }
      if result.Err? {
        FinishWith(Unresolved(result.error));
        return;
      }
      var answer := Evaluation.EvaluateAnswer(result.value);
      if answer.Err? {
        FinishWith(Unresolved(answer.error));
        return;
      }
      if answer.value.addresses != [] || answer.value.code != 0 || (current.kind != A && current.kind != AAAA) {
        Complete(answer.value);
        return;
      }
      Chase(result.value, answer.value);
    }

    /** Without addresses: the first CNAME record of the current name leads to the next query. */
    method Chase(p: Packet, answer: Answer)
      requires Marked() && !completed && answer.addresses == [] && answer.code == 0 && (current.kind == A || current.kind == AAAA)
      modifies this
      ensures Model() == Evaluate(old(Model()), p, answer) && Marked()
    {
      var cname := Evaluation.SearchCname(p.answers, current.classCode, Normalize(current.name));
      if cname.None? || |visitedNames| >= 8 {
        Complete(answer);
        return;
      }
      var target := Target(cname.value);
      if target == "" || target in visitedNames {
        Complete(answer);
        return;
      }
      visitedNames := visitedNames + [target];
      cnameTtl := Least(cnameTtl, cname.value.ttl);
      current := current.(name := target);
      asked, followed := asked + [target], followed + [cname.value];
    }
  }
}
