/**
 * The addresses in a response (`to_address_answer`, src/dns/dns_codec.cpp): CNAME
 * records are followed inside the response, and the TTL covers everything that was used.
 */
module DnsAnswersSpec {
  import opened Core
  import opened Names

  const A: Word16 := 1
  const CNAME: Word16 := 5
  const AAAA: Word16 := 28

  function NoTtl(): Word32 { 0xffff_ffff }

  datatype Question = Question(name: string, kind: Word16, classCode: Word16)

  datatype Address = V4(value: nat) | V6(value: nat)

  datatype Record = Record(name: string, kind: Word16, classCode: Word16, ttl: Word32, target: Option<string>, address: Option<Address>)

  datatype Packet = Packet(response: bool, questions: seq<Question>, code: Word16, answers: seq<Record>)

  /** The TTL counts only if there are addresses. */
  datatype Answer = Answer(question: Question, code: Word16, addresses: seq<Address>, ttl: Word32)

  function Least(a: Word32, b: Word32): Word32 {
    if b < a then b else a
  }

  predicate IsCname(r: Record, classCode: Word16, name: string) {
    r.classCode == classCode && r.kind == CNAME && Normalize(r.name) == name && r.target.Some?
  }

  function FindCname(answers: seq<Record>, classCode: Word16, name: string): (r: Option<Record>)
    ensures r.Some? ==> r.value in answers && IsCname(r.value, classCode, name)
  {
    if answers == [] then None
    else if IsCname(answers[0], classCode, name) then Some(answers[0])
    else FindCname(answers[1..], classCode, name)
  }

  function Target(r: Record): string
    requires r.target.Some?
  {
    Normalize(r.target.value)
  }

  /** The CNAME records that are followed from `name` on; eight at most, each leading to a name not visited before. */
  function Followed(answers: seq<Record>, classCode: Word16, name: string, visited: seq<string>): (r: seq<Record>)
    requires |visited| <= 9
    ensures |r| <= 9 - |visited|
    decreases 9 - |visited|
  {
    var cname := FindCname(answers, classCode, name);
    if |visited| == 9 || cname.None? then []
    else
      var next := Target(cname.value);
      if next == "" || next in visited then []
      else [cname.value] + Followed(answers, classCode, next, visited + [next])
  }

  /** A chain of CNAME records from one name to another. */
  predicate IsPath(path: seq<Record>, classCode: Word16, start: string, end: string) {
    if path == [] then start == end
    else IsCname(path[0], classCode, start) && IsPath(path[1..], classCode, Target(path[0]), end)
  }

  function End(path: seq<Record>, start: string): string {
    if path == [] || path[|path| - 1].target.None? then start else Target(path[|path| - 1])
  }

  predicate IsAddress(r: Record, q: Question, name: string) {
    && r.classCode == q.classCode && r.kind == q.kind && Normalize(r.name) == name && r.address.Some?
    && (q.kind == A ==> r.address.value.V4?) && (q.kind == AAAA ==> r.address.value.V6?)
  }

  /** The records whose addresses are used, in order. */
  function Used(answers: seq<Record>, q: Question, name: string): (r: seq<Record>)
    ensures forall x :: x in r ==> x in answers && IsAddress(x, q, name)
  {
    if answers == [] then []
    else
      var front, last := Used(answers[..|answers| - 1], q, name), answers[|answers| - 1];
      if IsAddress(last, q, name) then front + [last] else front
  }

  function Addresses(records: seq<Record>): (r: seq<Address>)
    requires forall x :: x in records ==> x.address.Some?
    ensures |r| == |records| && forall i :: 0 <= i < |r| ==> r[i] == records[i].address.value
  {
    seq(|records|, i requires 0 <= i < |records| => records[i].address.value)
  }

  function LeastTtl(records: seq<Record>, ttl: Word32): Word32 {
    if records == [] then ttl else Least(LeastTtl(records[..|records| - 1], ttl), records[|records| - 1].ttl)
  }

  function ToAddressAnswer(p: Packet): Result<Answer> {
    if !p.response || |p.questions| != 1 then Err(ProtocolFraming)
    else
      var q := p.questions[0];
      var start := Normalize(q.name);
      var path := Followed(p.answers, q.classCode, start, [start]);
      var used := Used(p.answers, q, End(path, start));
      Ok(Answer(q, p.code, Addresses(used), if used == [] then 0 else LeastTtl(used, LeastTtl(path, NoTtl()))))
  }

  lemma {:induction false} LeastTtlIsLeast(records: seq<Record>, ttl: Word32)
    ensures LeastTtl(records, ttl) <= ttl && forall r :: r in records ==> LeastTtl(records, ttl) <= r.ttl
  {
    if records != [] {
      LeastTtlIsLeast(records[..|records| - 1], ttl);
      assert forall r :: r in records ==> r in records[..|records| - 1] || r == records[|records| - 1];
    }
  }

  lemma {:induction false} LeastTtlIsAttained(records: seq<Record>, ttl: Word32)
    ensures LeastTtl(records, ttl) == ttl || exists r :: r in records && r.ttl == LeastTtl(records, ttl)
  {
    if records != [] {
      LeastTtlIsAttained(records[..|records| - 1], ttl);
      assert forall r :: r in records[..|records| - 1] ==> r in records;
      assert records[|records| - 1] in records;
    }
  }

  /** The least TTL of two lists of records, one of which is not empty, is that of one of the records. */
  lemma LeastOfBothIsAttained(path: seq<Record>, used: seq<Record>)
    requires used != []
    ensures var ttl := LeastTtl(used, LeastTtl(path, NoTtl())); exists r :: r in path + used && r.ttl == ttl
  {
    var ttl := LeastTtl(path, NoTtl());
    LeastTtlIsAttained(path, NoTtl());
    LeastTtlIsAttained(used, ttl);
    LeastTtlIsLeast(used, ttl);
    assert used[0] in path + used;
  }

  /** Record `i` is the first CNAME record (type 5) for the name. */
  predicate IsFirstCname(answers: seq<Record>, classCode: Word16, name: string, i: nat) {
    && i < |answers| && LeadsOn(answers[i], classCode, name) && forall j :: 0 <= j < i ==> !LeadsOn(answers[j], classCode, name)
  }

  predicate LeadsOn(r: Record, classCode: Word16, name: string) {
    r.kind == 5 && r.classCode == classCode && Normalize(r.name) == name && r.target.Some?
  }

  lemma {:induction false} FindCnameIsFirst(answers: seq<Record>, classCode: Word16, name: string)
    ensures forall i: nat :: IsFirstCname(answers, classCode, name, i) ==> FindCname(answers, classCode, name) == Some(answers[i])
    ensures (forall r :: r in answers ==> !LeadsOn(r, classCode, name)) ==> FindCname(answers, classCode, name) == None
    ensures FindCname(answers, classCode, name).Some? ==> exists i: nat :: IsFirstCname(answers, classCode, name, i)
  {
    if answers != [] {
      FindCnameIsFirst(answers[1..], classCode, name);
      if IsCname(answers[0], classCode, name) {
        assert IsFirstCname(answers, classCode, name, 0);
      } else {
        FirstOfTail(answers, classCode, name);
      }
    }
  }

  lemma FirstOfTail(answers: seq<Record>, classCode: Word16, name: string)
    requires answers != [] && !LeadsOn(answers[0], classCode, name)
    ensures forall i: nat :: IsFirstCname(answers[1..], classCode, name, i) ==> IsFirstCname(answers, classCode, name, i + 1)
    ensures forall i: nat :: IsFirstCname(answers, classCode, name, i) ==> i > 0 && IsFirstCname(answers[1..], classCode, name, i - 1)
  {
    forall i: nat | IsFirstCname(answers, classCode, name, i) ensures i > 0 && IsFirstCname(answers[1..], classCode, name, i - 1) {
      assert forall j :: 0 <= j < i - 1 ==> answers[1..][j] == answers[j + 1];
    }
  }

  lemma {:induction false} PathAppend(path: seq<Record>, classCode: Word16, start: string, middle: string, more: seq<Record>, end: string)
    requires IsPath(path, classCode, start, middle) && IsPath(more, classCode, middle, end)
    ensures IsPath(path + more, classCode, start, end)
  {
    if path == [] {
      assert path + more == more;
    } else {
      PathAppend(path[1..], classCode, Target(path[0]), middle, more, end);
      assert (path + more)[1..] == path[1..] + more;
    }
  }

  function Targets(path: seq<Record>): seq<string>
    requires forall r :: r in path ==> r.target.Some?
  {
    if path == [] then [] else [Target(path[0])] + Targets(path[1..])
  }

  /** What is followed is a chain of records of the response, to names that had not been visited, and each of them once. */
  lemma {:induction false} FollowedIsPath(answers: seq<Record>, classCode: Word16, name: string, visited: seq<string>)
    requires |visited| <= 9
    ensures var path := Followed(answers, classCode, name, visited);
      && (forall r :: r in path ==> r in answers && r.target.Some? && Target(r) !in visited)
      && IsPath(path, classCode, name, End(path, name))
      && (Distinct(visited) ==> Distinct(visited + Targets(path)))
    decreases 9 - |visited|
  {
    var path := Followed(answers, classCode, name, visited);
    if path != [] {
      var next := Target(path[0]);
      FollowedIsPath(answers, classCode, next, visited + [next]);
      assert path[1..] == Followed(answers, classCode, next, visited + [next]);
      EndOfTail(path, name);
      Associative(visited, [next], Targets(path[1..]));
    }
  }

  lemma EndOfTail(path: seq<Record>, start: string)
    requires path != [] && forall r :: r in path ==> r.target.Some?
    ensures End(path, start) == End(path[1..], Target(path[0]))
  {
    if |path| > 1 {
      assert path[1..][|path| - 2] == path[|path| - 1];
      assert path[|path| - 1] in path;
    }
  }

  /** Following stops only after eight records, or where no record leads on to a name that is new. */
  lemma {:induction false} FollowedIsMaximal(answers: seq<Record>, classCode: Word16, name: string, visited: seq<string>)
    requires 1 <= |visited| <= 9
    ensures forall r :: r in Followed(answers, classCode, name, visited) ==> r.target.Some?
    ensures var path := Followed(answers, classCode, name, visited);
      var next := FindCname(answers, classCode, End(path, name));
      |path| == 9 - |visited| || next.None? || Target(next.value) == "" || Target(next.value) in visited + Targets(path)
    decreases 9 - |visited|
  {
    FollowedIsPath(answers, classCode, name, visited);
    var path := Followed(answers, classCode, name, visited);
    if path != [] {
      var next := Target(path[0]);
      FollowedIsMaximal(answers, classCode, next, visited + [next]);
      EndOfTail(path, name);
      Associative(visited, [next], Targets(path[1..]));
    }
  }

  /** The chain of a response, from the question's name on. */
  function Chain(p: Packet): seq<Record>
    requires p.questions != []
  {
    Followed(p.answers, p.questions[0].classCode, Normalize(p.questions[0].name), [Normalize(p.questions[0].name)])
  }

  /** Every address is that of a record at the end of the chain; the TTL is the least of the records used on the way. */
  lemma AnswerIsSound(p: Packet)
    requires ToAddressAnswer(p).Ok?
    ensures |p.questions| == 1
    ensures var q, path := p.questions[0], Chain(p);
      var end := End(path, Normalize(q.name));
      var a, used := ToAddressAnswer(p).value, Used(p.answers, q, end);
      && a.question == q && a.code == p.code && |path| <= 8 && a.addresses == Addresses(used)
      && IsPath(path, q.classCode, Normalize(q.name), end) && (forall r :: r in path ==> r in p.answers)
      && (forall r :: r in used <==>
            && r in p.answers && r.kind == q.kind && r.classCode == q.classCode && Normalize(r.name) == end && r.address.Some?
            && (q.kind == 1 ==> r.address.value.V4?) && (q.kind == 28 ==> r.address.value.V6?))
      && (a.addresses != [] ==> (forall r :: r in path ==> a.ttl <= r.ttl) && (forall r :: r in used ==> a.ttl <= r.ttl))
      && (a.addresses != [] ==> exists r :: r in path + used && a.ttl == r.ttl)
  {
    var q, path := p.questions[0], Chain(p);
    var start := Normalize(q.name);
    var used := Used(p.answers, q, End(path, start));
    FollowedIsPath(p.answers, q.classCode, start, [start]);
    UsedIsComplete(p.answers, q, End(path, start));
    LeastTtlIsLeast(path, NoTtl());
    LeastTtlIsLeast(used, LeastTtl(path, NoTtl()));
    if used != [] {
      LeastOfBothIsAttained(path, used);
    }
  }

  /** No address record at the end of the chain is left out. */
  lemma {:induction false} UsedIsComplete(answers: seq<Record>, q: Question, name: string)
    ensures forall r :: r in answers && IsAddress(r, q, name) ==> r in Used(answers, q, name)
  {
    if answers != [] {
      UsedIsComplete(answers[..|answers| - 1], q, name);
      assert forall r :: r in answers ==> r in answers[..|answers| - 1] || r == answers[|answers| - 1];
    }
  }
}

/** The evaluation of a response itself. */
module DnsAnswers {
  import opened Core
  import opened Names
  import opened Spec = DnsAnswersSpec

  method SearchCname(answers: seq<Record>, classCode: Word16, name: string) returns (r: Option<Record>)
    ensures r == FindCname(answers, classCode, name)
  {
    var i := 0;
    assert answers[0..] == answers;
    while i < |answers|
      invariant 0 <= i <= |answers| && FindCname(answers, classCode, name) == FindCname(answers[i..], classCode, name)
    {
      assert answers[i..][1..] == answers[i + 1..];
      if IsCname(answers[i], classCode, name) {
        return Some(answers[i]);
      }
      i := i + 1;
    }
    return None;
  }

  /** Follows CNAME records, at most eight of them and never to a name visited before. */
  method FollowCnames(answers: seq<Record>, classCode: Word16, start: string) returns (name: string, ttl: Word32)
    ensures var path := Followed(answers, classCode, start, [start]); name == End(path, start) && ttl == LeastTtl(path, NoTtl())
  {
    ghost var path: seq<Record> := [];
    name, ttl := start, 0xffff_ffff;
    var visited, depth := [start], 0;
    while depth < 8
      invariant 0 <= depth <= 8 && |visited| == depth + 1 && name == End(path, start) && ttl == LeastTtl(path, NoTtl())
      invariant Followed(answers, classCode, start, [start]) == path + Followed(answers, classCode, name, visited)
    {
      NothingAppended(path);
      var cname := SearchCname(answers, classCode, name);
      if cname.None? {
        return;
      }
      var next := Target(cname.value);
      if next == "" || next in visited {
        return;
      }
      Associative(path, [cname.value], Followed(answers, classCode, next, visited + [next]));
      LeastAppend(path, cname.value);
      visited, name := visited + [next], next;
      ttl := Least(ttl, cname.value.ttl);
      path := path + [cname.value];
      depth := depth + 1;
    }
    NothingAppended(path);
  }

  lemma LeastAppend(path: seq<Record>, r: Record)
    ensures LeastTtl(path + [r], NoTtl()) == Least(LeastTtl(path, NoTtl()), r.ttl)
  {
    assert (path + [r])[..|path|] == path;
  }

  method EvaluateAnswer(p: Packet) returns (r: Result<Answer>)
    ensures r == ToAddressAnswer(p)
  {
    if !p.response || |p.questions| != 1 {
      return Err(ProtocolFraming);
    }
    var q := p.questions[0];
    var name, ttl := FollowCnames(p.answers, q.classCode, Normalize(q.name));
    var addresses, least := CollectAddresses(p.answers, q, name, ttl);
    return Ok(Answer(q, p.code, addresses, if addresses == [] then 0 else least));
  }

  method CollectAddresses(answers: seq<Record>, q: Question, name: string, ttl: Word32) returns (addresses: seq<Address>, least: Word32)
    ensures addresses == Addresses(Used(answers, q, name)) && least == LeastTtl(Used(answers, q, name), ttl)
  {
    addresses, least := [], ttl;
    ghost var used: seq<Record> := [];
    for i := 0 to |answers|
      invariant used == Used(answers[..i], q, name) && addresses == Addresses(used) && least == LeastTtl(used, ttl)
    {
      var r := answers[i];
      assert answers[..i + 1][..i] == answers[..i];
      if r.classCode != q.classCode || r.kind != q.kind || Normalize(r.name) != name {
        continue;
      }
      if r.address.None? || (q.kind == A && !r.address.value.V4?) || (q.kind == AAAA && !r.address.value.V6?) {
        continue;
      }
      assert (used + [r])[..|used|] == used;
      addresses := addresses + [r.address.value];
      least := Least(least, r.ttl);
      used := used + [r];
    }
    assert answers[..|answers|] == answers;
  }
}
