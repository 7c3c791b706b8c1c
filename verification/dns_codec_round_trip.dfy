/** What the reference parser makes of the messages that the codec builds. */
module DnsRoundTrip {
  import opened Core
  import opened Names
  import opened DnsCodecSpec
  import opened DnsParser

  /** `part` stands in `w` from `at` on. */
  predicate Holds(w: Bytes, at: nat, part: Bytes) {
    at + |part| <= |w| && w[at..at + |part|] == part
  }

  lemma HoldsParts(w: Bytes, at: nat, a: Bytes, b: Bytes)
    requires Holds(w, at, a + b)
    ensures Holds(w, at, a) && Holds(w, at + |a|, b)
  {
    var whole := w[at..at + |a + b|];
    assert whole[..|a|] == a && whole[|a|..] == b;
    assert w[at..at + |a|] == whole[..|a|] && w[at + |a|..at + |a| + |b|] == whole[|a|..];
  }

  lemma HoldsAt(w: Bytes, at: nat, part: Bytes)
    requires Holds(w, at, part)
    ensures forall i :: 0 <= i < |part| ==> w[at + i] == part[i]
  {
    forall i | 0 <= i < |part| ensures w[at + i] == part[i] {
      assert w[at..at + |part|][i] == part[i];
    }
  }

  lemma TextOfOctets(name: string)
    requires ByteName(name)
    ensures Text(Octets(name)) == name
  {
  }

  /** The text of a name that is not the root. */
  function Join(text: string, rest: string): string {
    text + (if rest == "" then "" else "." + rest)
  }

  function JoinAll(labels: seq<string>): string {
    if labels == [] then "" else Join(labels[0], JoinAll(labels[1..]))
  }

  function AfterDot(name: string): string {
    var i := FirstDot(name);
    if i == |name| then "" else name[i + 1..]
  }

  lemma SplitOnce(name: string)
    requires name != []
    ensures Split(name) != [] && Split(name)[0] == name[..FirstDot(name)] && Split(name)[1..] == Split(AfterDot(name))
  {
  }

  lemma JoinOnce(name: string)
    requires name != [] && name[|name| - 1] != '.'
    ensures var rest := AfterDot(name);
      name == Join(name[..FirstDot(name)], rest) && |rest| < |name| && (rest != [] ==> rest[|rest| - 1] != '.')
  {
    var i := FirstDot(name);
    if i < |name| {
      CutAtDot(name, i);
    } else {
      assert name == name[..i] + "";
    }
  }

  lemma CutAtDot(name: string, i: nat)
    requires i < |name| && name[i] == '.' && name[|name| - 1] != '.'
    ensures name == name[..i] + ("." + name[i + 1..]) && name[i + 1..] != ""
  {
  }

  lemma {:induction false} JoinOfSplit(name: string)
    requires name != [] ==> name[|name| - 1] != '.'
    ensures JoinAll(Split(name)) == name
    decreases |name|
  {
    if name != [] {
      SplitOnce(name);
      JoinOnce(name);
      JoinOfSplit(AfterDot(name));
    }
  }

  lemma NameStep(w: Bytes, at: nat, bound: nat, n: nat, rest: string, next: nat)
    requires at < |w| && w[at] == n && 1 <= n <= 63 && at + 1 + n <= |w|
    requires Name(w, at + 1 + n, bound) == Some((rest, next))
    ensures Name(w, at, bound) == Some((Join(Text(w[at + 1..at + 1 + n]), rest), next))
  {
  }

  lemma LabelIsRead(w: Bytes, at: nat, text: string)
    requires ByteName(text) && GoodLabel(text) && Holds(w, at, LabelOctets(text))
    ensures w[at] == |text| && at + 1 + |text| <= |w| && Text(w[at + 1..at + 1 + |text|]) == text
  {
    HoldsParts(w, at, [|text|], Octets(text));
    HoldsAt(w, at, [|text|]);
    assert w[at + 0] == |text|;
    TextOfOctets(text);
  }

  /** Encoded labels are read back, wherever they stand. */
  lemma {:induction false} LabelsAreRead(w: Bytes, at: nat, bound: nat, labels: seq<string>)
    requires AllGood(labels) && Holds(w, at, EncodeLabels(labels) + [0])
    ensures Name(w, at, bound) == Some((JoinAll(labels), at + |EncodeLabels(labels)| + 1))
    decreases |labels|
  {
    if labels == [] {
      HoldsAt(w, at, [] + [0]);
      assert w[at + 0] == 0;
    } else {
      var text, rest := labels[0], EncodeLabels(labels[1..]);
      FirstLabel(w, at, labels);
      LabelsAreRead(w, at + 1 + |text|, bound, labels[1..]);
      NameStep(w, at, bound, |text|, JoinAll(labels[1..]), at + 1 + |text| + |rest| + 1);
    }
  }

  lemma FirstLabel(w: Bytes, at: nat, labels: seq<string>)
    requires labels != [] && AllGood(labels) && Holds(w, at, EncodeLabels(labels) + [0])
    ensures var text, rest := labels[0], EncodeLabels(labels[1..]);
      && 1 <= |text| <= 63 && at + 1 + |text| <= |w| && at < |w| && w[at] == |text| && Text(w[at + 1..at + 1 + |text|]) == text
      && Holds(w, at + 1 + |text|, rest + [0]) && |EncodeLabels(labels)| == 1 + |text| + |rest|
  {
    var text, rest := labels[0], EncodeLabels(labels[1..]);
    Associative(LabelOctets(text), rest, [0]);
    HoldsParts(w, at, LabelOctets(text), rest + [0]);
    LabelIsRead(w, at, text);
  }

  // ----- Records

  lemma WordIsRead(w: Bytes, at: nat, v: Word16)
    requires Holds(w, at, Octets16(v))
    ensures U16(w, at) == v
  {
    HoldsAt(w, at, Octets16(v));
    assert w[at + 0] == High(v) && w[at + 1] == Low(v);
  }

  lemma LongIsRead(w: Bytes, at: nat, v: Word32)
    requires Holds(w, at, Octets32(v))
    ensures U32(w, at) == v
  {
    HoldsAt(w, at, Octets32(v));
    assert w[at + 0] == Octets32(v)[0] && w[at + 1] == Octets32(v)[1] && w[at + 2] == Octets32(v)[2] && w[at + 3] == Octets32(v)[3];
    DigitsOf(v);
  }

  lemma DigitsOf(v: Word32)
    ensures v / 0x100_0000 * 0x100_0000 + v / 0x1_0000 % 256 * 0x1_0000 + v / 0x100 % 256 * 0x100 + v % 256 == v
  {
    assert v / 0x100 == v / 0x1_0000 * 256 + v / 0x100 % 256;
    assert v / 0x1_0000 == v / 0x100_0000 * 256 + v / 0x1_0000 % 256;
  }

  lemma BodyIsRead(w: Bytes, at: nat, kind: Word16, classCode: Word16, ttl: Word32, rdata: Bytes)
    requires |rdata| <= 0xffff && Holds(w, at, Body(kind, classCode, ttl, rdata))
    ensures at + 10 + |rdata| <= |w|
    ensures U16(w, at) == kind && U16(w, at + 2) == classCode && U32(w, at + 4) == ttl && U16(w, at + 8) == |rdata|
    ensures w[at + 10..at + 10 + |rdata|] == rdata
  {
    HoldsParts(w, at, Octets16(kind) + Octets16(classCode), Octets32(ttl) + (Octets16(|rdata|) + rdata));
    HoldsParts(w, at, Octets16(kind), Octets16(classCode));
    HoldsParts(w, at + 4, Octets32(ttl), Octets16(|rdata|) + rdata);
    HoldsParts(w, at + 8, Octets16(|rdata|), rdata);
    WordIsRead(w, at, kind);
    WordIsRead(w, at + 2, classCode);
    LongIsRead(w, at + 4, ttl);
    WordIsRead(w, at + 8, |rdata|);
  }

  lemma RecordAfterIsRead(w: Bytes, at: nat, name: string, kind: Word16, classCode: Word16, ttl: Word32, rdata: Bytes)
    requires |rdata| <= 0xffff && Holds(w, at, Body(kind, classCode, ttl, rdata))
    ensures RecordAfter(w, Some((name, at))) == Some((Rr(name, kind, classCode, ttl, rdata), at + 10 + |rdata|))
  {
    BodyIsRead(w, at, kind, classCode, ttl, rdata);
  }

  lemma PointerIsRead(w: Bytes, at: nat)
    requires Holds(w, at, [0xc0, 0x0c]) && at > 12 && Name(w, 12, 12).Some?
    ensures Name(w, at, at) == Some((Name(w, 12, 12).value.0, at + 2))
  {
    HoldsAt(w, at, [0xc0, 0x0c]);
    assert w[at + 0] == 0xc0 && w[at + 1] == 0x0c;
  }

  lemma RootIsRead(w: Bytes, at: nat)
    requires Holds(w, at, [0])
    ensures Name(w, at, at) == Some(("", at + 1))
  {
    HoldsAt(w, at, [0]);
    assert w[at + 0] == 0;
  }

  /** An address record is read back with the question's name, to which it points. */
  lemma AddressIsRead(w: Bytes, at: nat, q: Question, ttl: Word32, a: Address, name: string)
    requires Proper(a) && Holds(w, at, AddressRecord(q, ttl, a)) && at > 12
    requires Name(w, 12, 12).Some? && Name(w, 12, 12).value.0 == name
    ensures ParseRecord(w, at) == Some((Rr(name, q.kind, q.classCode, ttl, a.octets), at + |AddressRecord(q, ttl, a)|))
  {
    HoldsParts(w, at, [0xc0, 0x0c], Body(q.kind, q.classCode, ttl, a.octets));
    PointerIsRead(w, at);
    RecordAfterIsRead(w, at + 2, name, q.kind, q.classCode, ttl, a.octets);
  }

  lemma OptIsRead(w: Bytes, at: nat, r: Record)
    requires |r.rdata| <= 0xffff && Holds(w, at, OptOctets(r))
    ensures ParseRecord(w, at) == Some((Rr("", r.kind, r.classCode, r.ttl, r.rdata), at + |OptOctets(r)|))
  {
    HoldsParts(w, at, [0], Body(r.kind, r.classCode, r.ttl, r.rdata));
    RootIsRead(w, at);
    RecordAfterIsRead(w, at + 1, "", r.kind, r.classCode, r.ttl, r.rdata);
  }

  function Rrs(name: string, q: Question, ttl: Word32, addresses: seq<Address>): (r: seq<Rr>)
    ensures |r| == |addresses|
  {
    seq(|addresses|, i requires 0 <= i < |addresses| => Rr(name, q.kind, q.classCode, ttl, addresses[i].octets))
  }

  lemma {:induction false} OneMore<T>(parse: nat -> Option<(T, nat)>, at: nat, count: nat, things: seq<T>, next: nat, last: T, end: nat)
    requires Many(parse, at, count) == Some((things, next)) && parse(next) == Some((last, end))
    ensures Many(parse, at, count + 1) == Some((things + [last], end))
    decreases count
  {
    if count == 0 {
      assert Many(parse, end, 0) == Some(([], end));
      assert [last] + [] == [] + [last];
    } else {
      var (first, after) := parse(at).value;
      var rest := Many(parse, after, count - 1).value.0;
      OneMore(parse, after, count - 1, rest, next, last, end);
      Associative([first], rest, [last]);
    }
  }

  lemma RrsAppend(name: string, q: Question, ttl: Word32, addresses: seq<Address>)
    requires addresses != []
    ensures var front, last := addresses[..|addresses| - 1], addresses[|addresses| - 1];
      Rrs(name, q, ttl, addresses) == Rrs(name, q, ttl, front) + [Rr(name, q.kind, q.classCode, ttl, last.octets)]
  {
  }

  lemma AddressFollows(w: Bytes, at: nat, q: Question, ttl: Word32, addresses: seq<Address>, name: string, next: nat)
    requires addresses != [] && next > 12 && Name(w, 12, 12).Some? && Name(w, 12, 12).value.0 == name
    requires var last := addresses[|addresses| - 1]; Proper(last) && Holds(w, next, AddressRecord(q, ttl, last))
    requires ParseRecords(w, at, |addresses| - 1) == Some((Rrs(name, q, ttl, addresses[..|addresses| - 1]), next))
    ensures ParseRecords(w, at, |addresses|) ==
      Some((Rrs(name, q, ttl, addresses), next + |AddressRecord(q, ttl, addresses[|addresses| - 1])|))
  {
    var front, last := addresses[..|addresses| - 1], addresses[|addresses| - 1];
    AddressIsRead(w, next, q, ttl, last, name);
    OneMore(RecordParser(w), at, |front|, Rrs(name, q, ttl, front), next, Rr(name, q.kind, q.classCode, ttl, last.octets),
            next + |AddressRecord(q, ttl, last)|);
    RrsAppend(name, q, ttl, addresses);
  }

  lemma {:induction false} AddressesAreRead(w: Bytes, at: nat, q: Question, ttl: Word32, addresses: seq<Address>, name: string) returns (next: nat)
    requires (forall a :: a in addresses ==> Proper(a)) && Holds(w, at, AddressRecords(q, ttl, addresses)) && at > 12
    requires Name(w, 12, 12).Some? && Name(w, 12, 12).value.0 == name
    ensures ParseRecords(w, at, |addresses|) == Some((Rrs(name, q, ttl, addresses), next))
    ensures next == at + |AddressRecords(q, ttl, addresses)|
  {
    next := at;
    if addresses != [] {
      var front, last := addresses[..|addresses| - 1], addresses[|addresses| - 1];
      AddressParts(w, at, q, ttl, addresses);
      next := AddressesAreRead(w, at, q, ttl, front, name);
      AddressFollows(w, at, q, ttl, addresses, name, next);
      next := next + |AddressRecord(q, ttl, last)|;
    }
  }

  lemma AddressParts(w: Bytes, at: nat, q: Question, ttl: Word32, addresses: seq<Address>)
    requires addresses != [] && (forall a :: a in addresses ==> Proper(a)) && Holds(w, at, AddressRecords(q, ttl, addresses))
    ensures var front, last := addresses[..|addresses| - 1], addresses[|addresses| - 1];
      && (forall a :: a in front ==> Proper(a)) && Proper(last)
      && Holds(w, at, AddressRecords(q, ttl, front)) && Holds(w, at + |AddressRecords(q, ttl, front)|, AddressRecord(q, ttl, last))
      && |AddressRecords(q, ttl, addresses)| == |AddressRecords(q, ttl, front)| + |AddressRecord(q, ttl, last)|
  {
    var front, last := addresses[..|addresses| - 1], addresses[|addresses| - 1];
    assert last in addresses && forall a :: a in front ==> a in addresses;
    HoldsParts(w, at, AddressRecords(q, ttl, front), AddressRecord(q, ttl, last));
  }

  lemma LabelsQuestionIsRead(w: Bytes, at: nat, labels: seq<string>, kind: Word16, classCode: Word16) returns (next: nat)
    requires AllGood(labels) && Holds(w, at, LabelsQuestion(labels, kind, classCode))
    ensures Name(w, at, at) == Some((JoinAll(labels), next)) && Holds(w, next, Octets16(kind) + Octets16(classCode))
    ensures next + 4 == at + |LabelsQuestion(labels, kind, classCode)|
  {
    next := at + |EncodeLabels(labels)| + 1;
    HoldsParts(w, at, EncodeLabels(labels) + [0], Octets16(kind) + Octets16(classCode));
    LabelsAreRead(w, at, at, labels);
  }

  lemma QuestionIsRead(w: Bytes, at: nat, labels: seq<string>, kind: Word16, classCode: Word16) returns (next: nat)
    requires AllGood(labels) && Holds(w, at, LabelsQuestion(labels, kind, classCode))
    ensures Name(w, at, at).Some? && Name(w, at, at).value.0 == JoinAll(labels)
    ensures ParseQuestion(w, at) == Some((Rr(JoinAll(labels), kind, classCode, 0, []), next))
    ensures next == at + |LabelsQuestion(labels, kind, classCode)|
  {
    var behind := LabelsQuestionIsRead(w, at, labels, kind, classCode);
    next := behind + 4;
    QuestionBehindName(w, at, JoinAll(labels), behind, kind, classCode);
  }

  lemma QuestionBehindName(w: Bytes, at: nat, name: string, next: nat, kind: Word16, classCode: Word16)
    requires Name(w, at, at) == Some((name, next)) && Holds(w, next, Octets16(kind) + Octets16(classCode))
    ensures ParseQuestion(w, at) == Some((Rr(name, kind, classCode, 0, []), next + 4))
  {
    TypeAndClassAreRead(w, next, name, kind, classCode);
    QuestionFollows(w, at, Some((name, next)));
  }

  lemma QuestionFollows(w: Bytes, at: nat, name: Option<(string, nat)>)
    requires name == Name(w, at, at)
    ensures ParseQuestion(w, at) == QuestionAfter(w, name)
  {
  }

  lemma TypeAndClassAreRead(w: Bytes, at: nat, name: string, kind: Word16, classCode: Word16)
    requires Holds(w, at, Octets16(kind) + Octets16(classCode))
    ensures QuestionAfter(w, Some((name, at))) == Some((Rr(name, kind, classCode, 0, []), at + 4))
  {
    HoldsParts(w, at, Octets16(kind), Octets16(classCode));
    WordIsRead(w, at, kind);
    WordIsRead(w, at + 2, classCode);
  }

  // ----- The round trip

  lemma HeaderIsRead(w: Bytes, id: Word16, high: Octet, low: Octet, answers: Word16, additionals: Word16)
    requires Holds(w, 0, Header(id, high, low, answers, additionals))
    ensures |w| >= 12 && U16(w, 0) == id && w[2] == high && w[3] == low && U16(w, 4) == 1
    ensures U16(w, 6) == answers && U16(w, 8) == 0 && U16(w, 10) == additionals
  {
    var h := Header(id, high, low, answers, additionals);
    assert h == Octets16(id) + ([high, low] + (Octets16(1) + (Octets16(answers) + (Octets16(0) + Octets16(additionals)))));
    HoldsParts(w, 0, Octets16(id), [high, low] + (Octets16(1) + (Octets16(answers) + (Octets16(0) + Octets16(additionals)))));
    HoldsParts(w, 2, [high, low], Octets16(1) + (Octets16(answers) + (Octets16(0) + Octets16(additionals))));
    HoldsParts(w, 4, Octets16(1), Octets16(answers) + (Octets16(0) + Octets16(additionals)));
    HoldsParts(w, 6, Octets16(answers), Octets16(0) + Octets16(additionals));
    HoldsParts(w, 8, Octets16(0), Octets16(additionals));
    HoldsAt(w, 2, [high, low]);
    assert w[2 + 0] == high && w[2 + 1] == low;
    WordIsRead(w, 0, id);
    WordIsRead(w, 4, 1);
    WordIsRead(w, 6, answers);
    WordIsRead(w, 8, 0);
    WordIsRead(w, 10, additionals);
  }

  /** What the parser is to find in a response. */
  function Expected(query: Query, answer: Answer): Message
    requires |query.questions| == 1 && answer.code <= 0x0fff
  {
    var q, opt := query.questions[0], OptRecord(query, answer.code);
    var name := Normalize(q.name);
    Message(query.id, HighFlags(query.flags, answer.authoritative), LowFlags(query.flags, answer.code),
            [Rr(name, q.kind, q.classCode, 0, [])], Rrs(name, q, answer.ttl, Given(answer)), [],
            OptRrs(opt))
  }

  /** The question of a message, and where the rest begins. */
  lemma QuestionAndRest(w: Bytes, name: string, kind: Word16, classCode: Word16, rest: Bytes) returns (at: nat)
    requires ByteName(name) && GoodName(name)
    requires Holds(w, 12, QuestionOctets(name, kind, classCode) + rest) && 12 + |QuestionOctets(name, kind, classCode) + rest| == |w|
    ensures Name(w, 12, 12).Some? && Name(w, 12, 12).value.0 == name
    ensures ParseQuestion(w, 12) == Some((Rr(name, kind, classCode, 0, []), at))
    ensures at > 12 && Holds(w, at, rest) && at + |rest| == |w|
  {
    SplitBytes(name);
    JoinOfSplit(name);
    HoldsParts(w, 12, QuestionOctets(name, kind, classCode), rest);
    at := QuestionIsRead(w, 12, Split(name), kind, classCode);
  }

  lemma OptRecordsAreRead(w: Bytes, at: nat, opt: Option<Record>)
    requires (opt.Some? ==> |opt.value.rdata| <= 0xffff) && Holds(w, at, OptPart(opt)) && at + |OptPart(opt)| == |w|
    ensures ParseRecords(w, at, if opt.Some? then 1 else 0) == Some((OptRrs(opt), |w|))
  {
    if opt.Some? {
      OptIsRead(w, at, opt.value);
      var rr := Rr("", opt.value.kind, opt.value.classCode, opt.value.ttl, opt.value.rdata);
      assert Many(RecordParser(w), at, 0) == Some(([], at));
      OneMore(RecordParser(w), at, 0, [], at, rr, |w|);
      assert [] + [rr] == [rr];
    }
  }

  lemma SectionsAreRead(w: Bytes, at: nat, name: string, q: Question, ttl: Word32, addresses: seq<Address>, opt: Option<Record>)
    requires |w| >= 12 && U16(w, 6) == |addresses| && U16(w, 8) == 0 && U16(w, 10) == (if opt.Some? then 1 else 0)
    requires (forall a :: a in addresses ==> Proper(a)) && (opt.Some? ==> |opt.value.rdata| <= 0xffff)
    requires at > 12 && Name(w, 12, 12).Some? && Name(w, 12, 12).value.0 == name
    requires Holds(w, at, AddressRecords(q, ttl, addresses) + OptPart(opt))
    requires at + |AddressRecords(q, ttl, addresses) + OptPart(opt)| == |w|
    ensures ParseSections(w, at) == Some((Rrs(name, q, ttl, addresses), [], OptRrs(opt)))
  {
    HoldsParts(w, at, AddressRecords(q, ttl, addresses), OptPart(opt));
    var next := AddressesAreRead(w, at, q, ttl, addresses, name);
    assert next == at + |AddressRecords(q, ttl, addresses)| && Holds(w, next, OptPart(opt));
    OptRecordsAreRead(w, next, opt);
    SectionsFollow(w, at, Rrs(name, q, ttl, addresses), next, OptRrs(opt));
  }

  lemma SectionsFollow(w: Bytes, at: nat, answers: seq<Rr>, next: nat, additionals: seq<Rr>)
    requires |w| >= 12 && ParseRecords(w, at, U16(w, 6)) == Some((answers, next))
    requires U16(w, 8) == 0 && ParseRecords(w, next, U16(w, 10)) == Some((additionals, |w|))
    ensures ParseSections(w, at) == Some((answers, [], additionals))
  {
    assert Many(RecordParser(w), next, 0) == Some(([], next));
  }

  function OptRrs(opt: Option<Record>): seq<Rr> {
    if opt.None? then [] else [Rr("", opt.value.kind, opt.value.classCode, opt.value.ttl, opt.value.rdata)]
  }

  lemma MessageIsRead(w: Bytes, id: Word16, high: Octet, low: Octet, name: string, q: Question, ttl: Word32, addresses: seq<Address>, opt: Option<Record>)
    requires ByteName(name) && GoodName(name) && |addresses| <= 0xffff
    requires (forall a :: a in addresses ==> Proper(a)) && (opt.Some? ==> |opt.value.rdata| <= 0xffff)
    requires w == Header(id, high, low, |addresses|, if opt.Some? then 1 else 0)
      + (QuestionOctets(name, q.kind, q.classCode) + (AddressRecords(q, ttl, addresses) + OptPart(opt)))
    ensures Parse(w) == Some(Message(id, high, low, [Rr(name, q.kind, q.classCode, 0, [])], Rrs(name, q, ttl, addresses), [], OptRrs(opt)))
  {
    var rest := AddressRecords(q, ttl, addresses) + OptPart(opt);
    var header := Header(id, high, low, |addresses|, if opt.Some? then 1 else 0);
    assert Holds(w, 0, w);
    HoldsParts(w, 0, header, QuestionOctets(name, q.kind, q.classCode) + rest);
    HeaderIsRead(w, id, high, low, |addresses|, if opt.Some? then 1 else 0);
    var at := QuestionAndRest(w, name, q.kind, q.classCode, rest);
    SectionsAreRead(w, at, name, q, ttl, addresses, opt);
    Assembled(w, Rr(name, q.kind, q.classCode, 0, []), at, Rrs(name, q, ttl, addresses), OptRrs(opt));
  }

  lemma Assembled(w: Bytes, question: Rr, at: nat, answers: seq<Rr>, additionals: seq<Rr>)
    requires |w| >= 12 && U16(w, 4) == 1 && ParseQuestion(w, 12) == Some((question, at))
    requires ParseSections(w, at) == Some((answers, [], additionals))
    ensures Parse(w) == Some(Message(U16(w, 0), w[2], w[3], [question], answers, [], additionals))
  {
  }

  /**
   * A response that the codec builds is read back: the normalized question, the
   * addresses in order with their TTL under the question's name, and the response code.
   */
  lemma ResponseIsReadBack(query: Query, answer: Answer)
    requires Typed(query, answer) && Encodable(query, answer)
    ensures EncodeResponse(query, answer).Ok? && Parse(EncodeResponse(query, answer).value) == Some(Expected(query, answer))
    ensures Code(Expected(query, answer)) == answer.code
  {
    var q, opt := query.questions[0], OptRecord(query, answer.code);
    OptFits(query, answer.code);
    assert q in query.questions;
    MessageIsRead(EncodeResponse(query, answer).value, query.id, HighFlags(query.flags, answer.authoritative),
                  LowFlags(query.flags, answer.code), Normalize(q.name), answer.question, answer.ttl, Given(answer), opt);
    CodeIsSplit(query, answer);
  }

  lemma OptFits(query: Query, code: Word16)
    requires forall r :: r in query.additionals ==> |r.rdata| <= 0xffff
    ensures OptRecord(query, code).Some? ==> |OptRecord(query, code).value.rdata| <= 0xffff
  {
    FindOptIn(query.additionals);
  }

  /** Four bits of the code stand in the header, the other eight in the OPT record, which is there if they are needed. */
  lemma CodeIsSplit(query: Query, answer: Answer)
    requires |query.questions| == 1 && answer.code <= 0x0fff
    ensures Code(Expected(query, answer)) == answer.code
  {
    var code := answer.code;
    var opt := OptRecord(query, code);
    assert LowFlags(query.flags, code) % 16 == code % 16;
    if opt.Some? {
      UpperBits(code, opt.value.ttl % 0x100_0000);
      assert opt.value.kind == 41;
    }
  }

  lemma UpperBits(code: Word16, low: int)
    requires code <= 0x0fff && 0 <= low < 0x100_0000
    ensures (code / 16 % 256 * 0x100_0000 + low) / 0x100_0000 == code / 16 && code == code / 16 * 16 + code % 16
  {
  }

  /** A query that the codec builds is read back as the one normalized question, with RD set. */
  lemma QueryIsReadBack(q: Question, id: Word16)
    requires ByteName(Normalize(q.name)) && GoodName(Normalize(q.name))
    ensures EncodeQuery(q, id).Ok?
    ensures Parse(EncodeQuery(q, id).value) == Some(Message(id, 1, 0, [Rr(Normalize(q.name), q.kind, q.classCode, 0, [])], [], [], []))
  {
    WithoutRecords(QuestionOctets(Normalize(q.name), q.kind, q.classCode), []);
    MessageIsRead(EncodeQuery(q, id).value, id, 1, 0, Normalize(q.name), q, 0, [], None);
  }

  lemma WithoutRecords(question: Bytes, opt: Bytes)
    ensures question + ([] + opt) == question + opt && question + [] == question
  {
  }

  /** An error response is read back with the query's ID, the question, no answers, and the whole code. */
  lemma ErrorIsReadBack(query: Query, code: Word16)
    requires (forall q :: q in query.questions ==> ByteName(Normalize(q.name))) && forall r :: r in query.additionals ==> |r.rdata| <= 0xffff
    requires ErrorEncodable(query, code)
    ensures EncodeError(query, code).Ok?
    ensures var q, m := query.questions[0], Parse(EncodeError(query, code).value);
      m == Some(Message(query.id, HighFlags(query.flags, false), LowFlags(query.flags, code),
                        [Rr(Normalize(q.name), q.kind, q.classCode, 0, [])], [], [], OptRrs(OptRecord(query, code))))
      && Code(m.value) == code
  {
    var q, opt := query.questions[0], OptRecord(query, code);
    assert q in query.questions;
    OptFits(query, code);
    WithoutRecords(QuestionOctets(Normalize(q.name), q.kind, q.classCode), Opt(query, code));
    MessageIsRead(EncodeError(query, code).value, query.id, HighFlags(query.flags, false), LowFlags(query.flags, code),
                  Normalize(q.name), q, 0, [], opt);
    CodeIsSplit(query, Answer(q, [], 0, code, false));
  }
}
