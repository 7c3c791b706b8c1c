/**
 * Building of DNS messages (src/dns/dns_codec.cpp) as a function of what goes into
 * them. Names are strings of characters below 256, one for each octet.
 */
module DnsCodecSpec {
  import opened Core
  import opened Names

  datatype Question = Question(name: string, kind: Word16, classCode: Word16)

  datatype Record = Record(kind: Word16, classCode: Word16, ttl: Word32, rdata: Bytes)

  datatype Address = V4(octets: Bytes) | V6(octets: Bytes)

  datatype Answer = Answer(question: Question, addresses: seq<Address>, ttl: Word32, code: Word16, authoritative: bool)

  /** A received query; `code` is its 12-bit response code, `flags` the third and fourth octet of its header. */
  datatype Query = Query(id: Word16, flags: Word16, code: Word16, questions: seq<Question>, additionals: seq<Record>)

  const A: Word16 := 1
  const AAAA: Word16 := 28
  const OPT: Word16 := 41

  predicate ByteName(name: string) {
    forall i :: 0 <= i < |name| ==> name[i] < 256 as char
  }

  /** Octets of an address of its family, as the address types of the source guarantee. */
  predicate Proper(a: Address) {
    |a.octets| == if a.V4? then 4 else 16
  }

  predicate Fits(kind: Word16, a: Address) {
    (kind == A ==> a.V4?) && (kind == AAAA ==> a.V6?)
  }

  function High(v: Word16): Octet {
    v / 256
  }

  function Low(v: Word16): Octet {
    v % 256
  }

  function Octets16(v: Word16): (r: Bytes)
    ensures |r| == 2
  {
    [High(v), Low(v)]
  }

  function Octets(name: string): (r: Bytes)
    requires ByteName(name)
    ensures |r| == |name| && forall i :: 0 <= i < |name| ==> r[i] == name[i] as int
  {
    seq(|name|, i requires 0 <= i < |name| => name[i] as int)
  }

  // ----- Names and queries

  function FirstDot(name: string): (i: nat)
    ensures i <= |name| && (i < |name| ==> name[i] == '.') && forall j :: 0 <= j < i ==> name[j] != '.'
  {
    if name == [] || name[0] == '.' then 0 else 1 + FirstDot(name[1..])
  }

  /** The parts of a name between its dots. */
  function Split(name: string): seq<string>
    decreases |name|
  {
    if name == [] then []
    else
      var i := FirstDot(name);
      [name[..i]] + (if i == |name| then [] else Split(name[i + 1..]))
  }

  predicate GoodLabel(text: string) {
    1 <= |text| <= 63
  }

  /** A label with its length in front. */
  function LabelOctets(text: string): (r: Bytes)
    requires ByteName(text) && GoodLabel(text)
  {
    [|text|] + Octets(text)
  }

  predicate AllGood(labels: seq<string>) {
    forall l :: l in labels ==> ByteName(l) && GoodLabel(l)
  }

  function EncodeLabels(labels: seq<string>): Bytes
    requires AllGood(labels)
  {
    if labels == [] then [] else LabelOctets(labels[0]) + EncodeLabels(labels[1..])
  }

  lemma {:induction false} SplitBytes(name: string)
    requires ByteName(name)
    ensures forall l :: l in Split(name) ==> ByteName(l)
    decreases |name|
  {
    if name != [] {
      var i := FirstDot(name);
      if i < |name| {
        SplitBytes(name[i + 1..]);
      }
    }
  }

  predicate GoodName(name: string) {
    name != [] && |name| <= 253 && name[0] != '.' && name[|name| - 1] != '.' && forall l :: l in Split(name) ==> GoodLabel(l)
  }

  /** A header with one question. */
  function Header(id: Word16, high: Octet, low: Octet, answers: Word16, additionals: Word16): (r: Bytes)
    ensures |r| == 12
  {
    [High(id), Low(id), high, low, 0, 1, High(answers), Low(answers), 0, 0, High(additionals), Low(additionals)]
  }

  function QuestionOctets(name: string, kind: Word16, classCode: Word16): (r: Bytes)
    requires ByteName(name) && GoodName(name)
  {
    SplitBytes(name);
    LabelsQuestion(Split(name), kind, classCode)
  }

  function LabelsQuestion(labels: seq<string>, kind: Word16, classCode: Word16): (r: Bytes)
    requires AllGood(labels)
    ensures |r| == |EncodeLabels(labels)| + 5
  {
    (EncodeLabels(labels) + [0]) + (Octets16(kind) + Octets16(classCode))
  }

  /** `encode_query_packet` */
  function EncodeQuery(q: Question, id: Word16): Result<Bytes>
    requires ByteName(Normalize(q.name))
  {
    var name := Normalize(q.name);
    if GoodName(name) then Ok(Header(id, 1, 0, 0, 0) + QuestionOctets(name, q.kind, q.classCode)) else Err(ProtocolFraming)
  }

  // ----- Responses

  /** A record behind its name: type, class, TTL and data. */
  function Body(kind: Word16, classCode: Word16, ttl: Word32, rdata: Bytes): (r: Bytes)
    requires |rdata| <= 0xffff
    ensures |r| == 10 + |rdata|
  {
    (Octets16(kind) + Octets16(classCode)) + (Octets32(ttl) + (Octets16(|rdata|) + rdata))
  }

  /** An address record whose name is a pointer to the question's name. */
  function AddressRecord(q: Question, ttl: Word32, a: Address): (r: Bytes)
    requires Proper(a)
    ensures |r| == 12 + |a.octets|
  {
    [0xc0, 0x0c] + Body(q.kind, q.classCode, ttl, a.octets)
  }

  function Octets32(v: Word32): (r: Bytes)
    ensures |r| == 4
  {
    [v / 0x100_0000, v / 0x1_0000 % 256, v / 0x100 % 256, v % 256]
  }

  function AddressRecords(q: Question, ttl: Word32, addresses: seq<Address>): Bytes
    requires forall a :: a in addresses ==> Proper(a)
  {
    if addresses == [] then []
    else AddressRecords(q, ttl, addresses[..|addresses| - 1]) + AddressRecord(q, ttl, addresses[|addresses| - 1])
  }

  function FindOpt(records: seq<Record>): Option<Record> {
    if records == [] then None
    else if records[0].kind == OPT then Some(records[0])
    else FindOpt(records[1..])
  }

  /** What `append_opt_record` appends; the response code's upper bits are the first octet of the TTL. */
  function OptRecord(query: Query, code: Word16): Option<Record> {
    var opt := FindOpt(query.additionals);
    if opt.None? && code <= 0x0f then None
    else if opt.None? then Some(Record(OPT, 1232, code / 16 % 256 * 0x100_0000, []))
    else
      var size := if opt.value.classCode < 512 then 512 else opt.value.classCode;
      Some(Record(OPT, size, code / 16 % 256 * 0x100_0000 + opt.value.ttl % 0x100_0000, opt.value.rdata))
  }

  function OptOctets(r: Record): Bytes
    requires |r.rdata| <= 0xffff
  {
    [0] + Body(r.kind, r.classCode, r.ttl, r.rdata)
  }

  predicate SameQuestion(a: Question, b: Question) {
    Normalize(a.name) == Normalize(b.name) && a.kind == b.kind && a.classCode == b.classCode
  }

  /** The addresses that go into a response. */
  function Given(answer: Answer): seq<Address> {
    if answer.code == 0 then answer.addresses else []
  }

  function Bit(flags: Word16, weight: nat): nat
    requires weight > 0
  {
    flags / weight % 2
  }

  /** A response: QR, the query's opcode and RD, and AA if the answer is authoritative. */
  function HighFlags(flags: Word16, authoritative: bool): Octet {
    0x80 + flags / 0x800 % 16 * 8 + (if authoritative then 4 else 0) + Bit(flags, 0x100)
  }

  /** RA, the query's CD, and the lower bits of the response code. */
  function LowFlags(flags: Word16, code: Word16): Octet {
    0x80 + Bit(flags, 0x10) * 16 + code % 16
  }

  predicate IsResponse(query: Query) {
    query.flags >= 0x8000
  }

  /** When `encode_response` for a received query succeeds. */
  predicate Encodable(query: Query, answer: Answer) {
    && !IsResponse(query) && |query.questions| == 1 && query.code == 0 && answer.code <= 0x0fff
    && SameQuestion(query.questions[0], answer.question) && |answer.addresses| <= 0xffff
    && GoodName(Normalize(query.questions[0].name))
    && forall a :: a in Given(answer) ==> Fits(answer.question.kind, a)
  }

  /** What the types of the source guarantee. */
  predicate Typed(query: Query, answer: Answer) {
    && (forall q :: q in query.questions ==> ByteName(Normalize(q.name)))
    && (forall a :: a in answer.addresses ==> Proper(a))
    && (forall r :: r in query.additionals ==> |r.rdata| <= 0xffff)
  }

  lemma {:induction false} FindOptIn(records: seq<Record>)
    ensures FindOpt(records).Some? ==> FindOpt(records).value in records
  {
    if records != [] {
      FindOptIn(records[1..]);
    }
  }

  function Opt(query: Query, code: Word16): (r: Bytes)
    requires forall r :: r in query.additionals ==> |r.rdata| <= 0xffff
  {
    FindOptIn(query.additionals);
    OptPart(OptRecord(query, code))
  }

  function OptPart(opt: Option<Record>): Bytes
    requires opt.Some? ==> |opt.value.rdata| <= 0xffff
  {
    if opt.None? then [] else OptOctets(opt.value)
  }

  /** `encode_response` for a received query, as the layout of the message. */
  function EncodeResponse(query: Query, answer: Answer): Result<Bytes>
    requires Typed(query, answer)
  {
    if !Encodable(query, answer) then Err(ProtocolFraming)
    else
      var q := query.questions[0];
      var header := Header(query.id, HighFlags(query.flags, answer.authoritative), LowFlags(query.flags, answer.code),
                           |Given(answer)|, if OptRecord(query, answer.code).Some? then 1 else 0);
      Ok(header + (QuestionOctets(Normalize(q.name), q.kind, q.classCode)
         + (AddressRecords(answer.question, answer.ttl, Given(answer)) + Opt(query, answer.code))))
  }

  predicate ErrorEncodable(query: Query, code: Word16) {
    !IsResponse(query) && |query.questions| == 1 && code <= 0x0fff && GoodName(Normalize(query.questions[0].name))
  }

  /** `encode_error_response`: the question comes back with the code, and without answers. */
  function EncodeError(query: Query, code: Word16): Result<Bytes>
    requires (forall q :: q in query.questions ==> ByteName(Normalize(q.name))) && forall r :: r in query.additionals ==> |r.rdata| <= 0xffff
  {
    if !ErrorEncodable(query, code) then Err(ProtocolFraming)
    else
      var q := query.questions[0];
      Ok(Header(query.id, HighFlags(query.flags, false), LowFlags(query.flags, code), 0, if OptRecord(query, code).Some? then 1 else 0)
         + (QuestionOctets(Normalize(q.name), q.kind, q.classCode) + Opt(query, code)))
  }
}

/** The building of messages itself: octets are appended one after the other, and some patched later. */
module DnsCodecs {
  import opened Core
  import opened Names
  import opened Spec = DnsCodecSpec

  method FindDot(name: string, begin: nat) returns (end: nat)
    requires begin <= |name|
    ensures end == begin + FirstDot(name[begin..])
  {
    end := begin;
    while end < |name| && name[end] != '.'
      invariant begin <= end <= |name| && begin + FirstDot(name[begin..]) == end + FirstDot(name[end..])
    {
      assert name[end..][1..] == name[end + 1..];
      end := end + 1;
    }
  }

  lemma {:induction false} EncodeOneMore(labels: seq<string>, last: string)
    requires AllGood(labels) && ByteName(last) && GoodLabel(last)
    ensures EncodeLabels(labels + [last]) == EncodeLabels(labels) + LabelOctets(last)
  {
    if labels == [] {
      assert [] + [last] == [last] && [last][1..] == [];
      NothingAppended(LabelOctets(last));
    } else {
      EncodeOneMore(labels[1..], last);
      assert (labels + [last])[1..] == labels[1..] + [last] && (labels + [last])[0] == labels[0];
      Associative(LabelOctets(labels[0]), EncodeLabels(labels[1..]), LabelOctets(last));
    }
  }

  lemma SplitFirst(name: string, begin: nat, end: nat)
    requires begin < |name| && end == begin + FirstDot(name[begin..])
    ensures end <= |name|
    ensures Split(name[begin..]) == [name[begin..end]] + (if end == |name| then [] else Split(name[end + 1..]))
  {
    var rest, i := name[begin..], end - begin;
    assert rest[..i] == name[begin..end];
    assert i < |rest| ==> rest[i + 1..] == name[end + 1..];
  }

  /** `done` are the labels of `name` in front of `begin`; they stand behind `output` in `wire`. */
  ghost predicate Appended(output: Bytes, name: string, wire: Bytes, done: seq<string>, rest: seq<string>) {
    && Split(name) == done + rest && AllGood(done)
    && wire == output + EncodeLabels(done)
  }

  lemma AppendedOneMore(output: Bytes, name: string, wire: Bytes, done: seq<string>, text: string, rest: seq<string>)
    requires Appended(output, name, wire, done, [text] + rest) && ByteName(text) && GoodLabel(text)
    ensures Appended(output, name, wire + LabelOctets(text), done + [text], rest)
  {
    Associative(done, [text], rest);
    EncodeOneMore(done, text);
    Associative(output, EncodeLabels(done), LabelOctets(text));
  }

  lemma AppendedFails(output: Bytes, name: string, wire: Bytes, done: seq<string>, text: string, rest: seq<string>)
    requires Appended(output, name, wire, done, [text] + rest) && !GoodLabel(text)
    ensures !AllGood(Split(name))
  {
    assert (done + ([text] + rest))[|done|] == text;
    assert text in Split(name);
  }

  lemma AppendedAll(output: Bytes, name: string, wire: Bytes, done: seq<string>)
    requires Appended(output, name, wire, done, [])
    ensures Some(wire) == Encoded(output, Split(name))
  {
    NothingAppended(done);
  }

  /** The labels behind `output`, if they can be encoded. */
  function Encoded(output: Bytes, labels: seq<string>): Option<Bytes> {
    if AllGood(labels) then Some(output + EncodeLabels(labels)) else None
  }

  lemma AppendedNone(output: Bytes, name: string)
    ensures Appended(output, name, output, [], Split(name))
  {
    assert [] + Split(name) == Split(name);
    NothingAppended(output);
  }

  /** The label that begins at `begin`, where it ends, and the labels behind it. */
  method NextLabel(name: string, begin: nat) returns (text: string, end: nat, ghost rest: seq<string>)
    requires ByteName(name) && begin < |name|
    ensures begin <= end <= |name| && (end < |name| ==> name[end] == '.') && ByteName(text)
    ensures Split(name[begin..]) == [text] + rest && rest == if end == |name| then [] else Split(name[end + 1..])
  {
    end := FindDot(name, begin);
    SplitFirst(name, begin, end);
    text := name[begin..end];
    rest := if end == |name| then [] else Split(name[end + 1..]);
  }

  /** The labels of a name one after the other, as long as they are neither empty nor too long. */
  method AppendLabels(output: Bytes, name: string) returns (r: Option<Bytes>)
    requires ByteName(name) && name != [] && name[|name| - 1] != '.'
    ensures r == Encoded(output, Split(name))
  {
    var wire: Bytes, begin := output, 0;
    ghost var done: seq<string>, left := [], Split(name);
    assert name[0..] == name;
    AppendedNone(output, name);
    while true
      invariant 0 <= begin < |name| && left == Split(name[begin..]) && Appended(output, name, wire, done, left)
      decreases |name| - begin
    {
      var text, end, rest := NextLabel(name, begin);
      if !GoodLabel(text) {
        AppendedFails(output, name, wire, done, text, rest);
        return None;
      }
      AppendedOneMore(output, name, wire, done, text, rest);
      wire := wire + LabelOctets(text);
      done, left := done + [text], rest;
      if end == |name| {
        AppendedAll(output, name, wire, done);
        return Some(wire);
      }
      begin := end + 1;
    }
  }

  method EncodeQueryPacket(q: Question, id: Word16) returns (r: Result<Bytes>)
    requires ByteName(Normalize(q.name))
    ensures r == EncodeQuery(q, id)
  {
    var name := Normalize(q.name);
    if name == [] || |name| > 253 || name[0] == '.' || name[|name| - 1] == '.' {
      return Err(ProtocolFraming);
    }
    var output := Octets16(id) + Octets16(0x0100) + Octets16(1) + Octets16(0) + Octets16(0) + Octets16(0);
    assert output == Header(id, 1, 0, 0, 0);
    SplitBytes(name);
    var labels := AppendLabels(output, name);
    if labels.None? {
      return Err(ProtocolFraming);
    }
    output := labels.value + [0];
    output := output + Octets16(q.kind);
    output := output + Octets16(q.classCode);
    QuestionInSteps(Header(id, 1, 0, 0, 0), EncodeLabels(Split(name)), q.kind, q.classCode);
    return Ok(output);
  }

  lemma QuestionInSteps(header: Bytes, labels: Bytes, kind: Word16, classCode: Word16)
    ensures header + labels + [0] + Octets16(kind) + Octets16(classCode) == header + ((labels + [0]) + (Octets16(kind) + Octets16(classCode)))
  {
  }

  // ----- Responses

  /** The response to a query of which only ID, question and RD are known, without OPT. */
  function EncodePlain(id: Word16, q: Question, recursionDesired: bool, answer: Answer): Result<Bytes>
    requires ByteName(Normalize(q.name)) && forall a :: a in answer.addresses ==> Proper(a)
  {
    var name := Normalize(q.name);
    if !SameQuestion(q, answer.question) || |answer.addresses| > 0xffff || !GoodName(name)
       || exists a :: a in Given(answer) && !Fits(answer.question.kind, a)
    then Err(ProtocolFraming)
    else
      var high := 0x80 + (if recursionDesired then 1 else 0) + (if answer.authoritative then 4 else 0);
      Ok(Header(id, high, 0x80 + answer.code % 16, |Given(answer)|, 0)
         + (QuestionOctets(name, q.kind, q.classCode) + AddressRecords(answer.question, answer.ttl, Given(answer))))
  }

  /** The records one after the other, as long as the addresses fit the question. */
  method AppendAddresses(start: Bytes, q: Question, ttl: Word32, addresses: seq<Address>) returns (r: Option<Bytes>)
    requires forall a :: a in addresses ==> Proper(a)
    ensures r == if forall a :: a in addresses ==> Fits(q.kind, a) then Some(start + AddressRecords(q, ttl, addresses)) else None
  {
    var response := start;
    assert start + [] == start;
    for i := 0 to |addresses|
      invariant forall a :: a in addresses[..i] ==> Fits(q.kind, a)
      invariant forall a :: a in addresses[..i] ==> Proper(a)
      invariant response == start + AddressRecords(q, ttl, addresses[..i])
    {
      var a := addresses[i];
      if (q.kind == A && !a.V4?) || (q.kind == AAAA && !a.V6?) {
        assert a in addresses && !Fits(q.kind, a);
        return None;
      }
      RecordsAppend(start, q, ttl, addresses, i);
      response := response + AddressRecord(q, ttl, a);
    }
    assert addresses[..|addresses|] == addresses;
    return Some(response);
  }

  lemma RecordsAppend(start: Bytes, q: Question, ttl: Word32, addresses: seq<Address>, i: nat)
    requires i < |addresses| && forall a :: a in addresses ==> Proper(a)
    ensures forall a :: a in addresses[..i + 1] ==> Proper(a) && (a in addresses[..i] || a == addresses[i])
    ensures start + AddressRecords(q, ttl, addresses[..i + 1]) == (start + AddressRecords(q, ttl, addresses[..i])) + AddressRecord(q, ttl, addresses[i])
  {
    assert addresses[..i + 1][..i] == addresses[..i] && addresses[..i + 1][i] == addresses[i];
    Associative(start, AddressRecords(q, ttl, addresses[..i]), AddressRecord(q, ttl, addresses[i]));
  }

  method EncodePlainResponse(id: Word16, q: Question, recursionDesired: bool, answer: Answer) returns (r: Result<Bytes>)
    requires ByteName(Normalize(q.name)) && forall a :: a in answer.addresses ==> Proper(a)
    ensures r == EncodePlain(id, q, recursionDesired, answer)
  {
    if !SameQuestion(q, answer.question) || |answer.addresses| > 0xffff {
      return Err(ProtocolFraming);
    }
    var encoded := EncodeQueryPacket(q, id);
    if encoded.Err? {
      return Err(encoded.error);
    }
    var given := Given(answer);
    ghost var question := QuestionOctets(Normalize(q.name), q.kind, q.classCode);
    var high: Octet := 0x80 + (if recursionDesired then 1 else 0) + (if answer.authoritative then 4 else 0);
    var response := PatchHeader(id, question, encoded.value, high, 0x80 + answer.code % 16, |given|);
    var appended := AppendAddresses(response, answer.question, answer.ttl, given);
    if appended.None? {
      return Err(ProtocolFraming);
    }
    Associative(Header(id, high, 0x80 + answer.code % 16, |given|, 0), question, AddressRecords(answer.question, answer.ttl, given));
    return Ok(appended.value);
  }

  /** Flags and the number of answers go into the header of the encoded query. */
  method PatchHeader(id: Word16, ghost question: Bytes, encoded: Bytes, high: Octet, low: Octet, answers: Word16) returns (response: Bytes)
    requires encoded == Header(id, 1, 0, 0, 0) + question
    ensures response == Header(id, high, low, answers, 0) + question
  {
    response := encoded[..12];
    response := response[2 := high];
    response := response[3 := low];
    response := response[6 := answers / 256];
    response := response[7 := answers % 256];
    assert response == Header(id, high, low, answers, 0) && encoded[12..] == question;
    response := response + encoded[12..];
  }

  // ----- Responses to received queries

  /** The OPT record, if there is to be one; its number is patched into the header. */
  method AppendOptRecord(response: Bytes, query: Query, code: Word16, ghost header: Bytes, ghost rest: Bytes) returns (r: Bytes)
    requires (forall r :: r in query.additionals ==> |r.rdata| <= 0xffff) && |header| == 12 && header[10] == 0 && header[11] == 0
    requires response == header + rest
    ensures r == header[11 := if OptRecord(query, code).Some? then 1 else 0] + (rest + Opt(query, code))
  {
    FindOptIn(query.additionals);
    var opt := FindOpt(query.additionals);
    if opt.None? && code <= 0x0f {
      assert header[11 := 0] == header && rest + [] == rest;
      return response;
    }
    var size := if opt.None? then 1232 else if opt.value.classCode < 512 then 512 else opt.value.classCode;
    var upper: Word32 := code / 16 % 256 * 0x100_0000;
    var ttl := if opt.None? then upper else upper + opt.value.ttl % 0x100_0000;
    var rdata := if opt.None? then [] else opt.value.rdata;
    r := response + [0] + Octets16(OPT) + Octets16(size) + Octets32(ttl) + Octets16(|rdata|) + rdata;
    OptInSteps(response, OPT, size, ttl, rdata);
    Associative(header, rest, OptOctets(Record(OPT, size, ttl, rdata)));
    r := PatchCount(r, header, rest + OptOctets(Record(OPT, size, ttl, rdata)));
  }

  method PatchCount(wire: Bytes, ghost header: Bytes, ghost rest: Bytes) returns (r: Bytes)
    requires wire == header + rest && |header| == 12 && header[10] == 0
    ensures r == header[11 := 1] + rest
  {
    r := wire[10 := 0];
    r := r[11 := 1];
    assert r == header[11 := 1] + rest;
  }

  lemma OptInSteps(response: Bytes, kind: Word16, size: Word16, ttl: Word32, rdata: Bytes)
    requires |rdata| <= 0xffff
    ensures response + [0] + Octets16(kind) + Octets16(size) + Octets32(ttl) + Octets16(|rdata|) + rdata ==
      response + OptOctets(Record(kind, size, ttl, rdata))
  {
    var k, c, t, n := Octets16(kind), Octets16(size), Octets32(ttl), Octets16(|rdata|);
    assert [0] + ((k + c) + (t + (n + rdata))) == [0] + k + c + t + n + rdata;
    assert response + ([0] + k + c + t + n + rdata) == response + [0] + k + c + t + n + rdata;
  }

  method EncodeQueryResponse(query: Query, answer: Answer) returns (r: Result<Bytes>)
    requires Typed(query, answer)
    ensures r == EncodeResponse(query, answer)
  {
    if IsResponse(query) || |query.questions| != 1 || query.code != 0 || answer.code > 0x0fff {
      return Err(ProtocolFraming);
    }
    var q := query.questions[0];
    assert q in query.questions;
    var plain := EncodePlainResponse(query.id, q, Bit(query.flags, 0x100) == 1, answer);
    if plain.Err? {
      return Err(ProtocolFraming);
    }
    ghost var question, records := QuestionOctets(Normalize(q.name), q.kind, q.classCode), AddressRecords(answer.question, answer.ttl, Given(answer));
    var high, low := HighFlags(query.flags, answer.authoritative), LowFlags(query.flags, answer.code);
    var wire := PatchFlags(plain.value, query.id, high, low, |Given(answer)|, question + records);
    wire := AppendOptRecord(wire, query, answer.code, Header(query.id, high, low, |Given(answer)|, 0), question + records);
    CountPatched(query.id, high, low, |Given(answer)|, if OptRecord(query, answer.code).Some? then 1 else 0);
    Associative(question, records, Opt(query, answer.code));
    return Ok(wire);
  }

  method PatchFlags(plain: Bytes, ghost id: Word16, high: Octet, low: Octet, ghost answers: Word16, ghost rest: Bytes) returns (wire: Bytes)
    requires |plain| >= 12 && plain == Header(id, plain[2], plain[3], answers, 0) + rest
    ensures wire == Header(id, high, low, answers, 0) + rest
  {
    wire := plain[2 := high];
    wire := wire[3 := low];
    assert wire == Header(id, high, low, answers, 0) + rest;
  }

  lemma CountPatched(id: Word16, high: Octet, low: Octet, answers: Word16, additionals: Octet)
    ensures Header(id, high, low, answers, 0)[11 := additionals] == Header(id, high, low, answers, additionals)
  {
  }

  method EncodeErrorResponse(query: Query, code: Word16) returns (r: Result<Bytes>)
    requires (forall q :: q in query.questions ==> ByteName(Normalize(q.name))) && forall r :: r in query.additionals ==> |r.rdata| <= 0xffff
    ensures r == EncodeError(query, code)
  {
    if IsResponse(query) || |query.questions| != 1 || code > 0x0fff {
      return Err(ProtocolFraming);
    }
    var q := query.questions[0];
    assert q in query.questions;
    var encoded := EncodeQueryPacket(q, query.id);
    if encoded.Err? {
      return Err(encoded.error);
    }
    ghost var question := QuestionOctets(Normalize(q.name), q.kind, q.classCode);
    var high, low := HighFlags(query.flags, false), LowFlags(query.flags, code);
    var wire := PatchFlags(encoded.value, query.id, high, low, 0, question);
    wire := AppendOptRecord(wire, query, code, Header(query.id, high, low, 0, 0), question);
    CountPatched(query.id, high, low, 0, if OptRecord(query, code).Some? then 1 else 0);
    return Ok(wire);
  }
}

/** A reference parser for DNS messages, after section 4.1 of RFC 1035. */
module DnsParser {
  import opened Core

  datatype Rr = Rr(name: string, kind: Word16, classCode: Word16, ttl: Word32, rdata: Bytes)

  datatype Message = Message(id: Word16, high: Octet, low: Octet, questions: seq<Rr>, answers: seq<Rr>, authorities: seq<Rr>, additionals: seq<Rr>)

  function U16(w: Bytes, at: nat): Word16
    requires at + 2 <= |w|
  {
    w[at] as int * 256 + w[at + 1]
  }

  function U32(w: Bytes, at: nat): Word32
    requires at + 4 <= |w|
  {
    Word32From(w[at], w[at + 1], w[at + 2], w[at + 3])
  }

  function Text(octets: Bytes): (r: string)
    ensures |r| == |octets| && forall i :: 0 <= i < |r| ==> r[i] == octets[i] as char
  {
    seq(|octets|, i requires 0 <= i < |octets| => octets[i] as char)
  }

  /** A domain name and the position behind it; a pointer leads to a name that starts before `bound`. */
  function Name(w: Bytes, at: nat, bound: nat): Option<(string, nat)>
    decreases bound, |w| - at
  {
    if at >= |w| then None
    else if w[at] == 0 then Some(("", at + 1))
    else if w[at] < 64 then
      var end := at + 1 + w[at];
      if end > |w| then None
      else match Name(w, end, bound)
        case None => None
        case Some((rest, next)) => Some((Text(w[at + 1..end]) + (if rest == "" then "" else "." + rest), next))
    else if w[at] >= 192 && at + 2 <= |w| then
      var target := (w[at] as int - 192) * 256 + w[at + 1];
      if target >= bound then None
      else match Name(w, target, target)
        case None => None
        case Some((name, _)) => Some((name, at + 2))
    else None
  }

  /** The fixed part of a question, behind its name. */
  function QuestionAfter(w: Bytes, name: Option<(string, nat)>): Option<(Rr, nat)> {
    match name
    case None => None
    case Some((text, next)) => if next + 4 > |w| then None else Some((Rr(text, U16(w, next), U16(w, next + 2), 0, []), next + 4))
  }

  function ParseQuestion(w: Bytes, at: nat): Option<(Rr, nat)> {
    QuestionAfter(w, Name(w, at, at))
  }

  /** The rest of a record, behind its name. */
  function RecordAfter(w: Bytes, name: Option<(string, nat)>): Option<(Rr, nat)> {
    match name
    case None => None
    case Some((text, next)) =>
      if next + 10 > |w| || next + 10 + U16(w, next + 8) > |w| then None
      else
        var end := next + 10 + U16(w, next + 8);
        Some((Rr(text, U16(w, next), U16(w, next + 2), U32(w, next + 4), w[next + 10..end]), end))
  }

  function ParseRecord(w: Bytes, at: nat): Option<(Rr, nat)> {
    RecordAfter(w, Name(w, at, at))
  }

  function RecordParser(w: Bytes): nat -> Option<(Rr, nat)> {
    (at: nat) => ParseRecord(w, at)
  }

  /** `count` things that `parse` reads, one behind the other. */
  function Many<T>(parse: nat -> Option<(T, nat)>, at: nat, count: nat): Option<(seq<T>, nat)>
    decreases count
  {
    if count == 0 then Some(([], at))
    else match parse(at)
      case None => None
      case Some((first, next)) =>
        match Many(parse, next, count - 1)
        case None => None
        case Some((rest, end)) => Some(([first] + rest, end))
  }

  function ParseRecords(w: Bytes, at: nat, count: nat): Option<(seq<Rr>, nat)> {
    Many(RecordParser(w), at, count)
  }

  /** The three sections of records, from `at` to the end of the message. */
  function ParseSections(w: Bytes, at: nat): Option<(seq<Rr>, seq<Rr>, seq<Rr>)>
    requires |w| >= 12
  {
    match ParseRecords(w, at, U16(w, 6))
    case None => None
    case Some((answers, at1)) =>
      match ParseRecords(w, at1, U16(w, 8))
      case None => None
      case Some((authorities, at2)) =>
        match ParseRecords(w, at2, U16(w, 10))
        case None => None
        case Some((additionals, end)) => if end == |w| then Some((answers, authorities, additionals)) else None
  }

  /** A message with one question, and nothing behind its last record. */
  function Parse(w: Bytes): Option<Message> {
    if |w| < 12 || U16(w, 4) != 1 then None
    else match ParseQuestion(w, 12)
      case None => None
      case Some((question, at)) =>
        match ParseSections(w, at)
        case None => None
        case Some((answers, authorities, additionals)) =>
          Some(Message(U16(w, 0), w[2], w[3], [question], answers, authorities, additionals))
  }

  /** The response code: four bits in the header, eight more in an OPT record (section 6.1.3 of RFC 6891). */
  function Code(m: Message): nat {
    m.low % 16 + 16 * ExtendedCode(m.additionals)
  }

  function ExtendedCode(additionals: seq<Rr>): nat {
    if additionals == [] then 0
    else if additionals[0].kind == 41 then additionals[0].ttl / 0x100_0000
    else ExtendedCode(additionals[1..])
  }
}
