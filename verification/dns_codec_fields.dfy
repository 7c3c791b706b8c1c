/**
 * The fields of the responses that the codec builds, read off the parsed messages with
 * the weights of section 4.1.1 of RFC 1035 and section 6.1.3 of RFC 6891, and exactly
 * which responses it builds.
 */
module DnsCodecFields {
  import opened Core
  import opened Names
  import opened DnsCodecSpec
  import opened DnsParser
  import opened DnsRoundTrip
  import DnsCodecs

  // ----- The header

  /** QR is set and TC clear, AA says what it is to say, RA is set, opcode, RD and CD are the query's, Z and AD are clear, and RCODE is the low part of the code. */
  predicate HeaderAnswers(m: Message, query: Query, authoritative: bool, code: Word16) {
    && m.id == query.id
    && m.high / 128 == 1 && m.high / 8 % 16 == query.flags / 0x800 % 16 && m.high / 4 % 2 == (if authoritative then 1 else 0)
    && m.high / 2 % 2 == 0 && m.high % 2 == query.flags / 0x100 % 2
    && m.low / 128 == 1 && m.low / 64 % 2 == 0 && m.low / 32 % 2 == 0 && m.low / 16 % 2 == query.flags / 0x10 % 2
    && m.low % 16 == code % 16
  }

  lemma HighBits(flags: Word16, authoritative: bool)
    ensures var high := HighFlags(flags, authoritative);
      && high / 128 == 1 && high / 8 % 16 == flags / 0x800 % 16 && high / 4 % 2 == (if authoritative then 1 else 0)
      && high / 2 % 2 == 0 && high % 2 == flags / 0x100 % 2
  {
  }

  lemma LowBits(flags: Word16, code: Word16)
    ensures var low := LowFlags(flags, code);
      && low / 128 == 1 && low / 64 % 2 == 0 && low / 32 % 2 == 0 && low / 16 % 2 == flags / 0x10 % 2 && low % 16 == code % 16
  {
  }

  // ----- The OPT record

  /** Record `i` is the first OPT record. */
  predicate IsFirstOpt(records: seq<Record>, i: nat) {
    i < |records| && records[i].kind == 41 && forall j: nat :: j < i ==> records[j].kind != 41
  }

  /**
   * A query with an OPT record gets one back: its size, but at least 512, its version and
   * flags, its options, and the upper part of the code. Any other query gets one only if
   * the code needs it.
   */
  ghost predicate OptAnswers(m: Message, query: Query, code: Word16)
    requires code <= 4095
  {
    && (forall i: nat :: IsFirstOpt(query.additionals, i) ==>
          var o := query.additionals[i];
          m.additionals == [Rr("", 41, if o.classCode < 512 then 512 else o.classCode, code / 16 * 0x100_0000 + o.ttl % 0x100_0000, o.rdata)])
    && ((forall r :: r in query.additionals ==> r.kind != 41) ==>
          m.additionals == if code < 16 then [] else [Rr("", 41, 1232, code / 16 * 0x100_0000, [])])
  }

  lemma {:induction false} FoundIsFirst(records: seq<Record>)
    ensures forall i: nat :: IsFirstOpt(records, i) ==> FindOpt(records) == Some(records[i])
    ensures (forall r :: r in records ==> r.kind != 41) ==> FindOpt(records) == None
  {
    if records != [] {
      FoundIsFirst(records[1..]);
      forall i: nat | IsFirstOpt(records, i) ensures FindOpt(records) == Some(records[i]) {
        if i > 0 {
          assert records[0].kind != 41;
          assert forall j: nat :: j < i - 1 ==> records[1..][j] == records[j + 1];
          assert IsFirstOpt(records[1..], i - 1);
        }
      }
    }
  }

  lemma OptIsAnswered(m: Message, query: Query, code: Word16)
    requires code <= 0x0fff && m.additionals == OptRrs(OptRecord(query, code))
    ensures OptAnswers(m, query, code)
  {
    FoundIsFirst(query.additionals);
    assert code / 16 % 256 == code / 16;
  }

  // ----- The messages

  /** The one question of the query, as it is normalized. */
  predicate QuestionAnswers(m: Message, query: Query) {
    |query.questions| == 1 && var q := query.questions[0];
    m.questions == [Rr(Normalize(q.name), q.kind, q.classCode, 0, [])]
  }

  /** The answer section holds the addresses in order, under the question's name, with the TTL that was given, and nothing for a failure. */
  predicate AddressesAnswer(m: Message, query: Query, answer: Answer) {
    && |query.questions| == 1 && m.authorities == []
    && |m.answers| == (if answer.code == 0 then |answer.addresses| else 0)
    && forall i :: 0 <= i < |m.answers| ==>
         m.answers[i] == Rr(Normalize(query.questions[0].name), answer.question.kind, answer.question.classCode, answer.ttl, answer.addresses[i].octets)
  }

  /** A response that is built reads as the answer to its query, field for field. */
  lemma ResponseFields(query: Query, answer: Answer)
    requires Typed(query, answer) && EncodeResponse(query, answer).Ok?
    ensures answer.code <= 4095
    ensures var m := Parse(EncodeResponse(query, answer).value);
      && m.Some? && HeaderAnswers(m.value, query, answer.authoritative, answer.code) && QuestionAnswers(m.value, query)
      && AddressesAnswer(m.value, query, answer) && OptAnswers(m.value, query, answer.code)
  {
    ResponseIsReadBack(query, answer);
    HighBits(query.flags, answer.authoritative);
    LowBits(query.flags, answer.code);
    OptIsAnswered(Expected(query, answer), query, answer.code);
  }

  /** An error response that is built reads as the failure of its query, field for field. */
  lemma ErrorFields(query: Query, code: Word16)
    requires (forall q :: q in query.questions ==> ByteName(Normalize(q.name))) && forall r :: r in query.additionals ==> |r.rdata| <= 0xffff
    requires EncodeError(query, code).Ok?
    ensures code <= 4095
    ensures var m := Parse(EncodeError(query, code).value);
      && m.Some? && HeaderAnswers(m.value, query, false, code) && QuestionAnswers(m.value, query)
      && m.value.answers == [] && m.value.authorities == [] && OptAnswers(m.value, query, code)
  {
    ErrorIsReadBack(query, code);
    HighBits(query.flags, false);
    LowBits(query.flags, code);
    OptIsAnswered(Parse(EncodeError(query, code).value).value, query, code);
  }

  /** A response to a query of which only ID, question and RD are known: opcode and CD are clear, and there is no OPT record for the upper part of the code. */
  lemma PlainFields(id: Word16, q: Question, recursionDesired: bool, answer: Answer)
    requires ByteName(Normalize(q.name)) && forall a :: a in answer.addresses ==> Proper(a)
    requires DnsCodecs.EncodePlain(id, q, recursionDesired, answer).Ok?
    ensures var m, given := Parse(DnsCodecs.EncodePlain(id, q, recursionDesired, answer).value), Given(answer);
      && m.Some? && m.value.id == id && m.value.questions == [Rr(Normalize(q.name), q.kind, q.classCode, 0, [])]
      && m.value.high == 128 + (if answer.authoritative then 4 else 0) + (if recursionDesired then 1 else 0)
      && m.value.low == 128 + answer.code % 16 && m.value.authorities == [] && m.value.additionals == []
      && |m.value.answers| == (if answer.code == 0 then |answer.addresses| else 0)
      && forall i :: 0 <= i < |m.value.answers| ==>
           m.value.answers[i] == Rr(Normalize(q.name), q.kind, q.classCode, answer.ttl, answer.addresses[i].octets)
  {
    var w := DnsCodecs.EncodePlain(id, q, recursionDesired, answer).value;
    var high: Octet := 128 + (if answer.authoritative then 4 else 0) + (if recursionDesired then 1 else 0);
    NothingAppended(AddressRecords(answer.question, answer.ttl, Given(answer)));
    MessageIsRead(w, id, high, 128 + answer.code % 16, Normalize(q.name), answer.question, answer.ttl, Given(answer), None);
  }

  /** A query that is built has RD set and nothing else, and the question of its normalized name. */
  lemma QueryFields(q: Question, id: Word16)
    requires ByteName(Normalize(q.name)) && EncodeQuery(q, id).Ok?
    ensures var m := Parse(EncodeQuery(q, id).value);
      && m.Some? && m.value.id == id && m.value.high == 1 && m.value.low == 0
      && m.value.questions == [Rr(Normalize(q.name), q.kind, q.classCode, 0, [])]
      && m.value.answers == [] && m.value.authorities == [] && m.value.additionals == []
  {
    QueryIsReadBack(q, id);
  }

  // ----- Which messages are built

  ghost predicate HasDot(name: string, i: nat, j: nat) {
    exists k: nat :: i <= k < j && k < |name| && name[k] == '.'
  }

  predicate DoubleDot(name: string, i: nat) {
    i + 1 < |name| && name[i] == '.' && name[i + 1] == '.'
  }

  /** Labels of 1 to 63 octets, told from the dots alone: none at the start, no two together, and one among any 64 octets. */
  ghost predicate Dotted(name: string) {
    && (name != [] ==> name[0] != '.')
    && (forall i: nat :: !DoubleDot(name, i))
    && (forall i: nat, j: nat :: j <= |name| && i + 64 <= j ==> HasDot(name, i, j))
  }

  /** A name that a message can hold. */
  ghost predicate Fitting(name: string) {
    1 <= |name| <= 253 && name[|name| - 1] != '.' && Dotted(name)
  }

  predicate AllLabels(labels: seq<string>) {
    forall l :: l in labels ==> GoodLabel(l)
  }

  lemma OneMoreLabel(first: string, others: seq<string>)
    ensures AllLabels([first] + others) <==> GoodLabel(first) && AllLabels(others)
  {
    assert first in [first] + others;
    assert forall l :: l in others ==> l in [first] + others;
  }

  /** `name` begins with `i` octets other than dots, and then ends or goes on with a dot and `rest`. */
  predicate Begins(name: string, i: nat, rest: string) {
    && i <= |name| && (forall j :: 0 <= j < i ==> name[j] != '.')
    && (if i == |name| then rest == [] else name[i] == '.' && rest == name[i + 1..])
  }

  lemma SplitStep(name: string) returns (i: nat, rest: string)
    requires name != []
    ensures Begins(name, i, rest) && |rest| < |name| && Split(name) == [name[..i]] + Split(rest)
  {
    i := FirstDot(name);
    rest := if i == |name| then [] else name[i + 1..];
  }

  lemma TailIsDotted(name: string, i: nat, rest: string)
    requires Dotted(name) && name != [] && Begins(name, i, rest)
    ensures 1 <= i <= 63 && Dotted(rest)
  {
    assert i >= 64 ==> HasDot(name, 0, 64);
    assert !DoubleDot(name, i);
    forall k: nat ensures !DoubleDot(rest, k) {
      assert !DoubleDot(name, i + 1 + k);
    }
    forall k: nat, j: nat | j <= |rest| && k + 64 <= j ensures HasDot(rest, k, j) {
      assert HasDot(name, i + 1 + k, i + 1 + j);
      var d: nat :| i + 1 + k <= d < i + 1 + j && d < |name| && name[d] == '.';
      assert rest[d - i - 1] == '.';
    }
  }

  lemma WholeIsDotted(name: string, i: nat, rest: string)
    requires name != [] && Begins(name, i, rest) && 1 <= i <= 63 && Dotted(rest)
    ensures Dotted(name)
  {
    forall k: nat ensures !DoubleDot(name, k) {
      if i < k && k + 1 < |name| {
        assert !DoubleDot(rest, k - i - 1);
      }
    }
    forall k: nat, j: nat | j <= |name| && k + 64 <= j ensures HasDot(name, k, j) {
      if k > i {
        assert HasDot(rest, k - i - 1, j - i - 1);
        var d: nat :| k - i - 1 <= d < j - i - 1 && d < |rest| && rest[d] == '.';
        assert name[d + i + 1] == '.';
      }
    }
  }

  lemma {:induction false} LabelsGoodIff(name: string)
    ensures AllLabels(Split(name)) <==> Dotted(name)
    decreases |name|
  {
    if name != [] {
      var i, rest := SplitStep(name);
      LabelsGoodIff(rest);
      OneMoreLabel(name[..i], Split(rest));
      if Dotted(name) {
        TailIsDotted(name, i, rest);
      }
      if 1 <= i <= 63 && Dotted(rest) {
        WholeIsDotted(name, i, rest);
      }
    }
  }

  lemma GoodIffFitting(name: string)
    ensures GoodName(name) <==> Fitting(name)
  {
    LabelsGoodIff(name);
  }

  /** A response is built exactly for a query without QR, with code 0 and one question, which is the answer's, of a name that fits, and for addresses of the type asked for. */
  lemma ResponseIsBuiltIff(query: Query, answer: Answer)
    requires Typed(query, answer)
    ensures EncodeResponse(query, answer).Ok? <==>
      && query.flags / 0x8000 == 0 && query.code == 0 && |query.questions| == 1 && answer.code <= 4095 && |answer.addresses| <= 65535
      && var q := query.questions[0];
         && Normalize(q.name) == Normalize(answer.question.name) && q.kind == answer.question.kind && q.classCode == answer.question.classCode
         && Fitting(Normalize(q.name))
         && (answer.code == 0 && q.kind == 1 ==> forall a :: a in answer.addresses ==> |a.octets| == 4)
         && (answer.code == 0 && q.kind == 28 ==> forall a :: a in answer.addresses ==> |a.octets| == 16)
    ensures EncodeResponse(query, answer).Err? ==> EncodeResponse(query, answer).error == ProtocolFraming
  {
    if |query.questions| == 1 {
      GoodIffFitting(Normalize(query.questions[0].name));
    }
  }

  /** An error response is built exactly for a query without QR and with one question of a name that fits. */
  lemma ErrorIsBuiltIff(query: Query, code: Word16)
    requires (forall q :: q in query.questions ==> ByteName(Normalize(q.name))) && forall r :: r in query.additionals ==> |r.rdata| <= 0xffff
    ensures EncodeError(query, code).Ok? <==>
      query.flags / 0x8000 == 0 && |query.questions| == 1 && code <= 4095 && Fitting(Normalize(query.questions[0].name))
    ensures EncodeError(query, code).Err? ==> EncodeError(query, code).error == ProtocolFraming
  {
    if |query.questions| == 1 {
      GoodIffFitting(Normalize(query.questions[0].name));
    }
  }

  /** A query is built exactly for a name that fits. */
  lemma QueryIsBuiltIff(q: Question, id: Word16)
    requires ByteName(Normalize(q.name))
    ensures EncodeQuery(q, id).Ok? <==> Fitting(Normalize(q.name))
    ensures EncodeQuery(q, id).Err? ==> EncodeQuery(q, id).error == ProtocolFraming
  {
    GoodIffFitting(Normalize(q.name));
  }
}
