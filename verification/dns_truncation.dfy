/**
 * Shortening a response to what fits into a datagram (`truncate_udp_response`,
 * src/dns/dns_codec.cpp). How a message is written is an arbitrary function.
 */
module DnsTruncationSpec {
  import opened Core
  import opened Names

  const OPT: Word16 := 41

  datatype Record = Record(name: string, kind: Word16, classCode: Word16, rdata: Bytes)

  /** What the records of an RRset have in common (section 5 of RFC 2181). */
  datatype Key = Key(name: string, kind: Word16, classCode: Word16)

  datatype Sections = Sections(additional: seq<Record>, authority: seq<Record>, answers: seq<Record>)

  /** A message with a header. */
  type Wire = w: Bytes | |w| >= 12 witness [0, 0, 0, 0, 0, 0, 0, 0, 0, 0, 0, 0]

  /** The writer's answer for the sections of a message; nothing if it fails. */
  type Writer = Sections -> Option<Wire>

  function KeyOf(r: Record): Key {
    Key(Normalize(r.name), r.kind, r.classCode)
  }

  function KeysOf(records: seq<Record>): set<Key> {
    set r | r in records :: KeyOf(r)
  }

  /** Records belong to the same RRset if they agree in name, up to normalization, type and class. */
  lemma SameSetIff(a: Record, b: Record)
    ensures KeyOf(a) == KeyOf(b) <==> Normalize(a.name) == Normalize(b.name) && a.kind == b.kind && a.classCode == b.classCode
  {
  }

  /** The records of all other RRsets, in order. */
  function Without(records: seq<Record>, keys: set<Key>): seq<Record> {
    if records == [] then []
    else (if KeyOf(records[0]) in keys then [] else [records[0]]) + Without(records[1..], keys)
  }

  function WithoutOpt(records: seq<Record>): seq<Record> {
    if records == [] then []
    else (if records[0].kind == OPT then [] else [records[0]]) + WithoutOpt(records[1..])
  }

  function OnlyOpt(records: seq<Record>): seq<Record> {
    if records == [] then []
    else (if records[0].kind == OPT then [records[0]] else []) + OnlyOpt(records[1..])
  }

  /** The sections in the order in which they give records up: additional, authority, answers. */
  function Section(s: Sections, k: nat): seq<Record> {
    if k == 0 then s.additional else if k == 1 then s.authority else s.answers
  }

  function WithSection(s: Sections, k: nat, records: seq<Record>): Sections {
    if k == 0 then s.(additional := records) else if k == 1 then s.(authority := records) else s.(answers := records)
  }

  predicate Removable(r: Record, k: nat) {
    !(k == 0 && r.kind == OPT)
  }

  /** The last record of a section that may be removed. */
  function LastRemovable(records: seq<Record>, k: nat): (r: Option<Record>)
    ensures r.Some? ==> r.value in records && Removable(r.value, k)
    ensures r.None? ==> forall x :: x in records ==> !Removable(x, k)
  {
    if records == [] then None
    else if Removable(records[|records| - 1], k) then Some(records[|records| - 1])
    else LastRemovable(records[..|records| - 1], k)
  }

  /** One RRset less in section `k`, if there is one to be removed. */
  function Shorter(s: Sections, k: nat): Option<Sections> {
    match LastRemovable(Section(s, k), k)
    case None => None
    case Some(r) => Some(WithSection(s, k, Without(Section(s, k), {KeyOf(r)})))
  }

  lemma {:induction false} WithoutMembers(records: seq<Record>, keys: set<Key>)
    ensures forall r :: r in Without(records, keys) <==> r in records && KeyOf(r) !in keys
    ensures |Without(records, keys)| <= |records|
    ensures (exists r :: r in records && KeyOf(r) in keys) ==> |Without(records, keys)| < |records|
  {
    if records != [] {
      WithoutMembers(records[1..], keys);
      assert forall r :: r in records <==> r == records[0] || r in records[1..];
    }
  }

  lemma ShorterIsShorter(s: Sections, k: nat)
    ensures Shorter(s, k).Some? ==> |Section(Shorter(s, k).value, k)| < |Section(s, k)|
  {
    var r := LastRemovable(Section(s, k), k);
    if r.Some? {
      WithoutMembers(Section(s, k), {KeyOf(r.value)});
    }
  }

  /** What is tried, one stage after the other, from section `k` on; the OPT records go last. */
  function Stages(s: Sections, k: nat): seq<Sections>
    requires k <= 3
    decreases 3 - k, |Section(s, k)|
  {
    if k == 3 then [s.(additional := WithoutOpt(s.additional))]
    else
      var t := Shorter(s, k);
      ShorterIsShorter(s, k);
      if t.None? then Stages(s, k + 1) else [t.value] + Stages(t.value, k)
  }

  /** The first stage that fits, with TC set; a stage that cannot be written ends the attempt. */
  function FirstFit(write: Writer, stages: seq<Sections>, maximum: nat): Result<Bytes> {
    if stages == [] then Err(ProtocolFraming)
    else
      var wire := write(stages[0]);
      if wire.None? then Err(ProtocolFraming)
      else if |wire.value| <= maximum then Ok(SetTc(wire.value))
      else FirstFit(write, stages[1..], maximum)
  }

  function SetTc(wire: Wire): (r: Wire)
    ensures |r| == |wire| && r[2] / 2 % 2 == 1
  {
    if wire[2] / 2 % 2 == 1 then wire else wire[2 := wire[2] + 2]
  }

  /** `parsed` is what the parser makes of the response. */
  function Truncate(write: Writer, response: Bytes, parsed: Option<Sections>, maximum: nat): Result<Bytes> {
    if maximum < 12 then Err(ProtocolFraming)
    else if |response| <= maximum then Ok(response)
    else if parsed.None? then Err(ProtocolFraming)
    else FirstFit(write, Stages(parsed.value, 0), maximum)
  }

  // ----- What the stages keep

  /** `after` is `before` without some of its RRsets, which are missing altogether. */
  ghost predicate KeepsSets(before: seq<Record>, after: seq<Record>) {
    after == Without(before, KeysOf(before) - KeysOf(after))
  }

  lemma {:induction false} WithoutNothing(records: seq<Record>, keys: set<Key>)
    requires keys !! KeysOf(records)
    ensures Without(records, keys) == records
  {
    if records != [] {
      assert records[0] in records && KeysOf(records[1..]) <= KeysOf(records);
      WithoutNothing(records[1..], keys);
      HeadAndTail(records);
    }
  }

  lemma {:induction false} WithoutSame(records: seq<Record>, a: set<Key>, b: set<Key>)
    requires forall k :: k in KeysOf(records) ==> (k in a <==> k in b)
    ensures Without(records, a) == Without(records, b)
  {
    if records != [] {
      assert records[0] in records && KeysOf(records[1..]) <= KeysOf(records);
      WithoutSame(records[1..], a, b);
    }
  }

  lemma {:induction false} WithoutTwice(records: seq<Record>, a: set<Key>, b: set<Key>)
    ensures Without(Without(records, a), b) == Without(records, a + b)
  {
    if records != [] {
      WithoutTwice(records[1..], a, b);
      var rest := Without(records[1..], a);
      assert ([records[0]] + rest)[1..] == rest && [] + rest == rest;
    }
  }

  lemma KeepsItself(records: seq<Record>)
    ensures KeepsSets(records, records)
  {
    WithoutNothing(records, KeysOf(records) - KeysOf(records));
  }

  lemma KeepsNothing(records: seq<Record>)
    ensures KeepsSets(records, [])
  {
    WithoutMembers(records, KeysOf(records) - KeysOf([]));
    var left := Without(records, KeysOf(records) - KeysOf([]));
    if left != [] {
      var r := SomeElement(left);
    }
  }

  lemma KeepsFewer(before: seq<Record>, middle: seq<Record>, key: Key)
    requires KeepsSets(before, middle)
    ensures KeepsSets(before, Without(middle, {key}))
  {
    var gone := KeysOf(before) - KeysOf(middle);
    var after := Without(middle, {key});
    WithoutTwice(before, gone, {key});
    WithoutMembers(middle, {key});
    WithoutMembers(before, gone);
    forall k | k in KeysOf(before) ensures k in gone + {key} <==> k in KeysOf(before) - KeysOf(after) {
      if k in KeysOf(middle) && k != key {
        var r :| r in middle && KeyOf(r) == k;
        assert r in after;
      }
    }
    WithoutSame(before, gone + {key}, KeysOf(before) - KeysOf(after));
  }

  lemma {:induction false} OptStays(records: seq<Record>, key: Key)
    requires key.kind != OPT
    ensures OnlyOpt(Without(records, {key})) == OnlyOpt(records)
  {
    if records != [] {
      OptStays(records[1..], key);
      var rest := Without(records[1..], {key});
      assert ([records[0]] + rest)[1..] == rest && [] + rest == rest;
    }
  }

  lemma {:induction false} WithoutOptMembers(records: seq<Record>)
    ensures forall r :: r in WithoutOpt(records) <==> r in records && r.kind != OPT
  {
    if records != [] {
      WithoutOptMembers(records[1..]);
      assert forall r :: r in records <==> r == records[0] || r in records[1..];
    }
  }

  /** Sections give records up in order, and OPT records go only when nothing else is left. */
  ghost predicate InOrder(p: Sections, t: Sections) {
    && ((exists r :: r in t.additional && r.kind != OPT) ==> t.authority == p.authority && t.answers == p.answers)
    && (t.authority != [] ==> t.answers == p.answers)
    && (OnlyOpt(t.additional) == OnlyOpt(p.additional) || (t.additional == [] && t.authority == [] && t.answers == []))
  }

  ghost predicate KeepsAllSets(p: Sections, t: Sections) {
    KeepsSets(p.additional, t.additional) && KeepsSets(p.authority, t.authority) && KeepsSets(p.answers, t.answers)
  }

  /** A stage while section `k` is giving records up. */
  ghost predicate AtSection(p: Sections, s: Sections, k: nat) {
    && KeepsAllSets(p, s) && OnlyOpt(s.additional) == OnlyOpt(p.additional)
    && (k > 0 ==> forall r :: r in s.additional ==> r.kind == OPT)
    && (k > 1 ==> s.authority == []) && (k > 2 ==> s.answers == [])
    && (k < 1 ==> s.authority == p.authority) && (k < 2 ==> s.answers == p.answers)
  }

  lemma ShorterStays(p: Sections, s: Sections, k: nat)
    requires k < 3 && AtSection(p, s, k) && Shorter(s, k).Some?
    ensures AtSection(p, Shorter(s, k).value, k) && InOrder(p, Shorter(s, k).value)
  {
    var r := LastRemovable(Section(s, k), k).value;
    KeepsFewer(Section(p, k), Section(s, k), KeyOf(r));
    WithoutMembers(Section(s, k), {KeyOf(r)});
    if k == 0 {
      OptStays(s.additional, KeyOf(r));
    }
  }

  lemma NothingRemovable(p: Sections, s: Sections, k: nat)
    requires k < 3 && AtSection(p, s, k) && Shorter(s, k).None?
    ensures AtSection(p, s, k + 1)
  {
    if k == 1 && s.authority != [] {
      var r := SomeElement(s.authority);
    }
    if k == 2 && s.answers != [] {
      var r := SomeElement(s.answers);
    }
  }

  lemma {:induction false} StagesKeep(p: Sections, s: Sections, k: nat)
    requires k <= 3 && AtSection(p, s, k)
    ensures forall t :: t in Stages(s, k) ==> KeepsAllSets(p, t) && InOrder(p, t)
    decreases 3 - k, |Section(s, k)|
  {
    if k == 3 {
      WithoutOptMembers(s.additional);
      KeepsNothing(p.additional);
      if WithoutOpt(s.additional) != [] {
        var r := SomeElement(WithoutOpt(s.additional));
      }
    } else if Shorter(s, k).None? {
      NothingRemovable(p, s, k);
      StagesKeep(p, s, k + 1);
    } else {
      ShorterStays(p, s, k);
      ShorterIsShorter(s, k);
      StagesKeep(p, Shorter(s, k).value, k);
    }
  }

  /** The stage that a shortened response was made of: all stages before it were too big. */
  lemma {:induction false} FirstFitIsFirst(write: Writer, stages: seq<Sections>, maximum: nat) returns (i: nat)
    requires FirstFit(write, stages, maximum).Ok?
    ensures i < |stages| && write(stages[i]).Some? && FirstFit(write, stages, maximum) == Ok(SetTc(write(stages[i]).value))
    ensures |write(stages[i]).value| <= maximum
    ensures forall j :: 0 <= j < i ==> write(stages[j]).Some? && |write(stages[j]).value| > maximum
  {
    i := 0;
    if |write(stages[0]).value| > maximum {
      i := FirstFitIsFirst(write, stages[1..], maximum);
      i := i + 1;
    }
  }

  /** All octets are the same but for the bit TC of the third one. */
  predicate OnlyTcDiffers(before: Bytes, after: Bytes) {
    && |before| == |after| && |before| >= 3 && after[..2] == before[..2] && after[3..] == before[3..]
    && after[2] / 4 == before[2] / 4 && after[2] % 2 == before[2] % 2
  }

  lemma SetTcSetsTc(wire: Wire)
    ensures OnlyTcDiffers(wire, SetTc(wire)) && SetTc(wire)[2] / 2 % 2 == 1
  {
    var after := SetTc(wire);
    assert after[..2] == wire[..2] && after[3..] == wire[3..];
  }

  /** A stage that is looked at, while all stages before it were written and too big. */
  ghost predicate ComesTo(write: Writer, stages: seq<Sections>, maximum: nat, i: nat) {
    i < |stages| && forall j :: 0 <= j < i ==> write(stages[j]).Some? && |write(stages[j]).value| > maximum
  }

  /** Stage `i` is the one that is sent: it fits. */
  ghost predicate Fits(write: Writer, stages: seq<Sections>, maximum: nat, i: nat) {
    ComesTo(write, stages, maximum, i) && write(stages[i]).Some? && |write(stages[i]).value| <= maximum
  }

  ghost predicate SomeFits(write: Writer, stages: seq<Sections>, maximum: nat) {
    exists i: nat :: Fits(write, stages, maximum, i)
  }

  lemma {:induction false} FirstFitFinds(write: Writer, stages: seq<Sections>, maximum: nat, i: nat)
    requires Fits(write, stages, maximum, i)
    ensures FirstFit(write, stages, maximum).Ok?
  {
    if i > 0 {
      assert forall j :: 0 <= j < i - 1 ==> stages[1..][j] == stages[j + 1];
      FirstFitFinds(write, stages[1..], maximum, i - 1);
    }
  }

  lemma FirstFitIff(write: Writer, stages: seq<Sections>, maximum: nat)
    ensures FirstFit(write, stages, maximum).Ok? <==> SomeFits(write, stages, maximum)
  {
    if FirstFit(write, stages, maximum).Ok? {
      var i := FirstFitIsFirst(write, stages, maximum);
      assert Fits(write, stages, maximum, i);
    }
    if i: nat :| Fits(write, stages, maximum, i) {
      FirstFitFinds(write, stages, maximum, i);
    }
  }

  /** Shortening succeeds if and only if one of the stages fits and all before it can be written. */
  lemma ShortensIff(write: Writer, response: Bytes, parsed: Option<Sections>, maximum: nat)
    ensures Truncate(write, response, parsed, maximum).Ok? <==>
      maximum >= 12 && (|response| <= maximum || (parsed.Some? && SomeFits(write, Stages(parsed.value, 0), maximum)))
    ensures maximum >= 12 && |response| <= maximum ==> Truncate(write, response, parsed, maximum) == Ok(response)
    ensures Truncate(write, response, parsed, maximum).Err? ==> Truncate(write, response, parsed, maximum).error == ProtocolFraming
  {
    if maximum >= 12 && |response| > maximum && parsed.Some? {
      var stages := Stages(parsed.value, 0);
      FirstFitIff(write, stages, maximum);
      FirstFitError(write, stages, maximum);
      assert Truncate(write, response, parsed, maximum) == FirstFit(write, stages, maximum);
    }
  }

  lemma {:induction false} FirstFitError(write: Writer, stages: seq<Sections>, maximum: nat)
    ensures FirstFit(write, stages, maximum).Err? ==> FirstFit(write, stages, maximum).error == ProtocolFraming
  {
    if stages != [] {
      FirstFitError(write, stages[1..], maximum);
    }
  }

  // ----- From stage to stage

  /** No record of the sections before `k` may be removed any more. */
  ghost predicate DoneBefore(s: Sections, k: nat) {
    forall m: nat, r :: m < k && r in Section(s, m) ==> !Removable(r, m)
  }

  /** Record `j` of section `k` is the last one there that may be removed. */
  predicate IsLastRemovable(records: seq<Record>, k: nat, j: nat) {
    j < |records| && Removable(records[j], k) && forall i :: j < i < |records| ==> !Removable(records[i], k)
  }

  /** The RRset of the last removable record of the first section that has one is gone, and nothing else. */
  ghost predicate OneSetLess(s: Sections, t: Sections) {
    exists k: nat, j: nat :: k < 3 && DoneBefore(s, k) && IsLastRemovable(Section(s, k), k, j)
      && t == WithSection(s, k, Without(Section(s, k), {KeyOf(Section(s, k)[j])}))
  }

  lemma {:induction false} LastIsLast(records: seq<Record>, k: nat) returns (j: nat)
    requires LastRemovable(records, k).Some?
    ensures IsLastRemovable(records, k, j) && records[j] == LastRemovable(records, k).value
  {
    j := |records| - 1;
    if !Removable(records[j], k) {
      j := LastIsLast(records[..|records| - 1], k);
    }
  }

  lemma ShorterIsOneLess(s: Sections, k: nat)
    requires k < 3 && DoneBefore(s, k) && Shorter(s, k).Some?
    ensures OneSetLess(s, Shorter(s, k).value) && DoneBefore(Shorter(s, k).value, k)
  {
    var j := LastIsLast(Section(s, k), k);
    assert IsLastRemovable(Section(s, k), k, j);
    assert forall m: nat :: m < k ==> Section(Shorter(s, k).value, m) == Section(s, m);
  }

  /** Stage by stage, one RRset goes; when none can, OPT goes, and that is the last stage. */
  ghost predicate GoOn(all: seq<Sections>) {
    && |all| >= 2 && (forall i :: 0 <= i < |all| - 2 ==> OneSetLess(all[i], all[i + 1]))
    && DoneBefore(all[|all| - 2], 3)
    && all[|all| - 1] == all[|all| - 2].(additional := WithoutOpt(all[|all| - 2].additional))
  }

  lemma GoOnFrom(s: Sections, t: Sections, stages: seq<Sections>)
    requires OneSetLess(s, t) && GoOn([t] + stages)
    ensures GoOn([s] + ([t] + stages))
  {
    var rest := [t] + stages;
    var all := [s] + rest;
    assert forall i :: 1 <= i < |all| ==> all[i] == rest[i - 1];
  }

  /** From a message on, each stage has lost one RRset against the one before. */
  lemma {:induction false} StagesLoseOneSet(s: Sections, k: nat)
    requires k <= 3 && DoneBefore(s, k)
    ensures GoOn([s] + Stages(s, k))
    decreases 3 - k, |Section(s, k)|
  {
    if k < 3 {
      if Shorter(s, k).None? {
        assert DoneBefore(s, k + 1);
        StagesLoseOneSet(s, k + 1);
      } else {
        var t := Shorter(s, k).value;
        ShorterIsOneLess(s, k);
        ShorterIsShorter(s, k);
        StagesLoseOneSet(t, k);
        GoOnFrom(s, t, Stages(t, k));
      }
    }
  }

  /**
   * A response that had to be shortened fits, says so, and has lost whole RRsets only:
   * additional ones first, then authority, then answers, and OPT after everything else;
   * and no earlier stage of this would have fitted.
   */
  lemma ShortenedResponse(write: Writer, response: Bytes, parsed: Sections, maximum: nat) returns (i: nat)
    requires Truncate(write, response, Some(parsed), maximum).Ok? && |response| > maximum
    ensures var wire, stages := Truncate(write, response, Some(parsed), maximum).value, Stages(parsed, 0);
      && i < |stages| && |wire| <= maximum && |wire| >= 12 && wire[2] / 2 % 2 == 1
      && write(stages[i]).Some? && wire == SetTc(write(stages[i]).value) && OnlyTcDiffers(write(stages[i]).value, wire)
      && KeepsAllSets(parsed, stages[i]) && InOrder(parsed, stages[i])
      && forall j :: 0 <= j < i ==> write(stages[j]).Some? && |write(stages[j]).value| > maximum
  {
    i := FirstFitIsFirst(write, Stages(parsed, 0), maximum);
    KeepsItself(parsed.additional);
    KeepsItself(parsed.authority);
    KeepsItself(parsed.answers);
    StagesKeep(parsed, parsed, 0);
    assert Stages(parsed, 0)[i] in Stages(parsed, 0);
    SetTcSetsTc(write(Stages(parsed, 0)[i]).value);
  }
}

/** The shortening itself: records are deleted in place, one RRset after the other. */
module DnsTruncation {
  import opened Core
  import opened Names
  import opened Spec = DnsTruncationSpec

  /** Deletes the records of one RRset, from the last to the first. */
  method DeleteSet(records: seq<Record>, key: Key) returns (left: seq<Record>)
    ensures left == Without(records, {key})
  {
    left := records;
    var candidate := |records|;
    assert records[..|records|] == records;
    while candidate > 0
      invariant 0 <= candidate <= |left| && left[..candidate] == records[..candidate]
      invariant left[candidate..] == Without(records[candidate..], {key})
    {
      var index := candidate - 1;
      var r := left[index];
      assert r == records[..candidate][index];
      assert records[index..] == [r] + records[candidate..];
      if KeyOf(r) == key {
        left := left[..index] + left[candidate..];
      }
      candidate := index;
    }
  }

  method FindLastRemovable(records: seq<Record>, k: nat) returns (r: Option<Record>)
    ensures r == LastRemovable(records, k)
  {
    var i := |records|;
    assert records[..i] == records;
    while i > 0
      invariant 0 <= i <= |records| && LastRemovable(records, k) == LastRemovable(records[..i], k)
    {
      i := i - 1;
      assert records[..i + 1][..i] == records[..i];
      if Removable(records[i], k) {
        return Some(records[i]);
      }
    }
    return None;
  }

  method DeleteOpt(records: seq<Record>) returns (left: seq<Record>)
    ensures left == WithoutOpt(records)
  {
    left := records;
    var i := |records|;
    assert records[..|records|] == records;
    while i > 0
      invariant 0 <= i <= |left| && left[..i] == records[..i] && left[i..] == WithoutOpt(records[i..])
    {
      var index := i - 1;
      assert left[index] == records[..i][index] && records[index..] == [records[index]] + records[i..];
      if left[index].kind == OPT {
        left := left[..index] + left[i..];
      }
      i := index;
    }
  }

  method TruncateUdpResponse(write: Writer, response: Bytes, parsed: Option<Sections>, maximum: nat) returns (r: Result<Bytes>)
    ensures r == Truncate(write, response, parsed, maximum)
  {
    if maximum < 12 {
      return Err(ProtocolFraming);
    }
    if |response| <= maximum {
      return Ok(response);
    }
    if parsed.None? {
      return Err(ProtocolFraming);
    }
    var record, section := parsed.value, 0;
    while section < 3
      invariant 0 <= section <= 3
      invariant FirstFit(write, Stages(parsed.value, 0), maximum) == FirstFit(write, Stages(record, section), maximum)
      decreases 3 - section, |Section(record, section)|
    {
      var removed := FindLastRemovable(Section(record, section), section);
      if removed.None? {
        section := section + 1;
        continue;
      }
      ShorterIsShorter(record, section);
      var left := DeleteSet(Section(record, section), KeyOf(removed.value));
      record := WithSection(record, section, left);
      var wire := write(record);
      if wire.None? {
        return Err(ProtocolFraming);
      }
      if |wire.value| <= maximum {
        return Ok(SetTc(wire.value));
      }
    }
    var left := DeleteOpt(record.additional);
    record := record.(additional := left);
    var wire := write(record);
    if wire.None? || |wire.value| > maximum {
      return Err(ProtocolFraming);
    }
    return Ok(SetTc(wire.value));
  }
}
