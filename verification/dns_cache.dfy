/**
 * The response cache of the query service (src/dns/dns_query_service.cpp): the
 * lifetime of an answer, and a map whose entries point into a list that is kept
 * in order of use.
 */
module DnsCache {
  import opened Core

  const SOA: Word16 := 6

  /** `soaMinimum` is present when the record was parsed as SOA data. */
  datatype Record = Record(kind: Word16, ttl: Word32, soaMinimum: Option<Word32>, rdata: Bytes)

  datatype Response = Response(wire: Bytes, code: nat, answers: seq<Record>, authorities: seq<Record>)

  // ----- The lifetime of an answer

  function Min(a: int, b: int): int {
    if b < a then b else a
  }

  /** The negative-caching minimum of an SOA record: parsed, or the last four octets of its data. */
  function Minimum(r: Record): Option<Word32> {
    if r.soaMinimum.Some? then r.soaMinimum
    else if |r.rdata| >= 4 then
      var n := |r.rdata|;
      Some(Core.Word32From(r.rdata[n - 4], r.rdata[n - 3], r.rdata[n - 2], r.rdata[n - 1]))
    else None
  }

  lemma FourOctets(v: Word32)
    ensures Core.Word32From(v / 0x100_0000, v / 0x1_0000 % 256, v / 0x100 % 256, v % 256) == v
  {
    assert v / 0x100 == v / 0x1_0000 * 256 + v / 0x100 % 256;
    assert v / 0x1_0000 == v / 0x100_0000 * 256 + v / 0x1_0000 % 256;
  }

  /** SOA data that was not parsed ends in the minimum, high octet first. */
  lemma MinimumComesLast(r: Record, front: Bytes, octets: Bytes, minimum: Word32)
    requires r.soaMinimum.None? && r.rdata == front + octets
    requires octets == [minimum / 0x100_0000, minimum / 0x1_0000 % 256, minimum / 0x100 % 256, minimum % 256]
    ensures Minimum(r) == Some(minimum)
  {
    FourOctets(minimum);
    assert forall i :: 0 <= i < 4 ==> r.rdata[|r.rdata| - 4 + i] == octets[i];
  }

  predicate Bounds(r: Record) {
    r.kind == SOA && Minimum(r).Some?
  }

  function NegativeTtl(ttl: int, records: seq<Record>): int {
    if records == [] then ttl
    else
      var rest := NegativeTtl(ttl, records[..|records| - 1]);
      var r := records[|records| - 1];
      if Bounds(r) then Min(Min(rest, r.ttl), Minimum(r).value) else rest
  }

  function PositiveTtl(records: seq<Record>): Word32 {
    if records == [] then 0xffff_ffff
    else Min(PositiveTtl(records[..|records| - 1]), records[|records| - 1].ttl)
  }

  predicate Negative(p: Response) {
    p.code == 3 || (p.code == 0 && p.answers == [])
  }

  /** The number of seconds for which an answer may be kept, if it may be kept at all. */
  function CacheTtl(p: Response, negativeTtl: int): (r: Option<int>)
    ensures r.Some? ==> r.value > 0
  {
    if Negative(p) then
      var ttl := NegativeTtl(negativeTtl, p.authorities);
      if ttl <= 0 then None else Some(ttl)
    else if p.code != 0 then None
    else
      var ttl := PositiveTtl(p.answers);
      if ttl == 0 || ttl == 0xffff_ffff then None else Some(ttl)
  }

  method ComputeCacheTtl(p: Response, negativeTtl: int) returns (r: Option<int>)
    ensures r == CacheTtl(p, negativeTtl)
  {
    if p.code == 3 || (p.code == 0 && p.answers == []) {
      var ttl := negativeTtl;
      for i := 0 to |p.authorities|
        invariant ttl == NegativeTtl(negativeTtl, p.authorities[..i])
      {
        assert p.authorities[..i + 1][..i] == p.authorities[..i];
        var record := p.authorities[i];
        if record.kind == SOA {
          var minimum := Minimum(record);
          if minimum.Some? {
            ttl := Min(ttl, record.ttl);
            ttl := Min(ttl, minimum.value);
          }
        }
      }
      assert p.authorities[..|p.authorities|] == p.authorities;
      return if ttl <= 0 then None else Some(ttl);
    }
    if p.code != 0 || p.answers == [] {
      return None;
    }
    var ttl: Word32 := 0xffff_ffff;
    for i := 0 to |p.answers|
      invariant ttl == PositiveTtl(p.answers[..i])
    {
      assert p.answers[..i + 1][..i] == p.answers[..i];
      ttl := Min(ttl, p.answers[i].ttl);
    }
    assert p.answers[..|p.answers|] == p.answers;
    if ttl == 0 || ttl == 0xffff_ffff {
      return None;
    }
    return Some(ttl);
  }

  lemma {:induction false} NegativeTtlIsLeast(ttl: int, records: seq<Record>)
    ensures NegativeTtl(ttl, records) <= ttl
    ensures forall r :: r in records && Bounds(r) ==> NegativeTtl(ttl, records) <= Min(r.ttl, Minimum(r).value)
    ensures NegativeTtl(ttl, records) == ttl || exists r ::
      r in records && Bounds(r) && (NegativeTtl(ttl, records) == r.ttl || NegativeTtl(ttl, records) == Minimum(r).value)
  {
    if records != [] {
      var front, last := records[..|records| - 1], records[|records| - 1];
      NegativeTtlIsLeast(ttl, front);
      assert forall r :: r in records ==> r in front || r == last;
      assert last in records;
    }
  }

  lemma {:induction false} PositiveTtlIsLeast(records: seq<Record>)
    ensures forall r :: r in records ==> PositiveTtl(records) <= r.ttl
    ensures PositiveTtl(records) == 0xffff_ffff || exists r :: r in records && PositiveTtl(records) == r.ttl
  {
    if records != [] {
      var front, last := records[..|records| - 1], records[|records| - 1];
      PositiveTtlIsLeast(front);
      assert forall r :: r in records ==> r in front || r == last;
      assert last in records;
    }
  }

  /** A lifetime never outlives a record it rests on, and is withheld only for a reason. */
  lemma CacheTtlIsBounded(p: Response, negativeTtl: int)
    ensures CacheTtl(p, negativeTtl).Some? && !Negative(p) ==>
      p.code == 0 && p.answers != [] && forall r :: r in p.answers ==> CacheTtl(p, negativeTtl).value <= r.ttl
    ensures CacheTtl(p, negativeTtl).Some? && Negative(p) ==>
      && CacheTtl(p, negativeTtl).value <= negativeTtl
      && forall r :: r in p.authorities && Bounds(r) ==> CacheTtl(p, negativeTtl).value <= Min(r.ttl, Minimum(r).value)
    ensures CacheTtl(p, negativeTtl).None? ==>
      || (p.code != 0 && p.code != 3)
      || (Negative(p) && (negativeTtl <= 0 || exists r :: r in p.authorities && Bounds(r) && (r.ttl == 0 || Minimum(r).value == 0)))
      || (!Negative(p) && ((exists r :: r in p.answers && r.ttl == 0) || (forall r :: r in p.answers ==> r.ttl == 0xffff_ffff)))
  {
    NegativeTtlIsLeast(negativeTtl, p.authorities);
    PositiveTtlIsLeast(p.answers);
  }

  /** A number of seconds that bounds the lifetime of an answer without records of the kind asked for. */
  ghost predicate LimitsNegative(p: Response, negativeTtl: int, seconds: int) {
    || seconds == negativeTtl
    || exists r :: r in p.authorities && r.kind == 6 && Minimum(r).Some? && (seconds == r.ttl || seconds == Minimum(r).value)
  }

  /** A name error or an empty answer is kept for the least of the service's own limit and those of its SOA records, if that is positive. */
  lemma NegativeLifetime(p: Response, negativeTtl: int) returns (least: int)
    requires p.code == 3 || (p.code == 0 && p.answers == [])
    ensures LimitsNegative(p, negativeTtl, least) && forall seconds :: LimitsNegative(p, negativeTtl, seconds) ==> least <= seconds
    ensures CacheTtl(p, negativeTtl) == if least > 0 then Some(least) else None
  {
    NegativeTtlIsLeast(negativeTtl, p.authorities);
    least := NegativeTtl(negativeTtl, p.authorities);
  }

  /** Any other answer is kept for the least TTL of its records, unless that is 0 or all of them are 0xffffffff; a failure never. */
  lemma PositiveLifetime(p: Response, negativeTtl: int) returns (least: Word32)
    requires p.code != 3 && (p.code != 0 || p.answers != [])
    ensures p.code != 0 ==> CacheTtl(p, negativeTtl) == None
    ensures p.code == 0 ==> (exists r :: r in p.answers && r.ttl == least) && forall r :: r in p.answers ==> least <= r.ttl
    ensures p.code == 0 ==> CacheTtl(p, negativeTtl) == if least == 0 || least == 0xffff_ffff then None else Some(least)
  {
    PositiveTtlIsLeast(p.answers);
    least := PositiveTtl(p.answers);
    if p.answers != [] {
      assert p.answers[0] in p.answers;
    }
  }

  // ----- The cache as a function of its state

  /** A node of the list of keys; `number` tells nodes with the same key apart. */
  datatype Node = Node(number: nat, key: Bytes)

  /** `position` is the iterator that an entry keeps into the list. */
  datatype Entry = Entry(packet: Response, expires: int, position: Node)

  datatype Cache = Cache(entries: map<Bytes, Entry>, lru: seq<Node>, next: nat)

  function Empty(next: nat): Cache {
    Cache(map[], [], next)
  }

  function Keys(lru: seq<Node>): (r: seq<Bytes>)
    ensures |r| == |lru| && forall i :: 0 <= i < |lru| ==> r[i] == lru[i].key
  {
    seq(|lru|, i requires 0 <= i < |lru| => lru[i].key)
  }

  /** A hit moves the entry's node to the front; the node, and so the position, stays the same. */
  function Touch(c: Cache, key: Bytes): Cache
    requires key in c.entries
  {
    c.(lru := [c.entries[key].position] + Omit(c.lru, c.entries[key].position))
  }

  function Drop(c: Cache, key: Bytes): Cache
    requires key in c.entries
  {
    c.(entries := c.entries - {key}, lru := Omit(c.lru, c.entries[key].position))
  }

  /** Only the `count` most recently used entries stay; the others go one by one, the last one first. */
  function Keep(c: Cache, count: nat): Cache
    decreases |c.lru|
  {
    if |c.lru| <= count then c else Keep(DropLast(c), count)
  }

  function DropLast(c: Cache): Cache
    requires c.lru != []
  {
    var n := |c.lru| - 1;
    c.(entries := c.entries - {c.lru[n].key}, lru := c.lru[..n])
  }

  function Push(c: Cache, key: Bytes, packet: Response, expires: int): Cache {
    var node := Node(c.next, key);
    Cache(c.entries[key := Entry(packet, expires, node)], [node] + c.lru, c.next + 1)
  }

  function Forget(c: Cache, key: Bytes): Cache {
    if key in c.entries then Drop(c, key) else c
  }

  /** Room is made for one entry before the new one goes to the front. */
  function Store(c: Cache, capacity: nat, key: Bytes, packet: Response, expires: int): Cache {
    if capacity == 0 then c else Push(Keep(Forget(c, key), capacity - 1), key, packet, expires)
  }

  /** Map and list hold the same keys, once each, and every position points at the entry's own node. */
  ghost predicate Valid(c: Cache) {
    && Distinct(c.lru)
    && (forall n :: n in c.lru ==> n.number < c.next && n.key in c.entries && c.entries[n.key].position == n)
    && (forall key :: key in c.entries ==> c.entries[key].position in c.lru && c.entries[key].position.key == key)
  }

  lemma KeysDistinct(c: Cache)
    requires Valid(c)
    ensures Distinct(Keys(c.lru))
  {
    forall i, j | 0 <= i < j < |c.lru| ensures c.lru[i].key != c.lru[j].key {
      assert c.lru[i] in c.lru && c.lru[j] in c.lru;
    }
  }

  lemma TouchKeeps(c: Cache, key: Bytes)
    requires Valid(c) && key in c.entries
    ensures Valid(Touch(c, key))
  {
    OmitMembers(c.lru, c.entries[key].position);
  }

  lemma ForgetKeeps(c: Cache, key: Bytes)
    requires Valid(c)
    ensures Valid(Forget(c, key)) && key !in Forget(c, key).entries
    ensures |Forget(c, key).lru| == if key in c.entries then |c.lru| - 1 else |c.lru|
  {
    if key in c.entries {
      OmitMembers(c.lru, c.entries[key].position);
    }
  }

  lemma DropLastKeeps(c: Cache)
    requires Valid(c) && c.lru != []
    ensures Valid(DropLast(c))
  {
    var n := |c.lru| - 1;
    assert forall i :: 0 <= i < n ==> c.lru[i] in c.lru && c.lru[..n][i] == c.lru[i];
    assert c.lru[n] in c.lru;
    assert forall m :: m in c.lru ==> m in c.lru[..n] || m == c.lru[n];
  }

  lemma {:induction false} KeepKeeps(c: Cache, count: nat)
    requires Valid(c)
    ensures var d := Keep(c, count);
      && Valid(d) && d.lru == (if |c.lru| <= count then c.lru else c.lru[..count]) && d.next == c.next
      && forall k :: k in d.entries ==> k in c.entries && d.entries[k] == c.entries[k]
    decreases |c.lru|
  {
    if |c.lru| > count {
      DropLastKeeps(c);
      KeepKeeps(DropLast(c), count);
    }
  }

  lemma PushKeeps(c: Cache, key: Bytes, packet: Response, expires: int)
    requires Valid(c) && key !in c.entries
    ensures Valid(Push(c, key, packet, expires))
  {
  }

  lemma StoreKeeps(c: Cache, capacity: nat, key: Bytes, packet: Response, expires: int)
    requires Valid(c) && |c.lru| <= capacity
    ensures Valid(Store(c, capacity, key, packet, expires)) && |Store(c, capacity, key, packet, expires).lru| <= capacity
  {
    if capacity > 0 {
      ForgetKeeps(c, key);
      KeepKeeps(Forget(c, key), capacity - 1);
      PushKeeps(Keep(Forget(c, key), capacity - 1), key, packet, expires);
    }
  }

  lemma SameSize(c: Cache)
    requires Valid(c)
    ensures |c.entries| == |c.lru|
  {
    KeysDistinct(c);
    DistinctCardinality(Keys(c.lru));
    forall key | key in c.entries ensures key in Keys(c.lru) {
      var i :| 0 <= i < |c.lru| && c.lru[i] == c.entries[key].position;
      assert Keys(c.lru)[i] == key;
    }
    forall key | key in Keys(c.lru) ensures key in c.entries {
      var i :| 0 <= i < |c.lru| && Keys(c.lru)[i] == key;
      assert c.lru[i] in c.lru;
    }
    assert Elements(Keys(c.lru)) == c.entries.Keys;
  }

  // ----- Any history of the cache, and the order of last uses

  datatype Event =
    | Hit(key: Bytes)
    | Expired(key: Bytes)
    | Stored(key: Bytes, packet: Response, expires: int)
    | Cleared

  function After(c: Cache, capacity: nat, e: Event): Cache {
    match e
    case Hit(key) => if key in c.entries then Touch(c, key) else c
    case Expired(key) => Forget(c, key)
    case Stored(key, packet, expires) => Store(c, capacity, key, packet, expires)
    case Cleared => Empty(c.next)
  }

  function Replay(events: seq<Event>, capacity: nat): Cache {
    if events == [] then Empty(0) else After(Replay(events[..|events| - 1], capacity), capacity, events[|events| - 1])
  }

  predicate Uses(e: Event, key: Bytes) {
    (e.Hit? || e.Stored?) && e.key == key
  }

  /** When the key was last asked for or stored; 0 for never. Knows nothing of lists. */
  function LastUse(events: seq<Event>, key: Bytes): (r: nat)
    ensures r <= |events|
  {
    if events == [] then 0
    else if Uses(events[|events| - 1], key) then |events|
    else LastUse(events[..|events| - 1], key)
  }

  /** The list is in the order of last use, most recent first. */
  ghost predicate ByUse(events: seq<Event>, lru: seq<Node>) {
    forall i, j :: 0 <= i < j < |lru| ==> LastUse(events, lru[i].key) > LastUse(events, lru[j].key)
  }

  lemma ForgetOrdered(events: seq<Event>, c: Cache, key: Bytes)
    requires Valid(c) && ByUse(events, c.lru)
    ensures ByUse(events, Forget(c, key).lru)
  {
  }

  lemma UseOrdered(events: seq<Event>, e: Event, key: Bytes, node: Node, rest: seq<Node>)
    requires Uses(e, key) && node.key == key && ByUse(events, rest) && forall n :: n in rest ==> n.key != key
    ensures ByUse(events + [e], [node] + rest)
  {
    assert (events + [e])[..|events|] == events;
    forall n | n in rest ensures LastUse(events + [e], n.key) == LastUse(events, n.key) {
    }
  }

  lemma UselessOrdered(events: seq<Event>, e: Event, lru: seq<Node>)
    requires ByUse(events, lru) && forall n :: n in lru ==> !Uses(e, n.key)
    ensures ByUse(events + [e], lru)
  {
    assert (events + [e])[..|events|] == events;
    forall n | n in lru ensures LastUse(events + [e], n.key) == LastUse(events, n.key) {
    }
  }

  lemma AfterOrdered(events: seq<Event>, c: Cache, capacity: nat, e: Event)
    requires Valid(c) && |c.lru| <= capacity && ByUse(events, c.lru)
    ensures Valid(After(c, capacity, e)) && |After(c, capacity, e).lru| <= capacity
    ensures ByUse(events + [e], After(c, capacity, e).lru)
  {
    match e
    case Hit(key) =>
      if key in c.entries {
        TouchKeeps(c, key);
        ForgetKeeps(c, key);
        ForgetOrdered(events, c, key);
        OmitMembers(c.lru, c.entries[key].position);
        UseOrdered(events, e, key, c.entries[key].position, Forget(c, key).lru);
      } else {
        UselessOrdered(events, e, c.lru);
      }
    case Expired(key) =>
      ForgetKeeps(c, key);
      ForgetOrdered(events, c, key);
      UselessOrdered(events, e, Forget(c, key).lru);
    case Stored(key, packet, expires) =>
      StoreKeeps(c, capacity, key, packet, expires);
      if capacity > 0 {
        StoredOrdered(events, c, capacity, key, packet, expires);
      }
    case Cleared =>
  }

  lemma StoredOrdered(events: seq<Event>, c: Cache, capacity: nat, key: Bytes, packet: Response, expires: int)
    requires Valid(c) && ByUse(events, c.lru) && capacity > 0
    ensures ByUse(events + [Stored(key, packet, expires)], Store(c, capacity, key, packet, expires).lru)
  {
    ForgetKeeps(c, key);
    ForgetOrdered(events, c, key);
    KeepKeeps(Forget(c, key), capacity - 1);
    var kept := Keep(Forget(c, key), capacity - 1);
    UseOrdered(events, Stored(key, packet, expires), key, Node(kept.next, key), kept.lru);
  }

  /** Whatever happens to the cache, its parts agree, it holds at most `capacity` entries, and they are in order of use. */
  lemma {:induction false} HistoriesAreOrdered(events: seq<Event>, capacity: nat)
    ensures var c := Replay(events, capacity); Valid(c) && |c.entries| == |c.lru| <= capacity && ByUse(events, c.lru)
  {
    if events == [] {
      SameSize(Empty(0));
    } else {
      var front, last := events[..|events| - 1], events[|events| - 1];
      FrontAndLast(events);
      HistoriesAreOrdered(front, capacity);
      AfterOrdered(front, Replay(front, capacity), capacity, last);
      SameSize(After(Replay(front, capacity), capacity, last));
    }
  }

  lemma Ranked(events: seq<Event>, lru: seq<Node>, count: nat, a: Node, b: Node)
    requires ByUse(events, lru) && count <= |lru|
    requires a in lru && a !in lru[..count] && b in lru[..count]
    ensures LastUse(events, a.key) < LastUse(events, b.key)
  {
    assert forall k :: 0 <= k < count ==> lru[k] in lru[..count];
    var i :| 0 <= i < |lru| && lru[i] == a;
    var j :| 0 <= j < count && lru[j] == b;
  }

  lemma KeptPosition(c: Cache, count: nat, key: Bytes)
    requires Valid(c) && key in c.entries && |c.lru| > count
    requires Valid(Keep(c, count)) && Keep(c, count).lru == c.lru[..count]
    requires key in Keep(c, count).entries ==> Keep(c, count).entries[key] == c.entries[key]
    ensures key in Keep(c, count).entries <==> c.entries[key].position in c.lru[..count]
  {
  }

  lemma Evicted(events: seq<Event>, c: Cache, count: nat, gone: Bytes, stays: Bytes)
    requires Valid(c) && ByUse(events, c.lru)
    requires gone in c.entries && gone !in Keep(c, count).entries && stays in Keep(c, count).entries
    ensures LastUse(events, gone) < LastUse(events, stays) && |c.lru| > count
  {
    KeepKeeps(c, count);
    KeptPosition(c, count, gone);
    KeptPosition(c, count, stays);
    Ranked(events, c.lru, count, c.entries[gone].position, c.entries[stays].position);
  }

  /** What a new entry pushes out has been used less recently than everything that stays. */
  lemma EvictsLeastRecentlyUsed(events: seq<Event>, capacity: nat, key: Bytes, packet: Response, expires: int, gone: Bytes, stays: Bytes)
    requires capacity > 0
    requires var c, d := Replay(events, capacity), Replay(events + [Stored(key, packet, expires)], capacity);
      gone in c.entries && gone !in d.entries && stays in c.entries && stays in d.entries && stays != key
    ensures LastUse(events, gone) < LastUse(events, stays)
    ensures |Replay(events, capacity).entries| == capacity && key !in Replay(events, capacity).entries
  {
    var c := Replay(events, capacity);
    assert (events + [Stored(key, packet, expires)])[..|events|] == events;
    HistoriesAreOrdered(events, capacity);
    EvictedByStore(events, c, capacity, key, gone, stays);
  }

  lemma EvictedByStore(events: seq<Event>, c: Cache, capacity: nat, key: Bytes, gone: Bytes, stays: Bytes)
    requires Valid(c) && ByUse(events, c.lru) && 0 < capacity && |c.lru| <= capacity
    requires gone in c.entries && gone != key && stays in c.entries && stays != key
    requires gone !in Keep(Forget(c, key), capacity - 1).entries && stays in Keep(Forget(c, key), capacity - 1).entries
    ensures LastUse(events, gone) < LastUse(events, stays) && |c.lru| == capacity && key !in c.entries
  {
    var d := Forget(c, key);
    ForgetKeeps(c, key);
    ForgetOrdered(events, c, key);
    assert gone in d.entries;
    Evicted(events, d, capacity - 1, gone, stays);
  }

  // ----- What is lost, and what is not

  lemma KeepsMost(c: Cache, count: nat, key: Bytes)
    requires Valid(c) && key in c.entries
    ensures |c.lru| <= count ==> key in Keep(c, count).entries
    ensures |c.lru| == count + 1 ==> (key in Keep(c, count).entries <==> c.entries[key].position != c.lru[count])
  {
    KeepKeeps(c, count);
    if |c.lru| == count + 1 {
      KeptPosition(c, count, key);
      LastOnly(c.lru, count, c.entries[key].position);
    }
  }

  lemma LastOnly(lru: seq<Node>, count: nat, n: Node)
    requires Distinct(lru) && |lru| == count + 1 && n in lru
    ensures n in lru[..count] <==> n != lru[count]
  {
    var i :| 0 <= i < |lru| && lru[i] == n;
    assert i < count ==> lru[..count][i] == n;
  }

  /** What one entry more costs: nothing while there is room, and else the one entry that comes last. */
  lemma StoreCosts(c: Cache, capacity: nat, key: Bytes, packet: Response, expires: int, other: Bytes)
    requires Valid(c) && 0 < capacity && |c.lru| <= capacity && other in c.entries && other != key
    ensures var d := Store(c, capacity, key, packet, expires);
      && (other in d.entries ==> d.entries[other] == c.entries[other])
      && (other in d.entries <==> key in c.entries || |c.lru| < capacity || c.entries[other].position != c.lru[capacity - 1])
  {
    ForgetKeeps(c, key);
    KeepKeeps(Forget(c, key), capacity - 1);
    KeepsMost(Forget(c, key), capacity - 1, other);
  }

  /** The key whose entry comes last in a full cache. */
  ghost predicate IsOldest(events: seq<Event>, entries: map<Bytes, Entry>, key: Bytes) {
    key in entries && forall other :: other in entries && other != key ==> LastUse(events, key) < LastUse(events, other)
  }

  /** The other entries stay, but for the oldest one if the cache is full and the key new. */
  ghost predicate CostsOldest(events: seq<Event>, before: map<Bytes, Entry>, after: map<Bytes, Entry>, capacity: nat, key: Bytes) {
    && (forall other :: other in after && other != key ==> other in before && after[other] == before[other])
    && (forall other :: other in before && other != key ==>
          (other !in after <==> key !in before && |before| == capacity && IsOldest(events, before, other)))
  }

  /**
   * Whatever the history: a hit changes no entry, an entry that has expired goes alone, and
   * a new one costs no other entry unless it is new and the cache full; then it costs
   * just the one that was used least recently.
   */
  lemma EntriesChange(events: seq<Event>, capacity: nat, e: Event)
    ensures var before, after := Replay(events, capacity).entries, Replay(events + [e], capacity).entries;
      && (e.Hit? ==> after == before)
      && (e.Expired? ==> after == before - {e.key})
      && (e.Cleared? ==> after == map[])
      && (e.Stored? && capacity == 0 ==> after == before)
      && (e.Stored? && capacity > 0 ==>
            && e.key in after && after[e.key].packet == e.packet && after[e.key].expires == e.expires
            && CostsOldest(events, before, after, capacity, e.key))
  {
    assert (events + [e])[..|events|] == events;
    HistoriesAreOrdered(events, capacity);
    if e.Stored? && capacity > 0 {
      StoredEntriesChange(events, Replay(events, capacity), capacity, e.key, e.packet, e.expires);
    }
  }

  lemma OldestIsLast(events: seq<Event>, c: Cache, key: Bytes)
    requires Valid(c) && ByUse(events, c.lru) && c.lru != [] && key in c.entries
    ensures IsOldest(events, c.entries, key) <==> c.entries[key].position == c.lru[|c.lru| - 1]
  {
    var n := |c.lru| - 1;
    var last := c.lru[n];
    assert last in c.lru;
    if c.entries[key].position == last {
      forall other | other in c.entries && other != key ensures LastUse(events, key) < LastUse(events, other) {
        var i :| 0 <= i < |c.lru| && c.lru[i] == c.entries[other].position;
      }
    } else {
      var i :| 0 <= i < |c.lru| && c.lru[i] == c.entries[key].position;
      assert last.key in c.entries && LastUse(events, key) > LastUse(events, last.key);
    }
  }

  lemma StoredCostsOldest(events: seq<Event>, c: Cache, capacity: nat, key: Bytes, packet: Response, expires: int, other: Bytes)
    requires Valid(c) && ByUse(events, c.lru) && 0 < capacity && |c.entries| == |c.lru| <= capacity && other in c.entries && other != key
    ensures var d := Store(c, capacity, key, packet, expires);
      other !in d.entries <==> key !in c.entries && |c.entries| == capacity && IsOldest(events, c.entries, other)
  {
    StoreCosts(c, capacity, key, packet, expires, other);
    assert c.entries[other].position in c.lru;
    OldestIsLast(events, c, other);
  }

  lemma StoredEntriesChange(events: seq<Event>, c: Cache, capacity: nat, key: Bytes, packet: Response, expires: int)
    requires Valid(c) && ByUse(events, c.lru) && 0 < capacity && |c.entries| == |c.lru| <= capacity
    ensures CostsOldest(events, c.entries, Store(c, capacity, key, packet, expires).entries, capacity, key)
  {
    ForgetKeeps(c, key);
    KeepKeeps(Forget(c, key), capacity - 1);
    forall other | other in c.entries && other != key
      ensures other !in Store(c, capacity, key, packet, expires).entries <==>
        key !in c.entries && |c.entries| == capacity && IsOldest(events, c.entries, other)
    {
      StoredCostsOldest(events, c, capacity, key, packet, expires, other);
    }
  }
}
