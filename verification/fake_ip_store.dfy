/**
 * The FakeIP allocator (src/dns/fake_ip_store.cpp): two mutually inverse maps,
 * a rotating cursor over the host addresses of an IPv4 network, and a purge of
 * expired mappings that runs at most once a second. Times are nanoseconds.
 */
module FakeIp {
  import opened Arithmetic
  import opened Core
  import Names

  /** A number of seconds in the unit of the clock. */
  function Seconds(n: int): int { n * 1_000_000_000 }

  datatype Expiry = Never | At(time: int)

  datatype Entry = Entry(address: Word32, expires: Expiry)

  datatype Store = Store(
    network: Word32, addressCount: nat, nextOffset: nat, capacity: nat, ttl: nat,
    byDomain: map<string, Entry>, byAddress: map<Word32, string>, lastPurge: int)

  // ----- The allocator as a function of its state

  predicate Expired(expires: Expiry, now: int) {
    expires.At? && expires.time <= now
  }

  /** The store without its expired mappings, except those of the domains in `pending`. */
  function Sweep(s: Store, pending: set<string>, now: int): Store {
    var live := map d | d in s.byDomain && (d in pending || !Expired(s.byDomain[d].expires, now)) :: s.byDomain[d];
    s.(byDomain := live, byAddress := map a | a in s.byAddress && s.byAddress[a] in live :: s.byAddress[a])
  }

  /** At most one scan a second; a store whose entries never expire is not scanned. */
  function Purge(s: Store, now: int): Store {
    if s.ttl == 0 || now - s.lastPurge < Seconds(1) then s else Sweep(s, {}, now).(lastPurge := now)
  }

  /** The offset that the scan looks at on its `k`-th attempt. */
  function Scanned(s: Store, k: nat): (offset: nat)
    requires 1 <= s.nextOffset <= s.addressCount && k <= s.addressCount
    ensures 1 <= offset <= s.addressCount
  {
    1 + Wrap(s.nextOffset - 1 + k, s.addressCount)
  }

  predicate Free(s: Store, offset: nat) {
    s.network + offset !in s.byAddress
  }

  /** The first free offset in cyclic order, beginning with attempt `k`; 0 when there is none. */
  function NextFree(s: Store, k: nat): (offset: nat)
    requires 1 <= s.nextOffset <= s.addressCount && k <= s.addressCount
    ensures offset <= s.addressCount
    ensures offset > 0 ==> Free(s, offset)
    decreases s.addressCount - k
  {
    if k == s.addressCount then 0
    else if Free(s, Scanned(s, k)) then Scanned(s, k)
    else NextFree(s, k + 1)
  }

  predicate HasRoom(s: Store) {
    |s.byDomain| < s.capacity
  }

  function ExpiryAfter(ttl: nat, now: int): Expiry {
    if ttl == 0 then Never else At(now + Seconds(ttl))
  }

  function Insert(s: Store, domain: string, offset: nat, now: int): Store
    requires 1 <= offset <= s.addressCount && s.network + s.addressCount < 0x1_0000_0000
  {
    s.(byDomain := s.byDomain[domain := Entry(s.network + offset, ExpiryAfter(s.ttl, now))],
       byAddress := s.byAddress[s.network + offset := domain],
       nextOffset := 1 + Wrap(offset, s.addressCount))
  }

  function Remove(s: Store, domain: string): Store
    requires domain in s.byDomain
  {
    s.(byAddress := s.byAddress - {s.byDomain[domain].address}, byDomain := s.byDomain - {domain})
  }

  // ----- What every operation keeps

  ghost predicate Sized(s: Store) {
    && (s.addressCount == 0 ==> s.capacity == 0)
    && (s.addressCount > 0 ==>
          && 1 <= s.nextOffset <= s.addressCount
          && s.network + s.addressCount + 1 < 0x1_0000_0000)
    && s.capacity <= s.addressCount
  }

  ghost predicate Inverse(s: Store) {
    && (forall d :: d in s.byDomain ==> s.byDomain[d].address in s.byAddress && s.byAddress[s.byDomain[d].address] == d)
    && (forall a :: a in s.byAddress ==> s.byAddress[a] in s.byDomain && s.byDomain[s.byAddress[a]].address == a)
  }

  /** Every mapped address is a host address of the network: neither its first nor its last one. */
  ghost predicate Inside(s: Store) {
    forall a :: a in s.byAddress ==> s.network < a <= s.network + s.addressCount
  }

  /** Nothing that had expired at the last purge is left. */
  ghost predicate Purged(s: Store) {
    && (s.ttl == 0 ==> forall d :: d in s.byDomain ==> s.byDomain[d].expires == Never)
    && (forall d :: d in s.byDomain ==> !Expired(s.byDomain[d].expires, s.lastPurge))
  }

  ghost predicate Valid(s: Store) {
    Sized(s) && Inverse(s) && Inside(s) && Purged(s) && |s.byDomain| <= s.capacity
  }

  // ----- Sizes of the two maps, and the pigeonhole behind the scan

  lemma {:induction false} SameSize(s: Store)
    requires Inverse(s)
    ensures |s.byAddress| == |s.byDomain|
    decreases |s.byDomain|
  {
    if s.byDomain == map[] {
      assert s.byAddress == map[];
    } else {
      var d :| d in s.byDomain;
      SameSize(Remove(s, d));
    }
  }

  function Offsets(count: nat): (r: seq<nat>)
    ensures |r| == count && forall i :: 0 <= i < count ==> r[i] == i + 1
  {
    seq(count, i requires 0 <= i < count => i + 1)
  }

  /** The scan visits every offset, and no offset twice. */
  lemma ScanIsPermutation(s: Store, offset: nat)
    requires 1 <= s.nextOffset <= s.addressCount
    requires 1 <= offset <= s.addressCount
    ensures exists k: nat :: k < s.addressCount && Scanned(s, k) == offset
    ensures forall j: nat, k: nat ::
      j < s.addressCount && k < s.addressCount && Scanned(s, j) == offset && Scanned(s, k) == offset ==> j == k
  {
    var k := if offset >= s.nextOffset then offset - s.nextOffset else offset - s.nextOffset + s.addressCount;
    assert Scanned(s, k) == offset;
  }

  /** Below capacity some offset is free, so the exhaustion return behind the scan is dead code. */
  lemma RoomMeansFree(s: Store)
    requires Valid(s) && HasRoom(s)
    ensures exists offset: nat :: 1 <= offset <= s.addressCount && Free(s, offset)
  {
    if forall offset: nat :: 1 <= offset <= s.addressCount ==> !Free(s, offset) {
      SameSize(s);
      var hosts := seq(s.addressCount, i requires 0 <= i < s.addressCount => s.network + i + 1);
      forall a | a in hosts ensures a in s.byAddress {
        var i :| 0 <= i < |hosts| && hosts[i] == a;
        assert !Free(s, i + 1);
      }
      assert Elements(hosts) <= s.byAddress.Keys;
      DistinctWithin(hosts, s.byAddress.Keys);
      assert false;
    }
  }

  lemma {:induction false} ScanReaches(s: Store, k: nat, j: nat)
    requires 1 <= s.nextOffset <= s.addressCount && k <= j < s.addressCount
    requires Free(s, Scanned(s, j))
    ensures NextFree(s, k) > 0
    ensures (forall i: nat :: k <= i < j ==> !Free(s, Scanned(s, i))) ==> NextFree(s, k) == Scanned(s, j)
    decreases j - k
  {
    if k < j {
      ScanReaches(s, k + 1, j);
    }
  }

  /** The scan finds an offset exactly when one is free, and below capacity one always is. */
  lemma ScanFindsRoom(s: Store)
    requires Valid(s) && s.addressCount > 0
    ensures NextFree(s, 0) > 0 <==> exists offset: nat :: 1 <= offset <= s.addressCount && Free(s, offset)
    ensures HasRoom(s) ==> NextFree(s, 0) > 0
  {
    if HasRoom(s) {
      RoomMeansFree(s);
    }
    if offset: nat :| 1 <= offset <= s.addressCount && Free(s, offset) {
      ScanIsPermutation(s, offset);
      var j: nat :| j < s.addressCount && Scanned(s, j) == offset;
      ScanReaches(s, 0, j);
    }
  }

  /** The attempt on which the scan comes to an offset. */
  function Turn(s: Store, offset: nat): (k: nat)
    requires 1 <= s.nextOffset <= s.addressCount && 1 <= offset <= s.addressCount
    ensures k < s.addressCount && Scanned(s, k) == offset
  {
    if offset >= s.nextOffset then offset - s.nextOffset else offset - s.nextOffset + s.addressCount
  }

  /** Wherever the cursor stands: an address that is released is the next one if and only if no offset that comes before it is free. */
  lemma ReleasedComesInTurn(s: Store, domain: string)
    requires Valid(s) && domain in s.byDomain
    ensures var offset := s.byDomain[domain].address - s.network;
      && 1 <= offset <= s.addressCount && 1 <= s.nextOffset
      && (NextFree(Remove(s, domain), 0) == offset <==> forall k: nat :: k < Turn(s, offset) ==> !Free(s, Scanned(s, k)))
  {
    var t, offset := Remove(s, domain), s.byDomain[domain].address - s.network;
    var turn := Turn(s, offset);
    assert Scanned(t, turn) == offset && Free(t, offset);
    ScanReaches(t, 0, turn);
    forall k: nat | k < turn ensures Scanned(t, k) != offset && (Free(t, Scanned(t, k)) <==> Free(s, Scanned(s, k))) {
      ScanIsPermutation(t, offset);
      assert Scanned(t, k) == Scanned(s, k);
    }
    if k: nat :| k < turn && Free(s, Scanned(s, k)) {
      StopsBefore(t, 0, k);
    }
  }

  /** Rotation: an address that was just released is handed out again only when no other one is free. */
  lemma ReleasedComesLast(s: Store, domain: string, offset: nat, now: int)
    requires Valid(s) && domain !in s.byDomain && 1 <= offset <= s.addressCount && Free(s, offset)
    ensures var t := Remove(Insert(s, domain, offset, now), domain);
      && 1 <= t.nextOffset <= t.addressCount
      && (NextFree(t, 0) == offset <==> forall o: nat :: 1 <= o <= t.addressCount && o != offset ==> !Free(t, o))
  {
    CursorBehindComesLast(Remove(Insert(s, domain, offset, now), domain), offset);
  }

  lemma CursorBehindComesLast(t: Store, offset: nat)
    requires 1 <= offset <= t.addressCount && t.nextOffset == 1 + Wrap(offset, t.addressCount) && Free(t, offset)
    ensures NextFree(t, 0) == offset <==> forall o: nat :: 1 <= o <= t.addressCount && o != offset ==> !Free(t, o)
  {
    var last := t.addressCount - 1;
    assert Scanned(t, last) == offset;
    if forall o: nat :: 1 <= o <= t.addressCount && o != offset ==> !Free(t, o) {
      ScanReaches(t, 0, last);
    } else {
      var o: nat :| 1 <= o <= t.addressCount && o != offset && Free(t, o);
      ScanIsPermutation(t, o);
      var k: nat :| k < t.addressCount && Scanned(t, k) == o;
      StopsBefore(t, 0, k);
    }
  }

  /** The scan does not run past a free offset. */
  lemma {:induction false} StopsBefore(s: Store, k: nat, j: nat)
    requires 1 <= s.nextOffset <= s.addressCount && k <= j < s.addressCount
    requires Free(s, Scanned(s, j))
    ensures exists i: nat :: k <= i <= j && NextFree(s, k) == Scanned(s, i)
    decreases j - k
  {
    if k == j || Free(s, Scanned(s, k)) {
      assert NextFree(s, k) == Scanned(s, k);
    } else {
      StopsBefore(s, k + 1, j);
    }
  }

  // ----- Preservation

  lemma SweepOne(s: Store, pending: set<string>, d: string, now: int)
    requires Inverse(s) && d in pending && d in s.byDomain
    ensures Sweep(s, pending - {d}, now) ==
      if Expired(s.byDomain[d].expires, now) then Remove(Sweep(s, pending, now), d) else Sweep(s, pending, now)
  {
    var before, after := Sweep(s, pending, now), Sweep(s, pending - {d}, now);
    if Expired(s.byDomain[d].expires, now) {
      assert after.byDomain == Remove(before, d).byDomain;
      assert after.byAddress == Remove(before, d).byAddress;
    } else {
      assert after.byDomain == before.byDomain;
    }
  }

  lemma SweepNothing(s: Store, now: int)
    requires Inverse(s)
    ensures Sweep(s, s.byDomain.Keys, now) == s
  {
    var t := Sweep(s, s.byDomain.Keys, now);
    assert t.byDomain == s.byDomain && t.byAddress == s.byAddress;
  }

  lemma {:induction false} PurgeKeepsValid(s: Store, now: int)
    requires Valid(s)
    ensures Valid(Purge(s, now))
  {
    var t := Purge(s, now);
    if t != s {
      assert t.byDomain.Keys <= s.byDomain.Keys;
      CardinalityMonotone(t.byDomain.Keys, s.byDomain.Keys);
    }
  }

  lemma InsertKeepsValid(s: Store, domain: string, offset: nat, now: int)
    requires Valid(s) && HasRoom(s) && domain !in s.byDomain && now >= s.lastPurge
    requires 1 <= offset <= s.addressCount && Free(s, offset)
    ensures Valid(Insert(s, domain, offset, now))
  {
    var t := Insert(s, domain, offset, now);
  }

  lemma RemoveKeepsValid(s: Store, domain: string)
    requires Valid(s) && domain in s.byDomain
    ensures Valid(Remove(s, domain))
  {
    var t := Remove(s, domain);
    assert t.byDomain.Keys <= s.byDomain.Keys;
    CardinalityMonotone(t.byDomain.Keys, s.byDomain.Keys);
  }

  /** A mapping that any lookup can still see is less than one second past its expiry. */
  lemma SeenIsFresh(s: Store, now: int, domain: string)
    requires Valid(s) && domain in Purge(s, now).byDomain
    ensures var expires := Purge(s, now).byDomain[domain].expires;
      expires.At? ==> now < expires.time + Seconds(1)
  {
    PurgeKeepsValid(s, now);
  }

  /** A new mapping is seen by every lookup until its time to live has passed, and by no lookup that purges after that; with a time of 0 it is seen for good. */
  lemma NewLivesItsTime(s: Store, domain: string, offset: nat, now: int, later: int)
    requires Valid(s) && domain !in s.byDomain && s.lastPurge <= now <= later && 1 <= offset <= s.addressCount && Free(s, offset)
    ensures var t := Purge(Insert(s, domain, offset, now), later);
      && (s.ttl == 0 || later < now + s.ttl * 1_000_000_000 ==>
            domain in t.byDomain && t.byDomain[domain].address == s.network + offset && s.network + offset in t.byAddress)
      && (s.ttl > 0 && later >= now + s.ttl * 1_000_000_000 && later - s.lastPurge >= 1_000_000_000 ==>
            domain !in t.byDomain && s.network + offset !in t.byAddress)
  {
  }

  // ----- The store itself

  class FakeIpStore {
    var network: Word32
    var addressCount: nat
    var nextOffset: nat
    var capacity: nat
    var entryTtl: nat
    var byDomain: map<string, Entry>
    var byAddress: map<Word32, string>
    var lastPurge: int

    function Model(): Store
      reads this
    {
      Store(network, addressCount, nextOffset, capacity, entryTtl, byDomain, byAddress, lastPurge)
    }

    constructor (network: Word32, prefix: nat, capacity: nat, entryTtl: int)
      requires prefix < 256
      ensures Valid(Model())
      ensures byDomain == map[]
      ensures !Acceptable(prefix, capacity, entryTtl) ==> this.capacity == 0
    {
      this.network, this.addressCount, this.nextOffset, this.capacity := 0, 0, 1, 0;
      this.entryTtl, this.byDomain, this.byAddress, this.lastPurge := 300, map[], map[], 0;
      new;
      var status := Configure(network, prefix, capacity, entryTtl);
      if status != Success {
        this.network, this.addressCount, this.capacity, this.entryTtl := 0, 0, 0, 0;
      }
    }

    static predicate Acceptable(prefix: nat, capacity: nat, entryTtl: int) {
      prefix <= 30 && 1 <= capacity <= Pow2(32 - prefix) - 2 && capacity <= 0xffff_ffff && entryTtl >= 0
    }

    method Configure(network: Word32, prefix: nat, capacity: nat, entryTtl: int) returns (status: Status)
      requires Valid(Model())
      modifies this
      ensures Valid(Model())
      ensures status == (if Acceptable(prefix, capacity, entryTtl) then Success else Failed(Configuration))
      ensures status == Success ==>
        && byDomain == map[] && this.capacity == capacity && this.entryTtl == entryTtl
        && this.addressCount == Pow2(32 - prefix) - 2
        && this.network == network - network % Pow2(32 - prefix)
        && this.lastPurge == old(this.lastPurge)
      ensures status != Success ==> Model() == old(Model())
    {
      if prefix > 30 || capacity == 0 || entryTtl < 0 {
        return Failed(Configuration);
      }
      var total := Pow2(32 - prefix);
      if capacity > total - 2 || capacity > 0xffff_ffff {
        return Failed(Configuration);
      }
      Clear();
      NetworkBlock(network, prefix);
      this.network := network - network % total;
      addressCount := total - 2;
      nextOffset := 1;
      this.capacity := capacity;
      this.entryTtl := entryTtl;
      return Success;
    }

    method Clear()
      requires Valid(Model())
      modifies `byDomain, `byAddress
      ensures Valid(Model()) && Model() == old(Model()).(byDomain := map[], byAddress := map[])
    {
      byDomain, byAddress := map[], map[];
    }

    method PurgeExpired(now: int)
      requires Valid(Model())
      modifies `byDomain, `byAddress, `lastPurge
      ensures Valid(Model()) && Model() == Purge(old(Model()), now)
    {
      PurgeKeepsValid(Model(), now);
      if entryTtl == 0 || now - lastPurge < Seconds(1) {
        return;
      }
      ghost var start := Model();
      lastPurge := now;
      var pending := byDomain.Keys;
      SweepNothing(start, now);
      while pending != {}
        invariant pending <= start.byDomain.Keys
        invariant Model() == Sweep(start, pending, now).(lastPurge := now)
      {
        var d :| d in pending;
        SweepOne(start, pending, d, now);
        if Expired(byDomain[d].expires, now) {
          byAddress := byAddress - {byDomain[d].address};
          byDomain := byDomain - {d};
        }
        pending := pending - {d};
      }
    }

    /** `now` and `later` are the two clock readings of one call. */
    method Resolve(domain: string, now: int, later: int) returns (r: Result<Word32>)
      requires Valid(Model()) && lastPurge <= now <= later
      modifies this
      ensures Valid(Model()) && lastPurge <= now
      ensures var s, n := Purge(old(Model()), now), Names.Normalize(domain);
        if n == "" then r == Err(Configuration) && Model() == s
        else if n in s.byDomain then r == Ok(s.byDomain[n].address) && Model() == s
        else if !HasRoom(s) then r == Err(Unsupported) && Model() == s
        else
          && 1 <= s.nextOffset <= s.addressCount && NextFree(s, 0) > 0
          && r == Ok(s.network + NextFree(s, 0))
          && Model() == Insert(s, n, NextFree(s, 0), later)
      ensures r.Ok? ==> network < r.value <= network + addressCount
      ensures r.Ok? ==> r.value in byAddress && byAddress[r.value] == Names.Normalize(domain)
      ensures r.Ok? && Names.Normalize(domain) !in Purge(old(Model()), now).byDomain ==>
        && Names.Normalize(domain) in byDomain
        && byDomain[Names.Normalize(domain)] == Entry(r.value, if entryTtl == 0 then Never else At(later + entryTtl * 1_000_000_000))
    {
      PurgeExpired(now);
      ghost var s := Model();
      var normalized := Names.Normalize(domain);
      if normalized == "" {
        return Err(Configuration);
      }
      if normalized in byDomain {
        return Ok(byDomain[normalized].address);
      }
      if |byDomain| >= capacity || addressCount == 0 {
        return Err(Unsupported);
      }
      r := Allocate(normalized, later);
    }

    /** The allocating half of a resolution. */
    method Allocate(normalized: string, later: int) returns (r: Result<Word32>)
      requires Valid(Model()) && HasRoom(Model()) && normalized !in byDomain && lastPurge <= later
      modifies `nextOffset, `byDomain, `byAddress
      ensures Valid(Model())
      ensures 1 <= old(nextOffset) <= addressCount && NextFree(old(Model()), 0) > 0
      ensures r == Ok(network + NextFree(old(Model()), 0))
      ensures Model() == Insert(old(Model()), normalized, NextFree(old(Model()), 0), later)
    {
      ghost var s := Model();
      ScanFindsRoom(s);
      var offset := Scan();
      InsertKeepsValid(s, normalized, offset, later);
      var value: Word32 := network + offset;
      byDomain := byDomain[normalized := Entry(value, ExpiryAfter(entryTtl, later))];
      byAddress := byAddress[value := normalized];
      assert Model() == Insert(s, normalized, offset, later);
      return Ok(value);
    }

    /** The scan proper: at most one attempt for every offset, each moving the cursor on. */
    method Scan() returns (offset: nat)
      requires 1 <= nextOffset <= addressCount && network + addressCount < 0x1_0000_0000
      requires NextFree(Model(), 0) > 0
      modifies `nextOffset
      ensures offset == NextFree(old(Model()), 0)
      ensures nextOffset == 1 + Wrap(offset, addressCount)
    {
      ghost var s := Model();
      var attempt := 0;
      while attempt < addressCount
        invariant 0 <= attempt <= s.addressCount
        invariant nextOffset == Scanned(s, attempt)
        invariant NextFree(s, attempt) == NextFree(s, 0)
      {
        ModIsWrap(nextOffset - 1, addressCount);
        offset := 1 + (nextOffset - 1) % addressCount;
        ModIsWrap(offset, addressCount);
        nextOffset := 1 + (offset - 1 + 1) % addressCount;
        var value: Word32 := network + offset;
        if value !in byAddress {
          return;
        }
        attempt := attempt + 1;
      }
      assert false;
    }

    method Reverse(address: Word32, now: int) returns (r: Option<string>)
      requires Valid(Model())
      modifies `byDomain, `byAddress, `lastPurge
      ensures Valid(Model()) && Model() == Purge(old(Model()), now)
      ensures r == if address in byAddress then Some(byAddress[address]) else None
      ensures r.Some? ==> r.value in byDomain && byDomain[r.value].address == address
      ensures r.Some? && byDomain[r.value].expires.At? ==> now < byDomain[r.value].expires.time + Seconds(1)
    {
      PurgeExpired(now);
      if address !in byAddress {
        return None;
      }
      SeenIsFresh(old(Model()), now, byAddress[address]);
      return Some(byAddress[address]);
    }

    method Release(domain: string, now: int) returns (released: bool)
      requires Valid(Model())
      modifies `byDomain, `byAddress, `lastPurge
      ensures Valid(Model())
      ensures var s, n := Purge(old(Model()), now), Names.Normalize(domain);
        && released == (n in s.byDomain)
        && Model() == if n in s.byDomain then Remove(s, n) else s
    {
      PurgeExpired(now);
      var normalized := Names.Normalize(domain);
      if normalized !in byDomain {
        return false;
      }
      RemoveKeepsValid(Model(), normalized);
      byAddress := byAddress - {byDomain[normalized].address};
      byDomain := byDomain - {normalized};
      return true;
    }
  }

  /** The network address has no host bits, so all its addresses fit in 32 bits. */
  lemma NetworkBlock(network: Word32, prefix: nat)
    requires prefix <= 30
    ensures var total := Pow2(32 - prefix);
      && 4 <= total
      && 0 <= network - network % total
      && network - network % total + total <= 0x1_0000_0000
  {
    var total := Pow2(32 - prefix);
    Pow2Add(2, 30 - prefix);
    Pow2Add(prefix, 32 - prefix);
    Pow2Values();
    MulMonotone(1, Pow2(30 - prefix), 4);
    AlignedBlock(network, Pow2(prefix), total);
  }
}
