/**
 * The key under which the query service (src/dns/dns_query_service.cpp) caches and
 * coalesces a query: the wire form without its transaction ID, the length of the
 * group's name, the name, and the configuration's generation.
 */
module CacheKey {
  import opened Core

  /** The `k` low octets of `n`, least significant first. */
  function LittleEndian(n: nat, k: nat): (r: Bytes)
    ensures |r| == k
  {
    if k == 0 then [] else [n % 256] + LittleEndian(n / 256, k - 1)
  }

  function Word64(n: nat): (r: Bytes)
    ensures |r| == 8
  {
    LittleEndian(n, 8)
  }

  function WithoutId(wire: Bytes): (r: Bytes)
    ensures |r| == |wire|
  {
    if |wire| >= 2 then [0, 0] + wire[2..] else wire
  }

  /** The part of the key that stands for the group. */
  function Tag(group: Bytes): (r: Bytes)
    ensures |r| == 8 + |group|
  {
    Word64(|group|) + group
  }

  function Key(wire: Bytes, group: Bytes, generation: nat): Bytes {
    WithoutId(wire) + Tag(group) + Word64(generation)
  }

  /** `tag` is what ends the longer tag of `group`, `d` octets in. */
  predicate Hides(group: Bytes, d: nat) {
    1 <= d <= |group| && Tag(group)[d..d + 8] == Word64(|group| - d)
  }

  /** Some end of the name, preceded by octets that read as its length, looks like a name of its own. */
  predicate Confusable(group: Bytes) {
    exists d: nat | d <= |group| :: Hides(group, d)
  }

  lemma HiddenTag(group: Bytes, d: nat)
    requires 1 <= d <= |group|
    ensures Tag(group)[d..] == Tag(group)[d..d + 8] + group[d..]
    ensures Hides(group, d) <==> Tag(group)[d..] == Tag(group[d..])
  {
    var t := Tag(group);
    assert t[d..] == t[d..d + 8] + t[d + 8..];
    assert t[d + 8..] == group[d..];
    assert Tag(group[d..])[..8] == Word64(|group| - d);
    assert t[d..][..8] == t[d..d + 8];
  }

  lemma EqualKeys(wire: Bytes, group: Bytes, otherWire: Bytes, other: Bytes, generation: nat)
    requires Key(wire, group, generation) == Key(otherWire, other, generation)
    ensures WithoutId(wire) + Tag(group) == WithoutId(otherWire) + Tag(other)
  {
    var a, b := WithoutId(wire) + Tag(group), WithoutId(otherWire) + Tag(other);
    var n := |Key(wire, group, generation)| - 8;
    assert a == Key(wire, group, generation)[..n] && b == Key(otherWire, other, generation)[..n];
  }

  lemma SuffixOf(a: Bytes, s: Bytes, b: Bytes, t: Bytes)
    requires a + s == b + t && |s| <= |t|
    ensures t[|t| - |s|..] == s && a == b + t[..|t| - |s|]
  {
    var x := a + s;
    assert x[|a|..] == s && x[..|a|] == a && (b + t)[|b|..] == t;
    assert x[|a|..] == (b + t)[|b|..][|t| - |s|..];
    assert x[..|a|] == (b + t)[..|b|] + (b + t)[|b|..][..|t| - |s|];
  }

  /** The part of a key that stands for `a` ends like that of the shorter name `b`. */
  predicate HidesName(a: Bytes, b: Bytes) {
    |b| < |a| && Tag(a)[|a| - |b|..] == Tag(b)
  }

  lemma HidesNameIff(a: Bytes, b: Bytes)
    ensures HidesName(a, b) <==> |b| < |a| && Hides(a, |a| - |b|) && a[|a| - |b|..] == b
  {
    if |b| < |a| {
      var d := |a| - |b|;
      HiddenTag(a, d);
      assert Tag(b)[8..] == b && (Tag(a)[d..d + 8] + a[d..])[8..] == a[d..];
    }
  }

  lemma SameNameSameQuery(wire: Bytes, group: Bytes, otherWire: Bytes, other: Bytes)
    requires WithoutId(wire) + Tag(group) == WithoutId(otherWire) + Tag(other) && |group| == |other| && |wire| >= 2 && |otherWire| >= 2
    ensures group == other && wire[2..] == otherWire[2..]
  {
    SuffixOf(WithoutId(wire), Tag(group), WithoutId(otherWire), Tag(other));
    assert Tag(group)[8..] == group && Tag(other)[8..] == other;
    assert WithoutId(wire) == WithoutId(otherWire) + [];
    assert WithoutId(wire)[2..] == wire[2..] && WithoutId(otherWire)[2..] == otherWire[2..];
  }

  /** Equal keys for two names: the queries are the same up to the ID, and the names, unless one hides the other. */
  lemma EqualKeysHide(wire: Bytes, group: Bytes, otherWire: Bytes, other: Bytes, generation: nat)
    requires Key(wire, group, generation) == Key(otherWire, other, generation) && |wire| >= 2 && |otherWire| >= 2
    ensures (group == other && wire[2..] == otherWire[2..]) || HidesName(group, other) || HidesName(other, group)
  {
    EqualKeys(wire, group, otherWire, other, generation);
    if |group| == |other| {
      SameNameSameQuery(wire, group, otherWire, other);
    } else if |group| < |other| {
      ShorterIsHidden(WithoutId(wire), group, WithoutId(otherWire), other);
    } else {
      ShorterIsHidden(WithoutId(otherWire), other, WithoutId(wire), group);
    }
  }

  lemma ShorterIsHidden(a: Bytes, group: Bytes, b: Bytes, other: Bytes)
    requires a + Tag(group) == b + Tag(other) && |group| < |other|
    ensures HidesName(other, group)
  {
    SuffixOf(a, Tag(group), b, Tag(other));
  }

  /** Whose name hides another one is confusable. */
  lemma HidingIsConfusable(a: Bytes, b: Bytes)
    requires HidesName(a, b)
    ensures Confusable(a)
  {
    HidesNameIff(a, b);
  }

  /** Equal keys come from the same query, ID apart, to the same group, unless the longer name is confusable. */
  lemma EqualKeysAgree(wire: Bytes, group: Bytes, otherWire: Bytes, other: Bytes, generation: nat)
    requires Key(wire, group, generation) == Key(otherWire, other, generation)
    requires !Confusable(group) && !Confusable(other) && |wire| >= 2 && |otherWire| >= 2
    ensures group == other && wire[2..] == otherWire[2..]
  {
    EqualKeysHide(wire, group, otherWire, other, generation);
    if HidesName(group, other) {
      HidingIsConfusable(group, other);
    } else if HidesName(other, group) {
      HidingIsConfusable(other, group);
    }
  }

  predicate Collides(group: Bytes, generation: nat, wire: Bytes, otherWire: Bytes, other: Bytes) {
    |other| < |group| && |wire| >= 12 && |otherWire| >= 12 && Key(wire, group, generation) == Key(otherWire, other, generation)
  }

  lemma ConfusableCollides(group: Bytes, generation: nat) returns (wire: Bytes, otherWire: Bytes, other: Bytes)
    requires Confusable(group)
    ensures Collides(group, generation, wire, otherWire, other)
  {
    var d: nat :| d <= |group| && Hides(group, d);
    HiddenTag(group, d);
    wire := [0, 0, 0, 0, 0, 0, 0, 0, 0, 0, 0, 0];
    otherWire, other := wire + Tag(group)[..d], group[d..];
    assert WithoutId(otherWire) == otherWire && WithoutId(wire) == wire;
    TwoParts(Tag(group), d);
    Associative(wire, Tag(group)[..d], Tag(other));
  }

  /** Exactly the confusable names share a key with a query to a group of a shorter name. */
  lemma CollidesIffConfusable(group: Bytes, generation: nat)
    ensures Confusable(group) <==> exists wire, otherWire, other :: Collides(group, generation, wire, otherWire, other)
  {
    if Confusable(group) {
      var wire, otherWire, other := ConfusableCollides(group, generation);
    }
    if wire, otherWire, other :| Collides(group, generation, wire, otherWire, other) {
      EqualKeysHide(wire, group, otherWire, other, generation);
      HidingIsConfusable(group, other);
    }
  }

  lemma {:induction false} TopOctet(n: nat, k: nat, bound: nat)
    requires n < bound && bound == Power(k)
    ensures LittleEndian(n, k + 1)[k] == 0
  {
    if k > 0 {
      TopOctet(n / 256, k - 1, Power(k - 1));
    }
  }

  function Power(k: nat): (r: nat)
    ensures r >= 1
  {
    if k == 0 then 1 else 256 * Power(k - 1)
  }

  lemma LongestName()
    ensures Power(7) == 0x100_0000_0000_0000
  {
    assert Power(4) == 0x1_0000_0000;
  }

  /** Names without NUL octets, of any length that fits into memory, are never confusable. */
  lemma PlainNames(group: Bytes)
    requires 0 !in group && |group| < 0x100_0000_0000_0000
    ensures !Confusable(group)
  {
    forall d: nat | 1 <= d <= |group| ensures !Hides(group, d) {
      TopOfLength(|group| - d);
      OctetBefore(group, d);
    }
  }

  lemma TopOfLength(n: nat)
    requires n < 0x100_0000_0000_0000
    ensures Word64(n)[7] == 0
  {
    LongestName();
    TopOctet(n, 7, Power(7));
  }

  lemma OctetBefore(group: Bytes, d: nat)
    requires 1 <= d <= |group|
    ensures Tag(group)[d..d + 8][7] == group[d - 1]
  {
  }

  /** A name that is a single NUL octet is confusable with the empty name. */
  lemma NulIsConfusable()
    ensures Confusable([0])
  {
    assert Word64(0) == [0, 0, 0, 0, 0, 0, 0, 0] by {
      assert LittleEndian(0, 4) == [0, 0, 0, 0];
    }
    assert Word64(1)[1..] == [0, 0, 0, 0, 0, 0, 0] by {
      assert LittleEndian(0, 3) == [0, 0, 0];
      assert LittleEndian(1, 8)[1..] == LittleEndian(0, 7);
    }
    assert Tag([0])[1..9] == Word64(0);
    assert Hides([0], 1);
  }
}
