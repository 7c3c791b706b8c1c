/** Vocabulary shared by every module: optional values, error codes, results and octets. */
module Core {
  datatype Option<+T> = None | Some(value: T)

  /** The error codes of include/clash_native/core/error.hpp; contexts and causes carry no behaviour. */
  datatype ErrorCode =
    | Cancelled
    | Resolution
    | EndpointConnection
    | Authentication
    | ProtocolFraming
    | Timeout
    | Unsupported
    | Configuration
    | TransportIo

  datatype Result<+T> = Ok(value: T) | Err(error: ErrorCode)

  datatype Status = Success | Failed(error: ErrorCode)

  type Octet = x: int | 0 <= x < 256
  type Bytes = seq<Octet>
  type Word16 = x: int | 0 <= x < 0x1_0000
  type Word32 = x: int | 0 <= x < 0x1_0000_0000

  /** Four octets in network order as one number. */
  function Word32From(a: Octet, b: Octet, c: Octet, d: Octet): Word32 {
    a as int * 0x100_0000 + b as int * 0x1_0000 + c as int * 0x100 + d as int
  }

  /** A message under another transaction ID. */
  function WithId(message: Bytes, id: Word16): Bytes
    requires |message| >= 2
  {
    [id / 256, id % 256] + message[2..]
  }

  function Concat(parts: seq<Bytes>): Bytes {
    if parts == [] then [] else parts[0] + Concat(parts[1..])
  }

  // ----- Records of what has happened, which only ever become longer

  /** Whatever was entered stays as it is. */
  ghost predicate Extends<K, V>(before: map<K, V>, after: map<K, V>) {
    forall k :: k in before ==> k in after && after[k] == before[k]
  }

  /** Whatever was told stays told, and in the same order. */
  ghost predicate Grows<T>(before: map<nat, seq<T>>, after: map<nat, seq<T>>) {
    forall k :: k in before ==> k in after && before[k] <= after[k]
  }

  lemma GrowsTransitive<T>(a: map<nat, seq<T>>, b: map<nat, seq<T>>, c: map<nat, seq<T>>)
    requires Grows(a, b) && Grows(b, c)
    ensures Grows(a, c)
  {
  }

  const WORD64 := 0x1_0000_0000_0000_0000

  predicate Distinct<T(==)>(s: seq<T>) {
    forall i, j :: 0 <= i < j < |s| ==> s[i] != s[j]
  }

  /** The set of the elements of a sequence. */
  function Elements<T>(s: seq<T>): set<T> {
    set x | x in s
  }

  /** A sequence without repetitions is as long as the set of its elements. */
  lemma {:induction false} DistinctCardinality<T>(s: seq<T>)
    requires Distinct(s)
    ensures |Elements(s)| == |s|
  {
    if s != [] {
      DistinctCardinality(s[1..]);
      assert Elements(s) == {s[0]} + Elements(s[1..]);
      assert s[0] !in s[1..];
    }
  }

  /** Pigeonhole: a sequence without repetitions inside a finite set is no longer than the set. */
  lemma DistinctWithin<T>(s: seq<T>, bound: set<T>)
    requires Distinct(s) && Elements(s) <= bound
    ensures |s| <= |bound|
  {
    DistinctCardinality(s);
    CardinalityMonotone(Elements(s), bound);
  }

  lemma {:induction false} CardinalityMonotone<T>(small: set<T>, large: set<T>)
    requires small <= large
    ensures |small| <= |large|
    ensures |small| == |large| ==> small == large
  {
    if small != {} {
      var x :| x in small;
      CardinalityMonotone(small - {x}, large - {x});
    }
  }

  /** The first index of an element, or the length. */
  function IndexOf<T(==)>(s: seq<T>, x: T): (i: nat)
    ensures i <= |s| && (i < |s| ==> s[i] == x)
    ensures forall j :: 0 <= j < i ==> s[j] != x
  {
    if s == [] || s[0] == x then 0 else 1 + IndexOf(s[1..], x)
  }

  /** The sequence without the first occurrence of an element. */
  function Omit<T(==)>(s: seq<T>, x: T): seq<T> {
    var i := IndexOf(s, x);
    if i == |s| then s else s[..i] + s[i + 1..]
  }

  lemma OmitMembers<T>(s: seq<T>, x: T)
    requires Distinct(s)
    ensures Distinct(Omit(s, x)) && forall y :: y in Omit(s, x) <==> y in s && y != x
    ensures |Omit(s, x)| == if x in s then |s| - 1 else |s|
  {
    var i := IndexOf(s, x);
    if i < |s| {
      var r := s[..i] + s[i + 1..];
      assert forall k :: 0 <= k < |r| ==> r[k] == if k < i then s[k] else s[k + 1];
      forall y | y in s && y != x ensures y in r {
        var k :| 0 <= k < |s| && s[k] == y;
        assert r[if k < i then k else k - 1] == y;
      }
    }
  }

  lemma Associative<T>(a: seq<T>, b: seq<T>, c: seq<T>)
    ensures a + (b + c) == (a + b) + c
  {
  }

  lemma HeadAndTail<T>(s: seq<T>)
    requires s != []
    ensures [s[0]] + s[1..] == s
  {
  }

  /** An element of a sequence that is not empty. */
  lemma SomeElement<T>(s: seq<T>) returns (x: T)
    requires s != []
    ensures x in s
  {
    x := s[0];
  }

  lemma FrontAndLast<T>(s: seq<T>)
    requires s != []
    ensures s[..|s| - 1] + [s[|s| - 1]] == s
  {
  }

  lemma TwoParts<T>(s: seq<T>, n: nat)
    requires n <= |s|
    ensures s == s[..n] + s[n..]
  {
  }

  lemma NothingAppended<T>(s: seq<T>)
    ensures s + [] == s
  {
  }
}
