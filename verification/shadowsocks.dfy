/**
 * Nonces of the Shadowsocks record layer (`increment_nonce`,
 * src/transport/proxy/crypto.cpp): octets counted up with the least significant first.
 */
module Nonces {
  import opened Core

  /** The next nonce: a carry goes on as long as octets wrap to zero. */
  function Next(nonce: Bytes): (r: Bytes)
    ensures |r| == |nonce|
  {
    if nonce == [] then []
    else if nonce[0] == 255 then [0] + Next(nonce[1..])
    else [nonce[0] + 1] + nonce[1..]
  }

  function After(nonce: Bytes, steps: nat): (r: Bytes)
    ensures |r| == |nonce|
    decreases steps
  {
    if steps == 0 then nonce else Next(After(nonce, steps - 1))
  }

  /** The number that a nonce stands for, and the number of nonces of a length. */
  function Value(nonce: Bytes): nat {
    if nonce == [] then 0 else nonce[0] as int + 256 * Value(nonce[1..])
  }

  function Count(length: nat): (r: nat)
    ensures r >= 1
  {
    if length == 0 then 1 else 256 * Count(length - 1)
  }

  lemma {:induction false} NextCounts(nonce: Bytes)
    ensures Value(nonce) < Count(|nonce|)
    ensures Value(Next(nonce)) == if Value(nonce) + 1 == Count(|nonce|) then 0 else Value(nonce) + 1
  {
    if nonce != [] {
      NextCounts(nonce[1..]);
      assert Next(nonce)[1..] == if nonce[0] == 255 then Next(nonce[1..]) else nonce[1..];
    }
  }

  lemma {:induction false} AfterCounts(nonce: Bytes, steps: nat)
    requires steps < Count(|nonce|)
    ensures Value(After(nonce, steps)) ==
      if Value(nonce) + steps < Count(|nonce|) then Value(nonce) + steps else Value(nonce) + steps - Count(|nonce|)
    decreases steps
  {
    NextCounts(nonce);
    if steps > 0 {
      AfterCounts(nonce, steps - 1);
      NextCounts(After(nonce, steps - 1));
    }
  }

  /** No nonce comes back before all nonces of its length have been used. */
  lemma NoncesDiffer(nonce: Bytes, i: nat, j: nat)
    requires i < j < Count(|nonce|)
    ensures After(nonce, i) != After(nonce, j)
  {
    AfterCounts(nonce, i);
    AfterCounts(nonce, j);
    NextCounts(nonce);
  }

  lemma {:induction false} AfterSum(nonce: Bytes, a: nat, b: nat)
    ensures After(After(nonce, a), b) == After(nonce, a + b)
    decreases b
  {
    if b > 0 {
      AfterSum(nonce, a, b - 1);
    }
  }

  lemma {:induction false} NextAt(nonce: Bytes, i: nat)
    requires i < |nonce| && (forall j :: 0 <= j < i ==> nonce[j] == 255) && nonce[i] < 255
    ensures Next(nonce) == seq(i, j => 0) + [nonce[i] + 1] + nonce[i + 1..]
  {
    if i > 0 {
      NextAt(nonce[1..], i - 1);
      assert [0] + seq(i - 1, j => 0) == seq(i, j => 0);
      assert nonce[1..][i..] == nonce[i + 1..];
    }
  }

  lemma {:induction false} NextOfLast(nonce: Bytes)
    requires forall j :: 0 <= j < |nonce| ==> nonce[j] == 255
    ensures Next(nonce) == seq(|nonce|, j => 0)
  {
    if nonce != [] {
      NextOfLast(nonce[1..]);
      assert [0] + seq(|nonce| - 1, j => 0) == seq(|nonce|, j => 0);
    }
  }

  method IncrementNonce(nonce: array<Octet>)
    modifies nonce
    ensures nonce[..] == Next(old(nonce[..]))
  {
    var i := 0;
    while i < nonce.Length
      invariant 0 <= i <= nonce.Length
      invariant forall j :: 0 <= j < i ==> old(nonce[j]) == 255 && nonce[j] == 0
      invariant forall j :: i <= j < nonce.Length ==> nonce[j] == old(nonce[j])
    {
      nonce[i] := if nonce[i] == 255 then 0 else nonce[i] + 1;
      if nonce[i] != 0 {
        NextAt(old(nonce[..]), i);
        return;
      }
      i := i + 1;
    }
    NextOfLast(old(nonce[..]));
  }
}

/**
 * The Shadowsocks record layer (`append_tcp_record` and `ShadowsocksStreamHandle::State`,
 * src/outbound/shadowsocks_outbound.cpp) on streams of octets. The cipher is a pair of
 * arbitrary functions.
 */
module ShadowsocksSpec {
  import opened Core
  import opened Nonces

  /** Encryption and decryption under one key, with the nonce as their first argument. */
  datatype Cipher = Cipher(overhead: nat, encrypt: (Bytes, Bytes) -> Option<Bytes>, decrypt: (Bytes, Bytes) -> Option<Bytes>)

  /** All that is asked of a cipher: decryption undoes encryption, which adds a fixed number of octets. */
  ghost predicate Sound(c: Cipher) {
    forall nonce, plain :: c.encrypt(nonce, plain).Some?
      && |c.encrypt(nonce, plain).value| == |plain| + c.overhead
      && c.decrypt(nonce, c.encrypt(nonce, plain).value) == Some(plain)
  }

  /** There are sound ciphers: this one leaves the plaintext as it is and puts a tag of 16 octets behind it. */
  lemma SoundCipherExists() returns (c: Cipher)
    ensures Sound(c) && c.overhead == 16
  {
    c := Cipher(16, (nonce: Bytes, plain: Bytes) => Some(plain + seq(16, i => 0)),
                (nonce: Bytes, sealed: Bytes) => if |sealed| < 16 then None else Some(sealed[..|sealed| - 16]));
    forall plain: Bytes ensures (plain + seq(16, i => 0))[..|plain|] == plain {
    }
  }

  function MaxPayload(): nat { 0x3fff }

  function LengthOctets(n: nat): Bytes
    requires n <= MaxPayload()
  {
    [n / 256, n % 256]
  }

  // ----- Writing

  /** A record: the encrypted length, and the encrypted payload under the next nonce. */
  function Record(c: Cipher, nonce: Bytes, payload: Bytes): Option<Bytes>
    requires |payload| <= MaxPayload()
  {
    var length, body := c.encrypt(nonce, LengthOctets(|payload|)), c.encrypt(Next(nonce), payload);
    if length.Some? && body.Some? then Some(length.value + body.value) else None
  }

  /** The payloads into which a write is cut. */
  function Cut(data: Bytes): (r: seq<Bytes>)
    ensures forall p :: p in r ==> 1 <= |p| <= MaxPayload()
    decreases |data|
  {
    if data == [] then []
    else if |data| <= MaxPayload() then [data]
    else [data[..MaxPayload()]] + Cut(data[MaxPayload()..])
  }

  /** The records of `payloads`, two nonces each; none if one of them cannot be encrypted. */
  function Encode(c: Cipher, nonce: Bytes, payloads: seq<Bytes>): Option<Bytes>
    requires forall p :: p in payloads ==> |p| <= MaxPayload()
    decreases |payloads|
  {
    if payloads == [] then Some([])
    else Join(Record(c, nonce, payloads[0]), Encode(c, After(nonce, 2), payloads[1..]))
  }

  function Join(first: Option<Bytes>, rest: Option<Bytes>): Option<Bytes> {
    if first.Some? && rest.Some? then Some(first.value + rest.value) else None
  }

  // ----- Reading

  datatype Failure = EndOfStream | NotAuthentic | BadLength

  datatype Delivery = Data(bytes: Bytes) | Broken(failure: Failure)

  /** `wire` is what the carrier still delivers, `pending` the plaintext that no read has taken yet. */
  datatype Reader = Reader(nonce: Bytes, wire: Bytes, pending: Bytes)

  function Smaller(a: nat, b: nat): nat {
    if a < b then a else b
  }

  function CopyPending(r: Reader, size: nat): (Reader, Delivery) {
    var n := Smaller(size, |r.pending|);
    (r.(pending := r.pending[n..]), Data(r.pending[..n]))
  }

  function Skip(r: Reader, n: nat): Reader
    requires n <= |r.wire|
  {
    r.(wire := r.wire[n..])
  }

  function ReceivePayload(c: Cipher, r: Reader, length: nat, size: nat): (Reader, Delivery) {
    var n := length + c.overhead;
    if |r.wire| < n then (r.(wire := []), Broken(EndOfStream))
    else
      var plain := c.decrypt(r.nonce, r.wire[..n]);
      if plain.None? || plain.value == [] then (Skip(r, n), Broken(NotAuthentic))
      else CopyPending(Reader(Next(r.nonce), r.wire[n..], plain.value), size)
  }

  function ReceiveLength(c: Cipher, r: Reader, size: nat): (Reader, Delivery) {
    var n := 2 + c.overhead;
    if |r.wire| < n then (r.(wire := []), Broken(EndOfStream))
    else
      var plain := c.decrypt(r.nonce, r.wire[..n]);
      if plain.None? || |plain.value| != 2 then (Skip(r, n), Broken(NotAuthentic))
      else
        var length := plain.value[0] as int * 256 + plain.value[1];
        var s := Reader(Next(r.nonce), r.wire[n..], r.pending);
        if length == 0 || length > MaxPayload() then (s, Broken(BadLength)) else ReceivePayload(c, s, length, size)
  }

  /** One read into a buffer of `size` octets. */
  function Read(c: Cipher, r: Reader, size: nat): (Reader, Delivery) {
    if size == 0 then (r, Data([]))
    else if r.pending != [] then CopyPending(r, size)
    else ReceiveLength(c, r, size)
  }

  function Got(d: Delivery): Bytes {
    if d.Data? then d.bytes else []
  }

  /** All that a sequence of reads delivers. */
  function ReadAll(c: Cipher, r: Reader, sizes: seq<nat>): (Reader, Bytes)
    decreases |sizes|
  {
    if sizes == [] then (r, [])
    else
      var (s, d) := Read(c, r, sizes[0]);
      var (t, more) := ReadAll(c, s, sizes[1..]);
      (t, Got(d) + more)
  }

  // ----- What reading makes of what was written

  lemma {:induction false} CutIsWhole(data: Bytes)
    ensures Concat(Cut(data)) == data
    decreases |data|
  {
    if |data| > MaxPayload() {
      CutIsWhole(data[MaxPayload()..]);
      assert data == data[..MaxPayload()] + data[MaxPayload()..];
    } else if data != [] {
      assert Concat([data]) == data + Concat([]) == data;
    }
  }

  /** The payloads of a sequence of writes, in order. */
  function CutAll(writes: seq<Bytes>): (r: seq<Bytes>)
    ensures forall p :: p in r ==> 1 <= |p| <= MaxPayload()
  {
    if writes == [] then [] else Cut(writes[0]) + CutAll(writes[1..])
  }

  lemma {:induction false} ConcatAppend(a: seq<Bytes>, b: seq<Bytes>)
    ensures Concat(a + b) == Concat(a) + Concat(b)
  {
    if a == [] {
      assert a + b == b;
    } else {
      ConcatAppend(a[1..], b);
      assert (a + b)[1..] == a[1..] + b;
    }
  }

  lemma {:induction false} CutAllIsWhole(writes: seq<Bytes>)
    ensures Concat(CutAll(writes)) == Concat(writes)
  {
    if writes != [] {
      CutIsWhole(writes[0]);
      CutAllIsWhole(writes[1..]);
      ConcatAppend(Cut(writes[0]), CutAll(writes[1..]));
    }
  }

  lemma JoinAssociates(a: Option<Bytes>, b: Option<Bytes>, c: Option<Bytes>)
    ensures Join(a, Join(b, c)) == Join(Join(a, b), c)
    ensures Join(Some([]), a) == a && Join(a, Some([])) == a
  {
    if a.Some? {
      assert [] + a.value == a.value && a.value + [] == a.value;
      if b.Some? && c.Some? {
        assert a.value + (b.value + c.value) == (a.value + b.value) + c.value;
      }
    }
  }

  lemma EncodeFirst(c: Cipher, nonce: Bytes, first: Bytes, rest: seq<Bytes>)
    requires |first| <= MaxPayload() && forall p :: p in rest ==> |p| <= MaxPayload()
    ensures Encode(c, nonce, [first] + rest) == Join(Record(c, nonce, first), Encode(c, After(nonce, 2), rest))
  {
    assert ([first] + rest)[1..] == rest;
  }

  lemma EncodeStep(c: Cipher, nonce: Bytes, first: Bytes, rest: seq<Bytes>, b: seq<Bytes>, last: Option<Bytes>)
    requires |first| <= MaxPayload() && (forall p :: p in rest ==> |p| <= MaxPayload()) && (forall p :: p in b ==> |p| <= MaxPayload())
    requires Encode(c, After(nonce, 2), rest + b) == Join(Encode(c, After(nonce, 2), rest), last)
    ensures Encode(c, nonce, ([first] + rest) + b) == Join(Encode(c, nonce, [first] + rest), last)
  {
    EncodeFirst(c, nonce, first, rest + b);
    EncodeFirst(c, nonce, first, rest);
    Associative([first], rest, b);
    JoinAssociates(Record(c, nonce, first), Encode(c, After(nonce, 2), rest), last);
  }

  lemma RecordsAfter(nonce: Bytes, records: nat)
    ensures After(After(nonce, 2), 2 * records) == After(nonce, 2 * (records + 1))
  {
    AfterSum(nonce, 2, 2 * records);
    assert 2 + 2 * records == 2 * (records + 1);
  }

  lemma EncodeMore(c: Cipher, nonce: Bytes, a: seq<Bytes>, b: seq<Bytes>)
    requires (forall p :: p in a ==> |p| <= MaxPayload()) && (forall p :: p in b ==> |p| <= MaxPayload()) && a != []
    requires Encode(c, After(nonce, 2), a[1..] + b) == Join(Encode(c, After(nonce, 2), a[1..]), Encode(c, After(After(nonce, 2), 2 * |a[1..]|), b))
    ensures Encode(c, nonce, a + b) == Join(Encode(c, nonce, a), Encode(c, After(nonce, 2 * |a|), b))
  {
    HeadAndTail(a);
    RecordsAfter(nonce, |a[1..]|);
    EncodeStep(c, nonce, a[0], a[1..], b, Encode(c, After(After(nonce, 2), 2 * |a[1..]|), b));
  }

  /** Two nonces for every record. */
  lemma {:induction false} EncodeAppend(c: Cipher, nonce: Bytes, a: seq<Bytes>, b: seq<Bytes>)
    requires (forall p :: p in a ==> |p| <= MaxPayload()) && (forall p :: p in b ==> |p| <= MaxPayload())
    ensures Encode(c, nonce, a + b) == Join(Encode(c, nonce, a), Encode(c, After(nonce, 2 * |a|), b))
    decreases |a|
  {
    if a == [] {
      assert a + b == b && After(nonce, 0) == nonce;
      JoinAssociates(Encode(c, nonce, b), None, None);
    } else {
      EncodeAppend(c, After(nonce, 2), a[1..], b);
      EncodeMore(c, nonce, a, b);
    }
  }

  lemma {:induction false} SoundEncodes(c: Cipher, nonce: Bytes, payloads: seq<Bytes>)
    requires Sound(c) && forall p :: p in payloads ==> |p| <= MaxPayload()
    ensures Encode(c, nonce, payloads).Some?
    decreases |payloads|
  {
    if payloads != [] {
      SoundEncodes(c, After(nonce, 2), payloads[1..]);
      assert c.encrypt(nonce, LengthOctets(|payloads[0]|)).Some? && c.encrypt(Next(nonce), payloads[0]).Some?;
    }
  }

  /** The reader stands before the records of `left`, with as many nonces used as the writer had used there. */
  ghost predicate Before(c: Cipher, r: Reader, left: seq<Bytes>) {
    && (forall p :: p in left ==> 1 <= |p| <= MaxPayload())
    && Encode(c, r.nonce, left) == Some(r.wire)
  }

  lemma FirstRecord(c: Cipher, nonce: Bytes, payload: Bytes, rest: Bytes)
    requires Sound(c) && |payload| <= MaxPayload()
    ensures Record(c, nonce, payload).Some?
    ensures var wire := Record(c, nonce, payload).value + rest; var n, m := 2 + c.overhead, |payload| + c.overhead;
      && |wire| >= n + m && wire[..n] == c.encrypt(nonce, LengthOctets(|payload|)).value
      && wire[n..][..m] == c.encrypt(Next(nonce), payload).value && wire[n..][m..] == rest
  {
    var n, m := 2 + c.overhead, |payload| + c.overhead;
    var length, body := c.encrypt(nonce, LengthOctets(|payload|)), c.encrypt(Next(nonce), payload);
    assert |length.value| == n && |body.value| == m;
    var wire := (length.value + body.value) + rest;
    assert wire == length.value + (body.value + rest);
    assert wire[n..] == body.value + rest;
  }

  /** A read that finds no plaintext takes one record. */
  lemma RecordIsRead(c: Cipher, r: Reader, payload: Bytes, rest: Bytes, size: nat)
    requires Sound(c) && 1 <= |payload| <= MaxPayload() && r.pending == [] && size > 0
    requires Record(c, r.nonce, payload).Some? && r.wire == Record(c, r.nonce, payload).value + rest
    ensures Read(c, r, size) == CopyPending(Reader(Next(Next(r.nonce)), rest, payload), size)
  {
    FirstRecord(c, r.nonce, payload, rest);
    assert c.decrypt(r.nonce, c.encrypt(r.nonce, LengthOctets(|payload|)).value) == Some(LengthOctets(|payload|));
    assert c.decrypt(Next(r.nonce), c.encrypt(Next(r.nonce), payload).value) == Some(payload);
  }

  /** From `r` on, the records `head` have been taken and `tail` are left; what `head` held has been got or waits. */
  ghost predicate Took(c: Cipher, r: Reader, head: seq<Bytes>, tail: seq<Bytes>, t: Reader, got: Bytes) {
    && Before(c, t, tail) && t.nonce == After(r.nonce, 2 * |head|)
    && r.pending + Concat(head) == got + t.pending
  }

  lemma TookThen(c: Cipher, r: Reader, head: seq<Bytes>, tail: seq<Bytes>, s: Reader, a: Bytes,
                 more: seq<Bytes>, rest: seq<Bytes>, t: Reader, b: Bytes)
    requires Took(c, r, head, tail, s, a) && Took(c, s, more, rest, t, b)
    ensures Took(c, r, head + more, rest, t, a + b)
  {
    TookNonces(r.nonce, head, more);
    ConcatAppend(head, more);
    TookOctets(r.pending, Concat(head), Concat(more), a, s.pending, b, t.pending);
  }

  lemma TookNonces(nonce: Bytes, head: seq<Bytes>, more: seq<Bytes>)
    ensures After(After(nonce, 2 * |head|), 2 * |more|) == After(nonce, 2 * |head + more|)
  {
    AfterSum(nonce, 2 * |head|, 2 * |more|);
    assert 2 * |head| + 2 * |more| == 2 * |head + more|;
  }

  lemma TookOctets(before: Bytes, first: Bytes, second: Bytes, a: Bytes, between: Bytes, b: Bytes, after: Bytes)
    requires before + first == a + between && between + second == b + after
    ensures before + (first + second) == (a + b) + after
  {
    assert before + (first + second) == (before + first) + second;
    assert (a + between) + second == a + (between + second);
    assert a + (b + after) == (a + b) + after;
  }

  lemma TookNone(c: Cipher, r: Reader, left: seq<Bytes>)
    requires Before(c, r, left)
    ensures Took(c, r, [], left, r, [])
  {
    assert r.pending + [] == [] + r.pending;
  }

  lemma CopyTakes(c: Cipher, r: Reader, left: seq<Bytes>, size: nat)
    requires Before(c, r, left)
    ensures var (t, d) := CopyPending(r, size); Took(c, r, [], left, t, Got(d))
  {
    assert r.pending + [] == r.pending;
  }

  /** One read takes at most one record, and gets something if there is room and something is left. */
  lemma ReadTakes(c: Cipher, r: Reader, left: seq<Bytes>, size: nat) returns (head: seq<Bytes>, tail: seq<Bytes>)
    requires Sound(c) && Before(c, r, left)
    ensures head + tail == left && Took(c, r, head, tail, Read(c, r, size).0, Got(Read(c, r, size).1))
    ensures size > 0 && (r.pending != [] || left != []) ==> Got(Read(c, r, size).1) != []
  {
    head, tail := [], left;
    if size == 0 || (r.pending == [] && left == []) {
      TookNone(c, r, left);
      assert r.pending == [] && left == [] ==> r.wire == [];
    } else if r.pending != [] {
      CopyTakes(c, r, left, size);
    } else {
      head, tail := [left[0]], left[1..];
      var s := RecordTakes(c, r, left);
      RecordIsRead(c, r, left[0], s.wire, size);
      CopyTakes(c, s, tail, size);
      TookThen(c, r, head, tail, s, [], [], tail, CopyPending(s, size).0, Got(CopyPending(s, size).1));
      assert [] + Got(CopyPending(s, size).1) == Got(CopyPending(s, size).1) && head + [] == head;
    }
  }

  lemma RecordTakes(c: Cipher, r: Reader, left: seq<Bytes>) returns (s: Reader)
    requires Sound(c) && Before(c, r, left) && left != [] && r.pending == []
    ensures Record(c, r.nonce, left[0]).Some? && r.wire == Record(c, r.nonce, left[0]).value + s.wire
    ensures s.nonce == Next(Next(r.nonce)) && s.pending == left[0]
    ensures Took(c, r, [left[0]], left[1..], s, [])
  {
    SoundEncodes(c, After(r.nonce, 2), left[1..]);
    s := Reader(After(r.nonce, 2), Encode(c, After(r.nonce, 2), left[1..]).value, left[0]);
    assert After(r.nonce, 2) == Next(After(r.nonce, 1)) && After(r.nonce, 1) == Next(After(r.nonce, 0));
    assert Concat([left[0]]) == left[0] + Concat([]) == left[0];
  }

  lemma {:induction false} ReadsTake(c: Cipher, r: Reader, left: seq<Bytes>, sizes: seq<nat>) returns (head: seq<Bytes>, tail: seq<Bytes>)
    requires Sound(c) && Before(c, r, left)
    ensures head + tail == left && Took(c, r, head, tail, ReadAll(c, r, sizes).0, ReadAll(c, r, sizes).1)
    decreases |sizes|
  {
    if sizes == [] {
      head, tail := [], left;
      TookNone(c, r, left);
    } else {
      var first, others := ReadTakes(c, r, left, sizes[0]);
      var s, a := Read(c, r, sizes[0]).0, Got(Read(c, r, sizes[0]).1);
      var more, rest := ReadsTake(c, s, others, sizes[1..]);
      var t, b := ReadAll(c, s, sizes[1..]).0, ReadAll(c, s, sizes[1..]).1;
      assert ReadAll(c, r, sizes) == (t, a + b);
      TookThen(c, r, first, others, s, a, more, rest, t, b);
      head, tail := first + more, rest;
      Associative(first, more, rest);
    }
  }

  lemma NothingLeft(c: Cipher, r: Reader, left: seq<Bytes>)
    requires Sound(c) && Before(c, r, left) && r.wire == []
    ensures left == []
  {
    if left != [] {
      SoundEncodes(c, After(r.nonce, 2), left[1..]);
      FirstRecord(c, r.nonce, left[0], Encode(c, After(r.nonce, 2), left[1..]).value);
    }
  }

  /** What was got, what waits and what is left make up everything. */
  lemma TookWhole(c: Cipher, r: Reader, head: seq<Bytes>, tail: seq<Bytes>, t: Reader, got: Bytes)
    requires Took(c, r, head, tail, t, got)
    ensures r.pending + Concat(head + tail) == got + (t.pending + Concat(tail))
  {
    ConcatAppend(head, tail);
    TookOctets(r.pending, Concat(head), Concat(tail), got, t.pending, [], t.pending + Concat(tail));
    assert [] + (t.pending + Concat(tail)) == t.pending + Concat(tail) && got + [] == got;
  }

  /**
   * Whatever is written, in whatever pieces, and whatever sizes are read: the reads
   * deliver a beginning of what was written, and all of it once no record and no
   * plaintext is left; every record moves both nonces by two.
   */
  lemma WritesAreRead(c: Cipher, nonce: Bytes, writes: seq<Bytes>, sizes: seq<nat>) returns (records: seq<Bytes>)
    requires Sound(c)
    ensures Encode(c, nonce, CutAll(writes)).Some?
    ensures var (t, got) := ReadAll(c, Reader(nonce, Encode(c, nonce, CutAll(writes)).value, []), sizes);
      && got <= Concat(writes)
      && (t.wire == [] && t.pending == [] ==> got == Concat(writes))
      && records <= CutAll(writes) && t.nonce == After(nonce, 2 * |records|)
      && got + t.pending == Concat(records)
  {
    var payloads := CutAll(writes);
    SoundEncodes(c, nonce, payloads);
    CutAllIsWhole(writes);
    var r := Reader(nonce, Encode(c, nonce, payloads).value, []);
    var head, tail := ReadsTake(c, r, payloads, sizes);
    records := head;
    TookFromStart(c, r, head, tail, ReadAll(c, r, sizes).0, ReadAll(c, r, sizes).1);
  }

  lemma TookFromStart(c: Cipher, r: Reader, head: seq<Bytes>, tail: seq<Bytes>, t: Reader, got: Bytes)
    requires Sound(c) && Took(c, r, head, tail, t, got) && r.pending == []
    ensures got <= Concat(head + tail) && (t.wire == [] && t.pending == [] ==> got == Concat(head + tail))
    ensures got + t.pending == Concat(head)
  {
    TookWhole(c, r, head, tail, t, got);
    assert [] + Concat(head + tail) == Concat(head + tail) && [] + Concat(head) == Concat(head);
    if t.wire == [] {
      NothingLeft(c, t, tail);
    }
    assert got + ([] + []) == got;
  }

  /** Every read with room gets something as long as something is left, so enough reads get everything. */
  lemma {:induction false} EnoughReadsGetAll(c: Cipher, r: Reader, left: seq<Bytes>, sizes: seq<nat>)
    requires Sound(c) && Before(c, r, left)
    requires (forall n :: n in sizes ==> n > 0) && |sizes| >= |r.pending| + |Concat(left)|
    ensures var t := ReadAll(c, r, sizes).0; t.wire == [] && t.pending == []
    decreases |sizes|
  {
    if sizes == [] {
      NoOctets(left);
    } else {
      assert sizes[0] in sizes && forall n :: n in sizes[1..] ==> n in sizes;
      var head, tail := ReadTakes(c, r, left, sizes[0]);
      var s, a := Read(c, r, sizes[0]).0, Got(Read(c, r, sizes[0]).1);
      TookWhole(c, r, head, tail, s, a);
      assert |r.pending + Concat(left)| == |a| + (|s.pending| + |Concat(tail)|);
      EnoughReadsGetAll(c, s, tail, sizes[1..]);
    }
  }

  lemma NoOctets(left: seq<Bytes>)
    requires (forall p :: p in left ==> |p| >= 1) && |Concat(left)| == 0
    ensures left == []
  {
  }

  /** What several writes put on the carrier is what one write of their payloads would. */
  lemma {:induction false} WritesCompose(c: Cipher, nonce: Bytes, writes: seq<Bytes>, data: Bytes)
    ensures Encode(c, nonce, CutAll(writes + [data])) ==
      Join(Encode(c, nonce, CutAll(writes)), Encode(c, After(nonce, 2 * |CutAll(writes)|), Cut(data)))
  {
    CutAllAppend(writes, data);
    EncodeAppend(c, nonce, CutAll(writes), Cut(data));
  }

  lemma {:induction false} CutAllAppend(writes: seq<Bytes>, data: Bytes)
    ensures CutAll(writes + [data]) == CutAll(writes) + Cut(data)
  {
    if writes == [] {
      assert CutAll([data]) == Cut(data) + CutAll([]) == Cut(data);
      assert [] + [data] == [data];
    } else {
      var first, rest := Cut(writes[0]), CutAll(writes[1..]);
      CutAllAppend(writes[1..], data);
      assert (writes + [data])[1..] == writes[1..] + [data];
      assert CutAll(writes + [data]) == first + (rest + Cut(data));
      Associative(first, rest, Cut(data));
    }
  }
}

/** The record layer itself, once the salts have been exchanged. */
module ShadowsocksStreams {
  import opened Core
  import opened Nonces
  import opened Spec = ShadowsocksSpec

  datatype WriteResult = AlreadyStarted | NothingToWrite | ProtocolError | Started

  /** How many records a write tries before it ends or fails; each of them has used two nonces. */
  function Attempts(c: Cipher, nonce: Bytes, payloads: seq<Bytes>): nat
    requires forall p :: p in payloads ==> |p| <= MaxPayload()
    decreases |payloads|
  {
    if payloads == [] then 0
    else if Record(c, nonce, payloads[0]).None? then 1
    else 1 + Attempts(c, After(nonce, 2), payloads[1..])
  }

  lemma {:induction false} AttemptsAll(c: Cipher, nonce: Bytes, payloads: seq<Bytes>)
    requires forall p :: p in payloads ==> |p| <= MaxPayload()
    ensures Encode(c, nonce, payloads).Some? ==> Attempts(c, nonce, payloads) == |payloads|
    decreases |payloads|
  {
    if payloads != [] {
      AttemptsAll(c, After(nonce, 2), payloads[1..]);
    }
  }

  lemma CutFirst(data: Bytes)
    requires data != []
    ensures var n := Smaller(MaxPayload(), |data|); Cut(data) == [data[..n]] + Cut(data[n..])
  {
    if |data| <= MaxPayload() {
      assert data[..|data|] == data && Cut(data[|data|..]) == [];
    }
  }

  lemma NextTwice(nonce: Bytes)
    ensures After(nonce, 2) == Next(Next(nonce))
  {
    assert After(nonce, 1) == Next(After(nonce, 0));
  }

  /** One record of a write that has `data` left. */
  lemma WriteStep(c: Cipher, nonce: Bytes, data: Bytes)
    requires data != []
    ensures var n := Smaller(MaxPayload(), |data|);
      && Encode(c, nonce, Cut(data)) == Join(Record(c, nonce, data[..n]), Encode(c, After(nonce, 2), Cut(data[n..])))
      && Attempts(c, nonce, Cut(data)) ==
           if Record(c, nonce, data[..n]).None? then 1 else 1 + Attempts(c, After(nonce, 2), Cut(data[n..]))
  {
    var n := Smaller(MaxPayload(), |data|);
    CutFirst(data);
    assert Cut(data)[1..] == Cut(data[n..]) && Cut(data)[0] == data[..n];
  }

  /** `records` hold the first `k` payloads of `data`; `left` is to be encoded from `nonce` on. */
  ghost predicate Progress(c: Cipher, start: Bytes, data: Bytes, records: Bytes, k: nat, nonce: Bytes, left: Bytes) {
    && nonce == After(start, 2 * k)
    && Encode(c, start, Cut(data)) == Join(Some(records), Encode(c, nonce, Cut(left)))
    && Attempts(c, start, Cut(data)) == k + Attempts(c, nonce, Cut(left))
  }

  lemma ProgressStarts(c: Cipher, start: Bytes, data: Bytes)
    ensures Progress(c, start, data, [], 0, start, data)
  {
    JoinAssociates(Encode(c, start, Cut(data)), None, None);
  }

  lemma ProgressStep(c: Cipher, start: Bytes, data: Bytes, records: Bytes, k: nat, nonce: Bytes, left: Bytes, n: nat)
    requires Progress(c, start, data, records, k, nonce, left) && left != [] && n == Smaller(MaxPayload(), |left|)
    requires Record(c, nonce, left[..n]).Some?
    ensures Progress(c, start, data, records + Record(c, nonce, left[..n]).value, k + 1, After(nonce, 2), left[n..])
  {
    var record, rest := Record(c, nonce, left[..n]), Encode(c, After(nonce, 2), Cut(left[n..]));
    WriteStep(c, nonce, left);
    TwoMore(start, nonce, k);
    JoinAssociates(Some(records), record, rest);
  }

  lemma ProgressFails(c: Cipher, start: Bytes, data: Bytes, records: Bytes, k: nat, nonce: Bytes, left: Bytes, n: nat)
    requires Progress(c, start, data, records, k, nonce, left) && left != [] && n == Smaller(MaxPayload(), |left|)
    requires Record(c, nonce, left[..n]).None?
    ensures Encode(c, start, Cut(data)).None? && After(nonce, 2) == After(start, 2 * Attempts(c, start, Cut(data)))
  {
    WriteStep(c, nonce, left);
    TwoMore(start, nonce, k);
  }

  lemma TwoMore(start: Bytes, nonce: Bytes, k: nat)
    requires nonce == After(start, 2 * k)
    ensures After(nonce, 2) == After(start, 2 * (k + 1))
  {
    AfterSum(start, 2 * k, 2);
    assert 2 * k + 2 == 2 * (k + 1);
  }

  lemma ProgressEnds(c: Cipher, start: Bytes, data: Bytes, records: Bytes, k: nat, nonce: Bytes, left: Bytes)
    requires Progress(c, start, data, records, k, nonce, left) && left == []
    ensures Encode(c, start, Cut(data)) == Some(records) && nonce == After(start, 2 * Attempts(c, start, Cut(data)))
  {
    assert records + [] == records;
  }

  lemma Slices(data: Bytes, offset: nat, size: nat)
    requires offset + size <= |data|
    ensures data[offset..][..size] == data[offset..offset + size] && data[offset..][size..] == data[offset + size..]
  {
  }

  class ShadowsocksStream {
    const cipher: Cipher
    const writeNonce: array<Octet>
    const readNonce: array<Octet>
    var writeInProgress: bool
    var initialWire: Bytes
    var initialWireOffset: nat
    var pendingPlaintext: Bytes
    var pendingOffset: nat
    /** What the carrier still delivers, and what it has been given. */
    var incoming: Bytes
    var outgoing: Bytes

    ghost predicate Valid()
      reads this
    {
      writeNonce != readNonce && initialWireOffset <= |initialWire| && pendingOffset <= |pendingPlaintext|
    }

    ghost function Reading(): Reader
      requires Valid()
      reads this, readNonce
    {
      Reader(readNonce[..], initialWire[initialWireOffset..] + incoming, pendingPlaintext[pendingOffset..])
    }

    constructor (cipher: Cipher, key: array<Octet>, nonceSize: nat, initialWire: Bytes, incoming: Bytes)
      ensures Valid() && writeNonce == key && fresh(readNonce) && readNonce.Length == nonceSize
      ensures Reading() == Reader(seq(nonceSize, i => 0), initialWire + incoming, []) && !writeInProgress && outgoing == []
    {
      this.cipher, writeNonce := cipher, key;
      readNonce := new Octet[nonceSize](i => 0);
      this.initialWire, initialWireOffset, pendingPlaintext, pendingOffset := initialWire, 0, [], 0;
      this.incoming, outgoing, writeInProgress := incoming, [], false;
    }

    /** One record; the nonce has moved by two even if encryption failed. */
    static method AppendTcpRecord(cipher: Cipher, nonce: array<Octet>, payload: Bytes) returns (record: Option<Bytes>)
      requires |payload| <= MaxPayload()
      modifies nonce
      ensures record == Record(cipher, old(nonce[..]), payload) && nonce[..] == After(old(nonce[..]), 2)
    {
      NextTwice(nonce[..]);
      var length: Bytes := [|payload| / 256, |payload| % 256];
      var encryptedLength := cipher.encrypt(nonce[..], length);
      IncrementNonce(nonce);
      var encryptedPayload := cipher.encrypt(nonce[..], payload);
      IncrementNonce(nonce);
      if encryptedLength.None? || encryptedPayload.None? {
        return None;
      }
      return Some(encryptedLength.value + encryptedPayload.value);
    }

    method Write(data: Bytes) returns (r: WriteResult)
      requires Valid()
      modifies `writeInProgress, `outgoing, writeNonce
      ensures Valid()
      ensures old(writeInProgress) ==> r == AlreadyStarted
      ensures !old(writeInProgress) && data == [] ==> r == NothingToWrite
      ensures old(writeInProgress) || data == [] ==>
        writeNonce[..] == old(writeNonce[..]) && outgoing == old(outgoing) && writeInProgress == old(writeInProgress)
      ensures !old(writeInProgress) && data != [] ==>
        var wire := Encode(cipher, old(writeNonce[..]), Cut(data));
        && writeNonce[..] == After(old(writeNonce[..]), 2 * Attempts(cipher, old(writeNonce[..]), Cut(data)))
        && r == (if wire.Some? then Started else ProtocolError) && writeInProgress == wire.Some?
        && outgoing == if wire.Some? then old(outgoing) + wire.value else old(outgoing)
    {
      if writeInProgress {
        return AlreadyStarted;
      }
      if data == [] {
        return NothingToWrite;
      }
      var encoded := EncodeAll(data);
      if encoded.None? {
        return ProtocolError;
      }
      writeInProgress := true;
      outgoing := outgoing + encoded.value;
      return Started;
    }

    method EncodeAll(data: Bytes) returns (encoded: Option<Bytes>)
      modifies writeNonce
      ensures encoded == Encode(cipher, old(writeNonce[..]), Cut(data))
      ensures writeNonce[..] == After(old(writeNonce[..]), 2 * Attempts(cipher, old(writeNonce[..]), Cut(data)))
    {
      ghost var start := writeNonce[..];
      var records: Bytes, offset := [], 0;
      ghost var k, left := 0, data;
      ProgressStarts(cipher, start, data);
      while offset < |data|
        invariant 0 <= offset <= |data| && left == data[offset..]
        invariant Progress(cipher, start, data, records, k, writeNonce[..], left)
      {
        ghost var nonce := writeNonce[..];
        var size := if |data| - offset < 0x3fff then |data| - offset else 0x3fff;
        Slices(data, offset, size);
        var record := AppendTcpRecord(cipher, writeNonce, data[offset..offset + size]);
        if record.None? {
          ProgressFails(cipher, start, data, records, k, nonce, left, size);
          return None;
        }
        ProgressStep(cipher, start, data, records, k, nonce, left, size);
        records := records + record.value;
        offset := offset + size;
        k, left := k + 1, left[size..];
      }
      ProgressEnds(cipher, start, data, records, k, writeNonce[..], left);
      return Some(records);
    }

    /** The carrier has taken what was written. */
    method OnWritten()
      modifies `writeInProgress
      ensures !writeInProgress
    {
      writeInProgress := false;
    }

    // ----- Reading

    /** A read with nothing else in between; the result is what the model of the stream delivers. */
    method Read(size: nat) returns (d: Delivery)
      requires Valid()
      modifies this, readNonce
      ensures Valid() && (Reading(), d) == Spec.Read(cipher, old(Reading()), size)
    {
      if size == 0 {
        return Data([]);
      }
      if pendingOffset < |pendingPlaintext| {
        d := CopyPending(size);
        return;
      }
      d := ReceiveLength(size);
    }

    method ReceiveLength(size: nat) returns (d: Delivery)
      requires Valid()
      modifies this, readNonce
      ensures Valid() && (Reading(), d) == Spec.ReceiveLength(cipher, old(Reading()), size)
    {
      var encrypted := ReadExact(2 + cipher.overhead);
      if encrypted.None? {
        return Broken(EndOfStream);
      }
      var length := cipher.decrypt(readNonce[..], encrypted.value);
      if length.None? || |length.value| != 2 {
        return Broken(NotAuthentic);
      }
      IncrementNonce(readNonce);
      var payloadSize := length.value[0] as int * 256 + length.value[1];
      if payloadSize == 0 || payloadSize > 0x3fff {
        return Broken(BadLength);
      }
      d := ReceivePayload(payloadSize, size);
    }

    method ReceivePayload(payloadSize: nat, size: nat) returns (d: Delivery)
      requires Valid()
      modifies this, readNonce
      ensures Valid() && (Reading(), d) == Spec.ReceivePayload(cipher, old(Reading()), payloadSize, size)
    {
      var encrypted := ReadExact(payloadSize + cipher.overhead);
      if encrypted.None? {
        return Broken(EndOfStream);
      }
      var plain := cipher.decrypt(readNonce[..], encrypted.value);
      if plain.None? || plain.value == [] {
        return Broken(NotAuthentic);
      }
      IncrementNonce(readNonce);
      pendingPlaintext, pendingOffset := plain.value, 0;
      d := CopyPending(size);
    }

    method CopyPending(size: nat) returns (d: Delivery)
      requires Valid()
      modifies `pendingPlaintext, `pendingOffset
      ensures Valid() && (Reading(), d) == Spec.CopyPending(old(Reading()), size)
    {
      var remaining := |pendingPlaintext| - pendingOffset;
      var copied := if size < remaining then size else remaining;
      d := Data(pendingPlaintext[pendingOffset..pendingOffset + copied]);
      assert pendingPlaintext[pendingOffset..][..copied] == pendingPlaintext[pendingOffset..pendingOffset + copied];
      assert pendingPlaintext[pendingOffset..][copied..] == pendingPlaintext[pendingOffset + copied..];
      pendingOffset := pendingOffset + copied;
      if pendingOffset == |pendingPlaintext| {
        assert pendingPlaintext[pendingOffset..] == [];
        pendingPlaintext, pendingOffset := [], 0;
      }
    }

    /** Exactly `n` octets: first what is left of the initial ones, then what the carrier delivers. */
    method ReadExact(n: nat) returns (bytes: Option<Bytes>)
      requires Valid()
      modifies `initialWire, `initialWireOffset, `incoming
      ensures Valid()
      ensures var wire := old(Reading()).wire;
        if |wire| < n then bytes == None && Reading() == old(Reading()).(wire := [])
        else bytes == Some(wire[..n]) && Reading() == Skip(old(Reading()), n)
    {
      ghost var wire := Reading().wire;
      var left := |initialWire| - initialWireOffset;
      var copied := if n < left then n else left;
      var head := initialWire[initialWireOffset..initialWireOffset + copied];
      ghost var initial := initialWire[initialWireOffset..];
      assert initial[..copied] == head && initial[copied..] == initialWire[initialWireOffset + copied..];
      assert wire == initial + incoming && wire[..copied] == initial[..copied] && wire[copied..] == initial[copied..] + incoming;
      initialWireOffset := initialWireOffset + copied;
      if initialWireOffset == |initialWire| {
        initialWire, initialWireOffset := [], 0;
      }
      assert Reading().wire == wire[copied..];
      if copied == n {
        return Some(head);
      }
      assert initialWire == [] && incoming == wire[copied..];
      var rest := ReadExactCarrier(n - copied);
      if rest.None? {
        return None;
      }
      assert wire[..n] == head + wire[copied..][..n - copied];
      return Some(head + rest.value);
    }

    /** Pulls from the carrier, in pieces of whatever size it delivers, until `n` octets have come. */
    method ReadExactCarrier(n: nat) returns (bytes: Option<Bytes>)
      modifies `incoming
      ensures if |old(incoming)| < n then bytes == None && incoming == []
              else bytes == Some(old(incoming)[..n]) && incoming == old(incoming)[n..]
    {
      var done: Bytes := [];
      while |done| < n
        invariant |done| <= n && done + incoming == old(incoming)
      {
        if incoming == [] {
          NothingAppended(done);
          return None;
        }
        var pulled :| 1 <= pulled <= n - |done| && pulled <= |incoming|;
        TwoParts(incoming, pulled);
        Associative(done, incoming[..pulled], incoming[pulled..]);
        done := done + incoming[..pulled];
        incoming := incoming[pulled..];
      }
      TwoParts(old(incoming), n);
      return Some(done);
    }
  }
}
