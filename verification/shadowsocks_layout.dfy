/** What the record layer puts on the wire, octet for octet and nonce for nonce, and what a read makes of any octets at all. */
module ShadowsocksLayout {
  import opened Core
  import opened Nonces
  import opened ShadowsocksSpec

  // ----- Writing

  /** Piece `i` of a write: 16383 octets, or what is left. */
  function Piece(data: Bytes, i: nat): Bytes
    requires 16383 * i <= |data|
  {
    if 16383 * i + 16383 <= |data| then data[16383 * i..16383 * i + 16383] else data[16383 * i..]
  }

  /** Every piece of a write is as long as a record allows, except for the last one. */
  lemma {:induction false} PiecesAreFull(data: Bytes)
    ensures |Cut(data)| == (|data| + 16382) / 16383
    ensures forall i :: 0 <= i < |Cut(data)| ==> 16383 * i < |data| && Cut(data)[i] == Piece(data, i)
    decreases |data|
  {
    if |data| > 16383 {
      var rest := data[16383..];
      PiecesAreFull(rest);
      assert Cut(data) == [data[..16383]] + Cut(rest);
      forall i | 0 <= i < |Cut(data)| ensures 16383 * i < |data| && Cut(data)[i] == Piece(data, i) {
        if i > 0 {
          assert Cut(data)[i] == Cut(rest)[i - 1] == Piece(rest, i - 1);
          PieceOfRest(data, i);
        }
      }
    } else if data != [] {
      assert data[0..] == data;
    }
  }

  lemma PieceOfRest(data: Bytes, i: nat)
    requires i > 0 && 16383 * i <= |data|
    ensures Piece(data[16383..], i - 1) == Piece(data, i)
  {
  }

  /** Record `i` of a key stream that begins with `nonce`: the length, high octet first, under one nonce, and the payload under the next. */
  ghost predicate IsRecord(c: Cipher, nonce: Bytes, i: nat, payload: Bytes, record: Bytes) {
    var length, body := c.encrypt(After(nonce, 2 * i), [|payload| / 256 % 256, |payload| % 256]), c.encrypt(After(nonce, 2 * i + 1), payload);
    length.Some? && body.Some? && record == length.value + body.value
  }

  /** What is written for some payloads is one record for each, in order, and each encryption has a nonce of its own until all nonces have been used (`NoncesDiffer`). */
  lemma {:induction false} WireIsRecords(c: Cipher, nonce: Bytes, payloads: seq<Bytes>) returns (records: seq<Bytes>)
    requires (forall p :: p in payloads ==> |p| <= 16383) && Encode(c, nonce, payloads).Some?
    ensures |records| == |payloads| && Concat(records) == Encode(c, nonce, payloads).value
    ensures forall i :: 0 <= i < |payloads| ==> IsRecord(c, nonce, i, payloads[i], records[i])
    decreases |payloads|
  {
    records := [];
    if payloads != [] {
      var rest := WireIsRecords(c, After(nonce, 2), payloads[1..]);
      var first := Record(c, nonce, payloads[0]).value;
      records := [first] + rest;
      FirstIsRecord(c, nonce, payloads[0]);
      forall i | 0 <= i < |payloads| ensures IsRecord(c, nonce, i, payloads[i], records[i]) {
        if i > 0 {
          assert IsRecord(c, After(nonce, 2), i - 1, payloads[1..][i - 1], rest[i - 1]);
          LaterIsRecord(c, nonce, i, payloads[i], rest[i - 1]);
        }
      }
    }
  }

  lemma FirstIsRecord(c: Cipher, nonce: Bytes, payload: Bytes)
    requires |payload| <= 16383 && Record(c, nonce, payload).Some?
    ensures IsRecord(c, nonce, 0, payload, Record(c, nonce, payload).value)
  {
    assert After(nonce, 0) == nonce && After(nonce, 1) == Next(After(nonce, 0));
  }

  lemma LaterIsRecord(c: Cipher, nonce: Bytes, i: nat, payload: Bytes, record: Bytes)
    requires i > 0 && IsRecord(c, After(nonce, 2), i - 1, payload, record)
    ensures IsRecord(c, nonce, i, payload, record)
  {
    AfterSum(nonce, 2, 2 * (i - 1));
    AfterSum(nonce, 2, 2 * (i - 1) + 1);
  }

  // ----- Reading anything

  /** The plaintext of the first `n` octets of a wire with the cipher's own octets, if they are all there. */
  function Opened(c: Cipher, nonce: Bytes, wire: Bytes, n: nat): Option<Bytes>
    requires |wire| >= n + c.overhead
  {
    c.decrypt(nonce, wire[..n + c.overhead])
  }

  /** The wire begins with an encrypted length. */
  predicate HasLength(c: Cipher, r: Reader) {
    |r.wire| >= 2 + c.overhead && Opened(c, r.nonce, r.wire, 2).Some? && |Opened(c, r.nonce, r.wire, 2).value| == 2
  }

  function LengthOf(c: Cipher, r: Reader): nat
    requires HasLength(c, r)
  {
    var plain := Opened(c, r.nonce, r.wire, 2).value;
    plain[0] as int * 256 + plain[1]
  }

  /** What a read makes of a wire: why there is nothing to deliver, or the payload of the record in front. */
  lemma ReadDecides(c: Cipher, r: Reader, size: nat)
    requires r.pending == [] && size > 0
    ensures |r.wire| < 2 + c.overhead ==> Read(c, r, size) == (r.(wire := []), Broken(EndOfStream))
    ensures |r.wire| >= 2 + c.overhead && !HasLength(c, r) ==> Read(c, r, size).1 == Broken(NotAuthentic)
    ensures HasLength(c, r) && !(1 <= LengthOf(c, r) <= 16383) ==> Read(c, r, size).1 == Broken(BadLength)
    ensures HasLength(c, r) && 1 <= LengthOf(c, r) <= 16383 ==>
      var n, rest := LengthOf(c, r), r.wire[2 + c.overhead..];
      if |rest| < n + c.overhead then Read(c, r, size).1 == Broken(EndOfStream)
      else match Opened(c, Next(r.nonce), rest, n)
        case None => Read(c, r, size).1 == Broken(NotAuthentic)
        case Some(plain) =>
          if plain == [] then Read(c, r, size).1 == Broken(NotAuthentic)
          else Read(c, r, size) == CopyPending(Reader(Next(Next(r.nonce)), rest[n + c.overhead..], plain), size)
  {
  }

  /** A read takes as many octets of the plaintext in front as fit, and leaves the others. */
  lemma ReadTakesPending(c: Cipher, r: Reader, size: nat)
    requires r.pending != []
    ensures var (t, d) := Read(c, r, size);
      && d.Data? && d.bytes + t.pending == r.pending && |d.bytes| == (if size < |r.pending| then size else |r.pending|)
      && t == r.(pending := t.pending)
  {
  }
}
