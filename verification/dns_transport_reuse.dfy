/** How long a transaction ID of the plain DNS transport rests before it is used again. */
module DnsTransportReuse {
  import opened Core
  import opened TransactionIds
  import opened DnsTransportSpec

  /** The number of IDs between `q` and `id` in cyclic order; `q` itself comes last. */
  function Place(q: Word16, id: Word16): (r: int)
    requires q != 0 && id != 0
    ensures 0 <= r < 0xffff
  {
    if id > q then id - q - 1 else id - q - 1 + 0xffff
  }

  /** The cursor has come past these IDs since `q` was used, if it has not come past all. */
  ghost predicate Swept(q: Word16, cursor: Word16, ids: set<Word16>)
    requires q != 0 && cursor != 0
  {
    || (forall id: Word16 :: id != 0 && Place(q, id) < Place(q, cursor) ==> id in ids)
    || All(q, ids)
  }

  ghost predicate All(q: Word16, ids: set<Word16>) {
    forall id: Word16 :: id != 0 && id != q ==> id in ids
  }

  lemma OneFurther(q: Word16, cursor: Word16, ids: set<Word16>)
    requires q != 0 && cursor != 0 && Swept(q, cursor, ids)
    ensures cursor == q ==> All(q, ids)
    ensures cursor in ids || cursor == q ==> Swept(q, Advance(cursor), ids)
  {
    if cursor != q && cursor in ids && !All(q, ids) {
      forall id: Word16 | id != 0 && Place(q, id) < Place(q, Advance(cursor)) ensures id in ids {
        assert Place(q, id) < Place(q, cursor) || id == cursor;
      }
    }
  }

  lemma {:induction false} ScanSweeps(active: set<Word16>, q: Word16, cursor: Word16, n: nat, ids: set<Word16>)
    requires q != 0 && cursor != 0 && Swept(q, cursor, ids) && active <= ids + {q}
    ensures var (chosen, next) := Scan(active, cursor, n);
      && (chosen == Some(q) ==> All(q, ids))
      && Swept(q, next, if chosen.Some? then ids + {chosen.value} else ids)
    decreases n
  {
    if n > 0 {
      if cursor !in active {
        assert ids <= ids + {cursor};
        assert Swept(q, cursor, ids + {cursor});
        OneFurther(q, cursor, ids + {cursor});
        OneFurther(q, cursor, ids);
      } else {
        OneFurther(q, cursor, ids);
        ScanSweeps(active, q, Advance(cursor), n - 1, ids);
      }
    }
  }

  /** Event `k` opens an exchange that is given `q`. */
  ghost predicate Uses(trace: seq<Transport>, events: seq<Event>, k: nat, q: Word16) {
    && k < |events| && k < |trace| && events[k].OpenExchange? && !trace[k].stopped
    && Scan(trace[k].active, trace[k].cursor, IdCount()).0 == Some(q)
  }

  /** The number of exchanges opened by events `k` to `n`, the latter excluded. */
  function Openings(events: seq<Event>, k: nat, n: nat): nat
    requires k <= n <= |events|
    decreases n
  {
    if k == n then 0 else Openings(events, k, n - 1) + (if events[n - 1].OpenExchange? then 1 else 0)
  }

  lemma OtherStep(t: Transport, e: Event)
    requires Enabled(t, e) && !e.OpenExchange?
    ensures Step(t, e).active <= t.active && Step(t, e).cursor == t.cursor
  {
  }

  lemma OpenStep(t: Transport, query: seq<Question>, length: nat)
    ensures var u, (chosen, cursor) := Open(t, query, length), Scan(t.active, t.cursor, IdCount());
      if t.stopped then u.active == t.active && u.cursor == t.cursor
      else u.cursor == cursor && u.active <= t.active + (if chosen.Some? then {chosen.value} else {})
  {
  }

  /** What `ids` are to a state: whatever the cursor has come past, and whatever is in use but `q`. */
  ghost predicate Covers(t: Transport, q: Word16, ids: set<Word16>) {
    q != 0 && t.cursor != 0 && Swept(q, t.cursor, ids) && t.active <= ids + {q}
  }

  lemma FirstUse(t: Transport, query: seq<Question>, length: nat, q: Word16)
    requires !t.stopped && Scan(t.active, t.cursor, IdCount()).0 == Some(q)
    ensures Covers(Open(t, query, length), q, t.active)
  {
    OpenStep(t, query, length);
    ScanEnds(t.active, t.cursor, IdCount());
  }

  lemma NextOpening(t: Transport, query: seq<Question>, length: nat, q: Word16, ids: set<Word16>) returns (more: set<Word16>)
    requires Covers(t, q, ids)
    ensures Covers(Open(t, query, length), q, more) && |more| <= |ids| + 1
  {
    OpenStep(t, query, length);
    ScanSweeps(t.active, q, t.cursor, IdCount(), ids);
    var chosen := Scan(t.active, t.cursor, IdCount()).0;
    more := if !t.stopped && chosen.Some? then ids + {chosen.value} else ids;
  }

  /** All IDs that the cursor has come past were in use at the first use of `q`, or have been given out since. */
  lemma {:induction false} SweptSince(trace: seq<Transport>, events: seq<Event>, k: nat, n: nat, q: Word16) returns (ids: set<Word16>)
    requires IsRun(trace, events) && Uses(trace, events, k, q) && k < n < |trace|
    ensures Covers(trace[n], q, ids) && |ids| <= |trace[k].active| + Openings(events, k + 1, n)
    decreases n
  {
    var t, e := trace[n - 1], events[n - 1];
    assert Follows(trace, events, n);
    if n == k + 1 {
      ids := t.active;
      FirstUse(t, e.query, e.length, q);
    } else {
      ids := SweptSince(trace, events, k, n - 1, q);
      if e.OpenExchange? {
        ids := NextOpening(t, e.query, e.length, q, ids);
      } else {
        OtherStep(t, e);
      }
    }
  }

  /** The cursor stands behind the ID that was given out. */
  lemma {:induction false} ScanEnds(active: set<Word16>, cursor: Word16, n: nat)
    ensures Scan(active, cursor, n).0.Some? ==> Scan(active, cursor, n).1 == Advance(Scan(active, cursor, n).0.value)
    decreases n
  {
    if n > 0 && !(cursor != 0 && cursor !in active) {
      ScanEnds(active, Advance(cursor), n - 1);
    }
  }

  lemma AllAreMany(q: Word16, ids: set<Word16>)
    requires q != 0 && All(q, ids)
    ensures |ids| >= 0xfffe
  {
    var others := seq(0xfffe, i requires 0 <= i < 0xfffe => if q + i + 1 < 0x1_0000 then q + i + 1 else q + i + 1 - 0xffff);
    forall i | 0 <= i < 0xfffe ensures others[i] in ids {
      var id: Word16 := others[i];
      assert id != 0 && id != q;
    }
    DistinctWithin<int>(others, ids);
  }

  /**
   * In every run: between two uses of an ID, at least 65534 other exchanges are opened,
   * less those that were live at its first use.
   */
  lemma IdsComeBackLate(trace: seq<Transport>, events: seq<Event>, k: nat, n: nat, q: Word16)
    requires IsRun(trace, events) && Uses(trace, events, k, q) && Uses(trace, events, n, q) && k < n
    ensures Openings(events, k + 1, n) + |trace[k].active| >= 0xfffe
  {
    var ids := SweptSince(trace, events, k, n, q);
    ScanSweeps(trace[n].active, q, trace[n].cursor, IdCount(), ids);
    AllAreMany(q, ids);
  }
}
