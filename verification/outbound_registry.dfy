/**
 * The outbound registry (src/outbound/outbound_registry.cpp): concrete outbounds
 * and groups of named members. Validation, the capability report and the
 * round-robin selection all recurse over the group graph with a shared vector of
 * the groups being visited.
 */
module OutboundRegistry {
  import opened Arithmetic
  import opened Core
  import opened Graphs

  datatype Datagram = NoDatagram | FixedDestination | MultiDestination

  datatype Target = DomainOrIp | IpRequired

  datatype Capabilities = Capabilities(stream: bool, datagram: Datagram, streamTarget: Target, datagramTarget: Target)

  type Outbounds = map<string, Capabilities>

  type Groups = map<string, seq<string>>

  // ----- The group graph

  /** The outbounds that a selection of `id` can end at. */
  ghost predicate Offers(outs: Outbounds, groups: Groups, id: string, outbound: string) {
    outbound in outs && Reaches(groups, id, outbound)
  }

  ghost predicate Known(outs: Outbounds, groups: Groups) {
    forall a, b :: Step(groups, a, b) ==> b in outs || b in groups
  }

  /** No name is both an outbound and a group, and every group has members. */
  ghost predicate WellBuilt(outs: Outbounds, groups: Groups) {
    && outs.Keys !! groups.Keys
    && forall id :: id in groups ==> groups[id] != []
  }

  /** The recursion from `id` meets neither an unknown name nor a group of `visiting`. */
  predicate Expands(outs: Outbounds, groups: Groups, id: string, visiting: seq<string>)
    requires Elements(visiting) <= groups.Keys
    decreases groups.Keys - Elements(visiting)
  {
    id in outs ||
    (id in groups && id !in visiting &&
     (assert Elements(visiting + [id]) == Elements(visiting) + {id};
      forall m :: m in groups[id] ==> Expands(outs, groups, m, visiting + [id])))
  }

  /** The recursion from `id` meets an outbound without passing a group of `visiting`. */
  predicate Selectable(outs: Outbounds, groups: Groups, id: string, visiting: seq<string>)
    requires Elements(visiting) <= groups.Keys
    decreases groups.Keys - Elements(visiting)
  {
    id in outs ||
    (id in groups && id !in visiting &&
     (assert Elements(visiting + [id]) == Elements(visiting) + {id};
      exists m :: m in groups[id] && Selectable(outs, groups, m, visiting + [id])))
  }

  // ----- What validation decides

  /** Along any path that starts where the recursion expands, the recursion expands. */
  lemma {:induction false} ExpandsAlong(outs: Outbounds, groups: Groups, p: seq<string>, visiting: seq<string>)
    requires WellBuilt(outs, groups) && Elements(visiting) <= groups.Keys
    requires Path(groups, p) && Expands(outs, groups, p[0], visiting)
    ensures Elements(visiting + p[..|p| - 1]) <= groups.Keys
    ensures Expands(outs, groups, Last(p), visiting + p[..|p| - 1])
    decreases |p|
  {
    if |p| == 1 {
      assert visiting + p[..0] == visiting;
    } else {
      assert Step(groups, p[0], p[1]);
      assert Elements(visiting + [p[0]]) == Elements(visiting) + {p[0]};
      PathSuffix(groups, p, 1);
      ExpandsAlong(outs, groups, p[1..], visiting + [p[0]]);
      assert visiting + p[..|p| - 1] == visiting + [p[0]] + p[1..][..|p| - 2];
    }
  }

  lemma {:induction false} AcyclicExpands(outs: Outbounds, groups: Groups, id: string, visiting: seq<string>)
    requires Known(outs, groups) && !Cyclic(groups) && (id in outs || id in groups)
    requires Elements(visiting) <= groups.Keys && Path(groups, visiting + [id])
    ensures Expands(outs, groups, id, visiting)
    decreases groups.Keys - Elements(visiting)
  {
    if id !in outs {
      if id in visiting {
        BackStepIsLoop(groups, visiting, id);
      }
      assert Elements(visiting + [id]) == Elements(visiting) + {id};
      forall m | m in groups[id] ensures Expands(outs, groups, m, visiting + [id]) {
        assert Step(groups, id, m);
        PathExtends(groups, visiting + [id], m);
        AcyclicExpands(outs, groups, m, visiting + [id]);
      }
    }
  }

  /** Every group expands exactly when all members are known and the group graph has no cycle. */
  lemma ExpandsIffAcyclic(outs: Outbounds, groups: Groups)
    requires WellBuilt(outs, groups)
    ensures (forall id :: id in groups ==> Expands(outs, groups, id, [])) <==> Known(outs, groups) && !Cyclic(groups)
  {
    if forall id :: id in groups ==> Expands(outs, groups, id, []) {
      forall a, b | Step(groups, a, b) ensures b in outs || b in groups {
        assert Expands(outs, groups, a, []);
      }
      forall p | Loop(groups, p) ensures false {
        assert Step(groups, p[0], p[1]);
        ExpandsAlong(outs, groups, p, []);
      }
    }
    if Known(outs, groups) && !Cyclic(groups) {
      forall id | id in groups ensures Expands(outs, groups, id, []) {
        AcyclicExpands(outs, groups, id, []);
      }
    }
  }

  /** After a successful validation, capabilities and selection succeed for every registered name. */
  lemma ValidatedNamesWork(outs: Outbounds, groups: Groups, id: string)
    requires WellBuilt(outs, groups) && Known(outs, groups) && !Cyclic(groups)
    requires id in outs || id in groups
    ensures Expands(outs, groups, id, []) && Selectable(outs, groups, id, [])
  {
    ExpandsIffAcyclic(outs, groups);
    ExpandsSelectable(outs, groups, id, []);
  }

  // ----- What selection decides

  lemma {:induction false} SelectableOffers(outs: Outbounds, groups: Groups, id: string, visiting: seq<string>)
    requires Elements(visiting) <= groups.Keys && Selectable(outs, groups, id, visiting)
    ensures exists o :: Offers(outs, groups, id, o)
    decreases groups.Keys - Elements(visiting)
  {
    if id in outs {
      ReachesSelf(groups, id);
      assert Offers(outs, groups, id, id);
    } else {
      assert Elements(visiting + [id]) == Elements(visiting) + {id};
      var m :| m in groups[id] && Selectable(outs, groups, m, visiting + [id]);
      SelectableOffers(outs, groups, m, visiting + [id]);
      var o :| Offers(outs, groups, m, o);
      StepReaches(groups, id, m, o);
      assert Offers(outs, groups, id, o);
    }
  }

  /** A path to an outbound that avoids the groups being visited can be shortened until the recursion follows it. */
  lemma {:induction false} PathSelects(outs: Outbounds, groups: Groups, p: seq<string>, visiting: seq<string>)
    requires WellBuilt(outs, groups) && Elements(visiting) <= groups.Keys
    requires Path(groups, p) && Last(p) in outs
    requires forall x :: x in p ==> x !in visiting
    ensures Selectable(outs, groups, p[0], visiting)
    decreases |p|
  {
    if |p| >= 2 {
      assert Step(groups, p[0], p[1]);
      if p[0] in p[1..] {
        var i :| 1 <= i < |p| && p[i] == p[0];
        PathSuffix(groups, p, i);
        PathSelects(outs, groups, p[i..], visiting);
      } else {
        assert Elements(visiting + [p[0]]) == Elements(visiting) + {p[0]};
        PathSuffix(groups, p, 1);
        PathSelects(outs, groups, p[1..], visiting + [p[0]]);
      }
    }
  }

  /** A selection can succeed exactly when some outbound is reachable. */
  lemma SelectableIffOffers(outs: Outbounds, groups: Groups, id: string)
    requires WellBuilt(outs, groups)
    ensures Selectable(outs, groups, id, []) <==> exists o :: Offers(outs, groups, id, o)
  {
    if Selectable(outs, groups, id, []) {
      SelectableOffers(outs, groups, id, []);
    }
    if o :| Offers(outs, groups, id, o) {
      var p :| Connects(groups, p, id, o);
      PathSelects(outs, groups, p, []);
    }
  }

  lemma {:induction false} ExpandsSelectable(outs: Outbounds, groups: Groups, id: string, visiting: seq<string>)
    requires WellBuilt(outs, groups) && Elements(visiting) <= groups.Keys
    requires Expands(outs, groups, id, visiting)
    ensures Selectable(outs, groups, id, visiting)
    decreases groups.Keys - Elements(visiting)
  {
    if id !in outs {
      assert Elements(visiting + [id]) == Elements(visiting) + {id};
      var m := groups[id][0];
      ExpandsSelectable(outs, groups, m, visiting + [id]);
    }
  }

  /** The member that the `j`-th attempt of a group with this counter tries. */
  function Turn(members: seq<string>, counter: nat, j: nat): (m: string)
    requires members != []
    ensures m in members
  {
    members[(counter + j) % |members|]
  }

  /** No selection can succeed from the first `k` members in cyclic order from the counter. */
  ghost predicate Refused(outs: Outbounds, groups: Groups, members: seq<string>, path: seq<string>, counter: nat, k: nat)
    requires members != [] && Elements(path) <= groups.Keys
  {
    forall j: nat :: j < k ==> !Selectable(outs, groups, Turn(members, counter, j), path)
  }

  /**
   * `outbound` is offered by the first member, in cyclic order from the member that
   * the counter names, from which a selection can succeed.
   */
  ghost predicate Picked(outs: Outbounds, groups: Groups, members: seq<string>, path: seq<string>, counter: nat, outbound: string)
    requires members != [] && Elements(path) <= groups.Keys
  {
    exists k: nat :: k < |members|
      && Refused(outs, groups, members, path, counter, k)
      && Selectable(outs, groups, Turn(members, counter, k), path)
      && Offers(outs, groups, Turn(members, counter, k), outbound)
  }

  lemma AllRefused(outs: Outbounds, groups: Groups, members: seq<string>, path: seq<string>, counter: nat)
    requires members != [] && Elements(path) <= groups.Keys
    requires Refused(outs, groups, members, path, counter, |members|)
    ensures forall m :: m in members ==> !Selectable(outs, groups, m, path)
  {
    forall m | m in members ensures !Selectable(outs, groups, m, path) {
      var i :| 0 <= i < |members| && members[i] == m;
      var j := CyclicIndex(counter, |members|, i);
      assert Turn(members, counter, j) == m;
    }
  }

  /** Every index is met by a cyclic scan of full length. */
  lemma CyclicIndex(counter: nat, n: nat, i: nat) returns (j: nat)
    requires i < n
    ensures j < n && (counter + j) % n == i
  {
    var b := counter % n;
    j := if i >= b then i - b else i - b + n;
    CyclicSum(counter, n, j);
    ModIsWrap(b + j, n);
  }

  lemma CyclicSum(counter: nat, n: nat, j: nat)
    requires n > 0
    ensures (counter + j) % n == (counter % n + j) % n
  {
    var q, b := counter / n, counter % n;
    var p := (b + j) / n;
    assert b + j == p * n + (b + j) % n;
    assert counter + j == (q + p) * n + (b + j) % n by {
      assert (q + p) * n == q * n + p * n;
    }
    DivModUnique(counter + j, n, q + p, (b + j) % n);
  }

  // ----- Which outbound is selected, and what the counters remember of it

  type Counters = map<string, nat>

  /** A selection of `id`: its outbound, if any, and the counters behind it. Every group that is entered counts, whether it yields an outbound or not. */
  function Choose(outs: Outbounds, groups: Groups, counters: Counters, id: string, visiting: seq<string>): (r: (Option<string>, Counters))
    requires Elements(visiting) <= groups.Keys && counters.Keys == groups.Keys
    ensures r.1.Keys == groups.Keys
    decreases groups.Keys - Elements(visiting), 1, 0
  {
    if id in outs then (Some(id), counters)
    else if id !in groups || id in visiting || groups[id] == [] then (None, counters)
    else
      assert Elements(visiting + [id]) == Elements(visiting) + {id};
      Attempt(outs, groups, counters[id := (counters[id] + 1) % WORD64], groups[id], counters[id], 0, visiting + [id])
  }

  /** The members in cyclic order, from the `j`-th attempt on. */
  function Attempt(outs: Outbounds, groups: Groups, counters: Counters, members: seq<string>, counter: nat, j: nat, path: seq<string>): (r: (Option<string>, Counters))
    requires Elements(path) <= groups.Keys && counters.Keys == groups.Keys && j <= |members|
    ensures r.1.Keys == groups.Keys
    decreases groups.Keys - Elements(path), 2, |members| - j
  {
    if j == |members| then (None, counters)
    else
      var (outbound, after) := Choose(outs, groups, counters, Turn(members, counter, j), path);
      if outbound.Some? then (outbound, after) else Attempt(outs, groups, after, members, counter, j + 1, path)
  }

  /** Only the groups that can be reached are counted, and never one that is being visited. */
  ghost predicate CountsReached(groups: Groups, from: string, path: seq<string>, counters: Counters, after: Counters) {
    && after.Keys == counters.Keys
    && forall g :: g in counters && after[g] != counters[g] ==> Reaches(groups, from, g) && g !in path
  }

  lemma {:induction false} ChooseCounts(outs: Outbounds, groups: Groups, counters: Counters, id: string, visiting: seq<string>)
    requires Elements(visiting) <= groups.Keys && counters.Keys == groups.Keys
    ensures CountsReached(groups, id, visiting, counters, Choose(outs, groups, counters, id, visiting).1)
    ensures Choose(outs, groups, counters, id, visiting).0.Some? <==> Selectable(outs, groups, id, visiting)
    ensures Choose(outs, groups, counters, id, visiting).0.Some? ==> Offers(outs, groups, id, Choose(outs, groups, counters, id, visiting).0.value)
    decreases groups.Keys - Elements(visiting), 1, 0
  {
    ReachesSelf(groups, id);
    if id !in outs && id in groups && id !in visiting && groups[id] != [] {
      assert Elements(visiting + [id]) == Elements(visiting) + {id};
      var entered := counters[id := (counters[id] + 1) % WORD64];
      AttemptCounts(outs, groups, entered, id, counters[id], 0, visiting + [id]);
    }
  }

  lemma {:induction false} AttemptCounts(outs: Outbounds, groups: Groups, counters: Counters, id: string, counter: nat, j: nat, path: seq<string>)
    requires Elements(path) <= groups.Keys && counters.Keys == groups.Keys && id in groups && groups[id] != [] && j <= |groups[id]|
    requires Refused(outs, groups, groups[id], path, counter, j)
    ensures var (outbound, after) := Attempt(outs, groups, counters, groups[id], counter, j, path);
      && CountsReached(groups, id, path, counters, after)
      && (outbound.Some? <==> exists m :: m in groups[id] && Selectable(outs, groups, m, path))
      && (outbound.Some? ==> Offers(outs, groups, id, outbound.value))
      && (outbound.Some? ==> Picked(outs, groups, groups[id], path, counter, outbound.value))
    decreases groups.Keys - Elements(path), 2, |groups[id]| - j
  {
    if j == |groups[id]| {
      AllRefused(outs, groups, groups[id], path, counter);
    } else {
      var m := Turn(groups[id], counter, j);
      var (outbound, after) := Choose(outs, groups, counters, m, path);
      assert Step(groups, id, m);
      ChooseCounts(outs, groups, counters, m, path);
      MemberCounts(groups, id, m, path, counters, after);
      if outbound.Some? {
        StepReaches(groups, id, m, outbound.value);
      } else {
        AttemptCounts(outs, groups, after, id, counter, j + 1, path);
      }
    }
  }

  lemma MemberCounts(groups: Groups, id: string, m: string, path: seq<string>, counters: Counters, after: Counters)
    requires Step(groups, id, m) && CountsReached(groups, m, path, counters, after)
    ensures CountsReached(groups, id, path, counters, after)
  {
    forall g | g in counters && after[g] != counters[g] ensures Reaches(groups, id, g) {
      StepReaches(groups, id, m, g);
    }
  }

  /** The counters after `k` selections of a name. */
  function CountersAfter(outs: Outbounds, groups: Groups, counters: Counters, id: string, k: nat): (r: Counters)
    requires counters.Keys == groups.Keys
    ensures r.Keys == groups.Keys
  {
    if k == 0 then counters else Choose(outs, groups, CountersAfter(outs, groups, counters, id, k - 1), id, []).1
  }

  /** One selection of a group. */
  lemma GroupCounts(outs: Outbounds, groups: Groups, counters: Counters, id: string)
    requires WellBuilt(outs, groups) && counters.Keys == groups.Keys && id in groups
    ensures Elements([id]) <= groups.Keys && groups[id] != []
    ensures var (outbound, after) := Choose(outs, groups, counters, id, []);
      && after[id] == (counters[id] + 1) % WORD64
      && (outbound.Some? <==> exists m :: m in groups[id] && Selectable(outs, groups, m, [id]))
      && (outbound.Some? ==> Picked(outs, groups, groups[id], [id], counters[id], outbound.value))
  {
    var entered := counters[id := (counters[id] + 1) % WORD64];
    assert [] + [id] == [id] && id in [id];
    AttemptCounts(outs, groups, entered, id, counters[id], 0, [id]);
    assert Choose(outs, groups, counters, id, []) == Attempt(outs, groups, entered, groups[id], counters[id], 0, [id]);
  }

  lemma {:induction false} CountsSelections(outs: Outbounds, groups: Groups, counters: Counters, id: string, k: nat)
    requires WellBuilt(outs, groups) && counters.Keys == groups.Keys && id in groups && counters[id] < WORD64
    ensures CountersAfter(outs, groups, counters, id, k)[id] == (counters[id] + k) % WORD64
  {
    if k > 0 {
      CountsSelections(outs, groups, counters, id, k - 1);
      GroupCounts(outs, groups, CountersAfter(outs, groups, counters, id, k - 1), id);
      CountOnce(counters[id], k);
    }
  }

  lemma CountOnce(counter: nat, k: nat)
    requires k > 0
    ensures ((counter + (k - 1)) % WORD64 + 1) % WORD64 == (counter + k) % WORD64
  {
  }

  lemma FirstIsPicked(outs: Outbounds, groups: Groups, members: seq<string>, path: seq<string>, counter: nat, outbound: string)
    requires members != [] && Elements(path) <= groups.Keys && Picked(outs, groups, members, path, counter, outbound)
    requires forall m :: m in members ==> Selectable(outs, groups, m, path)
    ensures Offers(outs, groups, members[counter % |members|], outbound)
  {
    var k: nat :| k < |members| && Refused(outs, groups, members, path, counter, k) && Offers(outs, groups, Turn(members, counter, k), outbound);
    assert Turn(members, counter, 0) == members[counter % |members|];
    assert k == 0;
  }

  lemma SmallCounter(counter: nat, k: nat)
    requires counter + k < WORD64
    ensures (counter + k) % WORD64 == counter + k
  {
  }

  /** Round robin: while every member has something to offer and the counter does not come round, selections take the members in turn. */
  lemma MembersTakeTurns(outs: Outbounds, groups: Groups, counters: Counters, id: string, k: nat)
    requires WellBuilt(outs, groups) && counters.Keys == groups.Keys && id in groups && counters[id] + k < WORD64
    requires Elements([id]) <= groups.Keys && forall m :: m in groups[id] ==> Selectable(outs, groups, m, [id])
    ensures var members, outbound := groups[id], Choose(outs, groups, CountersAfter(outs, groups, counters, id, k), id, []).0;
      && members != [] && outbound.Some? && Offers(outs, groups, members[(counters[id] + k) % |members|], outbound.value)
  {
    var members, now := groups[id], CountersAfter(outs, groups, counters, id, k);
    CountsSelections(outs, groups, counters, id, k);
    SmallCounter(counters[id], k);
    GroupCounts(outs, groups, now, id);
    assert members[0] in members;
    FirstIsPicked(outs, groups, members, [id], now[id], Choose(outs, groups, now, id, []).0.value);
  }

  // ----- The capability meet

  function Rank(d: Datagram): nat {
    match d
    case NoDatagram => 0
    case FixedDestination => 1
    case MultiDestination => 2
  }

  predicate WeakerDatagram(a: Datagram, b: Datagram) {
    Rank(a) <= Rank(b)
  }

  /** `a` promises no more than `b` in any component. */
  predicate Below(a: Capabilities, b: Capabilities) {
    && (a.stream ==> b.stream)
    && WeakerDatagram(a.datagram, b.datagram)
    && (b.streamTarget == IpRequired ==> a.streamTarget == IpRequired)
    && (b.datagramTarget == IpRequired ==> a.datagramTarget == IpRequired)
  }

  /** `c` is the greatest promise that every outbound offered by `id` keeps. */
  ghost predicate Greatest(outs: Outbounds, groups: Groups, id: string, c: Capabilities) {
    && (forall o :: Offers(outs, groups, id, o) ==> Below(c, outs[o]))
    && (forall d :: (forall o :: Offers(outs, groups, id, o) ==> Below(d, outs[o])) ==> Below(d, c))
  }

  function Top(): Capabilities {
    Capabilities(true, MultiDestination, DomainOrIp, DomainOrIp)
  }

  /** One step of the loop over the members. */
  function Combine(combined: Capabilities, member: Capabilities): (r: Capabilities)
    ensures Below(r, combined) && Below(r, member)
    ensures forall d :: Below(d, combined) && Below(d, member) ==> Below(d, r)
  {
    Capabilities(
      combined.stream && member.stream,
      if member.datagram == NoDatagram then NoDatagram
      else if member.datagram == FixedDestination && combined.datagram != NoDatagram then FixedDestination
      else combined.datagram,
      if member.streamTarget == IpRequired then IpRequired else combined.streamTarget,
      if member.datagramTarget == IpRequired then IpRequired else combined.datagramTarget)
  }

  /** `c` is the greatest promise kept by all that the first `n` members offer. */
  ghost predicate GreatestOf(outs: Outbounds, groups: Groups, members: seq<string>, n: nat, c: Capabilities)
    requires n <= |members|
  {
    && (forall i, o :: 0 <= i < n && Offers(outs, groups, members[i], o) ==> Below(c, outs[o]))
    && (forall d :: (forall i, o :: 0 <= i < n && Offers(outs, groups, members[i], o) ==> Below(d, outs[o])) ==> Below(d, c))
  }

  lemma GreatestOfNone(outs: Outbounds, groups: Groups, members: seq<string>)
    ensures GreatestOf(outs, groups, members, 0, Top())
  {
  }

  lemma BelowTransitive(a: Capabilities, b: Capabilities, c: Capabilities)
    requires Below(a, b) && Below(b, c)
    ensures Below(a, c)
  {
  }

  lemma GreatestOfNext(outs: Outbounds, groups: Groups, members: seq<string>, n: nat, c: Capabilities, m: Capabilities)
    requires n < |members| && GreatestOf(outs, groups, members, n, c) && Greatest(outs, groups, members[n], m)
    ensures GreatestOf(outs, groups, members, n + 1, Combine(c, m))
  {
    var r := Combine(c, m);
    forall i, o | 0 <= i < n + 1 && Offers(outs, groups, members[i], o) ensures Below(r, outs[o]) {
      BelowTransitive(r, if i < n then c else m, outs[o]);
    }
    forall d | forall i, o :: 0 <= i < n + 1 && Offers(outs, groups, members[i], o) ==> Below(d, outs[o]) ensures Below(d, r) {
      assert Below(d, c);
      assert forall o :: Offers(outs, groups, members[n], o) ==> Below(d, outs[o]);
    }
  }

  /** A group offers exactly what its members offer. */
  lemma GroupOffers(outs: Outbounds, groups: Groups, id: string, o: string)
    requires WellBuilt(outs, groups) && id in groups
    ensures Offers(outs, groups, id, o) <==> exists i :: 0 <= i < |groups[id]| && Offers(outs, groups, groups[id][i], o)
  {
    if Offers(outs, groups, id, o) {
      FirstStep(groups, id, o);
      var m :| Step(groups, id, m) && Reaches(groups, m, o);
      var i :| 0 <= i < |groups[id]| && groups[id][i] == m;
      assert Offers(outs, groups, groups[id][i], o);
    }
    if i :| 0 <= i < |groups[id]| && Offers(outs, groups, groups[id][i], o) {
      StepReaches(groups, id, groups[id][i], o);
    }
  }

  lemma GreatestOfGroup(outs: Outbounds, groups: Groups, id: string, c: Capabilities)
    requires WellBuilt(outs, groups) && id in groups && GreatestOf(outs, groups, groups[id], |groups[id]|, c)
    ensures Greatest(outs, groups, id, c)
  {
    forall o ensures Offers(outs, groups, id, o) <==> exists i :: 0 <= i < |groups[id]| && Offers(outs, groups, groups[id][i], o) {
      GroupOffers(outs, groups, id, o);
    }
    forall d | forall o :: Offers(outs, groups, id, o) ==> Below(d, outs[o]) ensures Below(d, c) {
      assert forall i, o :: 0 <= i < |groups[id]| && Offers(outs, groups, groups[id][i], o) ==> Offers(outs, groups, id, o);
    }
  }

  lemma OutboundOffersItself(outs: Outbounds, groups: Groups, id: string)
    requires WellBuilt(outs, groups) && id in outs
    ensures forall o :: Offers(outs, groups, id, o) <==> o == id
    ensures Greatest(outs, groups, id, outs[id])
  {
    ReachesSelf(groups, id);
    forall o | Offers(outs, groups, id, o) ensures o == id {
      FirstStep(groups, id, o);
    }
    assert Offers(outs, groups, id, id);
  }

  // ----- The registry

  class NameStack {
    var items: seq<string>

    constructor ()
      ensures items == []
    {
      items := [];
    }
  }

  class Registry {
    var outbounds: Outbounds
    var groups: Groups
    /** The 64-bit `next_member` counter of each group. */
    var nextMember: map<string, nat>

    ghost predicate Valid()
      reads this
    {
      && WellBuilt(outbounds, groups) && nextMember.Keys == groups.Keys
      && forall id :: id in nextMember ==> nextMember[id] < WORD64
    }

    constructor ()
      ensures Valid() && outbounds == map[] && groups == map[]
    {
      outbounds, groups, nextMember := map[], map[], map[];
    }

    /** `instance` is absent when the caller passes no outbound. */
    method AddOutbound(id: string, instance: Option<Capabilities>) returns (status: Status)
      requires Valid()
      modifies this
      ensures Valid() && groups == old(groups) && nextMember == old(nextMember)
      ensures if id == "" || instance.None? || id in old(outbounds) || id in groups
              then status == Failed(Configuration) && outbounds == old(outbounds)
              else status == Success && outbounds == old(outbounds)[id := instance.value]
    {
      if id == "" || instance.None? {
        return Failed(Configuration);
      }
      if id in outbounds || id in groups {
        return Failed(Configuration);
      }
      outbounds := outbounds[id := instance.value];
      return Success;
    }

    method AddGroup(id: string, members: seq<string>) returns (status: Status)
      requires Valid()
      modifies this
      ensures Valid() && outbounds == old(outbounds)
      ensures if id == "" || members == [] || id in outbounds || id in old(groups) || "" in members
              then status == Failed(Configuration) && groups == old(groups) && nextMember == old(nextMember)
              else status == Success && groups == old(groups)[id := members] && nextMember == old(nextMember)[id := 0]
    {
      if id == "" || members == [] {
        return Failed(Configuration);
      }
      if id in outbounds || id in groups {
        return Failed(Configuration);
      }
      if "" in members {
        return Failed(Configuration);
      }
      groups := groups[id := members];
      nextMember := nextMember[id := 0];
      return Success;
    }

    method ValidateGroup(id: string, visiting: NameStack) returns (status: Status)
      requires Valid() && Elements(visiting.items) <= groups.Keys
      modifies visiting
      ensures visiting.items == old(visiting.items)
      ensures status == (if Expands(outbounds, groups, id, visiting.items) then Success else Failed(Configuration))
      decreases groups.Keys - Elements(visiting.items)
    {
      if id in outbounds {
        return Success;
      }
      if id !in groups {
        return Failed(Configuration);
      }
      if id in visiting.items {
        return Failed(Configuration);
      }
      ghost var path := visiting.items;
      visiting.items := visiting.items + [id];
      assert Elements(path + [id]) == Elements(path) + {id};
      var members := groups[id];
      var i := 0;
      while i < |members|
        invariant 0 <= i <= |members| && visiting.items == path + [id]
        invariant forall k :: 0 <= k < i ==> Expands(outbounds, groups, members[k], path + [id])
      {
        var result := ValidateGroup(members[i], visiting);
        if result != Success {
          assert members[i] in groups[id];
          visiting.items := visiting.items[..|visiting.items| - 1];
          assert visiting.items == path;
          return result;
        }
        i := i + 1;
      }
      visiting.items := visiting.items[..|visiting.items| - 1];
      assert visiting.items == path;
      return Success;
    }

    method Validate() returns (status: Status)
      requires Valid()
      ensures status == (if Known(outbounds, groups) && !Cyclic(groups) then Success else Failed(Configuration))
    {
      ExpandsIffAcyclic(outbounds, groups);
      var visiting := new NameStack();
      var rest := groups.Keys;
      while rest != {}
        invariant rest <= groups.Keys && visiting.items == []
        invariant forall id :: id in groups && id !in rest ==> Expands(outbounds, groups, id, [])
      {
        var id :| id in rest;
        var result := ValidateGroup(id, visiting);
        if result != Success {
          return result;
        }
        rest := rest - {id};
      }
      return Success;
    }

    method CapabilitiesEntry(id: string, visiting: NameStack) returns (r: Result<Capabilities>)
      requires Valid() && Elements(visiting.items) <= groups.Keys
      modifies visiting
      ensures visiting.items == old(visiting.items)
      ensures r.Ok? <==> Expands(outbounds, groups, id, visiting.items)
      ensures r.Ok? ==> Greatest(outbounds, groups, id, r.value)
      ensures r.Err? ==> r.error == Configuration
      decreases groups.Keys - Elements(visiting.items)
    {
      if id in outbounds {
        OutboundOffersItself(outbounds, groups, id);
        return Ok(outbounds[id]);
      }
      if id !in groups {
        return Err(Configuration);
      }
      if id in visiting.items {
        return Err(Configuration);
      }
      ghost var path := visiting.items;
      visiting.items := visiting.items + [id];
      assert Elements(path + [id]) == Elements(path) + {id};
      var members := groups[id];
      var combined := Top();
      GreatestOfNone(outbounds, groups, members);
      var i := 0;
      while i < |members|
        invariant 0 <= i <= |members| && visiting.items == path + [id]
        invariant forall k :: 0 <= k < i ==> Expands(outbounds, groups, members[k], path + [id])
        invariant GreatestOf(outbounds, groups, members, i, combined)
      {
        var member := CapabilitiesEntry(members[i], visiting);
        if member.Err? {
          assert members[i] in groups[id];
          visiting.items := visiting.items[..|visiting.items| - 1];
          assert visiting.items == path;
          return Err(member.error);
        }
        GreatestOfNext(outbounds, groups, members, i, combined, member.value);
        combined := Combine(combined, member.value);
        i := i + 1;
      }
      visiting.items := visiting.items[..|visiting.items| - 1];
      assert visiting.items == path;
      GreatestOfGroup(outbounds, groups, id, combined);
      return Ok(combined);
    }

    method GetCapabilities(id: string) returns (r: Result<Capabilities>)
      requires Valid()
      ensures r.Ok? <==> Expands(outbounds, groups, id, [])
      ensures r.Ok? ==> Greatest(outbounds, groups, id, r.value)
      ensures r.Err? ==> r.error == Configuration
    {
      var visiting := new NameStack();
      r := CapabilitiesEntry(id, visiting);
    }

    method SelectEntry(id: string, visiting: NameStack) returns (r: Result<string>)
      requires Valid() && Elements(visiting.items) <= groups.Keys
      modifies visiting, `nextMember
      ensures Valid() && visiting.items == old(visiting.items)
      ensures r.Ok? <==> Selectable(outbounds, groups, id, visiting.items)
      ensures r.Ok? ==> Offers(outbounds, groups, id, r.value)
      ensures r.Err? ==> r.error == Configuration
      ensures forall v :: v in visiting.items && v in groups ==> nextMember[v] == old(nextMember)[v]
      ensures id in groups && id !in visiting.items ==>
        && Elements(visiting.items + [id]) <= groups.Keys
        && nextMember[id] == (old(nextMember)[id] + 1) % WORD64
        && (r.Ok? ==> Picked(outbounds, groups, groups[id], visiting.items + [id], old(nextMember)[id], r.value))
      ensures (if r.Ok? then Some(r.value) else None, nextMember) == Choose(outbounds, groups, old(nextMember), id, visiting.items)
      decreases groups.Keys - Elements(visiting.items), 1
    {
      if id in outbounds {
        OutboundOffersItself(outbounds, groups, id);
        return Ok(id);
      }
      if id !in groups {
        return Err(Configuration);
      }
      if id in visiting.items {
        return Err(Configuration);
      }
      ghost var path := visiting.items;
      assert Elements(path + [id]) == Elements(path) + {id};
      visiting.items := visiting.items + [id];
      var counter := nextMember[id];
      nextMember := nextMember[id := (nextMember[id] + 1) % WORD64];
      r := TryMembers(id, groups[id], counter, visiting);
      assert id in path + [id] && nextMember[id] == (counter + 1) % WORD64;
      visiting.items := visiting.items[..|visiting.items| - 1];
      assert visiting.items == path;
    }

    /** The loop of a selection over the members of the group that is last on `visiting`. */
    method TryMembers(ghost id: string, members: seq<string>, counter: nat, visiting: NameStack) returns (r: Result<string>)
      requires Valid() && Elements(visiting.items) <= groups.Keys
      requires id in groups && members == groups[id]
      modifies visiting, `nextMember
      ensures Valid() && visiting.items == old(visiting.items)
      ensures forall v :: v in visiting.items && v in groups ==> nextMember[v] == old(nextMember)[v]
      ensures r.Ok? ==> Offers(outbounds, groups, id, r.value)
      ensures r.Ok? ==> Picked(outbounds, groups, members, visiting.items, counter, r.value)
      ensures r.Err? ==> r.error == Configuration
      ensures r.Err? ==> forall m :: m in members ==> !Selectable(outbounds, groups, m, visiting.items)
      ensures (if r.Ok? then Some(r.value) else None, nextMember) ==
        Attempt(outbounds, groups, old(nextMember), members, counter, 0, visiting.items)
      decreases groups.Keys - Elements(visiting.items), 2
    {
      ghost var path := visiting.items;
      var begin := counter % |members|;
      r := Err(Configuration);
      var offset := 0;
      while offset < |members|
        invariant 0 <= offset <= |members| && visiting.items == path && Valid()
        invariant r == Err(Configuration)
        invariant Refused(outbounds, groups, members, path, counter, offset)
        invariant forall v :: v in path && v in groups ==> nextMember[v] == old(nextMember)[v]
        invariant Attempt(outbounds, groups, old(nextMember), members, counter, 0, path) ==
          Attempt(outbounds, groups, nextMember, members, counter, offset, path)
      {
        CyclicSum(counter, |members|, offset);
        var member := members[(begin + offset) % |members|];
        assert member == Turn(members, counter, offset);
        r := SelectEntry(member, visiting);
        if r.Ok? {
          StepReaches(groups, id, member, r.value);
          return;
        }
        offset := offset + 1;
      }
      AllRefused(outbounds, groups, members, path, counter);
    }

    /** A selection keeps whatever the capability report promises for the same name. */
    method Select(id: string) returns (r: Result<string>)
      requires Valid()
      modifies `nextMember
      ensures Valid()
      ensures r.Ok? <==> exists o :: Offers(outbounds, groups, id, o)
      ensures r.Ok? ==> Offers(outbounds, groups, id, r.value)
      ensures Expands(outbounds, groups, id, []) ==> r.Ok?
      ensures r.Ok? ==> forall c :: Greatest(outbounds, groups, id, c) ==> Below(c, outbounds[r.value])
      ensures id in groups ==> nextMember[id] == (old(nextMember)[id] + 1) % WORD64
      ensures id in groups && r.Ok? ==> Picked(outbounds, groups, groups[id], [id], old(nextMember)[id], r.value)
      ensures (if r.Ok? then Some(r.value) else None, nextMember) == Choose(outbounds, groups, old(nextMember), id, [])
    {
      var visiting := new NameStack();
      r := SelectEntry(id, visiting);
      assert [] + [id] == [id];
      SelectableIffOffers(outbounds, groups, id);
      if Expands(outbounds, groups, id, []) {
        ExpandsSelectable(outbounds, groups, id, []);
      }
    }
  }
}
