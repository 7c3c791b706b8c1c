/** Paths, cycles and topological orders in a graph given by successor lists. */
module Graphs {
  import opened Core

  type Edges = map<string, seq<string>>

  predicate Step(g: Edges, a: string, b: string) {
    a in g && b in g[a]
  }

  ghost predicate Path(g: Edges, p: seq<string>) {
    |p| > 0 && forall i :: 0 <= i < |p| - 1 ==> Step(g, p[i], p[i + 1])
  }

  function Last(p: seq<string>): string
    requires p != []
  {
    p[|p| - 1]
  }

  ghost predicate Connects(g: Edges, p: seq<string>, a: string, b: string) {
    Path(g, p) && p[0] == a && Last(p) == b
  }

  ghost predicate Reaches(g: Edges, a: string, b: string) {
    exists p :: Connects(g, p, a, b)
  }

  ghost predicate Loop(g: Edges, p: seq<string>) {
    Path(g, p) && |p| >= 2 && p[0] == Last(p)
  }

  ghost predicate Cyclic(g: Edges) {
    exists p :: Loop(g, p)
  }

  /** No successor is missing from the graph. */
  ghost predicate Closed(g: Edges) {
    forall a, b :: Step(g, a, b) ==> b in g
  }

  /** Every node comes after all of its successors, and only once. */
  ghost predicate Topological(g: Edges, order: seq<string>) {
    && Distinct(order)
    && forall i, b :: 0 <= i < |order| && Step(g, order[i], b) ==> b in order[..i]
  }

  lemma PathSuffix(g: Edges, p: seq<string>, i: nat)
    requires Path(g, p) && i < |p|
    ensures Path(g, p[i..])
  {
  }

  /** Once in a topological order, a path only moves towards its front. */
  lemma {:induction false} PathDescends(g: Edges, order: seq<string>, p: seq<string>, i: nat)
    requires Topological(g, order) && Path(g, p) && i < |order| && p[0] == order[i]
    ensures Last(p) in order[..i + 1]
    ensures |p| >= 2 ==> Last(p) in order[..i]
    decreases |p|
  {
    if |p| >= 2 {
      assert Step(g, p[0], p[1]);
      var j :| 0 <= j < i && order[j] == p[1];
      PathSuffix(g, p, 1);
      PathDescends(g, order, p[1..], j);
      assert order[..j + 1] <= order[..i];
    }
  }

  lemma TopologicalIsAcyclic(g: Edges, order: seq<string>)
    requires Topological(g, order) && forall a :: a in g ==> a in order
    ensures !Cyclic(g)
  {
    forall p | Loop(g, p) ensures false {
      assert Step(g, p[0], p[1]);
      var i :| 0 <= i < |order| && order[i] == p[0];
      PathDescends(g, order, p, i);
    }
  }

  /** A step from the end of a path back onto the path closes a cycle. */
  lemma BackStepIsLoop(g: Edges, p: seq<string>, a: string)
    requires Path(g, p + [a]) && a in p
    ensures Cyclic(g)
  {
    var q := p + [a];
    var i :| 0 <= i < |p| && p[i] == a;
    PathSuffix(g, q, i);
    assert Loop(g, q[i..]);
  }

  lemma PathExtends(g: Edges, p: seq<string>, b: string)
    requires Path(g, p) && Step(g, Last(p), b)
    ensures Path(g, p + [b])
  {
  }

  lemma ReachesStep(g: Edges, a: string, b: string, c: string)
    requires Reaches(g, a, b) && Step(g, b, c)
    ensures Reaches(g, a, c)
  {
    var p :| Connects(g, p, a, b);
    PathExtends(g, p, c);
    assert Connects(g, p + [c], a, c);
  }

  lemma StepReaches(g: Edges, a: string, b: string, c: string)
    requires Step(g, a, b) && Reaches(g, b, c)
    ensures Reaches(g, a, c)
  {
    var p :| Connects(g, p, b, c);
    assert Connects(g, [a] + p, a, c);
  }

  lemma ReachesSelf(g: Edges, a: string)
    ensures Reaches(g, a, a)
  {
    assert Connects(g, [a], a, a);
  }

  /** Reaching another node takes a first step. */
  lemma FirstStep(g: Edges, a: string, c: string)
    requires Reaches(g, a, c)
    ensures a == c || exists b :: Step(g, a, b) && Reaches(g, b, c)
  {
    var p :| Connects(g, p, a, c);
    if |p| >= 2 {
      PathSuffix(g, p, 1);
      assert Step(g, a, p[1]) && Connects(g, p[1..], p[1], c);
    }
  }

  /** A set closed under steps keeps every path that starts in it. */
  lemma {:induction false} PathStays(g: Edges, inside: set<string>, p: seq<string>)
    requires forall a, b :: a in inside && Step(g, a, b) ==> b in inside
    requires Path(g, p) && p[0] in inside
    ensures Last(p) in inside
    decreases |p|
  {
    if |p| >= 2 {
      assert Step(g, p[0], p[1]);
      PathSuffix(g, p, 1);
      PathStays(g, inside, p[1..]);
    }
  }
}
