/**
 * The resolver dependency graph (src/dns/resolver_graph.cpp): nodes added one by
 * one, a depth-first search for cycles and a worklist search for bootstrap
 * resolvers that depend on another resolver.
 */
module ResolverGraph {
  import opened Core
  import opened Graphs

  datatype Role = Bootstrap | DefaultResolver | ProxyEndpointRole | Direct

  datatype Kind = Resolver | DnsUpstream | Outbound | OutboundGroup | ProxyEndpoint

  datatype Node = Node(kind: Kind, role: Option<Role>, dependencies: seq<string>)

  type Nodes = map<string, Node>

  function EdgesOf(nodes: Nodes): Edges {
    map id | id in nodes :: nodes[id].dependencies
  }

  /** Some bootstrap resolver reaches, in one step or more, a node that has a resolver role. */
  ghost predicate BootstrapDependsOnResolver(nodes: Nodes) {
    exists id, first, target ::
      && id in nodes && nodes[id].role == Some(Bootstrap)
      && Step(EdgesOf(nodes), id, first) && Reaches(EdgesOf(nodes), first, target)
      && target in nodes && nodes[target].role.Some?
  }

  ghost predicate Acceptable(nodes: Nodes) {
    !Cyclic(EdgesOf(nodes)) && !BootstrapDependsOnResolver(nodes)
  }

  /** What the `add_*` operations keep: known, unrepeated dependencies and one resolver for each role. */
  ghost predicate WellBuilt(nodes: Nodes) {
    && Closed(EdgesOf(nodes))
    && "" !in nodes
    && (forall id :: id in nodes ==> Distinct(nodes[id].dependencies))
    && (forall a, b :: a in nodes && b in nodes && nodes[a].role.Some? && nodes[a].role == nodes[b].role ==> a == b)
  }

  /** A vector of names that is passed by reference. */
  class NameList {
    var items: seq<string>

    constructor ()
      ensures items == []
    {
      items := [];
    }
  }

  /** The invariant of the depth-first search. */
  ghost predicate Searching(g: Edges, visiting: seq<string>, visited: seq<string>) {
    && Distinct(visiting) && Elements(visiting) <= g.Keys
    && Topological(g, visited)
    && Elements(visiting) !! Elements(visited)
  }

  class ResolverDependencyGraph {
    var nodes: Nodes

    constructor ()
      ensures nodes == map[] && WellBuilt(nodes)
    {
      nodes := map[];
    }

    method AddNode(id: string, kind: Kind) returns (status: Status)
      requires WellBuilt(nodes)
      modifies this
      ensures WellBuilt(nodes)
      ensures if id == "" || id in old(nodes) then status == Failed(Configuration) && nodes == old(nodes)
              else status == Success && nodes == old(nodes)[id := Node(kind, None, [])]
    {
      if id == "" {
        return Failed(Configuration);
      }
      if id in nodes {
        return Failed(Configuration);
      }
      ghost var before := EdgesOf(nodes);
      nodes := nodes[id := Node(kind, None, [])];
      assert forall a, b :: Step(EdgesOf(nodes), a, b) ==> Step(before, a, b);
      return Success;
    }

    method AddResolver(id: string, role: Role) returns (status: Status)
      requires WellBuilt(nodes)
      modifies this
      ensures WellBuilt(nodes)
      ensures var refused := id == "" || id in old(nodes) || (exists e :: e in old(nodes) && old(nodes)[e].role == Some(role));
        if refused then status == Failed(Configuration) && nodes == old(nodes)
        else status == Success && nodes == old(nodes)[id := Node(Resolver, Some(role), [])]
    {
      if id == "" {
        return Failed(Configuration);
      }
      if id in nodes {
        return Failed(Configuration);
      }
      var rest := nodes.Keys;
      while rest != {}
        invariant rest <= nodes.Keys && nodes == old(nodes)
        invariant forall e :: e in nodes.Keys - rest ==> nodes[e].role != Some(role)
      {
        var existing :| existing in rest;
        if nodes[existing].role == Some(role) {
          return Failed(Configuration);
        }
        rest := rest - {existing};
      }
      ghost var before := EdgesOf(nodes);
      nodes := nodes[id := Node(Resolver, Some(role), [])];
      assert forall a, b :: Step(EdgesOf(nodes), a, b) ==> Step(before, a, b);
      return Success;
    }

    method AddDependency(resolver: string, dependency: string) returns (status: Status)
      requires WellBuilt(nodes)
      modifies this
      ensures WellBuilt(nodes)
      ensures if resolver !in old(nodes) || dependency !in old(nodes) then
                status == Failed(Configuration) && nodes == old(nodes)
              else
                && status == Success && nodes.Keys == old(nodes).Keys
                && forall a, b :: Step(EdgesOf(nodes), a, b) <==>
                     Step(EdgesOf(old(nodes)), a, b) || (a == resolver && b == dependency)
      ensures resolver in old(nodes) && dependency in old(nodes) ==>
        var node := old(nodes)[resolver];
        nodes == if dependency in node.dependencies then old(nodes)
                 else old(nodes)[resolver := Node(node.kind, node.role, node.dependencies + [dependency])]
    {
      if resolver !in nodes {
        return Failed(Configuration);
      }
      if dependency !in nodes {
        return Failed(Configuration);
      }
      var node := nodes[resolver];
      if dependency !in node.dependencies {
        nodes := nodes[resolver := node.(dependencies := node.dependencies + [dependency])];
      }
      ghost var before := EdgesOf(old(nodes));
      forall a, b | Step(EdgesOf(nodes), a, b) ensures b in before && (Step(before, a, b) || (a == resolver && b == dependency)) {
        assert Step(before, a, b) || (a == resolver && b == dependency);
      }
      return Success;
    }

    /** Depth-first search from `id`; `visiting` is the path that leads to it. */
    method Visit(id: string, visiting: NameList, visited: NameList) returns (status: Status)
      requires WellBuilt(nodes) && visiting != visited && id in nodes
      requires Searching(EdgesOf(nodes), visiting.items, visited.items)
      requires Path(EdgesOf(nodes), visiting.items + [id])
      modifies visiting, visited
      ensures visiting.items == old(visiting.items)
      ensures Searching(EdgesOf(nodes), visiting.items, visited.items)
      ensures Elements(old(visited.items)) <= Elements(visited.items)
      ensures status == Success ==> id in Elements(visited.items)
      ensures status != Success ==> status == Failed(Configuration) && Cyclic(EdgesOf(nodes))
      decreases nodes.Keys - Elements(visiting.items)
    {
      ghost var g := EdgesOf(nodes);
      if id in visited.items {
        return Success;
      }
      if id in visiting.items {
        BackStepIsLoop(g, visiting.items, id);
        return Failed(Configuration);
      }
      if id !in nodes {
        return Failed(Configuration);
      }
      ghost var path := visiting.items;
      visiting.items := visiting.items + [id];
      assert Elements(visiting.items) == Elements(path) + {id};
      var dependencies := nodes[id].dependencies;
      var i := 0;
      while i < |dependencies|
        invariant 0 <= i <= |dependencies|
        invariant visiting.items == path + [id]
        invariant Searching(g, visiting.items, visited.items)
        invariant Elements(old(visited.items)) <= Elements(visited.items)
        invariant forall k :: 0 <= k < i ==> dependencies[k] in Elements(visited.items)
      {
        assert Step(g, id, dependencies[i]);
        PathExtends(g, visiting.items, dependencies[i]);
        var result := Visit(dependencies[i], visiting, visited);
        if result != Success {
          visiting.items := visiting.items[..|visiting.items| - 1];
          assert visiting.items == path;
          return result;
        }
        i := i + 1;
      }
      visiting.items := visiting.items[..|visiting.items| - 1];
      assert visiting.items == path;
      AppendKeepsOrder(g, visited.items, id);
      visited.items := visited.items + [id];
      assert Elements(visited.items) == Elements(visited.items[..|visited.items| - 1]) + {id};
      return Success;
    }

    method Validate() returns (status: Status)
      requires WellBuilt(nodes)
      ensures status == (if Acceptable(nodes) then Success else Failed(Configuration))
    {
      ghost var g := EdgesOf(nodes);
      var visiting := new NameList();
      var visited := new NameList();
      var rest := nodes.Keys;
      while rest != {}
        invariant rest <= nodes.Keys && visiting.items == []
        invariant Searching(g, [], visited.items)
        invariant forall id :: id in nodes.Keys - rest ==> id in Elements(visited.items)
      {
        var id :| id in rest;
        var result := Visit(id, visiting, visited);
        if result != Success {
          return result;
        }
        rest := rest - {id};
      }
      assert forall id :: id in g ==> id in nodes.Keys - rest;
      TopologicalIsAcyclic(g, visited.items);
      status := CheckBootstrap();
    }

    /** The second half of the validation: what the bootstrap resolvers reach. */
    method CheckBootstrap() returns (status: Status)
      requires WellBuilt(nodes)
      ensures status == (if BootstrapDependsOnResolver(nodes) then Failed(Configuration) else Success)
    {
      var rest := nodes.Keys;
      while rest != {}
        invariant rest <= nodes.Keys
        invariant forall id :: id in nodes.Keys - rest && nodes[id].role == Some(Bootstrap) ==> Independent(nodes, id)
      {
        var id :| id in rest;
        rest := rest - {id};
        if nodes[id].role != Some(Bootstrap) {
          continue;
        }
        var result := Explore(id);
        if result != Success {
          return result;
        }
      }
      return Success;
    }

    /** The worklist search from one bootstrap resolver. */
    method Explore(id: string) returns (status: Status)
      requires WellBuilt(nodes) && id in nodes
      ensures status == (if Independent(nodes, id) then Success else Failed(Configuration))
    {
      var pending := nodes[id].dependencies;
      ExploreStart(nodes, id);
      var seen: seq<string> := [];
      while pending != []
        invariant Exploring(nodes, id, seen, pending)
        decreases nodes.Keys - Elements(seen), |pending|
      {
        var current := pending[|pending| - 1];
        var rest := pending[..|pending| - 1];
        if current in seen {
          ExploreSkip(nodes, id, seen, pending);
          pending := rest;
          continue;
        }
        ghost var before := seen;
        seen := seen + [current];
        if current !in nodes {
          return Failed(Configuration);
        }
        if nodes[current].role.Some? {
          return Failed(Configuration);
        }
        ExploreNode(nodes, id, before, pending);
        OneMoreElement(before, current);
        pending := rest + nodes[current].dependencies;
      }
      SeenIsAll(nodes, id, seen);
      return Success;
    }
  }

  lemma OneMoreElement(s: seq<string>, x: string)
    ensures Elements(s + [x]) == Elements(s) + {x}
  {
  }

  /** `a` lies one step or more below `id`. */
  ghost predicate Below(nodes: Nodes, id: string, a: string) {
    exists first :: Step(EdgesOf(nodes), id, first) && Reaches(EdgesOf(nodes), first, a)
  }

  ghost predicate Independent(nodes: Nodes, id: string) {
    forall a :: Below(nodes, id, a) && a in nodes ==> nodes[a].role == None
  }

  lemma AppendKeepsOrder(g: Edges, order: seq<string>, id: string)
    requires Topological(g, order) && id !in order
    requires forall b :: Step(g, id, b) ==> b in order
    ensures Topological(g, order + [id])
  {
    var longer := order + [id];
    forall i, b | 0 <= i < |longer| && Step(g, longer[i], b) ensures b in longer[..i] {
      assert longer[..i] == order[..i];
    }
  }

  /** The invariant of the worklist: everything reached is seen or pending, and nothing seen has a role. */
  ghost predicate Exploring(nodes: Nodes, id: string, seen: seq<string>, pending: seq<string>) {
    && (forall a :: a in seen || a in pending ==> a in nodes && Below(nodes, id, a))
    && (forall a :: a in seen ==> nodes[a].role == None)
    && (forall b :: Step(EdgesOf(nodes), id, b) ==> b in seen || b in pending)
    && (forall a, b :: a in seen && Step(EdgesOf(nodes), a, b) ==> b in seen || b in pending)
  }

  lemma ExploreStart(nodes: Nodes, id: string)
    requires Closed(EdgesOf(nodes)) && id in nodes
    ensures Exploring(nodes, id, [], nodes[id].dependencies)
  {
    forall a | a in nodes[id].dependencies ensures a in nodes && Below(nodes, id, a) {
      assert Step(EdgesOf(nodes), id, a);
      ReachesSelf(EdgesOf(nodes), a);
    }
  }

  lemma ExploreSkip(nodes: Nodes, id: string, seen: seq<string>, pending: seq<string>)
    requires Exploring(nodes, id, seen, pending) && pending != [] && Last(pending) in seen
    ensures Exploring(nodes, id, seen, pending[..|pending| - 1])
  {
    var rest := pending[..|pending| - 1];
    assert pending == rest + [Last(pending)];
  }

  lemma ExploreNode(nodes: Nodes, id: string, seen: seq<string>, pending: seq<string>)
    requires Closed(EdgesOf(nodes)) && Exploring(nodes, id, seen, pending) && pending != []
    requires Last(pending) in nodes && nodes[Last(pending)].role == None
    ensures Exploring(nodes, id, seen + [Last(pending)], pending[..|pending| - 1] + nodes[Last(pending)].dependencies)
  {
    var current, rest := Last(pending), pending[..|pending| - 1];
    assert pending == rest + [current];
    assert Below(nodes, id, current);
    BelowSteps(nodes, id, current);
    var deps := nodes[current].dependencies;
    forall a | a in deps ensures a in nodes && Below(nodes, id, a) {
      assert Step(EdgesOf(nodes), current, a);
    }
    forall b | Step(EdgesOf(nodes), current, b) ensures b in rest + deps {
      assert b in deps;
    }
  }

  lemma BelowSteps(nodes: Nodes, id: string, a: string)
    requires Below(nodes, id, a)
    ensures forall b :: Step(EdgesOf(nodes), a, b) ==> Below(nodes, id, b)
  {
    var first :| Step(EdgesOf(nodes), id, first) && Reaches(EdgesOf(nodes), first, a);
    forall b | Step(EdgesOf(nodes), a, b) ensures Below(nodes, id, b) {
      ReachesStep(EdgesOf(nodes), first, a, b);
    }
  }

  /** A set of role-free nodes that holds the dependencies and is closed under steps covers the search. */
  lemma SeenIsAll(nodes: Nodes, id: string, seen: seq<string>)
    requires Exploring(nodes, id, seen, [])
    ensures Independent(nodes, id)
  {
    var g := EdgesOf(nodes);
    forall a | Below(nodes, id, a) ensures a in seen {
      var first :| Step(g, id, first) && Reaches(g, first, a);
      var p :| Connects(g, p, first, a);
      PathStays(g, Elements(seen), p);
    }
  }
}
