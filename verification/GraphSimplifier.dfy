// `process_graph` end to end, for plans without a configuration section.

module GraphSimplifier {
  import opened Wrappers
  import opened Strings
  import opened Reachability
  import opened BlockKinds
  import opened Resolver
  import opened ModuleTree
  import opened GraphNodes
  import opened GroupPruning
  import opened GraphPhases

  // -- Edges -------------------------------------------------------------------------------

  datatype Edge = Edge(id: nat, source: string, target: string)

  // The test of the loop over the node types.
  predicate Drawn(net: Network, n: string)
    requires n in net.types
  {
    var kind := net.types[n];
    var simplifiable := kind in {Var, Local, Output} && !StartsWith(n, "output.");
    var hasDeps := Neighbours(net.deps, n) != [];
    simplifiable ==> !hasDeps && kind != Local && (kind == Var ==> StartsWith(n, "var."))
  }

  // Edges end in resources, data sources and root outputs; everything else with dependencies is
  // contracted.
  ghost predicate TakesEdges(net: Network, t: string) {
    t in net.types && (net.types[t] in {Managed, Data} || StartsWith(t, "output."))
  }

  lemma DrawnIffTakesEdges(net: Network, t: string)
    requires t in net.types && Neighbours(net.deps, t) != []
    ensures Drawn(net, t) <==> TakesEdges(net, t)
  {
    TwoSorts(net.types[t]);
  }

  // Resolution may pair a source with a target, whatever the order of the resolver calls.
  ghost predicate MayJoin(net: Network, s: string, t: string) {
    && TakesEdges(net, t) && s != t
    && exists dep :: dep in Neighbours(net.deps, t) && net.Candidate(dep, s)
  }

  // The edge the drawing is meant to have.
  ghost predicate ShouldJoin(net: Network, s: string, t: string) {
    && TakesEdges(net, t) && s != t
    && exists dep :: dep in Neighbours(net.deps, t) && net.Source(dep, s)
  }

  // No cycle of pass-throughs is reached from a dependency of t.
  ghost predicate Clear(net: Network, t: string) {
    forall d | d in Neighbours(net.deps, t) :: net.Settled(d)
  }

  ghost predicate Lists(order: seq<string>, nodes: set<string>) {
    NoRepeats(order) && Elements(order) == nodes
  }

  // The sources of a node's dependencies, and the cache they leave, given the cache before.
  ghost function SourcesFound(net: Network, node: string, cache: Cache): (set<string>, Cache) {
    var (sources, after) := net.AnswerAll(Neighbours(net.deps, node), cache, {});
    ((set s | s in sources && s != node), after)
  }

  // The edges and the cache after visiting some nodes in order.
  ghost function EdgesInOrder(net: Network, order: seq<string>): (set<(string, string)>, Cache)
    requires Elements(order) <= net.types.Keys
  {
    if order == [] then ({}, map[])
    else
      var rest, node := order[..|order| - 1], order[|order| - 1];
      assert node in Elements(order);
      var (edges, cache) := EdgesInOrder(net, rest);
      if !Drawn(net, node) then (edges, cache)
      else
        var (found, after) := SourcesFound(net, node, cache);
        (edges + (set s | s in found :: (s, node)), after)
  }

  lemma OneMoreVisited(net: Network, order: seq<string>, node: string)
    requires Elements(order) <= net.types.Keys && node in net.types
    ensures Elements(order + [node]) <= net.types.Keys
    ensures
      var (edges, cache) := EdgesInOrder(net, order);
      var (found, after) := SourcesFound(net, node, cache);
      EdgesInOrder(net, order + [node]) ==
        if Drawn(net, node) then (edges + (set s | s in found :: (s, node)), after) else (edges, cache)
  {
    assert (order + [node])[..|order|] == order;
  }

  // What the visited nodes have contributed: sound edges, and all of those that no cycle gets at.
  ghost predicate EdgesInto(net: Network, visited: set<string>, edges: set<(string, string)>) {
    && (forall e | e in edges :: MayJoin(net, e.0, e.1))
    && (forall s, t | Clear(net, t) :: (s, t) in edges <==> t in visited && ShouldJoin(net, s, t))
  }

  // `active_nodes`: the drawn nodes visited and the sources found for them.
  ghost predicate ActiveAfter(net: Network, visited: set<string>, edges: set<(string, string)>, active: set<string>) {
    forall n :: n in active <==> (n in net.types && n in visited && Drawn(net, n)) || exists t :: (n, t) in edges
  }

  // `simplified_edges` keyed by (dependency, dependent), and `active_nodes`. The node types
  // are visited in any order.
  method SimplifyEdges(net: Network) returns (edges: set<(string, string)>, active: set<string>)
    ensures forall e | e in edges :: MayJoin(net, e.0, e.1)
    ensures forall s, t | Clear(net, t) :: (s, t) in edges <==> ShouldJoin(net, s, t)
    ensures forall n :: n in active <==> (n in net.types && Drawn(net, n)) || exists t :: (n, t) in edges
    ensures exists order :: Lists(order, net.types.Keys) && edges == EdgesInOrder(net, order).0
  {
    hide EdgesInto, ActiveAfter, EdgesInOrder, SourcesFound, Drawn, FoundFor, DependencyResolver.Valid;
    var resolver := new DependencyResolver(net);
    edges := {};
    active := {};
    ghost var order: seq<string> := [];
    var todo := net.types.Keys;
    NothingVisited(net);
    while todo != {}
      invariant todo <= net.types.Keys
      invariant resolver.net == net && resolver.Valid() && resolver.stack == {}
      invariant fresh(resolver)
      invariant EdgesInto(net, net.types.Keys - todo, edges)
      invariant ActiveAfter(net, net.types.Keys - todo, edges, active)
      invariant Lists(order, net.types.Keys - todo) && (edges, resolver.cache) == EdgesInOrder(net, order)
      decreases |todo|
    {
      var node :| node in todo;
      ghost var visited := net.types.Keys - todo;
      OneMoreListed(order, node);
      OneMoreVisited(net, order, node);
      order := order + [node];
      todo := todo - {node};
      assert net.types.Keys - todo == visited + {node};
      if Drawn(net, node) {
        var found := SourcesOf(resolver, node);
        EdgesOfOne(net, visited, node, edges, found);
        ActiveOfOne(net, visited, node, edges, active, found);
        edges := edges + set s | s in found :: (s, node);
        active := active + {node} + found;
      } else {
        NoEdgesInto(net, visited, node, edges, active);
      }
    }
    assert net.types.Keys - todo == net.types.Keys;
    AllVisited(net, edges, active);
  }

  lemma AllVisited(net: Network, edges: set<(string, string)>, active: set<string>)
    requires EdgesInto(net, net.types.Keys, edges) && ActiveAfter(net, net.types.Keys, edges, active)
    ensures forall e | e in edges :: MayJoin(net, e.0, e.1)
    ensures forall s, t | Clear(net, t) :: (s, t) in edges <==> ShouldJoin(net, s, t)
    ensures forall n :: n in active <==> (n in net.types && Drawn(net, n)) || exists t :: (n, t) in edges
  {
    hide Drawn;
  }

  lemma NothingVisited(net: Network)
    ensures EdgesInto(net, {}, {}) && ActiveAfter(net, {}, {}, {})
    ensures net.types.Keys - net.types.Keys == {}
    ensures Lists([], {}) && EdgesInOrder(net, []) == ({}, map[])
  {}

  lemma EdgesOfOne(
      net: Network, visited: set<string>, node: string, edges: set<(string, string)>, found: set<string>)
    requires EdgesInto(net, visited, edges) && node !in visited
    requires node in net.types && Drawn(net, node) && FoundFor(net, node, Neighbours(net.deps, node), found)
    ensures EdgesInto(net, visited + {node}, edges + set s | s in found :: (s, node))
  {
    hide Drawn, TakesEdges;
    if Neighbours(net.deps, node) != [] {
      DrawnIffTakesEdges(net, node);
    }
    var more := edges + set s | s in found :: (s, node);
    forall s, t | Clear(net, t) ensures (s, t) in more <==> t in visited + {node} && ShouldJoin(net, s, t) {
      assert (s, t) in edges <==> t in visited && ShouldJoin(net, s, t);
    }
  }

  lemma ActiveOfOne(
      net: Network, visited: set<string>, node: string, edges: set<(string, string)>, active: set<string>,
      found: set<string>)
    requires ActiveAfter(net, visited, edges, active) && node in net.types && Drawn(net, node)
    ensures ActiveAfter(
      net, visited + {node}, edges + (set s | s in found :: (s, node)), active + {node} + found)
  {
    hide Drawn;
    var more := edges + set s | s in found :: (s, node);
    forall n
      ensures n in active + {node} + found <==>
        (n in net.types && n in visited + {node} && Drawn(net, n)) || exists t :: (n, t) in more
    {
      assert n in found ==> (n, node) in more;
      assert forall t | (n, t) in more :: (n, t) in edges || n in found;
      assert forall t | (n, t) in edges :: (n, t) in more;
    }
  }

  lemma NoEdgesInto(
      net: Network, visited: set<string>, node: string, edges: set<(string, string)>, active: set<string>)
    requires EdgesInto(net, visited, edges) && ActiveAfter(net, visited, edges, active)
    requires node in net.types && !Drawn(net, node)
    ensures EdgesInto(net, visited + {node}, edges) && ActiveAfter(net, visited + {node}, edges, active)
  {
    hide Drawn, TakesEdges;
    if Neighbours(net.deps, node) != [] {
      DrawnIffTakesEdges(net, node);
    }
  }

  // Sound for any dependencies, and complete if no cycle is reached from them.
  ghost predicate FoundFor(net: Network, node: string, ds: seq<string>, found: set<string>) {
    && (forall s | s in found :: s != node && exists d :: d in ds && net.Candidate(d, s))
    && ((forall d | d in ds :: net.Settled(d)) ==>
          forall s :: s in found <==> s != node && exists d :: d in ds && net.Source(d, s))
  }

  // The inner loop: the sources of all immediate dependencies, without the node itself.
  method SourcesOf(resolver: DependencyResolver, node: string) returns (found: set<string>)
    requires resolver.Valid() && resolver.stack == {}
    modifies resolver
    ensures resolver.Valid() && resolver.stack == {}
    ensures FoundFor(resolver.net, node, Neighbours(resolver.net.deps, node), found)
    ensures (found, resolver.cache) == SourcesFound(resolver.net, node, old(resolver.cache))
  {
    hide FoundFor, DependencyResolver.Valid, Network.Settled;
    var net := resolver.net;
    var myDeps := Neighbours(net.deps, node);
    found := {};
    NothingFound(net, node);
    for i := 0 to |myDeps|
      invariant resolver.Valid() && resolver.stack == {}
      invariant FoundFor(net, node, myDeps[..i], found)
      invariant resolver.cache == net.AnswerAll(myDeps[..i], old(resolver.cache), {}).1
      invariant found == set s | s in net.AnswerAll(myDeps[..i], old(resolver.cache), {}).0 && s != node
    {
      var dep := myDeps[i];
      assert myDeps[..i + 1] == myDeps[..i] + [dep];
      net.OneMoreAnswer(myDeps[..i], dep, old(resolver.cache), {});
      var sources := resolver.Resolve(dep);
      MoreFound(resolver, node, myDeps[..i], dep, found, sources);
      found := found + set s | s in sources && s != node;
    }
    assert myDeps[..|myDeps|] == myDeps;
  }

  lemma NothingFound(net: Network, node: string)
    ensures FoundFor(net, node, [], {})
  {}

  lemma MoreFound(
      resolver: DependencyResolver, node: string, ds: seq<string>, d: string, found: set<string>, sources: seq<string>)
    requires FoundFor(resolver.net, node, ds, found)
    requires resolver.Sound(d, sources) && resolver.Exact(d, sources)
    ensures FoundFor(resolver.net, node, ds + [d], found + set s | s in sources && s != node)
  {
    var net := resolver.net;
    hide Network.Settled, Network.Source, Network.Candidate, Network.Src;
    assert forall e :: e in ds + [d] <==> e in ds || e == d;
    if net.Settled(d) {
      net.SrcIsExactlySource(d);
      assert forall s :: s in sources <==> s in Elements(sources);
    }
  }

  // -- Final node list -----------------------------------------------------------------------

  // Every ancestor of a resource, root groups included, is present.
  ghost predicate Rooted(nodes: seq<Node>) {
    forall r, g | r in nodes && r.Resource? && g in Ancestors(r) :: g in GroupIds(nodes)
  }

  ghost predicate FromPlan(plan: Plan, nodes: seq<Node>) {
    forall n | n in nodes :: Placed(n) && (n.Resource? ==> NodeFor(n.id, plan) == Some(n))
  }

  // The plan gives no node the name of a root group.
  predicate ReservedUnused(plan: Plan) {
    NodeFor(ROOT_VARIABLES, plan) == None && NodeFor(ROOT_OUTPUTS, plan) == None
  }

  // A node hangs where its parent says: nowhere without ancestors, else below a group that has
  // all its other ancestors. Following parents is therefore well-founded.
  predicate Hangs(nodes: map<string, Node>, n: Node) {
    match n.parentId
    case None => Ancestors(n) == []
    case Some(p) => p in nodes && nodes[p].Group? && Ancestors(n) == Ancestors(nodes[p]) + [p]
  }

  // A nested graph: ids are unique by construction, every node hangs below groups of the output,
  // and the groups are exactly the ancestors of its resources.
  ghost predicate NestedGraph(nodes: map<string, Node>) {
    && (forall id | id in nodes :: nodes[id].id == id)
    && (forall id | id in nodes :: Hangs(nodes, nodes[id]))
    && (forall g :: g in nodes && nodes[g].Group? <==>
          exists r :: r in nodes && nodes[r].Resource? && g in Ancestors(nodes[r]))
  }

  // What an edge may end in: a drawn resource, no local, module variable or module output.
  predicate GoodEnd(nodes: map<string, Node>, id: string) {
    && id in nodes
    && nodes[id].Resource?
    && nodes[id].id == id
    && nodes[id].kind != Local
    && (nodes[id].kind == Var ==> StartsWith(id, "var."))
    && (nodes[id].kind == Output ==> StartsWith(id, "output."))
  }

  predicate ModuleOutput(n: Node) {
    n.Resource? && n.kind == Output && !StartsWith(n.id, "output.")
  }

  // Nodes with the same id are the same node, so deduplication loses nothing.
  lemma SameIdSameNode(plan: Plan, n: Node, m: Node)
    requires ReservedUnused(plan)
    requires Placed(n) && (n.Resource? ==> NodeFor(n.id, plan) == Some(n))
    requires Placed(m) && (m.Resource? ==> NodeFor(m.id, plan) == Some(m))
    requires n.id == m.id
    ensures n == m
  {
    hide Hierarchy;
    RootGroupsAreNoModules();
  }

  // Placed nodes survive pruning together with all their ancestors.
  lemma SurvivorsAreRooted(nodes: seq<Node>, kept: seq<Node>)
    requires AllPlaced(nodes) && Rooted(nodes)
    requires forall n :: n in kept <==> Survives(nodes, n)
    ensures Rooted(kept)
    ensures forall n | n in kept && n.parentId.Some? :: n.parentId.value in GroupIds(kept)
    ensures forall n | n in kept && n.Group? :: HasResource(kept, n.id)
  {
    hide Hierarchy, Placed;
    forall r, g | r in kept && r.Resource? && g in Ancestors(r) ensures g in GroupIds(kept) {
      assert g in GroupIds(nodes);
      var c :| c in nodes && c.Group? && c.id == g;
      assert Survives(nodes, c);
    }
    forall n | n in kept && n.Group? ensures HasResource(kept, n.id) {
      var r :| r in nodes && r.Resource? && n.id in Ancestors(r);
      assert Survives(nodes, r);
    }
    forall n | n in kept && n.parentId.Some? ensures n.parentId.value in GroupIds(kept) {
      ParentIsAncestor(n);
      if n.Group? {
        var r :| r in kept && r.Resource? && n.id in Ancestors(r);
        GroupAncestors(n);
        AncestorsAreTransitive(r, n.id, n.parentId.value);
      }
    }
  }

  lemma GroupAncestors(n: Node)
    requires n.Group?
    ensures forall g | g in Ancestors(n) :: g in Hierarchy(n.id)
  {
    hide Hierarchy;
  }

  lemma RootedIsComplete(nodes: seq<Node>)
    requires Rooted(nodes) && AllPlaced(nodes)
    ensures Complete(nodes)
  {
    hide Hierarchy;
  }

  // No earlier node has the id of node j.
  predicate FirstOfId(nodes: seq<Node>, j: int) {
    0 <= j < |nodes| && forall i | 0 <= i < j :: nodes[i].id != nodes[j].id
  }

  // `unique_nodes.entry(id).or_insert(node)`: the first node of an id is kept.
  method Deduplicate(nodes: seq<Node>) returns (unique: map<string, Node>)
    ensures forall n | n in nodes :: n.id in unique
    ensures forall id | id in unique :: unique[id] in nodes && unique[id].id == id
    ensures forall j | FirstOfId(nodes, j) :: nodes[j].id in unique && unique[nodes[j].id] == nodes[j]
  {
    unique := map[];
    for i := 0 to |nodes|
      invariant forall n | n in nodes[..i] :: n.id in unique
      invariant forall j | 0 <= j < i && FirstOfId(nodes, j) :: nodes[j].id in unique && unique[nodes[j].id] == nodes[j]
      invariant forall id | id in unique :: unique[id] in nodes[..i] && unique[id].id == id
    {
      assert nodes[..i + 1] == nodes[..i] + [nodes[i]];
      if nodes[i].id !in unique {
        unique := unique[nodes[i].id := nodes[i]];
      }
    }
    assert nodes[..|nodes|] == nodes;
  }

  lemma HangsNowhere(n: Node)
    requires Placed(n) && n.parentId == None
    ensures Ancestors(n) == []
  {
    hide Hierarchy;
  }

  lemma HangsBelow(n: Node, p: Node)
    requires Placed(n) && Placed(p) && p.Group? && n.parentId == Some(p.id)
    ensures Ancestors(n) == Ancestors(p) + [p.id]
  {
    hide Hierarchy;
    RootGroupsAreNoModules();
    var a, h := Ancestors(n), Hierarchy(n.id);
    assert a[|a| - 1] == p.id && a == a[..|a| - 1] + [p.id];
    if h != [] {
      PathParsesToItself(n.id, |a| - 1);
      assert Hierarchy(p.id) == a;
    }
  }

  // `unique` holds exactly the given nodes, each under its own id.
  ghost predicate Indexes(unique: map<string, Node>, nodes: seq<Node>) {
    && (forall id | id in unique :: unique[id] in nodes && unique[id].id == id)
    && (forall n | n in nodes :: n.id in unique && unique[n.id] == n)
  }

  lemma IndexedHang(unique: map<string, Node>, nodes: seq<Node>)
    requires Indexes(unique, nodes) && AllPlaced(nodes)
    requires forall n | n in nodes && n.parentId.Some? :: n.parentId.value in GroupIds(nodes)
    ensures forall id | id in unique :: Hangs(unique, unique[id])
  {
    hide Hierarchy, Placed, Ancestors;
    forall id | id in unique ensures Hangs(unique, unique[id]) {
      var n := unique[id];
      if n.parentId.Some? {
        var p :| p in nodes && p.Group? && p.id == n.parentId.value;
        HangsBelow(n, p);
      } else {
        HangsNowhere(n);
      }
    }
  }

  lemma IndexedGroupsAreAncestors(unique: map<string, Node>, nodes: seq<Node>, g: string)
    requires Indexes(unique, nodes) && Rooted(nodes)
    requires forall n | n in nodes && n.Group? :: HasResource(nodes, n.id)
    ensures g in unique && unique[g].Group? <==>
      exists r :: r in unique && unique[r].Resource? && g in Ancestors(unique[r])
  {
    hide Ancestors;
    if g in unique && unique[g].Group? {
      assert HasResource(nodes, g);
      var r :| r in nodes && r.Resource? && g in Ancestors(r);
      assert unique[r.id] == r;
    }
    if r :| r in unique && unique[r].Resource? && g in Ancestors(unique[r]) {
      assert g in GroupIds(nodes);
      var c :| c in nodes && c.Group? && c.id == g;
      assert unique[c.id] == c;
    }
  }

  lemma DeduplicatedIsNested(plan: Plan, nodes: seq<Node>, unique: map<string, Node>)
    requires ReservedUnused(plan) && FromPlan(plan, nodes)
    requires Rooted(nodes)
    requires forall n | n in nodes && n.parentId.Some? :: n.parentId.value in GroupIds(nodes)
    requires forall n | n in nodes && n.Group? :: HasResource(nodes, n.id)
    requires forall n | n in nodes :: n.id in unique
    requires forall id | id in unique :: unique[id] in nodes && unique[id].id == id
    ensures NestedGraph(unique)
    ensures Indexes(unique, nodes)
  {
    hide Hierarchy, Placed, NodeFor, Hangs, Ancestors;
    forall n | n in nodes ensures unique[n.id] == n {
      SameIdSameNode(plan, n, unique[n.id]);
    }
    IndexedHang(unique, nodes);
    forall g
      ensures g in unique && unique[g].Group? <==>
        exists r :: r in unique && unique[r].Resource? && g in Ancestors(unique[r])
    {
      IndexedGroupsAreAncestors(unique, nodes, g);
    }
  }

  // -- Edge endpoints --------------------------------------------------------------------------

  // A path of the dependency map is a path of the adjacency it was cut from.
  lemma PathInLargerGraph(g: Graph, h: Graph, a: string, b: string)
    requires forall u, v | v in Neighbours(g, u) :: v in Neighbours(h, u)
    requires Reaches(g, a, b)
    ensures Reaches(h, a, b)
  {
    var p :| PathBetween(g, p, a, b);
    assert PathBetween(h, p, a, b);
  }

  // Whatever takes edges is one of the seeds.
  lemma TargetIsSeed(plan: Plan, net: Network, n: Node)
    requires n.Resource? && NodeFor(n.id, plan) == Some(n)
    requires TakesEdges(net, n.id) && net.types[n.id] == n.kind
    ensures IsSeed(n)
  {
    hide Hierarchy;
    if StartsWith(n.id, "output.") {
      RootOutputKind(n.id, DataMode(n.id, plan).value);
    }
  }

  lemma RootOutputKind(id: string, isData: bool)
    requires StartsWith(id, "output.")
    ensures DetermineKind(id, isData) == Output
  {
    assert id[0] == "output."[0] == 'o';
    assert "var."[0] == 'v' && "local."[0] == 'l';
  }

  // Where a path out of a vertex set that contains all targets ends.
  lemma EndOfPath(g: Graph, a: string, b: string)
    requires Reaches(g, a, b)
    ensures a == b || exists u :: b in Neighbours(g, u)
  {
    var p :| PathBetween(g, p, a, b);
    if |p| > 1 {
      assert p[|p| - 2 + 1] in Neighbours(g, p[|p| - 2]);
    }
  }

  // What the phases before resolution establish about adjacency, dependencies and nodes:
  // `all` is the full node list, `nodes` what the reachability prune left of it.
  ghost predicate Prepared(plan: Plan, adj: Graph, net: Network, all: seq<Node>, nodes: seq<Node>) {
    && FromPlan(plan, all)
    && (forall u, v | v in Neighbours(adj, u) :: NodeFor(v, plan).Some? && NodeFor(v, plan).value in all)
    && (forall n | n in nodes && n.Resource? :: n in all)
    && (forall n | n in all && n.Resource? && ReachedFromSome(adj, Seeds(all), n.id) :: n in nodes)
    && net.types == TypesOf(nodes)
  }

  // `node_types`: equal ids have equal kinds, so the order of insertion is immaterial.
  function TypesOf(nodes: seq<Node>): map<string, Kind> {
    if nodes == [] then map[]
    else
      var types := TypesOf(nodes[..|nodes| - 1]);
      var n := nodes[|nodes| - 1];
      if n.Resource? then types[n.id := n.kind] else types
  }

  lemma {:induction false} TypesAreKinds(plan: Plan, nodes: seq<Node>)
    requires forall n | n in nodes && n.Resource? :: NodeFor(n.id, plan) == Some(n)
    ensures forall n | n in nodes && n.Resource? :: n.id in TypesOf(nodes) && TypesOf(nodes)[n.id] == n.kind
    ensures forall id | id in TypesOf(nodes) :: NodeFor(id, plan).Some? && NodeFor(id, plan).value in nodes
  {
    hide NodeFor;
    if nodes != [] {
      var rest := nodes[..|nodes| - 1];
      SplitLast(nodes);
      assert forall n :: n in nodes <==> n in rest || n == nodes[|nodes| - 1];
      TypesAreKinds(plan, rest);
    }
  }

  // An end of an edge is a typed address that is not contracted.
  ghost predicate TypedEnd(net: Network, id: string) {
    id in net.types && (net.PassThrough(id) ==> net.RootSource(id))
  }

  lemma TargetIsTyped(plan: Plan, adj: Graph, net: Network, all: seq<Node>, nodes: seq<Node>, s: string, t: string)
    requires Prepared(plan, adj, net, all, nodes) && FromPlan(plan, nodes) && MayJoin(net, s, t)
    ensures TypedEnd(net, t)
  {
    hide NodeFor, Placed;
    TypesAreKinds(plan, nodes);
    NodeForHasId(t, plan);
    DrawnTargetKind(plan, net, NodeFor(t, plan).value);
  }

  // Without dependencies beyond the graph's own, the sources of edges are retained nodes.
  lemma EndsAreRetained(plan: Plan, adj: Graph, net: Network, all: seq<Node>, nodes: seq<Node>, s: string, t: string)
    requires Prepared(plan, adj, net, all, nodes) && MayJoin(net, s, t)
    requires forall u, v | v in Neighbours(net.deps, u) :: v in Neighbours(adj, u)
    ensures TypedEnd(net, s)
  {
    hide NodeFor, IsSeed;
    TypesAreKinds(plan, nodes);
    var dep :| dep in Neighbours(net.deps, t) && net.Candidate(dep, s);
    var target := NodeFor(t, plan).value;
    NodeForHasId(t, plan);
    TargetIsSeed(plan, net, target);
    assert t in Seeds(all);

    var p :| net.Leads(p, dep, s);
    assert Reaches(net.deps, dep, s);
    PathInLargerGraph(net.deps, adj, dep, s);
    ReachesSelf(adj, t);
    ReachesStep(adj, t, t, dep);
    ReachesTransitive(adj, t, dep, s);
    assert ReachedFromSome(adj, Seeds(all), s);
    EndOfPath(adj, dep, s);
    NodeForHasId(s, plan);
    assert NodeFor(s, plan).value in nodes;
  }

  lemma DrawnTargetKind(plan: Plan, net: Network, n: Node)
    requires n.Resource? && NodeFor(n.id, plan) == Some(n)
    requires TakesEdges(net, n.id) && net.types[n.id] == n.kind
    ensures net.PassThrough(n.id) ==> net.RootSource(n.id)
  {
    hide Hierarchy;
    if StartsWith(n.id, "output.") {
      RootOutputKind(n.id, DataMode(n.id, plan).value);
    }
  }

  // -- From phase to phase -----------------------------------------------------------------------

  lemma TableIsPrunable(plan: Plan, known: set<string>, all: seq<Node>, kept: seq<Node>)
    requires Table(plan, known, all)
    requires forall n | n in kept :: n in all
    requires forall n | n in all && n.Group? :: n in kept
    ensures FromPlan(plan, all) && FromPlan(plan, kept)
    ensures AllPlaced(kept) && Complete(kept)
  {
    hide Hierarchy, Placed, NodeFor, ModuleGroup;
    forall r, g | r in kept && r.Resource? && g in Hierarchy(r.id) ensures g in GroupIds(kept) {
      assert Entry(plan, known, r);
      var c :| c in all && c.Group? && c.id == g;
      assert c in kept;
    }
  }

  lemma GrownIsRooted(plan: Plan, kept: seq<Node>, pruned: seq<Node>, grown: seq<Node>)
    requires FromPlan(plan, kept) && AllPlaced(kept) && Complete(kept)
    requires forall n :: n in pruned <==> Survives(kept, n)
    requires GrownByRoots(pruned, grown)
    ensures FromPlan(plan, grown) && AllPlaced(grown) && Rooted(grown)
    ensures forall n: Node | n.Resource? :: n in grown <==> n in kept
  {
    hide Hierarchy, NodeFor;
    RootGroupsAreNoModules();
    forall r, g | r in grown && r.Resource? && g in Ancestors(r) ensures g in GroupIds(grown) {
      assert r in kept;
      if Hierarchy(r.id) == [] {
        assert r in pruned && HasChild(pruned, g);
        assert Group(g, None) in grown;
      } else {
        assert g in Hierarchy(r.id) && g in GroupIds(kept);
        var c :| c in kept && c.Group? && c.id == g;
        assert Survives(kept, c);
        assert c in grown;
      }
    }
  }

  predicate Visible(active: set<string>, ends: set<string>, n: Node) {
    n.Resource? ==> !ModuleOutput(n) && (n.id in active || n.id in ends)
  }

  lemma VisibleIsRooted(plan: Plan, grown: seq<Node>, visible: seq<Node>)
    requires FromPlan(plan, grown) && AllPlaced(grown) && Rooted(grown)
    requires forall n | n in visible :: n in grown
    requires forall n | n in grown && n.Group? :: n in visible
    ensures FromPlan(plan, visible) && AllPlaced(visible) && Rooted(visible) && Complete(visible)
  {
    hide Hierarchy, NodeFor, Placed;
    forall r, g | r in visible && r.Resource? && g in Ancestors(r) ensures g in GroupIds(visible) {
      assert g in GroupIds(grown);
      var c :| c in grown && c.Group? && c.id == g;
      assert c in visible;
    }
    RootedIsComplete(visible);
  }

  // -- The meaning of the network in terms of the input ------------------------------------------

  ghost predicate AdjacencyOf(input: Input, g: Graph, keepLoops: bool) {
    forall u, v :: v in Neighbours(g, u) <==>
      EdgeBetween(input.rawEdges, input.AddressOf(), u, v) && (keepLoops || u != v)
  }

  function NodeOf(input: Input, address: string): (n: Node)
    requires input.IsNode(address)
    ensures n.Resource? && n.id == address
  {
    NodeForHasId(address, input.plan);
    NodeFor(address, input.plan).value
  }

  // A created resource, data source or root output.
  ghost predicate Needs(input: Input, b: string) {
    && b in input.Created() && input.IsNode(b)
    && (NodeOf(input, b).kind in {Managed, Data} || StartsWith(b, "output."))
  }

  // A created node stays unless it is a variable or local that nothing of this sort depends on.
  ghost predicate Retained(input: Input, adj: Graph, a: string) {
    && a in input.Created() && input.IsNode(a)
    && (NodeOf(input, a).kind in {Var, Local} ==> exists b :: Needs(input, b) && Reaches(adj, b, a))
  }

  lemma SeedIffNeeds(input: Input, b: string)
    requires b in input.Created() && input.IsNode(b)
    ensures IsSeed(NodeOf(input, b)) <==> Needs(input, b)
  {
    hide Hierarchy, Input.Created;
    if StartsWith(b, "output.") {
      RootOutputKind(b, DataMode(b, input.plan).value);
    }
    TwoSorts(NodeOf(input, b).kind);
  }

  // The dependencies: edges of the graph without self-loops, and those of the configuration.
  ghost predicate DependenciesOf(input: Input, deps: Graph) {
    forall u, v :: v in Neighbours(deps, u) <==>
      || (EdgeBetween(input.rawEdges, input.AddressOf(), u, v) && u != v)
      || (u, v) in input.configDeps
  }

  ghost predicate NetworkOf(input: Input, adj: Graph, net: Network) {
    && AdjacencyOf(input, adj, true)
    && DependenciesOf(input, net.deps)
    && (forall a :: a in net.types <==> Retained(input, adj, a))
    && (forall a | a in net.types && input.IsNode(a) :: net.types[a] == NodeOf(input, a).kind)
  }

  // Whatever the configuration adds is an edge of the graph anyway, as without a configuration.
  ghost predicate ConfigIsInGraph(input: Input) {
    forall p | p in input.configDeps :: EdgeBetween(input.rawEdges, input.AddressOf(), p.0, p.1)
  }

  lemma EndpointsAreCreated(input: Input, g: Graph, keepLoops: bool, all: seq<Node>)
    requires AdjacencyOf(input, g, keepLoops)
    requires ResourcesAre(input.plan, all, input.Created())
    ensures forall u, v | v in Neighbours(g, u) :: NodeFor(v, input.plan).Some? && NodeFor(v, input.plan).value in all
  {
    hide NodeFor;
    forall u, v | v in Neighbours(g, u) ensures NodeFor(v, input.plan).Some? && NodeFor(v, input.plan).value in all {
      var e :| e in input.rawEdges && Joins(e, input.AddressOf(), u, v);
      MappedIsCreated(input, e.1);
      NodeForHasId(v, input.plan);
    }
  }

  lemma MappedIsCreated(input: Input, dotId: string)
    requires dotId in input.AddressOf()
    ensures input.AddressOf()[dotId] in input.Created() && input.IsNode(input.AddressOf()[dotId])
  {
    hide NodeFor;
    ExplicitIsLabel(input, |input.rawNodes|);
    var implicit := input.Implicit(Endpoints(input.rawEdges));
    if dotId in implicit {
      assert implicit[dotId] in implicit.Values;
    }
  }

  lemma {:induction false} ExplicitIsLabel(input: Input, n: nat)
    requires n <= |input.rawNodes|
    ensures forall d | d in input.Explicit(n) ::
      input.Explicit(n)[d] in input.Labels(n) && input.IsNode(input.Explicit(n)[d])
  {
    hide NodeFor;
    if n > 0 {
      ExplicitIsLabel(input, n - 1);
    }
  }

  // -- The whole simplification --------------------------------------------------------------------

  // Everything up to the dependency map: `all` is the full node list, `grown` what is left of it.
  method PrepareNetwork(input: Input) returns (grown: seq<Node>, net: Network, ghost adj: Graph, ghost all: seq<Node>)
    ensures FromPlan(input.plan, grown) && AllPlaced(grown) && Rooted(grown)
    ensures Prepared(input.plan, adj, net, all, grown)
    ensures NetworkOf(input, adj, net)
  {
    hide NodeFor, Hierarchy, Placed, Table, IsSeed, Input.AddressOf, Input.Created;
    var table := new NodeTable(input.plan);
    var addressOf := BuildNodes(table, input);
    all := table.nodes;

    var adjacency := Adjacency(input.rawEdges, addressOf, true);
    adj := adjacency;
    var kept := RetainReached(adjacency, table.nodes);
    TableIsPrunable(input.plan, table.knownModules, all, kept);
    var pruned := PruneGroups(kept);
    grown := AddRootGroups(pruned);
    GrownIsRooted(input.plan, kept, pruned, grown);

    var deps := Adjacency(input.rawEdges, addressOf, false);
    deps := AugmentDeps(deps, input.configDeps);
    net := Network(deps, TypesOf(grown));
    EndpointsAreCreated(input, adj, true, all);
    TypesAreRetained(input, adj, all, grown);
  }

  lemma TypesAreRetained(input: Input, adj: Graph, all: seq<Node>, grown: seq<Node>)
    requires FromPlan(input.plan, grown)
    requires ResourcesAre(input.plan, all, input.Created())
    requires forall n: Node | n.Resource? :: n in grown <==>
      n in all && (n.kind in {Var, Local} ==> ReachedFromSome(adj, Seeds(all), n.id))
    ensures forall a :: a in TypesOf(grown) <==> Retained(input, adj, a)
    ensures forall a | a in TypesOf(grown) && input.IsNode(a) :: TypesOf(grown)[a] == NodeOf(input, a).kind
  {
    hide NodeFor, Hierarchy, Placed, IsSeed, Input.Created;
    TypesAreKinds(input.plan, grown);
    forall a
      ensures a in TypesOf(grown) <==> Retained(input, adj, a)
      ensures a in TypesOf(grown) && input.IsNode(a) ==> TypesOf(grown)[a] == NodeOf(input, a).kind
    {
      if input.IsNode(a) {
        NodeForHasId(a, input.plan);
        SeedsAreAddresses(input, adj, all, a);
      }
    }
  }

  lemma SeedsAreAddresses(input: Input, adj: Graph, all: seq<Node>, a: string)
    requires ResourcesAre(input.plan, all, input.Created())
    ensures ReachedFromSome(adj, Seeds(all), a) <==> exists b :: Needs(input, b) && Reaches(adj, b, a)
  {
    hide NodeFor, Input.Created;
    if ReachedFromSome(adj, Seeds(all), a) {
      var b :| b in Seeds(all) && Reaches(adj, b, a);
      var n :| n in all && IsSeed(n) && n.id == b;
      assert IsSeed(NodeOf(input, b));
      SeedIffNeeds(input, b);
    }
    if b :| Needs(input, b) && Reaches(adj, b, a) {
      SeedIffNeeds(input, b);
      NodeForHasId(b, input.plan);
      assert NodeOf(input, b) in all;
      assert b in Seeds(all);
    }
  }

  // Everything after the edges: hide the contracted nodes and empty groups, deduplicate.
  method FinishNodes(plan: Plan, grown: seq<Node>, active: set<string>, ends: set<string>)
    returns (nodes: map<string, Node>)
    requires FromPlan(plan, grown) && AllPlaced(grown) && Rooted(grown)
    ensures ReservedUnused(plan) ==> NestedGraph(nodes)
    ensures ReservedUnused(plan) ==>
      forall n: Node | n.Resource? :: (n.id in nodes && nodes[n.id] == n) <==> n in grown && Visible(active, ends, n)
  {
    hide NodeFor, Hierarchy, Placed, NestedGraph, Ancestors, GroupIds;
    var visible := Retain(grown, (n: Node) => Visible(active, ends, n));
    VisibleIsRooted(plan, grown, visible);
    var stable := PruneGroups(visible);
    SurvivorsAreRooted(visible, stable);

    var final := RetainUsedGroups(stable, active);
    nodes := Deduplicate(final);
    if ReservedUnused(plan) {
      DeduplicatedIsNested(plan, final, nodes);
      forall n: Node | n.Resource?
        ensures (n.id in nodes && nodes[n.id] == n) <==> n in grown && Visible(active, ends, n)
      {
        assert n in final <==> Survives(visible, n);
      }
    }
  }

  // The last retain removes nothing: after pruning every remaining group is a parent.
  method RetainUsedGroups(stable: seq<Node>, active: set<string>) returns (final: seq<Node>)
    requires Supported(stable)
    ensures final == stable
  {
    var activeIds := set n | n in stable && n.Resource? :: n.id;
    var parentIds := ParentIds(stable);
    final := Retain(stable, (n: Node) =>
      n.Group? ==> (exists id | id in activeIds :: StartsWith(id, n.id + DOT)) || n.id in active || n.id in parentIds);
    RetainAll(stable, (n: Node) =>
      n.Group? ==> (exists id | id in activeIds :: StartsWith(id, n.id + DOT)) || n.id in active || n.id in parentIds);
  }

  // A retained address shows as a resource: resources, data sources and root outputs always do,
  // root variables without dependencies too, and beyond these only the ends of edges.
  ghost predicate Shown(net: Network, edges: seq<Edge>, a: string) {
    && a in net.types
    && (|| net.types[a] in {Managed, Data}
        || StartsWith(a, "output.")
        || (StartsWith(a, "var.") && Neighbours(net.deps, a) == [])
        || exists e :: e in edges && a in {e.source, e.target})
  }

  lemma RootVariableKind(id: string, isData: bool)
    requires StartsWith(id, "var.")
    ensures DetermineKind(id, isData) == Var
  {}

  // Drawn nodes other than module outputs, in terms of kinds and addresses.
  lemma DrawnInTerms(plan: Plan, net: Network, n: Node)
    requires n.Resource? && NodeFor(n.id, plan) == Some(n)
    requires n.id in net.types && net.types[n.id] == n.kind
    ensures Drawn(net, n.id) && !ModuleOutput(n) <==>
      || n.kind in {Managed, Data}
      || StartsWith(n.id, "output.")
      || (StartsWith(n.id, "var.") && Neighbours(net.deps, n.id) == [])
  {
    hide Hierarchy;
    if StartsWith(n.id, "output.") {
      RootOutputKind(n.id, DataMode(n.id, plan).value);
    }
    if StartsWith(n.id, "var.") {
      RootVariableKind(n.id, DataMode(n.id, plan).value);
    }
    TwoSorts(n.kind);
    hide NodeFor;
  }

  ghost predicate EdgesOnce(edges: seq<Edge>) {
    forall i, j | 0 <= i < j < |edges| ::
      edges[i].id != edges[j].id && (edges[i].source, edges[i].target) != (edges[j].source, edges[j].target)
  }

  // The edges are those of visiting the typed nodes in that order.
  ghost predicate DrawnInOrder(net: Network, order: seq<string>, edges: seq<Edge>)
    requires Lists(order, net.types.Keys)
  {
    forall s, t :: (s, t) in EdgesInOrder(net, order).0 <==> exists e :: e in edges && e.source == s && e.target == t
  }

  method ProcessGraph(input: Input)
    returns (nodes: map<string, Node>, edges: seq<Edge>, ghost adj: Graph, ghost net: Network)
    ensures NetworkOf(input, adj, net)
    ensures EdgesOnce(edges)
    ensures forall e | e in edges :: MayJoin(net, e.source, e.target)
    ensures forall s, t | Clear(net, t) :: ShouldJoin(net, s, t) <==>
      exists e :: e in edges && e.source == s && e.target == t
    ensures ReservedUnused(input.plan) ==> NestedGraph(nodes)
    ensures ReservedUnused(input.plan) ==>
      forall a :: a in nodes && nodes[a].Resource? <==> Shown(net, edges, a)
    ensures ReservedUnused(input.plan) ==>
      forall a | a in nodes && nodes[a].Resource? :: NodeFor(a, input.plan) == Some(nodes[a])
    ensures ReservedUnused(input.plan) ==>
      forall e | e in edges ::
        e.source != e.target && GoodEnd(nodes, e.target) && (GoodEnd(nodes, e.source) <==> e.source in net.types)
    ensures ConfigIsInGraph(input) ==> forall e | e in edges :: e.source in net.types
    ensures exists order :: Lists(order, net.types.Keys) && DrawnInOrder(net, order, edges)
  {
    hide NodeFor, NetworkOf, Prepared, FromPlan, AllPlaced, Rooted, MayJoin, ShouldJoin, Clear, NestedGraph, Visible,
      Shown, GoodEnd, EdgesInOrder, ConfigIsInGraph;
    ghost var all;
    var grown, network;
    grown, network, adj, all := PrepareNetwork(input);
    net := network;
    var joined, active := SimplifyEdges(network);
    edges := NumberEdges(joined);
    var ends := (set e | e in joined :: e.0) + (set e | e in joined :: e.1);
    nodes := FinishNodes(input.plan, grown, active, ends);
    forall e | e in edges ensures (e.source, e.target) in joined {}
    if ConfigIsInGraph(input) {
      forall e | e in edges ensures e.source in net.types {
        DependenciesAreInGraph(input, adj, net);
        EndsAreRetained(input.plan, adj, net, all, grown, e.source, e.target);
      }
    }
    if ReservedUnused(input.plan) {
      forall e | e in edges
        ensures e.source != e.target && GoodEnd(nodes, e.target)
        ensures GoodEnd(nodes, e.source) <==> e.source in net.types
      {
        EdgeEndsAreGood(input, adj, net, all, grown, active, ends, nodes, e.source, e.target);
      }
      ShownIsVisible(input, adj, net, all, grown, active, ends, joined, edges, nodes);
    }
  }

  lemma DependenciesAreInGraph(input: Input, adj: Graph, net: Network)
    requires NetworkOf(input, adj, net) && ConfigIsInGraph(input)
    ensures forall u, v | v in Neighbours(net.deps, u) :: v in Neighbours(adj, u)
  {
    forall u, v | v in Neighbours(net.deps, u) ensures v in Neighbours(adj, u) {
      if (u, v) in input.configDeps {
        assert EdgeBetween(input.rawEdges, input.AddressOf(), (u, v).0, (u, v).1);
      }
    }
  }

  lemma EdgeEndsAreGood(
      input: Input, adj: Graph, net: Network, all: seq<Node>, grown: seq<Node>, active: set<string>, ends: set<string>,
      nodes: map<string, Node>, s: string, t: string)
    requires Prepared(input.plan, adj, net, all, grown) && FromPlan(input.plan, grown) && MayJoin(net, s, t)
    requires {s, t} <= ends
    requires forall n: Node | n.Resource? :: (n.id in nodes && nodes[n.id] == n) <==>
      n in grown && Visible(active, ends, n)
    ensures s != t && GoodEnd(nodes, t)
    ensures GoodEnd(nodes, s) <==> s in net.types
  {
    hide NodeFor, IsSeed, Placed, GoodEnd;
    TargetIsTyped(input.plan, adj, net, all, grown, s, t);
    TypedEndIsGood(input.plan, net, grown, active, ends, nodes, t);
    if s in net.types {
      TypedEndIsGood(input.plan, net, grown, active, ends, nodes, s);
    }
    if GoodEnd(nodes, s) {
      GoodEndIsTyped(input.plan, net, grown, active, ends, nodes, s);
    }
  }

  lemma TypedEndIsGood(
      plan: Plan, net: Network, grown: seq<Node>, active: set<string>, ends: set<string>, nodes: map<string, Node>,
      id: string)
    requires FromPlan(plan, grown) && net.types == TypesOf(grown) && TypedEnd(net, id) && id in ends
    requires forall n: Node | n.Resource? :: (n.id in nodes && nodes[n.id] == n) <==>
      n in grown && Visible(active, ends, n)
    ensures GoodEnd(nodes, id)
  {
    hide NodeFor, Placed;
    TypesAreKinds(plan, grown);
    NodeForHasId(id, plan);
    var n := NodeFor(id, plan).value;
    assert n in grown && Visible(active, ends, n);
  }

  lemma GoodEndIsTyped(
      plan: Plan, net: Network, grown: seq<Node>, active: set<string>, ends: set<string>, nodes: map<string, Node>,
      id: string)
    requires FromPlan(plan, grown) && net.types == TypesOf(grown) && GoodEnd(nodes, id)
    requires forall n: Node | n.Resource? :: (n.id in nodes && nodes[n.id] == n) <==>
      n in grown && Visible(active, ends, n)
    ensures id in net.types
  {
    hide NodeFor, Placed;
    TypesAreKinds(plan, grown);
    assert nodes[id] in grown;
  }

  lemma ShownIsVisible(
      input: Input, adj: Graph, net: Network, all: seq<Node>, grown: seq<Node>, active: set<string>, ends: set<string>,
      joined: set<(string, string)>, edges: seq<Edge>, nodes: map<string, Node>)
    requires FromPlan(input.plan, grown) && Prepared(input.plan, adj, net, all, grown)
    requires NestedGraph(nodes)
    requires forall n: Node | n.Resource? :: (n.id in nodes && nodes[n.id] == n) <==>
      n in grown && Visible(active, ends, n)
    requires forall e | e in joined :: MayJoin(net, e.0, e.1)
    requires forall n :: n in active <==> (n in net.types && Drawn(net, n)) || exists t :: (n, t) in joined
    requires ends == (set e | e in joined :: e.0) + (set e | e in joined :: e.1)
    requires forall s, t :: (s, t) in joined <==> exists e :: e in edges && e.source == s && e.target == t
    ensures forall a :: a in nodes && nodes[a].Resource? <==> Shown(net, edges, a)
    ensures forall a | a in nodes && nodes[a].Resource? :: NodeFor(a, input.plan) == Some(nodes[a])
  {
    hide NodeFor, Placed, Drawn, MayJoin, ModuleOutput;
    TypesAreKinds(input.plan, grown);
    EndsOfEdges(ends, joined, edges);
    forall a ensures a in nodes && nodes[a].Resource? <==> Shown(net, edges, a) {
      if input.IsNode(a) {
        var n := NodeOf(input, a);
        assert n in grown <==> a in net.types;
        if n in grown {
          DrawnInTerms(input.plan, net, n);
          if a in ends {
            EndsAreNoModuleOutputs(input.plan, adj, net, all, grown, joined, n);
          }
          assert Visible(active, ends, n) <==> Shown(net, edges, a);
        }
      }
      if a in nodes && nodes[a].Resource? {
        assert nodes[a] in grown;
      }
    }
  }

  lemma EndsAreNoModuleOutputs(
      plan: Plan, adj: Graph, net: Network, all: seq<Node>, grown: seq<Node>, joined: set<(string, string)>, n: Node)
    requires FromPlan(plan, grown) && Prepared(plan, adj, net, all, grown)
    requires forall e | e in joined :: MayJoin(net, e.0, e.1)
    requires n in grown && n.Resource? && exists e :: e in joined && n.id in {e.0, e.1}
    ensures !ModuleOutput(n)
  {
    hide NodeFor, Placed;
    TypesAreKinds(plan, grown);
    var e :| e in joined && n.id in {e.0, e.1};
    TargetIsTyped(plan, adj, net, all, grown, e.0, e.1);
    assert net.Terminal(e.0);
  }

  lemma EndsOfEdges(ends: set<string>, joined: set<(string, string)>, edges: seq<Edge>)
    requires ends == (set e | e in joined :: e.0) + (set e | e in joined :: e.1)
    requires forall s, t :: (s, t) in joined <==> exists e :: e in edges && e.source == s && e.target == t
    ensures forall a :: a in ends <==> exists e :: e in edges && a in {e.source, e.target}
  {
    forall a ensures a in ends <==> exists e :: e in edges && a in {e.source, e.target} {
      if a in ends {
        var pair :| pair in joined && a in {pair.0, pair.1};
        assert (pair.0, pair.1) in joined;
      }
      if e :| e in edges && a in {e.source, e.target} {
        assert (e.source, e.target) in joined;
      }
    }
  }

  method NumberEdges(joined: set<(string, string)>) returns (edges: seq<Edge>)
    ensures forall i, j | 0 <= i < j < |edges| ::
      edges[i].id != edges[j].id && (edges[i].source, edges[i].target) != (edges[j].source, edges[j].target)
    ensures forall s, t :: (s, t) in joined <==> exists e :: e in edges && e.source == s && e.target == t
  {
    edges := [];
    var todo := joined;
    while todo != {}
      invariant todo <= joined
      invariant forall i | 0 <= i < |edges| ::
        edges[i].id == i + 1 && (edges[i].source, edges[i].target) in joined - todo
      invariant forall i, j | 0 <= i < j < |edges| ::
        (edges[i].source, edges[i].target) != (edges[j].source, edges[j].target)
      invariant forall s, t | (s, t) in joined - todo :: exists e :: e in edges && e.source == s && e.target == t
      decreases |todo|
    {
      var pair :| pair in todo;
      ghost var before := edges;
      var edge := Edge(|edges| + 1, pair.0, pair.1);
      todo := todo - {pair};
      edges := edges + [edge];
      forall s, t | (s, t) in joined - todo ensures exists e :: e in edges && e.source == s && e.target == t {
        if (s, t) == pair {
          assert edge in edges;
        } else {
          var e :| e in before && e.source == s && e.target == t;
          assert e in edges;
        }
      }
    }
  }
}
