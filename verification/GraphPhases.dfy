// The phases of `process_graph` before edges are built: adjacency, the reachability prune,
// and the two root groups.

module GraphPhases {
  import opened Wrappers
  import opened Strings
  import opened Reachability
  import opened BlockKinds
  import opened ModuleTree
  import opened GraphNodes
  import opened GroupPruning

  // -- Nodes -------------------------------------------------------------------------------

  // Raw DOT edges between dot ids.
  type RawEdges = seq<(string, string)>

  function Endpoints(rawEdges: RawEdges): set<string> {
    (set e | e in rawEdges :: e.0) + (set e | e in rawEdges :: e.1)
  }

  // The parsed plan and DOT file: labelled nodes (dot id, address), edges between dot ids, and
  // the address an unlabelled dot id stands for. `configDeps` are the dependencies of outputs
  // that the plan's configuration adds, as pairs of dependent and target address.
  datatype Input = Input(
    plan: Plan,
    rawNodes: seq<(string, string)>,
    rawEdges: RawEdges,
    parseDotId: string -> string,
    configDeps: seq<(string, string)>)
  {
    predicate IsNode(address: string) { NodeFor(address, plan).Some? }

    // Labelled dot ids; the last label of an id wins.
    function Explicit(n: nat): map<string, string>
      requires n <= |rawNodes|
    {
      if n == 0 then map[]
      else
        var (dotId, address) := rawNodes[n - 1];
        if IsNode(address) then Explicit(n - 1)[dotId := address] else Explicit(n - 1)
    }

    // The addresses of the first n labels that are nodes.
    function Labels(n: nat): set<string>
      requires n <= |rawNodes|
    {
      if n == 0 then {}
      else Labels(n - 1) + (if IsNode(rawNodes[n - 1].1) then {rawNodes[n - 1].1} else {})
    }

    function Labelled(): map<string, string> { Explicit(|rawNodes|) }

    // The dot ids among `done` that have no label and still stand for nodes.
    function Implicit(done: set<string>): map<string, string> {
      map d | d in done && d !in Labelled() && IsNode(parseDotId(d)) :: parseDotId(d)
    }

    // `dot_node_to_address`
    function AddressOf(): map<string, string> { Labelled() + Implicit(Endpoints(rawEdges)) }

    // The addresses that become resource nodes.
    function Created(): set<string> { Labels(|rawNodes|) + Implicit(Endpoints(rawEdges)).Values }
  }

  // The resources of a node list are those of the given addresses.
  ghost predicate ResourcesAre(plan: Plan, nodes: seq<Node>, addresses: set<string>) {
    forall n: Node | n.Resource? :: n in nodes <==> n.id in addresses && NodeFor(n.id, plan) == Some(n)
  }

  lemma ResourcesGrow(plan: Plan, before: seq<Node>, after: seq<Node>, address: string, addresses: set<string>)
    requires ResourcesAre(plan, before, addresses)
    requires Grown(before, after, NodeFor(address, plan))
    requires NodeFor(address, plan).Some? ==> NodeFor(address, plan).value in after
    ensures ResourcesAre(plan, after, if NodeFor(address, plan).Some? then addresses + {address} else addresses)
  {
    if NodeFor(address, plan).Some? {
      NodeForHasId(address, plan);
    }
    hide NodeFor;
    forall n | n in before ensures n in after {}
  }

  lemma NodeForHasId(id: string, plan: Plan)
    requires NodeFor(id, plan).Some?
    ensures NodeFor(id, plan).value.Resource? && NodeFor(id, plan).value.id == id
  {
    hide Hierarchy;
  }

  // Labelled nodes first, then the endpoints of edges that are still unknown.
  method BuildNodes(table: NodeTable, input: Input) returns (addressOf: map<string, string>)
    requires table.Valid() && table.nodes == [] && table.plan == input.plan
    modifies table
    ensures table.Valid()
    ensures ResourcesAre(input.plan, table.nodes, input.Created())
    ensures addressOf == input.AddressOf()
  {
    hide NodeFor, Table;
    addressOf := AddLabelled(table, input);
    assert input.Implicit({}) == map[];
    addressOf := AddUnlabelled(table, input, addressOf);
  }

  method AddLabelled(table: NodeTable, input: Input) returns (addressOf: map<string, string>)
    requires table.Valid() && table.nodes == [] && table.plan == input.plan
    modifies table
    ensures table.Valid()
    ensures ResourcesAre(input.plan, table.nodes, input.Labels(|input.rawNodes|))
    ensures addressOf == input.Labelled()
  {
    hide NodeFor, Table;
    addressOf := map[];
    for i := 0 to |input.rawNodes|
      invariant table.Valid() && addressOf == input.Explicit(i)
      invariant ResourcesAre(input.plan, table.nodes, input.Labels(i))
    {
      var (dotId, address) := input.rawNodes[i];
      ghost var before := table.nodes;
      var added := table.Add(address);
      ResourcesGrow(input.plan, before, table.nodes, address, input.Labels(i));
      if added {
        addressOf := addressOf[dotId := address];
      }
    }
  }

  // What adding the endpoints in `done` has led to.
  ghost predicate EndpointsAdded(table: NodeTable, input: Input, done: set<string>, addressOf: map<string, string>)
    reads table
  {
    && table.Valid() && table.plan == input.plan
    && addressOf == input.Labelled() + input.Implicit(done)
    && ResourcesAre(input.plan, table.nodes, input.Labels(|input.rawNodes|) + input.Implicit(done).Values)
  }

  // The endpoints come from a hash set, so they are visited in any order.
  method AddUnlabelled(table: NodeTable, input: Input, labelled: map<string, string>)
    returns (addressOf: map<string, string>)
    requires EndpointsAdded(table, input, {}, labelled)
    modifies table
    ensures EndpointsAdded(table, input, Endpoints(input.rawEdges), addressOf)
  {
    hide EndpointsAdded;
    addressOf := labelled;
    ghost var done: set<string> := {};
    var todo := Endpoints(input.rawEdges);
    while todo != {}
      invariant done !! todo && done + todo == Endpoints(input.rawEdges)
      invariant EndpointsAdded(table, input, done, addressOf)
      decreases |todo|
    {
      var dotId :| dotId in todo;
      todo := todo - {dotId};
      addressOf := AddEndpoint(table, input, done, addressOf, dotId);
      done := done + {dotId};
    }
    assert done == Endpoints(input.rawEdges);
  }

  method AddEndpoint(table: NodeTable, input: Input, ghost done: set<string>, addressOf: map<string, string>,
      dotId: string)
    returns (addressOf': map<string, string>)
    requires EndpointsAdded(table, input, done, addressOf) && dotId !in done
    modifies table
    ensures EndpointsAdded(table, input, done + {dotId}, addressOf')
  {
    hide NodeFor, Table, Input.Labels, Input.Explicit;
    OneMoreEndpoint(input, done, dotId);
    addressOf' := addressOf;
    if dotId !in addressOf {
      ghost var before := table.nodes;
      ghost var addresses := input.Labels(|input.rawNodes|) + input.Implicit(done).Values;
      var address := input.parseDotId(dotId);
      var added := table.Add(address);
      ResourcesGrow(input.plan, before, table.nodes, address, addresses);
      if added {
        addressOf' := addressOf[dotId := address];
        assert addresses + {address} == input.Labels(|input.rawNodes|) + input.Implicit(done + {dotId}).Values;
      }
    }
  }

  lemma OneMoreEndpoint(input: Input, done: set<string>, dotId: string)
    requires dotId !in done
    ensures
      var address := input.parseDotId(dotId);
      var next := input.Implicit(done + {dotId});
      if dotId !in input.Labelled() && input.IsNode(address)
      then next == input.Implicit(done)[dotId := address] && next.Values == input.Implicit(done).Values + {address}
      else next == input.Implicit(done)
  {
    hide NodeFor;
    var m := input.Implicit(done);
    var address := input.parseDotId(dotId);
    if dotId !in input.Labelled() && input.IsNode(address) {
      var next := m[dotId := address];
      assert input.Implicit(done + {dotId}) == next;
      forall a ensures a in next.Values <==> a in m.Values + {address} {
        if a in m.Values {
          var d :| d in m && m[d] == a;
          assert next[d] == a;
        }
        assert next[dotId] == address;
      }
    }
  }

  // -- Adjacency ---------------------------------------------------------------------------

  ghost predicate EdgeBetween(rawEdges: RawEdges, addressOf: map<string, string>, u: string, v: string) {
    exists e :: e in rawEdges && Joins(e, addressOf, u, v)
  }

  ghost predicate Joins(e: (string, string), addressOf: map<string, string>, u: string, v: string) {
    e.0 in addressOf && e.1 in addressOf && addressOf[e.0] == u && addressOf[e.1] == v
  }

  // `adj.entry(u).or_default().push(v)`
  function PushEdge(g: Graph, u: string, v: string): Graph {
    g[u := Neighbours(g, u) + [v]]
  }

  // The edges between known addresses; the dependency map drops self-loops.
  method Adjacency(rawEdges: RawEdges, addressOf: map<string, string>, keepLoops: bool) returns (g: Graph)
    ensures forall u, v :: v in Neighbours(g, u) <==> EdgeBetween(rawEdges, addressOf, u, v) && (keepLoops || u != v)
    ensures forall u | u in g :: g[u] != []
  {
    g := map[];
    for i := 0 to |rawEdges|
      invariant forall u, v :: v in Neighbours(g, u) <==>
        EdgeBetween(rawEdges[..i], addressOf, u, v) && (keepLoops || u != v)
      invariant forall u | u in g :: g[u] != []
    {
      ghost var before := g;
      var (s, t) := rawEdges[i];
      if s in addressOf && t in addressOf && (keepLoops || addressOf[s] != addressOf[t]) {
        g := PushEdge(g, addressOf[s], addressOf[t]);
      }
      forall u, v
        ensures v in Neighbours(g, u) <==> EdgeBetween(rawEdges[..i + 1], addressOf, u, v) && (keepLoops || u != v)
      {
        OneMoreEdge(rawEdges, i, addressOf, u, v);
        assert v in Neighbours(before, u) <==> EdgeBetween(rawEdges[..i], addressOf, u, v) && (keepLoops || u != v);
      }
    }
    assert rawEdges[..|rawEdges|] == rawEdges;
  }

  // The configured dependencies come on top of those of the graph.
  method AugmentDeps(deps: Graph, pairs: seq<(string, string)>) returns (g: Graph)
    ensures forall u, v :: v in Neighbours(g, u) <==> v in Neighbours(deps, u) || (u, v) in pairs
  {
    g := deps;
    for i := 0 to |pairs|
      invariant forall u, v :: v in Neighbours(g, u) <==> v in Neighbours(deps, u) || (u, v) in pairs[..i]
    {
      ghost var before := g;
      var (dependent, target) := pairs[i];
      g := PushEdge(g, dependent, target);
      assert pairs[..i + 1] == pairs[..i] + [pairs[i]];
      forall u, v ensures v in Neighbours(g, u) <==> v in Neighbours(before, u) || (u, v) == pairs[i] {}
    }
    assert pairs[..|pairs|] == pairs;
  }

  lemma OneMoreEdge(rawEdges: RawEdges, i: nat, addressOf: map<string, string>, u: string, v: string)
    requires i < |rawEdges|
    ensures EdgeBetween(rawEdges[..i + 1], addressOf, u, v)
      <==> EdgeBetween(rawEdges[..i], addressOf, u, v) || Joins(rawEdges[i], addressOf, u, v)
  {
    assert rawEdges[..i + 1] == rawEdges[..i] + [rawEdges[i]];
    assert forall e :: e in rawEdges[..i + 1] <==> e in rawEdges[..i] || e == rawEdges[i];
  }

  // -- Reachability prune --------------------------------------------------------------------

  // Active resources, data sources and root outputs.
  predicate IsSeed(n: Node) {
    && n.Resource?
    && n.kind != Var
    && n.kind != Local
    && (n.kind != Output || StartsWith(n.id, "output."))
  }

  function Seeds(nodes: seq<Node>): (seeds: seq<string>)
    ensures forall id :: id in seeds <==> exists n :: n in nodes && IsSeed(n) && n.id == id
  {
    if nodes == [] then []
    else
      assert nodes == [nodes[0]] + nodes[1..];
      (if IsSeed(nodes[0]) then [nodes[0].id] else []) + Seeds(nodes[1..])
  }

  // Exactly the variables and locals no seed depends on are dropped, and whatever a reached
  // node depends on is kept with it.
  method RetainReached(adj: Graph, nodes: seq<Node>) returns (kept: seq<Node>)
    ensures forall n :: n in kept <==>
      n in nodes && (n.Resource? && n.kind in {Var, Local} ==> ReachedFromSome(adj, Seeds(nodes), n.id))
    ensures forall n, m |
      && n in nodes && ReachedFromSome(adj, Seeds(nodes), n.id)
      && m in nodes && m.id in Neighbours(adj, n.id)
      :: m in kept
  {
    var visited := Visit(adj, Seeds(nodes));
    kept := Retain(nodes, (n: Node) => n.Resource? && n.kind in {Var, Local, Data} ==> n.id in visited);
    forall n | n in nodes && n.Resource? && n.kind == Data ensures n.id in visited {
      ReachesSelf(adj, n.id);
      assert IsSeed(n) && n.id in Seeds(nodes);
    }
    forall n, m | n in nodes && ReachedFromSome(adj, Seeds(nodes), n.id) && m in nodes && m.id in Neighbours(adj, n.id)
      ensures m in kept
    {
      var a :| a in Seeds(nodes) && Reaches(adj, a, n.id);
      ReachesStep(adj, a, n.id, m.id);
      assert ReachedFromSome(adj, Seeds(nodes), m.id);
    }
  }

  // -- Root groups -----------------------------------------------------------------------------

  predicate HasChild(nodes: seq<Node>, group: string) {
    exists n | n in nodes :: n.Resource? && n.parentId == Some(group)
  }

  ghost predicate GrownByRoots(nodes: seq<Node>, grown: seq<Node>) {
    forall n :: n in grown <==>
      || n in nodes
      || (n == Group(ROOT_VARIABLES, None) && HasChild(nodes, ROOT_VARIABLES))
      || (n == Group(ROOT_OUTPUTS, None) && HasChild(nodes, ROOT_OUTPUTS))
  }

  method AddRootGroups(nodes: seq<Node>) returns (grown: seq<Node>)
    ensures GrownByRoots(nodes, grown)
  {
    grown := nodes;
    if HasChild(nodes, ROOT_VARIABLES) {
      grown := grown + [Group(ROOT_VARIABLES, None)];
    }
    if HasChild(nodes, ROOT_OUTPUTS) {
      grown := grown + [Group(ROOT_OUTPUTS, None)];
    }
  }
}
