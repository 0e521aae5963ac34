// A graph in which two module outputs depend on each other: the edges that are drawn depend on
// the order in which the nodes are visited.

module GraphCycles {
  import opened Wrappers
  import opened Strings
  import opened Reachability
  import opened BlockKinds
  import opened Resolver
  import opened ModuleTree
  import opened GraphNodes
  import opened GraphPhases
  import opened GraphSimplifier

  // -- Answers on a cycle ----------------------------------------------------------------------

  // Module outputs a and b depend on each other and a on the resource r; the resources t and u
  // depend on a and on b.
  ghost predicate Looped(net: Network, a: string, b: string, r: string, t: string, u: string) {
    && net.types.Keys == {a, b, r, t, u}
    && a !in {b, r, t, u} && b !in {r, t, u} && r !in {t, u} && t != u
    && net.ModuleOutput(a) && net.ModuleOutput(b)
    && !net.PassThrough(r) && !net.PassThrough(t) && !net.PassThrough(u)
    && Neighbours(net.deps, a) == [b, r] && Neighbours(net.deps, b) == [a]
    && Neighbours(net.deps, r) == []
    && Neighbours(net.deps, t) == [a] && Neighbours(net.deps, u) == [b]
  }

  lemma SortsToItself(x: string)
    ensures SortDedup([x]) == [x] && SortDedup([]) == []
  {
    assert [x][1..] == [];
  }

  lemma OnlyAnswer(net: Network, d: string, cache: Cache, stack: set<string>)
    ensures net.AnswerAll([d], cache, stack) == net.Answer(d, cache, stack)
  {
    assert [] + [d] == [d];
    net.OneMoreAnswer([], d, cache, stack);
    assert net.AnswerAll([], cache, stack) == ([], cache);
    assert [] + net.Answer(d, cache, stack).0 == net.Answer(d, cache, stack).0;
  }

  lemma ResourceLast(net: Network, d: string, r: string, cache: Cache, stack: set<string>)
    requires !net.PassThrough(r) && r !in stack && net.Answer(d, cache, stack).0 == []
    requires r !in net.Answer(d, cache, stack).1
    ensures net.AnswerAll([d, r], cache, stack) == ([r], net.Answer(d, cache, stack).1)
  {
    assert [d] + [r] == [d, r] && [] + [r] == [r];
    OnlyAnswer(net, d, cache, stack);
    net.OneMoreAnswer([d], r, cache, stack);
  }

  // Asked for b first: a is cut at b and still finds the resource.
  lemma AskedForB(net: Network, a: string, b: string, r: string, t: string, u: string)
    requires Looped(net, a, b, r, t, u)
    ensures net.Answer(b, map[], {}) == ([r], map[a := [r], b := [r]])
  {
    SortsToItself(r);
    var inner := {b, a};
    assert {} + {b} == {b} && {b} + {a} == inner;
    assert net.Answer(b, map[], inner) == ([], map[]);
    ResourceLast(net, b, r, map[], inner);
    assert net.Answer(a, map[], {b}) == ([r], map[a := [r]]);
    OnlyAnswer(net, a, map[], {b});
  }

  // Asked for a first: b is cut at a, and its empty answer is cached.
  lemma AskedForA(net: Network, a: string, b: string, r: string, t: string, u: string)
    requires Looped(net, a, b, r, t, u)
    ensures net.Answer(a, map[], {}) == ([r], map[b := [], a := [r]])
  {
    SortsToItself(r);
    var inner := {a, b};
    var cut: Cache := map[b := []];
    assert {} + {a} == {a} && {a} + {b} == inner;
    assert net.Answer(a, map[], inner) == ([], map[]);
    OnlyAnswer(net, a, map[], inner);
    assert net.Answer(b, map[], {a}) == ([], cut);
    ResourceLast(net, b, r, map[], {a});
    assert cut[a := [r]] == map[b := [], a := [r]];
  }

  // -- Edges in two orders ---------------------------------------------------------------------

  lemma NoneDrawn(net: Network, a: string, b: string, r: string, t: string, u: string)
    requires Looped(net, a, b, r, t, u)
    ensures Elements([a, b, r]) <= net.types.Keys
    ensures EdgesInOrder(net, [a, b, r]) == ({}, map[])
  {
    hide Network.Answer;
    assert [] + [a] == [a] && [a] + [b] == [a, b] && [a, b] + [r] == [a, b, r];
    OneMoreVisited(net, [], a);
    OneMoreVisited(net, [a], b);
    OneMoreVisited(net, [a, b], r);
    assert !Drawn(net, a) && !Drawn(net, b) && Drawn(net, r);
    assert net.AnswerAll([], map[], {}) == ([], map[]);
    assert (set s: string | s in [] && s != r) == {};
    assert SourcesFound(net, r, map[]) == ({}, map[]);
    assert EdgesInOrder(net, [a, b]) == ({}, map[]);
    assert EdgesInOrder(net, [a, b, r]).0 == {};
  }

  // Visiting the one resource that depends on d, then the one that depends on e.
  lemma TwoDrawn(
      net: Network, a: string, b: string, r: string, t: string, u: string,
      x: string, d: string, y: string, e: string)
    requires Looped(net, a, b, r, t, u)
    requires (x, d, y, e) in {(t, a, u, b), (u, b, t, a)}
    ensures Lists([a, b, r] + [x] + [y], net.types.Keys)
    ensures
      var (found, mid) := net.Answer(d, map[], {});
      var (more, after) := net.Answer(e, mid, {});
      EdgesInOrder(net, [a, b, r] + [x] + [y]).0 ==
        (set s | s in found && s != x :: (s, x)) + (set s | s in more && s != y :: (s, y))
  {
    hide Network.Answer, Network.AnswerAll, Lists;
    AllFive(net, a, b, r, t, u, x, y);
    NoneDrawn(net, a, b, r, t, u);
    var (found, mid) := net.Answer(d, map[], {});
    var (more, after) := net.Answer(e, mid, {});
    OneMoreVisited(net, [a, b, r], x);
    OnlyAnswer(net, d, map[], {});
    OneMoreVisited(net, [a, b, r] + [x], y);
    OnlyAnswer(net, e, mid, {});
  }

  lemma AllFive(
      net: Network, a: string, b: string, r: string, t: string, u: string, x: string, y: string)
    requires Looped(net, a, b, r, t, u) && (x, y) in {(t, u), (u, t)}
    ensures Lists([a, b, r] + [x] + [y], net.types.Keys)
    ensures Elements([a, b, r] + [x]) <= net.types.Keys
  {
    assert Elements([a, b, r] + [x] + [y]) == {a, b, r, x, y};
  }

  // Visiting t before u loses the edge into u.
  lemma EdgesDependOnTheOrder(net: Network, a: string, b: string, r: string, t: string, u: string)
    requires Looped(net, a, b, r, t, u)
    ensures Lists([a, b, r] + [t] + [u], net.types.Keys) && Lists([a, b, r] + [u] + [t], net.types.Keys)
    ensures EdgesInOrder(net, [a, b, r] + [t] + [u]).0 == {(r, t)}
    ensures EdgesInOrder(net, [a, b, r] + [u] + [t]).0 == {(r, t), (r, u)}
    ensures ShouldJoin(net, r, t) && ShouldJoin(net, r, u)
  {
    hide EdgesInOrder, Lists, ShouldJoin;
    OneAnswerEach(net, a, b, r, t, u);
    TwoDrawn(net, a, b, r, t, u, t, a, u, b);
    TwoDrawn(net, a, b, r, t, u, u, b, t, a);
    BothShouldJoin(net, a, b, r, t, u);
    assert (set s | s in [r] && s != t :: (s, t)) == {(r, t)};
    assert (set s | s in [r] && s != u :: (s, u)) == {(r, u)};
  }

  lemma OneAnswerEach(net: Network, a: string, b: string, r: string, t: string, u: string)
    requires Looped(net, a, b, r, t, u)
    ensures net.Answer(a, map[], {}).0 == [r] && net.Answer(b, net.Answer(a, map[], {}).1, {}).0 == []
    ensures net.Answer(b, map[], {}).0 == [r] && net.Answer(a, net.Answer(b, map[], {}).1, {}).0 == [r]
  {
    AskedForA(net, a, b, r, t, u);
    AskedForB(net, a, b, r, t, u);
  }

  lemma BothShouldJoin(net: Network, a: string, b: string, r: string, t: string, u: string)
    requires Looped(net, a, b, r, t, u)
    ensures ShouldJoin(net, r, t) && ShouldJoin(net, r, u)
  {
    TwoSorts(net.types[t]);
    TwoSorts(net.types[u]);
    net.LeadsHere(r);
    net.LeadsFurther(a, r, r);
    net.LeadsFurther(b, a, r);
    assert net.Source(a, r) && net.Source(b, r);
  }

  // -- A graph it arises from --------------------------------------------------------------------

  function OutputNamed(name: string): string { "module.m.output." + name }

  function ResourceNamed(name: string): string { "aws_x." + name }

  lemma OutputIsNode(name: string, plan: Plan)
    requires DotFree(name) && OutputNamed(name) !in plan.changed && OutputNamed(name) !in plan.inState
    ensures NodeFor(OutputNamed(name), plan) == Some(Resource(OutputNamed(name), Some("module.m"), Output))
  {
    hide OutputNamed, Hierarchy, Split, KeywordKind;
    OutputSplits(name);
    OutputHierarchy(name);
    OutputHasNoPrefix(name);
    OutputKeyword(name);
  }

  lemma JoinOne(p: string, q: string)
    ensures Join([p, q]) == p + DOT + q
  {
    assert [p, q][1..] == [q];
  }

  lemma JoinMore(p: string, parts: seq<string>)
    requires parts != []
    ensures Join([p] + parts) == p + DOT + Join(parts)
  {
    assert ([p] + parts)[1..] == parts;
  }

  lemma OutputSplits(name: string)
    requires DotFree(name)
    ensures OutputNamed(name) == Join(["module", "m", "output", name])
    ensures Split(OutputNamed(name)) == ["module", "m", "output", name]
  {
    hide Split;
    var parts := ["module", "m", "output", name];
    JoinOne("output", name);
    JoinMore("m", ["output", name]);
    JoinMore("module", ["m", "output", name]);
    hide Join;
    assert ["m"] + ["output", name] == ["m", "output", name];
    assert ["module"] + ["m", "output", name] == parts;
    assert Join(parts) == "module" + DOT + ("m" + DOT + ("output" + DOT + name)) == OutputNamed(name);
    SplitJoin(parts);
  }

  lemma OutputHierarchy(name: string)
    requires DotFree(name)
    ensures Hierarchy(OutputNamed(name)) == ["module.m"]
  {
    hide OutputNamed, Split, PartsOf;
    var parts := ["module", "m", "output", name];
    OutputSplits(name);
    PartsOfPath(parts, 4);
    assert parts[..4] == parts && parts[..2] == ["module", "m"];
    assert ModuleEnds(parts, 4) == [] && ModuleEnds(parts, 3) == [] && ModuleEnds(parts, 2) == [];
    assert ModuleEnds(parts, 0) == [2];
    assert ["module", "m"][1..] == ["m"] && Join(["module", "m"]) == "module.m";
  }

  lemma OutputKeyword(name: string)
    ensures KeywordKind(["module", "m", "output", name]) == Some(Output)
  {
    var parts := ["module", "m", "output", name];
    assert parts[1..] == ["m", "output", name] && parts[1..][1..] == ["output", name];
    assert "module"[0] == 'm' && "var"[0] == 'v' && "local"[0] == 'l' && "output"[0] == 'o' && "m"[0] == 'm';
    assert KeywordKind(["output", name]) == Some(Output);
    assert KeywordKind(["m", "output", name]) == Some(Output);
  }

  lemma OutputHasNoPrefix(name: string)
    ensures
      var address := OutputNamed(name);
      && !Noise(address) && address != "module.m"
      && !StartsWith(address, "var.") && !StartsWith(address, "local.") && !StartsWith(address, "output.")
  {
    var address := OutputNamed(name);
    assert address[0] == 'm' && address[1] == 'o' && |address| > 10;
    assert "provider["[0] == 'p' && "meta."[1] == 'e' && "root"[0] == 'r';
    assert "var."[0] == 'v' && "local."[0] == 'l' && "output."[0] == 'o';
  }

  lemma ResourceIsNode(name: string, plan: Plan)
    requires DotFree(name) && name !in {"var", "local", "output"}
    requires ResourceNamed(name) in plan.changed && !plan.changed[ResourceNamed(name)]
    ensures NodeFor(ResourceNamed(name), plan) == Some(Resource(ResourceNamed(name), None, Managed))
  {
    hide ResourceNamed, Hierarchy, Split, KeywordKind;
    ResourceSplits(name);
    ResourceHierarchy(name);
    ResourceHasNoPrefix(name);
    ResourceKeyword(name);
  }

  lemma ResourceSplits(name: string)
    requires DotFree(name)
    ensures ResourceNamed(name) == Join(["aws_x", name])
    ensures Split(ResourceNamed(name)) == ["aws_x", name]
  {
    hide Split;
    var parts := ["aws_x", name];
    assert parts[1..] == [name] && Join([name]) == name;
    assert Join(parts) == ResourceNamed(name);
    SplitJoin(parts);
  }

  lemma ResourceHierarchy(name: string)
    requires DotFree(name)
    ensures Hierarchy(ResourceNamed(name)) == []
  {
    hide ResourceNamed, Split, PartsOf;
    var parts := ["aws_x", name];
    ResourceSplits(name);
    PartsOfPath(parts, 2);
    assert parts[..2] == parts && "aws_x"[0] == 'a' && "module"[0] == 'm';
    assert ModuleEnds(parts, 2) == [] && ModuleEnds(parts, 1) == [] && ModuleEnds(parts, 0) == [];
  }

  lemma ResourceKeyword(name: string)
    requires name !in {"var", "local", "output"}
    ensures KeywordKind(["aws_x", name]) == None
  {
    var parts := ["aws_x", name];
    assert "aws_x"[0] == 'a' && "var"[0] == 'v' && "local"[0] == 'l' && "output"[0] == 'o';
    assert parts[1..] == [name] && [name][1..] == [] && KeywordKind([name]) == None;
  }

  lemma ResourceHasNoPrefix(name: string)
    ensures
      var address := ResourceNamed(name);
      && !Noise(address) && !StartsWith(address, "data.")
      && !StartsWith(address, "var.") && !StartsWith(address, "local.") && !StartsWith(address, "output.")
  {
    var address := ResourceNamed(name);
    assert address[0] == 'a';
    assert "provider["[0] == 'p' && "meta."[0] == 'm' && "root"[0] == 'r' && "data."[0] == 'd';
    assert "var."[0] == 'v' && "local."[0] == 'l' && "output."[0] == 'o';
  }

  ghost predicate Distinct(a: string, b: string, r: string, t: string, u: string) {
    a !in {b, r, t, u} && b !in {r, t, u} && r !in {t, u} && t != u
  }

  lemma NamesAreDistinct()
    ensures Distinct(
      OutputNamed("a"), OutputNamed("b"), ResourceNamed("r"), ResourceNamed("t"), ResourceNamed("u"))
  {
    var a, b := OutputNamed("a"), OutputNamed("b");
    var r, t, u := ResourceNamed("r"), ResourceNamed("t"), ResourceNamed("u");
    assert a[0] == b[0] == 'm' && r[0] == t[0] == u[0] == 'a';
    assert a[|a| - 1] == 'a' && b[|b| - 1] == 'b';
    assert r[|r| - 1] == 'r' && t[|t| - 1] == 't' && u[|u| - 1] == 'u';
  }

  function LoopPairs(a: string, b: string, r: string, t: string, u: string): set<(string, string)> {
    {(a, b), (a, r), (b, a), (t, a), (u, b)}
  }

  // No labels; the DOT ids are the addresses themselves.
  function LoopInput(a: string, b: string, r: string, t: string, u: string): Input {
    Input(
      Plan(map[r := false, t := false, u := false], {}, {}),
      [],
      [(a, b), (a, r), (b, a), (t, a), (u, b)],
      id => id,
      [])
  }

  function LoopNetwork(a: string, b: string, r: string, t: string, u: string): Network {
    Network(
      map[a := [b, r], b := [a], t := [a], u := [b]],
      map[a := Output, b := Output, r := Managed, t := Managed, u := Managed])
  }

  ghost predicate LoopNodes(a: string, b: string, r: string, t: string, u: string) {
    var input := LoopInput(a, b, r, t, u);
    && (forall n | n in {a, b} :: input.IsNode(n) && NodeFor(n, input.plan).value.kind == Output)
    && (forall n | n in {r, t, u} :: input.IsNode(n) && NodeFor(n, input.plan).value.kind == Managed)
  }

  lemma LoopEndpoints(a: string, b: string, r: string, t: string, u: string)
    ensures LoopInput(a, b, r, t, u).configDeps == []
    ensures Endpoints(LoopInput(a, b, r, t, u).rawEdges) == {a, b, r, t, u}
    ensures forall x, y :: (x, y) in LoopInput(a, b, r, t, u).rawEdges <==>
      (x, y) in LoopPairs(a, b, r, t, u)
  {
    var e := LoopInput(a, b, r, t, u).rawEdges;
    assert e[0] == (a, b) && e[1] == (a, r) && e[2] == (b, a) && e[3] == (t, a) && e[4] == (u, b);
  }

  lemma LoopAddresses(a: string, b: string, r: string, t: string, u: string)
    requires LoopNodes(a, b, r, t, u)
    ensures
      var input := LoopInput(a, b, r, t, u);
      && input.AddressOf().Keys == {a, b, r, t, u} && input.Created() == {a, b, r, t, u}
      && forall d | d in input.AddressOf() :: input.AddressOf()[d] == d
  {
    hide NodeFor;
    var input, nodes := LoopInput(a, b, r, t, u), {a, b, r, t, u};
    LoopEndpoints(a, b, r, t, u);
    hide Endpoints;
    assert forall n | n in nodes :: input.IsNode(n) && input.parseDotId(n) == n;
    hide Input.IsNode, LoopInput, LoopNodes;
    var implicit := input.Implicit(nodes);
    assert input.Labelled() == map[] && input.Labels(0) == {};
    assert implicit.Keys == nodes;
    assert forall n | n in nodes :: implicit[n] == n;
    assert implicit.Values == nodes;
  }

  // Where DOT ids are addresses, the adjacency holds just the raw edges.
  lemma RawAdjacency(input: Input, g: Graph, pairs: set<(string, string)>)
    requires forall d | d in input.AddressOf() :: input.AddressOf()[d] == d
    requires forall p | p in pairs :: p.0 in input.AddressOf() && p.1 in input.AddressOf() && p.0 != p.1
    requires forall x, y :: (x, y) in input.rawEdges <==> (x, y) in pairs
    requires forall x, y :: y in Neighbours(g, x) <==> (x, y) in pairs
    requires input.configDeps == []
    ensures AdjacencyOf(input, g, true) && DependenciesOf(input, g)
  {
    hide Neighbours, Input.AddressOf;
    forall x, y
      ensures EdgeBetween(input.rawEdges, input.AddressOf(), x, y) <==> (x, y) in pairs
    {
      if (x, y) in pairs {
        assert Joins((x, y), input.AddressOf(), x, y);
      }
    }
  }

  lemma PairsAreProper(a: string, b: string, r: string, t: string, u: string)
    requires Distinct(a, b, r, t, u)
    ensures forall p | p in LoopPairs(a, b, r, t, u) ::
      p.0 in {a, b, r, t, u} && p.1 in {a, b, r, t, u} && p.0 != p.1
  {}

  lemma LoopEdges(a: string, b: string, r: string, t: string, u: string)
    requires LoopNodes(a, b, r, t, u) && Distinct(a, b, r, t, u)
    ensures AdjacencyOf(LoopInput(a, b, r, t, u), LoopNetwork(a, b, r, t, u).deps, true)
    ensures DependenciesOf(LoopInput(a, b, r, t, u), LoopNetwork(a, b, r, t, u).deps)
  {
    hide LoopNodes, LoopInput, LoopNetwork, AdjacencyOf, DependenciesOf, Neighbours, Input.AddressOf;
    LoopAddresses(a, b, r, t, u);
    LoopEndpoints(a, b, r, t, u);
    LoopNeighbours(a, b, r, t, u);
    PairsAreProper(a, b, r, t, u);
    var pairs := LoopPairs(a, b, r, t, u);
    hide LoopPairs, Distinct;
    RawAdjacency(LoopInput(a, b, r, t, u), LoopNetwork(a, b, r, t, u).deps, pairs);
  }

  lemma LoopNeighbours(a: string, b: string, r: string, t: string, u: string)
    requires Distinct(a, b, r, t, u)
    ensures forall x, y :: y in Neighbours(LoopNetwork(a, b, r, t, u).deps, x) <==>
      (x, y) in LoopPairs(a, b, r, t, u)
  {}

  lemma UnprunedNetwork(input: Input, net: Network)
    requires AdjacencyOf(input, net.deps, true) && DependenciesOf(input, net.deps)
    requires net.types.Keys == input.Created()
    requires forall n | n in net.types ::
      input.IsNode(n) && NodeOf(input, n).kind == net.types[n] && net.types[n] !in {Var, Local}
    ensures NetworkOf(input, net.deps, net)
  {
    hide AdjacencyOf, DependenciesOf, NodeFor, NodeOf, Input.Created;
  }

  lemma LoopArises(a: string, b: string, r: string, t: string, u: string)
    requires LoopNodes(a, b, r, t, u) && Distinct(a, b, r, t, u)
    ensures NetworkOf(LoopInput(a, b, r, t, u), LoopNetwork(a, b, r, t, u).deps, LoopNetwork(a, b, r, t, u))
  {
    hide NodeFor, AdjacencyOf, DependenciesOf, Input.Created, NetworkOf, Input.AddressOf;
    LoopAddresses(a, b, r, t, u);
    LoopEdges(a, b, r, t, u);
    UnprunedNetwork(LoopInput(a, b, r, t, u), LoopNetwork(a, b, r, t, u));
  }

  lemma LoopIsLooped(a: string, b: string, r: string, t: string, u: string)
    requires Distinct(a, b, r, t, u) && !StartsWith(a, "output.") && !StartsWith(b, "output.")
    ensures Looped(LoopNetwork(a, b, r, t, u), a, b, r, t, u)
  {}

  lemma OrderMattersIn(a: string, b: string, r: string, t: string, u: string)
    requires LoopNodes(a, b, r, t, u) && Distinct(a, b, r, t, u)
    requires !StartsWith(a, "output.") && !StartsWith(b, "output.")
    ensures
      var input, net := LoopInput(a, b, r, t, u), LoopNetwork(a, b, r, t, u);
      && NetworkOf(input, net.deps, net)
      && OrderMatters(net, [a, b, r] + [t] + [u], [a, b, r] + [u] + [t])
  {
    hide LoopNodes, NetworkOf, EdgesInOrder, ShouldJoin, LoopInput, LoopNetwork, Lists;
    LoopArises(a, b, r, t, u);
    LoopIsLooped(a, b, r, t, u);
    EdgesDependOnTheOrder(LoopNetwork(a, b, r, t, u), a, b, r, t, u);
    assert (r, u) !in {(r, t)};
  }

  // Two orders of visiting the nodes: the one misses edges that the other draws rightly.
  ghost predicate OrderMatters(net: Network, x: seq<string>, y: seq<string>) {
    && Lists(x, net.types.Keys) && Lists(y, net.types.Keys)
    && EdgesInOrder(net, x).0 < EdgesInOrder(net, y).0
    && forall e | e in EdgesInOrder(net, y).0 :: ShouldJoin(net, e.0, e.1)
  }

  // There is a plan and a graph for which the drawing depends on the order.
  lemma CyclesDependOnTheOrder()
    ensures exists input: Input, net: Network, x: seq<string>, y: seq<string> ::
      NetworkOf(input, net.deps, net) && OrderMatters(net, x, y)
  {
    hide NodeFor, NetworkOf, OutputNamed, ResourceNamed, OrderMatters;
    var a, b := OutputNamed("a"), OutputNamed("b");
    var r, t, u := ResourceNamed("r"), ResourceNamed("t"), ResourceNamed("u");
    NamesAreDistinct();
    LoopHasNodes();
    OutputHasNoPrefix("a");
    OutputHasNoPrefix("b");
    OrderMattersIn(a, b, r, t, u);
    var input, net := LoopInput(a, b, r, t, u), LoopNetwork(a, b, r, t, u);
    assert NetworkOf(input, net.deps, net) && OrderMatters(net, [a, b, r] + [t] + [u], [a, b, r] + [u] + [t]);
  }

  lemma LoopHasNodes()
    ensures LoopNodes(OutputNamed("a"), OutputNamed("b"), ResourceNamed("r"), ResourceNamed("t"), ResourceNamed("u"))
  {
    hide NodeFor, OutputNamed, ResourceNamed;
    NamesAreDistinct();
    var input :=
      LoopInput(OutputNamed("a"), OutputNamed("b"), ResourceNamed("r"), ResourceNamed("t"), ResourceNamed("u"));
    OutputIsNode("a", input.plan);
    OutputIsNode("b", input.plan);
    ResourceIsNode("r", input.plan);
    ResourceIsNode("t", input.plan);
    ResourceIsNode("u", input.plan);
  }
}
