// A dependency that only the configuration names can be drawn from an address that is no node.

module GraphConfig {
  import opened Wrappers
  import opened Strings
  import opened Reachability
  import opened BlockKinds
  import opened Resolver
  import opened ModuleTree
  import opened GraphNodes
  import opened GraphPhases
  import opened GraphSimplifier
  import opened GraphCycles

  const TARGET := "output.x"

  // A root output whose configured value refers to a resource that the plan does not evaluate.
  function ConfigInput(): Input {
    Input(Plan(map[], {}, {}), [("o", TARGET)], [], id => id, [(TARGET, ResourceNamed("r"))])
  }

  lemma TargetSplits()
    ensures TARGET == Join(["output", "x"]) && AllDotFree(["output", "x"])
    ensures Split(TARGET) == ["output", "x"]
  {
    hide Split;
    var parts := ["output", "x"];
    assert parts[1..] == ["x"] && Join(["x"]) == "x";
    SplitJoin(parts);
  }

  lemma TargetIsNode()
    ensures NodeFor(TARGET, ConfigInput().plan) == Some(Resource(TARGET, Some(ROOT_OUTPUTS), Output))
  {
    hide Hierarchy, Split, DetermineKind;
    TargetIsNoModule();
    RootOutputKind(TARGET, false);
    assert TARGET[0] == 'o' && "provider["[0] == 'p' && "meta."[0] == 'm' && "root"[0] == 'r';
  }

  lemma TargetIsNoModule()
    ensures Hierarchy(TARGET) == []
  {
    hide Split, PartsOf, Join;
    var parts := ["output", "x"];
    TargetSplits();
    PartsOfPath(parts, 2);
    assert parts[..2] == parts && "output"[0] == 'o' && "module"[0] == 'm';
    assert ModuleEnds(parts, 2) == [] && ModuleEnds(parts, 1) == [] && ModuleEnds(parts, 0) == [];
  }

  lemma ResourceKind()
    ensures DetermineKind(ResourceNamed("r"), false) == Managed
    ensures ResourceNamed("r") != TARGET
  {
    hide ResourceNamed, Split, KeywordKind;
    ResourceSplits("r");
    ResourceKeyword("r");
    ResourceHasNoPrefix("r");
    assert StartsWith(TARGET, "output.");
  }

  lemma ReservedIsUnused()
    ensures ReservedUnused(ConfigInput().plan)
  {
    WordIsUnused(ROOT_VARIABLES);
    WordIsUnused(ROOT_OUTPUTS);
  }

  lemma WordIsUnused(word: string)
    requires word in {ROOT_VARIABLES, ROOT_OUTPUTS}
    ensures NodeFor(word, ConfigInput().plan) == None
  {
    assert DotFree(word) && word[0] == 'r';
    hide Split, KeywordKind, Hierarchy;
    WordIsManaged(word);
    assert "output."[0] == 'o';
  }

  lemma WordIsManaged(word: string)
    requires DotFree(word) && word != "" && word[0] == 'r'
    ensures DetermineKind(word, false) == Managed
  {
    hide Split;
    SplitOne(word);
    assert "var"[0] == 'v' && "local"[0] == 'l' && "output"[0] == 'o';
    assert "var."[0] == 'v' && "local."[0] == 'l' && "output."[0] == 'o' && "data."[0] == 'd';
    assert [word][1..] == [] && KeywordKind([word]) == None;
  }

  lemma OnlyTargetIsTyped(adj: Graph, net: Network)
    requires NetworkOf(ConfigInput(), adj, net)
    ensures net.types == map[TARGET := Output]
    ensures forall u, v :: v in Neighbours(net.deps, u) <==> (u, v) == (TARGET, ResourceNamed("r"))
  {
    hide ResourceNamed, NodeFor;
    var input := ConfigInput();
    TargetIsNode();
    assert input.Labels(0) == {} && input.Labels(1) == {TARGET};
    assert Endpoints(input.rawEdges) == {};
    assert input.Created() == {TARGET};
    assert forall a :: a in net.types <==> a == TARGET;
    assert input.configDeps == [(TARGET, ResourceNamed("r"))];
  }

  lemma SourceIsDue(adj: Graph, net: Network)
    requires NetworkOf(ConfigInput(), adj, net)
    ensures Clear(net, TARGET) && ShouldJoin(net, ResourceNamed("r"), TARGET)
    ensures ResourceNamed("r") !in net.types
  {
    hide NetworkOf, ResourceNamed;
    var r := ResourceNamed("r");
    OnlyTargetIsTyped(adj, net);
    ResourceKind();
    assert !net.PassThrough(r);
    net.LeadsHere(r);
    assert net.Source(r, r);
    forall x | net.LeadsTo(r, x) ensures !net.Returns(x) {
      var d := net.LeadsCases(r, x);
    }
    assert net.Settled(r);
  }

  method ConfiguredSourceIsMissing() returns (nodes: map<string, Node>, edges: seq<Edge>)
    ensures exists e :: e in edges && e.target == TARGET && e.source == ResourceNamed("r")
    ensures !(ResourceNamed("r") in nodes && nodes[ResourceNamed("r")].Resource?)
  {
    hide NetworkOf, ResourceNamed, ConfigInput, ShouldJoin, Clear, NestedGraph, MayJoin, GoodEnd;
    ghost var adj, net;
    nodes, edges, adj, net := ProcessGraph(ConfigInput());
    SourceIsDue(adj, net);
    ReservedIsUnused();
  }
}
