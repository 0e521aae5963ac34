// What the tests and tables of the graph simplifier amount to, in terms of addresses, their parts
// and the plan.

module GraphMeaning {
  import opened Wrappers
  import opened Strings
  import opened Reachability
  import opened BlockKinds
  import opened Resolver
  import opened ModuleTree
  import opened GraphNodes
  import opened GraphPhases
  import opened GraphSimplifier

  // -- Kinds -----------------------------------------------------------------------------------

  ghost predicate Keyword(part: string) { part in {"var", "local", "output"} }

  ghost predicate FirstKeyword(parts: seq<string>, i: nat) {
    i < |parts| && Keyword(parts[i]) && forall j | 0 <= j < i :: !Keyword(parts[j])
  }

  lemma {:induction false} KeywordKindIsFirst(parts: seq<string>)
    ensures forall i: nat | FirstKeyword(parts, i) ::
      && KeywordKind(parts).Some?
      && (KeywordKind(parts).value == Var <==> parts[i] == "var")
      && (KeywordKind(parts).value == Local <==> parts[i] == "local")
      && (KeywordKind(parts).value == Output <==> parts[i] == "output")
    ensures (forall i | 0 <= i < |parts| :: !Keyword(parts[i])) ==> KeywordKind(parts) == None
  {
    KeywordsDiffer();
    if parts != [] && !Keyword(parts[0]) {
      KeywordKindIsFirst(parts[1..]);
      forall i: nat | FirstKeyword(parts, i) ensures FirstKeyword(parts[1..], i - 1) && parts[1..][i - 1] == parts[i] {
        forall j | 0 <= j < i - 1 ensures !Keyword(parts[1..][j]) {
          assert !Keyword(parts[j + 1]);
        }
      }
      forall i | 0 <= i < |parts[1..]| && Keyword(parts[1..][i]) ensures Keyword(parts[i + 1]) {}
    }
  }

  lemma KeywordsDiffer()
    ensures "var" != "local" && "var" != "output" && "local" != "output"
  {
    assert "var"[0] == 'v' && "local"[0] == 'l' && "output"[0] == 'o';
  }

  // A prefix that ends in a dot is the first part.
  lemma PrefixIsFirstPart(word: string, address: string)
    requires DotFree(word) && StartsWith(address, word + DOT)
    ensures Split(address)[0] == word
  {
    assert address == word + DOT + address[|word| + 1..];
    SplitAtDot(word, address[|word| + 1..]);
  }

  // The kind of an address is named by the first of its parts that is a keyword; without one it is
  // a data source if the plan says so, if its third part from the end says so, or by its prefix,
  // and a resource otherwise.
  lemma KindIsNamedByParts(address: string, isData: bool)
    ensures
      var parts, kind := Split(address), DetermineKind(address, isData);
      && (forall i: nat | FirstKeyword(parts, i) ::
            && (kind == Var <==> parts[i] == "var")
            && (kind == Local <==> parts[i] == "local")
            && (kind == Output <==> parts[i] == "output"))
      && ((forall i | 0 <= i < |parts| :: !Keyword(parts[i])) ==>
            kind ==
              if isData || (|parts| >= 3 && parts[|parts| - 3] == "data") || StartsWith(address, "data.")
              then Data
              else Managed)
  {
    hide Split, KeywordKind;
    KeywordsDiffer();
    var parts := Split(address);
    KeywordKindIsFirst(parts);
    assert "var" + DOT == "var." && "local" + DOT == "local." && "output" + DOT == "output.";
    forall word | word in {"var", "local", "output"} && StartsWith(address, word + DOT)
      ensures parts[0] == word && FirstKeyword(parts, 0)
    {
      PrefixIsFirstPart(word, address);
    }
  }

  // -- Nodes -------------------------------------------------------------------------------------

  // Which addresses are nodes.
  lemma NodesAre(address: string, plan: Plan)
    ensures
      var kind := DetermineKind(address, false);
      NodeFor(address, plan).Some? <==>
        && address != "root" && !StartsWith(address, "provider[") && !StartsWith(address, "meta.")
        && ParentModule(address) != Some(address)
        && (|| address in plan.changed
            || address in plan.inState
            || kind in {Var, Local, Output}
            || (kind == Data && address in plan.active))
  {
    hide Hierarchy, DetermineKind;
    if StartsWith(address, "output.") {
      RootOutputKind(address, false);
    }
    TwoSorts(DetermineKind(address, false));
  }

  // Their kind, and the group they belong to.
  lemma NodesHave(address: string, plan: Plan)
    requires NodeFor(address, plan).Some?
    ensures
      var n := NodeFor(address, plan).value;
      && n.Resource? && n.id == address
      && n.kind == DetermineKind(address, address in plan.changed && plan.changed[address])
      && (ParentModule(address).Some? ==> n.parentId == ParentModule(address))
      && (ParentModule(address).None? ==>
            n.parentId ==
              if n.kind == Var then Some("root_variables")
              else if n.kind == Output then Some("root_outputs")
              else None)
  {
    hide Hierarchy, Split, KeywordKind;
  }

  // -- Labels --------------------------------------------------------------------------------------

  // The last label of a DOT id that is a node.
  ghost predicate LastLabel(input: Input, n: nat, dotId: string, i: nat)
    requires n <= |input.rawNodes|
  {
    && i < n && input.rawNodes[i].0 == dotId && input.IsNode(input.rawNodes[i].1)
    && forall k | i < k < n :: input.rawNodes[k].0 == dotId ==> !input.IsNode(input.rawNodes[k].1)
  }

  ghost predicate IsLabelled(input: Input, n: nat, dotId: string)
    requires n <= |input.rawNodes|
  {
    exists i: nat :: i < n && input.rawNodes[i].0 == dotId && input.IsNode(input.rawNodes[i].1)
  }

  lemma {:induction false} ExplicitIsLastLabel(input: Input, n: nat, dotId: string)
    requires n <= |input.rawNodes|
    ensures dotId in input.Explicit(n) <==> IsLabelled(input, n, dotId)
    ensures forall i: nat | LastLabel(input, n, dotId, i) ::
      dotId in input.Explicit(n) && input.Explicit(n)[dotId] == input.rawNodes[i].1
  {
    hide Input.IsNode;
    if n > 0 {
      ExplicitIsLastLabel(input, n - 1, dotId);
      forall i: nat | LastLabel(input, n, dotId, i) && i < n - 1 ensures LastLabel(input, n - 1, dotId, i) {}
      if IsLabelled(input, n - 1, dotId) {
        assert IsLabelled(input, n, dotId);
      }
    }
  }

  // The address a DOT id stands for: its last label that is a node, else its parse.
  lemma AddressesAre(input: Input, dotId: string)
    ensures
      var n := |input.rawNodes|;
      && (forall i: nat | LastLabel(input, n, dotId, i) ::
            dotId in input.AddressOf() && input.AddressOf()[dotId] == input.rawNodes[i].1)
      && (!IsLabelled(input, n, dotId) ==>
            && (dotId in input.AddressOf() <==>
                  (exists e :: e in input.rawEdges && dotId in {e.0, e.1}) && input.IsNode(input.parseDotId(dotId)))
            && (dotId in input.AddressOf() ==> input.AddressOf()[dotId] == input.parseDotId(dotId)))
  {
    hide Input.IsNode;
    ExplicitIsLastLabel(input, |input.rawNodes|, dotId);
    assert dotId in Endpoints(input.rawEdges) <==> exists e :: e in input.rawEdges && dotId in {e.0, e.1} by {
      if e :| e in input.rawEdges && dotId in {e.0, e.1} {}
    }
  }

  // The addresses that become resources: every label that is a node, and the parse of every
  // unlabelled end of an edge.
  lemma CreatedAre(input: Input, a: string)
    ensures a in input.Created() <==>
      || (exists i :: 0 <= i < |input.rawNodes| && input.rawNodes[i].1 == a && input.IsNode(a))
      || (exists d :: IsParsed(input, d) && input.parseDotId(d) == a)
  {
    hide Input.IsNode;
    LabelsAre(input, |input.rawNodes|, a);
    var implicit := input.Implicit(Endpoints(input.rawEdges));
    forall d ensures d in implicit <==> IsParsed(input, d) {
      ExplicitIsLastLabel(input, |input.rawNodes|, d);
      if d in Endpoints(input.rawEdges) {
        var e :| e in input.rawEdges && d in {e.0, e.1};
      }
    }
    if d :| IsParsed(input, d) && input.parseDotId(d) == a {
      assert implicit[d] == a;
    }
  }

  // An end of an edge without a label whose parse is a node.
  ghost predicate IsParsed(input: Input, d: string) {
    && (exists e :: e in input.rawEdges && d in {e.0, e.1})
    && !IsLabelled(input, |input.rawNodes|, d) && input.IsNode(input.parseDotId(d))
  }

  lemma {:induction false} LabelsAre(input: Input, n: nat, a: string)
    requires n <= |input.rawNodes|
    ensures a in input.Labels(n) <==> exists i :: 0 <= i < n && input.rawNodes[i].1 == a && input.IsNode(a)
  {
    hide Input.IsNode;
    if n > 0 {
      LabelsAre(input, n - 1, a);
    }
  }

  // -- Modules --------------------------------------------------------------------------------------

  // How many parts "module" stand directly before position i.
  ghost function ModuleRun(parts: seq<string>, i: nat): nat
    requires i <= |parts|
  {
    if i > 0 && parts[i - 1] == "module" then 1 + ModuleRun(parts, i - 1) else 0
  }

  // A module pair starts at a part "module" that is not itself the name of a pair.
  ghost predicate EndsPair(parts: seq<string>, e: nat) {
    2 <= e <= |parts| && parts[e - 2] == "module" && ModuleRun(parts, e - 2) % 2 == 0
  }

  lemma {:induction false} EndsArePairs(parts: seq<string>, i: nat, e: nat)
    requires i <= |parts| && ModuleRun(parts, i) % 2 == 0
    ensures e in ModuleEnds(parts, i) <==> e >= i + 2 && EndsPair(parts, e)
    decreases |parts| - i
  {
    if i + 1 < |parts| && parts[i] == "module" {
      assert ModuleRun(parts, i + 1) == ModuleRun(parts, i) + 1;
      EndsArePairs(parts, i + 2, e);
    } else if i < |parts| {
      if parts[i] != "module" {
        EndsArePairs(parts, i + 1, e);
      } else {
        assert ModuleEnds(parts, i + 1) == [];
      }
    }
  }

  // The module paths of an address are its prefixes up to the end of a module pair.
  lemma HierarchyIsPairs(address: string, path: string)
    ensures path in Hierarchy(address) <==>
      exists e: nat :: EndsPair(PartsOf(address), e) && path == Join(PartsOf(address)[..e])
  {
    hide PartsOf, Join;
    var parts := PartsOf(address);
    var ends := ModuleEnds(parts, 0);
    if path in Hierarchy(address) {
      var j :| 0 <= j < |ends| && path == Join(parts[..ends[j]]);
      EndsArePairs(parts, 0, ends[j]);
    }
    if e: nat :| EndsPair(parts, e) && path == Join(parts[..e]) {
      EndsArePairs(parts, 0, e);
      var j :| 0 <= j < |ends| && ends[j] == e;
      assert Hierarchy(address)[j] == path;
    }
  }

  // -- Edges --------------------------------------------------------------------------------------

  ghost predicate Contracted(net: Network, n: string) {
    net.KindOf(n) in {Var, Local, Output}
  }

  ghost predicate Root(n: string) { StartsWith(n, "var.") || StartsWith(n, "output.") }

  // A way from a to b on which every node before b is contracted.
  ghost predicate Way(net: Network, a: string, b: string) {
    exists p :: PathBetween(net.deps, p, a, b) && forall i | 0 <= i < |p| - 1 :: Contracted(net, p[i])
  }

  // The address names the kind, as it does for every node and for every address without a type.
  ghost predicate NamesItsKind(net: Network, n: string) {
    (StartsWith(n, "var.") ==> net.KindOf(n) == Var) && (StartsWith(n, "output.") ==> net.KindOf(n) == Output)
  }

  lemma NetworkNamesKinds(input: Input, adj: Graph, net: Network, n: string)
    requires NetworkOf(input, adj, net)
    ensures NamesItsKind(net, n)
  {
    hide AdjacencyOf, DependenciesOf, Input.Created;
    if n in net.types {
      NodesHave(n, input.plan);
    }
    forall isData: bool
      ensures StartsWith(n, "var.") ==> DetermineKind(n, isData) == Var
      ensures StartsWith(n, "output.") ==> DetermineKind(n, isData) == Output
    {
      if StartsWith(n, "var.") { RootVariableKind(n, isData); }
      if StartsWith(n, "output.") { RootOutputKind(n, isData); }
    }
    hide DetermineKind, NodeFor;
  }

  lemma WaysAreLeads(net: Network, a: string, b: string)
    ensures Way(net, a, b) <==> net.LeadsTo(a, b)
  {
    if p :| net.Leads(p, a, b) {
      assert PathBetween(net.deps, p, a, b);
    }
    if p :| PathBetween(net.deps, p, a, b) && forall i | 0 <= i < |p| - 1 :: Contracted(net, p[i]) {
      assert net.Leads(p, a, b);
    }
  }

  // The edges the drawing is meant to have: into a resource, data source or root output, from
  // what contracted nodes lead to, namely resources, data sources, and those root variables and
  // outputs from which nothing of the kind can be reached.
  lemma EdgesAre(input: Input, adj: Graph, net: Network, s: string, t: string)
    requires NetworkOf(input, adj, net)
    ensures ShouldJoin(net, s, t) <==>
      && s != t
      && t in net.types && (net.types[t] in {Managed, Data} || StartsWith(t, "output."))
      && (exists d :: d in Neighbours(net.deps, t) && Way(net, d, s))
      && (|| net.KindOf(s) in {Managed, Data}
          || (Root(s) &&
                forall d, x | d in Neighbours(net.deps, s) && Way(net, d, x) :: Contracted(net, x) && !Root(x)))
  {
    hide NetworkOf, Way, Network.LeadsTo, Network.KindOf;
    forall x ensures net.Terminal(x) <==> !Contracted(net, x) || Root(x) {
      TerminalIs(input, adj, net, x);
    }
    forall a, b ensures Way(net, a, b) <==> net.LeadsTo(a, b) {
      WaysAreLeads(net, a, b);
    }
    TerminalIs(input, adj, net, s);
    TwoSorts(net.KindOf(s));
    hide Network.Terminal, Root;
    if d, x :| d in Neighbours(net.deps, s) && Way(net, d, x) && !(Contracted(net, x) && !Root(x)) {
      assert net.Candidate(d, x);
    }
    if d, x :| d in Neighbours(net.deps, s) && net.Candidate(d, x) {
      assert Way(net, d, x) && net.Terminal(x);
    }
  }

  lemma TerminalIs(input: Input, adj: Graph, net: Network, x: string)
    requires NetworkOf(input, adj, net)
    ensures net.Terminal(x) <==> !Contracted(net, x) || Root(x)
    ensures net.PassThrough(x) <==> Contracted(net, x)
  {
    hide NetworkOf, Network.KindOf;
    NetworkNamesKinds(input, adj, net, x);
    PrefixesDiffer(x);
  }

  lemma PrefixesDiffer(x: string)
    ensures !(StartsWith(x, "var.") && StartsWith(x, "output."))
  {
    if StartsWith(x, "var.") {
      assert x[0] == 'v' && "output."[0] == 'o';
    }
  }
}
