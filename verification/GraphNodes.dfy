// Which addresses become nodes, under which group, and the table they are collected in.

module GraphNodes {
  import opened Wrappers
  import opened Strings
  import opened BlockKinds
  import opened ModuleTree

  datatype Node =
    | Group(id: string, parentId: Option<string>)
    | Resource(id: string, parentId: Option<string>, kind: Kind)

  const ROOT_VARIABLES := "root_variables"
  const ROOT_OUTPUTS := "root_outputs"

  // What the plan file says about addresses: `changed` maps an address of `resource_changes`
  // to whether one of its changes has mode "data".
  datatype Plan = Plan(changed: map<string, bool>, inState: set<string>, active: set<string>)

  predicate Noise(address: string) {
    address == "root" || StartsWith(address, "provider[") || StartsWith(address, "meta.")
  }

  // Whether an address is a data source, or None when the plan does not evaluate it at all.
  function DataMode(address: string, plan: Plan): Option<bool> {
    if address in plan.changed then Some(plan.changed[address])
    else if address in plan.inState then Some(DetermineKind(address, false) == Data)
    else if StartsWith(address, "output.") then Some(false)
    else
      match DetermineKind(address, false)
      case Data => if address in plan.active then Some(true) else None
      case Managed => None
      case _ => Some(false)
  }

  function RootGroup(kind: Kind): Option<string> {
    match kind
    case Var => Some(ROOT_VARIABLES)
    case Output => Some(ROOT_OUTPUTS)
    case _ => None
  }

  // The node an address stands for, if any.
  function NodeFor(address: string, plan: Plan): Option<Node> {
    if Noise(address) || ParentModule(address) == Some(address) || DataMode(address, plan) == None then
      None
    else
      var kind := DetermineKind(address, DataMode(address, plan).value);
      var parent := if ParentModule(address).Some? then ParentModule(address) else RootGroup(kind);
      Some(Resource(address, parent, kind))
  }

  // -- Ancestry --------------------------------------------------------------------------

  // The groups above a node, outermost first.
  function Ancestors(n: Node): seq<string> {
    var h := Hierarchy(n.id);
    match n
    case Group(_, _) => if h == [] then [] else h[..|h| - 1]
    case Resource(_, parent, _) => if h == [] && parent.Some? then [parent.value] else h
  }

  predicate ModuleGroup(n: Node) { n.Group? && ParentModule(n.id) == Some(n.id) }

  predicate RootGroupNode(n: Node) { n in {Group(ROOT_VARIABLES, None), Group(ROOT_OUTPUTS, None)} }

  // The parent of a node is its innermost ancestor; the ids of module groups are module
  // paths and those of resources are not.
  predicate Placed(n: Node) {
    && n.parentId == Last(Ancestors(n))
    && (n.Group? ==> ModuleGroup(n) || RootGroupNode(n))
    && (n.Resource? ==> ParentModule(n.id) != Some(n.id))
    && (n.Resource? && Hierarchy(n.id) == [] ==> n.parentId in {None, Some(ROOT_VARIABLES), Some(ROOT_OUTPUTS)})
  }

  lemma NodeForIsPlaced(address: string, plan: Plan)
    requires NodeFor(address, plan).Some?
    ensures Placed(NodeFor(address, plan).value)
  {}

  lemma OneWordHasNoModules(word: string)
    requires DotFree(word) && word != ""
    ensures Hierarchy(word) == []
  {
    SplitOne(word);
    DropEmptyKeeps([word]);
    assert PartsOf(word) == [word];
    assert ModuleEnds([word], 0) == ModuleEnds([word], 1) == [];
  }

  lemma RootGroupsAreNoModules()
    ensures Hierarchy(ROOT_VARIABLES) == [] && Hierarchy(ROOT_OUTPUTS) == []
  {
    hide Hierarchy;
    OneWordHasNoModules(ROOT_VARIABLES);
    OneWordHasNoModules(ROOT_OUTPUTS);
  }

  // Every module above a node has its group.
  ghost predicate ModulesPresent(n: Node, groups: set<string>) {
    forall g | g in Hierarchy(n.id) :: g in groups
  }

  function GroupIds(nodes: seq<Node>): set<string> {
    set n | n in nodes && n.Group? :: n.id
  }

  // The state of a node list in which every module seen so far has exactly one group.
  ghost predicate Table(plan: Plan, known: set<string>, nodes: seq<Node>) {
    && known == GroupIds(nodes)
    && GroupsOnce(nodes)
    && forall n | n in nodes :: Entry(plan, known, n)
  }

  ghost predicate GroupsOnce(nodes: seq<Node>) {
    forall i, j | 0 <= i < j < |nodes| && nodes[i].Group? && nodes[j].Group? :: nodes[i].id != nodes[j].id
  }

  ghost predicate Entry(plan: Plan, known: set<string>, n: Node) {
    && Placed(n)
    && ModulesPresent(n, known)
    && (n.Group? ==> ModuleGroup(n))
    && (n.Resource? ==> NodeFor(n.id, plan) == Some(n))
  }

  lemma AppendGroup(plan: Plan, known: set<string>, nodes: seq<Node>, address: string, idx: nat)
    requires Table(plan, known, nodes)
    requires idx < |Hierarchy(address)| && Hierarchy(address)[idx] !in known
    requires Elements(Hierarchy(address)[..idx]) <= known
    ensures Table(plan, known + {Hierarchy(address)[idx]}, nodes + [GroupAt(Hierarchy(address), idx)])
  {
    hide Hierarchy;
    var g := GroupAt(Hierarchy(address), idx);
    GroupAtIsEntry(plan, known, address, idx);
    GroupIdsAppend(nodes, g);
    GroupsOnceAppend(nodes, g);
    forall n | n in nodes + [g] ensures Entry(plan, known + {g.id}, n) {
      if n in nodes {
        assert Entry(plan, known, n);
      } else {
        assert n == g;
      }
    }
  }

  function GroupAt(hierarchy: seq<string>, idx: nat): Node
    requires idx < |hierarchy|
  {
    Group(hierarchy[idx], if idx > 0 then Some(hierarchy[idx - 1]) else None)
  }

  lemma GroupAtIsEntry(plan: Plan, known: set<string>, address: string, idx: nat)
    requires idx < |Hierarchy(address)|
    requires Elements(Hierarchy(address)[..idx]) <= known
    ensures Entry(plan, known + {Hierarchy(address)[idx]}, GroupAt(Hierarchy(address), idx))
  {
    hide Hierarchy;
    var h := Hierarchy(address);
    var g := GroupAt(h, idx);
    PathParsesToItself(address, idx);
    assert Hierarchy(g.id) == h[..idx + 1];
    assert Ancestors(g) == h[..idx];
    forall q | q in h[..idx + 1] ensures q in known + {h[idx]} {
      assert h[..idx + 1] == h[..idx] + [h[idx]];
      assert q in h[..idx] ==> q in Elements(h[..idx]);
    }
  }

  lemma GroupsOnceAppend(nodes: seq<Node>, g: Node)
    requires GroupsOnce(nodes) && g.Group? && g.id !in GroupIds(nodes)
    ensures GroupsOnce(nodes + [g])
  {
    forall i | 0 <= i < |nodes| && nodes[i].Group? ensures nodes[i].id != g.id {
      assert nodes[i] in nodes && nodes[i].id in GroupIds(nodes);
    }
  }

  lemma AppendResource(plan: Plan, known: set<string>, nodes: seq<Node>, address: string)
    requires Table(plan, known, nodes) && NodeFor(address, plan).Some?
    requires Elements(Hierarchy(address)) <= known
    ensures Table(plan, known, nodes + [NodeFor(address, plan).value])
  {
    hide Hierarchy;
    var n := NodeFor(address, plan).value;
    NodeForIsPlaced(address, plan);
    assert forall g | g in Hierarchy(address) :: g in Elements(Hierarchy(address));
    GroupIdsAppend(nodes, n);
    assert forall m | m in nodes + [n] :: m in nodes || m == n;
  }

  lemma GroupIdsAppend(nodes: seq<Node>, n: Node)
    ensures GroupIds(nodes + [n]) == GroupIds(nodes) + (if n.Group? then {n.id} else {})
  {
    assert forall m :: m in nodes + [n] <==> m in nodes || m == n;
  }

  // Only groups, and possibly the given resource, came on top of the old list.
  ghost predicate Grown(before: seq<Node>, after: seq<Node>, node: Option<Node>) {
    && before <= after
    && forall n | n in after :: n in before || n.Group? || node == Some(n)
  }

  class NodeTable {
    const plan: Plan
    var knownModules: set<string>
    var nodes: seq<Node>

    constructor (plan: Plan)
      ensures this.plan == plan && nodes == [] && Valid()
    {
      this.plan := plan;
      knownModules := {};
      nodes := [];
    }

    ghost predicate Valid()
      reads this
    {
      Table(plan, knownModules, nodes)
    }

    // `extract_parent_modules`: make sure every module of the address has its group.
    method ExtractParentModules(address: string) returns (parent: Option<string>)
      requires Valid()
      modifies this
      ensures Valid() && Grown(old(nodes), nodes, None)
      ensures knownModules == old(knownModules) + Elements(Hierarchy(address))
      ensures parent == ParentModule(address)
    {
      hide Hierarchy;
      var hierarchy := CollectPaths(address);
      for idx := 0 to |hierarchy|
        invariant Valid() && Grown(old(nodes), nodes, None)
        invariant knownModules == old(knownModules) + Elements(hierarchy[..idx])
      {
        var moduleId := hierarchy[idx];
        assert Elements(hierarchy[..idx + 1]) == Elements(hierarchy[..idx]) + {moduleId} by {
          assert hierarchy[..idx + 1] == hierarchy[..idx] + [moduleId];
        }
        if moduleId !in knownModules {
          AppendGroup(plan, knownModules, nodes, address, idx);
          knownModules := knownModules + {moduleId};
          nodes := nodes + [GroupAt(hierarchy, idx)];
        }
      }
      assert hierarchy[..|hierarchy|] == hierarchy;
      parent := Last(hierarchy);
    }

    // `create_node`
    method CreateNode(address: string) returns (node: Option<Node>)
      requires Valid()
      modifies this
      ensures Valid() && Grown(old(nodes), nodes, None)
      ensures node == NodeFor(address, plan)
      ensures node.Some? ==> Elements(Hierarchy(address)) <= knownModules
    {
      if Noise(address) {
        return None;
      }
      var parent := ExtractParentModules(address);
      if parent == Some(address) {
        return None;
      }
      var isData := DataMode(address, plan);
      if isData == None {
        return None;
      }
      var kind := DetermineKind(address, isData.value);
      var finalParent := if parent == None then RootGroup(kind) else parent;
      node := Some(Resource(address, finalParent, kind));
    }

    // A created node is appended after the groups it needed.
    method Add(address: string) returns (added: bool)
      requires Valid()
      modifies this
      ensures Valid() && Grown(old(nodes), nodes, NodeFor(address, plan))
      ensures added <==> NodeFor(address, plan).Some?
      ensures added ==> NodeFor(address, plan).value in nodes
    {
      var node := CreateNode(address);
      added := node.Some?;
      if added {
        AppendResource(plan, knownModules, nodes, address);
        nodes := nodes + [node.value];
      }
    }
  }
}
