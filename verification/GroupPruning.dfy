// The retain-until-stable loop that removes module groups without children.

module GroupPruning {
  import opened Wrappers
  import opened ModuleTree
  import opened GraphNodes

  // `nodes.retain(keep)`
  function Retain(nodes: seq<Node>, keep: Node -> bool): (kept: seq<Node>)
    ensures |kept| <= |nodes|
    ensures |kept| == |nodes| ==> kept == nodes
    ensures forall n :: n in kept <==> n in nodes && keep(n)
  {
    if nodes == [] then []
    else
      var rest := Retain(nodes[1..], keep);
      assert nodes == [nodes[0]] + nodes[1..];
      if keep(nodes[0]) then [nodes[0]] + rest else rest
  }

  lemma {:induction false} RetainAll(nodes: seq<Node>, keep: Node -> bool)
    requires forall n | n in nodes :: keep(n)
    ensures Retain(nodes, keep) == nodes
  {
    if nodes != [] {
      RetainAll(nodes[1..], keep);
    }
  }

  function ParentIds(nodes: seq<Node>): set<string> {
    set n | n in nodes && n.parentId.Some? :: n.parentId.value
  }

  // Some resource of the list lies below the group.
  ghost predicate HasResource(nodes: seq<Node>, id: string) {
    exists r :: r in nodes && r.Resource? && id in Ancestors(r)
  }

  ghost predicate Survives(nodes: seq<Node>, n: Node) {
    n in nodes && (n.Group? ==> HasResource(nodes, n.id))
  }

  ghost predicate AllPlaced(nodes: seq<Node>) {
    forall n | n in nodes :: Placed(n)
  }

  // Every module above a resource has its group in the list.
  ghost predicate Complete(nodes: seq<Node>) {
    forall r, g | r in nodes && r.Resource? && g in Hierarchy(r.id) :: g in GroupIds(nodes)
  }

  ghost predicate Supported(nodes: seq<Node>) {
    forall n | n in nodes && n.Group? :: n.id in ParentIds(nodes)
  }

  method PruneGroups(nodes: seq<Node>) returns (kept: seq<Node>)
    requires AllPlaced(nodes) && Complete(nodes)
    ensures forall n :: n in kept <==> Survives(nodes, n)
    ensures Supported(kept)
  {
    hide Hierarchy, Placed;
    kept := nodes;
    while true
      invariant forall n | n in kept :: n in nodes
      invariant forall n | Survives(nodes, n) :: n in kept
      decreases |kept|
    {
      var parentIds := ParentIds(kept);
      var initial := kept;
      kept := Retain(kept, (n: Node) => n.Resource? || n.id in parentIds);
      forall n | Survives(nodes, n) ensures n in kept {
        if n.Group? {
          SurvivorIsParent(nodes, initial, n);
        }
      }
      if |kept| == |initial| {
        break;
      }
    }
    forall n | n in kept ensures Survives(nodes, n) {
      if n.Group? {
        SupportedHasResource(kept, n, MaxDepth(kept));
      }
    }
  }

  // A group above a resource has a child that is also above, or is, that resource.
  lemma SurvivorIsParent(nodes: seq<Node>, kept: seq<Node>, g: Node)
    requires AllPlaced(nodes) && Complete(nodes)
    requires Survives(nodes, g) && g.Group?
    requires forall n | n in kept :: n in nodes
    requires forall n | Survives(nodes, n) :: n in kept
    ensures g.id in ParentIds(kept)
  {
    hide Hierarchy, Placed;
    var r :| r in nodes && r.Resource? && g.id in Ancestors(r);
    var a := Ancestors(r);
    var j :| 0 <= j < |a| && a[j] == g.id;
    if j == |a| - 1 {
      LastIsParent(r);
      assert r in kept && r.parentId == Some(g.id);
    } else {
      assert a == Hierarchy(r.id);
      assert a[j + 1] in GroupIds(nodes);
      var c :| c in nodes && c.Group? && c.id == a[j + 1];
      PathParsesToItself(r.id, j + 1);
      LastIsParent(c);
      assert Survives(nodes, c) && c.parentId == Some(g.id);
    }
  }

  lemma LastIsParent(n: Node)
    requires Placed(n)
    ensures n.parentId == Last(Ancestors(n))
  {}

  function Depth(n: Node): nat { |Hierarchy(n.id)| }

  function MaxDepth(nodes: seq<Node>): (d: nat)
    ensures forall n | n in nodes :: Depth(n) <= d
  {
    if nodes == [] then 0
    else
      var d := MaxDepth(nodes[1..]);
      assert nodes == [nodes[0]] + nodes[1..];
      if Depth(nodes[0]) > d then Depth(nodes[0]) else d
  }

  // Where every group has a child, following children ends in a resource: a child group is
  // one module deeper than its parent.
  lemma {:induction false} SupportedHasResource(nodes: seq<Node>, g: Node, bound: nat)
    requires Supported(nodes)
    requires forall n | n in nodes :: Depth(n) <= bound && Placed(n)
    requires g in nodes && g.Group?
    ensures HasResource(nodes, g.id)
    decreases bound - Depth(g)
  {
    hide Hierarchy, Placed;
    assert g.id in ParentIds(nodes);
    var c :| c in nodes && c.parentId == Some(g.id);
    if c.Resource? {
      ParentIsAncestor(c);
    } else {
      ChildGroupIsDeeper(c, g);
      SupportedHasResource(nodes, c, bound);
      var r :| r in nodes && r.Resource? && c.id in Ancestors(r);
      AncestorsAreTransitive(r, c.id, g.id);
    }
  }

  lemma ParentIsAncestor(n: Node)
    requires Placed(n) && n.parentId.Some?
    ensures n.parentId.value in Ancestors(n)
  {
    hide Hierarchy;
    var a := Ancestors(n);
    assert n.parentId.value == a[|a| - 1];
  }

  lemma ChildGroupIsDeeper(c: Node, g: Node)
    requires c.Group? && Placed(c) && c.parentId == Some(g.id)
    ensures Depth(c) == Depth(g) + 1
    ensures g.id in Hierarchy(c.id)
  {
    hide Hierarchy;
    var h := Hierarchy(c.id);
    assert g.id == h[|h| - 2];
    PathParsesToItself(c.id, |h| - 2);
  }

  lemma AncestorsAreTransitive(r: Node, c: string, g: string)
    requires r.Resource? && Placed(r) && c in Ancestors(r)
    requires g in Hierarchy(c)
    ensures g in Ancestors(r)
  {
    hide Hierarchy;
    RootGroupsAreNoModules();
    if Hierarchy(r.id) != [] {
      PathEndsWithItself(r.id, c);
    }
  }
}
