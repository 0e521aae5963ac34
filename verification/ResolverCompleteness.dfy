// What the resolver finds on any map, cyclic ones included: a call misses a resource only where an
// entry that earlier calls left in the cache stands in the way.

module ResolverCompleteness {
  import opened Strings
  import opened Reachability
  import opened BlockKinds
  import opened Resolver

  // A dependency is dealt with: seen, or found as a node of its own.
  ghost predicate Accounted(net: Network, d: string, seen: set<string>, found: seq<string>) {
    d in seen || (!net.PassThrough(d) && d in found)
  }

  // Every expanded node is a pass-through all of whose dependencies are dealt with.
  ghost predicate Explored(net: Network, expanded: set<string>, seen: set<string>, found: seq<string>) {
    forall x | x in expanded ::
      net.PassThrough(x) && forall d | d in Neighbours(net.deps, x) :: Accounted(net, d, seen, found)
  }

  lemma ExploredStays(
      net: Network, expanded: set<string>, seen: set<string>, found: seq<string>, more: set<string>, all: seq<string>)
    requires Explored(net, expanded, seen, found)
    requires seen <= more && forall s | s in found :: s in all
    ensures Explored(net, expanded, more, all)
  {
    forall x, d | x in expanded && d in Neighbours(net.deps, x) ensures Accounted(net, d, more, all) {
      assert Accounted(net, d, seen, found);
    }
  }

  // One call expands some nodes; their dependencies are on the stack, were cached before, are
  // expanded too, or are in the answer.
  lemma {:induction false} AnswerExplores(net: Network, node: string, cache: Cache, stack: set<string>)
    returns (expanded: set<string>)
    ensures
      var (found, after) := net.Answer(node, cache, stack);
      var seen := stack + cache.Keys + expanded;
      && Accounted(net, node, seen, found)
      && Explored(net, expanded, seen, found)
      && after.Keys <= cache.Keys + expanded
    decreases |net.deps.Keys - stack|, 1, 0
  {
    expanded := {};
    if node !in stack && node !in cache && net.PassThrough(node) {
      expanded := {node};
      if Neighbours(net.deps, node) != [] {
        hide Network.Answer, Network.AnswerAll, Explored;
        ProperSubsetIsSmaller(net.deps.Keys - (stack + {node}), net.deps.Keys - stack, node);
        var below := AllAnswersExplore(net, net.deps[node], cache, stack + {node});
        NodeExplores(net, node, cache, stack, below);
        expanded := below + {node};
      }
    }
  }

  // A node takes over what the calls for its dependencies found and cached.
  lemma AnswerTakesOver(net: Network, node: string, cache: Cache, stack: set<string>)
    requires node !in stack && node !in cache && net.PassThrough(node) && Neighbours(net.deps, node) != []
    ensures
      var (resolved, mid) := net.AnswerAll(net.deps[node], cache, stack + {node});
      var (found, after) := net.Answer(node, cache, stack);
      after.Keys <= mid.Keys + {node} && forall s | s in resolved :: s in found
  {
    hide Network.AnswerAll, SortDedup;
    var (resolved, mid) := net.AnswerAll(net.deps[node], cache, stack + {node});
    forall s | s in resolved ensures s in SortDedup(resolved) {
      assert s in Elements(resolved);
    }
  }

  lemma NodeExplores(net: Network, node: string, cache: Cache, stack: set<string>, below: set<string>)
    requires node !in stack && node !in cache && net.PassThrough(node) && Neighbours(net.deps, node) != []
    requires
      var (resolved, mid) := net.AnswerAll(net.deps[node], cache, stack + {node});
      var seen := stack + {node} + cache.Keys + below;
      && (forall d | d in net.deps[node] :: Accounted(net, d, seen, resolved))
      && Explored(net, below, seen, resolved)
      && mid.Keys <= cache.Keys + below
    ensures
      var (found, after) := net.Answer(node, cache, stack);
      && Explored(net, below + {node}, stack + cache.Keys + (below + {node}), found)
      && after.Keys <= cache.Keys + (below + {node})
  {
    hide Network.Answer, Network.AnswerAll;
    var (resolved, mid) := net.AnswerAll(net.deps[node], cache, stack + {node});
    var (found, after) := net.Answer(node, cache, stack);
    var seen := stack + {node} + cache.Keys + below;
    AnswerTakesOver(net, node, cache, stack);
    assert seen == stack + cache.Keys + (below + {node});
    ExploredStays(net, below, seen, resolved, seen, found);
    forall d | d in Neighbours(net.deps, node) ensures Accounted(net, d, seen, found) {
      assert Accounted(net, d, seen, resolved);
    }
  }

  lemma {:induction false} AllAnswersExplore(net: Network, ds: seq<string>, cache: Cache, stack: set<string>)
    returns (expanded: set<string>)
    ensures
      var (found, after) := net.AnswerAll(ds, cache, stack);
      var seen := stack + cache.Keys + expanded;
      && (forall d | d in ds :: Accounted(net, d, seen, found))
      && Explored(net, expanded, seen, found)
      && after.Keys <= cache.Keys + expanded
    decreases |net.deps.Keys - stack|, 2, |ds|
  {
    expanded := {};
    if ds != [] {
      var rest, d := ds[..|ds| - 1], ds[|ds| - 1];
      var (found, mid) := net.AnswerAll(rest, cache, stack);
      var (more, after) := net.Answer(d, mid, stack);
      var first := AllAnswersExplore(net, rest, cache, stack);
      var second := AnswerExplores(net, d, mid, stack);
      expanded := first + second;
      var seen := stack + cache.Keys + expanded;
      ExploredStays(net, first, stack + cache.Keys + first, found, seen, found + more);
      ExploredStays(net, second, stack + mid.Keys + second, more, seen, found + more);
      assert Accounted(net, d, seen, found + more);
      forall e | e in rest ensures Accounted(net, e, seen, found + more) {
        assert Accounted(net, e, stack + cache.Keys + first, found);
      }
      assert ds == rest + [d];
    }
  }

  // A resource at the end of a path that avoids the cache is found.
  lemma AnswerIsComplete(net: Network, n: string, cache: Cache, p: seq<string>, s: string)
    requires net.Leads(p, n, s) && !net.PassThrough(s)
    requires forall i | 0 <= i < |p| :: p[i] !in cache
    ensures s in net.Answer(n, cache, {}).0
  {
    var expanded := AnswerExplores(net, n, cache, {});
    PathIsAccounted(net, p, cache, expanded, net.Answer(n, cache, {}).0, |p| - 1);
  }

  lemma {:induction false} PathIsAccounted(
      net: Network, p: seq<string>, cache: Cache, expanded: set<string>, found: seq<string>, i: nat)
    requires i < |p| && net.Leads(p, p[0], p[|p| - 1])
    requires forall j | 0 <= j < |p| :: p[j] !in cache
    requires Accounted(net, p[0], cache.Keys + expanded, found)
    requires Explored(net, expanded, cache.Keys + expanded, found)
    ensures Accounted(net, p[i], cache.Keys + expanded, found)
    ensures !net.PassThrough(p[i]) ==> p[i] in found
  {
    if i > 0 {
      PathIsAccounted(net, p, cache, expanded, found, i - 1);
      assert p[i - 1 + 1] in Neighbours(net.deps, p[i - 1]);
      assert net.PassThrough(p[i - 1]) && p[i - 1] in expanded;
    }
  }

  // So the first call of all finds every resource that pass-throughs lead to, cycles or not.
  lemma FirstAnswerIsComplete(net: Network, n: string, s: string)
    requires net.LeadsTo(n, s) && !net.PassThrough(s)
    ensures s in net.Answer(n, map[], {}).0
  {
    var p :| net.Leads(p, n, s);
    AnswerIsComplete(net, n, map[], p, s);
  }
}
