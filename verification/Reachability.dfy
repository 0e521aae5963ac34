// Paths in an adjacency map, and the worklist that marks what the seeds depend on.

module Reachability {
  import opened Strings

  type Graph = map<string, seq<string>>

  function Neighbours(g: Graph, u: string): seq<string> {
    if u in g then g[u] else []
  }

  ghost predicate IsPath(g: Graph, p: seq<string>) {
    && |p| >= 1
    && forall i | 0 <= i < |p| - 1 :: p[i + 1] in Neighbours(g, p[i])
  }

  ghost predicate PathBetween(g: Graph, p: seq<string>, a: string, b: string) {
    IsPath(g, p) && p[0] == a && p[|p| - 1] == b
  }

  ghost predicate Reaches(g: Graph, a: string, b: string) {
    exists p :: PathBetween(g, p, a, b)
  }

  ghost predicate ReachedFromSome(g: Graph, seeds: seq<string>, b: string) {
    exists a :: a in seeds && Reaches(g, a, b)
  }

  lemma ReachesSelf(g: Graph, a: string)
    ensures Reaches(g, a, a)
  {
    assert PathBetween(g, [a], a, a);
  }

  lemma ReachesStep(g: Graph, a: string, b: string, c: string)
    requires Reaches(g, a, b) && c in Neighbours(g, b)
    ensures Reaches(g, a, c)
  {
    var p :| PathBetween(g, p, a, b);
    assert PathBetween(g, p + [c], a, c);
  }

  lemma ReachesTransitive(g: Graph, a: string, b: string, c: string)
    requires Reaches(g, a, b) && Reaches(g, b, c)
    ensures Reaches(g, a, c)
  {
    var p :| PathBetween(g, p, a, b);
    var q :| PathBetween(g, q, b, c);
    var r := p + q[1..];
    forall i | 0 <= i < |r| - 1 ensures r[i + 1] in Neighbours(g, r[i]) {
      if i >= |p| - 1 {
        assert r[i] == q[i - (|p| - 1)];
        assert r[i + 1] == q[i + 1 - (|p| - 1)];
      }
    }
    assert PathBetween(g, r, a, c);
  }

  lemma SplitLast<T>(s: seq<T>)
    requires s != []
    ensures s == s[..|s| - 1] + [s[|s| - 1]]
  {}

  // A set closed under the edges contains everything its members reach.
  ghost predicate Closed(g: Graph, s: set<string>) {
    forall u, v | u in s && v in Neighbours(g, u) :: v in s
  }

  lemma {:induction false} ClosedContainsPath(g: Graph, s: set<string>, p: seq<string>)
    requires Closed(g, s) && IsPath(g, p) && p[0] in s
    ensures p[|p| - 1] in s
  {
    if |p| > 1 {
      ClosedContainsPath(g, s, p[1..]);
    }
  }

  lemma ClosedContainsReached(g: Graph, s: set<string>, a: string, b: string)
    requires Closed(g, s) && a in s && Reaches(g, a, b)
    ensures b in s
  {
    var p :| PathBetween(g, p, a, b);
    ClosedContainsPath(g, s, p);
  }

  // Every node the worklist can ever hold.
  ghost function Universe(g: Graph, seeds: seq<string>): set<string> {
    Elements(seeds) + set u, v | u in g && v in g[u] :: v
  }

  // What holds between two pops: everything marked or queued is reached, and whatever is
  // still missing hangs off the queue.
  ghost predicate Marking(g: Graph, seeds: seq<string>, visited: set<string>, queue: seq<string>) {
    && (forall b | b in visited || b in queue :: ReachedFromSome(g, seeds, b) && b in Universe(g, seeds))
    && (forall a | a in seeds :: a in visited || a in queue)
    && (forall u, v | u in visited && v in Neighbours(g, u) :: v in visited || v in queue)
  }

  lemma MarkingStart(g: Graph, seeds: seq<string>)
    ensures Marking(g, seeds, {}, seeds)
  {
    forall a | a in seeds ensures ReachedFromSome(g, seeds, a) {
      ReachesSelf(g, a);
    }
  }

  lemma MarkingVisit(g: Graph, seeds: seq<string>, visited: set<string>, queue: seq<string>, u: string,
      queue': seq<string>)
    requires Marking(g, seeds, visited, queue + [u])
    requires Enqueued(g, u, queue, visited + {u}, queue')
    requires u !in visited
    ensures Marking(g, seeds, visited + {u}, queue')
    ensures |Universe(g, seeds) - (visited + {u})| < |Universe(g, seeds) - visited|
  {
    assert u in queue + [u];
    ProperSubsetIsSmaller(Universe(g, seeds) - (visited + {u}), Universe(g, seeds) - visited, u);
    var a :| a in seeds && Reaches(g, a, u);
    forall v | v in Neighbours(g, u)
      ensures ReachedFromSome(g, seeds, v) && v in Universe(g, seeds)
    {
      ReachesStep(g, a, u, v);
    }
    forall b | b in visited + {u} || b in queue'
      ensures ReachedFromSome(g, seeds, b) && b in Universe(g, seeds)
    {
      assert b in visited || b in queue + [u] || b in Neighbours(g, u);
    }
    forall c | c in seeds ensures c in visited + {u} || c in queue' {
      assert c in visited || c in queue + [u];
    }
    forall w, v | w in visited + {u} && v in Neighbours(g, w)
      ensures v in visited + {u} || v in queue'
    {
      assert w != u ==> v in visited || v in queue + [u];
    }
  }

  lemma MarkingSkip(g: Graph, seeds: seq<string>, visited: set<string>, queue: seq<string>, u: string)
    requires Marking(g, seeds, visited, queue + [u]) && u in visited
    ensures Marking(g, seeds, visited, queue)
  {
    forall b ensures b in queue + [u] <==> b in queue || b == u {}
  }

  lemma MarkingDone(g: Graph, seeds: seq<string>, visited: set<string>)
    requires Marking(g, seeds, visited, [])
    ensures forall b :: b in visited <==> ReachedFromSome(g, seeds, b)
  {
    forall b | ReachedFromSome(g, seeds, b) ensures b in visited {
      var a :| a in seeds && Reaches(g, a, b);
      ClosedContainsReached(g, visited, a, b);
    }
  }

  method Visit(g: Graph, seeds: seq<string>) returns (visited: set<string>)
    ensures forall b :: b in visited <==> ReachedFromSome(g, seeds, b)
  {
    visited := {};
    var queue := seeds;
    MarkingStart(g, seeds);
    while queue != []
      invariant Marking(g, seeds, visited, queue)
      decreases |Universe(g, seeds) - visited|, |queue|
    {
      var u := queue[|queue| - 1];
      var rest := queue[..|queue| - 1];
      SplitLast(queue);
      if u in visited {
        MarkingSkip(g, seeds, visited, rest, u);
        queue := rest;
      } else {
        queue := Enqueue(g, u, rest, visited + {u});
        MarkingVisit(g, seeds, visited, rest, u, queue);
        visited := visited + {u};
      }
    }
    MarkingDone(g, seeds, visited);
  }

  // The inner loop: push the neighbours that are not visited yet.
  ghost predicate Enqueued(g: Graph, u: string, queue: seq<string>, visited: set<string>, queue': seq<string>) {
    && (forall v | v in queue :: v in queue')
    && (forall v | v in queue' :: v in queue || v in Neighbours(g, u))
    && (forall v | v in Neighbours(g, u) :: v in visited || v in queue')
  }

  method Enqueue(g: Graph, u: string, queue: seq<string>, visited: set<string>) returns (queue': seq<string>)
    ensures Enqueued(g, u, queue, visited, queue')
  {
    queue' := queue;
    var neighbours := Neighbours(g, u);
    for i := 0 to |neighbours|
      invariant forall v | v in queue :: v in queue'
      invariant forall v | v in queue' :: v in queue || v in neighbours
      invariant forall v | v in neighbours[..i] :: v in visited || v in queue'
    {
      assert neighbours[..i + 1] == neighbours[..i] + [neighbours[i]];
      if neighbours[i] !in visited {
        queue' := queue' + [neighbours[i]];
      }
    }
    assert neighbours[..|neighbours|] == neighbours;
  }

  lemma ProperSubsetIsSmaller<T>(a: set<T>, b: set<T>, x: T)
    requires a <= b && x in b && x !in a
    ensures |a| < |b|
  {
    SubsetIsNoLarger(a, b - {x});
  }

  lemma {:induction false} SubsetIsNoLarger<T>(a: set<T>, b: set<T>)
    requires a <= b
    ensures |a| <= |b|
  {
    if a != {} {
      var x :| x in a;
      SubsetIsNoLarger(a - {x}, b - {x});
    }
  }
}
