// `resolve_dependencies`: contracting pass-through nodes (variables, locals, outputs) with a
// cache and a cycle-breaking stack.

module BlockKinds {
  import opened Strings
  import opened Wrappers

  datatype Kind = Var | Local | Output | Data | Managed

  lemma TwoSorts(kind: Kind)
    ensures kind in {Managed, Data} <==> kind !in {Var, Local, Output}
  {
    assert kind.Var? || kind.Local? || kind.Output? || kind.Data? || kind.Managed?;
  }

  // The first address part that names a block kind.
  function KeywordKind(parts: seq<string>): Option<Kind> {
    if parts == [] then None
    else if parts[0] == "var" then Some(Var)
    else if parts[0] == "local" then Some(Local)
    else if parts[0] == "output" then Some(Output)
    else KeywordKind(parts[1..])
  }

  // `determine_block_type`
  function DetermineKind(address: string, isData: bool): Kind {
    if StartsWith(address, "var.") then Var
    else if StartsWith(address, "local.") then Local
    else if StartsWith(address, "output.") then Output
    else
      var parts := Split(address);
      match KeywordKind(parts)
      case Some(kind) => kind
      case None =>
        if isData then Data
        else if |parts| >= 3 && parts[|parts| - 3] == "data" then Data
        else if StartsWith(address, "data.") then Data
        else Managed
  }
}

module Resolver {
  import opened Strings
  import opened Reachability
  import opened BlockKinds

  datatype Network = Network(deps: Graph, types: map<string, Kind>) {
    function KindOf(n: string): Kind {
      if n in types then types[n] else DetermineKind(n, false)
    }

    ghost predicate PassThrough(n: string) {
      KindOf(n) in {Var, Local, Output}
    }

    // A root variable or root output stands for itself when nothing lies beyond it.
    ghost predicate RootSource(n: string) {
      || (KindOf(n) == Var && StartsWith(n, "var."))
      || (KindOf(n) == Output && StartsWith(n, "output."))
    }

    ghost predicate ModuleOutput(n: string) {
      KindOf(n) == Output && !StartsWith(n, "output.")
    }

    ghost predicate Terminal(n: string) { !PassThrough(n) || RootSource(n) }

    // p leads from n to s and every node before s is a pass-through.
    ghost predicate Leads(p: seq<string>, n: string, s: string) {
      && PathBetween(deps, p, n, s)
      && forall i | 0 <= i < |p| - 1 :: PassThrough(p[i])
    }

    ghost predicate LeadsTo(n: string, s: string) { exists p :: Leads(p, n, s) }

    ghost predicate Candidate(n: string, s: string) { LeadsTo(n, s) && Terminal(s) }

    // Something terminal lies beyond n.
    ghost predicate Extends(n: string) {
      exists d, t :: d in Neighbours(deps, n) && Candidate(d, t)
    }

    // What resolution is for, in terms of paths alone: the terminals reached through
    // pass-throughs, a root variable or output only when nothing lies beyond it.
    ghost predicate Source(n: string, s: string) {
      Candidate(n, s) && (PassThrough(s) ==> !Extends(s))
    }

    // A path through pass-throughs leads from n back to n.
    ghost predicate Returns(n: string) {
      PassThrough(n) && exists d :: d in Neighbours(deps, n) && LeadsTo(d, n)
    }

    // No such cycle is reached from n; there may be cycles elsewhere.
    ghost predicate Settled(n: string) {
      forall x | LeadsTo(n, x) :: !Returns(x)
    }

    // Everything a pass-through n leads to behind its first step.
    ghost function Below(n: string): set<string> {
      set u, x |
        && u in deps && x in deps[u]
        && PassThrough(n) && (exists d :: d in Neighbours(deps, n) && LeadsTo(d, x))
      :: x
    }

    lemma SettledBelow(n: string, d: string)
      requires Settled(n) && PassThrough(n) && d in Neighbours(deps, n)
      ensures Settled(d)
      ensures |Below(d)| < |Below(n)|
    {
      forall x | LeadsTo(d, x) ensures LeadsTo(n, x) {
        LeadsFurther(n, d, x);
      }
      forall x | x in Below(d) ensures x in Below(n) {
        var e :| e in Neighbours(deps, d) && LeadsTo(e, x);
        LeadsFurther(d, e, x);
      }
      LeadsHere(d);
      assert !Returns(d);
      ProperSubsetIsSmaller(Below(d), Below(n), d);
    }

    // The uncached recursive specification.
    ghost function Src(n: string): set<string>
      requires Settled(n)
      decreases |Below(n)|, 1
    {
      if !PassThrough(n) then {n} else OrSelf(n, SrcAll(n, Neighbours(deps, n)))
    }

    ghost function SrcAll(n: string, ds: seq<string>): set<string>
      requires Settled(n) && PassThrough(n)
      requires forall d | d in ds :: d in Neighbours(deps, n)
      decreases |Below(n)|, 0
    {
      (forall d | d in ds ensures Settled(d) && |Below(d)| < |Below(n)| { SettledBelow(n, d); }
       set d, s | d in ds && s in Src(d) :: s)
    }

    lemma SrcAllOfNone(n: string)
      requires Settled(n) && PassThrough(n)
      ensures SrcAll(n, []) == {}
    {}

    lemma SrcAllStep(n: string, ds: seq<string>, d: string)
      requires Settled(n) && PassThrough(n) && d in Neighbours(deps, n)
      requires forall e | e in ds :: e in Neighbours(deps, n)
      ensures Settled(d)
      ensures SrcAll(n, ds + [d]) == SrcAll(n, ds) + Src(d)
    {
      hide Src, Settled;
      forall e | e in ds + [d] ensures Settled(e) { SettledBelow(n, e); }
      assert forall e :: e in ds + [d] <==> e in ds || e == d;
    }

    ghost function OrSelf(n: string, beyond: set<string>): set<string> {
      if beyond == {} && RootSource(n) then {n} else beyond
    }

    lemma LeadsHere(n: string)
      ensures LeadsTo(n, n)
    {
      assert Leads([n], n, n);
    }

    lemma LeadsFurther(n: string, d: string, s: string)
      requires PassThrough(n) && d in Neighbours(deps, n) && LeadsTo(d, s)
      ensures LeadsTo(n, s)
    {
      var p :| Leads(p, d, s);
      assert Leads([n] + p, n, s);
    }

    lemma LeadsOn(n: string, u: string, d: string)
      requires LeadsTo(n, u) && PassThrough(u) && d in Neighbours(deps, u)
      ensures LeadsTo(n, d)
    {
      var p :| Leads(p, n, u);
      assert Leads(p + [d], n, d);
    }

    // A path either ends at once or continues through a dependency.
    lemma LeadsCases(n: string, s: string) returns (d: string)
      requires LeadsTo(n, s)
      ensures n == s || (PassThrough(n) && d in Neighbours(deps, n) && LeadsTo(d, s))
    {
      d := n;
      var p :| Leads(p, n, s);
      if |p| > 1 {
        d := p[1];
        assert p[0 + 1] in Neighbours(deps, p[0]);
        assert Leads(p[1..], d, s);
      }
    }

    lemma InSrcAll(n: string, s: string) returns (d: string)
      requires Settled(n) && PassThrough(n) && s in SrcAll(n, Neighbours(deps, n))
      ensures d in Neighbours(deps, n) && Settled(d) && |Below(d)| < |Below(n)| && s in Src(d)
    {
      forall e | e in Neighbours(deps, n) ensures Settled(e) && |Below(e)| < |Below(n)| {
        SettledBelow(n, e);
      }
      d :| d in Neighbours(deps, n) && s in Src(d);
    }

    lemma {:induction false} CandidateLeavesSource(n: string, t: string)
      requires Settled(n) && Candidate(n, t)
      ensures Src(n) != {}
      decreases |Below(n)|
    {
      var d := LeadsCases(n, t);
      if PassThrough(n) && n != t {
        SettledBelow(n, d);
        CandidateLeavesSource(d, t);
        var s :| s in Src(d);
        assert s in Src(n);
      }
    }

    lemma {:induction false} SrcIsCandidate(n: string, s: string)
      requires Settled(n) && s in Src(n)
      ensures Candidate(n, s)
      decreases |Below(n)|
    {
      LeadsHere(n);
      if PassThrough(n) && s in SrcAll(n, Neighbours(deps, n)) {
        var d := InSrcAll(n, s);
        SrcIsCandidate(d, s);
        LeadsFurther(n, d, s);
      }
    }

    lemma ExtendsIffBeyond(n: string)
      requires Settled(n) && PassThrough(n)
      ensures Extends(n) <==> SrcAll(n, Neighbours(deps, n)) != {}
    {
      if d, t :| d in Neighbours(deps, n) && Candidate(d, t) {
        SettledBelow(n, d);
        CandidateLeavesSource(d, t);
        var s :| s in Src(d);
        assert s in SrcAll(n, Neighbours(deps, n));
      }
      if s :| s in SrcAll(n, Neighbours(deps, n)) {
        var d := InSrcAll(n, s);
        SrcIsCandidate(d, s);
      }
    }

    lemma {:induction false} SrcIsSource(n: string, s: string)
      requires Settled(n) && s in Src(n)
      ensures Source(n, s)
      decreases |Below(n)|
    {
      SrcIsCandidate(n, s);
      if PassThrough(n) {
        ExtendsIffBeyond(n);
        if s in SrcAll(n, Neighbours(deps, n)) {
          var d := InSrcAll(n, s);
          SrcIsSource(d, s);
        }
      }
    }

    lemma {:induction false} SourceIsSrc(n: string, s: string)
      requires Settled(n) && Source(n, s)
      ensures s in Src(n)
      decreases |Below(n)|
    {
      var d := LeadsCases(n, s);
      if n != s {
        SettledBelow(n, d);
        SourceIsSrc(d, s);
        assert s in SrcAll(n, Neighbours(deps, n));
      } else if PassThrough(n) {
        ExtendsIffBeyond(n);
      }
    }

    // The recursive specification computes exactly the path-based one.
    lemma SrcIsExactlySource(n: string)
      requires Settled(n)
      ensures forall s :: s in Src(n) <==> Source(n, s)
    {
      forall s ensures s in Src(n) <==> Source(n, s) {
        if s in Src(n) { SrcIsSource(n, s); }
        if Source(n, s) { SourceIsSrc(n, s); }
      }
    }

    // What one call returns and leaves in the cache, in every case.
    ghost function Answer(node: string, cache: Cache, stack: set<string>): (seq<string>, Cache)
      decreases |deps.Keys - stack|, 1, 0
    {
      if node in stack then ([], cache)
      else if node in cache then (cache[node], cache)
      else if !PassThrough(node) then ([node], cache)
      else if Neighbours(deps, node) == [] then (if RootSource(node) then [node] else [], cache)
      else
        (ProperSubsetIsSmaller(deps.Keys - (stack + {node}), deps.Keys - stack, node);
         var (resolved, after) := AnswerAll(deps[node], cache, stack + {node});
         if resolved != [] || ModuleOutput(node)
         then (SortDedup(resolved), after[node := SortDedup(resolved)])
         else (if RootSource(node) then [node] else [], after))
    }

    ghost function AnswerAll(ds: seq<string>, cache: Cache, stack: set<string>): (seq<string>, Cache)
      decreases |deps.Keys - stack|, 2, |ds|
    {
      if ds == [] then ([], cache)
      else
        var (resolved, mid) := AnswerAll(ds[..|ds| - 1], cache, stack);
        var (more, after) := Answer(ds[|ds| - 1], mid, stack);
        (resolved + more, after)
    }

    lemma OneMoreAnswer(ds: seq<string>, d: string, cache: Cache, stack: set<string>)
      ensures
        var (resolved, mid) := AnswerAll(ds, cache, stack);
        var (more, after) := Answer(d, mid, stack);
        AnswerAll(ds + [d], cache, stack) == (resolved + more, after)
    {
      assert (ds + [d])[..|ds|] == ds;
    }
  }

  type Cache = map<string, seq<string>>

  class DependencyResolver {
    const net: Network
    var cache: Cache
    var stack: set<string>

    constructor (net: Network)
      ensures this.net == net && cache == map[] && stack == {}
      ensures Valid()
    {
      this.net := net;
      cache := map[];
      stack := {};
    }

    // On every network: cached lists are canonical and hold candidates only; where no cycle is
    // reached they are the uncached specification.
    ghost predicate Valid()
      reads this
    {
      forall k | k in cache :: StrictlySorted(cache[k]) && Sound(k, cache[k]) && Exact(k, cache[k])
    }

    ghost predicate Sound(node: string, sources: seq<string>) {
      forall s | s in sources :: net.Candidate(node, s)
    }

    ghost predicate Exact(node: string, sources: seq<string>) {
      net.Settled(node) ==> Elements(sources) == net.Src(node)
    }

    // The nodes being resolved all lead down to the given one.
    ghost predicate StackAbove(node: string)
      reads this
    {
      forall x | x in stack ::
        net.PassThrough(x) && exists d :: d in Neighbours(net.deps, x) && net.LeadsTo(d, node)
    }

    method Resolve(node: string) returns (sources: seq<string>)
      requires Valid() && StackAbove(node)
      modifies this
      ensures Valid() && stack == old(stack)
      ensures StrictlySorted(sources) && Sound(node, sources) && Exact(node, sources)
      ensures (sources, cache) == net.Answer(node, old(cache), old(stack))
      decreases |net.deps.Keys - stack|, 1
    {
      net.LeadsHere(node);
      if node in stack {
        assert net.Returns(node);
        return [];
      }
      if node in cache {
        return cache[node];
      }
      var kind := net.KindOf(node);
      if kind != Var && kind != Local && kind != Output {
        return [node];
      }
      var standsForItself :=
        (kind == Var && StartsWith(node, "var.")) || (kind == Output && StartsWith(node, "output."));
      if node !in net.deps || net.deps[node] == [] {
        return if standsForItself then [node] else [];
      }

      var resolved := ResolveAll(node, net.deps[node]);
      HeadIsElement(resolved);
      if kind == Output && !StartsWith(node, "output.") {
        sources := Remember(node, resolved);
      } else if resolved == [] {
        sources := if standsForItself then [node] else [];
      } else {
        sources := Remember(node, resolved);
      }
    }

    // The loop over a node's dependencies, with the node on the stack meanwhile.
    method ResolveAll(node: string, myDeps: seq<string>) returns (resolved: seq<string>)
      requires Valid() && StackAbove(node)
      requires node in net.deps && node !in stack && net.PassThrough(node) && myDeps == net.deps[node]
      modifies this
      ensures Valid() && stack == old(stack)
      ensures Sound(node, resolved)
      ensures net.Settled(node) ==> Elements(resolved) == net.SrcAll(node, myDeps)
      ensures (resolved, cache) == net.AnswerAll(myDeps, old(cache), old(stack) + {node})
      decreases |net.deps.Keys - stack|, 0
    {
      hide Network.Settled, Network.SrcAll, Network.PassThrough, SortDedup, Network.Candidate;
      ProperSubsetIsSmaller(net.deps.Keys - (stack + {node}), net.deps.Keys - stack, node);
      stack := stack + {node};
      resolved := [];
      assert myDeps[..0] == [];
      if net.Settled(node) {
        net.SrcAllOfNone(node);
      }
      for i := 0 to |myDeps|
        invariant Valid() && stack == old(stack) + {node}
        invariant Sound(node, resolved)
        invariant net.Settled(node) ==> Elements(resolved) == net.SrcAll(node, myDeps[..i])
        invariant (resolved, cache) == net.AnswerAll(myDeps[..i], old(cache), stack)
      {
        var d := myDeps[i];
        assert myDeps[..i + 1] == myDeps[..i] + [d];
        StackAboveDependency(node, old(stack), d);
        var more := Resolve(d);
        net.OneMoreAnswer(myDeps[..i], d, old(cache), stack);
        MoreResolved(node, myDeps[..i], d, resolved, more);
        resolved := resolved + more;
      }
      assert myDeps[..|myDeps|] == myDeps;
      stack := stack - {node};
    }

    lemma StackAboveDependency(node: string, above: set<string>, d: string)
      requires stack == above + {node} && net.PassThrough(node) && d in Neighbours(net.deps, node)
      requires forall x | x in above ::
        net.PassThrough(x) && exists e :: e in Neighbours(net.deps, x) && net.LeadsTo(e, node)
      ensures StackAbove(d)
    {
      net.LeadsHere(d);
      forall x | x in above ensures exists e :: e in Neighbours(net.deps, x) && net.LeadsTo(e, d) {
        var e :| e in Neighbours(net.deps, x) && net.LeadsTo(e, node);
        net.LeadsOn(e, node, d);
      }
    }

    lemma MoreResolved(node: string, ds: seq<string>, d: string, resolved: seq<string>, more: seq<string>)
      requires net.PassThrough(node) && d in Neighbours(net.deps, node)
      requires forall e | e in ds :: e in Neighbours(net.deps, node)
      requires Sound(node, resolved) && Sound(d, more) && Exact(d, more)
      requires net.Settled(node) ==> Elements(resolved) == net.SrcAll(node, ds)
      ensures Sound(node, resolved + more)
      ensures net.Settled(node) ==> Elements(resolved + more) == net.SrcAll(node, ds + [d])
    {
      forall s | s in more ensures net.Candidate(node, s) {
        net.LeadsFurther(node, d, s);
      }
      assert Elements(resolved + more) == Elements(resolved) + Elements(more);
      if net.Settled(node) {
        net.SrcAllStep(node, ds, d);
      }
    }

    // Sort, deduplicate and cache.
    method Remember(node: string, resolved: seq<string>) returns (sources: seq<string>)
      requires Valid() && Sound(node, resolved) && Exact(node, resolved)
      modifies this`cache
      ensures Valid() && Sound(node, sources) && Exact(node, sources)
      ensures cache == old(cache)[node := sources] && sources == SortDedup(resolved)
    {
      sources := SortDedup(resolved);
      forall s | s in sources ensures net.Candidate(node, s) {
        assert s in Elements(sources);
      }
      cache := cache[node := sources];
    }
  }
}
