// Reading a recorded change map back: patching `before` gives `after`.

module PlanPatch {
  import opened Wrappers
  import opened Json
  import opened Strings
  import opened PlanDiff

  // Put a value at a path of keys; null removes the member.
  function PatchAt(v: Json, path: seq<string>, after: Json): Json
    decreases |path|
  {
    if path == [] then after
    else if !v.Object? then v
    else if |path| == 1 then
      if after == Null then Object(v.fields - {path[0]}) else Object(v.fields[path[0] := after])
    else if path[0] in v.fields then
      Object(v.fields[path[0] := PatchAt(v.fields[path[0]], path[1..], after)])
    else v
  }

  // The paths still to be patched on the way from v to after.
  ghost predicate Open(v: Json, after: Json, path: seq<string>) {
    Recorded(Some(v), Some(after), path)
  }

  // Null records a removal, so it must not also be a value that was recorded.
  ghost predicate NullFree(before: Json, after: Json) {
    forall path | path != [] && Open(before, after, path) :: Lookup(Some(after), path) != Some(Null)
  }

  ghost predicate Faithful(v: Json, after: Json, path: seq<string>) {
    path != [] ==> Lookup(Some(after), path) != Some(Null)
  }

  // One patch closes its own path and opens or closes no other.
  lemma {:induction false} PatchClosesOne(v: Json, after: Json, path: seq<string>, other: seq<string>)
    requires Open(v, after, path) && Faithful(v, after, path)
    ensures Open(PatchAt(v, path, OrNull(Lookup(Some(after), path))), after, other) <==>
      Open(v, after, other) && other != path
    decreases |path|
  {
    var target := OrNull(Lookup(Some(after), path));
    var w := PatchAt(v, path, target);
    if path == [] {
      NothingInEqual(Some(after), other);
      if other != [] {
        NothingBelowAbsent(Some(v), Some(after), other);
      }
    } else {
      RecordedBelow(Some(v), Some(after), path);
      var k, rest := path[0], path[1..];
      var b, a := Member(Some(v), k), Member(Some(after), k);
      if other != [] {
        RecordedBelow(Some(v), Some(after), other);
        RecordedBelow(Some(w), Some(after), other);
        if other[0] == k {
          assert other == [k] + other[1..] && path == [k] + rest;
          PatchedMember(v, after, path, other[1..]);
        } else {
          assert Member(Some(w), other[0]) == Member(Some(v), other[0]);
        }
      }
    }
  }

  lemma {:induction false} PatchedMember(v: Json, after: Json, path: seq<string>, other: seq<string>)
    requires path != [] && Open(v, after, path) && Faithful(v, after, path)
    ensures
      var k := path[0];
      var w := PatchAt(v, path, OrNull(Lookup(Some(after), path)));
      Recorded(Member(Some(w), k), Member(Some(after), k), other) <==>
        Recorded(Member(Some(v), k), Member(Some(after), k), other) && other != path[1..]
    decreases |path|, 0
  {
    RecordedBelow(Some(v), Some(after), path);
    var k, rest := path[0], path[1..];
    var w := PatchAt(v, path, OrNull(Lookup(Some(after), path)));
    var b, a := Member(Some(v), k), Member(Some(after), k);
    if rest == [] {
      assert Member(Some(w), k) == a;
      NothingInEqual(a, other);
      if other != [] {
        NothingBelowAbsent(b, a, other);
      }
    } else {
      RecordedBelow(b, a, rest);
      PatchClosesOne(b.value, a.value, rest, other);
    }
  }

  // -- Removals stay removed ---------------------------------------------------------------

  lemma {:induction false} RemovalRemoves(v: Json, path: seq<string>)
    requires path != []
    ensures Lookup(Some(PatchAt(v, path, Null)), path) == None
    decreases |path|
  {
    NothingInNone(path[1..]);
    if v.Object? && |path| > 1 && path[0] in v.fields {
      RemovalRemoves(v.fields[path[0]], path[1..]);
    }
  }

  ghost predicate Apart(p: seq<string>, q: seq<string>) { !(p <= q) && !(q <= p) }

  lemma {:induction false} PatchElsewhere(v: Json, path: seq<string>, after: Json, other: seq<string>)
    requires Apart(path, other)
    ensures Lookup(Some(PatchAt(v, path, after)), other) == Lookup(Some(v), other)
    decreases |path|
  {
    if v.Object? && path[0] == other[0] {
      assert path == [path[0]] + path[1..] && other == [other[0]] + other[1..];
      if path[0] in v.fields {
        PatchElsewhere(v.fields[path[0]], path[1..], after, other[1..]);
      }
    }
  }

  lemma OpenPathsAreApart(before: Json, after: Json, p: seq<string>, q: seq<string>)
    ensures Open(before, after, p) && Open(before, after, q) && p != q ==> Apart(p, q)
  {
    if Open(before, after, p) && p <= q && p != q {
      NotOpenBelow(before, after, p, q);
    }
    if Open(before, after, q) && q <= p && p != q {
      NotOpenBelow(before, after, q, p);
    }
  }

  lemma NotOpenBelow(before: Json, after: Json, p: seq<string>, q: seq<string>)
    requires Open(before, after, p) && p <= q && p != q
    ensures !Open(before, after, q)
  {
    RecordedIsAntichain(Some(before), Some(after), p, q[|p|..]);
    assert q == p + q[|p|..];
  }

  // -- Patching --------------------------------------------------------------------------------

  // Which recorded paths wait for their patch.
  ghost predicate Pending(changes: map<string, Change>, todo: set<string>, path: seq<string>) {
    exists q :: q in todo && q in changes && PathOf(q) == path
  }

  lemma PathOfIsInjective(q: string, r: string)
    requires PathOf(q) == PathOf(r)
    ensures q == r
  {
    JoinSplit(q);
    JoinSplit(r);
    assert Split(q) != [] && Split(r) != [];
  }

  // Every null applied so far, save one for the whole value, has removed its member.
  ghost predicate RemovedSoFar(changes: map<string, Change>, todo: set<string>, v: Json) {
    forall q | q in changes && q !in todo && q != "" && changes[q].after == Null ::
      Lookup(Some(v), PathOf(q)) == None
  }

  lemma RemovalsStay(
      before: Json, changes: map<string, Change>, after: Json, unknown: Option<Json>,
      todo: set<string>, q: string, was: Json)
    requires IsDiff(changes, before, after, Marks(None, None, unknown))
    requires q in changes && RemovedSoFar(changes, todo + {q}, was)
    ensures RemovedSoFar(changes, todo, PatchAt(was, PathOf(q), changes[q].after))
  {
    hide Open, IsDiff, PathOf, PatchAt, Lookup;
    var v := PatchAt(was, PathOf(q), changes[q].after);
    RecordAt(changes, before, after, unknown, q);
    forall r | r in changes && r !in todo && r != "" && changes[r].after == Null
      ensures Lookup(Some(v), PathOf(r)) == None
    {
      if r == q {
        EmptyPath(q);
        RemovalRemoves(was, PathOf(q));
      } else {
        RecordAt(changes, before, after, unknown, r);
        if PathOf(q) == PathOf(r) {
          PathOfIsInjective(q, r);
        }
        OpenPathsAreApart(before, after, PathOf(q), PathOf(r));
        PatchElsewhere(was, PathOf(q), changes[q].after, PathOf(r));
      }
    }
  }

  lemma EmptyPath(q: string)
    ensures PathOf(q) == [] <==> q == ""
  {
    assert Split(q) != [];
  }

  // Patching in any order rebuilds `after` exactly when no recorded member of it is null.
  method ApplyPatch(before: Json, changes: map<string, Change>, ghost after: Json, ghost unknown: Option<Json>)
    returns (patched: Json)
    requires GoodKeys(before) && GoodKeys(after)
    requires IsDiff(changes, before, after, Marks(None, None, unknown))
    ensures patched == after <==> NullFree(before, after)
  {
    patched := before;
    var todo := changes.Keys;
    ghost var m := Marks(None, None, unknown);
    ghost var faithful := NullFree(before, after);
    forall path ensures Open(before, after, path) <==> Pending(changes, todo, path) {
      AllPending(changes, before, after, m, path);
    }
    while todo != {}
      invariant todo <= changes.Keys
      invariant faithful ==> forall path :: Open(patched, after, path) <==> Pending(changes, todo, path)
      invariant RemovedSoFar(changes, todo, patched)
      decreases |todo|
    {
      var q :| q in todo;
      todo := todo - {q};
      ghost var was := patched;
      patched := PatchAt(patched, PathOf(q), changes[q].after);
      RecordAt(changes, before, after, unknown, q);
      if faithful {
        forall path ensures Open(patched, after, path) <==> Pending(changes, todo, path) {
          OneLessPending(changes, todo, q, path);
          assert Pending(changes, todo + {q}, PathOf(q));
          PatchClosesOne(was, after, PathOf(q), path);
        }
      }
      RemovalsStay(before, changes, after, unknown, todo, q, was);
    }
    if faithful {
      if patched != after {
        DifferenceIsOpen(patched, after);
      }
    } else {
      var path :| path != [] && Open(before, after, path) && Lookup(Some(after), path) == Some(Null);
      AllPending(changes, before, after, m, path);
      var q :| q in changes && PathOf(q) == path;
      RecordAt(changes, before, after, unknown, q);
      assert Lookup(Some(patched), path) == None;
    }
  }

  lemma DifferenceIsOpen(v: Json, after: Json)
    requires v != after
    ensures exists path :: Open(v, after, path)
  {
    var path := DifferenceIsRecorded(v, after);
    assert Open(v, after, path);
  }

  lemma AllPending(changes: map<string, Change>, before: Json, after: Json, m: Marks, path: seq<string>)
    requires GoodKeys(before) && GoodKeys(after) && IsDiff(changes, before, after, m)
    ensures Open(before, after, path) <==> Pending(changes, changes.Keys, path)
  {
    hide GoodKeys;
    DiffIsRecorded(before, after, m, path);
    if Open(before, after, path) {
      RecordedKeysAreGood(before, after, m, path);
      RenderDecodes(path);
      var q := Render("", path);
      assert (if q in changes then Some(changes[q]) else None) == DiffAt(before, after, m, PathOf(q));
    }
    if q :| q in changes && PathOf(q) == path {
      assert (if q in changes then Some(changes[q]) else None) == DiffAt(before, after, m, PathOf(q));
    }
  }

  lemma RecordAt(changes: map<string, Change>, before: Json, after: Json, unknown: Option<Json>, q: string)
    requires IsDiff(changes, before, after, Marks(None, None, unknown)) && q in changes
    ensures Open(before, after, PathOf(q))
    ensures changes[q].after == OrNull(Lookup(Some(after), PathOf(q)))
  {
    var m := Marks(None, None, unknown);
    assert DiffAt(before, after, m, PathOf(q)) == Some(changes[q]);
    DiffIsRecorded(before, after, m, PathOf(q));
    DiffHoldsValues(before, after, unknown, PathOf(q));
  }

  lemma OneLessPending(changes: map<string, Change>, todo: set<string>, q: string, path: seq<string>)
    requires q in changes && q !in todo
    ensures Pending(changes, todo, path) <==> Pending(changes, todo + {q}, path) && path != PathOf(q)
  {
    if Pending(changes, todo, path) {
      var r :| r in todo && r in changes && PathOf(r) == path;
      if path == PathOf(q) {
        PathOfIsInjective(q, r);
      }
      assert r in todo + {q};
    }
  }

  // A member that becomes null is lost: its record reads like a removal.
  lemma NullIsLost()
    ensures
      var before, after := Object(map["a" := Number(1)]), Object(map["a" := Null]);
      && !NullFree(before, after)
      && DiffAt(before, after, Marks(None, None, None), ["a"]) == Some(Change(Number(1), Null, false))
      && PatchAt(before, ["a"], Null) == Object(map[])
      && PatchAt(before, ["a"], Null) != after
  {
    var before, after := Object(map["a" := Number(1)]), Object(map["a" := Null]);
    var path := ["a"];
    assert path[1..] == [];
    DiffIsRecorded(before, after, Marks(None, None, None), path);
    assert Open(before, after, path) && Lookup(Some(after), path) == Some(Null);
    assert before.fields - {"a"} == map[];
    assert "a" in after.fields && "a" !in PatchAt(before, path, Null).fields;
  }
}
