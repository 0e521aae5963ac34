// Module paths inside an address, and the group nodes created for them.

module ModuleTree {
  import opened Wrappers
  import opened Strings

  // Where the "module.name" pairs of an address end, scanning from part i.
  function ModuleEnds(parts: seq<string>, i: nat): (ends: seq<nat>)
    requires i <= |parts|
    ensures forall j | 0 <= j < |ends| :: i + 2 <= ends[j] <= |parts|
    ensures forall j, k | 0 <= j < k < |ends| :: ends[j] < ends[k]
    decreases |parts| - i
  {
    if i + 1 < |parts| && parts[i] == "module" then [i + 2] + ModuleEnds(parts, i + 2)
    else if i < |parts| then ModuleEnds(parts, i + 1)
    else []
  }

  // Leading empty parts leave no trace in the paths.
  function DropEmpty(parts: seq<string>): (r: seq<string>)
    ensures |r| <= |parts| && r == parts[|parts| - |r|..]
    ensures forall i | 0 <= i < |parts| - |r| :: parts[i] == ""
    ensures r != [] ==> r[0] != ""
  {
    if parts != [] && parts[0] == "" then DropEmpty(parts[1..]) else parts
  }

  function PartsOf(address: string): (parts: seq<string>)
    ensures AllDotFree(parts)
    ensures parts != [] ==> parts[0] != ""
  {
    DropEmpty(Split(address))
  }

  function Paths(parts: seq<string>, ends: seq<nat>): (paths: seq<string>)
    requires forall j | 0 <= j < |ends| :: ends[j] <= |parts|
    ensures |paths| == |ends|
  {
    seq(|ends|, j requires 0 <= j < |ends| => Join(parts[..ends[j]]))
  }

  function PathsIn(parts: seq<string>): (paths: seq<string>)
    ensures |paths| == |ModuleEnds(parts, 0)|
  {
    Paths(parts, ModuleEnds(parts, 0))
  }

  // The module paths of an address, outermost first.
  function Hierarchy(address: string): seq<string> { PathsIn(PartsOf(address)) }

  function Last(h: seq<string>): Option<string> {
    if h == [] then None else Some(h[|h| - 1])
  }

  function ParentModule(address: string): Option<string> { Last(Hierarchy(address)) }

  // -- The prefix parse ------------------------------------------------------------------

  lemma {:induction false} EndsOfPrefix(parts: seq<string>, i: nat, j: nat)
    requires i <= |parts| && j < |ModuleEnds(parts, i)|
    ensures ModuleEnds(parts[..ModuleEnds(parts, i)[j]], i) == ModuleEnds(parts, i)[..j + 1]
    decreases |parts| - i
  {
    var e := ModuleEnds(parts, i)[j];
    if i + 1 < |parts| && parts[i] == "module" {
      if j > 0 {
        EndsOfPrefix(parts, i + 2, j - 1);
      } else {
        assert ModuleEnds(parts[..e], i + 2) == [];
      }
    } else {
      EndsOfPrefix(parts, i + 1, j);
    }
  }

  lemma {:induction false} DropEmptyKeeps(parts: seq<string>)
    requires parts != [] && parts[0] != ""
    ensures DropEmpty(parts) == parts
  {}

  lemma PartsOfPath(parts: seq<string>, e: nat)
    requires 0 < e <= |parts| && AllDotFree(parts) && parts[0] != ""
    ensures PartsOf(Join(parts[..e])) == parts[..e]
  {
    SplitJoin(parts[..e]);
    DropEmptyKeeps(parts[..e]);
  }

  lemma PathsOfPrefix(parts: seq<string>, ends: seq<nat>, e: nat, n: nat)
    requires e <= |parts| && n <= |ends|
    requires forall j | 0 <= j < |ends| :: ends[j] <= |parts|
    requires forall j | 0 <= j < n :: ends[j] <= e
    ensures Paths(parts[..e], ends[..n]) == Paths(parts, ends)[..n]
  {
    forall j | 0 <= j < n ensures Paths(parts[..e], ends[..n])[j] == Paths(parts, ends)[j] {
      assert parts[..e][..ends[j]] == parts[..ends[j]];
    }
  }

  lemma PathsInPrefix(parts: seq<string>, j: nat)
    requires j < |PathsIn(parts)|
    ensures PathsIn(parts[..ModuleEnds(parts, 0)[j]]) == PathsIn(parts)[..j + 1]
  {
    var ends := ModuleEnds(parts, 0);
    EndsOfPrefix(parts, 0, j);
    PathsOfPrefix(parts, ends, ends[j], j + 1);
  }

  // Parsing a module path again yields its own ancestors, so the parent of a group does not
  // depend on the address that introduced it.
  lemma PathParsesToItself(address: string, j: nat)
    requires j < |Hierarchy(address)|
    ensures Hierarchy(Hierarchy(address)[j]) == Hierarchy(address)[..j + 1]
  {
    var parts := PartsOf(address);
    PartsOfPath(parts, ModuleEnds(parts, 0)[j]);
    PathsInPrefix(parts, j);
  }

  lemma PathEndsWithItself(address: string, path: string)
    requires path in Hierarchy(address)
    ensures ParentModule(path) == Some(path)
    ensures forall q | q in Hierarchy(path) :: q in Hierarchy(address)
  {
    hide Hierarchy;
    var hierarchy := Hierarchy(address);
    var j: nat :| j < |hierarchy| && hierarchy[j] == path;
    PathParsesToItself(address, j);
    assert Hierarchy(path) == hierarchy[..j + 1] && hierarchy[..j + 1][j] == path;
    forall q | q in Hierarchy(path) ensures q in hierarchy {
      var i: nat :| i < |hierarchy[..j + 1]| && hierarchy[..j + 1][i] == q;
      assert hierarchy[i] == q;
    }
  }

  // -- The scan --------------------------------------------------------------------------

  function Push(currentPath: string, part: string): string {
    (if currentPath != "" then currentPath + DOT else currentPath) + part
  }

  // The paths the scan has still to collect.
  function Walk(parts: seq<string>, currentPath: string): seq<string> {
    if parts == [] then []
    else if parts[0] == "module" && |parts| > 1 then
      var path := Push(currentPath, "module." + parts[1]);
      [path] + Walk(parts[2..], path)
    else
      Walk(parts[1..], Push(currentPath, parts[0]))
  }

  // `extract_parent_modules`, first half: collecting the paths.
  method CollectPaths(address: string) returns (hierarchy: seq<string>)
    ensures hierarchy == Hierarchy(address)
  {
    var parts := Split(address);
    var currentPath := "";
    hierarchy := [];
    var i := 0;
    while i < |parts|
      invariant 0 <= i <= |parts|
      invariant hierarchy + Walk(parts[i..], currentPath) == Walk(parts, "")
    {
      ghost var rest := parts[i..];
      if parts[i] == "module" && i + 1 < |parts| {
        currentPath := Push(currentPath, "module." + parts[i + 1]);
        hierarchy := hierarchy + [currentPath];
        assert rest[2..] == parts[i + 2..];
        i := i + 2;
      } else {
        currentPath := Push(currentPath, parts[i]);
        assert rest[1..] == parts[i + 1..];
        i := i + 1;
      }
    }
    WalkDropsEmpty(parts);
    WalkIsHierarchy(PartsOf(address));
  }

  lemma {:induction false} WalkDropsEmpty(parts: seq<string>)
    ensures Walk(parts, "") == Walk(DropEmpty(parts), "")
  {
    if parts != [] && parts[0] == "" {
      WalkDropsEmpty(parts[1..]);
    }
  }

  lemma WalkIsHierarchy(parts: seq<string>)
    requires parts != [] ==> parts[0] != ""
    ensures Walk(parts, "") == PathsIn(parts)
  {
    WalkFrom(parts, 0);
  }

  lemma {:induction false} WalkFrom(parts: seq<string>, k: nat)
    requires k <= |parts|
    requires parts != [] ==> parts[0] != ""
    ensures Walk(parts[k..], Join(parts[..k])) == Paths(parts, ModuleEnds(parts, k))
    decreases |parts| - k
  {
    hide Push, Join;
    if k + 1 < |parts| && parts[k] == "module" {
      PushPair(parts, k);
      WalkFrom(parts, k + 2);
      assert parts[k..][2..] == parts[k + 2..];
    } else if k < |parts| {
      PushPart(parts, k);
      WalkFrom(parts, k + 1);
      assert parts[k..][1..] == parts[k + 1..];
    }
  }

  lemma PushPart(parts: seq<string>, k: nat)
    requires k < |parts| && parts[0] != ""
    ensures Push(Join(parts[..k]), parts[k]) == Join(parts[..k + 1])
  {
    assert parts[..k + 1] == parts[..k] + [parts[k]];
    if k > 0 {
      JoinAppend(parts[..k], [parts[k]]);
      JoinNonEmpty(parts[..k]);
    }
  }

  lemma PushPair(parts: seq<string>, k: nat)
    requires k + 1 < |parts| && parts[0] != "" && parts[k] == "module"
    ensures Push(Join(parts[..k]), "module." + parts[k + 1]) == Join(parts[..k + 2])
  {
    PushModule(Join(parts[..k]), parts[k + 1]);
    PushPart(parts, k);
    PushPart(parts, k + 1);
  }

  lemma PushModule(currentPath: string, name: string)
    ensures Push(currentPath, "module." + name) == Push(Push(currentPath, "module"), name)
  {
    assert "module." + name == "module" + DOT + name;
  }
}
