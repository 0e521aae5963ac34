// `compute_changes_with_sensitivity`: a structural diff flattened to dotted paths.

module PlanDiff {
  import opened Wrappers
  import opened Json
  import opened Strings

  const REDACTED := String("[REDACTED]")

  datatype Change = Change(before: Json, after: Json, afterUnknown: bool)

  // The three marker trees that accompany a pair of values.
  datatype Marks = Marks(beforeSensitive: Option<Json>, afterSensitive: Option<Json>, afterUnknown: Option<Json>) {
    function Under(k: string): Marks {
      Marks(Member(beforeSensitive, k), Member(afterSensitive, k), Member(afterUnknown, k))
    }
  }

  predicate Marked(m: Option<Json>) { m == TRUE_MARKER }

  // -- What is recorded where ------------------------------------------------------------

  // The record for two values that differ and are not both objects.
  function Replaced(before: Json, after: Json, m: Marks): Change {
    if Marked(m.beforeSensitive) || Marked(m.afterSensitive)
    then Change(REDACTED, REDACTED, Marked(m.afterUnknown))
    else Change(before, after, Marked(m.afterUnknown))
  }

  function Removed(before: Json, m: Marks): Change {
    Change(if Marked(m.beforeSensitive) then REDACTED else before, Null, false)
  }

  function Added(after: Json, m: Marks): Change {
    Change(Null, if Marked(m.afterSensitive) then REDACTED else after, Marked(m.afterUnknown))
  }

  // The change the diff records at a path of keys, if any.
  function DiffAt(before: Json, after: Json, m: Marks, path: seq<string>): Option<Change>
    decreases |path|, 0
  {
    if !(before.Object? && after.Object?) then
      if path == [] && before != after then Some(Replaced(before, after, m)) else None
    else if path == [] then
      None
    else
      ChildDiffAt(Member(Some(before), path[0]), Member(Some(after), path[0]), m.Under(path[0]), path[1..])
  }

  function ChildDiffAt(before: Option<Json>, after: Option<Json>, m: Marks, path: seq<string>): Option<Change>
    decreases |path|, 1
  {
    match (before, after)
    case (Some(b), Some(a)) => if b != a then DiffAt(b, a, m, path) else None
    case (Some(b), None) => if path == [] then Some(Removed(b, m)) else None
    case (None, Some(a)) => if path == [] then Some(Added(a, m)) else None
    case (None, None) => None
  }

  // The path string: a key is appended with a dot unless the path is still empty.
  function Extend(path: string, key: string): string {
    if path == "" then key else path + DOT + key
  }

  function Render(path: string, keys: seq<string>): string
    decreases |keys|
  {
    if keys == [] then path else Render(Extend(path, keys[0]), keys[1..])
  }

  // -- The diff by lookups alone -------------------------------------------------------------

  predicate BothObjects(before: Option<Json>, after: Option<Json>) { IsObject(before) && IsObject(after) }

  // A path is recorded where the values differ without both being objects, below objects only.
  ghost predicate Recorded(before: Option<Json>, after: Option<Json>, path: seq<string>) {
    && Lookup(before, path) != Lookup(after, path)
    && !BothObjects(Lookup(before, path), Lookup(after, path))
    && forall i | 0 <= i < |path| :: BothObjects(Lookup(before, path[..i]), Lookup(after, path[..i]))
  }

  lemma RecordedBelow(before: Option<Json>, after: Option<Json>, path: seq<string>)
    requires path != []
    ensures Recorded(before, after, path) <==>
      && BothObjects(before, after)
      && Recorded(Member(before, path[0]), Member(after, path[0]), path[1..])
  {
    var k, rest := path[0], path[1..];
    if Recorded(before, after, path) {
      assert BothObjects(Lookup(before, path[..0]), Lookup(after, path[..0]));
      forall i | 0 <= i < |rest|
        ensures BothObjects(Lookup(Member(before, k), rest[..i]), Lookup(Member(after, k), rest[..i]))
      {
        assert path[..i + 1][1..] == rest[..i];
        assert BothObjects(Lookup(before, path[..i + 1]), Lookup(after, path[..i + 1]));
      }
    }
    if BothObjects(before, after) && Recorded(Member(before, k), Member(after, k), rest) {
      forall i | 0 <= i < |path|
        ensures BothObjects(Lookup(before, path[..i]), Lookup(after, path[..i]))
      {
        if i > 0 {
          assert path[..i][1..] == rest[..i - 1];
          assert BothObjects(Lookup(Member(before, k), rest[..i - 1]), Lookup(Member(after, k), rest[..i - 1]));
        }
      }
    }
  }

  lemma {:induction false} NothingBelowAbsent(before: Option<Json>, after: Option<Json>, path: seq<string>)
    requires path != [] && !BothObjects(before, after)
    ensures !Recorded(before, after, path)
  {
    RecordedBelow(before, after, path);
  }

  lemma {:induction false} NothingInEqual(v: Option<Json>, path: seq<string>)
    ensures !Recorded(v, v, path)
  {}

  // The recursive diff records exactly those paths.
  lemma {:induction false} DiffIsRecorded(before: Json, after: Json, m: Marks, path: seq<string>)
    ensures DiffAt(before, after, m, path).Some? <==> Recorded(Some(before), Some(after), path)
    decreases |path|
  {
    if path != [] {
      RecordedBelow(Some(before), Some(after), path);
      var b, a := Member(Some(before), path[0]), Member(Some(after), path[0]);
      if b.Some? && a.Some? {
        DiffIsRecorded(b.value, a.value, m.Under(path[0]), path[1..]);
        NothingInEqual(b, path[1..]);
      } else if path[1..] != [] {
        NothingBelowAbsent(b, a, path[1..]);
      }
    }
  }

  // The markers found at a path.
  function MarksAt(m: Marks, path: seq<string>): Marks {
    Marks(Lookup(m.beforeSensitive, path), Lookup(m.afterSensitive, path), Lookup(m.afterUnknown, path))
  }

  lemma LookupOne(v: Option<Json>, path: seq<string>)
    requires |path| == 1
    ensures Lookup(v, path) == Member(v, path[0])
  {
    assert path[1..] == [];
  }

  // The record of a path, from what the values and the markers hold there: null stands for
  // absence and a value whose own marker is true is redacted.
  function Content(before: Option<Json>, after: Option<Json>, m: Marks): Option<Change> {
    match (before, after)
    case (Some(b), Some(a)) => Some(Replaced(b, a, m))
    case (Some(b), None) => Some(Removed(b, m))
    case (None, Some(a)) => Some(Added(a, m))
    case (None, None) => None
  }

  lemma {:induction false} DiffContent(before: Json, after: Json, m: Marks, path: seq<string>)
    requires DiffAt(before, after, m, path).Some?
    ensures DiffAt(before, after, m, path) ==
      Content(Lookup(Some(before), path), Lookup(Some(after), path), MarksAt(m, path))
    decreases |path|
  {
    if path != [] {
      var b, a := Member(Some(before), path[0]), Member(Some(after), path[0]);
      if b.Some? && a.Some? {
        DiffContent(b.value, a.value, m.Under(path[0]), path[1..]);
        assert MarksAt(m.Under(path[0]), path[1..]) == MarksAt(m, path);
      } else {
        LookupOne(m.beforeSensitive, path);
        LookupOne(m.afterSensitive, path);
        LookupOne(m.afterUnknown, path);
      }
    }
  }

  // A marker tree says true at a path.
  ghost predicate SaysTrue(marks: Option<Json>, path: seq<string>) {
    Lookup(marks, path) == Some(Bool(true))
  }

  // The record of a path in full: with both values a true sensitive marker of either redacts both;
  // a value that stands alone is redacted by its own marker and null stands in for the other; the
  // unknown flag needs a new value.
  lemma RecordIs(before: Json, after: Json, m: Marks, path: seq<string>)
    requires DiffAt(before, after, m, path).Some?
    ensures
      var c := DiffAt(before, after, m, path).value;
      var was, now := Lookup(Some(before), path), Lookup(Some(after), path);
      var redacted := String("[REDACTED]");
      && (was.Some? || now.Some?)
      && (was.Some? && now.Some? && (SaysTrue(m.beforeSensitive, path) || SaysTrue(m.afterSensitive, path)) ==>
            c.before == redacted && c.after == redacted)
      && (was.Some? && now.Some? && !SaysTrue(m.beforeSensitive, path) && !SaysTrue(m.afterSensitive, path) ==>
            c.before == was.value && c.after == now.value)
      && (was.Some? && now.None? ==>
            c.before == (if SaysTrue(m.beforeSensitive, path) then redacted else was.value) && c.after == Null)
      && (was.None? && now.Some? ==>
            c.before == Null && c.after == (if SaysTrue(m.afterSensitive, path) then redacted else now.value))
      && (c.afterUnknown <==> now.Some? && SaysTrue(m.afterUnknown, path))
  {
    DiffContent(before, after, m, path);
    DiffIsRecorded(before, after, m, path);
  }

  // Two pairs of values that differ at the same paths and hold the same there, save values that a
  // true marker covers.
  ghost predicate SameOffMarks(was: Option<Json>, now: Option<Json>, was': Option<Json>, now': Option<Json>,
    markedWas: bool, markedNow: bool)
  {
    && (was.Some? <==> was'.Some?) && (now.Some? <==> now'.Some?)
    && (was != was' ==> markedWas || (now.Some? && markedNow))
    && (now != now' ==> markedNow || (was.Some? && markedWas))
  }

  // What is marked at a recorded path never reaches the record.
  lemma RedactedDoesNotInterfere(
      before: Json, after: Json, before': Json, after': Json, m: Marks, path: seq<string>)
    requires Recorded(Some(before), Some(after), path) <==> Recorded(Some(before'), Some(after'), path)
    requires Recorded(Some(before), Some(after), path) ==>
      SameOffMarks(
        Lookup(Some(before), path), Lookup(Some(after), path), Lookup(Some(before'), path), Lookup(Some(after'), path),
        SaysTrue(m.beforeSensitive, path), SaysTrue(m.afterSensitive, path))
    ensures DiffAt(before, after, m, path) == DiffAt(before', after', m, path)
  {
    DiffIsRecorded(before, after, m, path);
    DiffIsRecorded(before', after', m, path);
    if DiffAt(before, after, m, path).Some? {
      RecordIs(before, after, m, path);
      RecordIs(before', after', m, path);
    }
  }

  // Without sensitive markers the record holds the two values.
  lemma DiffHoldsValues(before: Json, after: Json, unknown: Option<Json>, path: seq<string>)
    requires DiffAt(before, after, Marks(None, None, unknown), path).Some?
    ensures
      var change := DiffAt(before, after, Marks(None, None, unknown), path).value;
      && change.before == OrNull(Lookup(Some(before), path))
      && change.after == OrNull(Lookup(Some(after), path))
  {
    hide DiffAt, Lookup;
    NothingInNone(path);
    RecordIs(before, after, Marks(None, None, unknown), path);
  }

  // No recorded path extends another one.
  lemma RecordedIsAntichain(before: Option<Json>, after: Option<Json>, p: seq<string>, q: seq<string>)
    requires Recorded(before, after, p) && q != []
    ensures !Recorded(before, after, p + q)
  {
    assert (p + q)[..|p|] == p;
  }

  // Two values that differ have a recorded path.
  lemma {:induction false} DifferenceIsRecorded(before: Json, after: Json) returns (path: seq<string>)
    requires before != after
    ensures Recorded(Some(before), Some(after), path)
  {
    if before.Object? && after.Object? {
      var k: string :| Member(Some(before), k) != Member(Some(after), k) by {
        if forall k: string :: Member(Some(before), k) == Member(Some(after), k) {
          EqualByMember(Some(before), Some(after));
        }
      }
      var b, a := Member(Some(before), k), Member(Some(after), k);
      var rest: seq<string> := [];
      if b.Some? && a.Some? {
        rest := DifferenceIsRecorded(b.value, a.value);
      }
      path := [k] + rest;
      RecordedBelow(Some(before), Some(after), path);
    } else {
      path := [];
    }
  }

  // -- Path strings ------------------------------------------------------------------------------

  predicate GoodKey(k: string) { k != "" && DotFree(k) }

  // Object keys, as deep as objects nest, are nonempty and free of dots.
  ghost predicate GoodKeys(v: Json) {
    v.Object? ==> forall k | k in v.fields :: GoodKey(k) && GoodKeys(v.fields[k])
  }

  predicate GoodPath(path: seq<string>) {
    forall i | 0 <= i < |path| :: GoodKey(path[i])
  }

  // Reading a path string back.
  function PathOf(path: string): seq<string> {
    if path == "" then [] else Split(path)
  }

  lemma {:induction false} RenderAppends(path: string, keys: seq<string>)
    requires GoodPath(keys) && keys != []
    ensures Render(path, keys) == Extend(path, Join(keys))
    decreases |keys|
  {
    if |keys| > 1 {
      var next := Extend(path, keys[0]);
      RenderAppends(next, keys[1..]);
      assert next != "";
      assert Join(keys) == keys[0] + DOT + Join(keys[1..]);
    } else {
      assert Render(Extend(path, keys[0]), keys[1..]) == Extend(path, keys[0]);
    }
  }

  // A rendered path decodes to the keys it was made from.
  lemma RenderDecodes(keys: seq<string>)
    requires GoodPath(keys)
    ensures PathOf(Render("", keys)) == keys
  {
    if keys != [] {
      RenderAppends("", keys);
      JoinNonEmpty(keys);
      SplitJoin(keys);
    }
  }

  lemma {:induction false} RecordedKeysAreGood(before: Json, after: Json, m: Marks, path: seq<string>)
    requires GoodKeys(before) && GoodKeys(after)
    requires DiffAt(before, after, m, path).Some?
    ensures GoodPath(path)
    decreases |path|
  {
    if path != [] {
      var b, a := Member(Some(before), path[0]), Member(Some(after), path[0]);
      assert GoodKey(path[0]);
      if b.Some? && a.Some? {
        RecordedKeysAreGood(b.value, a.value, m.Under(path[0]), path[1..]);
      }
      assert path == [path[0]] + path[1..];
    }
  }

  // -- The recorded map --------------------------------------------------------------------------------

  // The map holds exactly the recorded paths, each with its change.
  ghost predicate IsDiff(changes: map<string, Change>, before: Json, after: Json, m: Marks) {
    forall q :: (if q in changes then Some(changes[q]) else None) == DiffAt(before, after, m, PathOf(q))
  }

  lemma RenderEncodes(q: string)
    requires GoodPath(PathOf(q))
    ensures Render("", PathOf(q)) == q
  {
    JoinSplit(q);
    if q != "" {
      RenderAppends("", PathOf(q));
    }
  }

  lemma DiffIsUnique(x: map<string, Change>, y: map<string, Change>, before: Json, after: Json, m: Marks)
    requires IsDiff(x, before, after, m) && IsDiff(y, before, after, m)
    ensures x == y
  {
    forall q
      ensures q in x <==> q in y
      ensures q in x && q in y ==> x[q] == y[q]
    {
      assert (if q in x then Some(x[q]) else None) == DiffAt(before, after, m, PathOf(q));
      assert (if q in y then Some(y[q]) else None) == DiffAt(before, after, m, PathOf(q));
    }
    EqualByLookup(x, y);
  }
}
