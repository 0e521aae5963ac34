// The recorder of the plan diff: changes inserted into one shared map, at every object in the
// order its hash set happens to list the keys.

module DiffRecorder {
  import opened Wrappers
  import opened Json
  import opened Strings
  import opened PlanDiff

  // -- Orders ------------------------------------------------------------------------------

  // The order in which the keys of two objects come, and the orders below them.
  datatype KeyOrder = KeyOrder(keys: seq<string>, below: map<string, KeyOrder>) {
    function Below(k: string): KeyOrder {
      if k in below then below[k] else KeyOrder([], map[])
    }
  }

  function KeysOfBoth(before: Json, after: Json): set<string>
    requires before.Object? && after.Object?
  {
    before.fields.Keys + after.fields.Keys
  }

  // A key under which the recursion goes on.
  predicate Descends(before: Json, after: Json, k: string)
    requires before.Object? && after.Object?
  {
    k in before.fields && k in after.fields && before.fields[k] != after.fields[k]
  }

  // Every object lists each of its keys once.
  ghost predicate Legal(order: KeyOrder, before: Json, after: Json)
    decreases before
  {
    before.Object? && after.Object? ==>
      && NoRepeats(order.keys)
      && Elements(order.keys) == KeysOfBoth(before, after)
      && forall k | k in before.fields && Descends(before, after, k) ::
           Legal(order.Below(k), before.fields[k], after.fields[k])
  }

  // -- The log of insertions ---------------------------------------------------------------

  type Log = seq<(string, Change)>

  function DiffLog(order: KeyOrder, path: string, before: Json, after: Json, m: Marks): Log
    decreases before, 1, 0
  {
    if before.Object? && after.Object? then KeysLog(order, order.keys, path, before, after, m)
    else if before != after then [(path, Replaced(before, after, m))]
    else []
  }

  function KeysLog(order: KeyOrder, keys: seq<string>, path: string, before: Json, after: Json, m: Marks): Log
    requires before.Object? && after.Object?
    decreases before, 0, |keys|
  {
    if keys == [] then []
    else
      var last := |keys| - 1;
      KeysLog(order, keys[..last], path, before, after, m) + KeyLog(order, keys[last], path, before, after, m)
  }

  function KeyLog(order: KeyOrder, k: string, path: string, before: Json, after: Json, m: Marks): Log
    requires before.Object? && after.Object?
    decreases before, 0, 0
  {
    if k in before.fields && k in after.fields then
      if before.fields[k] != after.fields[k]
      then DiffLog(order.Below(k), Extend(path, k), before.fields[k], after.fields[k], m.Under(k))
      else []
    else if k in before.fields then [(Extend(path, k), Removed(before.fields[k], m.Under(k)))]
    else if k in after.fields then [(Extend(path, k), Added(after.fields[k], m.Under(k)))]
    else []
  }

  // The map after the insertions of a log: the last one at a path string stands.
  function Inserted(was: map<string, Change>, log: Log): map<string, Change> {
    if log == [] then was
    else var last := log[|log| - 1]; Inserted(was, log[..|log| - 1])[last.0 := last.1]
  }

  lemma {:induction false} InsertedAppend(was: map<string, Change>, a: Log, b: Log)
    ensures Inserted(was, a + b) == Inserted(Inserted(was, a), b)
  {
    if b == [] {
      assert a + b == a;
    } else {
      var rest := b[..|b| - 1];
      assert (a + b)[..|a + b| - 1] == a + rest;
      InsertedAppend(was, a, rest);
    }
  }

  // Only logged paths are in the map, each with one of the changes logged there.
  lemma {:induction false} InsertedIsLogged(log: Log)
    ensures forall q | q in Inserted(map[], log) :: (q, Inserted(map[], log)[q]) in log
    ensures forall r | r in log :: r.0 in Inserted(map[], log)
  {
    if log != [] {
      var rest := log[..|log| - 1];
      InsertedIsLogged(rest);
      assert forall r :: r in log <==> r in rest || r == log[|log| - 1];
    }
  }

  function Outcome(order: KeyOrder, before: Json, after: Json, m: Marks): map<string, Change> {
    Inserted(map[], DiffLog(order, "", before, after, m))
  }

  // -- A log in any order holds exactly the recorded paths ---------------------------------------

  lemma {:induction false} KeysLogSplits(
      order: KeyOrder, keys: seq<string>, path: string, before: Json, after: Json, m: Marks, r: (string, Change))
    requires before.Object? && after.Object?
    ensures r in KeysLog(order, keys, path, before, after, m) <==>
      exists k :: k in keys && r in KeyLog(order, k, path, before, after, m)
  {
    if keys != [] {
      var rest := keys[..|keys| - 1];
      KeysLogSplits(order, rest, path, before, after, m, r);
      var last := keys[|keys| - 1];
      assert keys == rest + [last];
      if r in KeyLog(order, last, path, before, after, m) {
        assert last in keys;
      }
      if k :| k in keys && r in KeyLog(order, k, path, before, after, m) {
        assert k in rest || k == last;
      }
    }
  }

  lemma {:induction false} RecordedIsLogged(
      order: KeyOrder, path: string, before: Json, after: Json, m: Marks, keys: seq<string>)
    requires Legal(order, before, after) && DiffAt(before, after, m, keys).Some?
    ensures (Render(path, keys), DiffAt(before, after, m, keys).value) in DiffLog(order, path, before, after, m)
    decreases |keys|
  {
    if keys != [] {
      var k, r := keys[0], (Render(path, keys), DiffAt(before, after, m, keys).value);
      if Descends(before, after, k) {
        RecordedIsLogged(
          order.Below(k), Extend(path, k), before.fields[k], after.fields[k], m.Under(k), keys[1..]);
      } else {
        assert keys[1..] == [] && Render(path, keys) == Extend(path, k);
      }
      assert k in Elements(order.keys) && r in KeyLog(order, k, path, before, after, m);
      KeysLogSplits(order, order.keys, path, before, after, m, r);
    }
  }

  lemma {:induction false} LoggedIsRecorded(
      order: KeyOrder, path: string, before: Json, after: Json, m: Marks, r: (string, Change))
    returns (keys: seq<string>)
    requires r in DiffLog(order, path, before, after, m)
    ensures Render(path, keys) == r.0 && DiffAt(before, after, m, keys) == Some(r.1)
    decreases before
  {
    keys := [];
    if before.Object? && after.Object? {
      KeysLogSplits(order, order.keys, path, before, after, m, r);
      var k :| k in order.keys && r in KeyLog(order, k, path, before, after, m);
      var rest: seq<string> := [];
      if Descends(before, after, k) {
        rest := LoggedIsRecorded(
          order.Below(k), Extend(path, k), before.fields[k], after.fields[k], m.Under(k), r);
      }
      keys := [k] + rest;
      assert keys[1..] == rest;
    }
  }

  // -- The recorder itself ---------------------------------------------------------------------

  class ChangeLog {
    var changes: map<string, Change>

    constructor ()
      ensures changes == map[]
    {
      changes := map[];
    }

    // `diff_values_with_sensitivity`; the keys come from a hash set, in any order.
    method Diff(path: string, before: Json, after: Json, m: Marks) returns (ghost order: KeyOrder)
      modifies this
      ensures Legal(order, before, after)
      ensures changes == Inserted(old(changes), DiffLog(order, path, before, after, m))
      decreases before, 1
    {
      var isSensitive := Marked(m.beforeSensitive) || Marked(m.afterSensitive);
      var isUnknown := Marked(m.afterUnknown);
      order := KeyOrder([], map[]);
      if before.Object? && after.Object? {
        order := DiffKeys(path, before, after, m);
      } else if before.Array? && after.Array? && before != after {
        if isSensitive {
          changes := changes[path := Change(REDACTED, REDACTED, isUnknown)];
        } else {
          changes := changes[path := Change(before, after, isUnknown)];
        }
      } else if before != after {
        var beforeValue := if isSensitive then REDACTED else before;
        var afterValue := if isSensitive then REDACTED else after;
        changes := changes[path := Change(beforeValue, afterValue, isUnknown)];
      }
    }

    // The loop over the keys of both objects.
    method DiffKeys(path: string, before: Json, after: Json, m: Marks) returns (ghost order: KeyOrder)
      requires before.Object? && after.Object?
      modifies this
      ensures Legal(order, before, after)
      ensures changes == Inserted(old(changes), KeysLog(order, order.keys, path, before, after, m))
      decreases before, 0
    {
      hide Legal, Inserted, KeyLog, KeysLog, DiffLog;
      var todo := before.fields.Keys + after.fields.Keys;
      order := KeyOrder([], map[]);
      NothingYet(changes, order, path, before, after, m);
      while todo != {}
        invariant todo <= KeysOfBoth(before, after)
        invariant Listing(order, before, after, todo)
        invariant changes == Inserted(old(changes), KeysLog(order, order.keys, path, before, after, m))
        decreases |todo|
      {
        var key :| key in todo;
        ghost var mid, sub := changes, KeyOrder([], map[]);
        var newPath := Extend(path, key);
        var marks := m.Under(key);
        if key in before.fields && key in after.fields {
          if before.fields[key] != after.fields[key] {
            sub := Diff(newPath, before.fields[key], after.fields[key], marks);
          }
        } else if key in before.fields {
          var value := if Marked(marks.beforeSensitive) then REDACTED else before.fields[key];
          changes := changes[newPath := Change(value, Null, false)];
        } else {
          var value := if Marked(marks.afterSensitive) then REDACTED else after.fields[key];
          changes := changes[newPath := Change(Null, value, Marked(marks.afterUnknown))];
        }
        ghost var next := KeyOrder(order.keys + [key], order.below[key := sub]);
        OneKeyInserted(mid, next, key, path, before, after, m, changes);
        OneMoreKey(order, next, key, path, before, after, m);
        InsertedAppend(
          old(changes), KeysLog(order, order.keys, path, before, after, m), KeyLog(next, key, path, before, after, m));
        OneKeyListed(order, next, before, after, todo, key);
        order := next;
        todo := todo - {key};
      }
      AllListed(order, before, after);
    }
  }

  // The keys outside `todo` are listed, with legal orders below.
  ghost predicate Listing(order: KeyOrder, before: Json, after: Json, todo: set<string>)
    requires before.Object? && after.Object?
  {
    && NoRepeats(order.keys)
    && Elements(order.keys) == KeysOfBoth(before, after) - todo
    && forall k | k in order.keys && Descends(before, after, k) ::
         Legal(order.Below(k), before.fields[k], after.fields[k])
  }

  lemma NothingYet(was: map<string, Change>, order: KeyOrder, path: string, before: Json, after: Json, m: Marks)
    requires before.Object? && after.Object? && order.keys == []
    ensures Listing(order, before, after, KeysOfBoth(before, after))
    ensures was == Inserted(was, KeysLog(order, order.keys, path, before, after, m))
  {}

  lemma OneKeyListed(
      order: KeyOrder, next: KeyOrder, before: Json, after: Json, todo: set<string>, k: string)
    requires before.Object? && after.Object?
    requires k in todo && todo <= KeysOfBoth(before, after) && Listing(order, before, after, todo)
    requires next.keys == order.keys + [k] && next.below == order.below[k := next.Below(k)]
    requires Descends(before, after, k) ==> Legal(next.Below(k), before.fields[k], after.fields[k])
    ensures Listing(next, before, after, todo - {k})
  {
    hide Legal;
    OneMoreListed(order.keys, k);
    forall j | j in next.keys && Descends(before, after, j)
      ensures Legal(next.Below(j), before.fields[j], after.fields[j])
    {
      if j != k { assert next.Below(j) == order.Below(j); }
    }
  }

  lemma AllListed(order: KeyOrder, before: Json, after: Json)
    requires before.Object? && after.Object? && Listing(order, before, after, {})
    ensures Legal(order, before, after)
  {
    forall k | k in before.fields && Descends(before, after, k)
      ensures Legal(order.Below(k), before.fields[k], after.fields[k])
    {
      assert k in Elements(order.keys);
    }
  }

  // The insertions of one key.
  lemma OneKeyInserted(
      was: map<string, Change>, order: KeyOrder, k: string, path: string, before: Json, after: Json, m: Marks,
      now: map<string, Change>)
    requires before.Object? && after.Object? && k in KeysOfBoth(before, after)
    requires
      var p, marks := Extend(path, k), m.Under(k);
      now ==
        if k in before.fields && k in after.fields then
          if before.fields[k] != after.fields[k]
          then Inserted(was, DiffLog(order.Below(k), p, before.fields[k], after.fields[k], marks))
          else was
        else if k in before.fields then was[p := Removed(before.fields[k], marks)]
        else was[p := Added(after.fields[k], marks)]
    ensures now == Inserted(was, KeyLog(order, k, path, before, after, m))
  {
    hide DiffLog;
    var log := KeyLog(order, k, path, before, after, m);
    if |log| == 1 {
      assert Inserted(was, log) == was[log[0].0 := log[0].1];
    }
  }

  // Listing one more key appends its insertions to the log.
  lemma OneMoreKey(
      order: KeyOrder, next: KeyOrder, k: string, path: string, before: Json, after: Json, m: Marks)
    requires before.Object? && after.Object? && k !in order.keys
    requires next.keys == order.keys + [k] && next.below == order.below[k := next.Below(k)]
    ensures KeysLog(next, next.keys, path, before, after, m) ==
      KeysLog(order, order.keys, path, before, after, m) + KeyLog(next, k, path, before, after, m)
  {
    assert next.keys[..|next.keys| - 1] == order.keys;
    SameBelow(order, next, order.keys, path, before, after, m);
  }

  lemma {:induction false} SameBelow(
      x: KeyOrder, y: KeyOrder, keys: seq<string>, path: string, before: Json, after: Json, m: Marks)
    requires before.Object? && after.Object?
    requires forall k | k in keys :: x.Below(k) == y.Below(k)
    ensures KeysLog(x, keys, path, before, after, m) == KeysLog(y, keys, path, before, after, m)
  {
    if keys != [] {
      SameBelow(x, y, keys[..|keys| - 1], path, before, after, m);
    }
  }

  // -- The result ------------------------------------------------------------------------------

  method ComputeChanges(before: Option<Json>, after: Option<Json>, m: Marks)
    returns (changes: Option<map<string, Change>>)
    ensures before.None? || after.None? ==> changes == None
    ensures before.Some? && after.Some? ==> (changes == None <==> before == after)
    ensures before.Some? && after.Some? && changes.Some? ==>
      exists order :: Legal(order, before.value, after.value)
        && changes.value == Outcome(order, before.value, after.value, m)
    ensures before.Some? && after.Some? && changes.Some? && GoodKeys(before.value) && GoodKeys(after.value) ==>
      IsDiff(changes.value, before.value, after.value, m)
  {
    hide Legal, GoodKeys, IsDiff;
    if before.None? || after.None? {
      return None;
    }
    var log := new ChangeLog();
    ghost var order := log.Diff("", before.value, after.value, m);
    EmptyIffEqual(order, before.value, after.value, m);
    if log.changes == map[] {
      return None;
    }
    if GoodKeys(before.value) && GoodKeys(after.value) {
      OutcomeIsDiff(order, before.value, after.value, m);
    }
    return Some(log.changes);
  }

  lemma EmptyIffEqual(order: KeyOrder, before: Json, after: Json, m: Marks)
    requires Legal(order, before, after)
    ensures Outcome(order, before, after, m) == map[] <==> before == after
  {
    hide Legal, DiffLog, Inserted;
    var log := DiffLog(order, "", before, after, m);
    InsertedIsLogged(log);
    if before != after {
      var path := DifferenceIsRecorded(before, after);
      DiffIsRecorded(before, after, m, path);
      RecordedIsLogged(order, "", before, after, m, path);
      assert Render("", path) in Outcome(order, before, after, m);
    } else if q :| q in Outcome(order, before, after, m) {
      var keys := LoggedIsRecorded(order, "", before, after, m, (q, Outcome(order, before, after, m)[q]));
      DiffIsRecorded(before, after, m, keys);
      NothingInEqual(Some(before), keys);
      assert false;
    }
  }

  // With good keys path strings decode, so the map is the diff by lookups, in any order.
  lemma OutcomeIsDiff(order: KeyOrder, before: Json, after: Json, m: Marks)
    requires GoodKeys(before) && GoodKeys(after)
    requires Legal(order, before, after)
    ensures IsDiff(Outcome(order, before, after, m), before, after, m)
  {
    hide GoodKeys, Legal, DiffLog, Inserted;
    var changes := Outcome(order, before, after, m);
    InsertedIsLogged(DiffLog(order, "", before, after, m));
    forall q ensures (if q in changes then Some(changes[q]) else None) == DiffAt(before, after, m, PathOf(q)) {
      if DiffAt(before, after, m, PathOf(q)).Some? {
        RecordedKeysAreGood(before, after, m, PathOf(q));
        RenderEncodes(q);
        RecordedIsLogged(order, "", before, after, m, PathOf(q));
      }
      if q in changes {
        var keys := LoggedIsRecorded(order, "", before, after, m, (q, changes[q]));
        RecordedKeysAreGood(before, after, m, keys);
        RenderDecodes(keys);
      }
    }
  }

  // -- When the order matters --------------------------------------------------------------------

  // Two recorded paths with one path string and different contents.
  ghost predicate Clash(before: Json, after: Json, m: Marks, p: seq<string>, q: seq<string>) {
    && Recorded(Some(before), Some(after), p) && Recorded(Some(before), Some(after), q)
    && Render("", p) == Render("", q)
    && Content(Lookup(Some(before), p), Lookup(Some(after), p), MarksAt(m, p))
       != Content(Lookup(Some(before), q), Lookup(Some(after), q), MarksAt(m, q))
  }

  ghost predicate OrderIsImmaterial(before: Json, after: Json, m: Marks) {
    forall x, y | Legal(x, before, after) && Legal(y, before, after) ::
      Outcome(x, before, after, m) == Outcome(y, before, after, m)
  }

  // All orders give one map exactly when no two recorded paths clash.
  lemma OrderIsImmaterialIffNoClash(before: Json, after: Json, m: Marks)
    ensures OrderIsImmaterial(before, after, m) <==> !exists p, q :: Clash(before, after, m, p, q)
  {
    hide Legal, Clash, Outcome;
    if p, q :| Clash(before, after, m, p, q) {
      ClashIsVisible(before, after, m, p, q);
    } else {
      forall x, y | Legal(x, before, after) && Legal(y, before, after)
        ensures Outcome(x, before, after, m) == Outcome(y, before, after, m)
      {
        forall k
          ensures k in Outcome(x, before, after, m) ==> k in Outcome(y, before, after, m)
          ensures k in Outcome(y, before, after, m) ==> k in Outcome(x, before, after, m)
          ensures k in Outcome(x, before, after, m) && k in Outcome(y, before, after, m) ==>
            Outcome(x, before, after, m)[k] == Outcome(y, before, after, m)[k]
        {
          if k in Outcome(x, before, after, m) { SameEntry(x, y, before, after, m, k); }
          if k in Outcome(y, before, after, m) { SameEntry(y, x, before, after, m, k); }
        }
        EqualByLookup(Outcome(x, before, after, m), Outcome(y, before, after, m));
      }
    }
  }

  lemma SameEntry(x: KeyOrder, y: KeyOrder, before: Json, after: Json, m: Marks, k: string)
    requires Legal(x, before, after) && Legal(y, before, after)
    requires !exists p, q :: Clash(before, after, m, p, q)
    requires k in Outcome(x, before, after, m)
    ensures k in Outcome(y, before, after, m)
    ensures Outcome(x, before, after, m)[k] == Outcome(y, before, after, m)[k]
  {
    hide Legal, DiffLog, Inserted;
    InsertedIsLogged(DiffLog(x, "", before, after, m));
    InsertedIsLogged(DiffLog(y, "", before, after, m));
    var p := LoggedIsRecorded(x, "", before, after, m, (k, Outcome(x, before, after, m)[k]));
    RecordedIsLogged(y, "", before, after, m, p);
    var q := LoggedIsRecorded(y, "", before, after, m, (k, Outcome(y, before, after, m)[k]));
    DiffIsRecorded(before, after, m, p);
    DiffIsRecorded(before, after, m, q);
    DiffContent(before, after, m, p);
    DiffContent(before, after, m, q);
    assert !Clash(before, after, m, p, q);
  }

  // Each of two clashing paths comes last in some order, and then its content stands.
  lemma ClashIsVisible(before: Json, after: Json, m: Marks, p: seq<string>, q: seq<string>)
    requires Clash(before, after, m, p, q)
    ensures !OrderIsImmaterial(before, after, m)
  {
    hide Legal, DiffLog;
    DiffIsRecorded(before, after, m, p);
    DiffIsRecorded(before, after, m, q);
    DiffContent(before, after, m, p);
    DiffContent(before, after, m, q);
    var x := LastInOrder("", before, after, m, p);
    var y := LastInOrder("", before, after, m, q);
    assert Outcome(x, before, after, m)[Render("", p)] == DiffAt(before, after, m, p).value;
    assert Outcome(y, before, after, m)[Render("", p)] == DiffAt(before, after, m, q).value;
  }

  // Any recorded path is the last insertion of some order: its keys come last at every level.
  lemma {:induction false} LastInOrder(path: string, before: Json, after: Json, m: Marks, p: seq<string>)
    returns (order: KeyOrder)
    requires DiffAt(before, after, m, p).Some?
    ensures Legal(order, before, after)
    ensures
      var log := DiffLog(order, path, before, after, m);
      log != [] && log[|log| - 1] == (Render(path, p), DiffAt(before, after, m, p).value)
    decreases |p|
  {
    hide Legal, DiffLog, KeyLog, KeysLog, Render;
    order := SomeOrder(before, after);
    if p == [] {
      LeafLog(order, path, before, after, m);
    } else {
      var k := p[0];
      var sub := order.Below(k);
      if Descends(before, after, k) {
        sub := LastInOrder(Extend(path, k), before.fields[k], after.fields[k], m.Under(k), p[1..]);
      }
      order := WithLast(order, before, after, k, sub);
      LastKeyLog(order, path, before, after, m, p);
    }
  }

  lemma DiffAtStep(before: Json, after: Json, m: Marks, p: seq<string>)
    requires before.Object? && after.Object? && p != [] && DiffAt(before, after, m, p).Some?
    ensures
      var k, own := p[0], m.Under(p[0]);
      if Descends(before, after, k)
      then DiffAt(before, after, m, p) == DiffAt(before.fields[k], after.fields[k], own, p[1..])
      else
        && p[1..] == []
        && (k in before.fields <==> k !in after.fields)
        && (k in before.fields ==> DiffAt(before, after, m, p) == Some(Removed(before.fields[k], own)))
        && (k in after.fields ==> DiffAt(before, after, m, p) == Some(Added(after.fields[k], own)))
  {}

  lemma LastKeyLog(order: KeyOrder, path: string, before: Json, after: Json, m: Marks, p: seq<string>)
    requires before.Object? && after.Object? && p != [] && DiffAt(before, after, m, p).Some?
    requires order.keys != [] && order.keys[|order.keys| - 1] == p[0]
    requires Descends(before, after, p[0]) ==>
      var log := DiffLog(
        order.Below(p[0]), Extend(path, p[0]), before.fields[p[0]], after.fields[p[0]], m.Under(p[0]));
      && DiffAt(before.fields[p[0]], after.fields[p[0]], m.Under(p[0]), p[1..]).Some?
      && log != []
      && log[|log| - 1] == (
           Render(Extend(path, p[0]), p[1..]),
           DiffAt(before.fields[p[0]], after.fields[p[0]], m.Under(p[0]), p[1..]).value)
    ensures
      var log := DiffLog(order, path, before, after, m);
      log != [] && log[|log| - 1] == (Render(path, p), DiffAt(before, after, m, p).value)
  {
    hide DiffLog, KeysLog, Render, DiffAt;
    RenderOne(path, p);
    LastOfKeys(order, path, before, after, m);
    DiffAtStep(before, after, m, p);
  }

  lemma LeafLog(order: KeyOrder, path: string, before: Json, after: Json, m: Marks)
    requires DiffAt(before, after, m, []).Some?
    ensures DiffLog(order, path, before, after, m) == [(Render(path, []), DiffAt(before, after, m, []).value)]
  {}

  lemma RenderOne(path: string, p: seq<string>)
    requires p != []
    ensures Render(path, p) == Render(Extend(path, p[0]), p[1..])
    ensures p[1..] == [] ==> Render(path, p) == Extend(path, p[0])
  {}

  // The insertions of the last key come last.
  lemma LastOfKeys(order: KeyOrder, path: string, before: Json, after: Json, m: Marks)
    requires before.Object? && after.Object? && order.keys != []
    ensures
      var log, mine := DiffLog(order, path, before, after, m),
        KeyLog(order, order.keys[|order.keys| - 1], path, before, after, m);
      mine != [] ==> log != [] && log[|log| - 1] == mine[|mine| - 1]
  {
    hide KeyLog;
  }

  // The order that visits k last, with the given order below it.
  lemma WithLast(order: KeyOrder, before: Json, after: Json, k: string, sub: KeyOrder) returns (next: KeyOrder)
    requires before.Object? && after.Object? && Legal(order, before, after) && k in KeysOfBoth(before, after)
    requires Descends(before, after, k) ==> Legal(sub, before.fields[k], after.fields[k])
    ensures Legal(next, before, after)
    ensures next.keys != [] && next.keys[|next.keys| - 1] == k && next.Below(k) == sub
  {
    var others := ListingOf(KeysOfBoth(before, after) - {k});
    next := KeyOrder(others + [k], order.below[k := sub]);
    OneMoreListed(others, k);
    forall j | j in before.fields && Descends(before, after, j)
      ensures Legal(next.Below(j), before.fields[j], after.fields[j])
    {
      if j != k { assert next.Below(j) == order.Below(j); }
    }
  }

  ghost function ListingOf(keys: set<string>): (listing: seq<string>)
    ensures NoRepeats(listing) && Elements(listing) == keys
  {
    if keys == {} then []
    else
      var k :| k in keys;
      var rest := ListingOf(keys - {k});
      OneMoreListed(rest, k);
      rest + [k]
  }

  ghost function SomeOrder(before: Json, after: Json): (order: KeyOrder)
    ensures Legal(order, before, after)
  {
    if before.Object? && after.Object? then
      KeyOrder(
        ListingOf(KeysOfBoth(before, after)),
        map k | k in before.fields && k in after.fields :: SomeOrder(before.fields[k], after.fields[k]))
    else
      KeyOrder([], map[])
  }

  // With good keys nothing clashes.
  lemma GoodKeysDoNotClash(before: Json, after: Json, m: Marks, p: seq<string>, q: seq<string>)
    requires GoodKeys(before) && GoodKeys(after)
    ensures !Clash(before, after, m, p, q)
  {
    if Clash(before, after, m, p, q) {
      DiffIsRecorded(before, after, m, p);
      DiffIsRecorded(before, after, m, q);
      RecordedKeysAreGood(before, after, m, p);
      RecordedKeysAreGood(before, after, m, q);
      RenderDecodes(p);
      RenderDecodes(q);
      assert false;
    }
  }

  // A key with a dot can name the same string as a nested key: here the two orders of the two
  // top-level keys give two different maps.
  function OneMember(n: int): Json { Object(map["b" := Number(n)]) }

  function DottedAndNested(nested: int, dotted: int): Json {
    Object(map["a" := OneMember(nested), "a.b" := Number(dotted)])
  }

  function TwoOrders(first: string, second: string): KeyOrder {
    KeyOrder([first, second], map["a" := KeyOrder(["b"], map[])])
  }

  const UNMARKED := Marks(None, None, None)

  function OneNumber(was: int, now: int): (string, Change) {
    ("a.b", Change(Number(was), Number(now), false))
  }

  lemma DottedKeysCollide()
    ensures
      var before, after := DottedAndNested(1, 1), DottedAndNested(2, 3);
      var dottedLast, nestedLast := TwoOrders("a", "a.b"), TwoOrders("a.b", "a");
      && Legal(dottedLast, before, after) && Legal(nestedLast, before, after)
      && Outcome(dottedLast, before, after, UNMARKED) == map["a.b" := Change(Number(1), Number(3), false)]
      && Outcome(nestedLast, before, after, UNMARKED) == map["a.b" := Change(Number(1), Number(2), false)]
  {
    hide DottedAndNested, TwoOrders, DiffLog, KeyLog, Legal, Inserted;
    var dotted, nested := OneNumber(1, 3), OneNumber(1, 2);
    KeysOfDotted("a", "a.b");
    KeysOfDotted("a.b", "a");
    TwoInserted(nested, dotted);
    TwoInserted(dotted, nested);
  }

  lemma KeysOfDotted(first: string, second: string)
    requires {first, second} == {"a", "a.b"} && first != second
    ensures
      var before, after, order := DottedAndNested(1, 1), DottedAndNested(2, 3), TwoOrders(first, second);
      && Legal(order, before, after)
      && DiffLog(order, "", before, after, UNMARKED) ==
        [if first == "a" then OneNumber(1, 2) else OneNumber(1, 3)] +
        [if second == "a" then OneNumber(1, 2) else OneNumber(1, 3)]
  {
    hide DiffLog, KeysLog;
    var before, after, order := DottedAndNested(1, 1), DottedAndNested(2, 3), TwoOrders(first, second);
    NestedLog();
    assert first in {"a", "a.b"} && second in {"a", "a.b"};
    assert Extend("", "a") == "a" && Extend("", "a.b") == "a.b";
    assert KeyLog(order, "a", "", before, after, UNMARKED) == [OneNumber(1, 2)] by {
      assert UNMARKED.Under("a") == UNMARKED && order.Below("a") == KeyOrder(["b"], map[]);
      assert OneMember(1).fields["b"] != OneMember(2).fields["b"];
    }
    assert KeyLog(order, "a.b", "", before, after, UNMARKED) == [OneNumber(1, 3)] by {
      LeafLog(order.Below("a.b"), "a.b", Number(1), Number(3), UNMARKED);
    }
    TwoKeys(order, first, second, before, after, UNMARKED);
  }

  lemma NestedLog()
    ensures
      var order := KeyOrder(["b"], map[]);
      && Legal(order, OneMember(1), OneMember(2))
      && DiffLog(order, "a", OneMember(1), OneMember(2), UNMARKED) == [OneNumber(1, 2)]
  {
    var order := KeyOrder(["b"], map[]);
    assert order.keys[..0] == [] && Extend("a", "b") == "a.b";
    assert KeyLog(order, "b", "a", OneMember(1), OneMember(2), UNMARKED) == [OneNumber(1, 2)] by {
      LeafLog(order.Below("b"), "a.b", Number(1), Number(2), UNMARKED);
    }
    assert KeysLog(order, [], "a", OneMember(1), OneMember(2), UNMARKED) == [];
  }

  lemma TwoKeys(order: KeyOrder, j: string, k: string, before: Json, after: Json, m: Marks)
    requires before.Object? && after.Object? && order.keys == [j, k]
    ensures DiffLog(order, "", before, after, m) ==
      KeyLog(order, j, "", before, after, m) + KeyLog(order, k, "", before, after, m)
  {
    assert order.keys[..1] == [j] && order.keys[..1][..0] == [];
    assert KeysLog(order, [j], "", before, after, m) == KeyLog(order, j, "", before, after, m);
  }

  lemma TwoInserted(r: (string, Change), s: (string, Change))
    requires r.0 == s.0
    ensures Inserted(map[], [r] + [s]) == map[s.0 := s.1]
  {
    assert ([r] + [s])[..1] == [r] && [r][..0] == [];
    assert Inserted(map[], [r]) == map[r.0 := r.1];
  }
}
