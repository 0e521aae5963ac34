// `sanitize_values`: dropping what a parallel tree of sensitivity markers covers.

module PlanSanitizer {
  import opened Wrappers
  import opened Json

  // `sanitize_values`
  function SanitizeValues(values: Option<Json>, markers: Option<Json>): Option<Json> {
    if values.None? || markers.None? then None else Sanitize(values.value, markers.value)
  }

  function Sanitize(value: Json, marker: Json): Option<Json>
    decreases value
  {
    if marker == Bool(true) then None
    else
      match (value, marker)
      case (Object(vals), Object(marks)) =>
        var kept :=
          map k | k in vals && SanitizeMember(value, k, marker).Some? :: SanitizeMember(value, k, marker).value;
        if kept == map[] then None else Some(Object(kept))
      case (Array(vals), Array(marks)) =>
        var kept := SanitizeItems(vals, marks);
        if kept == [] then None else Some(Array(kept))
      case (_, _) =>
        if !value.Object? && !value.Array? && (marker == Bool(false) || marker.Object?) then Some(value) else None
  }

  // A member without a marker is kept as it is.
  function SanitizeMember(value: Json, k: string, marker: Json): Option<Json>
    requires value.Object? && marker.Object? && k in value.fields
    decreases value, 0
  {
    if k in marker.fields then Sanitize(value.fields[k], marker.fields[k]) else Some(value.fields[k])
  }

  // `zip` and `filter_map`: items are paired with markers by position, both cut to the shorter.
  function SanitizeItems(vals: seq<Json>, marks: seq<Json>): seq<Json>
    decreases vals
  {
    if vals == [] || marks == [] then []
    else
      var rest := SanitizeItems(vals[1..], marks[1..]);
      match Sanitize(vals[0], marks[0])
      case Some(v) => [v] + rest
      case None => rest
  }

  lemma MemberOfSanitized(value: Json, marker: Json, k: string)
    requires value.Object? && marker.Object?
    ensures Member(Sanitize(value, marker), k) ==
      if k in value.fields then SanitizeMember(value, k, marker) else None
  {
    var kept :=
      map j | j in value.fields && SanitizeMember(value, j, marker).Some? :: SanitizeMember(value, j, marker).value;
    assert Sanitize(value, marker) == if kept == map[] then None else Some(Object(kept));
    assert k in kept <==> k in value.fields && SanitizeMember(value, k, marker).Some?;
  }

  // A sanitised object is determined by its members, and there is none without members.
  lemma SameMembers(x: Json, marker: Json, y: Option<Json>)
    requires x.Object? && marker.Object? && (y.Some? ==> y.value.Object? && y.value.fields != map[])
    requires forall k: string :: Member(Sanitize(x, marker), k) == Member(y, k)
    ensures Sanitize(x, marker) == y
  {
    var sanitized := Sanitize(x, marker);
    if y.Some? {
      var k :| k in y.value.fields;
      assert Member(sanitized, k).Some?;
    }
    if sanitized.Some? {
      var k :| k in sanitized.value.fields;
      assert Member(sanitized, k) == Member(y, k);
      EqualByMember(sanitized, y);
    }
  }

  // -- Non-interference ------------------------------------------------------------------

  // Two values that may differ, by content or by presence, only where the marker is true, and
  // beyond the end of a marker array.
  ghost predicate Agree(x: Json, y: Json, marker: Json)
    decreases x
  {
    if marker == Bool(true) then true
    else if x.Object? && y.Object? && marker.Object? then
      forall k | k in x.fields.Keys + y.fields.Keys :: AgreeMember(x, y, marker, k)
    else if x.Array? && y.Array? && marker.Array? then
      AgreeItems(x.items, y.items, marker.items)
    else
      x == y
  }

  ghost predicate AgreeMember(x: Json, y: Json, marker: Json, k: string)
    requires x.Object? && y.Object? && marker.Object?
    decreases x, 0
  {
    if k in marker.fields && marker.fields[k] == Bool(true) then true
    else if k in x.fields && k in y.fields then
      if k in marker.fields then Agree(x.fields[k], y.fields[k], marker.fields[k]) else x.fields[k] == y.fields[k]
    else
      k !in x.fields && k !in y.fields
  }

  ghost predicate AgreeItems(xs: seq<Json>, ys: seq<Json>, marks: seq<Json>)
    decreases xs
  {
    forall i | 0 <= i < |marks| ::
      || marks[i] == Bool(true)
      || (i < |xs| && i < |ys| && Agree(xs[i], ys[i], marks[i]))
      || (i >= |xs| && i >= |ys|)
  }

  // What a true marker covers never shows in the result, not even by its absence.
  lemma {:induction false} MarkedDoesNotInterfere(x: Json, y: Json, marker: Json)
    requires Agree(x, y, marker)
    ensures Sanitize(x, marker) == Sanitize(y, marker)
    decreases x
  {
    if marker == Bool(true) {
    } else if x.Object? && y.Object? && marker.Object? {
      forall k | k in x.fields && k in y.fields ensures SanitizeMember(x, k, marker) == SanitizeMember(y, k, marker) {
        assert AgreeMember(x, y, marker, k);
        if k in marker.fields && marker.fields[k] != Bool(true) {
          MarkedDoesNotInterfere(x.fields[k], y.fields[k], marker.fields[k]);
        }
      }
      SameKept(x, y, marker);
    } else if x.Array? && y.Array? && marker.Array? {
      ItemsDoNotInterfere(x.items, y.items, marker.items);
    }
  }

  lemma SameKept(x: Json, y: Json, marker: Json)
    requires x.Object? && y.Object? && marker.Object?
    requires Agree(x, y, marker)
    requires forall k | k in x.fields && k in y.fields :: SanitizeMember(x, k, marker) == SanitizeMember(y, k, marker)
    ensures Sanitize(x, marker) == Sanitize(y, marker)
  {
    forall k: string ensures Member(Sanitize(x, marker), k) == Member(Sanitize(y, marker), k) {
      MemberOfSanitized(x, marker, k);
      MemberOfSanitized(y, marker, k);
      assert k in x.fields.Keys + y.fields.Keys ==> AgreeMember(x, y, marker, k);
    }
    SameMembers(x, marker, Sanitize(y, marker));
  }

  function Tail(s: seq<Json>): seq<Json> { if s == [] then [] else s[1..] }

  lemma {:induction false} ItemsDoNotInterfere(xs: seq<Json>, ys: seq<Json>, marks: seq<Json>)
    requires AgreeItems(xs, ys, marks)
    ensures SanitizeItems(xs, marks) == SanitizeItems(ys, marks)
    decreases xs, |marks|
  {
    if marks != [] && (xs != [] || ys != []) {
      forall i | 0 <= i < |marks[1..]|
        ensures
          || marks[1..][i] == Bool(true)
          || (i < |Tail(xs)| && i < |Tail(ys)| && Agree(Tail(xs)[i], Tail(ys)[i], marks[1..][i]))
          || (i >= |Tail(xs)| && i >= |Tail(ys)|)
      {
        assert marks[1..][i] == marks[i + 1];
      }
      ItemsDoNotInterfere(Tail(xs), Tail(ys), marks[1..]);
      if xs != [] && ys != [] && marks[0] != Bool(true) {
        MarkedDoesNotInterfere(xs[0], ys[0], marks[0]);
      }
    }
  }

  // -- Shape of the result -----------------------------------------------------------------

  function Shorter(vals: seq<Json>, marks: seq<Json>): nat {
    if |vals| < |marks| then |vals| else |marks|
  }

  // The positions, from i on, whose item leaves something behind under its own marker.
  function KeptFrom(vals: seq<Json>, marks: seq<Json>, i: nat): (kept: seq<nat>)
    ensures forall j, k | 0 <= j < k < |kept| :: kept[j] < kept[k]
    ensures forall k | 0 <= k < |kept| ::
      i <= kept[k] < Shorter(vals, marks) && Sanitize(vals[kept[k]], marks[kept[k]]).Some?
    ensures forall p | i <= p < Shorter(vals, marks) && Sanitize(vals[p], marks[p]).Some? :: p in kept
    decreases |vals| - i
  {
    if i >= Shorter(vals, marks) then []
    else if Sanitize(vals[i], marks[i]).Some? then [i] + KeptFrom(vals, marks, i + 1)
    else KeptFrom(vals, marks, i + 1)
  }

  // The items of the result are those of the kept positions, in order.
  lemma {:induction false} ItemsAreKept(vals: seq<Json>, marks: seq<Json>, i: nat)
    requires i <= Shorter(vals, marks)
    ensures
      var items, kept := SanitizeItems(vals[i..], marks[i..]), KeptFrom(vals, marks, i);
      && |items| == |kept|
      && forall k | 0 <= k < |items| :: Some(items[k]) == Sanitize(vals[kept[k]], marks[kept[k]])
    decreases |vals| - i
  {
    hide Sanitize, SanitizeItems, KeptFrom;
    KeptStep(vals, marks, i);
    ItemsStep(vals, marks, i);
    if i < Shorter(vals, marks) {
      ItemsAreKept(vals, marks, i + 1);
    }
  }

  lemma ItemsStep(vals: seq<Json>, marks: seq<Json>, i: nat)
    requires i <= Shorter(vals, marks)
    ensures i == Shorter(vals, marks) ==> SanitizeItems(vals[i..], marks[i..]) == []
    ensures i < Shorter(vals, marks) ==>
      var own := Sanitize(vals[i], marks[i]);
      SanitizeItems(vals[i..], marks[i..]) ==
        (if own.Some? then [own.value] else []) + SanitizeItems(vals[i + 1..], marks[i + 1..])
  {
    hide Sanitize;
    if i < Shorter(vals, marks) {
      assert vals[i..][1..] == vals[i + 1..] && marks[i..][1..] == marks[i + 1..];
    }
  }

  lemma KeptStep(vals: seq<Json>, marks: seq<Json>, i: nat)
    requires i <= Shorter(vals, marks)
    ensures i == Shorter(vals, marks) ==> KeptFrom(vals, marks, i) == []
    ensures i < Shorter(vals, marks) ==>
      KeptFrom(vals, marks, i) ==
        (if Sanitize(vals[i], marks[i]).Some? then [i] else []) + KeptFrom(vals, marks, i + 1)
  {
    hide Sanitize;
  }

  // No empty object or array at any level the markers were followed to: by key, or by the
  // position an item had before others were dropped.
  ghost predicate NothingEmpty(value: Json, marker: Json, result: Json)
    decreases value
  {
    match result
    case Object(fields) =>
      && value.Object? && marker.Object? && fields != map[] && fields.Keys <= value.fields.Keys
      && forall k | k in value.fields && k in fields && k in marker.fields ::
           NothingEmpty(value.fields[k], marker.fields[k], fields[k])
    case Array(items) =>
      && value.Array? && marker.Array? && items != []
      && var kept := KeptFrom(value.items, marker.items, 0);
      && |items| == |kept|
      && forall k | 0 <= k < |items| ::
           NothingEmpty(value.items[kept[k]], marker.items[kept[k]], items[k])
    case _ => true
  }

  lemma {:induction false} ResultHasNothingEmpty(value: Json, marker: Json)
    requires Sanitize(value, marker).Some?
    ensures NothingEmpty(value, marker, Sanitize(value, marker).value)
    decreases value
  {
    if value.Object? && marker.Object? {
      var fields := Sanitize(value, marker).value.fields;
      forall k | k in value.fields && k in fields && k in marker.fields
        ensures NothingEmpty(value.fields[k], marker.fields[k], fields[k])
      {
        ResultHasNothingEmpty(value.fields[k], marker.fields[k]);
      }
    } else if value.Array? && marker.Array? {
      var items, kept := Sanitize(value, marker).value.items, KeptFrom(value.items, marker.items, 0);
      ItemsAreKept(value.items, marker.items, 0);
      assert value.items[0..] == value.items && marker.items[0..] == marker.items;
      forall k | 0 <= k < |items|
        ensures NothingEmpty(value.items[kept[k]], marker.items[kept[k]], items[k])
      {
        ResultHasNothingEmpty(value.items[kept[k]], marker.items[kept[k]]);
      }
    }
  }

  // -- What is kept whole --------------------------------------------------------------------

  // The marker tree clears the whole value: false or an object at scalars, an object or a long
  // enough array at nonempty containers.
  ghost predicate Clears(value: Json, marker: Json)
    decreases value
  {
    match value
    case Object(fields) =>
      && marker.Object? && fields != map[]
      && forall k | k in fields && k in marker.fields :: Clears(fields[k], marker.fields[k])
    case Array(items) =>
      && marker.Array? && items != [] && |items| <= |marker.items|
      && forall i | 0 <= i < |items| :: Clears(items[i], marker.items[i])
    case _ =>
      marker == Bool(false) || marker.Object?
  }

  // A value comes through unchanged exactly when its markers clear it.
  lemma {:induction false} KeptWholeIffCleared(value: Json, marker: Json)
    ensures Sanitize(value, marker) == Some(value) <==> Clears(value, marker)
    decreases value
  {
    match value
    case Object(fields) =>
      if marker.Object? {
        forall k | k in fields && k in marker.fields
          ensures Sanitize(fields[k], marker.fields[k]) == Some(fields[k]) <==> Clears(fields[k], marker.fields[k])
        {
          KeptWholeIffCleared(fields[k], marker.fields[k]);
        }
        if Clears(value, marker) {
          forall k: string ensures Member(Sanitize(value, marker), k) == Member(Some(value), k) {
            MemberOfSanitized(value, marker, k);
          }
          SameMembers(value, marker, Some(value));
        }
        if Sanitize(value, marker) == Some(value) {
          forall k | k in fields && k in marker.fields ensures Clears(fields[k], marker.fields[k]) {
            MemberOfSanitized(value, marker, k);
          }
        }
      }
    case Array(items) =>
      if marker.Array? {
        ItemsKeptWhole(items, marker.items);
      }
    case _ =>
  }

  // Nothing comes through without markers; with them, everything does exactly when they clear it.
  lemma UnchangedIff(values: Option<Json>, markers: Option<Json>)
    ensures SanitizeValues(values, markers) == values <==>
      values.None? || (markers.Some? && Clears(values.value, markers.value))
  {
    if values.Some? && markers.Some? {
      KeptWholeIffCleared(values.value, markers.value);
    }
  }

  lemma {:induction false} ItemsKeptWhole(vals: seq<Json>, marks: seq<Json>)
    ensures |SanitizeItems(vals, marks)| <= |vals|
    ensures SanitizeItems(vals, marks) == vals <==>
      |vals| <= |marks| && forall i | 0 <= i < |vals| :: Clears(vals[i], marks[i])
    decreases vals
  {
    if vals != [] && marks != [] {
      ItemsKeptWhole(vals[1..], marks[1..]);
      KeptWholeIffCleared(vals[0], marks[0]);
      assert vals == [vals[0]] + vals[1..];
      var rest := SanitizeItems(vals[1..], marks[1..]);
      if SanitizeItems(vals, marks) == vals {
        assert Sanitize(vals[0], marks[0]).Some?;
        assert SanitizeItems(vals, marks)[1..] == rest;
        forall i | 0 <= i < |vals| ensures Clears(vals[i], marks[i]) {
          if i > 0 {
            assert Clears(vals[1..][i - 1], marks[1..][i - 1]);
          }
        }
      }
      if |vals| <= |marks| && forall i | 0 <= i < |vals| :: Clears(vals[i], marks[i]) {
        forall i | 0 <= i < |vals[1..]| ensures Clears(vals[1..][i], marks[1..][i]) {
          assert Clears(vals[i + 1], marks[i + 1]);
        }
      }
    }
  }

  // -- Scalars and arrays in terms of their markers -----------------------------------------------

  predicate Scalar(v: Json) { !v.Object? && !v.Array? }

  // A scalar comes through under false and under any object; a container needs a marker of its
  // own shape.
  lemma SanitizedScalar(v: Json, marker: Json)
    ensures Scalar(v) ==>
      Sanitize(v, marker) == if marker == Bool(false) || marker.Object? then Some(v) else None
    ensures v.Object? && !marker.Object? ==> Sanitize(v, marker) == None
    ensures v.Array? && !marker.Array? ==> Sanitize(v, marker) == None
  {}

  lemma ArrayIsItems(vals: seq<Json>, marks: seq<Json>)
    ensures
      var items := SanitizeItems(vals, marks);
      Sanitize(Array(vals), Array(marks)) == if items == [] then None else Some(Array(items))
  {}

  // An array disappears exactly when no item leaves something under its own marker; otherwise its
  // items are what those positions leave, in order.
  lemma SanitizedArray(vals: seq<Json>, marks: seq<Json>)
    ensures
      var result, kept := Sanitize(Array(vals), Array(marks)), KeptFrom(vals, marks, 0);
      && (result == None <==> forall p | 0 <= p < Shorter(vals, marks) :: Sanitize(vals[p], marks[p]) == None)
      && (result.Some? ==>
            && result.value.Array? && |result.value.items| == |kept|
            && forall k | 0 <= k < |kept| :: Sanitize(vals[kept[k]], marks[kept[k]]) == Some(result.value.items[k]))
  {
    ArrayIsItems(vals, marks);
    hide Sanitize, SanitizeItems;
    ItemsAreKept(vals, marks, 0);
    assert vals[0..] == vals && marks[0..] == marks;
    var kept := KeptFrom(vals, marks, 0);
    hide KeptFrom;
    if kept != [] {
      assert Sanitize(vals[kept[0]], marks[kept[0]]).Some?;
    }
  }

  // An object disappears exactly when no member leaves something.
  lemma SanitizedObject(value: Json, marker: Json)
    requires value.Object? && marker.Object?
    ensures Sanitize(value, marker) == None <==>
      forall k | k in value.fields :: SanitizeMember(value, k, marker) == None
    ensures Sanitize(value, marker).Some? ==> Sanitize(value, marker).value.Object?
  {
    if k :| k in value.fields && SanitizeMember(value, k, marker).Some? {
      MemberOfSanitized(value, marker, k);
    }
    if Sanitize(value, marker).Some? {
      var k :| k in Sanitize(value, marker).value.fields;
      MemberOfSanitized(value, marker, k);
    }
  }

  // -- What is kept of a part -----------------------------------------------------------------

  // A step into a value: to a member or to an item.
  datatype Hop = Key(k: string) | Index(i: nat)

  function At(v: Option<Json>, path: seq<Hop>): Option<Json>
    decreases |path|
  {
    if path == [] then v
    else
      match path[0]
      case Key(k) => At(Member(v, k), path[1..])
      case Index(i) => At(Element(v, i), path[1..])
  }

  // No marker on the way cuts the value at the path off, and its own, if the markers reach that
  // far, is false or an object.
  ghost predicate Spared(marker: Json, path: seq<Hop>)
    decreases |path|
  {
    if path == [] then marker == Bool(false) || marker.Object?
    else
      match path[0]
      case Key(k) => marker.Object? && (k in marker.fields ==> Spared(marker.fields[k], path[1..]))
      case Index(i) => marker.Array? && i < |marker.items| && Spared(marker.items[i], path[1..])
  }

  // How many items before position i leave something behind.
  ghost function KeptBefore(vals: seq<Json>, marks: seq<Json>, i: nat): nat
    requires i <= Shorter(vals, marks)
  {
    if i == 0 then 0
    else KeptBefore(vals, marks, i - 1) + (if Sanitize(vals[i - 1], marks[i - 1]).Some? then 1 else 0)
  }

  // Where the value at a path is found in the result: an item moves up by the items dropped before
  // it; where the markers end nothing moves.
  ghost function Moved(value: Json, marker: Json, path: seq<Hop>): seq<Hop>
    decreases |path|
  {
    if path == [] then []
    else
      match path[0]
      case Key(k) =>
        if value.Object? && k in value.fields && marker.Object? && k in marker.fields
        then [path[0]] + Moved(value.fields[k], marker.fields[k], path[1..])
        else path
      case Index(i) =>
        if value.Array? && marker.Array? && i < Shorter(value.items, marker.items)
        then [Index(KeptBefore(value.items, marker.items, i))] + Moved(value.items[i], marker.items[i], path[1..])
        else path
  }

  lemma CountStep(vals: seq<Json>, marks: seq<Json>, i: nat)
    requires i < Shorter(vals, marks)
    ensures KeptBefore(vals, marks, i + 1) ==
      KeptBefore(vals, marks, i) + (if Sanitize(vals[i], marks[i]).Some? then 1 else 0)
  {
    hide Sanitize;
  }

  // Counting agrees with the list of kept positions.
  lemma {:induction false} KeptIsCounted(vals: seq<Json>, marks: seq<Json>, i: nat, k: nat)
    requires i <= Shorter(vals, marks) && k < |KeptFrom(vals, marks, i)|
    ensures KeptBefore(vals, marks, KeptFrom(vals, marks, i)[k]) == KeptBefore(vals, marks, i) + k
    decreases |vals| - i
  {
    hide Sanitize, KeptFrom, KeptBefore;
    KeptStep(vals, marks, i);
    CountStep(vals, marks, i);
    if Sanitize(vals[i], marks[i]) == None {
      KeptIsCounted(vals, marks, i + 1, k);
    } else if k > 0 {
      assert KeptFrom(vals, marks, i)[k] == KeptFrom(vals, marks, i + 1)[k - 1];
      KeptIsCounted(vals, marks, i + 1, k - 1);
    }
  }

  // Item i of the value, if it leaves something, is item number KeptBefore of the result.
  lemma ItemMoves(vals: seq<Json>, marks: seq<Json>, i: nat)
    requires i < Shorter(vals, marks) && Sanitize(vals[i], marks[i]).Some?
    ensures Element(Sanitize(Array(vals), Array(marks)), KeptBefore(vals, marks, i)) == Sanitize(vals[i], marks[i])
  {
    hide Sanitize, KeptBefore, KeptFrom;
    SanitizedArray(vals, marks);
    var kept := KeptFrom(vals, marks, 0);
    assert i in kept;
    var k :| 0 <= k < |kept| && kept[k] == i;
    KeptIsCounted(vals, marks, 0, k);
    NoneBefore(vals, marks);
  }

  lemma NoneBefore(vals: seq<Json>, marks: seq<Json>)
    ensures KeptBefore(vals, marks, 0) == 0
  {}

  // And every item of the result is one of these.
  lemma ItemHasMoved(vals: seq<Json>, marks: seq<Json>, k: nat) returns (i: nat)
    requires Element(Sanitize(Array(vals), Array(marks)), k).Some?
    ensures i < Shorter(vals, marks) && KeptBefore(vals, marks, i) == k
    ensures Sanitize(vals[i], marks[i]) == Element(Sanitize(Array(vals), Array(marks)), k)
  {
    hide Sanitize, KeptBefore, KeptFrom;
    SanitizedArray(vals, marks);
    i := KeptFrom(vals, marks, 0)[k];
    KeptIsCounted(vals, marks, 0, k);
    NoneBefore(vals, marks);
  }

  // A spared scalar is found in the result, at the place it has moved to.
  lemma {:induction false} SparedScalarSurvives(value: Json, marker: Json, path: seq<Hop>, v: Json)
    requires At(Some(value), path) == Some(v) && Scalar(v) && Spared(marker, path)
    ensures At(Sanitize(value, marker), Moved(value, marker, path)) == Some(v)
    decreases |path|
  {
    hide Sanitize;
    if path == [] {
      SanitizedScalar(v, marker);
    } else {
      NothingAt(path[1..]);
      match path[0]
      case Key(k) =>
        MemberOfSanitized(value, marker, k);
        if k in marker.fields {
          SparedScalarSurvives(value.fields[k], marker.fields[k], path[1..], v);
        }
      case Index(i) =>
        SparedScalarSurvives(value.items[i], marker.items[i], path[1..], v);
        NothingAt(Moved(value.items[i], marker.items[i], path[1..]));
        ItemMoves(value.items, marker.items, i);
    }
  }

  lemma {:induction false} NothingAt(path: seq<Hop>)
    ensures At(None, path) == None
  {
    if path != [] {
      NothingAt(path[1..]);
    }
  }

  // And every scalar of the result is a spared one of the value.
  lemma {:induction false} ScalarsAreSpared(value: Json, marker: Json, path: seq<Hop>, v: Json)
    returns (origin: seq<Hop>)
    requires At(Sanitize(value, marker), path) == Some(v) && Scalar(v)
    ensures At(Some(value), origin) == Some(v) && Spared(marker, origin) && Moved(value, marker, origin) == path
    decreases |path|
  {
    hide Sanitize;
    origin := path;
    SanitizedScalar(value, marker);
    if path == [] {
      if value.Object? && marker.Object? {
        SanitizedObject(value, marker);
        assert false;
      } else if value.Array? && marker.Array? {
        SanitizedArray(value.items, marker.items);
        assert false;
      }
    } else {
      NothingAt(path[1..]);
      match path[0]
      case Key(k) =>
        origin := KeyOrigin(value, marker, path, v);
      case Index(i) =>
        origin := IndexOrigin(value, marker, path, v);
    }
  }

  lemma {:induction false} KeyOrigin(value: Json, marker: Json, path: seq<Hop>, v: Json)
    returns (origin: seq<Hop>)
    requires path != [] && path[0].Key?
    requires At(Sanitize(value, marker), path) == Some(v) && Scalar(v)
    ensures At(Some(value), origin) == Some(v) && Spared(marker, origin) && Moved(value, marker, origin) == path
    decreases |path|, 0
  {
    hide Sanitize;
    var k := path[0].k;
    NothingAt(path[1..]);
    ResultShape(value, marker);
    MemberOfSanitized(value, marker, k);
    origin := path;
    if k in marker.fields {
      var rest := ScalarsAreSpared(value.fields[k], marker.fields[k], path[1..], v);
      origin := [path[0]] + rest;
      assert origin[1..] == rest;
    }
  }

  lemma {:induction false} IndexOrigin(value: Json, marker: Json, path: seq<Hop>, v: Json)
    returns (origin: seq<Hop>)
    requires path != [] && path[0].Index?
    requires At(Sanitize(value, marker), path) == Some(v) && Scalar(v)
    ensures At(Some(value), origin) == Some(v) && Spared(marker, origin) && Moved(value, marker, origin) == path
    decreases |path|, 0
  {
    hide Sanitize;
    NothingAt(path[1..]);
    ResultShape(value, marker);
    var i := ItemHasMoved(value.items, marker.items, path[0].i);
    var rest := ScalarsAreSpared(value.items[i], marker.items[i], path[1..], v);
    origin := [Index(i)] + rest;
    assert origin[1..] == rest;
  }

  // The result has the shape of the value.
  lemma ResultShape(value: Json, marker: Json)
    requires Sanitize(value, marker).Some?
    ensures Sanitize(value, marker).value.Object? <==> value.Object? && marker.Object?
    ensures Sanitize(value, marker).value.Array? <==> value.Array? && marker.Array?
  {}

  // What the marker tree has in store for the value at a path of keys: cut off on the way, out
  // of the reach of markers, or left to a marker of its own.
  datatype Reach = Cut | Free | Under(marker: Json)

  function ReachAt(marker: Json, path: seq<string>): Reach
    decreases |path|
  {
    if path == [] then Under(marker)
    else if !marker.Object? then Cut
    else if path[0] !in marker.fields then Free
    else ReachAt(marker.fields[path[0]], path[1..])
  }

  // Looking into the result is sanitising what the value holds there.
  lemma {:induction false} SanitizedAt(value: Json, marker: Json, path: seq<string>)
    ensures Lookup(Sanitize(value, marker), path) ==
      match Lookup(Some(value), path)
      case None => None
      case Some(v) =>
        match ReachAt(marker, path)
        case Cut => None
        case Free => Some(v)
        case Under(own) => Sanitize(v, own)
    decreases |path|
  {
    if path != [] {
      var k, rest := path[0], path[1..];
      NothingInNone(rest);
      if value.Object? && marker.Object? {
        MemberOfSanitized(value, marker, k);
        if k in value.fields && k in marker.fields {
          SanitizedAt(value.fields[k], marker.fields[k], rest);
        }
      }
    }
  }

  // A scalar below objects survives exactly when no marker cuts it off and its own, if it has
  // one, is false or an object; otherwise nothing is left in its place.
  lemma ScalarSurvivesIff(value: Json, marker: Json, path: seq<string>, v: Json)
    requires Lookup(Some(value), path) == Some(v) && Scalar(v)
    ensures
      var own := ReachAt(marker, path);
      var cleared := own == Free || (own.Under? && (own.marker == Bool(false) || own.marker.Object?));
      Lookup(Sanitize(value, marker), path) == if cleared then Some(v) else None
  {
    SanitizedAt(value, marker, path);
  }

  // Nothing is made up: what the result holds at a path of objects the value holds there too.
  lemma ScalarsAreFromTheValue(value: Json, marker: Json, path: seq<string>, v: Json)
    requires Lookup(Sanitize(value, marker), path) == Some(v) && Scalar(v)
    ensures Lookup(Some(value), path) == Some(v)
  {
    SanitizedAt(value, marker, path);
  }
}
