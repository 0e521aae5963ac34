// `process_values`: merging a resource's planned value with its "known after apply" and
// "sensitive" marker trees.

module PlanValues {
  import opened Wrappers
  import opened Json

  const SENSITIVE := String("(sensitive)")
  const UNKNOWN := String("(known after apply)")

  function Max(a: nat, b: nat): nat { if a < b then b else a }

  function Width(a: Option<Json>, u: Option<Json>, s: Option<Json>): nat {
    Max(Max(Length(a), Length(u)), Length(s))
  }

  function ProcessValues(after: Option<Json>, unknown: Option<Json>, sensitive: Option<Json>): Option<Json>
    decreases after.Some?, OrNull(after), unknown.Some?, OrNull(unknown), sensitive.Some?, OrNull(sensitive)
  {
    if sensitive == TRUE_MARKER then
      Some(SENSITIVE)
    else if unknown == TRUE_MARKER then
      Some(UNKNOWN)
    else if IsObject(after) || IsObject(unknown) || IsObject(sensitive) then
      var keys := Keys(after) + Keys(unknown) + Keys(sensitive);
      Some(Object(
        map k |
          && k in keys
          && ProcessValues(Member(after, k), Member(unknown, k), Member(sensitive, k)).Some?
        :: ProcessValues(Member(after, k), Member(unknown, k), Member(sensitive, k)).value))
    else if IsArray(after) || IsArray(unknown) || IsArray(sensitive) then
      Some(Array(
        seq(Width(after, unknown, sensitive), i requires 0 <= i < Width(after, unknown, sensitive) =>
          var e := ProcessValues(Element(after, i), Element(unknown, i), Element(sensitive, i));
          if e.Some? then e.value else Null)))
    else
      after
  }

  // Only the items of x and y count: both are arrays, or an array marker makes arrays of
  // whatever is no object.
  predicate ItemsCount(x: Option<Json>, y: Option<Json>, marks: Option<Json>) {
    (IsArray(x) && IsArray(y)) || (IsArray(marks) && !IsObject(x) && !IsObject(y))
  }

  // `x` and `y` may differ only where the marker tree says `true`. Under an object marker
  // only the members count and under an array marker only the items (a scalar there is
  // discarded); anywhere else a key or an index that only one of the two has must itself be
  // marked.
  ghost predicate AgreeOffMarks(x: Option<Json>, y: Option<Json>, marks: Option<Json>)
    decreases x.Some?, OrNull(x), y.Some?, OrNull(y), marks.Some?, OrNull(marks)
  {
    if marks == TRUE_MARKER then
      true
    else if IsObject(marks) || (IsObject(x) && IsObject(y)) then
      forall k | k in Keys(x) + Keys(y) + Keys(marks) ::
        AgreeOffMarks(Member(x, k), Member(y, k), Member(marks, k))
    else if ItemsCount(x, y, marks) then
      forall i: nat | i < Width(x, y, marks) ::
        AgreeOffMarks(Element(x, i), Element(y, i), Element(marks, i))
    else
      x == y
  }

  // Non-interference: what a `true` sensitive marker covers never reaches the output.
  lemma {:induction false} SensitiveDoesNotInterfere(
      x: Option<Json>, y: Option<Json>, unknown: Option<Json>, sensitive: Option<Json>)
    requires AgreeOffMarks(x, y, sensitive)
    ensures ProcessValues(x, unknown, sensitive) == ProcessValues(y, unknown, sensitive)
    decreases x.Some?, OrNull(x), y.Some?, OrNull(y), sensitive.Some?, OrNull(sensitive)
  {
    hide ProcessValues;
    if sensitive == TRUE_MARKER || unknown == TRUE_MARKER || x == y {
      MarkedIsFixed(x, unknown, sensitive);
      MarkedIsFixed(y, unknown, sensitive);
    } else if IsObject(sensitive) || (IsObject(x) && IsObject(y)) {
      forall k: string
        ensures SameMember(x, y, unknown, sensitive, k)
      {
        if k in Keys(x) + Keys(y) + Keys(sensitive) {
          SensitiveDoesNotInterfere(Member(x, k), Member(y, k), Member(unknown, k), Member(sensitive, k));
        }
      }
      MergedEqual(x, y, unknown, sensitive);
    } else if IsObject(unknown) && !IsObject(x) && !IsObject(y) {
      forall k: string ensures SameMember(x, y, unknown, sensitive, k) {}
      MergedEqual(x, y, unknown, sensitive);
    } else {
      forall i: nat | i < Width(x, y, sensitive)
        ensures SameItem(x, y, unknown, sensitive, i)
      {
        SensitiveDoesNotInterfere(Element(x, i), Element(y, i), Element(unknown, i), Element(sensitive, i));
      }
      LengthsAgree(x, y, sensitive);
      MergedItemsEqual(x, y, unknown, sensitive);
    }
  }

  // A true marker replaces whatever is there, a sensitive one before an unknown one.
  lemma MarkedIsFixed(a: Option<Json>, u: Option<Json>, s: Option<Json>)
    ensures s == Some(Bool(true)) ==> ProcessValues(a, u, s) == Some(String("(sensitive)"))
    ensures s != Some(Bool(true)) && u == Some(Bool(true)) ==>
      ProcessValues(a, u, s) == Some(String("(known after apply)"))
  {}

  // The merged array is as long as the longest of the three and holds at every index the merge of
  // the three items, null where that is nothing.
  lemma MergedItem(i: nat, a: Option<Json>, u: Option<Json>, s: Option<Json>)
    requires s != Some(Bool(true)) && u != Some(Bool(true))
    requires !IsObject(a) && !IsObject(u) && !IsObject(s) && (IsArray(a) || IsArray(u) || IsArray(s))
    ensures IsArray(ProcessValues(a, u, s))
    ensures
      var merged, own := ProcessValues(a, u, s), ProcessValues(Element(a, i), Element(u, i), Element(s, i));
      && (i < Length(a) || i < Length(u) || i < Length(s) ==>
            Element(merged, i) == Some(if own.Some? then own.value else Null))
      && (i >= Length(a) && i >= Length(u) && i >= Length(s) ==> Element(merged, i) == None)
  {}

  // Where nothing is an object or an array and nothing is marked, the value stays.
  lemma MergedLeaf(a: Option<Json>, u: Option<Json>, s: Option<Json>)
    requires s != Some(Bool(true)) && u != Some(Bool(true))
    requires forall v | v in {a, u, s} :: !IsObject(v) && !IsArray(v)
    ensures ProcessValues(a, u, s) == a
  {
    assert a in {a, u, s} && u in {a, u, s} && s in {a, u, s};
  }

  ghost predicate SameItem(x: Option<Json>, y: Option<Json>, u: Option<Json>, s: Option<Json>, i: nat) {
    ProcessValues(Element(x, i), Element(u, i), Element(s, i))
      == ProcessValues(Element(y, i), Element(u, i), Element(s, i))
  }

  lemma MergedItemsEqual(x: Option<Json>, y: Option<Json>, u: Option<Json>, s: Option<Json>)
    requires s != TRUE_MARKER && u != TRUE_MARKER && !IsObject(s) && !IsObject(u)
    requires ItemsCount(x, y, s)
    requires Length(x) <= Max(Length(y), Length(s)) && Length(y) <= Max(Length(x), Length(s))
    requires forall i: nat | i < Width(x, y, s) :: SameItem(x, y, u, s, i)
    ensures ProcessValues(x, u, s) == ProcessValues(y, u, s)
  {
    var px, py := ProcessValues(x, u, s), ProcessValues(y, u, s);
    assert Width(x, u, s) == Width(y, u, s);
    forall i: nat | i < Width(x, u, s) ensures px.value.items[i] == py.value.items[i] {
      if i < Width(x, y, s) {
        assert SameItem(x, y, u, s, i);
      } else {
        assert Element(x, i) == Element(y, i) == None;
      }
    }
    assert px.value.items == py.value.items;
  }

  // An index that only one side has is marked, so the marker array reaches that far.
  lemma LengthsAgree(x: Option<Json>, y: Option<Json>, marks: Option<Json>)
    requires ItemsCount(x, y, marks) && !IsObject(marks) && marks != TRUE_MARKER
    requires AgreeOffMarks(x, y, marks)
    ensures Length(x) <= Max(Length(y), Length(marks))
    ensures Length(y) <= Max(Length(x), Length(marks))
  {
    if Length(x) > Max(Length(y), Length(marks)) {
      LastIsMarked(x, y, marks, Length(x) - 1);
    }
    if Length(y) > Max(Length(x), Length(marks)) {
      LastIsMarked(x, y, marks, Length(y) - 1);
    }
  }

  lemma LastIsMarked(x: Option<Json>, y: Option<Json>, marks: Option<Json>, i: nat)
    requires ItemsCount(x, y, marks) && !IsObject(marks) && marks != TRUE_MARKER
    requires AgreeOffMarks(x, y, marks)
    requires i < Width(x, y, marks)
    requires Element(x, i).Some? != Element(y, i).Some?
    ensures i < Length(marks)
  {
    assert AgreeOffMarks(Element(x, i), Element(y, i), Element(marks, i));
  }

  // What the merged object holds under any key, listed or not.
  lemma MergedMember(k: string, a: Option<Json>, u: Option<Json>, s: Option<Json>)
    requires s != TRUE_MARKER && u != TRUE_MARKER
    requires IsObject(a) || IsObject(u) || IsObject(s)
    ensures IsObject(ProcessValues(a, u, s))
    ensures Member(ProcessValues(a, u, s), k) == ProcessValues(Member(a, k), Member(u, k), Member(s, k))
  {
    if k !in Keys(a) + Keys(u) + Keys(s) {
      assert ProcessValues(None, None, None) == None;
    }
  }

  ghost predicate SameMember(x: Option<Json>, y: Option<Json>, u: Option<Json>, s: Option<Json>, k: string) {
    ProcessValues(Member(x, k), Member(u, k), Member(s, k)) == ProcessValues(Member(y, k), Member(u, k), Member(s, k))
  }

  lemma MergedEqual(x: Option<Json>, y: Option<Json>, u: Option<Json>, s: Option<Json>)
    requires s != TRUE_MARKER && u != TRUE_MARKER
    requires IsObject(x) || IsObject(u) || IsObject(s)
    requires IsObject(y) || IsObject(u) || IsObject(s)
    requires forall k: string :: SameMember(x, y, u, s, k)
    ensures ProcessValues(x, u, s) == ProcessValues(y, u, s)
  {
    var px, py := ProcessValues(x, u, s), ProcessValues(y, u, s);
    MergedMember("", x, u, s);
    MergedMember("", y, u, s);
    forall k: string ensures Member(px, k) == Member(py, k) {
      MergedMember(k, x, u, s);
      MergedMember(k, y, u, s);
      assert SameMember(x, y, u, s, k);
    }
    EqualByMember(px, py);
  }

  // Faithfulness: a marker tree without `true` that stays inside the value's own shape.
  ghost predicate ClearInside(value: Json, marks: Option<Json>)
    decreases value
  {
    && marks != TRUE_MARKER
    && (IsObject(marks) ==>
          && value.Object?
          && Keys(marks) <= value.fields.Keys
          && forall k | k in value.fields :: ClearInside(value.fields[k], Member(marks, k)))
    && (IsArray(marks) ==>
          && value.Array?
          && Length(marks) <= |value.items|
          && forall i: nat | i < |value.items| :: ClearInside(value.items[i], Element(marks, i)))
  }

  // With no `true` marker and marker trees inside the value, the output is the value.
  lemma {:induction false} ClearMarksAreFaithful(value: Json, unknown: Option<Json>, sensitive: Option<Json>)
    requires ClearInside(value, unknown) && ClearInside(value, sensitive)
    ensures ProcessValues(Some(value), unknown, sensitive) == Some(value)
  {
    match value
    case Object(fields) =>
      var out := ProcessValues(Some(value), unknown, sensitive).value.fields;
      forall k | k in fields
        ensures ProcessValues(Member(Some(value), k), Member(unknown, k), Member(sensitive, k)) == Some(fields[k])
      {
        ClearMarksAreFaithful(fields[k], Member(unknown, k), Member(sensitive, k));
      }
      EqualByLookup(out, fields);
    case Array(items) =>
      forall i: nat | i < |items|
        ensures ProcessValues(Element(Some(value), i), Element(unknown, i), Element(sensitive, i)) == Some(items[i])
      {
        ClearMarksAreFaithful(items[i], Element(unknown, i), Element(sensitive, i));
      }
      assert ProcessValues(Some(value), unknown, sensitive).value.items == items;
    case _ =>
  }
}
