// Dotted strings (split, join), the byte order of strings, and sorted duplicate-free lists.

module Strings {
  const DOT := "."

  predicate DotFree(s: string) {
    forall i | 0 <= i < |s| :: s[i] != '.'
  }

  predicate AllDotFree(parts: seq<string>) {
    forall i | 0 <= i < |parts| :: DotFree(parts[i])
  }

  predicate StartsWith(s: string, prefix: string) { prefix <= s }

  // `s.split('.')`: always at least one part, possibly empty.
  function Split(s: string): (parts: seq<string>)
    ensures |parts| >= 1
    ensures AllDotFree(parts)
  {
    if s == "" then [""]
    else if s[0] == '.' then [""] + Split(s[1..])
    else
      var rest := Split(s[1..]);
      assert DotFree([s[0]] + rest[0]);
      [[s[0]] + rest[0]] + rest[1..]
  }

  function Join(parts: seq<string>): string {
    if |parts| == 0 then ""
    else if |parts| == 1 then parts[0]
    else parts[0] + DOT + Join(parts[1..])
  }

  lemma {:induction false} JoinSplit(s: string)
    ensures Join(Split(s)) == s
  {
    if s != "" {
      JoinSplit(s[1..]);
      var rest := Split(s[1..]);
      if s[0] == '.' {
        assert ([""] + rest)[1..] == rest;
        assert Join(Split(s)) == "" + DOT + s[1..] == s;
      } else {
        var parts := [[s[0]] + rest[0]] + rest[1..];
        assert parts[1..] == rest[1..];
        assert Join(parts) == [s[0]] + Join(rest) == s;
      }
    }
  }

  lemma {:induction false} SplitOne(p: string)
    requires DotFree(p)
    ensures Split(p) == [p]
  {
    if p != "" {
      assert p[0] != '.' && DotFree(p[1..]);
      SplitOne(p[1..]);
      assert [p[0]] + p[1..] == p;
    }
  }

  lemma {:induction false} SplitAtDot(p: string, s: string)
    requires DotFree(p)
    ensures Split(p + DOT + s) == [p] + Split(s)
  {
    var t := p + DOT + s;
    if p == "" {
      assert t[1..] == s;
    } else {
      assert t[1..] == p[1..] + DOT + s;
      assert p[0] != '.' && DotFree(p[1..]);
      SplitAtDot(p[1..], s);
      assert [p[0]] + p[1..] == p;
      assert ([p[1..]] + Split(s))[1..] == Split(s);
    }
  }

  lemma {:induction false} SplitJoin(parts: seq<string>)
    requires |parts| >= 1
    requires AllDotFree(parts)
    ensures Split(Join(parts)) == parts
  {
    if |parts| == 1 {
      SplitOne(parts[0]);
    } else {
      SplitJoin(parts[1..]);
      SplitAtDot(parts[0], Join(parts[1..]));
      assert [parts[0]] + parts[1..] == parts;
    }
  }

  lemma {:induction false} JoinAppend(a: seq<string>, b: seq<string>)
    requires |a| >= 1 && |b| >= 1
    ensures Join(a + b) == Join(a) + DOT + Join(b)
  {
    if |a| == 1 {
      assert (a + b)[1..] == b;
    } else {
      JoinAppend(a[1..], b);
      assert (a + b)[1..] == a[1..] + b;
    }
  }

  lemma {:induction false} JoinNonEmpty(parts: seq<string>)
    requires |parts| >= 1 && parts[0] != ""
    ensures Join(parts) != ""
  {
    if |parts| > 1 {
      assert |Join(parts)| >= |parts[0]| + 1;
    }
  }

  // -- Order ---------------------------------------------------------------------------

  predicate Less(a: string, b: string) {
    if b == "" then false
    else if a == "" then true
    else a[0] < b[0] || (a[0] == b[0] && Less(a[1..], b[1..]))
  }

  lemma {:induction false} LessTrichotomy(a: string, b: string)
    ensures Less(a, b) || a == b || Less(b, a)
    ensures !(Less(a, b) && Less(b, a))
    ensures !Less(a, a)
  {
    if a != "" && b != "" {
      LessTrichotomy(a[1..], b[1..]);
      assert a == [a[0]] + a[1..] && b == [b[0]] + b[1..];
    }
    if a != "" {
      LessTrichotomy(a[1..], a[1..]);
    }
  }

  lemma {:induction false} LessTransitive(a: string, b: string, c: string)
    requires Less(a, b) && Less(b, c)
    ensures Less(a, c)
  {
    if a != "" && a[0] == b[0] == c[0] {
      LessTransitive(a[1..], b[1..], c[1..]);
    }
  }

  ghost predicate StrictlySorted(s: seq<string>) {
    forall i, j | 0 <= i < j < |s| :: Less(s[i], s[j])
  }

  ghost function Elements<T>(s: seq<T>): set<T> { set x | x in s }

  ghost predicate NoRepeats(keys: seq<string>) {
    forall i, j | 0 <= i < j < |keys| :: keys[i] != keys[j]
  }

  lemma OneMoreListed(keys: seq<string>, k: string)
    requires NoRepeats(keys) && k !in Elements(keys)
    ensures NoRepeats(keys + [k]) && Elements(keys + [k]) == Elements(keys) + {k}
  {
    assert forall j :: j in keys + [k] <==> j in keys || j == k;
  }

  function Insert(x: string, s: seq<string>): (r: seq<string>)
    requires StrictlySorted(s)
    ensures StrictlySorted(r)
    ensures Elements(r) == Elements(s) + {x}
  {
    if s == [] then [x]
    else if x == s[0] then s
    else if Less(x, s[0]) then
      (forall i | 0 < i < |s| ensures Less(x, s[i]) { LessTransitive(x, s[0], s[i]); }
       [x] + s)
    else
      (LessTrichotomy(x, s[0]);
       var r := Insert(x, s[1..]);
       assert s == [s[0]] + s[1..];
       (forall i | 0 <= i < |r| ensures Less(s[0], r[i]) {
          assert r[i] in Elements(r);
          assert r[i] == x || r[i] in s[1..];
        }
        assert Elements([s[0]] + r) == {s[0]} + Elements(r);
        assert Elements(s) == {s[0]} + Elements(s[1..]);
        [s[0]] + r))
  }

  // `v.sort(); v.dedup();`
  function SortDedup(s: seq<string>): (r: seq<string>)
    ensures StrictlySorted(r)
    ensures Elements(r) == Elements(s)
  {
    if s == [] then [] else (assert s == [s[0]] + s[1..]; Insert(s[0], SortDedup(s[1..])))
  }

  // A strictly sorted list is determined by its elements.
  lemma {:induction false} SortedIsCanonical(s: seq<string>, t: seq<string>)
    requires StrictlySorted(s) && StrictlySorted(t)
    requires Elements(s) == Elements(t)
    ensures s == t
  {
    if s == [] {
      HeadIsElement(t);
    } else {
      assert s[0] in Elements(t) && t[0] in Elements(s);
      if s[0] != t[0] {
        var i :| 0 <= i < |t| && t[i] == s[0];
        var j :| 0 <= j < |s| && s[j] == t[0];
        LessTrichotomy(s[0], t[0]);
      }
      assert Elements(s[1..]) == Elements(s) - {s[0]} by { TailElements(s); }
      assert Elements(t[1..]) == Elements(t) - {t[0]} by { TailElements(t); }
      SortedIsCanonical(s[1..], t[1..]);
    }
  }

  lemma HeadIsElement(s: seq<string>)
    ensures s != [] ==> s[0] in Elements(s)
  {}

  lemma TailElements(s: seq<string>)
    requires s != [] && StrictlySorted(s)
    ensures Elements(s[1..]) == Elements(s) - {s[0]}
  {
    assert s == [s[0]] + s[1..];
    forall i | 0 < i < |s| ensures s[i] != s[0] { LessTrichotomy(s[0], s[i]); }
  }
}
