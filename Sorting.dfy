/** `sorted(...)` over a collection of distinct names, and the facts about
    sorted listings that the catalog queries rely on. */
module Sorting {
  import opened Strings

  /** Every earlier name is strictly below every later one (so no name repeats). */
  ghost predicate StrictlySorted(s: seq<string>)
  {
    forall i, j :: 0 <= i < j < |s| ==> Below(s[i], s[j])
  }

  ghost function Elements(s: seq<string>): set<string>
  {
    set x | x in s
  }

  /** `m` is the smallest of `names` in Python's string order. */
  predicate IsLeast(m: string, names: set<string>)
  {
    m in names && forall y :: y in names && y != m ==> Below(m, y)
  }

  lemma {:induction false} LeastExists(names: set<string>)
    requires names != {}
    ensures exists m :: IsLeast(m, names)
    decreases |names|
  {
    var x :| x in names;
    if names != {x} {
      var rest := names - {x};
      LeastExists(rest);
      var m :| IsLeast(m, rest);
      BelowTotal(m, x);
      if Below(m, x) {
        assert IsLeast(m, names);
      } else {
        forall y | y in names && y != x ensures Below(x, y) {
          if y != m {
            BelowTransitive(x, m, y);
          }
        }
        assert IsLeast(x, names);
      }
    } else {
      assert IsLeast(x, names);
    }
  }

  lemma LeastUnique(names: set<string>)
    ensures forall m, m' :: IsLeast(m, names) && IsLeast(m', names) ==> m == m'
  {
    forall m, m' | IsLeast(m, names) && IsLeast(m', names) ensures m == m' {
      if m != m' {
        BelowAsymmetric(m, m');
      }
    }
  }

  /** `min(names)`. */
  function Least(names: set<string>): (m: string)
    requires names != {}
    ensures IsLeast(m, names)
  {
    LeastExists(names);
    LeastUnique(names);
    var m :| m in names && IsLeast(m, names);
    m
  }

  /** `sorted(names)`: the names in increasing order, each exactly once. */
  function SortedNames(names: set<string>): (r: seq<string>)
    ensures StrictlySorted(r)
    ensures Elements(r) == names
    ensures |r| == |names|
    decreases |names|
  {
    if names == {} then []
    else
      var m := Least(names);
      var rest := SortedNames(names - {m});
      SortedCons(m, rest);
      [m] + rest
  }

  /** A name below every name of a sorted listing can be put in front of it. */
  lemma SortedCons(m: string, rest: seq<string>)
    requires StrictlySorted(rest)
    requires forall y :: y in Elements(rest) ==> Below(m, y)
    ensures StrictlySorted([m] + rest)
    ensures Elements([m] + rest) == {m} + Elements(rest)
  {
    assert forall j :: 0 <= j < |rest| ==> rest[j] in Elements(rest);
    assert forall j :: 0 < j <= |rest| ==> ([m] + rest)[j] == rest[j - 1];
  }

  lemma SortedHeadIsLeast(s: seq<string>)
    requires StrictlySorted(s) && s != []
    ensures IsLeast(s[0], Elements(s))
  {
  }

  lemma SortedTail(s: seq<string>)
    requires StrictlySorted(s) && s != []
    ensures StrictlySorted(s[1..])
    ensures Elements(s[1..]) == Elements(s) - {s[0]}
  {
    BelowIrreflexive(s[0]);
    assert forall i :: 0 < i < |s| ==> Below(s[0], s[i]);
    assert s == [s[0]] + s[1..];
  }

  /** A strictly sorted listing is determined by its set of names. */
  lemma {:induction false} SortedUnique(a: seq<string>, b: seq<string>)
    requires StrictlySorted(a) && StrictlySorted(b)
    requires Elements(a) == Elements(b)
    ensures a == b
    decreases |a|
  {
    if a != [] {
      assert a[0] in Elements(b);
      SortedHeadIsLeast(a);
      SortedHeadIsLeast(b);
      LeastUnique(Elements(a));
      SortedTail(a);
      SortedTail(b);
      SortedUnique(a[1..], b[1..]);
      assert a == [a[0]] + a[1..];
      assert b == [b[0]] + b[1..];
    } else {
      ElementsEmpty(b);
    }
  }

  lemma ElementsEmpty(s: seq<string>)
    ensures Elements(s) == {} ==> s == []
  {
    if s != [] {
      assert s[0] in Elements(s);
    }
  }

  /** `a` is `b` with some elements dropped, the rest in their order. */
  predicate IsSubsequence(a: seq<string>, b: seq<string>)
    decreases |b|
  {
    if a == [] then true
    else if b == [] then false
    else (a[0] == b[0] && IsSubsequence(a[1..], b[1..])) || IsSubsequence(a, b[1..])
  }

  lemma ElementsHead(s: seq<string>)
    requires s != []
    ensures Elements(s) == {s[0]} + Elements(s[1..])
  {
    assert s == [s[0]] + s[1..];
  }

  /** Keeping the first name in front of the filtered rest keeps the
      filter's names and, on a sorted listing, its order. */
  lemma FilterKeepHead(s: seq<string>, keep: set<string>, rest: seq<string>)
    requires s != [] && s[0] in keep
    requires Elements(rest) == Elements(s[1..]) * keep
    requires StrictlySorted(s[1..]) ==> StrictlySorted(rest)
    ensures Elements([s[0]] + rest) == Elements(s) * keep
    ensures StrictlySorted(s) ==> StrictlySorted([s[0]] + rest)
  {
    ElementsHead(s);
    ElementsHead([s[0]] + rest);
    assert ([s[0]] + rest)[1..] == rest;
    if StrictlySorted(s) {
      SortedTail(s);
      assert forall y :: y in Elements(s[1..]) ==> Below(s[0], y) by {
        forall y | y in Elements(s[1..]) ensures Below(s[0], y) {
          var k :| 0 <= k < |s[1..]| && s[1..][k] == y;
          assert s[k + 1] == y;
        }
      }
      SortedCons(s[0], rest);
    }
  }

  /** `[x for x in s if x in keep]`. */
  function Filter(s: seq<string>, keep: set<string>): (r: seq<string>)
    ensures Elements(r) == Elements(s) * keep
    ensures IsSubsequence(r, s)
    ensures StrictlySorted(s) ==> StrictlySorted(r)
    decreases |s|
  {
    if s == [] then []
    else if s[0] in keep then
      var rest := Filter(s[1..], keep);
      FilterKeepHead(s, keep, rest);
      assert ([s[0]] + rest)[1..] == rest;
      [s[0]] + rest
    else
      ElementsHead(s);
      var rest := Filter(s[1..], keep);
      assert StrictlySorted(s) ==> StrictlySorted(s[1..]) by {
        if StrictlySorted(s) {
          SortedTail(s);
        }
      }
      rest
  }

  /** Sorting the names that pass a test gives the sorted names filtered by it. */
  lemma SortedNamesFilter(names: set<string>, keep: set<string>)
    ensures SortedNames(names * keep) == Filter(SortedNames(names), keep)
  {
    SortedUnique(SortedNames(names * keep), Filter(SortedNames(names), keep));
  }
}
