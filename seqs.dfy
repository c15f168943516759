/** The array operations the dashboard is built from, on sequences:
    `xs.filter(p)`, `xs.map(f)`, `[...new Set(xs)]` (distinct values in
    first-seen order) and a stable `sort` by a comparison. */
module Seqs {

  /** `xs.filter(p)`: the elements that satisfy `p`, in their original order. */
  function Filter<T>(xs: seq<T>, p: T -> bool): (r: seq<T>)
    ensures |r| <= |xs|
  {
    if xs == [] then []
    else if p(xs[0]) then [xs[0]] + Filter(xs[1..], p)
    else Filter(xs[1..], p)
  }

  /** `xs.map(f)`. */
  function Map<T, U>(xs: seq<T>, f: T -> U): (r: seq<U>)
    ensures |r| == |xs|
    ensures forall i :: 0 <= i < |xs| ==> r[i] == f(xs[i])
  {
    if xs == [] then [] else [f(xs[0])] + Map(xs[1..], f)
  }

  /** `sub` is obtained from `xs` by deleting elements (an order-preserving
      subsequence); checked by greedy matching. */
  ghost predicate IsSubsequence<T>(sub: seq<T>, xs: seq<T>)
    decreases |xs|
  {
    if sub == [] then true
    else if xs == [] then false
    else if sub[0] == xs[0] then IsSubsequence(sub[1..], xs[1..])
    else IsSubsequence(sub, xs[1..])
  }

  ghost predicate NoDup<T>(s: seq<T>)
  {
    forall i, j :: 0 <= i < j < |s| ==> s[i] != s[j]
  }

  /** `[...new Set(xs)]`: each value once, where it first occurs. */
  function Distinct<T(==)>(xs: seq<T>): seq<T>
  {
    if xs == [] then []
    else
      var d := Distinct(xs[..|xs| - 1]);
      if xs[|xs| - 1] in d then d else d + [xs[|xs| - 1]]
  }

  /** Position of the first occurrence of `x` in `xs`. */
  function FirstIndex<T(==)>(xs: seq<T>, x: T): (i: nat)
    requires x in xs
    ensures i < |xs| && xs[i] == x && x !in xs[..i]
  {
    if xs[0] == x then 0
    else
      assert x in xs[1..];
      var j := FirstIndex(xs[1..], x);
      assert xs[..j + 1] == [xs[0]] + xs[1..][..j];
      j + 1
  }

  /** The values of `d` occur in `xs`, and in the order of their first
      occurrence there. */
  ghost predicate InFirstSeenOrder<T>(d: seq<T>, xs: seq<T>)
  {
    forall i, j :: 0 <= i < j < |d| ==>
      d[i] in xs && d[j] in xs && FirstIndex(xs, d[i]) < FirstIndex(xs, d[j])
  }

  /** `le` is a total preorder: what a sort comparison has to be. */
  ghost predicate TotalPreorder<T(!new)>(le: (T, T) -> bool)
  {
    && (forall a, b :: le(a, b) || le(b, a))
    && (forall a, b, c :: le(a, b) && le(b, c) ==> le(a, c))
  }

  ghost predicate Antisymmetric<T(!new)>(le: (T, T) -> bool)
  {
    forall a, b :: le(a, b) && le(b, a) ==> a == b
  }

  ghost predicate Sorted<T>(s: seq<T>, le: (T, T) -> bool)
  {
    forall i, j :: 0 <= i < j < |s| ==> le(s[i], s[j])
  }

  /** Puts `x` in front of the first element it is not after. */
  function Insert<T>(x: T, s: seq<T>, le: (T, T) -> bool): (r: seq<T>)
    ensures |r| == |s| + 1
  {
    if s == [] || le(x, s[0]) then [x] + s else [s[0]] + Insert(x, s[1..], le)
  }

  /** `xs.sort(cmp)` for a comparison whose "not after" relation is `le`:
      insertion sort, stable because an element goes in front of the
      equivalent elements that follow it in the input. */
  function Sort<T>(xs: seq<T>, le: (T, T) -> bool): (r: seq<T>)
    ensures |r| == |xs|
  {
    if xs == [] then [] else Insert(xs[0], Sort(xs[1..], le), le)
  }

  /** The elements equivalent to `e` under `le` (used to state stability). */
  function Tied<T>(le: (T, T) -> bool, e: T): T -> bool
  {
    y => le(y, e) && le(e, y)
  }

  // ---------------------------------------------------------------- Filter

  lemma {:induction false} FilterMembers<T>(xs: seq<T>, p: T -> bool)
    ensures forall x :: x in Filter(xs, p) ==> x in xs && p(x)
    ensures forall x :: x in xs && p(x) ==> x in Filter(xs, p)
  {
    if xs != [] {
      FilterMembers(xs[1..], p);
      assert forall x :: x in xs <==> x == xs[0] || x in xs[1..];
    }
  }

  lemma {:induction false} FilterIsSubsequence<T>(xs: seq<T>, p: T -> bool)
    ensures IsSubsequence(Filter(xs, p), xs)
  {
    if xs != [] {
      FilterIsSubsequence(xs[1..], p);
      if !p(xs[0]) {
        var f := Filter(xs[1..], p);
        if f != [] {
          FilterMembers(xs[1..], p);
          assert f[0] in f;
        }
      }
    }
  }

  lemma {:induction false} FilterAppend<T>(a: seq<T>, b: seq<T>, p: T -> bool)
    ensures Filter(a + b, p) == Filter(a, p) + Filter(b, p)
  {
    if a == [] {
      assert a + b == b;
    } else {
      assert (a + b)[0] == a[0];
      assert (a + b)[1..] == a[1..] + b;
      FilterAppend(a[1..], b, p);
    }
  }

  lemma {:induction false} FilterKeepsAll<T>(xs: seq<T>, p: T -> bool)
    requires forall x :: x in xs ==> p(x)
    ensures Filter(xs, p) == xs
  {
    if xs != [] {
      assert xs[0] in xs;
      FilterKeepsAll(xs[1..], p);
      assert [xs[0]] + xs[1..] == xs;
    }
  }

  /** `filter` keeps every copy of an element that passes and none of one
      that fails. */
  lemma {:induction false} FilterCount<T>(xs: seq<T>, p: T -> bool)
    ensures forall x :: multiset(Filter(xs, p))[x] == if p(x) then multiset(xs)[x] else 0
  {
    if xs != [] {
      FilterCount(xs[1..], p);
      assert xs == [xs[0]] + xs[1..];
    }
  }

  lemma {:induction false} FilterDropsAll<T>(xs: seq<T>, p: T -> bool)
    requires forall x :: x in xs ==> !p(x)
    ensures Filter(xs, p) == []
  {
    if xs != [] {
      assert xs[0] in xs;
      FilterDropsAll(xs[1..], p);
    }
  }

  lemma {:induction false} SubsequenceReflexive<T>(xs: seq<T>)
    ensures IsSubsequence(xs, xs)
  {
    if xs != [] {
      SubsequenceReflexive(xs[1..]);
    }
  }

  lemma MapAppendOne<T, U>(xs: seq<T>, x: T, f: T -> U)
    ensures Map(xs + [x], f) == Map(xs, f) + [f(x)]
  {
    var l, r := Map(xs + [x], f), Map(xs, f) + [f(x)];
    assert |l| == |r|;
    assert forall i :: 0 <= i < |l| ==> l[i] == r[i];
  }

  // -------------------------------------------------------------- Distinct

  lemma DistinctAppendOne<T>(xs: seq<T>, x: T)
    ensures Distinct(xs + [x]) == if x in Distinct(xs) then Distinct(xs) else Distinct(xs) + [x]
  {
    assert (xs + [x])[..|xs + [x]| - 1] == xs;
  }

  lemma {:induction false} NoDupAppendOne<T>(s: seq<T>, x: T)
    requires NoDup(s) && x !in s
    ensures NoDup(s + [x])
  {
    forall i, j | 0 <= i < j < |s + [x]|
      ensures (s + [x])[i] != (s + [x])[j]
    {
      if j == |s| {
        assert (s + [x])[i] == s[i];
      } else {
        assert (s + [x])[i] == s[i] && (s + [x])[j] == s[j];
      }
    }
  }

  /** `[...new Set(xs)]` holds every value of `xs` and nothing else, once. */
  lemma {:induction false} DistinctElements<T>(xs: seq<T>)
    ensures NoDup(Distinct(xs))
    ensures forall x :: x in Distinct(xs) ==> x in xs
    ensures forall x :: x in xs ==> x in Distinct(xs)
  {
    if xs != [] {
      var init, last := xs[..|xs| - 1], xs[|xs| - 1];
      assert xs == init + [last];
      DistinctElements(init);
      if last !in Distinct(init) {
        NoDupAppendOne(Distinct(init), last);
      }
      assert forall x :: x in xs <==> x in init || x == last;
    }
  }

  lemma {:induction false} FirstIndexInPrefix<T>(init: seq<T>, last: T, x: T)
    requires x in init
    ensures FirstIndex(init + [last], x) == FirstIndex(init, x)
  {
    assert (init + [last])[0] == init[0];
    if init[0] != x {
      assert (init + [last])[1..] == init[1..] + [last];
      assert x in init[1..];
      FirstIndexInPrefix(init[1..], last, x);
    }
  }

  /** Appending to `xs` keeps a first-seen ordering of its values, and a
      value new to `xs` can follow them. */
  lemma FirstSeenOrderAppend<T>(d: seq<T>, xs: seq<T>, x: T)
    requires InFirstSeenOrder(d, xs)
    requires forall y :: y in d ==> y in xs
    ensures InFirstSeenOrder(d, xs + [x])
    ensures x !in xs ==> InFirstSeenOrder(d + [x], xs + [x])
  {
    forall y | y in d
      ensures y in xs + [x] && FirstIndex(xs + [x], y) == FirstIndex(xs, y) < |xs|
    {
      FirstIndexInPrefix(xs, x, y);
    }
    if x !in xs {
      assert FirstIndex(xs + [x], x) == |xs| by {
        assert forall i :: 0 <= i < |xs| ==> (xs + [x])[i] == xs[i] && xs[i] in xs;
      }
      forall i, j | 0 <= i < j < |d + [x]|
        ensures (d + [x])[i] in xs + [x] && (d + [x])[j] in xs + [x]
        ensures FirstIndex(xs + [x], (d + [x])[i]) < FirstIndex(xs + [x], (d + [x])[j])
      {
        assert (d + [x])[i] == d[i] && d[i] in d;
        if j < |d| {
          assert (d + [x])[j] == d[j] && d[j] in d;
        }
      }
    }
  }

  /** ... and keeps them in the order of their first occurrence. */
  lemma {:induction false} DistinctFirstSeenOrder<T>(xs: seq<T>)
    ensures InFirstSeenOrder(Distinct(xs), xs)
  {
    if xs != [] {
      var init, last := xs[..|xs| - 1], xs[|xs| - 1];
      assert xs == init + [last];
      DistinctFirstSeenOrder(init);
      DistinctElements(init);
      FirstSeenOrderAppend(Distinct(init), init, last);
    }
  }

  // ------------------------------------------------------------------ Sort

  lemma {:induction false} InsertMultiset<T>(x: T, s: seq<T>, le: (T, T) -> bool)
    ensures multiset(Insert(x, s, le)) == multiset(s) + multiset{x}
  {
    if s != [] && !le(x, s[0]) {
      InsertMultiset(x, s[1..], le);
      assert s == [s[0]] + s[1..];
    }
  }

  /** Sorting permutes its input. */
  lemma {:induction false} SortMultiset<T>(xs: seq<T>, le: (T, T) -> bool)
    ensures multiset(Sort(xs, le)) == multiset(xs)
  {
    if xs != [] {
      SortMultiset(xs[1..], le);
      InsertMultiset(xs[0], Sort(xs[1..], le), le);
      assert xs == [xs[0]] + xs[1..];
    }
  }

  lemma SortMembers<T>(xs: seq<T>, le: (T, T) -> bool)
    ensures forall x :: x in Sort(xs, le) ==> x in xs
    ensures forall x :: x in xs ==> x in Sort(xs, le)
  {
    SortMultiset(xs, le);
    forall x | x in Sort(xs, le)
      ensures x in xs
    {
      assert x in multiset(Sort(xs, le));
    }
    forall x | x in xs
      ensures x in Sort(xs, le)
    {
      assert x in multiset(xs);
    }
  }

  /** An element before every element of a sorted sequence can go first. */
  lemma SortedCons<T>(b: T, t: seq<T>, le: (T, T) -> bool)
    requires Sorted(t, le)
    requires forall y :: y in t ==> le(b, y)
    ensures Sorted([b] + t, le)
  {
    forall i, j | 0 <= i < j < |[b] + t|
      ensures le(([b] + t)[i], ([b] + t)[j])
    {
      assert ([b] + t)[j] == t[j - 1] && t[j - 1] in t;
      if i > 0 {
        assert ([b] + t)[i] == t[i - 1];
      }
    }
  }

  /** A lower bound of `x` and of every element of `s` bounds the insertion. */
  lemma InsertBounded<T>(b: T, x: T, s: seq<T>, le: (T, T) -> bool)
    requires le(b, x) && forall y :: y in s ==> le(b, y)
    ensures forall y :: y in Insert(x, s, le) ==> le(b, y)
  {
    InsertMultiset(x, s, le);
    forall y | y in Insert(x, s, le)
      ensures le(b, y)
    {
      assert y in multiset(Insert(x, s, le));
    }
  }

  lemma {:induction false} InsertSorted<T(!new)>(x: T, s: seq<T>, le: (T, T) -> bool)
    requires TotalPreorder(le) && Sorted(s, le)
    ensures Sorted(Insert(x, s, le), le)
  {
    if s == [] || le(x, s[0]) {
      forall y | y in s
        ensures le(x, y)
      {
        var k :| 0 <= k < |s| && s[k] == y;
        if k > 0 {
          assert le(s[0], s[k]);
        }
      }
      SortedCons(x, s, le);
    } else {
      assert le(s[0], x);
      assert Sorted(s[1..], le) by {
        forall i, j | 0 <= i < j < |s[1..]|
          ensures le(s[1..][i], s[1..][j])
        {
          assert s[1..][i] == s[i + 1] && s[1..][j] == s[j + 1];
        }
      }
      InsertSorted(x, s[1..], le);
      forall y | y in s[1..]
        ensures le(s[0], y)
      {
        var k :| 0 <= k < |s[1..]| && s[1..][k] == y;
        assert s[k + 1] == y;
      }
      InsertBounded(s[0], x, s[1..], le);
      SortedCons(s[0], Insert(x, s[1..], le), le);
    }
  }

  /** The sort orders its result by `le` ... */
  lemma {:induction false} SortSorted<T(!new)>(xs: seq<T>, le: (T, T) -> bool)
    requires TotalPreorder(le)
    ensures Sorted(Sort(xs, le), le)
  {
    if xs != [] {
      SortSorted(xs[1..], le);
      InsertSorted(xs[0], Sort(xs[1..], le), le);
    }
  }

  lemma {:induction false} InsertStable<T(!new)>(x: T, s: seq<T>, le: (T, T) -> bool, e: T)
    requires TotalPreorder(le)
    ensures Filter(Insert(x, s, le), Tied(le, e)) == Filter([x], Tied(le, e)) + Filter(s, Tied(le, e))
  {
    var t := Tied(le, e);
    FilterAppend([x], s, t);
    if s != [] && !le(x, s[0]) {
      var s0, rest := s[0], s[1..];
      InsertStable(x, rest, le, e);
      FilterAppend([s0], Insert(x, rest, le), t);
      FilterAppend([s0], rest, t);
      assert s == [s0] + rest;
      assert !(t(x) && t(s0));
    }
  }

  /** ... and is stable: the elements equivalent to any `e` come out in
      their input order. */
  lemma {:induction false} SortStable<T(!new)>(xs: seq<T>, le: (T, T) -> bool, e: T)
    requires TotalPreorder(le)
    ensures Filter(Sort(xs, le), Tied(le, e)) == Filter(xs, Tied(le, e))
  {
    if xs != [] {
      SortStable(xs[1..], le, e);
      InsertStable(xs[0], Sort(xs[1..], le), le, e);
      FilterAppend([xs[0]], xs[1..], Tied(le, e));
      assert xs == [xs[0]] + xs[1..];
    }
  }

  lemma {:induction false} NoDupCons<T>(x: T, s: seq<T>)
    requires NoDup(s) && x !in s
    ensures NoDup([x] + s)
  {
    forall i, j | 0 <= i < j < |[x] + s|
      ensures ([x] + s)[i] != ([x] + s)[j]
    {
      assert ([x] + s)[j] == s[j - 1];
      if i > 0 {
        assert ([x] + s)[i] == s[i - 1];
      }
    }
  }

  lemma {:induction false} InsertNoDup<T>(x: T, s: seq<T>, le: (T, T) -> bool)
    requires NoDup(s) && x !in s
    ensures NoDup(Insert(x, s, le))
  {
    if s == [] || le(x, s[0]) {
      NoDupCons(x, s);
    } else {
      var s0, rest := s[0], s[1..];
      assert NoDup(rest);
      assert s0 !in rest;
      InsertNoDup(x, rest, le);
      InsertMultiset(x, rest, le);
      assert s0 !in multiset(Insert(x, rest, le));
      NoDupCons(s0, Insert(x, rest, le));
    }
  }

  /** Sorting values that are all different keeps them all different; with
      an antisymmetric `le` the result is then strictly ascending. */
  lemma {:induction false} SortStrictlyAscending<T(!new)>(xs: seq<T>, le: (T, T) -> bool)
    requires TotalPreorder(le) && Antisymmetric(le) && NoDup(xs)
    ensures NoDup(Sort(xs, le))
    ensures forall i, j :: 0 <= i < j < |Sort(xs, le)| ==>
              le(Sort(xs, le)[i], Sort(xs, le)[j]) && !le(Sort(xs, le)[j], Sort(xs, le)[i])
  {
    SortSorted(xs, le);
    if xs != [] {
      assert NoDup(xs[1..]);
      assert xs[0] !in xs[1..];
      SortStrictlyAscending(xs[1..], le);
      SortMultiset(xs[1..], le);
      assert xs[0] !in multiset(Sort(xs[1..], le));
      InsertNoDup(xs[0], Sort(xs[1..], le), le);
    }
  }
}
