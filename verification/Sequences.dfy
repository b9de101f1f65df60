/** Filtering and the stable sort behind every `list.sort(key=...)` of the program. */
module Sequences {
  import opened Wrappers

  function Filter<T>(xs: seq<T>, p: T -> bool): (r: seq<T>)
    ensures |r| <= |xs|
  {
    if xs == [] then []
    else
      var rest := Filter(xs[..|xs| - 1], p);
      var x := xs[|xs| - 1];
      if p(x) then rest + [x] else rest
  }

  lemma {:induction false} FilterMembers<T>(xs: seq<T>, p: T -> bool)
    ensures forall x :: x in Filter(xs, p) ==> x in xs && p(x)
    ensures forall x :: x in xs && p(x) ==> x in Filter(xs, p)
  {
    if xs != [] {
      FilterMembers(xs[..|xs| - 1], p);
      assert xs == xs[..|xs| - 1] + [xs[|xs| - 1]];
    }
  }

  lemma {:induction false} FilterConcat<T>(xs: seq<T>, ys: seq<T>, p: T -> bool)
    ensures Filter(xs + ys, p) == Filter(xs, p) + Filter(ys, p)
  {
    if ys == [] {
      assert xs + ys == xs;
    } else {
      var init := ys[..|ys| - 1];
      assert (xs + ys)[..|xs + ys| - 1] == xs + init;
      FilterConcat(xs, init, p);
    }
  }

  lemma {:induction false} FilterAppend<T>(xs: seq<T>, x: T, p: T -> bool)
    ensures Filter(xs + [x], p) == if p(x) then Filter(xs, p) + [x] else Filter(xs, p)
  {}

  lemma {:induction false} FilterTwice<T>(xs: seq<T>, p: T -> bool, q: T -> bool)
    ensures Filter(Filter(xs, p), q) == Filter(Filter(xs, q), p)
  {
    if xs != [] {
      var init, x := xs[..|xs| - 1], xs[|xs| - 1];
      FilterTwice(init, p, q);
      FilterAppend(Filter(init, p), x, q);
      FilterAppend(Filter(init, q), x, p);
    }
  }

  lemma {:induction false} FilterMultiset<T>(xs: seq<T>, p: T -> bool)
    ensures forall x :: multiset(Filter(xs, p))[x] == if p(x) then multiset(xs)[x] else 0
  {
    if xs != [] {
      FilterMultiset(xs[..|xs| - 1], p);
      assert xs == xs[..|xs| - 1] + [xs[|xs| - 1]];
    }
  }

  lemma {:induction false} FilterIsPart<T>(xs: seq<T>, p: T -> bool)
    ensures multiset(Filter(xs, p)) <= multiset(xs)
  {
    if xs != [] {
      FilterIsPart(xs[..|xs| - 1], p);
      assert xs == xs[..|xs| - 1] + [xs[|xs| - 1]];
    }
  }

  lemma {:induction false} FilterOfPermutation<T>(xs: seq<T>, ys: seq<T>, p: T -> bool)
    requires multiset(xs) == multiset(ys)
    ensures multiset(Filter(xs, p)) == multiset(Filter(ys, p))
    decreases |xs|
  {
    if xs == [] {
      assert |multiset(ys)| == 0;
    } else {
      var init, x := xs[..|xs| - 1], xs[|xs| - 1];
      assert xs == init + [x];
      assert x in multiset(xs);
      var i :| 0 <= i < |ys| && ys[i] == x;
      var rest := ys[..i] + ys[i + 1..];
      assert ys == ys[..i] + [x] + ys[i + 1..];
      assert multiset(init) == multiset(xs) - multiset{x};
      assert multiset(rest) == multiset(ys) - multiset{x};
      FilterOfPermutation(init, rest, p);
      FilterConcat(ys[..i], ys[i + 1..], p);
      FilterAppend(ys[..i], x, p);
      FilterConcat(ys[..i] + [x], ys[i + 1..], p);
    }
  }

  lemma {:induction false} FilterAll<T>(xs: seq<T>, p: T -> bool)
    requires forall x :: x in xs ==> p(x)
    ensures Filter(xs, p) == xs
  {
    if xs != [] {
      FilterAll(xs[..|xs| - 1], p);
      assert xs[|xs| - 1] in xs;
      assert xs == xs[..|xs| - 1] + [xs[|xs| - 1]];
    }
  }

  /** The rank of the elements strictly increases along the list. */
  ghost predicate RisesBy<T>(xs: seq<T>, rank: T -> int)
  {
    forall i, j :: 0 <= i < j < |xs| ==> rank(xs[i]) < rank(xs[j])
  }

  lemma {:induction false} FilterRises<T>(xs: seq<T>, p: T -> bool, rank: T -> int)
    requires RisesBy(xs, rank)
    ensures RisesBy(Filter(xs, p), rank)
  {
    if xs != [] {
      var n := |xs| - 1;
      FilterRises(xs[..n], p, rank);
      FilterMembers(xs[..n], p);
      forall x | x in xs[..n] ensures rank(x) < rank(xs[n]) { var i :| 0 <= i < n && xs[i] == x; }
    }
  }

  /** Checking a list is checking its last element after the others. */
  lemma {:induction false} AllButLast<T>(xs: seq<T>, p: T -> bool)
    requires xs != []
    ensures (forall x :: x in xs ==> p(x)) <==> (forall x :: x in xs[..|xs| - 1] ==> p(x)) && p(xs[|xs| - 1])
  {}

  /** The first index whose element satisfies p. */
  function FirstIndex<T>(xs: seq<T>, p: T -> bool): (r: Option<nat>)
    ensures r.Some? ==> r.value < |xs| && p(xs[r.value]) && forall i :: 0 <= i < r.value ==> !p(xs[i])
    ensures r.None? ==> forall i :: 0 <= i < |xs| ==> !p(xs[i])
  {
    if xs == [] then None
    else
      var n := |xs| - 1;
      var earlier := FirstIndex(xs[..n], p);
      if earlier.Some? then earlier
      else if p(xs[n]) then Some(n)
      else None
  }

  lemma {:induction false} FirstIndexSame<T>(xs: seq<T>, ys: seq<T>, p: T -> bool)
    requires |xs| == |ys| && forall i :: 0 <= i < |xs| ==> p(xs[i]) == p(ys[i])
    ensures FirstIndex(xs, p) == FirstIndex(ys, p)
  {}

  // ---------------------------------------------------------------- sums

  function SumOf<T>(xs: seq<T>, f: T -> int): int
  {
    if xs == [] then 0 else SumOf(xs[..|xs| - 1], f) + f(xs[|xs| - 1])
  }

  lemma {:induction false} SumOfConcat<T>(xs: seq<T>, ys: seq<T>, f: T -> int)
    ensures SumOf(xs + ys, f) == SumOf(xs, f) + SumOf(ys, f)
  {
    if ys == [] {
      assert xs + ys == xs;
    } else {
      assert (xs + ys)[..|xs + ys| - 1] == xs + ys[..|ys| - 1];
      SumOfConcat(xs, ys[..|ys| - 1], f);
    }
  }

  lemma {:induction false} SumOfWithout<T>(xs: seq<T>, i: nat, f: T -> int)
    requires i < |xs|
    ensures SumOf(xs, f) == SumOf(xs[..i] + xs[i + 1..], f) + f(xs[i])
    ensures multiset(xs) == multiset(xs[..i] + xs[i + 1..]) + multiset{xs[i]}
  {
    assert xs == xs[..i] + [xs[i]] + xs[i + 1..];
    SumOfConcat(xs[..i] + [xs[i]], xs[i + 1..], f);
    SumOfConcat(xs[..i], [xs[i]], f);
    SumOfConcat(xs[..i], xs[i + 1..], f);
    assert [xs[i]][..0] == [];
  }

  /** A part of a list of non-negative values adds up to no more than the whole. */
  lemma {:induction false} SumOfPart<T>(part: seq<T>, whole: seq<T>, f: T -> int)
    requires multiset(part) <= multiset(whole)
    requires forall x :: x in whole ==> f(x) >= 0
    ensures SumOf(part, f) <= SumOf(whole, f)
    decreases |whole|
  {
    if part == [] {
      SumOfNonNegative(whole, f);
    } else {
      var init, x := part[..|part| - 1], part[|part| - 1];
      assert part == init + [x];
      assert x in multiset(part);
      var i :| 0 <= i < |whole| && whole[i] == x;
      var rest := whole[..i] + whole[i + 1..];
      SumOfWithout(whole, i, f);
      assert multiset(init) == multiset(part) - multiset{x};
      assert multiset(rest) == multiset(whole) - multiset{x};
      assert forall y :: y in rest ==> y in whole;
      SumOfPart(init, rest, f);
    }
  }

  lemma {:induction false} SumOfNonNegative<T>(xs: seq<T>, f: T -> int)
    requires forall x :: x in xs ==> f(x) >= 0
    ensures SumOf(xs, f) >= 0
  {
    if xs != [] { SumOfNonNegative(xs[..|xs| - 1], f); }
  }

  lemma {:induction false} SumOfPermutation<T>(xs: seq<T>, ys: seq<T>, f: T -> int)
    requires multiset(xs) == multiset(ys)
    ensures SumOf(xs, f) == SumOf(ys, f)
    decreases |xs|
  {
    if xs == [] {
      assert |multiset(ys)| == 0;
    } else {
      var init, x := xs[..|xs| - 1], xs[|xs| - 1];
      assert xs == init + [x];
      assert x in multiset(xs);
      var i :| 0 <= i < |ys| && ys[i] == x;
      var rest := ys[..i] + ys[i + 1..];
      SumOfWithout(ys, i, f);
      assert multiset(init) == multiset(xs) - multiset{x};
      assert multiset(rest) == multiset(ys) - multiset{x};
      SumOfPermutation(init, rest, f);
    }
  }

  // ---------------------------------------------------------------- stable sort

  /** The elements whose key is k, in order. */
  function WithKey<T>(xs: seq<T>, key: T -> real, k: real): seq<T>
  {
    Filter(xs, x => key(x) == k)
  }

  lemma {:induction false} WithKeyConcat<T>(xs: seq<T>, ys: seq<T>, key: T -> real, k: real)
    ensures WithKey(xs + ys, key, k) == WithKey(xs, key, k) + WithKey(ys, key, k)
  {
    FilterConcat(xs, ys, x => key(x) == k);
  }

  lemma {:induction false} WithKeyMembers<T>(xs: seq<T>, key: T -> real, k: real)
    ensures forall x :: x in WithKey(xs, key, k) <==> x in xs && key(x) == k
  {
    FilterMembers(xs, x => key(x) == k);
  }

  lemma {:induction false} WithKeyRises<T>(xs: seq<T>, key: T -> real, k: real, rank: T -> int)
    requires RisesBy(xs, rank)
    ensures RisesBy(WithKey(xs, key, k), rank)
  {
    FilterRises(xs, x => key(x) == k, rank);
  }

  /** The first element is the first one of its key. */
  lemma {:induction false} HeadOfKey<T>(xs: seq<T>, key: T -> real)
    requires xs != []
    ensures WithKey(xs, key, key(xs[0])) != [] && WithKey(xs, key, key(xs[0]))[0] == xs[0]
  {
    assert xs == xs[..1] + xs[1..];
    WithKeyConcat(xs[..1], xs[1..], key, key(xs[0]));
    assert xs[..1][..0] == [];
  }

  ghost predicate SortedBy<T>(xs: seq<T>, key: T -> real)
  {
    forall i, j :: 0 <= i < j < |xs| ==> key(xs[i]) <= key(xs[j])
  }

  function Insert<T>(xs: seq<T>, x: T, key: T -> real): (r: seq<T>)
    ensures |r| == |xs| + 1
  {
    if xs == [] || key(xs[|xs| - 1]) <= key(x) then xs + [x]
    else Insert(xs[..|xs| - 1], x, key) + [xs[|xs| - 1]]
  }

  function StableSort<T>(xs: seq<T>, key: T -> real): (r: seq<T>)
    ensures |r| == |xs|
  {
    if xs == [] then []
    else Insert(StableSort(xs[..|xs| - 1], key), xs[|xs| - 1], key)
  }

  lemma {:induction false} InsertMembers<T>(xs: seq<T>, x: T, key: T -> real)
    ensures multiset(Insert(xs, x, key)) == multiset(xs) + multiset{x}
  {
    if xs == [] || key(xs[|xs| - 1]) <= key(x) {
    } else {
      var init, last := xs[..|xs| - 1], xs[|xs| - 1];
      InsertMembers(init, x, key);
      assert xs == init + [last];
    }
  }

  lemma {:induction false} InsertSorts<T>(xs: seq<T>, x: T, key: T -> real)
    requires SortedBy(xs, key)
    ensures SortedBy(Insert(xs, x, key), key)
  {
    if xs == [] || key(xs[|xs| - 1]) <= key(x) {
    } else {
      var n := |xs| - 1;
      var r := Insert(xs[..n], x, key);
      InsertSorts(xs[..n], x, key);
      InsertMembers(xs[..n], x, key);
      forall i | 0 <= i < |r| ensures key(r[i]) <= key(xs[n]) {
        assert r[i] in multiset(r);
      }
    }
  }

  lemma {:induction false} InsertIsStable<T>(xs: seq<T>, x: T, key: T -> real, k: real)
    requires SortedBy(xs, key)
    ensures WithKey(Insert(xs, x, key), key, k) == WithKey(xs + [x], key, k)
  {
    if xs == [] || key(xs[|xs| - 1]) <= key(x) {
    } else {
      var init, last := xs[..|xs| - 1], xs[|xs| - 1];
      var p := y => key(y) == k;
      assert WithKey(init, key, k) == Filter(init, p);
      InsertIsStable(init, x, key, k);
      FilterAppend(Insert(init, x, key), last, y => key(y) == k);
      FilterAppend(init, x, y => key(y) == k);
      FilterAppend(xs, x, y => key(y) == k);
      assert xs == init + [last];
      FilterAppend(init, last, y => key(y) == k);
    }
  }

  /** What list.sort promises: sorted, a permutation, and equal keys keep their order. */
  lemma {:induction false} StableSortCorrect<T>(xs: seq<T>, key: T -> real)
    ensures SortedBy(StableSort(xs, key), key)
    ensures multiset(StableSort(xs, key)) == multiset(xs)
    ensures forall k :: WithKey(StableSort(xs, key), key, k) == WithKey(xs, key, k)
  {
    if xs != [] {
      var init, last := xs[..|xs| - 1], xs[|xs| - 1];
      assert xs == init + [last];
      StableSortCorrect(init, key);
      var s := StableSort(init, key);
      InsertSorts(s, last, key);
      InsertMembers(s, last, key);
      forall k ensures WithKey(StableSort(xs, key), key, k) == WithKey(xs, key, k) {
        InsertIsStable(s, last, key, k);
        FilterAppend(s, last, y => key(y) == k);
        FilterAppend(init, last, y => key(y) == k);
        assert WithKey(s, key, k) == WithKey(init, key, k);
      }
    }
  }

  /** Sorting, dropping some elements and sorting again is one stable sort of what is left. */
  lemma {:induction false} SortFilterSort<T>(xs: seq<T>, p: T -> bool, key: T -> real)
    ensures
      var r := StableSort(Filter(StableSort(xs, key), p), key);
      && SortedBy(r, key)
      && multiset(r) == multiset(Filter(xs, p))
      && forall k :: WithKey(r, key, k) == WithKey(Filter(xs, p), key, k)
  {
    var first := StableSort(xs, key);
    var r := StableSort(Filter(first, p), key);
    StableSortCorrect(xs, key);
    StableSortCorrect(Filter(first, p), key);
    FilterOfPermutation(first, xs, p);
    forall k ensures WithKey(r, key, k) == WithKey(Filter(xs, p), key, k) {
      FilterTwice(first, p, x => key(x) == k);
      FilterTwice(xs, p, x => key(x) == k);
      assert WithKey(first, key, k) == WithKey(xs, key, k);
    }
  }
}
