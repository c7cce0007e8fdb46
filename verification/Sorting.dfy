/** Sorting by a comparison, as the planners do before they pick coins. */
module Sorting {
  import opened Wrappers

  function Insert<T>(x: T, sorted: seq<T>, before: (T, T) -> bool): (s: seq<T>)
    ensures multiset(s) == multiset(sorted) + multiset{x}
  {
    if sorted == [] || before(x, sorted[0]) then [x] + sorted
    else
      RemoveHead(sorted);
      [sorted[0]] + Insert(x, sorted[1..], before)
  }

  function Sort<T>(xs: seq<T>, before: (T, T) -> bool): (s: seq<T>)
    ensures multiset(s) == multiset(xs)
  {
    if xs == [] then []
    else
      RemoveHead(xs);
      Insert(xs[0], Sort(xs[1..], before), before)
  }

  ghost predicate DescendingBy<T>(s: seq<T>, key: T -> int) {
    forall i, j :: 0 <= i < j < |s| ==> key(s[i]) >= key(s[j])
  }

  /** Whatever comes before has the larger key. */
  ghost predicate LargerFirst<T(!new)>(before: (T, T) -> bool, key: T -> int) {
    forall a, b :: if before(a, b) then key(a) >= key(b) else key(b) >= key(a)
  }

  lemma {:induction false} InsertKeepsOrder<T(!new)>(x: T, s: seq<T>, before: (T, T) -> bool, key: T -> int)
    requires DescendingBy(s, key) && LargerFirst(before, key)
    ensures DescendingBy(Insert(x, s, before), key)
  {
    if s == [] {
    } else if before(x, s[0]) {
      assert key(x) >= key(s[0]);
    } else {
      var rest := Insert(x, s[1..], before);
      InsertKeepsOrder(x, s[1..], before, key);
      forall k | 0 <= k < |rest| ensures key(s[0]) >= key(rest[k]) {
        assert rest[k] in multiset(s[1..]) + multiset{x};
      }
    }
  }

  lemma {:induction false} SortedDescends<T(!new)>(xs: seq<T>, before: (T, T) -> bool, key: T -> int)
    requires LargerFirst(before, key)
    ensures DescendingBy(Sort(xs, before), key)
  {
    if xs != [] {
      SortedDescends(xs[1..], before, key);
      InsertKeepsOrder(xs[0], Sort(xs[1..], before), before, key);
    }
  }

  function SumBy<T>(s: seq<T>, f: T -> nat): nat {
    if s == [] then 0 else f(s[0]) + SumBy(s[1..], f)
  }

  lemma {:induction false} SumByConcat<T>(a: seq<T>, b: seq<T>, f: T -> nat)
    ensures SumBy(a + b, f) == SumBy(a, f) + SumBy(b, f)
  {
    if a == [] {
      assert a + b == b;
    } else {
      assert (a + b)[1..] == a[1..] + b;
      SumByConcat(a[1..], b, f);
    }
  }

  lemma {:induction false} InsertAdds<T>(x: T, s: seq<T>, before: (T, T) -> bool, f: T -> nat)
    ensures SumBy(Insert(x, s, before), f) == f(x) + SumBy(s, f)
  {
    if s == [] || before(x, s[0]) {
      assert ([x] + s)[1..] == s;
    } else {
      InsertAdds(x, s[1..], before, f);
      assert ([s[0]] + Insert(x, s[1..], before))[1..] == Insert(x, s[1..], before);
    }
  }

  /** Sorting changes no sum over what is sorted. */
  lemma {:induction false} SortKeepsSum<T>(xs: seq<T>, before: (T, T) -> bool, f: T -> nat)
    ensures SumBy(Sort(xs, before), f) == SumBy(xs, f)
  {
    if xs != [] {
      SortKeepsSum(xs[1..], before, f);
      InsertAdds(xs[0], Sort(xs[1..], before), before, f);
    }
  }

  ghost predicate InOrder<T(!new)>(s: seq<T>, before: (T, T) -> bool) {
    forall i, j :: 0 <= i < j < |s| ==> before(s[i], s[j])
  }

  ghost predicate TotalOrder<T(!new)>(before: (T, T) -> bool) {
    && (forall a, b :: before(a, b) || before(b, a))
    && (forall a, b, c :: before(a, b) && before(b, c) ==> before(a, c))
  }

  lemma {:induction false} InsertOrders<T(!new)>(x: T, s: seq<T>, before: (T, T) -> bool)
    requires TotalOrder(before) && InOrder(s, before)
    ensures InOrder(Insert(x, s, before), before)
  {
    if s == [] {
    } else if before(x, s[0]) {
      forall k | 0 <= k < |s| ensures before(x, s[k]) {
        assert k > 0 ==> before(s[0], s[k]);
      }
    } else {
      var rest := Insert(x, s[1..], before);
      InsertOrders(x, s[1..], before);
      forall k | 0 <= k < |rest| ensures before(s[0], rest[k]) {
        assert rest[k] in multiset(s[1..]) + multiset{x};
        assert before(s[0], x);
      }
    }
  }

  /** Sorting by a total order puts everything in that order. */
  lemma {:induction false} SortOrders<T(!new)>(xs: seq<T>, before: (T, T) -> bool)
    requires TotalOrder(before)
    ensures InOrder(Sort(xs, before), before)
  {
    if xs != [] {
      SortOrders(xs[1..], before);
      InsertOrders(xs[0], Sort(xs[1..], before), before);
    }
  }

  /** Those of this key, in their order. */
  function Having<T>(s: seq<T>, key: T -> int, k: int): seq<T> {
    if s == [] then [] else (if key(s[0]) == k then [s[0]] else []) + Having(s[1..], key, k)
  }

  lemma HavingCons<T>(x: T, s: seq<T>, key: T -> int, k: int)
    ensures Having([x] + s, key, k) == (if key(x) == k then [x] else []) + Having(s, key, k)
  {
    assert ([x] + s)[1..] == s;
  }

  lemma {:induction false} InsertIsStable<T(!new)>(x: T, s: seq<T>, before: (T, T) -> bool, key: T -> int, k: int)
    requires forall a, b :: before(a, b) <==> key(a) >= key(b)
    ensures Having(Insert(x, s, before), key, k) == Having([x] + s, key, k)
  {
    hide Having;
    if s != [] && !before(x, s[0]) {
      var rest := Insert(x, s[1..], before);
      InsertIsStable(x, s[1..], before, key, k);
      assert Insert(x, s, before) == [s[0]] + rest && s == [s[0]] + s[1..];
      HavingCons(s[0], rest, key, k);
      HavingCons(s[0], s[1..], key, k);
      HavingCons(x, s, key, k);
      HavingCons(x, s[1..], key, k);
      assert key(x) < key(s[0]);
    }
  }

  /** Sorting by a key keeps those of equal key in the order they came. */
  lemma {:induction false} SortIsStable<T(!new)>(xs: seq<T>, before: (T, T) -> bool, key: T -> int, k: int)
    requires forall a, b :: before(a, b) <==> key(a) >= key(b)
    ensures Having(Sort(xs, before), key, k) == Having(xs, key, k)
  {
    if xs != [] {
      SortIsStable(xs[1..], before, key, k);
      InsertIsStable(xs[0], Sort(xs[1..], before), before, key, k);
      HavingCons(xs[0], Sort(xs[1..], before), key, k);
      HavingCons(xs[0], xs[1..], key, k);
      assert xs == [xs[0]] + xs[1..];
    }
  }
}
