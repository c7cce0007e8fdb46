/** Sums over the first `n` positions of a transaction side. */
module Totals {
  import opened Wrappers

  function Total(f: nat -> nat, n: nat): nat {
    if n == 0 then 0 else Total(f, n - 1) + f(n - 1)
  }

  lemma {:induction false} TotalMonotone(f: nat -> nat, m: nat, n: nat)
    requires m <= n
    ensures Total(f, m) <= Total(f, n)
  {
    if m < n {
      TotalMonotone(f, m, n - 1);
    }
  }

  lemma {:induction false} TotalAdds(f: nat -> nat, g: nat -> nat, h: nat -> nat, n: nat)
    requires forall i :: 0 <= i < n ==> h(i) == f(i) + g(i)
    ensures Total(h, n) == Total(f, n) + Total(g, n)
  {
    if n > 0 {
      TotalAdds(f, g, h, n - 1);
    }
  }

  lemma {:induction false} TotalSame(f: nat -> nat, g: nat -> nat, n: nat)
    requires forall i :: 0 <= i < n ==> f(i) == g(i)
    ensures Total(f, n) == Total(g, n)
  {
    if n > 0 {
      TotalSame(f, g, n - 1);
    }
  }

  lemma {:induction false} TotalScales(f: nat -> nat, g: nat -> nat, c: nat, n: nat)
    requires forall i :: 0 <= i < n ==> g(i) == c * f(i)
    ensures Total(g, n) == c * Total(f, n)
  {
    if n > 0 {
      TotalScales(f, g, c, n - 1);
    }
  }

  lemma {:induction false} TotalAtMost(f: nat -> nat, g: nat -> nat, n: nat)
    requires forall i :: 0 <= i < n ==> f(i) <= g(i)
    ensures Total(f, n) <= Total(g, n)
  {
    if n > 0 {
      TotalAtMost(f, g, n - 1);
    }
  }

  lemma {:induction false} TotalZero(f: nat -> nat, n: nat)
    ensures Total(f, n) == 0 <==> forall i :: 0 <= i < n ==> f(i) == 0
  {
    if n > 0 {
      TotalZero(f, n - 1);
    }
  }

  /** Only position `k` contributes. */
  lemma {:induction false} TotalAtOne(f: nat -> nat, k: nat, n: nat)
    requires k < n && forall i :: 0 <= i < n && i != k ==> f(i) == 0
    ensures Total(f, n) == f(k)
  {
    if k == n - 1 {
      TotalZero(f, n - 1);
    } else {
      TotalAtOne(f, k, n - 1);
    }
  }

  /** Two positions contribute at least what they hold. */
  lemma TotalOfTwo(f: nat -> nat, a: nat, b: nat, n: nat)
    requires a < b < n
    ensures Total(f, n) >= f(a) + f(b)
  {
    TotalMonotone(f, a + 1, b);
    TotalMonotone(f, b + 1, n);
    assert Total(f, b + 1) == Total(f, b) + f(b) && Total(f, a + 1) == Total(f, a) + f(a);
  }

  ghost predicate OnlyAt(f: nat -> nat, i: nat, n: nat) {
    i < n && f(i) == 1 && forall j :: 0 <= j < n && j != i ==> f(j) == 0
  }

  /** Ones add up to one exactly if there is just one of them. */
  lemma TotalIsOne(f: nat -> nat, n: nat)
    requires forall i :: 0 <= i < n ==> f(i) <= 1
    ensures Total(f, n) == 1 <==> exists i :: OnlyAt(f, i, n)
  {
    hide Total;
    if i :| OnlyAt(f, i, n) {
      TotalAtOne(f, i, n);
    }
    TotalZero(f, n);
    if Total(f, n) == 1 {
      var i :| 0 <= i < n && f(i) != 0;
      forall j | 0 <= j < n && j != i ensures f(j) == 0 {
        TotalOfTwo(f, Min(i, j), Max(i, j), n);
      }
      assert OnlyAt(f, i, n);
    }
  }

  /** The checked fold: the total, or nothing once it leaves the word. */
  method CheckedTotal(f: nat -> nat, n: nat, limit: nat) returns (sum: Option<nat>)
    requires limit > 0
    ensures sum == if Total(f, n) < limit then Some(Total(f, n)) else None
  {
    var total := 0;
    for i := 0 to n
      invariant total == Total(f, i) < limit
    {
      TotalMonotone(f, i + 1, n);
      if total + f(i) >= limit {
        return None;
      }
      total := total + f(i);
    }
    return Some(total);
  }
}
