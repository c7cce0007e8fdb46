/** Token cells, the order the planner sorts them in, and the least number of cells that covers an amount. */
module TokenCells {
  import opened Wrappers
  import opened Ledger
  import S = Sorting

  datatype Cell = Cell(at: Outpoint, tokens: nat, value: nat)

  function Amounts(cells: seq<Cell>): seq<nat> {
    seq(|cells|, i requires 0 <= i < |cells| => cells[i].tokens)
  }

  function Places(cells: seq<Cell>): seq<Outpoint> {
    seq(|cells|, i requires 0 <= i < |cells| => cells[i].at)
  }

  function Deposits(cells: seq<Cell>): seq<nat> {
    seq(|cells|, i requires 0 <= i < |cells| => cells[i].value)
  }

  lemma ProjectionsConcat(a: seq<Cell>, b: seq<Cell>)
    ensures Amounts(a + b) == Amounts(a) + Amounts(b)
    ensures Places(a + b) == Places(a) + Places(b)
    ensures Deposits(a + b) == Deposits(a) + Deposits(b)
  {
  }

  lemma ProjectionsCons(c: Cell, s: seq<Cell>)
    ensures Amounts([c] + s) == [c.tokens] + Amounts(s)
    ensures Places([c] + s) == [c.at] + Places(s)
    ensures Sum(Amounts([c] + s)) == c.tokens + Sum(Amounts(s))
  {
    assert ([c.tokens] + Amounts(s))[1..] == Amounts(s);
  }

  /** Largest amount first; ties follow `order`, the position of the outpoint's text and index. */
  function ByAmount(order: Outpoint -> int): (Cell, Cell) -> bool {
    (a: Cell, b: Cell) => a.tokens > b.tokens || (a.tokens == b.tokens && order(a.at) <= order(b.at))
  }

  function SortCells(cells: seq<Cell>, order: Outpoint -> int): (s: seq<Cell>)
    ensures multiset(s) == multiset(cells)
  {
    S.Sort(cells, ByAmount(order))
  }

  ghost predicate Descending(a: seq<nat>) {
    forall i, j :: 0 <= i < j < |a| ==> a[i] >= a[j]
  }

  ghost predicate LargestFirst(s: seq<Cell>) {
    forall i, j :: 0 <= i < j < |s| ==> s[i].tokens >= s[j].tokens
  }

  lemma SortedIsLargestFirst(cells: seq<Cell>, order: Outpoint -> int)
    ensures LargestFirst(SortCells(cells, order))
  {
    var key: Cell -> int := (c: Cell) => c.tokens;
    S.SortedDescends(cells, ByAmount(order), key);
    var s := SortCells(cells, order);
    forall i, j | 0 <= i < j < |s| ensures s[i].tokens >= s[j].tokens {
      assert key(s[i]) >= key(s[j]);
    }
  }

  lemma {:induction false} InsertProjections(c: Cell, s: seq<Cell>, before: (Cell, Cell) -> bool)
    ensures multiset(Amounts(S.Insert(c, s, before))) == multiset(Amounts(s)) + multiset{c.tokens}
    ensures multiset(Places(S.Insert(c, s, before))) == multiset(Places(s)) + multiset{c.at}
    ensures Sum(Amounts(S.Insert(c, s, before))) == Sum(Amounts(s)) + c.tokens
  {
    hide Sum, Amounts, Places;
    if s == [] || before(c, s[0]) {
      ProjectionsCons(c, s);
    } else {
      InsertProjections(c, s[1..], before);
      ProjectionsCons(s[0], S.Insert(c, s[1..], before));
      ProjectionsCons(s[0], s[1..]);
      assert s == [s[0]] + s[1..];
    }
  }

  /** Sorting cells only reorders what is read off them. */
  lemma {:induction false} SortProjections(cells: seq<Cell>, order: Outpoint -> int)
    ensures multiset(Amounts(SortCells(cells, order))) == multiset(Amounts(cells))
    ensures multiset(Places(SortCells(cells, order))) == multiset(Places(cells))
    ensures Sum(Amounts(SortCells(cells, order))) == Sum(Amounts(cells))
  {
    hide Sum, Amounts, Places;
    if cells == [] {
      assert SortCells(cells, order) == cells;
    } else {
      var c, rest := cells[0], cells[1..];
      assert cells == [c] + rest;
      SortProjections(rest, order);
      InsertProjections(c, SortCells(rest, order), ByAmount(order));
      ProjectionsCons(c, rest);
    }
  }

  /** How many leading amounts it takes to reach `amount`. */
  function Required(a: seq<nat>, amount: nat): (n: Option<nat>)
    requires amount > 0
    ensures n.Some? <==> Sum(a) >= amount
    ensures n.Some? ==> 1 <= n.value <= |a|
  {
    if a == [] then None
    else if a[0] >= amount then Some(1)
    else match Required(a[1..], amount - a[0])
      case None => None
      case Some(n) => Some(n + 1)
  }

  lemma {:induction false} RequiredIsFirst(a: seq<nat>, amount: nat, k: nat)
    requires amount > 0 && Sum(a) >= amount && k <= |a|
    ensures Sum(a[..k]) >= amount <==> k >= Required(a, amount).value
  {
    if k > 0 {
      assert a[..k] == [a[0]] + a[1..][..k - 1];
      if a[0] < amount {
        RequiredIsFirst(a[1..], amount - a[0], k - 1);
      }
    }
  }

  /** `n` amounts out of `a` reach `amount`, and no choice of fewer does. */
  ghost predicate LeastCover(a: seq<nat>, amount: nat, n: nat) {
    && (exists s: seq<nat> :: multiset(s) <= multiset(a) && |s| == n && Sum(s) >= amount)
    && (forall s: seq<nat> :: multiset(s) <= multiset(a) && Sum(s) >= amount ==> |s| >= n)
  }

  lemma {:induction false} SumRemove(s: seq<nat>, k: nat)
    requires k < |s|
    ensures Sum(s) == s[k] + Sum(s[..k] + s[k + 1..])
    ensures multiset(s) == multiset(s[..k] + s[k + 1..]) + multiset{s[k]}
  {
    assert s == s[..k] + ([s[k]] + s[k + 1..]);
    SumConcat(s[..k], [s[k]] + s[k + 1..]);
    SumConcat(s[..k], s[k + 1..]);
    assert ([s[k]] + s[k + 1..])[1..] == s[k + 1..];
  }

  lemma {:induction false} PointwiseSum(a: seq<nat>, b: seq<nat>)
    requires |a| == |b| && forall i :: 0 <= i < |a| ==> a[i] <= b[i]
    ensures Sum(a) <= Sum(b)
  {
    if a != [] {
      PointwiseSum(a[1..], b[1..]);
    }
  }

  lemma FewerThanAll(s: seq<nat>, a: seq<nat>)
    requires multiset(s) <= multiset(a)
    ensures |s| <= |a|
  {
    assert |multiset(a)| == |multiset(a) - multiset(s)| + |multiset(s)|;
  }

  lemma WithoutHead(a: seq<nat>, s: seq<nat>)
    requires a != [] && multiset(s) <= multiset(a) && a[0] !in s
    ensures multiset(s) <= multiset(a[1..])
  {
    RemoveHead(a);
    forall x ensures multiset(s)[x] <= multiset(a[1..])[x] {
      if x == a[0] {
        assert x !in multiset(s);
      } else {
        assert multiset(s)[x] <= multiset(a)[x];
      }
    }
  }

  lemma SumHead(s: seq<nat>)
    requires s != []
    ensures Sum(s) == s[0] + Sum(s[1..])
  {
  }

  lemma SumNothing()
    ensures Sum([]) == 0
  {
  }

  /** Nothing chosen out of a descending list outweighs its leading part of the same size. */
  lemma {:induction false} LeadingPartIsHeaviest(a: seq<nat>, s: seq<nat>)
    requires Descending(a) && multiset(s) <= multiset(a)
    ensures |s| <= |a|
    ensures Sum(s) <= Sum(a[..|s|])
    decreases |a|
  {
    hide Sum;
    FewerThanAll(s, a);
    if s != [] {
      assert a[..|s|] == [a[0]] + a[1..][..|s| - 1];
      if a[0] in s {
        var k :| 0 <= k < |s| && s[k] == a[0];
        var rest := s[..k] + s[k + 1..];
        SumRemove(s, k);
        RemoveHead(a);
        CancelOne(multiset(rest), multiset(a[1..]), a[0]);
        LeadingPartIsHeaviest(a[1..], rest);
        SumHead(a[..|s|]);
      } else {
        WithoutHead(a, s);
        LeadingPartIsHeaviest(a[1..], s);
        PointwiseSum(a[1..][..|s|], a[..|s|]);
      }
    } else {
      SumNothing();
    }
  }

  /** The planner's greedy count is the least number of cells that can pay the amount. */
  lemma RequiredIsLeastCover(a: seq<nat>, amount: nat)
    requires Descending(a) && amount > 0 && Sum(a) >= amount
    ensures LeastCover(a, amount, Required(a, amount).value)
  {
    var n := Required(a, amount).value;
    RequiredIsFirst(a, amount, n);
    assert a == a[..n] + a[n..];
    assert multiset(a[..n]) <= multiset(a);
    forall s: seq<nat> | multiset(s) <= multiset(a) && Sum(s) >= amount
      ensures |s| >= n
    {
      LeadingPartIsHeaviest(a, s);
      RequiredIsFirst(a, amount, |s|);
    }
  }

  lemma LeastCoverIsUnique(a: seq<nat>, b: seq<nat>, amount: nat, n: nat, m: nat)
    requires multiset(a) == multiset(b)
    requires LeastCover(a, amount, n) && LeastCover(b, amount, m)
    ensures n == m
  {
    var s: seq<nat> :| multiset(s) <= multiset(a) && |s| == n && Sum(s) >= amount;
    var t: seq<nat> :| multiset(t) <= multiset(b) && |t| == m && Sum(t) >= amount;
  }
}
