/**
 When a plan succeeds: with enough plain KAS for every step, nothing but the limit of 32 refuses a payment that
 the cells cover.
 */
module TokenPlanProgress {
  import opened Wrappers
  import opened Words
  import opened Ledger
  import opened TokenCells
  import opened TokenPlan
  import opened TokenPlanLedger
  import L = TokenPlanLength
  import S = Sorting

  /** A fee above this could outgrow what is picked for it. */
  const MAX_FEE := FEE_RESERVE - DUST

  /** The shape of a transfer of this kind that takes at most so many plain coins, before its KAS change. */
  ghost predicate Ordinary(t: Template, coins: nat, inputs: seq<Outpoint>, outputs: seq<Coin>, total: nat) {
    && 2 <= |inputs| <= InputLimit(t) + coins && 1 <= |outputs| <= 2
    && (forall c :: c in outputs ==> c.Token? && c.value >= Deposit(t))
    && Values(outputs) + FEE_RESERVE <= total <= U64_MAX
  }

  /** Transfers of that shape are within the mass limits and not too dear. */
  ghost predicate Affordable(fees: FeeOracle, t: Template, coins: nat) {
    forall i, o, total :: Ordinary(t, coins, i, o, total) ==>
      fees(i, o, total).Some? && fees(i, o, total).value <= MAX_FEE
  }

  /** The `n` largest coins. */
  function Largest(f: seq<Funding>, n: nat): seq<Funding> {
    SortFunding(f)[..Min(n, |SortFunding(f)|)]
  }

  /** Plain KAS for `k` steps: a deposit and a fee each, one deposit more for the last, and spendable change. */
  function Budget(r: Request, k: nat): nat {
    k * (Deposit(r.template) + MAX_FEE) + Deposit(r.template) + DUST
  }

  function PlainKas(funding: seq<Funding>): nat {
    Sum(FundingValues(funding))
  }

  /** No sum of tokens or of KAS can leave its range. */
  predicate InRange(r: Request, cells: seq<Cell>, funding: seq<Funding>) {
    && Sum(Amounts(cells)) + BorrowedTokens(r) <= I64_MAX
    && (r.template.KassealOwner? ==> Sum(Amounts(cells)) <= KASSEAL_SUPPLY)
    && Sum(Deposits(BorrowedCells(r))) + Sum(Deposits(cells)) + PlainKas(funding) <= U64_MAX
  }

  // ----- picking funding --------------------------------------------------------------------------------------

  lemma {:induction false} PickReaches(f: seq<Funding>, have: nat, want: nat)
    ensures have + PlainKas(Pick(f, have, want)) >= Min(want, have + PlainKas(f))
    ensures PlainKas(Pick(f, have, want)) <= PlainKas(f)
  {
    if f != [] {
      FundingSum(f[0], f[1..]);
      assert f == [f[0]] + f[1..];
      if have + f[0].value >= want {
        FundingSum(f[0], []);
        assert [f[0]] + [] == [f[0]];
      } else {
        PickReaches(f[1..], have + f[0].value, want);
        FundingSum(f[0], Pick(f[1..], have + f[0].value, want));
      }
    }
  }

  lemma FundingSum(x: Funding, s: seq<Funding>)
    ensures PlainKas([x] + s) == x.value + PlainKas(s) && PlainKas([]) == 0
  {
    FundingConcat([x], s);
    assert FundingValues([x]) == [x.value];
    assert ([x.value] + FundingValues(s))[1..] == FundingValues(s);
  }

  lemma {:induction false} NoneSpent(f: seq<Funding>, spent: seq<Outpoint>)
    requires forall x :: x in f ==> x.at !in spent
    ensures Unspent(f, spent) == f
  {
    if f != [] {
      NoneSpent(f[1..], spent);
      assert f == [f[0]] + f[1..];
    }
  }

  /** Coins that suffice are enough to pick from. */
  lemma {:induction false} PickStops(f: seq<Funding>, n: nat, have: nat, want: nat)
    requires 1 <= n <= |f| && want <= have + PlainKas(f[..n])
    ensures |Pick(f, have, want)| <= n
  {
    assert f[..n] == [f[0]] + f[1..][..n - 1];
    FundingSum(f[0], f[1..][..n - 1]);
    if have + f[0].value < want {
      PickStops(f[1..], n - 1, have + f[0].value, want);
    }
  }

  function Value(): Funding -> nat {
    (x: Funding) => x.value
  }

  /** What a coin adds to the funding that is left once `spent` is gone. */
  function Left(spent: seq<Outpoint>): Funding -> nat {
    (x: Funding) => if x.at in spent then 0 else x.value
  }

  lemma {:induction false} PlainKasBy(f: seq<Funding>)
    ensures PlainKas(f) == S.SumBy(f, Value())
  {
    if f == [] {
      FundingSum(Funding(Outpoint(External(0), 0), 0), []);
    } else {
      PlainKasBy(f[1..]);
      FundingSum(f[0], f[1..]);
      assert f == [f[0]] + f[1..];
    }
  }

  lemma {:induction false} LeftBy(f: seq<Funding>, spent: seq<Outpoint>)
    ensures PlainKas(Unspent(f, spent)) == S.SumBy(f, Left(spent))
  {
    if f == [] {
      PlainKasBy(f);
    } else {
      LeftBy(f[1..], spent);
      if f[0].at in spent {
        assert Unspent(f, spent) == Unspent(f[1..], spent);
      } else {
        FundingSum(f[0], Unspent(f[1..], spent));
      }
    }
  }

  lemma SortedPlainKas(f: seq<Funding>)
    ensures PlainKas(SortFunding(f)) == PlainKas(f)
  {
    PlainKasBy(f);
    PlainKasBy(SortFunding(f));
    S.SortKeepsSum(f, Larger, Value());
  }

  lemma {:induction false} NothingLeft(f: seq<Funding>, spent: seq<Outpoint>)
    requires forall x :: x in f ==> x.at in spent
    ensures S.SumBy(f, Left(spent)) == 0
  {
    if f != [] {
      NothingLeft(f[1..], spent);
    }
  }

  /** What is spent of the funding, and what is left of it. */
  lemma SpentAndLeft(f: seq<Funding>, n: nat, spent: seq<Outpoint>)
    requires n <= |SortFunding(f)|
    requires forall x :: x in SortFunding(f)[..n] ==> x.at in spent
    requires forall x :: x in SortFunding(f)[n..] ==> x.at !in spent
    ensures PlainKas(Unspent(f, spent)) + PlainKas(SortFunding(f)[..n]) == PlainKas(f)
  {
    hide SortFunding, Unspent, PlainKas, S.SumBy;
    var sorted := SortFunding(f);
    assert sorted == sorted[..n] + sorted[n..];
    LeftBy(f, spent);
    SortKeepsLeft(f, spent);
    S.SumByConcat(sorted[..n], sorted[n..], Left(spent));
    NothingLeft(sorted[..n], spent);
    NoneSpent(sorted[n..], spent);
    LeftBy(sorted[n..], spent);
    SortedPlainKas(f);
    PlainKasConcat(sorted[..n], sorted[n..]);
  }

  lemma SortKeepsLeft(f: seq<Funding>, spent: seq<Outpoint>)
    ensures S.SumBy(SortFunding(f), Left(spent)) == S.SumBy(f, Left(spent))
  {
    S.SortKeepsSum(f, Larger, Left(spent));
  }

  lemma PlainKasConcat(a: seq<Funding>, b: seq<Funding>)
    ensures PlainKas(a + b) == PlainKas(a) + PlainKas(b)
  {
    FundingConcat(a, b);
    SumConcat(FundingValues(a), FundingValues(b));
  }

  // ----- the largest coins ------------------------------------------------------------------------------------

  lemma {:induction false} ValuesOfPart(s: seq<Funding>, f: seq<Funding>)
    requires multiset(s) <= multiset(f)
    ensures multiset(FundingValues(s)) <= multiset(FundingValues(f))
  {
    if s != [] {
      hide FundingValues;
      var k := WithoutCoin(s, f);
      ValuesOfPart(s[1..], f[..k] + f[k + 1..]);
      ValuesOfParts(s, 0);
      ValuesOfParts(f, k);
      assert s[..0] + s[1..] == s[1..];
    }
  }

  lemma WithoutCoin(s: seq<Funding>, f: seq<Funding>) returns (k: nat)
    requires s != [] && multiset(s) <= multiset(f)
    ensures k < |f| && f[k] == s[0] && multiset(s[1..]) <= multiset(f[..k] + f[k + 1..])
  {
    assert s[0] in multiset(f);
    k :| 0 <= k < |f| && f[k] == s[0];
    WithoutOne(f, k);
    WithoutOne(s, 0);
    assert s[..0] + s[1..] == s[1..];
    OneLess(multiset(s[1..]), multiset(f[..k] + f[k + 1..]), s[0]);
  }

  lemma OneLess(a: multiset<Funding>, b: multiset<Funding>, x: Funding)
    requires a + multiset{x} <= b + multiset{x}
    ensures a <= b
  {
    forall y ensures a[y] <= b[y] {
      assert (a + multiset{x})[y] <= (b + multiset{x})[y];
    }
  }

  lemma WithoutOne(f: seq<Funding>, k: nat)
    requires k < |f|
    ensures multiset(f) == multiset(f[..k] + f[k + 1..]) + multiset{f[k]}
  {
    assert f == f[..k] + [f[k]] + f[k + 1..];
  }

  lemma ValuesOfParts(f: seq<Funding>, k: nat)
    requires k < |f|
    ensures multiset(FundingValues(f)) == multiset(FundingValues(f[..k] + f[k + 1..])) + multiset{f[k].value}
  {
    var a, b := FundingValues(f[..k]), FundingValues(f[k + 1..]);
    assert FundingValues(f) == a + [f[k].value] + b && FundingValues(f[..k] + f[k + 1..]) == a + b;
  }

  lemma LargestDescend(f: seq<Funding>)
    ensures Descending(FundingValues(SortFunding(f)))
  {
    S.SortedDescends(f, Larger, (x: Funding) => x.value);
  }

  lemma MoreCoins(f: seq<Funding>, m: nat, n: nat)
    requires m <= n <= |f|
    ensures PlainKas(f[..m]) <= PlainKas(f[..n])
  {
    assert f[..n] == f[..m] + f[m..n];
    PlainKasConcat(f[..m], f[m..n]);
  }

  /** No `n` coins are worth more than the largest. */
  lemma LargestIsHeaviest(f: seq<Funding>, s: seq<Funding>, n: nat)
    requires multiset(s) <= multiset(f) && |s| <= n
    ensures PlainKas(s) <= PlainKas(Largest(f, n))
  {
    hide SortFunding, Sum, Descending;
    var sorted := SortFunding(f);
    LargestDescend(f);
    ValuesOfPart(s, sorted);
    LeadingPartIsHeaviest(FundingValues(sorted), FundingValues(s));
    assert FundingValues(sorted)[..|s|] == FundingValues(sorted[..|s|]);
    MoreCoins(sorted, |s|, Min(n, |sorted|));
  }

  lemma LargestIsPart(f: seq<Funding>, n: nat)
    ensures PlainKas(Largest(f, n)) <= PlainKas(f)
  {
    hide SortFunding, PlainKas;
    MoreCoins(SortFunding(f), Min(n, |SortFunding(f)|), |SortFunding(f)|);
    assert SortFunding(f)[..|SortFunding(f)|] == SortFunding(f);
    SortedPlainKas(f);
  }

  lemma {:induction false} UnspentCount(f: seq<Funding>, spent: seq<Outpoint>, x: Funding)
    ensures multiset(Unspent(f, spent))[x] == if x.at in spent then 0 else multiset(f)[x]
  {
    if f != [] {
      UnspentCount(f[1..], spent, x);
      RemoveHead(f);
      if f[0].at !in spent {
        var left := [f[0]] + Unspent(f[1..], spent);
        RemoveHead(left);
        assert left[1..] == Unspent(f[1..], spent);
      } else {
        assert [] + Unspent(f[1..], spent) == Unspent(f[1..], spent);
      }
    }
  }

  /** Once the leading coins are spent, the others are left. */
  lemma UnspentIsRest(f: seq<Funding>, n: nat, spent: seq<Outpoint>)
    requires n <= |SortFunding(f)|
    requires forall x :: x in SortFunding(f)[..n] ==> x.at in spent
    requires forall x :: x in SortFunding(f)[n..] ==> x.at !in spent
    ensures multiset(Unspent(f, spent)) == multiset(SortFunding(f)[n..])
  {
    hide SortFunding, Unspent;
    var sorted := SortFunding(f);
    assert sorted == sorted[..n] + sorted[n..];
    forall x ensures multiset(Unspent(f, spent))[x] == multiset(sorted[n..])[x] {
      UnspentCount(f, spent, x);
      if x.at in spent {
        assert x !in sorted[n..];
      } else {
        assert x !in sorted[..n];
      }
    }
  }

  // ----- one step ---------------------------------------------------------------------------------------------

  lemma OutputValues(r: Request, change: nat)
    ensures var v := Values(TokenOutputs(r, change));
            && v <= Sum(Deposits(BorrowedCells(r))) + 2 * Deposit(r.template)
            && (r.borrowed.None? && change == 0 ==> v == Deposit(r.template))
  {
    var outputs := TokenOutputs(r, change);
    TotalsConcat([outputs[0]], outputs[1..]);
    assert outputs == [outputs[0]] + outputs[1..];
    assert [outputs[0]][1..] == [] && (change > 0 ==> outputs[1..][1..] == []);
    if r.borrowed.Some? {
      assert Deposits(BorrowedCells(r)) == [r.borrowed.value.cell.value];
      assert [r.borrowed.value.cell.value][1..] == [];
    }
  }

  /** A transfer with enough plain KAS is prepared, pays at most the largest fee, and leaves spendable change. */
  lemma PrepareSucceeds(r: Request, fees: FeeOracle, n: nat)
    requires Affordable(fees, r.template, n) && Ready(r, n)
    ensures Prepare(r, fees).Success? && Prepare(r, fees).value.fee <= MAX_FEE
    ensures Picked(r, Outputs(r)) <= SortFunding(r.funding) && |Picked(r, Outputs(r))| <= n
  {
    hide Sum, Amounts, Deposits, Values, TokenOutputs, Pick, SortFunding, Unspent, TransferAllowed, PlainKas, Ordinary,
      Inputs, InputTotal, Picked, AllCells, Largest;
    var outputs := Outputs(r);
    PickedSuffice(r, n);
    LargestIsPart(r.funding, n);
    OutputValues(r, Change(r));
    DepositsOfAll(r);
    InputTotalIs(r, outputs);
    assert Ordinary(r.template, n, Inputs(r, outputs), outputs, InputTotal(r, outputs)) by {
      TransferIsOrdinary(r, n);
    }
  }

  /** The coins picked reach what the outputs and the fee need, and are among the `n` largest. */
  lemma PickedSuffice(r: Request, n: nat)
    requires Ready(r, n)
    ensures var picked := Picked(r, Outputs(r));
            && picked <= SortFunding(r.funding) && 1 <= |picked| <= n && PlainKas(picked) <= PlainKas(r.funding)
            && Sum(Deposits(AllCells(r))) + PlainKas(picked) >= Values(Outputs(r)) + FEE_RESERVE
  {
    hide Sum, Amounts, Deposits, Values, TokenOutputs, Pick, SortFunding, Unspent, TransferAllowed, PlainKas;
    var all, outputs, sorted := AllCells(r), Outputs(r), SortFunding(r.funding);
    NoneSpent(r.funding, Places(all));
    OutputValues(r, Change(r));
    var have, want := Sum(Deposits(all)), Values(outputs) + FEE_RESERVE;
    LargestIsPart(r.funding, n);
    PickReaches(sorted, have, want);
    SortedPlainKas(r.funding);
    DepositsOfAll(r);
    assert Picked(r, outputs) == Pick(sorted, have, want);
    SomePicked(r.funding);
    var m := Min(n, |sorted|);
    assert sorted[..m] == Largest(r.funding, n);
    if m == 0 {
      NoCoins(sorted[..m]);
    }
    PickStops(sorted, m, have, want);
  }

  lemma NoCoins(f: seq<Funding>)
    ensures f == [] ==> PlainKas(f) == 0
  {
    FundingSum(Funding(Outpoint(External(0), 0), 0), []);
  }

  lemma TransferIsOrdinary(r: Request, n: nat)
    requires TransferAllowed(r)
    requires var picked := Picked(r, Outputs(r));
             && 1 <= |picked| <= n
             && Values(Outputs(r)) + FEE_RESERVE <= Sum(Deposits(AllCells(r))) + PlainKas(picked) <= U64_MAX
    ensures Ordinary(r.template, n, Inputs(r, Outputs(r)), Outputs(r), InputTotal(r, Outputs(r)))
  {
    hide Picked, Sum, Amounts, Values, PlainKas, NoRepeats, Deposits;
    InputTotalIs(r, Outputs(r));
  }

  lemma InputTotalIs(r: Request, outputs: seq<Coin>)
    ensures InputTotal(r, outputs) == Sum(Deposits(AllCells(r))) + PlainKas(Picked(r, outputs))
  {
  }

  lemma DepositsOfAll(r: Request)
    ensures Sum(Deposits(AllCells(r))) == Sum(Deposits(BorrowedCells(r))) + Sum(Deposits(r.cells))
  {
    ProjectionsConcat(BorrowedCells(r), r.cells);
    SumConcat(Deposits(BorrowedCells(r)), Deposits(r.cells));
  }

  lemma SomePicked(f: seq<Funding>)
    requires PlainKas(f) > 0
    ensures SortFunding(f) != []
  {
    assert f != [];
    assert |multiset(SortFunding(f))| == |multiset(f)|;
  }

  // ----- one round --------------------------------------------------------------------------------------------

  /** The ledger backs the round, and its `n` largest coins are enough for `k` steps. */
  ghost predicate Thrives(l: Ledger, r: Request, cells: seq<Cell>, funding: seq<Funding>, n: nat, k: nat) {
    && r.amount > 0 && BorrowAllowed(r) && Backs(l, r, cells, funding)
    && (forall c :: c in cells ==> c.at !in Places(BorrowedCells(r)))
    && r.amount <= Sum(Amounts(cells)) && InRange(r, cells, funding)
    && PlainKas(Largest(funding, n)) >= Budget(r, k)
  }

  function Picks(r: Request, order: Outpoint -> int, cells: seq<Cell>): nat
    requires r.amount > 0 && L.Needed(r, order, cells).Some?
  {
    Selection(r, SortCells(cells, order), L.Needed(r, order, cells).value)
  }

  /** What the round asks to be prepared. */
  function Asked(r: Request, order: Outpoint -> int, cells: seq<Cell>, funding: seq<Funding>): Request
    requires r.amount > 0 && L.Needed(r, order, cells).Some?
  {
    StepRequest(r, L.Needed(r, order, cells).value > FinalLimit(r), SortCells(cells, order)[..Picks(r, order, cells)],
                funding)
  }

  lemma RoundIsPrepared(r: Request, fees: FeeOracle, order: Outpoint -> int, cells: seq<Cell>, funding: seq<Funding>)
    requires r.amount > 0 && L.Needed(r, order, cells).Some?
    requires Prepare(Asked(r, order, cells, funding), fees).Success?
    ensures var turn := NextRound(r, fees, order, cells, funding);
            && turn.Success? && turn.value.step == Prepare(Asked(r, order, cells, funding), fees).value
            && (turn.value.Final? <==> L.Needed(r, order, cells).value <= FinalLimit(r))
  {
    hide Prepare, SortCells, Required, Amounts, Sum, Selection, NextFunding, Merged;
  }

  lemma CoveredBy(cells: seq<Cell>, order: Outpoint -> int, amount: nat, n: nat)
    requires 0 < amount <= Sum(Amounts(cells)) && n <= |cells|
    ensures |SortCells(cells, order)| == |cells|
    ensures Required(Amounts(SortCells(cells, order)), amount).Some?
    ensures 1 <= Required(Amounts(SortCells(cells, order)), amount).value <= |cells|
    ensures n >= Required(Amounts(SortCells(cells, order)), amount).value
            ==> Sum(Amounts(SortCells(cells, order)[..n])) >= amount
  {
    hide SortCells, Sum;
    var sorted := SortCells(cells, order);
    L.SortedAmounts(cells, order);
    assert |multiset(sorted)| == |multiset(cells)|;
    RequiredIsFirst(Amounts(sorted), amount, n);
    assert Amounts(sorted)[..n] == Amounts(sorted[..n]);
  }

  lemma LeadingPart(r: Request, order: Outpoint -> int, cells: seq<Cell>, funding: seq<Funding>, n: nat)
    requires n <= |SortCells(cells, order)|
    ensures var head := SortCells(cells, order)[..n];
            && Sum(Amounts(head)) <= Sum(Amounts(cells))
            && Sum(Deposits(head)) <= Sum(Deposits(cells))
            && Sum(Deposits(SortCells(cells, order)[n..])) == Sum(Deposits(cells)) - Sum(Deposits(head))
  {
    hide SortCells, Sum, Amounts, Deposits;
    var sorted := SortCells(cells, order);
    L.SortedAmounts(cells, order);
    SortedDeposits(cells, order);
    assert sorted == sorted[..n] + sorted[n..];
    ProjectionsConcat(sorted[..n], sorted[n..]);
    SumConcat(Amounts(sorted[..n]), Amounts(sorted[n..]));
    SumConcat(Deposits(sorted[..n]), Deposits(sorted[n..]));
  }

  function DepositOf(): Cell -> nat {
    (c: Cell) => c.value
  }

  lemma {:induction false} DepositsBy(cells: seq<Cell>)
    ensures Sum(Deposits(cells)) == S.SumBy(cells, DepositOf())
  {
    if cells != [] {
      DepositsBy(cells[1..]);
      assert Deposits(cells)[1..] == Deposits(cells[1..]);
    }
  }

  lemma SortedDeposits(cells: seq<Cell>, order: Outpoint -> int)
    ensures Sum(Deposits(SortCells(cells, order))) == Sum(Deposits(cells))
  {
    DepositsBy(cells);
    DepositsBy(SortCells(cells, order));
    S.SortKeepsSum(cells, ByAmount(order), DepositOf());
  }

  lemma {:induction false} DistinctIsNoRepeats(s: seq<Outpoint>)
    requires Distinct(s)
    ensures NoRepeats(s)
  {
    if s != [] {
      RemoveHead(s);
      assert multiset(s)[s[0]] <= 1;
      assert s[0] !in multiset(s[1..]);
      forall o ensures multiset(s[1..])[o] <= 1 {
        assert multiset(s)[o] <= 1;
      }
      DistinctIsNoRepeats(s[1..]);
    }
  }

  /** Cells the ledger holds and plain coins it holds are in different places. */
  lemma FundingApart(l: Ledger, r: Request, cells: seq<Cell>, funding: seq<Funding>)
    requires Backs(l, r, cells, funding)
    ensures forall f :: f in funding ==> f.at !in Places(cells) && f.at !in Places(BorrowedCells(r))
  {
    forall f | f in funding ensures f.at !in Places(cells) && f.at !in Places(BorrowedCells(r)) {
      forall i | 0 <= i < |cells| ensures Places(cells)[i] != f.at {
        assert cells[i] in cells;
      }
      assert r.borrowed.Some? ==> Places(BorrowedCells(r)) == [r.borrowed.value.cell.at];
    }
  }

  lemma HeadHeld(l: Ledger, r: Request, order: Outpoint -> int, cells: seq<Cell>, funding: seq<Funding>, n: nat)
    requires Backs(l, r, cells, funding) && n <= |SortCells(cells, order)|
    requires forall c :: c in cells ==> c.at !in Places(BorrowedCells(r))
    ensures var head := SortCells(cells, order)[..n];
            && NoRepeats(Places(head)) && NoRepeats(Places(BorrowedCells(r) + head))
            && forall f :: f in funding ==> f.at !in Places(head) && f.at !in Places(BorrowedCells(r) + head)
  {
    hide SortCells;
    var head, lent := SortCells(cells, order)[..n], BorrowedCells(r);
    SortedIsHeld(l, r.sender, cells, order, n);
    ProjectionsConcat(lent, head);
    forall o | o in Places(lent) ensures o !in Places(head) {
      forall i | 0 <= i < |head| ensures Places(head)[i] != o {
        assert head[i] in SortCells(cells, order) && head[i] in multiset(cells);
      }
    }
    LentOnce(r);
    DistinctConcat(Places(lent), Places(head));
    DistinctIsNoRepeats(Places(head));
    DistinctIsNoRepeats(Places(lent + head));
    FundingApart(l, r, head, funding);
  }

  lemma LentOnce(r: Request)
    ensures Distinct(Places(BorrowedCells(r)))
  {
    DistinctIsNoRepeatsBack(Places(BorrowedCells(r)));
  }

  lemma DistinctIsNoRepeatsBack(s: seq<Outpoint>)
    requires |s| <= 1
    ensures Distinct(s)
  {
    if s == [] {
      forall o ensures multiset(s)[o] <= 1 {}
    } else {
      assert s == [s[0]];
      forall o ensures multiset(s)[o] <= 1 {
        assert multiset(s) == multiset{s[0]};
      }
    }
  }

  /** All that preparing a transfer asks for. */
  ghost predicate Ready(q: Request, n: nat) {
    && TransferAllowed(q) && q.amount <= Sum(Amounts(q.cells))
    && InRange(q, q.cells, q.funding) && PlainKas(Largest(q.funding, n)) >= Budget(q, 1)
    && forall f :: f in q.funding ==> f.at !in Places(AllCells(q))
  }

  lemma CompoundIsReady(l: Ledger, r: Request, order: Outpoint -> int, cells: seq<Cell>, funding: seq<Funding>,
                        n: nat, k: nat)
    requires Thrives(l, r, cells, funding, n, k) && k >= 1
    requires L.Needed(r, order, cells).Some? && L.Needed(r, order, cells).value > FinalLimit(r)
    ensures Picks(r, order, cells) == InputLimit(r.template)
    ensures Ready(Asked(r, order, cells, funding), n)
  {
    hide Sum, Amounts, Deposits, SortCells, Backs, NoRepeats, Places, PlainKas, Required, Largest;
    CoveredBy(cells, order, r.amount, 0);
    var count := Picks(r, order, cells);
    LeadingPart(r, order, cells, funding, count);
    HeadHeld(l, r, order, cells, funding, count);
    SomeTokens(cells, order, count, r.amount);
    BudgetGrows(r, k);
    var q := Asked(r, order, cells, funding);
    assert AllCells(q) == q.cells;
    NothingLent(q);
  }

  lemma FinalIsReady(l: Ledger, r: Request, order: Outpoint -> int, cells: seq<Cell>, funding: seq<Funding>,
                     n: nat, k: nat)
    requires Thrives(l, r, cells, funding, n, k) && k >= 1
    requires L.Needed(r, order, cells).Some? && L.Needed(r, order, cells).value <= FinalLimit(r)
    ensures Ready(Asked(r, order, cells, funding), n)
  {
    hide Sum, Amounts, Deposits, SortCells, Backs, NoRepeats, Places, PlainKas, Required, Largest;
    CoveredBy(cells, order, r.amount, 0);
    var count := Picks(r, order, cells);
    CoveredBy(cells, order, r.amount, count);
    LeadingPart(r, order, cells, funding, count);
    HeadHeld(l, r, order, cells, funding, count);
    BudgetGrows(r, k);
  }

  /** What a round asks for can be prepared. */
  lemma RoundSucceeds(l: Ledger, r: Request, fees: FeeOracle, order: Outpoint -> int, cells: seq<Cell>,
                      funding: seq<Funding>, n: nat, k: nat)
    requires Affordable(fees, r.template, n) && Thrives(l, r, cells, funding, n, k) && k >= 1
    ensures L.Needed(r, order, cells).Some?
    ensures var q := Asked(r, order, cells, funding);
            && Prepare(q, fees).Success? && Prepare(q, fees).value.fee <= MAX_FEE
            && Picked(q, Outputs(q)) <= SortFunding(funding) && |Picked(q, Outputs(q))| <= n
  {
    hide Sum, Amounts, SortCells, Prepare, Thrives, Picked, Affordable, Picks, InRange, TransferAllowed;
    assert r.amount > 0 && r.amount <= Sum(Amounts(cells)) by { ThrivesCovers(l, r, cells, funding, n, k); }
    CoveredBy(cells, order, r.amount, 0);
    if L.Needed(r, order, cells).value > FinalLimit(r) {
      CompoundIsReady(l, r, order, cells, funding, n, k);
    } else {
      FinalIsReady(l, r, order, cells, funding, n, k);
    }
    PrepareSucceeds(Asked(r, order, cells, funding), fees, n);
  }

  lemma ThrivesCovers(l: Ledger, r: Request, cells: seq<Cell>, funding: seq<Funding>, n: nat, k: nat)
    requires Thrives(l, r, cells, funding, n, k)
    ensures 0 < r.amount <= Sum(Amounts(cells))
  {
  }

  lemma NothingLent(q: Request)
    requires q.borrowed.None?
    ensures Sum(Deposits(BorrowedCells(q))) == 0 && BorrowedTokens(q) == 0
  {
  }

  lemma BudgetGrows(r: Request, k: nat)
    requires k >= 1
    ensures Budget(r, k) == Budget(r, k - 1) + Deposit(r.template) + MAX_FEE
    ensures Budget(r, k) >= Budget(r, 1)
  {
    if k > 1 {
      BudgetGrows(r, k - 1);
    }
  }

  lemma SomeTokens(cells: seq<Cell>, order: Outpoint -> int, n: nat, amount: nat)
    requires 0 < amount <= Sum(Amounts(cells)) && 0 < n <= |SortCells(cells, order)|
    ensures Sum(Amounts(SortCells(cells, order)[..n])) > 0
  {
    hide SortCells;
    L.SortedAmounts(cells, order);
    var a := Amounts(SortCells(cells, order));
    if a[0] == 0 {
      AllZero(a);
    }
    assert Amounts(SortCells(cells, order)[..n])[0] == a[0];
  }

  lemma {:induction false} AllZero(a: seq<nat>)
    requires forall i :: 0 <= i < |a| ==> a[i] == 0
    ensures Sum(a) == 0
  {
    if a != [] {
      AllZero(a[1..]);
    }
  }

  // ----- what a compounding round leaves ------------------------------------------------------------------------

  /** A step spends the leading coins it picked and none of the others. */
  lemma SpendsPicked(l: Ledger, r: Request, q: Request, fees: FeeOracle, cells: seq<Cell>)
    requires Backs(l, r, cells, q.funding) && Prepare(q, fees).Success?
    requires Picked(q, Outputs(q)) <= SortFunding(q.funding)
    requires forall f :: f in q.funding ==> f.at !in Places(AllCells(q))
    ensures var sorted, n, inputs := SortFunding(q.funding), |Picked(q, Outputs(q))|, Prepare(q, fees).value.tx.inputs;
            && (forall x :: x in sorted[..n] ==> x.at in inputs)
            && (forall x :: x in sorted[n..] ==> x.at !in inputs)
  {
    hide Prepare, Picked, SortFunding, PlainKas, TokenOutputs, TransferAllowed, Sum, KasChange, Places, AllCells;
    var picked, sorted := Picked(q, Outputs(q)), SortFunding(q.funding);
    var n := |picked|;
    PreparedShape(q, fees, Prepare(q, fees).value);
    var inputs := Prepare(q, fees).value.tx.inputs;
    assert inputs == Places(AllCells(q)) + FundingPlaces(picked);
    assert sorted == sorted[..n] + sorted[n..] && sorted[..n] == picked;
    SortedFundingPlaces(q.funding);
    FundingConcat(picked, sorted[n..]);
    DistinctPart(multiset(FundingPlaces(sorted)), FundingPlaces(q.funding));
    DistinctHalves(FundingPlaces(picked), FundingPlaces(sorted[n..]));
    forall x | x in picked ensures x.at in inputs {
      PlaceOf(picked, x);
    }
    forall x | x in sorted[n..] ensures x.at !in inputs {
      PlaceOf(sorted[n..], x);
      assert x in multiset(sorted) && x in q.funding;
    }
  }

  lemma FundingSplit(l: Ledger, r: Request, q: Request, fees: FeeOracle, cells: seq<Cell>)
    requires Backs(l, r, cells, q.funding) && Prepare(q, fees).Success?
    requires Picked(q, Outputs(q)) <= SortFunding(q.funding)
    requires forall f :: f in q.funding ==> f.at !in Places(AllCells(q))
    ensures PlainKas(Unspent(q.funding, Prepare(q, fees).value.tx.inputs)) + PlainKas(Picked(q, Outputs(q)))
         == PlainKas(q.funding)
  {
    hide Backs, Prepare, Picked, SortFunding, PlainKas, Outputs, Places, AllCells, Unspent;
    SpendsPicked(l, r, q, fees, cells);
    assert SortFunding(q.funding)[..|Picked(q, Outputs(q))|] == Picked(q, Outputs(q));
    SpentAndLeft(q.funding, |Picked(q, Outputs(q))|, Prepare(q, fees).value.tx.inputs);
  }

  /** The change takes the place of a coin that was picked, so the `n` largest lose no more than the step takes out. */
  lemma LargestAfter(l: Ledger, r: Request, q: Request, fees: FeeOracle, cells: seq<Cell>, n: nat)
    requires Backs(l, r, cells, q.funding) && Prepare(q, fees).Success?
    requires Picked(q, Outputs(q)) <= SortFunding(q.funding) && 1 <= |Picked(q, Outputs(q))| <= n
    requires forall f :: f in q.funding ==> f.at !in Places(AllCells(q))
    ensures var tx := Prepare(q, fees).value.tx;
            (PlainKas(Largest(NextFunding(q.funding, tx), n)) + PlainKas(Picked(q, Outputs(q)))
             >= PlainKas(Largest(q.funding, n)) + tx.outputs[|tx.outputs| - 1].value)
  {
    hide Backs, Prepare, Picked, SortFunding, PlainKas, Outputs, Places, AllCells, Unspent, Largest;
    var tx, j := Prepare(q, fees).value.tx, |Picked(q, Outputs(q))|;
    SpendsPicked(l, r, q, fees, cells);
    UnspentIsRest(q.funding, j, tx.inputs);
    assert SortFunding(q.funding)[..j] == Picked(q, Outputs(q));
    ChangeJoins(q.funding, NextFunding(q.funding, tx), j, n,
                Funding(Outpoint(Hash(tx), |tx.outputs| - 1), tx.outputs[|tx.outputs| - 1].value));
  }

  lemma ChangeJoins(f: seq<Funding>, next: seq<Funding>, j: nat, n: nat, change: Funding)
    requires 1 <= j <= n && j <= |SortFunding(f)|
    requires multiset(next) == multiset(SortFunding(f)[j..]) + multiset{change}
    ensures PlainKas(Largest(next, n)) + PlainKas(SortFunding(f)[..j]) >= PlainKas(Largest(f, n)) + change.value
  {
    hide SortFunding, PlainKas;
    var sorted, m := SortFunding(f), Min(n, |SortFunding(f)|);
    assert sorted[j..] == sorted[j..m] + sorted[m..];
    LargestIsHeaviest(next, sorted[j..m] + [change], n);
    assert sorted[..m] == sorted[..j] + sorted[j..m];
    PlainKasConcat(sorted[..j], sorted[j..m]);
    PlainKasConcat(sorted[j..m], [change]);
    FundingSum(change, []);
    assert [change] + [] == [change];
  }

  lemma PlaceOf(f: seq<Funding>, x: Funding)
    requires x in f
    ensures x.at in FundingPlaces(f)
  {
    var i :| 0 <= i < |f| && f[i] == x;
    assert FundingPlaces(f)[i] == x.at;
  }

  /** A compound turns what it spends into one deposit, the fee, and plain KAS. */
  lemma CompoundKas(l: Ledger, r: Request, q: Request, fees: FeeOracle, cells: seq<Cell>)
    requires Backs(l, r, cells, q.funding) && Prepare(q, fees).Success?
    requires Picked(q, Outputs(q)) <= SortFunding(q.funding)
    requires forall f :: f in q.funding ==> f.at !in Places(AllCells(q))
    requires q.borrowed.None? && q.amount == Sum(Amounts(q.cells))
    ensures var step := Prepare(q, fees).value;
            && (PlainKas(NextFunding(q.funding, step.tx)) + Deposit(q.template) + step.fee
                == PlainKas(q.funding) + Sum(Deposits(q.cells)))
            && (step.tx.outputs[|step.tx.outputs| - 1].value + Deposit(q.template) + step.fee
                == PlainKas(Picked(q, Outputs(q))) + Sum(Deposits(q.cells)))
  {
    hide Prepare, Picked, SortFunding, TransferAllowed, Sum, Unspent, Places, TokenOutputs, PlainKas, Amounts, Deposits;
    var step := Prepare(q, fees).value;
    FundingSplit(l, r, q, fees, cells);
    PreparedShape(q, fees, step);
    OutputValues(q, 0);
    DepositsOfAll(q);
    NothingLent(q);
    InputTotalIs(q, Outputs(q));
    var last := |step.tx.outputs| - 1;
    assert step.tx.outputs[last].value == KasChange(q, step.fee);
    var change := Funding(Outpoint(Hash(step.tx), last), step.tx.outputs[last].value);
    PlainKasConcat(Unspent(q.funding, step.tx.inputs), [change]);
    FundingSum(change, []);
    assert [change] + [] == [change];
  }

  lemma CompoundThrives(l: Ledger, r: Request, fees: FeeOracle, order: Outpoint -> int, cells: seq<Cell>,
                        funding: seq<Funding>, n: nat, k: nat)
    requires Affordable(fees, r.template, n) && Thrives(l, r, cells, funding, n, k) && k >= 1
    requires L.Needed(r, order, cells).Some? && L.Needed(r, order, cells).value > FinalLimit(r)
    ensures var turn := NextRound(r, fees, order, cells, funding);
            && turn.Success? && turn.value.Compound? && turn.value.step.fee <= MAX_FEE
            && Thrives(After(l, turn.value.step.tx), r, turn.value.cells, turn.value.funding, n, k - 1)
  {
    hide Sum, Amounts, Deposits, SortCells, Backs, Places, PlainKas, NextRound, Prepare, Picked, L.Needed, After,
      NextFunding, Affordable, Largest;
    RoundSucceeds(l, r, fees, order, cells, funding, n, k);
    RoundIsPrepared(r, fees, order, cells, funding);
    CompoundIsReady(l, r, order, cells, funding, n, k);
    CompoundRoundIsBacked(l, r, fees, order, cells, funding);
    NextCellsApart(l, r, fees, order, cells, funding);
    L.CompoundRoundNeeds(r, fees, order, cells, funding);
    L.CompoundRound(r, fees, order, cells, funding);
    var q, limit := Asked(r, order, cells, funding), InputLimit(r.template);
    CompoundKas(l, r, q, fees, cells);
    PickedSuffice(q, n);
    LargestAfter(l, r, q, fees, cells, n);
    LeadingPart(r, order, cells, funding, limit);
    var round := NextRound(r, fees, order, cells, funding).value;
    var merged := Merged(r, round.step.tx, Sum(Amounts(q.cells)));
    MergedDeposits(SortCells(cells, order)[limit..], merged);
    BudgetGrows(r, k);
  }

  lemma MergedDeposits(cells: seq<Cell>, c: Cell)
    ensures Sum(Deposits(cells + [c])) == Sum(Deposits(cells)) + c.value
  {
    ProjectionsConcat(cells, [c]);
    SumConcat(Deposits(cells), Deposits([c]));
    assert Deposits([c]) == [c.value] && [c.value][1..] == [];
  }

  // ----- the plan -------------------------------------------------------------------------------------------------

  lemma {:induction false} ProgressFrom(l: Ledger, r: Request, fees: FeeOracle, order: Outpoint -> int,
                                        cells: seq<Cell>, funding: seq<Funding>, done: nat, paid: nat, n: nat,
                                        k: nat)
    requires Affordable(fees, r.template, n) && Thrives(l, r, cells, funding, n, k)
    requires done < MAX_STEPS && paid <= done * MAX_FEE
    requires r.amount > 0 && L.Needed(r, order, cells).Some?
    requires k >= Min(L.PlanLength(r, L.Needed(r, order, cells).value), MAX_STEPS - done)
    ensures var plan := PlanFrom(r, fees, order, cells, funding, done, paid);
            if done + L.PlanLength(r, L.Needed(r, order, cells).value) <= MAX_STEPS then plan.Success?
            else plan == Failure(TooManySteps)
    decreases MAX_STEPS - done
  {
    hide Sum, Amounts, Thrives, NextRound, L.Needed, L.PlanLength, After, Affordable, Prepare, Asked, Picked;
    ThrivesCovers(l, r, cells, funding, n, k);
    var needed := L.Needed(r, order, cells).value;
    LengthIsPositive(r, needed);
    if needed <= FinalLimit(r) {
      FinalLength(r, needed);
    }
    RoundSucceeds(l, r, fees, order, cells, funding, n, k);
    RoundIsPrepared(r, fees, order, cells, funding);
    if needed > FinalLimit(r) {
      CompoundThrives(l, r, fees, order, cells, funding, n, k);
      L.CompoundRoundNeeds(r, fees, order, cells, funding);
      L.LengthRecurs(r, needed);
      if done + 1 < MAX_STEPS {
        var round := NextRound(r, fees, order, cells, funding).value;
        ProgressFrom(After(l, round.step.tx), r, fees, order, round.cells, round.funding, done + 1,
                     paid + round.step.fee, n, k - 1);
      } else {
        LengthIsPositive(r, needed - (InputLimit(r.template) - 1));
      }
    }
  }

  lemma FinalLength(r: Request, needed: nat)
    requires needed <= FinalLimit(r)
    ensures L.PlanLength(r, needed) == 1
  {
  }

  lemma LengthIsPositive(r: Request, needed: nat)
    ensures L.PlanLength(r, needed) >= 1
  {
  }

  /**
   For a request the ledger backs, `n` of whose coins have plain KAS for every step, and fees that are affordable for
   transfers with that many coins: the planner succeeds exactly when 32 steps are enough, and otherwise it is the
   limit of 32 that refuses.
   */
  lemma PlanSucceedsExactly(l: Ledger, r: Request, fees: FeeOracle, order: Outpoint -> int, needed: nat, n: nat)
    requires Checked(r).Success? && LeastCover(Amounts(r.cells), r.amount, needed)
    requires Backs(l, r, r.cells, r.funding) && InRange(r, r.cells, r.funding)
    requires PlainKas(Largest(r.funding, n)) >= Budget(r, Min(L.PlanLength(r, needed), MAX_STEPS))
    requires Affordable(fees, r.template, n)
    ensures var plan := PreparePlan(r, fees, order);
            if L.PlanLength(r, needed) <= MAX_STEPS then plan.Success? && |plan.value.steps| == L.PlanLength(r, needed)
            else plan == Failure(TooManySteps)
  {
    hide PlanFrom, Checked, Backs, LeastCover, Sum, Amounts, PlainKas, L.Needed, L.PlanLength, InRange, Affordable,
      Largest;
    L.CheckedCovers(r);
    CheckedApart(r);
    L.NeededIsLeastCover(r, order, needed);
    var k: nat := Min(L.PlanLength(r, needed), MAX_STEPS);
    ProgressFrom(l, r, fees, order, r.cells, r.funding, 0, 0, n, k);
    if L.PlanLength(r, needed) <= MAX_STEPS {
      L.ExactLength(r, fees, order, needed);
    }
  }

  // ----- a payment that only the limit refuses ----------------------------------------------------------------------

  const LARGE_COIN := 10_000_000_000

  /** One coin of 100 KAS. */
  function LargeFunding(): seq<Funding> {
    [Funding(Outpoint(External(2), 0), LARGE_COIN)]
  }

  /** A ledger with 65 one-token cells and the coin of the sender, and a cell the recipient lends. */
  ghost function LongestLedger(): Ledger {
    Ledger((map i: nat | i < MAX_CELLS :: Outpoint(External(0), i) := Token("sender", 1, 100_000_000))
           + map[Outpoint(External(1), 0) := Token("recipient", 5, 100_000_000),
                 Outpoint(External(2), 0) := Plain("sender", LARGE_COIN)], {})
  }

  lemma LongestHolds()
    ensures var l := LongestLedger();
            && Chained(l)
            && (forall i: nat :: i < MAX_CELLS ==>
                  Outpoint(External(0), i) in l.live
                  && l.live[Outpoint(External(0), i)] == Token("sender", 1, 100_000_000))
            && Outpoint(External(1), 0) in l.live
            && l.live[Outpoint(External(1), 0)] == Token("recipient", 5, 100_000_000)
            && Outpoint(External(2), 0) in l.live && l.live[Outpoint(External(2), 0)] == Plain("sender", LARGE_COIN)
  {
  }

  lemma UnitsAreHeld()
    ensures HoldsCells(LongestLedger(), "sender", L.UnitCells(MAX_CELLS))
  {
    hide Distinct, LongestLedger;
    var cells := L.UnitCells(MAX_CELLS);
    LongestHolds();
    L.NoRepeatsByIndex(Places(cells));
    NoRepeatsIsDistinct(Places(cells));
  }

  lemma LongestIsBacked()
    ensures var r := L.LongestPayment(LargeFunding()); Backs(LongestLedger(), r, r.cells, r.funding)
  {
    hide Distinct, LongestLedger, Chained, L.UnitCells, Places;
    LongestHolds();
    UnitsAreHeld();
    DistinctIsNoRepeatsBack(FundingPlaces(LargeFunding()));
  }

  lemma {:induction false} UnitDeposits(n: nat)
    ensures Sum(Deposits(L.UnitCells(n))) == n * 100_000_000
  {
    if n > 0 {
      UnitDeposits(n - 1);
      assert L.UnitCells(n) == L.UnitCells(n - 1) + [L.UnitCells(n)[n - 1]];
      MergedDeposits(L.UnitCells(n - 1), L.UnitCells(n)[n - 1]);
    }
  }

  lemma LongestInRange(lent: bool)
    ensures var whole := L.LongestPayment(LargeFunding());
            var r := if lent then whole else whole.(borrowed := None);
            InRange(r, r.cells, r.funding) && PlainKas(r.funding) >= Budget(r, MAX_STEPS)
  {
    hide L.UnitCells, Sum, PlainKas, Deposits, Amounts;
    L.UnitCellsFacts(MAX_CELLS);
    UnitDeposits(MAX_CELLS);
    LongestKas();
  }

  lemma LongestKas()
    ensures PlainKas(LargeFunding()) == LARGE_COIN && Sum(Deposits([])) == 0
    ensures Sum(Deposits(BorrowedCells(L.LongestPayment(LargeFunding())))) == 100_000_000
  {
    hide L.UnitCells;
    var r := L.LongestPayment(LargeFunding());
    FundingSum(LargeFunding()[0], []);
    assert [LargeFunding()[0]] + [] == LargeFunding();
    assert Deposits(BorrowedCells(r)) == [100_000_000] && [100_000_000][1..] == [];
  }

  /**
   65 one-token cells and a lent cell on the three-cell program, with one coin of 100 KAS: whatever fees are
   affordable for four inputs, the payment passes every check and is refused by the limit alone. Without the lent cell
   the same payment goes through.
   */
  lemma LongestPaymentIsRefused(fees: FeeOracle, order: Outpoint -> int)
    requires Affordable(fees, Reference3, 1)
    ensures var r := L.LongestPayment(LargeFunding());
            && Checked(r) == Success(true)
            && PreparePlan(r, fees, order) == Failure(TooManySteps)
            && PreparePlan(r.(borrowed := None), fees, order).Success?
  {
    hide PreparePlan, Checked, Backs, LeastCover, L.UnitCells, InRange, Affordable, L.PlanLength, LongestLedger,
      PlainKas, Budget, Amounts;
    var r := L.LongestPayment(LargeFunding());
    var alone := r.(borrowed := None);
    L.UnitCellsFacts(MAX_CELLS);
    L.LongestPaymentPasses(LargeFunding());
    LongestIsBacked();
    LongestAlone();
    LongestInRange(true);
    LongestInRange(false);
    LongestBudget(r);
    LongestBudget(alone);
    OneCoin();
    L.LongestLength(r, MAX_CELLS);
    L.LongestLength(alone, MAX_CELLS);
    PlanSucceedsExactly(LongestLedger(), r, fees, order, MAX_CELLS, 1);
    PlanSucceedsExactly(LongestLedger(), alone, fees, order, MAX_CELLS, 1);
  }

  lemma OneCoin()
    ensures Largest(LargeFunding(), 1) == LargeFunding()
  {
    var f := LargeFunding();
    assert f[1..] == [] && SortFunding(f) == [f[0]];
  }

  lemma LongestBudget(r: Request)
    requires PlainKas(r.funding) >= Budget(r, MAX_STEPS)
    ensures PlainKas(r.funding) >= Budget(r, Min(L.PlanLength(r, MAX_CELLS), MAX_STEPS))
  {
    hide L.PlanLength, PlainKas;
    BudgetIsMonotone(r, Min(L.PlanLength(r, MAX_CELLS), MAX_STEPS), MAX_STEPS);
  }

  lemma BudgetIsMonotone(r: Request, k: nat, n: nat)
    requires k <= n
    ensures Budget(r, k) <= Budget(r, n)
  {
  }

  lemma LongestAlone()
    ensures var r := L.LongestPayment(LargeFunding());
            var alone := r.(borrowed := None);
            Checked(alone) == Success(true) && Backs(LongestLedger(), alone, alone.cells, alone.funding)
  {
    hide L.UnitCells, Sum, Amounts, Places, Chained, HoldsCells, HoldsFunding, LongestLedger;
    var r := L.LongestPayment(LargeFunding());
    var alone := r.(borrowed := None);
    LongestIsBacked();
    L.LongestPaymentPasses(LargeFunding());
    assert AllCells(alone) == r.cells && AllCells(r)[1..] == r.cells;
    PlacesTail(AllCells(r));
  }

  lemma PlacesTail(cells: seq<Cell>)
    requires cells != [] && NoRepeats(Places(cells))
    ensures NoRepeats(Places(cells[1..]))
  {
    assert Places(cells)[1..] == Places(cells[1..]);
  }
}
