/** How many transactions a plan takes, and exactly when the limit of 32 refuses a balance that could pay. */
module TokenPlanLength {
  import opened Wrappers
  import opened Ledger
  import opened TokenCells
  import opened TokenPlan

  lemma {:induction false} RequiredSkips(a: seq<nat>, amount: nat, k: nat)
    requires k <= |a| && Sum(a[..k]) < amount <= Sum(a)
    ensures Sum(a[k..]) >= amount - Sum(a[..k])
    ensures Required(a, amount).value == k + Required(a[k..], amount - Sum(a[..k])).value
  {
    if k == 0 {
      assert a[0..] == a;
    } else {
      assert a[..k] == [a[0]] + a[1..][..k - 1];
      assert a[k..] == a[1..][k - 1..];
      RequiredSkips(a[1..], amount - a[0], k - 1);
    }
  }

  lemma {:induction false} DescendingIsUnique(a: seq<nat>, b: seq<nat>)
    requires Descending(a) && Descending(b) && multiset(a) == multiset(b)
    ensures a == b
  {
    assert |multiset(a)| == |multiset(b)|;
    if a != [] {
      assert a[0] in multiset(b) && b[0] in multiset(a);
      RemoveHead(a);
      RemoveHead(b);
      CancelOne(multiset(a[1..]), multiset(b[1..]), a[0]);
      CancelOne(multiset(b[1..]), multiset(a[1..]), a[0]);
      DescendingIsUnique(a[1..], b[1..]);
    }
  }

  /** Compounding the `limit` largest amounts makes the least cover exactly `limit - 1` smaller. */
  lemma CompoundingLowersRequired(a: seq<nat>, b: seq<nat>, amount: nat, limit: nat)
    requires Descending(a) && Descending(b) && 0 < amount <= Sum(a)
    requires 1 <= limit <= Required(a, amount).value
    requires multiset(b) == multiset(a[limit..] + [Sum(a[..limit])])
    ensures Sum(b) >= amount
    ensures Required(b, amount).value == Required(a, amount).value - (limit - 1)
  {
    hide Descending, Sum;
    var merged := Sum(a[..limit]);
    MergedComesFirst(a, b, limit);
    assert b[1..] == a[limit..] && b[0] == merged;
    assert a == a[..limit] + a[limit..];
    SumConcat(a[..limit], a[limit..]);
    SumHead(b);
    if merged < amount {
      RequiredSkips(a, amount, limit);
    } else {
      RequiredIsFirst(a, amount, limit);
    }
  }

  lemma MergedComesFirst(a: seq<nat>, b: seq<nat>, limit: nat)
    requires Descending(a) && Descending(b) && 1 <= limit <= |a|
    requires multiset(b) == multiset(a[limit..] + [Sum(a[..limit])])
    ensures b == [Sum(a[..limit])] + a[limit..]
  {
    var merged := Sum(a[..limit]);
    assert merged >= a[0] by {
      assert a[..limit][0] == a[0];
    }
    hide Sum;
    assert Descending([merged] + a[limit..]);
    DescendingIsUnique(b, [merged] + a[limit..]);
  }

  /** The least number of these cells that covers the payment. */
  function Needed(r: Request, order: Outpoint -> int, cells: seq<Cell>): Option<nat>
    requires r.amount > 0
  {
    Required(Amounts(SortCells(cells, order)), r.amount)
  }

  lemma SortedAmounts(cells: seq<Cell>, order: Outpoint -> int)
    ensures Descending(Amounts(SortCells(cells, order)))
    ensures Sum(Amounts(SortCells(cells, order))) == Sum(Amounts(cells))
  {
    SortedIsLargestFirst(cells, order);
    SortProjections(cells, order);
  }

  lemma FinalRound(r: Request, fees: FeeOracle, order: Outpoint -> int, cells: seq<Cell>, funding: seq<Funding>)
    requires r.amount > 0 && NextRound(r, fees, order, cells, funding).Success?
    ensures Needed(r, order, cells).Some?
    ensures NextRound(r, fees, order, cells, funding).value.Final? <==> Needed(r, order, cells).value <= FinalLimit(r)
  {
    hide Prepare, SortCells, Required, Amounts, Sum, Selection, NextFunding, Merged;
  }

  /** What a compounding round selects and hands on. */
  lemma CompoundRound(r: Request, fees: FeeOracle, order: Outpoint -> int, cells: seq<Cell>, funding: seq<Funding>)
    requires r.amount > 0
    requires NextRound(r, fees, order, cells, funding).Success?
    requires NextRound(r, fees, order, cells, funding).value.Compound?
    ensures var round := NextRound(r, fees, order, cells, funding).value;
            var sorted := SortCells(cells, order);
            var limit := InputLimit(r.template);
            && Needed(r, order, cells).Some?
            && limit <= Needed(r, order, cells).value <= |sorted|
            && Prepare(StepRequest(r, true, sorted[..limit], funding), fees) == Success(round.step)
            && round.cells == sorted[limit..] + [Merged(r, round.step.tx, Sum(Amounts(sorted[..limit])))]
            && round.funding == NextFunding(funding, round.step.tx)
  {
    hide Prepare, SortCells, Sum, NextFunding, Merged;
    FinalRound(r, fees, order, cells, funding);
  }

  lemma CompoundRoundNeeds(r: Request, fees: FeeOracle, order: Outpoint -> int, cells: seq<Cell>, funding: seq<Funding>)
    requires r.amount > 0
    requires NextRound(r, fees, order, cells, funding).Success?
    requires NextRound(r, fees, order, cells, funding).value.Compound?
    ensures var next := NextRound(r, fees, order, cells, funding).value.cells;
            && Sum(Amounts(next)) == Sum(Amounts(cells)) >= r.amount
            && Needed(r, order, cells).Some?
            && Needed(r, order, next) == Some(Needed(r, order, cells).value - (InputLimit(r.template) - 1))
  {
    hide Prepare, SortCells, NextFunding, NextRound;
    CompoundRound(r, fees, order, cells, funding);
    var round := NextRound(r, fees, order, cells, funding).value;
    var limit, sorted := InputLimit(r.template), SortCells(cells, order);
    var a := Amounts(sorted);
    SortedAmounts(cells, order);
    SortedAmounts(round.cells, order);
    SortProjections(round.cells, order);
    assert sorted == sorted[..limit] + sorted[limit..];
    ProjectionsConcat(sorted[..limit], sorted[limit..]);
    assert a[..limit] == Amounts(sorted[..limit]) && a[limit..] == Amounts(sorted[limit..]);
    var merged := Merged(r, round.step.tx, Sum(a[..limit]));
    ProjectionsConcat(sorted[limit..], [merged]);
    assert Amounts([merged]) == [Sum(a[..limit])];
    SumConcat(a[limit..], [Sum(a[..limit])]);
    SumConcat(a[..limit], a[limit..]);
    assert a == a[..limit] + a[limit..];
    CompoundingLowersRequired(a, Amounts(SortCells(round.cells, order)), r.amount, limit);
  }

  /** The number of transactions for a payment whose least cover has `needed` cells. */
  function PlanLength(r: Request, needed: nat): nat {
    if needed <= FinalLimit(r) then 1
    else 1 + (needed - FinalLimit(r) + InputLimit(r.template) - 2) / (InputLimit(r.template) - 1)
  }

  lemma LengthRecurs(r: Request, needed: nat)
    requires needed > FinalLimit(r)
    ensures needed >= InputLimit(r.template) - 1
    ensures PlanLength(r, needed) == 1 + PlanLength(r, needed - (InputLimit(r.template) - 1))
  {
  }

  lemma {:induction false} LengthFrom(r: Request, fees: FeeOracle, order: Outpoint -> int, cells: seq<Cell>,
                                      funding: seq<Funding>, done: nat, paid: nat)
    requires 0 < r.amount <= Sum(Amounts(cells)) && done < MAX_STEPS
    ensures Needed(r, order, cells).Some?
    ensures var plan := PlanFrom(r, fees, order, cells, funding, done, paid);
            var length := PlanLength(r, Needed(r, order, cells).value);
            && (plan.Success? ==> |plan.value.steps| == length && done + length <= MAX_STEPS)
            && (plan.Failure? ==> plan.error in {TooManySteps, FeeOverflow} || plan.error.StepRejected?)
            && (plan == Failure(TooManySteps) ==> done + length > MAX_STEPS)
    decreases MAX_STEPS - done
  {
    hide Prepare, SortCells, Required, NextRound, Amounts, Sum;
    SortedAmounts(cells, order);
    var needed := Needed(r, order, cells).value;
    var turn := NextRound(r, fees, order, cells, funding);
    RoundNeverIncomplete(r, fees, order, cells, funding);
    if turn.Success? {
      FinalRound(r, fees, order, cells, funding);
      if turn.value.Compound? {
        CompoundRoundNeeds(r, fees, order, cells, funding);
        LengthRecurs(r, needed);
        if done + 1 < MAX_STEPS {
          LengthFrom(r, fees, order, turn.value.cells, turn.value.funding, done + 1, paid + turn.value.step.fee);
        }
      }
    }
  }

  lemma RoundNeverIncomplete(r: Request, fees: FeeOracle, order: Outpoint -> int, cells: seq<Cell>,
                             funding: seq<Funding>)
    requires r.amount > 0 && Needed(r, order, cells).Some?
    ensures var turn := NextRound(r, fees, order, cells, funding);
            turn.Failure? ==> turn.error.StepRejected?
  {
    hide Prepare, SortCells, Required, Amounts, Sum, Selection, NextFunding, Merged;
  }

  lemma CheckedCovers(r: Request)
    requires Checked(r).Success?
    ensures 0 < r.amount <= Sum(Amounts(r.cells)) && |r.cells| <= MAX_CELLS && FinalLimit(r) >= 2
  {
  }

  lemma NeededIsLeastCover(r: Request, order: Outpoint -> int, needed: nat)
    requires 0 < r.amount <= Sum(Amounts(r.cells)) && LeastCover(Amounts(r.cells), r.amount, needed)
    ensures Needed(r, order, r.cells) == Some(needed)
    ensures needed <= |r.cells|
  {
    SortedAmounts(r.cells, order);
    SortProjections(r.cells, order);
    RequiredIsLeastCover(Amounts(SortCells(r.cells, order)), r.amount);
    LeastCoverIsUnique(Amounts(r.cells), Amounts(SortCells(r.cells, order)), r.amount, needed,
                       Needed(r, order, r.cells).value);
    assert |SortCells(r.cells, order)| == |multiset(SortCells(r.cells, order))| == |r.cells|;
  }

  /** A plan has exactly the length that the least cover of the original cells dictates. */
  lemma ExactLength(r: Request, fees: FeeOracle, order: Outpoint -> int, needed: nat)
    requires PreparePlan(r, fees, order).Success? && LeastCover(Amounts(r.cells), r.amount, needed)
    ensures |PreparePlan(r, fees, order).value.steps| == PlanLength(r, needed)
  {
    hide Checked, PlanFrom;
    CheckedCovers(r);
    NeededIsLeastCover(r, order, needed);
    LengthFrom(r, fees, order, r.cells, r.funding, 0, 0);
  }

  /** The length check bites exactly on plans that need more than 32 transactions. */
  lemma TooManyStepsExactly(r: Request, fees: FeeOracle, order: Outpoint -> int, needed: nat)
    requires Checked(r).Success? && LeastCover(Amounts(r.cells), r.amount, needed)
    ensures var plan := PreparePlan(r, fees, order);
            && (plan.Success? ==> PlanLength(r, needed) <= MAX_STEPS)
            && (plan == Failure(TooManySteps) ==> PlanLength(r, needed) > MAX_STEPS)
            && (plan.Failure? ==> plan.error in {TooManySteps, FeeOverflow} || plan.error.StepRejected?)
    ensures PlanLength(r, needed) > MAX_STEPS <==> !r.template.Reference10? && r.borrowed.Some? && needed == MAX_CELLS
  {
    hide PlanFrom, Checked, LeastCover, Sum, Amounts, Needed, PlanLength;
    CheckedCovers(r);
    NeededIsLeastCover(r, order, needed);
    LengthFrom(r, fees, order, r.cells, r.funding, 0, 0);
    LongestLength(r, needed);
  }

  /** Of at most 65 cells, only 65 with a borrowed receive on a three-cell program take more than 32 steps. */
  lemma LongestLength(r: Request, needed: nat)
    requires needed <= MAX_CELLS && FinalLimit(r) >= 2
    ensures PlanLength(r, needed) > MAX_STEPS <==> !r.template.Reference10? && r.borrowed.Some? && needed == MAX_CELLS
  {
  }

  function UnitCells(n: nat): seq<Cell> {
    seq(n, (i: nat) => Cell(Outpoint(External(0), i), 1, 100_000_000))
  }

  lemma {:induction false} UnitCellsFacts(n: nat)
    ensures Sum(Amounts(UnitCells(n))) == n
    ensures LeastCover(Amounts(UnitCells(n)), n, n)
  {
    AllOnes(Amounts(UnitCells(n)));
    forall s: seq<nat> | multiset(s) <= multiset(Amounts(UnitCells(n))) && Sum(s) >= n
      ensures |s| >= n
    {
      forall k | 0 <= k < |s| ensures s[k] == 1 {
        assert s[k] in multiset(s) && s[k] in multiset(Amounts(UnitCells(n)));
      }
      AllOnes(s);
    }
    assert |Amounts(UnitCells(n))| == n;
  }

  lemma {:induction false} AllOnes(s: seq<nat>)
    requires forall k :: 0 <= k < |s| ==> s[k] == 1
    ensures Sum(s) == |s|
  {
    if s != [] {
      AllOnes(s[1..]);
    }
  }

  lemma {:induction false} NoRepeatsByIndex(s: seq<Outpoint>)
    requires forall i, j :: 0 <= i < j < |s| ==> s[i] != s[j]
    ensures NoRepeats(s)
  {
    if s != [] {
      NoRepeatsByIndex(s[1..]);
    }
  }

  /** 65 one-token cells and a borrowed receive on the three-cell program. */
  function LongestPayment(funding: seq<Funding>): Request {
    Request(Reference3, "sender", "recipient", MAX_CELLS, UnitCells(MAX_CELLS),
            Some(Borrowed(Cell(Outpoint(External(1), 0), 5, 100_000_000), 0)), funding)
  }

  lemma LongestPlaces(funding: seq<Funding>)
    ensures NoRepeats(Places(AllCells(LongestPayment(funding))))
  {
    var s := Places(AllCells(LongestPayment(funding)));
    assert s[0] == Outpoint(External(1), 0);
    forall i | 1 <= i < |s| ensures s[i] == Outpoint(External(0), i - 1) {
    }
    NoRepeatsByIndex(s);
  }

  lemma LongestPaymentPasses(funding: seq<Funding>)
    ensures Checked(LongestPayment(funding)) == Success(true)
  {
    hide NoRepeats, Sum, Amounts, Places, AllCells, LeastCover, UnitCells;
    UnitCellsEach(MAX_CELLS);
    UnitCellsFacts(MAX_CELLS);
    LongestPlaces(funding);
    assert |LongestPayment(funding).sender| < |LongestPayment(funding).recipient|;
  }

  lemma UnitCellsEach(n: nat)
    ensures |UnitCells(n)| == n && forall c :: c in UnitCells(n) ==> c.tokens == 1
  {
  }

  /** Whatever the funding and the fees, this payment passes every check and no plan is found for it. */
  lemma LongestPaymentFails(funding: seq<Funding>, fees: FeeOracle, order: Outpoint -> int)
    ensures Checked(LongestPayment(funding)) == Success(true)
    ensures PreparePlan(LongestPayment(funding), fees, order).Failure?
  {
    hide PreparePlan, Checked, LeastCover, Amounts, PlanLength, UnitCells;
    UnitCellsFacts(MAX_CELLS);
    LongestPaymentPasses(funding);
    TooManyStepsExactly(LongestPayment(funding), fees, order, MAX_CELLS);
  }
}
