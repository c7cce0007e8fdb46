/** Exactly which single transfers are prepared, and the order in which cells and coins are taken. */
module TokenPlanTransfer {
  import opened Wrappers
  import opened Words
  import opened Ledger
  import opened TokenCells
  import opened TokenPlan
  import opened TokenPlanLedger
  import opened TokenPlanContract
  import P = TokenPlanProgress
  import S = Sorting

  // ----- what is taken first ----------------------------------------------------------------------------------------

  /** Cells are taken largest first; equal amounts in the order of their outpoints. */
  lemma CellsInOrder(cells: seq<Cell>, order: Outpoint -> int, i: nat, j: nat)
    requires i < j < |SortCells(cells, order)|
    ensures var a, b := SortCells(cells, order)[i], SortCells(cells, order)[j];
            a.tokens >= b.tokens && (a.tokens == b.tokens ==> order(a.at) <= order(b.at))
  {
    assert S.TotalOrder(ByAmount(order));
    S.SortOrders(cells, ByAmount(order));
  }

  /** Coins are taken largest first; equal ones in the order given. */
  lemma CoinsInOrder(f: seq<Funding>, value: nat)
    ensures var s := SortFunding(f); forall i, j :: 0 <= i < j < |s| ==> s[i].value >= s[j].value
    ensures S.Having(SortFunding(f), P.Value(), value) == S.Having(f, P.Value(), value)
  {
    var s := SortFunding(f);
    P.LargestDescend(f);
    assert forall i :: 0 <= i < |s| ==> FundingValues(s)[i] == s[i].value;
    S.SortIsStable(f, Larger, P.Value(), value);
  }

  // ----- the coins of a transfer -----------------------------------------------------------------------------------

  /** The coins on offer, largest first: those that are no token cell of the transfer. */
  function Offered(q: Request): seq<Funding> {
    SortFunding(Unspent(q.funding, Places(AllCells(q))))
  }

  /** The shortest leading part that reaches `want`, at least one coin, or all of them. */
  ghost predicate Takes(f: seq<Funding>, have: nat, want: nat, coins: seq<Funding>) {
    && coins != [] && coins <= f
    && (have + P.PlainKas(coins) >= want || coins == f)
    && forall k :: 1 <= k < |coins| ==> have + P.PlainKas(coins[..k]) < want
  }

  lemma {:induction false} PickTakes(f: seq<Funding>, have: nat, want: nat)
    requires f != []
    ensures Takes(f, have, want, Pick(f, have, want))
  {
    var p := Pick(f, have, want);
    P.FundingSum(f[0], []);
    assert [f[0]] + [] == [f[0]];
    if have + f[0].value < want && f[1..] != [] {
      var rest := Pick(f[1..], have + f[0].value, want);
      PickTakes(f[1..], have + f[0].value, want);
      P.FundingSum(f[0], rest);
      assert f == [f[0]] + f[1..];
      forall k | 1 <= k < |p| ensures have + P.PlainKas(p[..k]) < want {
        assert p[..k] == [f[0]] + rest[..k - 1];
        P.FundingSum(f[0], rest[..k - 1]);
        assert rest[..0] == [];
      }
    }
  }

  lemma TakenIsLongest(f: seq<Funding>, have: nat, want: nat, a: seq<Funding>, b: seq<Funding>)
    requires Takes(f, have, want, a) && Takes(f, have, want, b)
    ensures |a| >= |b| && a == f[..|a|]
  {
    hide P.PlainKas;
    assert a == f[..|a|];
    assert forall k :: 0 <= k <= |b| ==> b[..k] == f[..k];
  }

  // ----- one transfer ----------------------------------------------------------------------------------------------

  /** The transfer itself is in order: lending, number and places of the cells, and all token sums. */
  ghost predicate Sound(q: Request) {
    var lent, total := if q.borrowed.Some? then 1 else 0, Sum(Amounts(q.cells));
    && (q.borrowed.Some? ==> MayBorrow(q, q.borrowed.value))
    && 1 <= |q.cells| <= (if q.template.Reference10? then 10 else 3) - lent
    && OwnPlaces(q)
    && 0 < q.amount <= total
    && total + (if q.borrowed.Some? then q.borrowed.value.cell.tokens else 0) < 0x8000_0000_0000_0000
    && (q.template.KassealOwner? ==> total <= 1_200_000_000)
  }

  /** The step spends the cells and these coins, pays its fee, and returns the rest as spendable change. */
  ghost predicate Spends(q: Request, fees: FeeOracle, coins: seq<Funding>, step: Step) {
    var outputs, total := Outputs(q), Sum(Deposits(AllCells(q))) + P.PlainKas(coins);
    var change := total - Values(outputs) - step.fee;
    && total < 0x1_0000_0000_0000_0000
    && step.tx.inputs == Places(AllCells(q)) + FundingPlaces(coins)
    && fees(step.tx.inputs, outputs, total) == Some(step.fee)
    && change >= 10_000 && step.tx.outputs == outputs + [Plain(q.sender, change)]
  }

  lemma SoundExactly(q: Request)
    ensures Sound(q) <==>
              && TransferAllowed(q) && q.amount <= Sum(Amounts(q.cells))
              && Sum(Amounts(q.cells)) + BorrowedTokens(q) <= I64_MAX
              && (q.template.KassealOwner? ==> Sum(Amounts(q.cells)) <= KASSEAL_SUPPLY)
  {
    hide NoRepeats, Places, Sum, Amounts, OwnPlaces;
    OwnPlacesExactly(q);
    assert |AllCells(q)| == (if q.borrowed.Some? then 1 else 0) + |q.cells|;
    assert BorrowAllowed(q) <==> (q.borrowed.Some? ==> MayBorrow(q, q.borrowed.value));
  }

  /** With the coins it takes, a transfer that is in order becomes the step that spends them. */
  lemma PicksAreSpent(q: Request, fees: FeeOracle, step: Step)
    requires Sound(q)
    ensures Prepare(q, fees) == Success(step) <==>
              Offered(q) != [] && Spends(q, fees, Picked(q, Outputs(q)), step)
  {
    hide Sound, TransferAllowed, NoRepeats, Sum, Amounts, Deposits, Values, TokenOutputs, Unspent, Places,
      FundingPlaces, AllCells, P.PlainKas, SortFunding;
    SoundExactly(q);
    P.InputTotalIs(q, Outputs(q));
  }

  /** A transfer is prepared exactly if it is in order and the coins it takes pay for it; the step is the one stated. */
  lemma TransferExactly(q: Request, fees: FeeOracle, step: Step)
    ensures Prepare(q, fees) == Success(step) <==>
              Sound(q) && exists coins ::
                && Takes(Offered(q), Sum(Deposits(AllCells(q))), Values(Outputs(q)) + 50_000_000, coins)
                && Spends(q, fees, coins, step)
  {
    hide Sound, Spends, Prepare, Sum, Deposits, Values, Pick, Takes, SortFunding, Unspent, AllCells, P.PlainKas;
    var outputs, have, offered := Outputs(q), Sum(Deposits(AllCells(q))), Offered(q);
    var want := Values(outputs) + FEE_RESERVE;
    var picked := Picked(q, outputs);
    assert picked == Pick(offered, have, want);
    if Sound(q) {
      PicksAreSpent(q, fees, step);
    } else {
      UnsoundFails(q, fees);
    }
    if offered != [] {
      PickTakes(offered, have, want);
    }
    forall coins | Takes(offered, have, want, coins) ensures offered != [] && coins == picked {
      NonemptyOffer(offered, have, want, coins);
      PickTakes(offered, have, want);
      TakenIsLongest(offered, have, want, coins, picked);
      TakenIsLongest(offered, have, want, picked, coins);
    }
  }

  lemma UnsoundFails(q: Request, fees: FeeOracle)
    requires !Sound(q)
    ensures Prepare(q, fees).Failure?
  {
    hide Sound, TransferAllowed, Sum, Amounts, Picked, InputTotal, Inputs, TokenOutputs;
    SoundExactly(q);
  }

  lemma NonemptyOffer(f: seq<Funding>, have: nat, want: nat, coins: seq<Funding>)
    requires Takes(f, have, want, coins)
    ensures f != []
  {
  }
}
