/** Executing a whole plan: every step finds its inputs unspent, balances, and the recipient is paid. */
module TokenPlanLedger {
  import opened Wrappers
  import opened Words
  import opened Ledger
  import opened TokenCells
  import opened TokenPlan
  import L = TokenPlanLength
  import S = Sorting

  /** The ledger holds these cells, each once, and they belong to `owner`. */
  ghost predicate HoldsCells(l: Ledger, owner: Address, cells: seq<Cell>) {
    && Distinct(Places(cells))
    && forall c :: c in cells ==> c.at in l.live && l.live[c.at] == Token(owner, c.tokens, c.value)
  }

  ghost predicate HoldsFunding(l: Ledger, owner: Address, funding: seq<Funding>) {
    && Distinct(FundingPlaces(funding))
    && forall f :: f in funding ==> f.at in l.live && l.live[f.at] == Plain(owner, f.value)
  }

  ghost predicate HoldsBorrowed(l: Ledger, r: Request) {
    r.borrowed.Some? ==>
      var b := r.borrowed.value.cell;
      b.at in l.live && l.live[b.at] == Token(r.recipient, b.tokens, b.value)
  }

  /** What the request says the parties own is what the ledger holds. */
  ghost predicate Backs(l: Ledger, r: Request, cells: seq<Cell>, funding: seq<Funding>) {
    && Chained(l)
    && HoldsCells(l, r.sender, cells)
    && HoldsFunding(l, r.sender, funding)
    && HoldsBorrowed(l, r)
  }

  ghost predicate Executes(l: Ledger, steps: seq<Step>)
    decreases |steps|
  {
    steps == [] || (Applies(l, steps[0].tx, steps[0].fee) && Executes(After(l, steps[0].tx), steps[1..]))
  }

  ghost function Finally(l: Ledger, steps: seq<Step>): Ledger
    decreases |steps|
  {
    if steps == [] then l else Finally(After(l, steps[0].tx), steps[1..])
  }

  // ----- distinct outpoints --------------------------------------------------------------------

  lemma {:induction false} NoRepeatsIsDistinct(s: seq<Outpoint>)
    requires NoRepeats(s)
    ensures Distinct(s)
  {
    if s != [] {
      RemoveHead(s);
      NoRepeatsIsDistinct(s[1..]);
      assert s[0] !in multiset(s[1..]);
      forall o ensures multiset(s)[o] <= 1 {
        assert multiset(s)[o] == multiset(s[1..])[o] + multiset{s[0]}[o];
      }
    } else {
      forall o ensures multiset(s)[o] <= 1 {}
    }
  }

  lemma DistinctConcat(a: seq<Outpoint>, b: seq<Outpoint>)
    requires Distinct(a) && Distinct(b) && forall o :: o in a ==> o !in b
    ensures Distinct(a + b)
  {
    forall o ensures multiset(a + b)[o] <= 1 {
      if o in multiset(a) {
        assert o in a && o !in multiset(b);
      }
    }
  }

  lemma DistinctPart(a: multiset<Outpoint>, s: seq<Outpoint>)
    requires a <= multiset(s) && Distinct(s)
    ensures forall o :: a[o] <= 1
  {
    forall o ensures a[o] <= 1 {
      assert multiset(s)[o] <= 1;
    }
  }

  lemma DistinctHalves(a: seq<Outpoint>, b: seq<Outpoint>)
    requires Distinct(a + b)
    ensures Distinct(a) && Distinct(b) && forall o :: o in a ==> o !in b
  {
    forall o
      ensures multiset(a)[o] + multiset(b)[o] <= 1
    {
      assert multiset(a + b)[o] == multiset(a)[o] + multiset(b)[o] && multiset(a + b)[o] <= 1;
    }
    forall o | o in a ensures o !in b {
      assert multiset(a)[o] + multiset(b)[o] <= 1 && o in multiset(a);
      assert o !in multiset(b);
    }
  }

  lemma FundingCons(x: Funding, s: seq<Funding>)
    ensures FundingPlaces([x] + s) == [x.at] + FundingPlaces(s)
  {
  }

  lemma {:induction false} SubFundingPlaces(a: seq<Funding>, spent: seq<Outpoint>)
    ensures multiset(FundingPlaces(Unspent(a, spent))) <= multiset(FundingPlaces(a))
  {
    if a != [] {
      hide FundingPlaces;
      var rest := Unspent(a[1..], spent);
      SubFundingPlaces(a[1..], spent);
      FundingCons(a[0], a[1..]);
      assert a == [a[0]] + a[1..];
      if a[0].at in spent {
        assert Unspent(a, spent) == rest;
      } else {
        FundingCons(a[0], rest);
      }
    }
  }

  lemma FundingConcat(a: seq<Funding>, b: seq<Funding>)
    ensures FundingPlaces(a + b) == FundingPlaces(a) + FundingPlaces(b)
    ensures FundingValues(a + b) == FundingValues(a) + FundingValues(b)
  {
  }

  lemma {:induction false} InsertedFundingPlaces(x: Funding, s: seq<Funding>)
    ensures multiset(FundingPlaces(S.Insert(x, s, Larger))) == multiset(FundingPlaces(s)) + multiset{x.at}
  {
    hide FundingPlaces;
    if s == [] || Larger(x, s[0]) {
      FundingCons(x, s);
    } else {
      InsertedFundingPlaces(x, s[1..]);
      FundingCons(s[0], S.Insert(x, s[1..], Larger));
      FundingCons(s[0], s[1..]);
      assert s == [s[0]] + s[1..];
    }
  }

  lemma {:induction false} SortedFundingPlaces(f: seq<Funding>)
    ensures multiset(FundingPlaces(SortFunding(f))) == multiset(FundingPlaces(f))
  {
    hide S.Insert;
    if f != [] {
      var x, rest := f[0], f[1..];
      assert f == [x] + rest;
      SortedFundingPlaces(rest);
      InsertedFundingPlaces(x, SortFunding(rest));
      FundingConcat([x], rest);
    }
  }

  /** The funding a step spends is part of the funding on offer, each coin once, and none of the step's cells. */
  lemma PickedIsOffered(r: Request, outputs: seq<Coin>)
    requires Distinct(FundingPlaces(r.funding))
    ensures Distinct(FundingPlaces(Picked(r, outputs)))
    ensures forall f :: f in Picked(r, outputs) ==> f in r.funding
    ensures forall o :: o in FundingPlaces(Picked(r, outputs)) ==> o !in Places(AllCells(r))
  {
    hide Sum, Values, Deposits, Pick, SortFunding, Unspent, TokenOutputs;
    var all := Places(AllCells(r));
    var unspent := Unspent(r.funding, all);
    var sorted := SortFunding(unspent);
    var picked := Picked(r, outputs);
    SubFundingPlaces(r.funding, all);
    SortedFundingPlaces(unspent);
    assert picked <= sorted;
    assert sorted == picked + sorted[|picked|..];
    FundingConcat(picked, sorted[|picked|..]);
    DistinctPart(multiset(FundingPlaces(picked)), FundingPlaces(r.funding));
    forall f | f in picked
      ensures f in r.funding && f.at !in all
    {
      assert f in multiset(sorted) && f in multiset(unspent);
    }
  }

  // ----- one step ------------------------------------------------------------------------------

  lemma {:induction false} CellTotals(l: Ledger, cells: seq<Cell>)
    requires forall c :: c in cells ==>
      c.at in l.live && l.live[c.at].Token? && l.live[c.at].tokens == c.tokens && l.live[c.at].value == c.value
    ensures forall o :: o in Places(cells) ==> o in l.live
    ensures Values(CoinsAt(l, Places(cells))) == Sum(Deposits(cells))
    ensures TokenTotal(CoinsAt(l, Places(cells))) == Sum(Amounts(cells))
  {
    if cells != [] {
      assert Places(cells)[1..] == Places(cells[1..]);
      assert Deposits(cells)[1..] == Deposits(cells[1..]);
      assert Amounts(cells)[1..] == Amounts(cells[1..]);
      CellTotals(l, cells[1..]);
    }
  }

  lemma {:induction false} FundingTotals(l: Ledger, owner: Address, f: seq<Funding>)
    requires forall x :: x in f ==> x.at in l.live && l.live[x.at] == Plain(owner, x.value)
    ensures forall o :: o in FundingPlaces(f) ==> o in l.live
    ensures Values(CoinsAt(l, FundingPlaces(f))) == Sum(FundingValues(f))
    ensures TokenTotal(CoinsAt(l, FundingPlaces(f))) == 0
  {
    if f != [] {
      assert FundingPlaces(f)[1..] == FundingPlaces(f[1..]);
      assert FundingValues(f)[1..] == FundingValues(f[1..]);
      FundingTotals(l, owner, f[1..]);
    }
  }

  /** What a transfer leaves over for the sender, and the token outputs that follow. */
  function Change(r: Request): nat {
    var total := Sum(Amounts(r.cells));
    if total >= r.amount then total - r.amount else 0
  }

  function Outputs(r: Request): seq<Coin> {
    TokenOutputs(r, Change(r))
  }

  function KasChange(r: Request, fee: nat): int {
    InputTotal(r, Outputs(r)) - Values(Outputs(r)) - fee
  }

  /** The shape of a prepared step. */
  lemma PreparedShape(r: Request, fees: FeeOracle, step: Step)
    requires Prepare(r, fees) == Success(step)
    ensures TransferAllowed(r) && Sum(Amounts(r.cells)) == r.amount + Change(r)
    ensures KasChange(r, step.fee) >= DUST
    ensures step.tx == Tx(Inputs(r, Outputs(r)), Outputs(r) + [Plain(r.sender, KasChange(r, step.fee))])
  {
    hide Values, Sum, Picked, TokenOutputs, Amounts, InputTotal, Inputs, TransferAllowed;
  }

  lemma StepTokens(r: Request, change: nat)
    ensures TokenTotal(TokenOutputs(r, change)) == BorrowedTokens(r) + r.amount + change
    ensures TokenOutputs(r, change) != []
    ensures TokenOutputs(r, change)[0].Token? && TokenOutputs(r, change)[0].owner == r.recipient
    ensures TokenOutputs(r, change)[0].tokens == BorrowedTokens(r) + r.amount
  {
    var outputs := TokenOutputs(r, change);
    TotalsConcat([outputs[0]], outputs[1..]);
    assert outputs == [outputs[0]] + outputs[1..];
    assert outputs[0..1][1..] == [] && (change > 0 ==> outputs[1..][1..] == []);
  }

  /** A prepared step is a valid transaction of any ledger that backs its request. */
  lemma PreparedStepApplies(l: Ledger, r: Request, fees: FeeOracle)
    requires Prepare(r, fees).Success? && Backs(l, r, r.cells, r.funding)
    ensures Applies(l, Prepare(r, fees).value.tx, Prepare(r, fees).value.fee)
  {
    hide Prepare, Picked, TokenOutputs, NoRepeats, Sum, Deposits, Amounts, Places, FundingPlaces, FundingValues;
    var step := Prepare(r, fees).value;
    PreparedShape(r, fees, step);
    var all := AllCells(r);
    var outputs := Outputs(r);
    var picked := Picked(r, outputs);
    var rest := step.tx.outputs[|outputs|..];
    NoRepeatsIsDistinct(Places(all));
    PickedIsOffered(r, outputs);
    DistinctConcat(Places(all), FundingPlaces(picked));
    CellTotals(l, all);
    FundingTotals(l, r.sender, picked);
    CoinsAtConcat(l, Places(all), FundingPlaces(picked));
    TotalsConcat(CoinsAt(l, Places(all)), CoinsAt(l, FundingPlaces(picked)));
    TotalsConcat(outputs, rest);
    assert step.tx.outputs == outputs + rest && |rest| == 1;
    assert TokenTotal(rest) == 0 && Values(rest) == rest[0].value by {
      assert rest[1..] == [];
    }
    StepTokens(r, Change(r));
    ProjectionsConcat(BorrowedCells(r), r.cells);
    BorrowedSum(r);
  }

  lemma BorrowedSum(r: Request)
    ensures Sum(Amounts(AllCells(r))) == BorrowedTokens(r) + Sum(Amounts(r.cells))
  {
    ProjectionsConcat(BorrowedCells(r), r.cells);
    SumConcat(Amounts(BorrowedCells(r)), Amounts(r.cells));
    if r.borrowed.Some? {
      assert Amounts(BorrowedCells(r)) == [BorrowedTokens(r)];
    }
  }

  // ----- one round of the chain ------------------------------------------------------------------

  lemma SortedIsHeld(l: Ledger, owner: Address, cells: seq<Cell>, order: Outpoint -> int, n: nat)
    requires HoldsCells(l, owner, cells) && n <= |SortCells(cells, order)|
    ensures var sorted := SortCells(cells, order);
            && HoldsCells(l, owner, sorted[..n])
            && HoldsCells(l, owner, sorted[n..])
            && forall a, b :: a in sorted[..n] && b in sorted[n..] ==> a.at != b.at
  {
    hide SortCells, Amounts, Sum, Places, Deposits;
    var sorted := SortCells(cells, order);
    SortProjections(cells, order);
    assert sorted == sorted[..n] + sorted[n..];
    ProjectionsConcat(sorted[..n], sorted[n..]);
    DistinctPart(multiset(Places(sorted)), Places(cells));
    DistinctHalves(Places(sorted[..n]), Places(sorted[n..]));
    forall c | c in sorted ensures c in cells {
      assert c in multiset(sorted);
    }
    ApartByPlace(sorted[..n], sorted[n..]);
  }

  lemma ApartByPlace(a: seq<Cell>, b: seq<Cell>)
    requires forall o :: o in Places(a) ==> o !in Places(b)
    ensures forall x, y :: x in a && y in b ==> x.at != y.at
  {
    forall x, y | x in a && y in b ensures x.at != y.at {
      var i :| 0 <= i < |a| && a[i] == x;
      var j :| 0 <= j < |b| && b[j] == y;
      assert Places(a)[i] in Places(a) && Places(b)[j] in Places(b);
    }
  }

  /** The inputs of a step are its cells and some of the funding it was offered. */
  lemma InputsAreKnown(r: Request, fees: FeeOracle, o: Outpoint)
    requires Prepare(r, fees).Success? && Distinct(FundingPlaces(r.funding))
    requires o in Prepare(r, fees).value.tx.inputs
    ensures (exists c :: c in AllCells(r) && c.at == o) || (exists f :: f in r.funding && f.at == o)
  {
    hide Prepare, Picked, TokenOutputs, NoRepeats, Sum, Deposits, Amounts;
    PreparedShape(r, fees, Prepare(r, fees).value);
    var all := AllCells(r);
    var picked := Picked(r, Outputs(r));
    PickedIsOffered(r, Outputs(r));
    if o in Places(all) {
      var i :| 0 <= i < |all| && Places(all)[i] == o;
      assert all[i] in all && all[i].at == o;
    } else {
      var i :| 0 <= i < |picked| && FundingPlaces(picked)[i] == o;
      assert picked[i] in r.funding && picked[i].at == o;
    }
  }

  /** Cells a step does not spend are still held after it, whoever owns the ones it does spend. */
  lemma OthersStay(l: Ledger, r: Request, fees: FeeOracle, owner: Address, cells: seq<Cell>)
    requires Prepare(r, fees).Success? && Backs(l, r, r.cells, r.funding)
    requires HoldsCells(l, owner, cells)
    requires forall a, b :: a in AllCells(r) && b in cells ==> a.at != b.at
    ensures Applies(l, Prepare(r, fees).value.tx, Prepare(r, fees).value.fee)
    ensures HoldsCells(After(l, Prepare(r, fees).value.tx), owner, cells)
  {
    hide Prepare, Chained, Applies;
    PreparedStepApplies(l, r, fees);
    var step := Prepare(r, fees).value;
    AfterIsChained(l, step.tx, step.fee);
    forall c | c in cells
      ensures c.at !in step.tx.inputs
    {
      if c.at in step.tx.inputs {
        InputsAreKnown(r, fees, c.at);
      }
    }
  }

  lemma AddFreshCell(l: Ledger, owner: Address, cells: seq<Cell>, c: Cell)
    requires HoldsCells(l, owner, cells)
    requires c.at in l.live && l.live[c.at] == Token(owner, c.tokens, c.value)
    requires forall d :: d in cells ==> d.at != c.at
    ensures HoldsCells(l, owner, cells + [c])
  {
    ProjectionsConcat(cells, [c]);
    assert Places([c]) == [c.at];
    forall o | o in Places(cells) ensures o !in Places([c]) {
      var i :| 0 <= i < |cells| && Places(cells)[i] == o;
      assert cells[i] in cells;
    }
    NoRepeatsIsDistinct([c.at]);
    DistinctConcat(Places(cells), Places([c]));
  }

  lemma FundingStays(l: Ledger, owner: Address, funding: seq<Funding>, tx: Tx, fee: nat)
    requires Chained(l) && Applies(l, tx, fee) && HoldsFunding(l, owner, funding)
    requires tx.outputs != [] && tx.outputs[|tx.outputs| - 1].Plain? && tx.outputs[|tx.outputs| - 1].owner == owner
    ensures HoldsFunding(After(l, tx), owner, NextFunding(funding, tx))
  {
    hide Chained, Applies, After, Unspent, FundingValues;
    AfterIsChained(l, tx, fee);
    var kept := Unspent(funding, tx.inputs);
    var last: nat := |tx.outputs| - 1;
    var change := Funding(Outpoint(Hash(tx), last), tx.outputs[last].value);
    SubFundingPlaces(funding, tx.inputs);
    DistinctPart(multiset(FundingPlaces(kept)), FundingPlaces(funding));
    FundingConcat(kept, [change]);
    assert FundingPlaces([change]) == [change.at];
    forall o | o in FundingPlaces(kept) ensures o !in [change.at] {
      var i :| 0 <= i < |kept| && FundingPlaces(kept)[i] == o;
      assert kept[i] in funding && o in l.live;
    }
    NoRepeatsIsDistinct([change.at]);
    DistinctConcat(FundingPlaces(kept), [change.at]);
    assert NextFunding(funding, tx) == kept + [change];
  }

  /** After a compounding round the ledger backs exactly what the next round starts from. */
  lemma CompoundRoundIsBacked(l: Ledger, r: Request, fees: FeeOracle, order: Outpoint -> int,
                              cells: seq<Cell>, funding: seq<Funding>)
    requires r.amount > 0 && BorrowAllowed(r) && Backs(l, r, cells, funding)
    requires NextRound(r, fees, order, cells, funding).Success?
    requires NextRound(r, fees, order, cells, funding).value.Compound?
    ensures var round := NextRound(r, fees, order, cells, funding).value;
            && Applies(l, round.step.tx, round.step.fee)
            && Backs(After(l, round.step.tx), r, round.cells, round.funding)
  {
    hide NextRound, Prepare, SortCells, Chained, Applies, Sum, Amounts, Places, NextFunding, Executes, L.Needed;
    L.CompoundRound(r, fees, order, cells, funding);
    var round := NextRound(r, fees, order, cells, funding).value;
    var limit, sorted := InputLimit(r.template), SortCells(cells, order);
    var q := StepRequest(r, true, sorted[..limit], funding);
    SortedIsHeld(l, r.sender, cells, order, limit);
    OthersStay(l, q, fees, r.sender, sorted[limit..]);
    var tx, after := round.step.tx, After(l, round.step.tx);
    AfterIsChained(l, tx, round.step.fee);
    CompoundOutputs(q, fees);
    var merged := Merged(r, tx, Sum(Amounts(sorted[..limit])));
    AddFreshCell(after, r.sender, sorted[limit..], merged);
    FundingStays(l, r.sender, funding, tx, round.step.fee);
    BorrowedStays(l, r, q, fees);
  }

  lemma CompoundOutputs(q: Request, fees: FeeOracle)
    requires Prepare(q, fees).Success? && q.borrowed.None?
    requires q.amount == Sum(Amounts(q.cells)) && q.recipient == q.sender
    ensures var outputs := Prepare(q, fees).value.tx.outputs;
            && |outputs| == 2 && outputs[0] == Token(q.sender, q.amount, Deposit(q.template))
            && outputs[1].Plain? && outputs[1].owner == q.sender
  {
    hide Prepare, Picked, NoRepeats, Sum, Deposits, Amounts, Values;
    PreparedShape(q, fees, Prepare(q, fees).value);
  }

  lemma BorrowedStays(l: Ledger, r: Request, q: Request, fees: FeeOracle)
    requires BorrowAllowed(r) && HoldsBorrowed(l, r)
    requires q.borrowed.None? && q.sender == r.sender && Backs(l, q, q.cells, q.funding)
    requires Prepare(q, fees).Success?
    ensures HoldsBorrowed(After(l, Prepare(q, fees).value.tx), r)
  {
    hide Prepare, Chained, Applies, Distinct;
    PreparedStepApplies(l, q, fees);
    var step := Prepare(q, fees).value;
    AfterIsChained(l, step.tx, step.fee);
    if r.borrowed.Some? && r.borrowed.value.cell.at in step.tx.inputs {
      InputsAreKnown(q, fees, r.borrowed.value.cell.at);
    }
  }

  // ----- the whole chain -------------------------------------------------------------------------

  /** The recipient holds the payment, merged into the borrowed cell if there was one, as output 0 of `tx`. */
  ghost predicate Paid(l: Ledger, r: Request, tx: Tx) {
    var at := Outpoint(Hash(tx), 0);
    && at in l.live && l.live[at].Token? && l.live[at].owner == r.recipient
    && l.live[at].tokens == BorrowedTokens(r) + r.amount
  }

  /** Apart from the payment at `paid`, the sender still holds everything else those cells were worth. */
  ghost predicate KeepsRest(l: Ledger, r: Request, cells: seq<Cell>, paid: Outpoint) {
    exists rest: seq<Cell> ::
      && HoldsCells(l, r.sender, rest)
      && (forall c :: c in rest ==> c.at != paid)
      && Sum(Amounts(rest)) + r.amount == Sum(Amounts(cells))
  }

  lemma FinalRoundShape(r: Request, fees: FeeOracle, order: Outpoint -> int, cells: seq<Cell>, funding: seq<Funding>)
    requires r.amount > 0
    requires NextRound(r, fees, order, cells, funding).Success?
    requires NextRound(r, fees, order, cells, funding).value.Final?
    ensures var sorted := SortCells(cells, order);
            var n := Min(|sorted|, FinalLimit(r));
            Prepare(r.(cells := sorted[..n], funding := funding), fees)
              == Success(NextRound(r, fees, order, cells, funding).value.step)
  {
    hide Prepare, SortCells, Required, Amounts, Sum, NextFunding, Merged;
  }

  lemma FinalRoundPays(l: Ledger, r: Request, fees: FeeOracle, order: Outpoint -> int,
                       cells: seq<Cell>, funding: seq<Funding>)
    requires r.amount > 0 && BorrowAllowed(r) && Backs(l, r, cells, funding)
    requires forall c :: c in cells ==> c.at !in Places(BorrowedCells(r))
    requires NextRound(r, fees, order, cells, funding).Success?
    requires NextRound(r, fees, order, cells, funding).value.Final?
    ensures var step := NextRound(r, fees, order, cells, funding).value.step;
            && Applies(l, step.tx, step.fee)
            && Paid(After(l, step.tx), r, step.tx)
            && KeepsRest(After(l, step.tx), r, cells, Outpoint(Hash(step.tx), 0))
  {
    hide NextRound, Prepare, SortCells, Chained, Applies, Sum, Amounts, Places, TokenOutputs, Executes;
    FinalRoundShape(r, fees, order, cells, funding);
    var sorted := SortCells(cells, order);
    var n := Min(|sorted|, FinalLimit(r));
    var selected, kept := sorted[..n], sorted[n..];
    var q := r.(cells := selected, funding := funding);
    var step := NextRound(r, fees, order, cells, funding).value.step;
    SortedIsHeld(l, r.sender, cells, order, n);
    BorrowedIsApart(r, cells, kept, order);
    OthersStay(l, q, fees, r.sender, kept);
    AfterIsChained(l, step.tx, step.fee);
    FinalOutputs(q, fees);
    var after := After(l, step.tx);
    SplitTotal(cells, order, n);
    var change := Sum(Amounts(selected)) - r.amount;
    if change == 0 {
      assert HoldsCells(after, r.sender, kept);
      assert forall c :: c in kept ==> c.at != Outpoint(Hash(step.tx), 0);
    } else {
      var cell := Cell(Outpoint(Hash(step.tx), 1), change, Deposit(r.template));
      AddFreshCell(after, r.sender, kept, cell);
      ChangeAdds(kept, cell);
      assert HoldsCells(after, r.sender, kept + [cell]);
    }
  }

  lemma ChangeAdds(kept: seq<Cell>, c: Cell)
    ensures Sum(Amounts(kept + [c])) == Sum(Amounts(kept)) + c.tokens
  {
    ProjectionsConcat(kept, [c]);
    assert Amounts([c]) == [c.tokens];
    SumConcat(Amounts(kept), [c.tokens]);
  }

  lemma SplitTotal(cells: seq<Cell>, order: Outpoint -> int, n: nat)
    requires n <= |SortCells(cells, order)|
    ensures Sum(Amounts(SortCells(cells, order)[..n])) + Sum(Amounts(SortCells(cells, order)[n..]))
         == Sum(Amounts(cells))
  {
    hide SortCells;
    var sorted := SortCells(cells, order);
    SortProjections(cells, order);
    ProjectionsConcat(sorted[..n], sorted[n..]);
    SumConcat(Amounts(sorted[..n]), Amounts(sorted[n..]));
    assert sorted == sorted[..n] + sorted[n..];
  }

  lemma BorrowedIsApart(r: Request, cells: seq<Cell>, kept: seq<Cell>, order: Outpoint -> int)
    requires forall c :: c in cells ==> c.at !in Places(BorrowedCells(r))
    requires forall c :: c in kept ==> c in SortCells(cells, order)
    ensures forall a, b :: a in BorrowedCells(r) && b in kept ==> a.at != b.at
  {
    hide SortCells;
    forall b | b in kept ensures b in cells {
      assert b in multiset(SortCells(cells, order));
    }
    forall a, b | a in BorrowedCells(r) && b in kept ensures a.at != b.at {
      assert Places(BorrowedCells(r))[0] == a.at;
    }
  }

  lemma FinalOutputs(q: Request, fees: FeeOracle)
    requires Prepare(q, fees).Success?
    ensures var outputs := Prepare(q, fees).value.tx.outputs;
            var change := Sum(Amounts(q.cells)) - q.amount;
            && change >= 0 && outputs != []
            && outputs[0].Token? && outputs[0].owner == q.recipient && outputs[0].tokens == BorrowedTokens(q) + q.amount
            && (change > 0 ==> |outputs| > 1 && outputs[1] == Token(q.sender, change, Deposit(q.template)))
  {
    hide Prepare, Picked, NoRepeats, Sum, Deposits, Amounts, Values;
    PreparedShape(q, fees, Prepare(q, fees).value);
  }

  lemma {:induction false} ChainExecutes(l: Ledger, r: Request, fees: FeeOracle, order: Outpoint -> int,
                                         cells: seq<Cell>, funding: seq<Funding>, done: nat, paid: nat)
    requires 0 < r.amount && done <= MAX_STEPS && BorrowAllowed(r) && Backs(l, r, cells, funding)
    requires forall c :: c in cells ==> c.at !in Places(BorrowedCells(r))
    requires PlanFrom(r, fees, order, cells, funding, done, paid).Success?
    ensures var steps := PlanFrom(r, fees, order, cells, funding, done, paid).value.steps;
            && steps != [] && Executes(l, steps)
            && Paid(Finally(l, steps), r, steps[|steps| - 1].tx)
            && KeepsRest(Finally(l, steps), r, cells, Outpoint(Hash(steps[|steps| - 1].tx), 0))
    decreases MAX_STEPS - done
  {
    hide NextRound, SortCells, Prepare, Chained, Applies, After, HoldsCells, HoldsFunding, Sum, Amounts;
    var round := NextRound(r, fees, order, cells, funding).value;
    var steps := PlanFrom(r, fees, order, cells, funding, done, paid).value.steps;
    assert steps[0] == round.step;
    if round.Final? {
      FinalRoundPays(l, r, fees, order, cells, funding);
    } else {
      CompoundRoundIsBacked(l, r, fees, order, cells, funding);
      NextCellsApart(l, r, fees, order, cells, funding);
      var next := After(l, round.step.tx);
      ChainExecutes(next, r, fees, order, round.cells, round.funding, done + 1, paid + round.step.fee);
      var rest := PlanFrom(r, fees, order, round.cells, round.funding, done + 1, paid + round.step.fee).value.steps;
      assert steps[1..] == rest && steps[|steps| - 1] == rest[|rest| - 1];
      L.CompoundRoundNeeds(r, fees, order, cells, funding);
    }
  }

  lemma NextCellsApart(l: Ledger, r: Request, fees: FeeOracle, order: Outpoint -> int, cells: seq<Cell>,
                       funding: seq<Funding>)
    requires r.amount > 0 && BorrowAllowed(r) && Backs(l, r, cells, funding)
    requires forall c :: c in cells ==> c.at !in Places(BorrowedCells(r))
    requires NextRound(r, fees, order, cells, funding).Success?
    requires NextRound(r, fees, order, cells, funding).value.Compound?
    ensures forall c :: c in NextRound(r, fees, order, cells, funding).value.cells ==> c.at !in Places(BorrowedCells(r))
  {
    hide NextRound, SortCells, Prepare, Sum, Amounts, NextFunding, L.Needed;
    L.CompoundRound(r, fees, order, cells, funding);
    CompoundRoundIsBacked(l, r, fees, order, cells, funding);
    var round := NextRound(r, fees, order, cells, funding).value;
    AfterIsChained(l, round.step.tx, round.step.fee);
    forall c | c in round.cells
      ensures c.at !in Places(BorrowedCells(r))
    {
      if c in SortCells(cells, order) {
        assert c in multiset(SortCells(cells, order));
      } else {
        assert c.at == Outpoint(Hash(round.step.tx), 0) && c.at !in l.live;
      }
    }
  }

  /**
   Any plan the planner returns runs on any ledger that backs its request: each step in turn is a valid
   transaction, the recipient ends up with the payment and the sender with all the rest.
   */
  lemma PlanExecutes(l: Ledger, r: Request, fees: FeeOracle, order: Outpoint -> int)
    requires Backs(l, r, r.cells, r.funding) && PreparePlan(r, fees, order).Success?
    ensures var steps := PreparePlan(r, fees, order).value.steps;
            && steps != [] && Executes(l, steps)
            && Paid(Finally(l, steps), r, steps[|steps| - 1].tx)
            && KeepsRest(Finally(l, steps), r, r.cells, Outpoint(Hash(steps[|steps| - 1].tx), 0))
  {
    hide PlanFrom, Chained, Executes, Paid, KeepsRest, Finally, Sum, Amounts, Distinct;
    CheckedApart(r);
    ChainExecutes(l, r, fees, order, r.cells, r.funding, 0, 0);
  }

  lemma CheckedApart(r: Request)
    requires Checked(r).Success?
    ensures r.amount > 0 && BorrowAllowed(r)
    ensures forall c :: c in r.cells ==> c.at !in Places(BorrowedCells(r))
  {
    hide Sum, Amounts;
    if r.borrowed.Some? {
      var all := AllCells(r);
      assert Places(all)[0] == all[0].at && Places(BorrowedCells(r)) == [all[0].at];
      forall c | c in r.cells ensures c.at != all[0].at {
        var i :| 0 <= i < |r.cells| && r.cells[i] == c;
        assert Places(all)[1..][i] == c.at;
      }
    }
  }

  // ----- what any executed chain guarantees --------------------------------------------------------

  /** Whatever has been spent stays spent. */
  lemma {:induction false} SpentStaysSpent(l: Ledger, steps: seq<Step>, k: nat)
    requires Chained(l) && Executes(l, steps) && k < |steps|
    ensures forall o :: o in steps[k].tx.inputs ==> o !in l.spent
    decreases |steps|
  {
    if k > 0 {
      AfterIsChained(l, steps[0].tx, steps[0].fee);
      SpentStaysSpent(After(l, steps[0].tx), steps[1..], k - 1);
    }
  }

  /** No two steps of an executed chain spend the same outpoint. */
  lemma {:induction false} NoDoubleSpend(l: Ledger, steps: seq<Step>, j: nat, k: nat)
    requires Chained(l) && Executes(l, steps) && j < k < |steps|
    ensures forall o :: o in steps[j].tx.inputs ==> o !in steps[k].tx.inputs
    decreases |steps|
  {
    hide Chained, Applies, Created;
    var next := After(l, steps[0].tx);
    AfterIsChained(l, steps[0].tx, steps[0].fee);
    if j == 0 {
      SpentStaysSpent(next, steps[1..], k - 1);
    } else {
      NoDoubleSpend(next, steps[1..], j - 1, k - 1);
    }
  }

  /** Every input existed before the chain or is an output of an earlier step. */
  lemma {:induction false} InputsExist(l: Ledger, steps: seq<Step>, k: nat, o: Outpoint)
    requires Executes(l, steps) && k < |steps| && o in steps[k].tx.inputs
    ensures o in l.live || exists j :: 0 <= j < k && o.id == Hash(steps[j].tx) && o.index < |steps[j].tx.outputs|
    decreases |steps|
  {
    if k > 0 {
      InputsExist(After(l, steps[0].tx), steps[1..], k - 1, o);
      if j :| 0 <= j < k - 1 && o.id == Hash(steps[1..][j].tx) && o.index < |steps[1..][j].tx.outputs| {
        assert steps[j + 1] == steps[1..][j];
      } else {
        assert o in l.live || o in Created(steps[0].tx);
      }
    }
  }

  function Fees(steps: seq<Step>): nat {
    if steps == [] then 0 else steps[0].fee + Fees(steps[1..])
  }

  /** The total the user approves is the sum of what the steps pay. */
  lemma {:induction false} TotalFeeIsPaid(r: Request, fees: FeeOracle, order: Outpoint -> int, cells: seq<Cell>,
                                          funding: seq<Funding>, done: nat, paid: nat)
    requires r.amount > 0 && done <= MAX_STEPS
    requires PlanFrom(r, fees, order, cells, funding, done, paid).Success?
    ensures var plan := PlanFrom(r, fees, order, cells, funding, done, paid).value;
            plan.totalFee == paid + Fees(plan.steps) <= U64_MAX
    decreases MAX_STEPS - done
  {
    hide NextRound;
    var round := NextRound(r, fees, order, cells, funding).value;
    var total := paid + round.step.fee;
    if round.Final? {
      assert [round.step][1..] == [];
    } else {
      TotalFeeIsPaid(r, fees, order, round.cells, round.funding, done + 1, total);
      var rest := PlanFrom(r, fees, order, round.cells, round.funding, done + 1, total).value;
      assert ([round.step] + rest.steps)[1..] == rest.steps;
    }
  }
}
