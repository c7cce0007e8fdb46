/**
 What the token contract asks of a transfer, and that every step of a plan meets it and pays exactly the fee worked
 out for it.
 */
module TokenPlanContract {
  import opened Wrappers
  import opened Words
  import opened Ledger
  import opened TokenCells
  import opened TokenPlan
  import opened TokenPlanLedger
  import L = TokenPlanLength

  /** The token cells among some coins. */
  function TokensOf(cs: seq<Coin>): seq<Coin> {
    if cs == [] then [] else (if cs[0].Token? then [cs[0]] else []) + TokensOf(cs[1..])
  }

  /**
   The contract's verdict on spending the cells `ins` and creating the cells `outs` with a signature of `signer`. The
   first cell leads. If it is lent, its owner does not sign: the first new cell must be that owner's again, hold more
   than the threshold on top, and no less KAS.
   */
  predicate ContractAllows(limit: nat, ins: seq<Coin>, outs: seq<Coin>, lent: Option<nat>, signer: Address) {
    && 1 <= |ins| <= limit && 1 <= |outs| <= limit && TokenTotal(ins) == TokenTotal(outs)
    && (forall k :: 1 <= k < |ins| ==> ins[k].owner == signer)
    && match lent
       case None => ins[0].owner == signer
       case Some(threshold) =>
         && outs[0].owner == ins[0].owner
         && Tokens(outs[0]) > Tokens(ins[0]) + threshold && outs[0].value >= ins[0].value
  }

  /** The fee of a step is the one asked of its inputs, its token outputs and what it spends, and change is left. */
  ghost predicate PaysItsFee(fees: FeeOracle, step: Step) {
    var tx, last := step.tx, |step.tx.outputs| - 1;
    && last >= 1 && tx.outputs[last].Plain? && tx.outputs[last].value >= 10_000
    && fees(tx.inputs, tx.outputs[..last], Values(tx.outputs) + step.fee) == Some(step.fee)
  }

  ghost predicate StepMeets(l: Ledger, r: Request, fees: FeeOracle, step: Step, final: bool)
    requires forall o :: o in step.tx.inputs ==> o in l.live
  {
    var ins, outs := TokensOf(CoinsAt(l, step.tx.inputs)), TokensOf(step.tx.outputs);
    var lent := if final && r.borrowed.Some? then Some(r.borrowed.value.threshold) else None;
    && PaysItsFee(fees, step)
    && ContractAllows(if r.template.Reference10? then 10 else 3, ins, outs, lent, r.sender)
    && outs[0].owner == (if final then r.recipient else r.sender)
    && (forall k :: 1 <= k < |outs| ==> outs[k].owner == r.sender)
    && (forall k :: 0 <= k < |outs| ==>
          outs[k].value
          == Max(if k == 0 && lent.Some? then ins[0].value else 0,
                 if r.template.KassealOwner? then 500_000_000 else 100_000_000))
    && step.tx.outputs[|step.tx.outputs| - 1].owner == r.sender
  }

  /** Each step meets the contract on the ledger the steps before it leave. */
  ghost predicate ChainMeets(l: Ledger, r: Request, fees: FeeOracle, steps: seq<Step>)
    decreases |steps|
  {
    && steps != []
    && (forall o :: o in steps[0].tx.inputs ==> o in l.live)
    && StepMeets(l, r, fees, steps[0], |steps| == 1)
    && (|steps| > 1 ==> ChainMeets(After(l, steps[0].tx), r, fees, steps[1..]))
  }

  // ----- one step ---------------------------------------------------------------------------------------------

  lemma PreparedPaysItsFee(q: Request, fees: FeeOracle)
    requires Prepare(q, fees).Success?
    ensures PaysItsFee(fees, Prepare(q, fees).value)
  {
    hide Picked, NoRepeats, Sum, Deposits, Amounts, TokenOutputs, Inputs, InputTotal, TransferAllowed;
    var outputs := Outputs(q);
    var step := Prepare(q, fees).value;
    var change := Plain(q.sender, KasChange(q, step.fee));
    assert TokenOutputs(q, Change(q)) != [] by { StepTokens(q, Change(q)); }
    assert step.tx.outputs == outputs + [change] && step.tx.outputs[..|outputs|] == outputs;
    TotalsConcat(outputs, [change]);
    assert [change][1..] == [];
  }

  lemma {:induction false} AllTokens(cs: seq<Coin>)
    requires forall c :: c in cs ==> c.Token?
    ensures TokensOf(cs) == cs
  {
    if cs != [] {
      AllTokens(cs[1..]);
      assert cs == [cs[0]] + cs[1..] && cs[0] in cs;
    }
  }

  lemma {:induction false} NoTokens(cs: seq<Coin>)
    requires forall c :: c in cs ==> c.Plain?
    ensures TokensOf(cs) == []
  {
    if cs != [] {
      NoTokens(cs[1..]);
      assert cs[0] in cs;
    }
  }

  lemma {:induction false} TokensConcat(a: seq<Coin>, b: seq<Coin>)
    ensures TokensOf(a + b) == TokensOf(a) + TokensOf(b)
  {
    if a == [] {
      assert a + b == b;
    } else {
      assert (a + b)[0] == a[0] && (a + b)[1..] == a[1..] + b;
      TokensConcat(a[1..], b);
      var head := if a[0].Token? then [a[0]] else [];
      assert (head + TokensOf(a[1..])) + TokensOf(b) == head + (TokensOf(a[1..]) + TokensOf(b));
    }
  }

  lemma {:induction false} CoinAt(l: Ledger, at: seq<Outpoint>, k: nat)
    requires (forall o :: o in at ==> o in l.live) && k < |at|
    ensures at[k] in l.live && CoinsAt(l, at)[k] == l.live[at[k]]
  {
    assert at[k] in at;
    if k > 0 {
      CoinAt(l, at[1..], k - 1);
    }
  }

  /** The cells a step spends, as the ledger holds them. */
  lemma SpentCells(l: Ledger, q: Request, fees: FeeOracle)
    requires Backs(l, q, q.cells, q.funding) && Prepare(q, fees).Success?
    ensures var inputs := Prepare(q, fees).value.tx.inputs;
            var all := AllCells(q);
            && (forall o :: o in inputs ==> o in l.live)
            && |TokensOf(CoinsAt(l, inputs))| == |all|
            && forall k :: 0 <= k < |all| ==> TokensOf(CoinsAt(l, inputs))[k] == l.live[all[k].at]
  {
    hide Prepare, Picked, TokenOutputs, NoRepeats, Sum, Deposits, Amounts, Chained, Distinct;
    var all, picked := AllCells(q), Picked(q, Outputs(q));
    PreparedShape(q, fees, Prepare(q, fees).value);
    PickedIsOffered(q, Outputs(q));
    var cells, coins := Places(all), FundingPlaces(picked);
    forall o | o in cells ensures o in l.live && l.live[o].Token? {
      var i :| 0 <= i < |all| && cells[i] == o;
      assert all[i] in BorrowedCells(q) || all[i] in q.cells;
    }
    forall o | o in coins ensures o in l.live && l.live[o].Plain? {
      var i :| 0 <= i < |picked| && coins[i] == o;
      assert picked[i] in q.funding;
    }
    CoinsAtConcat(l, cells, coins);
    TokensConcat(CoinsAt(l, cells), CoinsAt(l, coins));
    forall k | 0 <= k < |cells| ensures CoinsAt(l, cells)[k] == l.live[all[k].at] && CoinsAt(l, cells)[k].Token? {
      CoinAt(l, cells, k);
      assert cells[k] in cells;
    }
    AllTokens(CoinsAt(l, cells));
    forall k | 0 <= k < |coins| ensures CoinsAt(l, coins)[k].Plain? {
      CoinAt(l, coins, k);
      assert coins[k] in coins;
    }
    NoTokens(CoinsAt(l, coins));
  }

  /** The cells a step creates. */
  lemma CreatedCells(q: Request, fees: FeeOracle)
    requires Prepare(q, fees).Success?
    ensures TokensOf(Prepare(q, fees).value.tx.outputs) == Outputs(q)
  {
    hide Prepare, Picked, NoRepeats, Sum, Deposits, Amounts, Values;
    var step := Prepare(q, fees).value;
    PreparedShape(q, fees, step);
    var change := Plain(q.sender, KasChange(q, step.fee));
    TokensConcat(Outputs(q), [change]);
    AllTokens(Outputs(q));
    NoTokens([change]);
  }

  lemma PreparedMeets(l: Ledger, r: Request, q: Request, fees: FeeOracle, final: bool)
    requires Backs(l, q, q.cells, q.funding) && Prepare(q, fees).Success?
    requires q.template == r.template && q.sender == r.sender
    requires final ==> q.borrowed == r.borrowed && q.recipient == r.recipient
    requires !final ==> q.borrowed.None? && q.recipient == r.sender
    ensures forall o :: o in Prepare(q, fees).value.tx.inputs ==> o in l.live
    ensures StepMeets(l, r, fees, Prepare(q, fees).value, final)
  {
    hide Prepare, Picked, NoRepeats, Sum, Deposits, Amounts, Values, Chained, Distinct, PaysItsFee, TokensOf;
    var step := Prepare(q, fees).value;
    PreparedPaysItsFee(q, fees);
    PreparedShape(q, fees, step);
    SpentCells(l, q, fees);
    CreatedCells(q, fees);
    TokensBalance(l, q, fees);
    SpentOwners(l, q);
  }

  lemma SpentOwners(l: Ledger, q: Request)
    requires Backs(l, q, q.cells, q.funding)
    ensures var all := AllCells(q);
            && (forall k :: 1 <= k < |all| ==> all[k].at in l.live && l.live[all[k].at].owner == q.sender)
            && (q.borrowed.None? && all != [] ==> all[0].at in l.live && l.live[all[0].at].owner == q.sender)
            && (q.borrowed.Some? ==>
                  all[0].at in l.live
                  && l.live[all[0].at] == Token(q.recipient, BorrowedTokens(q), q.borrowed.value.cell.value))
  {
    hide Chained, Distinct;
    var all := AllCells(q);
    forall k | 0 <= k < |all| && (k > 0 || q.borrowed.None?)
      ensures all[k].at in l.live && l.live[all[k].at].owner == q.sender {
      assert all[k] in q.cells;
    }
  }

  lemma TokensBalance(l: Ledger, q: Request, fees: FeeOracle)
    requires Backs(l, q, q.cells, q.funding) && Prepare(q, fees).Success?
    ensures var tx := Prepare(q, fees).value.tx;
            && (forall o :: o in tx.inputs ==> o in l.live)
            && TokenTotal(TokensOf(CoinsAt(l, tx.inputs))) == TokenTotal(TokensOf(tx.outputs))
  {
    hide Prepare, Chained, Distinct;
    PreparedStepApplies(l, q, fees);
    var tx := Prepare(q, fees).value.tx;
    TokensCount(CoinsAt(l, tx.inputs));
    TokensCount(tx.outputs);
  }

  lemma {:induction false} TokensCount(cs: seq<Coin>)
    ensures TokenTotal(TokensOf(cs)) == TokenTotal(cs)
  {
    if cs != [] {
      TokensCount(cs[1..]);
      if cs[0].Token? {
        assert TokensOf(cs)[1..] == TokensOf(cs[1..]);
      } else {
        assert TokensOf(cs) == TokensOf(cs[1..]);
      }
    }
  }

  // ----- the whole plan -----------------------------------------------------------------------------------------

  lemma RoundIsPrepared(r: Request, fees: FeeOracle, order: Outpoint -> int, cells: seq<Cell>, funding: seq<Funding>)
    requires r.amount > 0 && NextRound(r, fees, order, cells, funding).Success?
    ensures exists q :: Prepare(q, fees) == Success(NextRound(r, fees, order, cells, funding).value.step)
  {
    hide Prepare, SortCells, Required, Amounts, Sum, NextFunding, Merged;
  }

  lemma {:induction false} StepsPay(r: Request, fees: FeeOracle, order: Outpoint -> int, cells: seq<Cell>,
                                    funding: seq<Funding>, done: nat, paid: nat, k: nat)
    requires r.amount > 0 && done <= MAX_STEPS
    requires PlanFrom(r, fees, order, cells, funding, done, paid).Success?
    requires k < |PlanFrom(r, fees, order, cells, funding, done, paid).value.steps|
    ensures PaysItsFee(fees, PlanFrom(r, fees, order, cells, funding, done, paid).value.steps[k])
    decreases MAX_STEPS - done
  {
    hide NextRound, PaysItsFee, Prepare;
    var round := NextRound(r, fees, order, cells, funding).value;
    RoundIsPrepared(r, fees, order, cells, funding);
    var q :| Prepare(q, fees) == Success(round.step);
    PreparedPaysItsFee(q, fees);
    if k > 0 {
      StepsPay(r, fees, order, round.cells, round.funding, done + 1, paid + round.step.fee, k - 1);
    }
  }

  /** Whatever the request, every step of its plan pays the fee asked of that very transaction. */
  lemma PlanPaysItsFees(r: Request, fees: FeeOracle, order: Outpoint -> int, k: nat)
    requires PreparePlan(r, fees, order).Success? && k < |PreparePlan(r, fees, order).value.steps|
    ensures PaysItsFee(fees, PreparePlan(r, fees, order).value.steps[k])
  {
    hide PlanFrom, PaysItsFee;
    CheckedApart(r);
    StepsPay(r, fees, order, r.cells, r.funding, 0, 0, k);
  }

  lemma FinalMeets(l: Ledger, r: Request, fees: FeeOracle, order: Outpoint -> int, cells: seq<Cell>,
                   funding: seq<Funding>)
    requires r.amount > 0 && Backs(l, r, cells, funding)
    requires NextRound(r, fees, order, cells, funding).Success?
    requires NextRound(r, fees, order, cells, funding).value.Final?
    ensures var step := NextRound(r, fees, order, cells, funding).value.step;
            (forall o :: o in step.tx.inputs ==> o in l.live) && StepMeets(l, r, fees, step, true)
  {
    hide NextRound, Prepare, SortCells, Chained, Sum, Amounts, Places, StepMeets;
    FinalRoundShape(r, fees, order, cells, funding);
    var sorted := SortCells(cells, order);
    var n := Min(|sorted|, FinalLimit(r));
    SortedIsHeld(l, r.sender, cells, order, n);
    PreparedMeets(l, r, r.(cells := sorted[..n], funding := funding), fees, true);
  }

  lemma CompoundMeets(l: Ledger, r: Request, fees: FeeOracle, order: Outpoint -> int, cells: seq<Cell>,
                      funding: seq<Funding>)
    requires r.amount > 0 && Backs(l, r, cells, funding)
    requires NextRound(r, fees, order, cells, funding).Success?
    requires NextRound(r, fees, order, cells, funding).value.Compound?
    ensures var step := NextRound(r, fees, order, cells, funding).value.step;
            (forall o :: o in step.tx.inputs ==> o in l.live) && StepMeets(l, r, fees, step, false)
  {
    hide NextRound, Prepare, SortCells, Chained, Sum, Amounts, Places, StepMeets, L.Needed;
    L.CompoundRound(r, fees, order, cells, funding);
    var sorted, limit := SortCells(cells, order), InputLimit(r.template);
    SortedIsHeld(l, r.sender, cells, order, limit);
    PreparedMeets(l, r, StepRequest(r, true, sorted[..limit], funding), fees, false);
  }

  lemma {:induction false} StepsMeet(l: Ledger, r: Request, fees: FeeOracle, order: Outpoint -> int,
                                     cells: seq<Cell>, funding: seq<Funding>, done: nat, paid: nat)
    requires 0 < r.amount && done <= MAX_STEPS && BorrowAllowed(r) && Backs(l, r, cells, funding)
    requires forall c :: c in cells ==> c.at !in Places(BorrowedCells(r))
    requires PlanFrom(r, fees, order, cells, funding, done, paid).Success?
    ensures ChainMeets(l, r, fees, PlanFrom(r, fees, order, cells, funding, done, paid).value.steps)
    decreases MAX_STEPS - done
  {
    hide NextRound, SortCells, Prepare, Backs, Applies, After, Sum, Amounts, StepMeets, Places;
    var round := NextRound(r, fees, order, cells, funding).value;
    var steps := PlanFrom(r, fees, order, cells, funding, done, paid).value.steps;
    if round.Final? {
      FinalMeets(l, r, fees, order, cells, funding);
    } else {
      CompoundMeets(l, r, fees, order, cells, funding);
      CompoundRoundIsBacked(l, r, fees, order, cells, funding);
      NextCellsApart(l, r, fees, order, cells, funding);
      var next := After(l, round.step.tx);
      StepsMeet(next, r, fees, order, round.cells, round.funding, done + 1, paid + round.step.fee);
      var rest := PlanFrom(r, fees, order, round.cells, round.funding, done + 1, paid + round.step.fee).value.steps;
      assert steps == [round.step] + rest && steps[1..] == rest;
      L.CompoundRoundNeeds(r, fees, order, cells, funding);
    }
  }

  /**
   On any ledger that backs its request, every step of a plan is a transfer the token contract allows: compounding
   steps from the sender to the sender, the last one to the recipient, led by the lent cell if there is one.
   */
  lemma PlanMeetsContract(l: Ledger, r: Request, fees: FeeOracle, order: Outpoint -> int)
    requires Backs(l, r, r.cells, r.funding) && PreparePlan(r, fees, order).Success?
    ensures ChainMeets(l, r, fees, PreparePlan(r, fees, order).value.steps)
  {
    hide PlanFrom, Backs, ChainMeets, Sum, Amounts;
    CheckedApart(r);
    StepsMeet(l, r, fees, order, r.cells, r.funding, 0, 0);
  }

  // ----- which requests are planned at all ------------------------------------------------------------------------

  /** All cells are distinct, the lent one too. */
  ghost predicate OwnPlaces(r: Request) {
    && (forall i, j :: 0 <= i < j < |r.cells| ==> r.cells[i].at != r.cells[j].at)
    && (r.borrowed.Some? ==> forall i :: 0 <= i < |r.cells| ==> r.cells[i].at != r.borrowed.value.cell.at)
  }

  /** Lending: not to oneself, more than the threshold, within the signed range, and never in a KasSeal token. */
  predicate MayBorrow(r: Request, b: Borrowed) {
    && r.sender != r.recipient && r.amount > b.threshold && b.cell.tokens + r.amount < 0x8000_0000_0000_0000
    && r.template != KassealOwner
  }

  lemma {:induction false} NoRepeatsExactly(s: seq<Outpoint>)
    ensures NoRepeats(s) <==> forall i, j :: 0 <= i < j < |s| ==> s[i] != s[j]
  {
    if s != [] {
      NoRepeatsExactly(s[1..]);
      if NoRepeats(s) {
        forall i, j | 0 <= i < j < |s| ensures s[i] != s[j] {
          if i > 0 {
            assert s[1..][i - 1] != s[1..][j - 1];
          } else {
            assert s[j] == s[1..][j - 1];
          }
        }
      } else if s[0] in s[1..] {
        var j :| 0 <= j < |s| - 1 && s[1..][j] == s[0];
        assert s[0] == s[j + 1];
      } else {
        var i, j :| 0 <= i < j < |s| - 1 && s[1..][i] == s[1..][j];
        assert s[i + 1] == s[j + 1];
      }
    }
  }

  /** Where the places of all cells come from. */
  lemma PlaceAt(r: Request)
    ensures var at, n := Places(AllCells(r)), |BorrowedCells(r)|;
            && |at| == n + |r.cells| && n == (if r.borrowed.Some? then 1 else 0)
            && (forall i :: 0 <= i < |r.cells| ==> at[n + i] == r.cells[i].at)
            && (n == 1 ==> at[0] == r.borrowed.value.cell.at)
  {
  }

  lemma OwnPlacesExactly(r: Request)
    ensures NoRepeats(Places(AllCells(r))) <==> OwnPlaces(r)
  {
    hide NoRepeats, Places, AllCells, BorrowedCells;
    PlaceAt(r);
    var at, n := Places(AllCells(r)), |BorrowedCells(r)|;
    NoRepeatsExactly(at);
    if NoRepeats(at) {
      forall i, j | 0 <= i < j < |r.cells| ensures r.cells[i].at != r.cells[j].at {
        assert at[n + i] != at[n + j];
      }
      forall i | 0 <= i < |r.cells| && r.borrowed.Some? ensures r.cells[i].at != r.borrowed.value.cell.at {
        assert at[0] != at[n + i];
      }
    }
    if OwnPlaces(r) {
      forall i, j | 0 <= i < j < |at| ensures at[i] != at[j] {
        assert at[n + (j - n)] == r.cells[j - n].at;
        assert i >= n ==> at[n + (i - n)] == r.cells[i - n].at;
      }
    }
  }

  /** Exactly which requests pass the checks before the first step is planned. */
  lemma CheckedExactly(r: Request)
    ensures Checked(r).Success? <==>
              && 1 <= |r.cells| <= 65 && 0 < r.amount <= Sum(Amounts(r.cells)) < 0x8000_0000_0000_0000
              && (r.borrowed.Some? ==> MayBorrow(r, r.borrowed.value))
              && OwnPlaces(r) && (forall i :: 0 <= i < |r.cells| ==> r.cells[i].tokens > 0)
              && (r.template.KassealOwner? ==> forall c :: c in r.cells ==> c.tokens <= 1_200_000_000)
  {
    hide NoRepeats, Sum, Places, Amounts, OwnPlaces;
    OwnPlacesExactly(r);
    assert (forall i :: 0 <= i < |r.cells| ==> r.cells[i].tokens > 0) <==> !exists c :: c in r.cells && c.tokens == 0;
  }
}
