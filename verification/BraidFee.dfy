/** The partner fee: its rate, its beneficiary, and what bounds it in every kind of swap. */
module BraidFee {
  import opened Wrappers
  import opened Words
  import opened BraidPool

  datatype Beneficiary = Nobody | Partner | Somebody
  datatype Asset = Kas | Coin(id: string)

  /** The fee-relevant fields of the approved terms and of the router terms. */
  datatype Terms = Terms(feeBps: Option<i64>, walletFee: i64, wfee: i64, beneficiary: Beneficiary, tkFloor: i64,
                         midMin: Option<i64>, feeBasis: i64, feeCarrier: i64, amountIn: i64, slippageBps: i64,
                         payTotal: i64, quotedAmountOut: i64, kasBack: i64, minOut: i64, from: Asset, to: Asset)

  datatype Objection = UnexpectedFee | RateOrBeneficiary | FloorWithoutFee | StagedFee | CarrierOrFloor | TokenShare
                     | KasFeeOrFloor | SaleBasis | AboveOnePercent | BadValuation

  /** The independent pool valuation of the sold token: slippage floor and gross proceeds. */
  type Valuation = Result<(nat, nat), Refusal>

  predicate Staged(t: Terms) {
    t.midMin.Some? && t.midMin.value > 0
  }

  function StagedFee(t: Terms, v: Valuation): Result<nat, Objection> {
    match v
    case Failure(_) => Failure(BadValuation)
    case Success((_, gross)) =>
      if t.slippageBps > 500 then Failure(BadValuation)
      else
        var floor := FloorOf(gross, t.slippageBps);
        if t.tkFloor != 0 || t.feeCarrier != 0 || !(floor <= t.feeBasis <= gross) || t.wfee < 10_000_000
           || t.wfee > t.feeBasis / 100
        then Failure(Objection.StagedFee)
        else Success(0)
  }

  /** The most tokens the fee may take. */
  function MaximumFee(amount: nat, floor: nat, carrier: nat): nat
    requires floor / 100 > carrier
  {
    var share: nat := floor / 100 - carrier;
    MulMono(0, amount, share);
    amount * share / floor
  }

  /** Tokens for tokens: the fee is a number of tokens, worth one percent together with the carrier KAS. */
  function TokenFee(t: Terms, v: Valuation): Result<nat, Objection> {
    match v
    case Failure(_) => Failure(BadValuation)
    case Success((floor, _)) =>
      if !(10_000_000 <= t.feeCarrier <= 50_000_000) || t.tkFloor != floor || floor / 100 <= t.feeCarrier
      then Failure(CarrierOrFloor)
      else
        if t.wfee != MaximumFee(t.amountIn, floor, t.feeCarrier) || t.wfee > t.amountIn / 50 then Failure(TokenShare)
        else Success(t.feeCarrier)
  }

  function SaleBasis(t: Terms): Result<nat, Objection> {
    if t.quotedAmountOut < t.kasBack then Failure(Objection.SaleBasis)
    else
      var basis := t.quotedAmountOut - t.kasBack;
      if !(1 <= t.slippageBps <= 500)
         || t.minOut < Max(0, t.quotedAmountOut - (basis * t.slippageBps + 9999) / 10000)
      then Failure(Objection.SaleBasis)
      else Success(basis)
  }

  function KasFee(t: Terms): Result<nat, Objection> {
    if t.tkFloor != 0 || t.wfee < 10_000_000 then Failure(KasFeeOrFloor)
    else
      var basis := if t.from.Kas? then Success(t.payTotal) else SaleBasis(t);
      match basis
      case Failure(e) => Failure(e)
      case Success(b) => if t.wfee > b / 100 then Failure(AboveOnePercent) else Success(0)
  }

  /** The carrier KAS the deposit has to add, or why the fee is turned down. */
  function PartnerFee(t: Terms, v: Valuation, mainnet: bool): Result<nat, Objection> {
    if t.feeBps.None? && !mainnet then
      if t.wfee == 0 && t.beneficiary == Nobody && t.tkFloor == 0 then Success(0) else Failure(UnexpectedFee)
    else if t.feeBps != Some(100) || t.wfee != t.walletFee
            || t.beneficiary != (if t.wfee == 0 then Nobody else Partner)
    then Failure(RateOrBeneficiary)
    else if t.wfee == 0 then if t.tkFloor != 0 then Failure(FloorWithoutFee) else Success(0)
    else if Staged(t) then StagedFee(t, v)
    else if !t.from.Kas? && !t.to.Kas? then TokenFee(t, v)
    else KasFee(t)
  }

  // ----- the token fee ------------------------------------------------------------------------------------

  /** `fee` tokens valued at the floor, plus the carrier, stay within one percent (of the floor, in whole sompi). */
  predicate WithinShare(amount: nat, floor: nat, carrier: nat, fee: nat) {
    fee * floor <= amount * (floor / 100 - carrier)
  }

  ghost predicate IsLargestShare(amount: nat, floor: nat, carrier: nat, fee: nat) {
    && WithinShare(amount, floor, carrier, fee)
    && forall more: nat :: more > fee ==> !WithinShare(amount, floor, carrier, more)
  }

  lemma WithinExactly(amount: nat, floor: nat, carrier: nat, fee: nat)
    requires floor / 100 > carrier
    ensures WithinShare(amount, floor, carrier, fee) <==> fee <= MaximumFee(amount, floor, carrier)
  {
    var n := amount * (floor / 100 - carrier);
    DivisionBounds(n, floor);
    if fee <= n / floor {
      MulMono(fee, n / floor, floor);
    } else {
      MulMono(n / floor + 1, fee, floor);
    }
  }

  lemma QuotientIsLargest(amount: nat, floor: nat, carrier: nat, fee: nat)
    requires floor / 100 > carrier
    ensures IsLargestShare(amount, floor, carrier, fee) <==> fee == MaximumFee(amount, floor, carrier)
  {
    hide WithinShare, MaximumFee;
    var q := MaximumFee(amount, floor, carrier);
    forall f: nat ensures WithinShare(amount, floor, carrier, f) <==> f <= q {
      WithinExactly(amount, floor, carrier, f);
    }
    assert WithinShare(amount, floor, carrier, q) && !WithinShare(amount, floor, carrier, q + 1);
  }

  /** A percent of the floor, spread over the amount, is at most a percent of the amount. */
  lemma ShareBelowPercent(amount: nat, floor: nat, carrier: nat, fee: nat)
    requires floor / 100 > carrier && WithinShare(amount, floor, carrier, fee)
    ensures 100 * (fee * floor + amount * carrier) <= amount * floor
    ensures fee <= amount / 100
  {
    var share := floor / 100;
    assert amount * (share - carrier) == amount * share - amount * carrier;
    MulMono(100 * share, floor, amount);
    assert (100 * share) * amount == 100 * (amount * share) && floor * amount == amount * floor;
    assert 100 * (fee * floor) <= amount * floor;
    assert (100 * fee) * floor == 100 * (fee * floor);
    assert (amount + 1) * floor == amount * floor + floor;
    MulStrict(100 * fee, amount + 1, floor);
  }

  /**
   Between tokens the accepted fee is the one largest number of tokens that, valued at the floor and together
   with the carrier, is within one percent; the extra two-percent guard never decides anything.
   */
  lemma TokenFeeExactly(t: Terms, v: Valuation)
    requires v.Success?
    ensures var (floor, _) := v.value;
            TokenFee(t, v) == Success(t.feeCarrier) <==>
              && 10_000_000 <= t.feeCarrier <= 50_000_000 && t.tkFloor == floor && floor / 100 > t.feeCarrier
              && IsLargestShare(t.amountIn, floor, t.feeCarrier, t.wfee)
    ensures TokenFee(t, v).Success? ==>
              && 100 * (t.wfee * v.value.0 + t.amountIn * t.feeCarrier) <= t.amountIn * v.value.0
              && t.wfee <= t.amountIn / 100
  {
    hide MaximumFee;
    var (floor, _) := v.value;
    if floor / 100 > t.feeCarrier {
      QuotientIsLargest(t.amountIn, floor, t.feeCarrier, t.wfee);
      if IsLargestShare(t.amountIn, floor, t.feeCarrier, t.wfee) {
        ShareBelowPercent(t.amountIn, floor, t.feeCarrier, t.wfee);
        assert t.amountIn / 100 <= t.amountIn / 50;
      }
    }
  }

  /** No product of the token fee exceeds a 128-bit word. */
  lemma TokenFeeInRange(t: Terms, floor: nat)
    requires floor <= I64_MAX && floor / 100 > t.feeCarrier
    ensures t.amountIn * (floor / 100 - t.feeCarrier) < U128_LIMIT
  {
    MulBound(t.amountIn, I64_MAX, floor / 100 - t.feeCarrier, I64_MAX);
  }

  // ----- every fee ----------------------------------------------------------------------------------------------

  /** What one percent is taken of: the staged basis, the total paid, or the sale proceeds. */
  function Basis(t: Terms): int {
    if Staged(t) then t.feeBasis else if t.from.Kas? then t.payTotal else t.quotedAmountOut - t.kasBack
  }

  /**
   Whatever the swap, an accepted fee is at most one percent, goes to the partner, and is the approved one.
   In a staged sale the basis is itself within the independently computed gross proceeds.
   */
  lemma FeeIsAtMostOnePercent(t: Terms, v: Valuation, mainnet: bool)
    requires PartnerFee(t, v, mainnet).Success? && t.wfee > 0
    ensures t.beneficiary == Partner && t.wfee == t.walletFee
    ensures if !Staged(t) && !t.from.Kas? && !t.to.Kas? then
              100 * (t.wfee * v.value.0 + t.amountIn * t.feeCarrier) <= t.amountIn * v.value.0
            else 100 * t.wfee <= Basis(t)
    ensures Staged(t) ==> v.Success? && Basis(t) <= v.value.1
  {
    if !Staged(t) && !t.from.Kas? && !t.to.Kas? {
      hide IsLargestShare;
      TokenFeeExactly(t, v);
    }
  }

  /** In a sale for KAS the seller's guaranteed payout is at least 95 times the fee. */
  lemma SaleFeeIsSmall(t: Terms, v: Valuation, mainnet: bool)
    requires PartnerFee(t, v, mainnet).Success? && t.wfee > 0
    requires !Staged(t) && !t.from.Kas? && t.to.Kas?
    ensures t.minOut >= 95 * t.wfee
  {
    var basis := t.quotedAmountOut - t.kasBack;
    MulMono(t.slippageBps, 500, basis);
    assert t.slippageBps * basis == basis * t.slippageBps;
  }

  // ----- exactly which fees are accepted ----------------------------------------------------------------------------

  /** No fee at all: nobody is paid, and no token floor is set. */
  predicate FeeFree(t: Terms) {
    t.wfee == 0 && t.beneficiary == Nobody && t.tkFloor == 0
  }

  /** One percent of a basis within the slippage of the independently computed gross. */
  predicate StagedPercent(t: Terms, gross: nat) {
    && t.slippageBps <= 500 && t.tkFloor == 0 && t.feeCarrier == 0 && t.feeBasis <= gross
    && gross * (10000 - t.slippageBps) < 10000 * (t.feeBasis + 1)
    && 10_000_000 <= t.wfee && 100 * t.wfee <= t.feeBasis
  }

  /** The largest token fee within one percent, together with a carrier of 0.1 to 0.5 KAS. */
  ghost predicate TokenPercent(t: Terms, floor: nat) {
    && 10_000_000 <= t.feeCarrier <= 50_000_000 && t.tkFloor == floor && floor / 100 > t.feeCarrier
    && IsLargestShare(t.amountIn, floor, t.feeCarrier, t.wfee)
  }

  /** One percent of what is paid, or of the proceeds of a sale whose payout is guaranteed within the slippage. */
  predicate KasPercent(t: Terms) {
    && t.tkFloor == 0 && 10_000_000 <= t.wfee
    && if t.from == Kas then 100 * t.wfee <= t.payTotal
       else 100 * t.wfee <= t.quotedAmountOut - t.kasBack && Guaranteed(t)
  }

  /** The sale's payout falls short of the quote by no more than the slippage on its proceeds, rounded up. */
  predicate Guaranteed(t: Terms) {
    && 1 <= t.slippageBps <= 500 && t.quotedAmountOut >= t.kasBack
    && (t.quotedAmountOut <= t.minOut
        || 10000 * (t.quotedAmountOut - t.minOut - 1) < (t.quotedAmountOut - t.kasBack) * t.slippageBps)
  }

  lemma AtLeastFloor(gross: nat, slip: nat, basis: nat)
    requires slip <= 500
    ensures FloorOf(gross, slip) <= basis <==> gross * (10000 - slip) < 10000 * (basis + 1)
  {
  }

  lemma StagedExactly(t: Terms, v: Valuation)
    ensures StagedFee(t, v).Success? <==> v.Success? && StagedPercent(t, v.value.1)
    ensures StagedFee(t, v).Success? ==> StagedFee(t, v).value == 0
  {
    if v.Success? && t.slippageBps <= 500 {
      AtLeastFloor(v.value.1, t.slippageBps, t.feeBasis);
    }
  }

  lemma TokenExactly(t: Terms, v: Valuation)
    ensures TokenFee(t, v).Success? <==> v.Success? && TokenPercent(t, v.value.0)
    ensures TokenFee(t, v).Success? ==> TokenFee(t, v).value == t.feeCarrier
  {
    hide MaximumFee, IsLargestShare;
    if v.Success? {
      TokenFeeExactly(t, v);
    }
  }

  lemma CeilingExactly(n: nat, less: nat)
    ensures less <= (n + 9999) / 10000 <==> less == 0 || 10000 * (less - 1) < n
  {
  }

  lemma SaleExactly(t: Terms)
    ensures SaleBasis(t).Success? <==> Guaranteed(t)
    ensures SaleBasis(t).Success? ==> SaleBasis(t).value == t.quotedAmountOut - t.kasBack
  {
    if t.quotedAmountOut >= t.kasBack && t.quotedAmountOut > t.minOut {
      MulMono(0, t.quotedAmountOut - t.kasBack, t.slippageBps);
      CeilingExactly((t.quotedAmountOut - t.kasBack) * t.slippageBps, t.quotedAmountOut - t.minOut);
    }
  }

  lemma KasExactly(t: Terms)
    ensures KasFee(t).Success? <==> KasPercent(t)
    ensures KasFee(t).Success? ==> KasFee(t).value == 0
  {
    hide SaleBasis, Guaranteed;
    SaleExactly(t);
    GuaranteedHasBasis(t);
  }

  lemma GuaranteedHasBasis(t: Terms)
    ensures Guaranteed(t) ==> t.quotedAmountOut >= t.kasBack
  {
  }

  /**
   Exactly which fees are accepted: none at all, or the approved rate of one hundredth paid to the partner, in tokens,
   staged, or in KAS. Only the token fee asks for a carrier in the deposit.
   */
  lemma AcceptedExactly(t: Terms, v: Valuation, mainnet: bool)
    ensures PartnerFee(t, v, mainnet).Success? <==>
              || (t.feeBps == None && !mainnet && FeeFree(t))
              || (t.feeBps == Some(100) && t.wfee == t.walletFee == 0 && FeeFree(t))
              || (t.feeBps == Some(100) && t.wfee == t.walletFee > 0 && t.beneficiary == Partner
                  && if t.midMin.Some? && t.midMin.value >= 1 then v.Success? && StagedPercent(t, v.value.1)
                     else if t.from != Kas && t.to != Kas then v.Success? && TokenPercent(t, v.value.0)
                     else KasPercent(t))
    ensures PartnerFee(t, v, mainnet).Success? ==>
              PartnerFee(t, v, mainnet).value
              == if t.wfee > 0 && !Staged(t) && t.from != Kas && t.to != Kas then t.feeCarrier else 0
  {
    hide StagedFee, TokenFee, KasFee, StagedPercent, TokenPercent, KasPercent;
    StagedExactly(t, v);
    TokenExactly(t, v);
    KasExactly(t);
  }
}
