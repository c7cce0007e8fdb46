/** What selling a token to its pinned pool is worth, in integer arithmetic. */
module BraidPool {
  import opened Wrappers
  import opened Words

  const MILLION := 1_000_000

  /** A machine word of 128 bits: every intermediate result below has to fit. */
  type u128 = x: int | 0 <= x < U128_LIMIT

  /** An integer read from a pool or a quote: the code accepts none above the signed 64-bit range. */
  type i64 = x: int | 0 <= x <= I64_MAX

  // ----- the constant product -----------------------------------------------------------------------

  /** Paying out `payout` while `kept` stays in the pool does not lower the product of the reserves. */
  predicate Keeps(kas: nat, tok: nat, amount: nat, payout: nat, kept: nat) {
    payout + kept <= kas && (kas - payout - kept) * (tok + amount) >= kas * tok
  }

  /** The least `kept` with kept * 10000 * shares >= payout * 20 * (shares - 1000000). */
  ghost predicate IsRetention(shares: nat, payout: nat, kept: nat)
    requires shares >= MILLION
  {
    && kept * (10000 * shares) >= payout * (20 * (shares - MILLION))
    && (kept > 0 ==> (kept - 1) * (10000 * shares) < payout * (20 * (shares - MILLION)))
  }

  /** The part of a payout the pool keeps for its shareholders; never asked for a zero payout. */
  function Retain(shares: nat, payout: nat): (kept: nat)
    requires shares >= MILLION && payout >= 1
    ensures IsRetention(shares, payout, kept)
  {
    if shares == MILLION then 0
    else
      var n, d := payout * (20 * (shares - MILLION)), 10000 * shares;
      CeilingDivision(n, d);
      (n - 1) / d + 1
  }

  lemma CeilingDivision(n: nat, d: nat)
    requires n >= 1 && d >= 1
    ensures ((n - 1) / d + 1) * d >= n
    ensures ((n - 1) / d) * d < n
  {
    var q, r := (n - 1) / d, (n - 1) % d;
    assert n - 1 == q * d + r;
    assert (q + 1) * d == q * d + d;
  }

  /** Retention of any payout, zero included. */
  function Retained(shares: nat, payout: nat): (kept: nat)
    requires shares >= MILLION
    ensures IsRetention(shares, payout, kept)
  {
    if payout == 0 then 0 else Retain(shares, payout)
  }

  predicate KeepsProduct(kas: nat, tok: nat, shares: nat, amount: nat, payout: nat)
    requires shares >= MILLION
  {
    Keeps(kas, tok, amount, payout, Retained(shares, payout))
  }

  lemma MulMono(a: int, b: int, c: int)
    requires a <= b && c >= 0
    ensures a * c <= b * c
  {
  }

  lemma MulStrict(a: int, b: int, c: int)
    requires a * c < b * c && c >= 0
    ensures a < b
  {
    if b <= a {
      MulMono(b, a, c);
    }
  }

  /** A larger payout never has a smaller retention. */
  lemma RetentionGrows(shares: nat, low: nat, high: nat)
    requires shares >= MILLION && low <= high
    ensures Retained(shares, low) <= Retained(shares, high)
  {
    hide Retained;
    var a, b, d := Retained(shares, low), Retained(shares, high), 10000 * shares;
    if a > 0 {
      MulMono(low, high, 20 * (shares - MILLION));
      MulStrict(a - 1, b, d);
    }
  }

  /** So whatever is below a payout that keeps the product keeps it too: the search predicate is monotone. */
  lemma SmallerKeepsToo(kas: nat, tok: nat, shares: nat, amount: nat, low: nat, high: nat)
    requires shares >= MILLION && low <= high && KeepsProduct(kas, tok, shares, amount, high)
    ensures KeepsProduct(kas, tok, shares, amount, low)
  {
    hide Retained;
    RetentionGrows(shares, low, high);
    MulMono(kas - high - Retained(shares, high), kas - low - Retained(shares, low), tok + amount);
  }

  ghost predicate IsLargestPayout(kas: nat, tok: nat, shares: nat, amount: nat, payout: nat)
    requires shares >= MILLION
  {
    && KeepsProduct(kas, tok, shares, amount, payout)
    && forall more: nat :: payout < more < kas ==> !KeepsProduct(kas, tok, shares, amount, more)
  }

  /** The KRON search: the largest payout below the reserve that keeps the product. */
  method LargestPayout(kas: nat, tok: i64, shares: i64, amount: i64) returns (payout: nat)
    requires 1 < kas <= I64_MAX / MILLION && tok >= 1 && shares >= MILLION
    ensures payout < kas && IsLargestPayout(kas, tok, shares, amount, payout)
  {
    var lo, hi := 0, kas - 1;
    ZeroKeeps(kas, tok, shares, amount);
    while lo < hi
      invariant 0 <= lo <= hi <= kas - 1
      invariant KeepsProduct(kas, tok, shares, amount, lo)
      invariant forall more: nat :: hi < more < kas ==> !KeepsProduct(kas, tok, shares, amount, more)
    {
      var m := (lo + hi + 1) / 2;
      InRange(kas, tok, shares, amount, m);
      var numerator: u128 := m * 20 * (shares - MILLION);
      var product: u128 := kas * tok;
      var kept: u128 := Retain(shares, m);
      if m + kept <= kas && Grown(kas - m - kept, tok, amount) >= product {
        lo := m;
      } else {
        forall more: nat | m <= more < kas
          ensures !KeepsProduct(kas, tok, shares, amount, more)
        {
          if KeepsProduct(kas, tok, shares, amount, more) {
            SmallerKeepsToo(kas, tok, shares, amount, m, more);
          }
        }
        hi := m - 1;
      }
    }
    return lo;
  }

  /** Reserve times the grown token side, in one machine word. */
  function Grown(reserve: nat, tok: i64, amount: i64): (product: u128)
    requires reserve <= I64_MAX
    ensures product == reserve * (tok + amount)
  {
    MulBound(reserve, I64_MAX, tok + amount, 2 * I64_MAX);
    reserve * (tok + amount)
  }

  lemma MulBound(a: nat, x: nat, b: nat, y: nat)
    requires a <= x && b <= y
    ensures a * b <= x * y
  {
    MulMono(a, x, b);
    MulMono(b, y, x);
  }

  lemma ZeroKeeps(kas: nat, tok: nat, shares: nat, amount: nat)
    requires shares >= MILLION
    ensures KeepsProduct(kas, tok, shares, amount, 0)
  {
    MulMono(tok, tok + amount, kas);
  }

  /** No product of the search overflows, and the kept part is far below the payout. */
  lemma InRange(kas: nat, tok: i64, shares: i64, amount: i64, m: nat)
    requires 1 < kas <= I64_MAX / MILLION && 1 <= m < kas && shares >= MILLION
    ensures 0 < m * 20 * (shares - MILLION) + 1 < U128_LIMIT
    ensures kas * tok < U128_LIMIT
    ensures Retain(shares, m) < U128_LIMIT
  {
    hide Retain;
    MulBound(m * 20, I64_MAX, shares - MILLION, I64_MAX);
    assert m * (20 * (shares - MILLION)) == m * 20 * (shares - MILLION);
    MulBound(kas, I64_MAX, tok, I64_MAX);
    var kept, n, d := Retain(shares, m), m * (20 * (shares - MILLION)), 10000 * shares;
    if kept > 0 {
      MulMono(1, d, kept - 1);
    }
  }

  // ----- the closed form ------------------------------------------------------------------------------------

  function ClosedForm(kas: nat, tok: nat, amount: nat): (payout: nat)
    requires tok + amount > 0
  {
    kas * amount / (tok + amount)
  }

  /** With nothing to retain, a payout keeps the product exactly when the quotient allows it. */
  lemma KeepsAllOrNothing(kas: nat, tok: nat, amount: nat, payout: nat)
    requires tok + amount > 0 && payout <= kas
    ensures Keeps(kas, tok, amount, payout, 0) <==> payout <= ClosedForm(kas, tok, amount)
  {
    var t, q := tok + amount, ClosedForm(kas, tok, amount);
    assert (kas - payout) * t == kas * t - payout * t;
    assert kas * t == kas * tok + kas * amount;
    assert kas * amount == q * t + kas * amount % t;
    if payout <= q {
      MulMono(payout, q, t);
    } else {
      MulMono(q + 1, payout, t);
      assert (q + 1) * t == q * t + t;
    }
  }

  /** The closed form of the other venue is the largest payout that keeps the product, and less than the reserve. */
  lemma ClosedFormIsLargest(kas: nat, tok: nat, amount: nat)
    requires kas >= 1 && tok >= 1
    ensures ClosedForm(kas, tok, amount) < kas
    ensures IsLargestPayout(kas, tok, MILLION, amount, ClosedForm(kas, tok, amount))
  {
    var t, q := tok + amount, ClosedForm(kas, tok, amount);
    assert kas * amount == q * t + kas * amount % t;
    assert q < kas by {
      assert kas * amount < kas * t;
      MulStrict(q, kas, t);
    }
    KeepsAllOrNothing(kas, tok, amount, q);
    forall more: nat | q < more < kas
      ensures !KeepsProduct(kas, tok, MILLION, amount, more)
    {
      KeepsAllOrNothing(kas, tok, amount, more);
    }
  }

  lemma LargestIsUnique(kas: nat, tok: nat, shares: nat, amount: nat, a: nat, b: nat)
    requires shares >= MILLION && a < kas && b < kas
    requires IsLargestPayout(kas, tok, shares, amount, a) && IsLargestPayout(kas, tok, shares, amount, b)
    ensures a == b
  {
  }

  /** Without retention the search finds the closed form. */
  lemma SearchIsClosedForm(kas: nat, tok: nat, amount: nat, payout: nat)
    requires kas >= 1 && tok >= 1 && payout < kas && IsLargestPayout(kas, tok, MILLION, amount, payout)
    ensures payout == ClosedForm(kas, tok, amount)
  {
    ClosedFormIsLargest(kas, tok, amount);
  }

  /** Retention only ever lowers the payout below the closed form. */
  lemma NeverMoreThanClosedForm(kas: nat, tok: nat, shares: nat, amount: nat, payout: nat)
    requires kas >= 1 && tok >= 1 && shares >= MILLION && payout < kas
    requires IsLargestPayout(kas, tok, shares, amount, payout)
    ensures payout <= ClosedForm(kas, tok, amount)
  {
    hide Retained;
    MulMono(kas - payout - Retained(shares, payout), kas - payout, tok + amount);
    KeepsAllOrNothing(kas, tok, amount, payout);
  }

  /** Selling more never pays less. */
  lemma PayoutGrows(kas: nat, tok: nat, shares: nat, less: nat, more: nat, a: nat, b: nat)
    requires shares >= MILLION && less <= more && a < kas && b < kas
    requires IsLargestPayout(kas, tok, shares, less, a) && IsLargestPayout(kas, tok, shares, more, b)
    ensures a <= b
  {
    hide Retained;
    var left := kas - a - Retained(shares, a);
    MulMono(tok + less, tok + more, left);
    assert left * (tok + less) == (tok + less) * left;
    assert left * (tok + more) == (tok + more) * left;
    assert KeepsProduct(kas, tok, shares, more, a);
  }

  // ----- the valuation ----------------------------------------------------------------------------------------

  /** The two venues' reserves, as read from the pinned pool program. KRON counts KAS in whole millions of sompi. */
  datatype Pool = Kr(kas: i64, tok: i64) | Kron(kas: i64, tok: i64, shares: i64)

  datatype Refusal = InvalidQuantity | EmptyPool | InvalidReserves | FeesExceedSale | ValuationDiffers

  predicate Usable(pool: Pool) {
    match pool
    case Kr(kas, tok) => kas > 0 && tok > 0
    case Kron(kas, tok, shares) => 1 < kas <= I64_MAX / MILLION && tok > 0 && shares >= MILLION
  }

  /** Pools with something on both sides; scaled reserves and shares in range. */
  lemma UsableExactly(pool: Pool)
    ensures pool.Kr? ==> (Usable(pool) <==> pool.kas >= 1 && pool.tok >= 1)
    ensures pool.Kron? ==>
              (Usable(pool) <==> && pool.kas >= 2 && 1_000_000 * pool.kas <= 0x7fff_ffff_ffff_ffff
                                 && pool.tok >= 1 && pool.shares >= 1_000_000)
  {
  }

  /** The sale proceeds before fees: the largest payout that keeps the pool's product. */
  ghost predicate IsGross(pool: Pool, amount: i64, gross: nat)
    requires Usable(pool)
  {
    match pool
    case Kr(kas, tok) => gross < kas && IsLargestPayout(kas, tok, MILLION, amount, gross)
    case Kron(kas, tok, shares) =>
      gross % MILLION == 0 && gross / MILLION < kas && IsLargestPayout(kas, tok, shares, amount, gross / MILLION)
  }

  function FeeOf(pool: Pool, gross: nat, mainnet: bool): nat
    requires Usable(pool)
  {
    match pool
    case Kr(_, _) => Max(gross * (if mainnet then 100 else 30) / 10000, 10_000_000)
    case Kron(_, _, shares) =>
      Max(gross / 1000 + gross * 20 / 10000 * MILLION / shares, 20_000_000) + Max(gross * 70 / 10000, 20_000_000)
  }

  function FloorOf(net: nat, slip: nat): nat
    requires slip <= 500
  {
    net * (10000 - slip) / 10000
  }

  /** What the local arithmetic makes of a quote: gross proceeds, net value and slippage floor. */
  ghost predicate IsValuation(pool: Pool, amount: i64, slip: nat, mainnet: bool, gross: nat, net: int, floor: int)
    requires Usable(pool) && slip <= 500
  {
    && IsGross(pool, amount, gross) && net == gross - FeeOf(pool, gross, mainnet)
    && net >= 0 && floor == FloorOf(net, slip)
  }

  /** A quote is accepted exactly when it states the locally computed net value and positive floor. */
  method PoolValues(pool: Pool, amount: i64, slip: i64, mainnet: bool, tradeKas: i64, statedFloor: i64)
    returns (r: Result<(nat, nat), Refusal>)
    ensures r.Success? ==>
      && amount > 0 && 1 <= slip <= 500 && Usable(pool)
      && var (floor, gross) := r.value;
         && 0 < floor == statedFloor && gross <= I64_MAX
         && IsValuation(pool, amount, slip, mainnet, gross, tradeKas, floor)
    ensures r.Failure? && amount > 0 && 1 <= slip <= 500 && Usable(pool) ==>
      forall gross: nat, floor: nat ::
        IsValuation(pool, amount, slip, mainnet, gross, tradeKas, floor) ==> floor == 0 || floor != statedFloor
  {
    if amount == 0 || !(1 <= slip <= 500) {
      return Failure(InvalidQuantity);
    }
    if !Usable(pool) {
      return Failure(if pool.Kr? then EmptyPool else InvalidReserves);
    }
    hide IsGross, FeeOf, FloorOf;
    var gross := Gross(pool, amount);
    forall other: nat | IsGross(pool, amount, other) ensures other == gross {
      GrossIsUnique(pool, amount, gross, other);
    }
    var fee := FeeOf(pool, gross, mainnet);
    if fee > gross {
      return Failure(FeesExceedSale);
    }
    var net := gross - fee;
    var floor := FloorOf(net, slip);
    FloorBound(net, slip);
    if floor == 0 || floor > I64_MAX || gross > I64_MAX || tradeKas != net || statedFloor != floor {
      return Failure(ValuationDiffers);
    }
    return Success((floor, gross));
  }

  method Gross(pool: Pool, amount: i64) returns (gross: nat)
    requires Usable(pool) && amount > 0
    ensures IsGross(pool, amount, gross) && gross <= I64_MAX
  {
    match pool {
      case Kr(kas, tok) =>
        MulBound(kas, I64_MAX, amount, I64_MAX);
        var product: u128 := kas * amount;
        ClosedFormIsLargest(kas, tok, amount);
        gross := product / (tok + amount);
      case Kron(kas, tok, shares) =>
        var payout := LargestPayout(kas, tok, shares, amount);
        gross := payout * MILLION;
    }
  }

  lemma GrossIsUnique(pool: Pool, amount: i64, a: nat, b: nat)
    requires Usable(pool) && IsGross(pool, amount, a) && IsGross(pool, amount, b)
    ensures a == b
  {
    match pool
    case Kr(kas, tok) => LargestIsUnique(kas, tok, MILLION, amount, a, b);
    case Kron(kas, tok, shares) => LargestIsUnique(kas, tok, shares, amount, a / MILLION, b / MILLION);
  }

  lemma FloorBound(net: nat, slip: nat)
    requires slip <= 500
    ensures FloorOf(net, slip) <= net
  {
    MulMono(10000 - slip, 10000, net);
  }

  /** `part` is the share `num / den` of `whole`, rounded down. */
  predicate IsShare(part: nat, whole: nat, num: nat, den: nat) {
    den * part <= num * whole < den * (part + 1)
  }

  lemma ShareIs(whole: nat, num: nat, den: nat)
    requires den > 0
    ensures IsShare(whole * num / den, whole, num, den)
  {
    DivisionBounds(whole * num, den);
    assert whole * num == num * whole;
  }

  /** One venue takes 1% of the gross on mainnet and 0.3% on the test network, at least 0.1 KAS. */
  lemma KrFeeExactly(pool: Pool, gross: nat, mainnet: bool) returns (part: nat)
    requires Usable(pool) && pool.Kr?
    ensures IsShare(part, gross, if mainnet then 10 else 3, 1000)
    ensures FeeOf(pool, gross, mainnet) == Max(part, 10_000_000)
  {
    var n := if mainnet then 100 else 30;
    part := gross * n / 10000;
    ShareIs(gross, n, 10000);
  }

  /** The other takes 0.1% and the providers' part of 0.2%, at least 0.2 KAS, and 0.7%, again at least 0.2 KAS. */
  lemma KronFeeExactly(pool: Pool, gross: nat, mainnet: bool) returns (base: nat, lp: nat, provided: nat, flat: nat)
    requires Usable(pool) && pool.Kron?
    ensures IsShare(base, gross, 1, 1000) && IsShare(lp, gross, 2, 1000) && IsShare(flat, gross, 7, 1000)
    ensures IsShare(provided, lp, 1_000_000, pool.shares)
    ensures FeeOf(pool, gross, mainnet) == Max(base + provided, 20_000_000) + Max(flat, 20_000_000)
  {
    hide IsShare, FeeOf;
    base, lp, flat := gross / 1000, gross * 20 / 10000, gross * 70 / 10000;
    SmallShares(gross, base, lp, flat);
    provided := ProvidedPart(lp, pool.shares);
    KronFeeIs(pool, gross, mainnet, base, lp, provided, flat);
  }

  lemma ProvidedPart(lp: nat, shares: nat) returns (provided: nat)
    requires shares > 0
    ensures provided == lp * MILLION / shares && IsShare(provided, lp, 1_000_000, shares)
  {
    provided := lp * MILLION / shares;
    ShareIs(lp, MILLION, shares);
  }

  lemma KronFeeIs(pool: Pool, gross: nat, mainnet: bool, base: nat, lp: nat, provided: nat, flat: nat)
    requires Usable(pool) && pool.Kron?
    requires base == gross / 1000 && lp == gross * 20 / 10000 && flat == gross * 70 / 10000
    requires provided == lp * MILLION / pool.shares
    ensures FeeOf(pool, gross, mainnet) == Max(base + provided, 20_000_000) + Max(flat, 20_000_000)
  {
  }

  lemma SmallShares(gross: nat, base: nat, lp: nat, flat: nat)
    requires base == gross / 1000 && lp == gross * 20 / 10000 && flat == gross * 70 / 10000
    ensures IsShare(base, gross, 1, 1000) && IsShare(lp, gross, 2, 1000) && IsShare(flat, gross, 7, 1000)
  {
  }

  /** The floor is the net value less the slippage, in hundredths of a percent, rounded down. */
  lemma FloorExactly(net: nat, slip: nat)
    requires slip <= 500
    ensures IsShare(FloorOf(net, slip), net, 10000 - slip, 10000)
  {
    ShareIs(net, 10000 - slip, 10000);
  }

  /** The products the fees and the floor are computed from, each within 128 bits. */
  predicate ProductsFit(pool: Pool, gross: nat, net: nat, slip: nat, mainnet: bool)
    requires Usable(pool) && slip <= 500
  {
    && net * (10000 - slip) < U128_LIMIT && FeeOf(pool, gross, mainnet) < U128_LIMIT
    && match pool
       case Kr(_, _) => gross * (if mainnet then 100 else 30) < U128_LIMIT
       case Kron(_, _, shares) =>
         && gross * 70 < U128_LIMIT && gross * 20 < U128_LIMIT
         && gross * 20 / 10000 * MILLION < U128_LIMIT
         && gross / 1000 + gross * 20 / 10000 * MILLION / shares < U128_LIMIT
  }

  /** No valuation of a usable pool leaves 128 bits: its gross fits 63, and the factors are small. */
  lemma ValuationInRange(pool: Pool, amount: i64, slip: nat, mainnet: bool, gross: nat, net: nat)
    requires Usable(pool) && slip <= 500 && IsGross(pool, amount, gross) && net <= gross
    ensures gross <= I64_MAX && ProductsFit(pool, gross, net, slip, mainnet)
  {
    GrossInRange(pool, amount, gross);
    MulBound(net, I64_MAX, 10000 - slip, 10000);
    if pool.Kron? {
      var lp := gross * 20 / 10000 * MILLION;
      QuotientIsLess(lp, pool.shares);
    }
  }

  lemma GrossInRange(pool: Pool, amount: i64, gross: nat)
    requires Usable(pool) && IsGross(pool, amount, gross)
    ensures gross <= I64_MAX
  {
  }

  lemma QuotientIsLess(n: nat, unit: nat)
    requires unit > 0
    ensures n / unit <= n
  {
    var q, rest := n / unit, n % unit;
    assert n == q * unit + rest;
    if q > n {
      TimesIsMore(q, unit);
    }
  }

  lemma {:induction false} TimesIsMore(q: nat, unit: nat)
    requires unit > 0
    ensures q * unit >= q
  {
    if unit > 1 {
      TimesIsMore(q, unit - 1);
      assert q * unit == q * (unit - 1) + q;
    }
  }

  // ----- selling more is never valued lower -----------------------------------------------------------------

  /** A share of a growing amount grows by at most the share of the growth, rounded up. */
  lemma ShareGrowth(a: nat, b: nat, rate: nat, unit: nat)
    requires a <= b && unit > 0
    ensures a * rate / unit <= b * rate / unit <= a * rate / unit + (b - a) * rate / unit + 1
  {
    var d := b - a;
    var x, y, z := a * rate / unit, b * rate / unit, d * rate / unit;
    assert b * rate == a * rate + d * rate;
    DivisionBounds(a * rate, unit);
    DivisionBounds(b * rate, unit);
    DivisionBounds(d * rate, unit);
    assert (x + 1) * unit + (z + 1) * unit == (x + z + 2) * unit;
    MulStrict(y, x + z + 2, unit);
    MulMono(0, d, rate);
    MulStrict(x, y + 1, unit);
  }

  lemma DivisionBounds(n: nat, unit: nat)
    requires unit > 0
    ensures (n / unit) * unit <= n < (n / unit + 1) * unit
  {
    assert n == n / unit * unit + n % unit;
    assert (n / unit + 1) * unit == n / unit * unit + unit;
  }

  /** Fees grow more slowly than the proceeds they are taken from. */
  lemma FeeGrowsSlower(pool: Pool, a: nat, b: nat, mainnet: bool)
    requires Usable(pool) && a <= b && (pool.Kron? ==> a == b || b - a >= MILLION)
    ensures FeeOf(pool, b, mainnet) - FeeOf(pool, a, mainnet) <= b - a
  {
    match pool
    case Kr(_, _) =>
      ShareGrowth(a, b, if mainnet then 100 else 30, 10000);
    case Kron(_, _, shares) =>
      var lpA, lpB := a * 20 / 10000, b * 20 / 10000;
      ShareGrowth(a, b, 1, 1000);
      ShareGrowth(a, b, 20, 10000);
      ShareGrowth(a, b, 70, 10000);
      ShareGrowth(lpA, lpB, MILLION, shares);
      PartOfWhole(lpB - lpA, shares);
  }

  lemma PartOfWhole(n: nat, shares: nat)
    requires shares >= MILLION
    ensures n * MILLION / shares <= n
  {
    MulMono(MILLION, shares, n);
    DivisionBounds(n * MILLION, shares);
    MulStrict(n * MILLION / shares, n + 1, shares);
  }

  /** Offering more of a token never lowers the net value or the floor the wallet computes. */
  lemma ValuationGrows(pool: Pool, less: i64, more: i64, slip: nat, mainnet: bool,
                       grossA: nat, netA: nat, floorA: nat, grossB: nat, netB: nat, floorB: nat)
    requires Usable(pool) && less <= more && slip <= 500
    requires IsValuation(pool, less, slip, mainnet, grossA, netA, floorA)
    requires IsValuation(pool, more, slip, mainnet, grossB, netB, floorB)
    ensures grossA <= grossB && netA <= netB && floorA <= floorB
  {
    hide FeeOf, IsLargestPayout;
    match pool {
      case Kr(kas, tok) =>
        PayoutGrows(kas, tok, MILLION, less, more, grossA, grossB);
      case Kron(kas, tok, shares) =>
        PayoutGrows(kas, tok, shares, less, more, grossA / MILLION, grossB / MILLION);
    }
    FeeGrowsSlower(pool, grossA, grossB, mainnet);
    MulMono(netA, netB, 10000 - slip);
    DivisionBounds(netA * (10000 - slip), 10000);
    DivisionBounds(netB * (10000 - slip), 10000);
  }
}
