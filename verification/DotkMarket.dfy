/** The builder of dot.k marketplace transactions: list a name, buy it, or cancel the listing. */
module DotkMarket {
  import opened Wrappers
  import opened Words
  import opened Bytes
  import opened DotkDeed
  import S = Sorting

  const BOND := 100_000_000
  const RESERVE := 100_000_000
  const DUST := 10_000
  const MAX_INPUTS := 80
  const MIN_PRICE := 1_000_000
  const MARKET_MINIMUM := 1_000_000_000
  const MAX_PRICE := 28_700_000_000 * 100_000_000
  const MAX_RATE := 10_000

  datatype Outpoint = Outpoint(tx: Key, index: nat)
  datatype Lock = KeyLock(key: Key) | ProgramLock(program: bytes) | OtherLock(tag: nat)
  datatype Coin = Coin(outpoint: Outpoint, amount: nat, lock: Lock, covenant: Option<Key>)
  datatype Binding = Binding(authorizing: nat, covenant: Key)
  datatype Out = Out(value: nat, lock: Lock, binding: Option<Binding>)
  datatype Cell = Cell(outpoint: Outpoint, value: nat, lock: Lock, covenant: Key)

  datatype Action = List | Buy | Cancel
  datatype Terms = Terms(name: bytes, seller: Key, price: nat, feeLock: Lock)
  datatype Request = Request(action: Action, sender: Key, terms: Terms, deed: Cell, sale: Option<Cell>,
                             funding: seq<Coin>, feeRate: nat)

  /** What the sale contract is compiled with. */
  datatype SaleTerms = SaleTerms(seller: Key, feeLock: Lock, net: nat, fee: nat, prefix: bytes, suffix: bytes)

  datatype Weight = Unweighable | Over | Within

  /** The library code the builder relies on: the compiler, covenant numbering, fee mass and block limits. */
  datatype World = World(
    deployment: Deployment, compile: SaleTerms -> bytes, covenantOf: (Outpoint, Out) -> Key,
    feeMass: (seq<Coin>, seq<Out>) -> nat, weigh: (seq<Coin>, seq<Out>) -> Weight)

  datatype Error =
    | PriceTooLow | BadRate | NotSeller | SaleCellMismatch | BadTerms | NoFunds | RegistryClash | UntrustedCell
    | DuplicateOutpoint | TooMuchFunding | FeeOverflow | BadMass | NothingSuitable

  datatype Built = Built(inputs: seq<Coin>, outputs: seq<Out>, fee: nat, change: nat)

  // ----- amounts and scripts ------------------------------------------------------------------------------------

  /** The seller's part of a price and the marketplace's 2.1%. */
  function Amounts(price: nat): Option<(nat, nat)> {
    if MIN_PRICE <= price <= MAX_PRICE then Some((price - price * 21 / 1000, price * 21 / 1000)) else None
  }

  /** The split gives everything away, rounds the fee down, and keeps it spendable at any marketplace price. */
  lemma AmountsSplitPrice(price: nat)
    requires Amounts(price).Some?
    ensures var (net, fee) := Amounts(price).value;
            net + fee == price && 1000 * fee <= 21 * price < 1000 * (fee + 1) && fee >= 2 * DUST
  {
  }

  function SaleTermsOf(w: World, t: Terms): Option<SaleTerms>
    requires Deployed(w.deployment)
  {
    match (Amounts(t.price), Script(w.deployment, t.name, 0, t.seller))
    case (Some((net, fee)), Some(deed)) => Some(SaleTerms(t.seller, t.feeLock, net, fee, Prefix(deed), Suffix(deed)))
    case _ => None
  }

  /** The covenant cells a request spends and the outputs it fixes, before any funding. */
  datatype Frame = Frame(inputs: seq<Coin>, outputs: seq<Out>, required: nat)

  function TrustedCell(c: Cell, lock: Lock, id: Key, amount: nat): Option<Coin> {
    if c.covenant == id && c.value == amount && c.lock == lock then Some(Coin(c.outpoint, amount, lock, Some(id)))
    else None
  }

  function SaleOut(w: World, s: SaleTerms): Out {
    Out(RESERVE, ProgramLock(w.compile(s)), None)
  }

  function SaleId(w: World, r: Request, s: SaleTerms): Key
    requires r.funding != []
  {
    if r.sale.Some? then r.sale.value.covenant else w.covenantOf(r.funding[0].outpoint, SaleOut(w, s))
  }

  /** What the action pays besides the deed. */
  function Payouts(w: World, r: Request, s: SaleTerms, id: Key): seq<Out> {
    match r.action
    case List => [SaleOut(w, s).(binding := Some(Binding(1, id)))]
    case Buy => [Out(s.net + RESERVE, KeyLock(r.terms.seller), None), Out(s.fee, r.terms.feeLock, None)]
    case Cancel => [Out(RESERVE, KeyLock(r.terms.seller), None)]
  }

  function Required(r: Request): nat {
    match r.action
    case List => RESERVE
    case Buy => r.terms.price
    case Cancel => 0
  }

  function FrameOf(w: World, r: Request): Result<Frame, Error>
    requires Deployed(w.deployment)
  {
    if r.terms.price < MARKET_MINIMUM then Failure(PriceTooLow)
    else if !(1 <= r.feeRate <= MAX_RATE) then Failure(BadRate)
    else if !r.action.Buy? && r.sender != r.terms.seller then Failure(NotSeller)
    else if r.action.List? != r.sale.None? then Failure(SaleCellMismatch)
    else if SaleTermsOf(w, r.terms).None? then Failure(BadTerms)
    else if r.funding == [] then Failure(NoFunds)
    else
      var d, s := w.deployment, SaleTermsOf(w, r.terms).value;
      var id := SaleId(w, r, s);
      if id == d.registry then Failure(RegistryClash)
      else
        var list := r.action.List?;
        var oldDeed := if list then Script(d, r.terms.name, 0, r.terms.seller) else Script(d, r.terms.name, 4, id);
        var newDeed := if list then Script(d, r.terms.name, 4, id) else Script(d, r.terms.name, 0, r.sender);
        if oldDeed.None? then Failure(BadTerms)
        else
          var deed := TrustedCell(r.deed, ProgramLock(oldDeed.value), d.registry, BOND);
          var sale := if list then None else TrustedCell(r.sale.value, ProgramLock(w.compile(s)), id, RESERVE);
          if deed.None? || (!list && sale.None?) then Failure(UntrustedCell)
          else if newDeed.None? then Failure(BadTerms)
          else if !list && sale.value.outpoint == deed.value.outpoint then Failure(DuplicateOutpoint)
          else
            Success(Frame([deed.value] + (if list then [] else [sale.value]),
                          [Out(BOND, ProgramLock(newDeed.value), Some(Binding(0, d.registry)))] + Payouts(w, r, s, id),
                          Required(r)))
  }

  // ----- funding ------------------------------------------------------------------------------------------------

  function CoinSum(cs: seq<Coin>): nat {
    if cs == [] then 0 else CoinSum(cs[..|cs| - 1]) + cs[|cs| - 1].amount
  }

  function OutSum(os: seq<Out>): nat {
    if os == [] then 0 else OutSum(os[..|os| - 1]) + os[|os| - 1].value
  }

  function Outpoints(cs: seq<Coin>): set<Outpoint> {
    set c | c in cs :: c.outpoint
  }

  datatype Verdict = More | Refuse(error: Error) | Done(built: Built)

  function Change(sender: Key, value: nat): Out {
    Out(value, KeyLock(sender), None)
  }

  /** What the builder does once the first `k` funding coins are in. */
  function Turn(w: World, f: Frame, sender: Key, rate: nat, funding: seq<Coin>, k: nat): Verdict
    requires 1 <= k <= |funding|
  {
    var available := CoinSum(funding[..k]);
    var inputs := f.inputs + funding[..k];
    if funding[k - 1].outpoint in Outpoints(f.inputs + funding[..k - 1]) then Refuse(DuplicateOutpoint)
    else if available > MAX_PRICE then Refuse(TooMuchFunding)
    else if available <= f.required + DUST then More
    else
      var excess: nat := available - f.required;
      var fee := w.feeMass(inputs, f.outputs + [Change(sender, excess)]) * rate;
      if fee >= U64_LIMIT then Refuse(FeeOverflow)
      else if excess < fee + DUST then More
      else
        var outputs := f.outputs + [Change(sender, excess - fee)];
        match w.weigh(inputs, outputs)
        case Unweighable => Refuse(BadMass)
        case Over => More
        case Within => Done(Built(inputs, outputs, fee, excess - fee))
  }

  /** The first turn that decides, if one comes before the coins or the inputs run out. */
  function Fund(w: World, f: Frame, sender: Key, rate: nat, funding: seq<Coin>, k: nat): Result<Built, Error>
    requires k <= |funding|
    decreases |funding| - k
  {
    if k == |funding| || |f.inputs| + k >= MAX_INPUTS then Failure(NothingSuitable)
    else
      match Turn(w, f, sender, rate, funding, k + 1)
      case More => Fund(w, f, sender, rate, funding, k + 1)
      case Refuse(e) => Failure(e)
      case Done(b) => Success(b)
  }

  // ----- larger coins first ---------------------------------------------------------------------------------------

  /** Larger coins first; ties follow the transaction id and the index. */
  function ByAmount(less: (Key, Key) -> bool): (Coin, Coin) -> bool {
    (a: Coin, b: Coin) =>
      || a.amount > b.amount
      || (a.amount == b.amount
          && (less(a.outpoint.tx, b.outpoint.tx)
              || (a.outpoint.tx == b.outpoint.tx && a.outpoint.index <= b.outpoint.index)))
  }

  function SortCoins(cs: seq<Coin>, less: (Key, Key) -> bool): (r: seq<Coin>)
    ensures multiset(r) == multiset(cs)
  {
    S.Sort(cs, ByAmount(less))
  }

  function BuildOf(w: World, r: Request, less: (Key, Key) -> bool): Result<Built, Error>
    requires Deployed(w.deployment)
  {
    var sorted := r.(funding := SortCoins(r.funding, less));
    match FrameOf(w, sorted)
    case Failure(e) => Failure(e)
    case Success(f) => Fund(w, f, r.sender, r.feeRate, sorted.funding, 0)
  }

  lemma NextCoin(f: Frame, funding: seq<Coin>, k: nat)
    requires k < |funding|
    ensures CoinSum(funding[..k + 1]) == CoinSum(funding[..k]) + funding[k].amount
    ensures Outpoints(f.inputs + funding[..k + 1]) == Outpoints(f.inputs + funding[..k]) + {funding[k].outpoint}
    ensures f.inputs + funding[..k + 1] == (f.inputs + funding[..k]) + [funding[k]]
  {
    assert funding[..k + 1][..k] == funding[..k];
    var a, b := f.inputs + funding[..k], f.inputs + funding[..k + 1];
    assert b == a + [funding[k]];
    assert forall c :: c in b <==> c in a || c == funding[k];
  }

  /** The funding loop as written: takes coin after coin until a candidate pays its fee and leaves change. */
  method FundLoop(w: World, f: Frame, sender: Key, rate: nat, funding: seq<Coin>) returns (r: Result<Built, Error>)
    ensures r == Fund(w, f, sender, rate, funding, 0)
  {
    hide CoinSum, Outpoints;
    var available, inputs, seen, k := CoinSum([]), f.inputs, Outpoints(f.inputs), 0;
    assert f.inputs + funding[..0] == f.inputs && funding[..0] == [];
    while k < |funding|
      invariant 0 <= k <= |funding|
      invariant available == CoinSum(funding[..k])
      invariant inputs == f.inputs + funding[..k] && seen == Outpoints(inputs)
      invariant Fund(w, f, sender, rate, funding, 0) == Fund(w, f, sender, rate, funding, k)
    {
      if |inputs| >= MAX_INPUTS {
        return Failure(NothingSuitable);
      }
      NextCoin(f, funding, k);
      var coin := funding[k];
      if coin.outpoint in seen {
        return Failure(DuplicateOutpoint);
      }
      seen := seen + {coin.outpoint};
      available := available + coin.amount;
      if available > MAX_PRICE {
        return Failure(TooMuchFunding);
      }
      inputs := inputs + [coin];
      k := k + 1;
      if available < f.required || available - f.required <= DUST {
        continue;
      }
      var excess: nat := available - f.required;
      var candidate := f.outputs + [Change(sender, excess)];
      var fee := w.feeMass(inputs, candidate) * rate;
      if fee >= U64_LIMIT {
        return Failure(FeeOverflow);
      }
      if excess < fee || excess - fee < DUST {
        continue;
      }
      var outputs := f.outputs + [Change(sender, excess - fee)];
      match w.weigh(inputs, outputs) {
        case Unweighable => return Failure(BadMass);
        case Over =>
        case Within => return Success(Built(inputs, outputs, fee, excess - fee));
      }
    }
    return Failure(NothingSuitable);
  }

  method Build(w: World, r: Request, less: (Key, Key) -> bool) returns (result: Result<Built, Error>)
    requires Deployed(w.deployment)
    ensures result == BuildOf(w, r, less)
  {
    hide FrameOf, Fund;
    var sorted := r.(funding := SortCoins(r.funding, less));
    var frame := FrameOf(w, sorted);
    match frame {
      case Failure(e) => result := Failure(e);
      case Success(f) => result := FundLoop(w, f, r.sender, r.feeRate, sorted.funding);
    }
  }

  // ----- the loop takes the first suitable leading part -------------------------------------------------------------

  /** Turn `k` is reached, and every turn before it from `from` on asks for more. */
  predicate Reaches(w: World, f: Frame, sender: Key, rate: nat, funding: seq<Coin>, from: nat, k: nat) {
    && from < k <= |funding| && |f.inputs| + k <= MAX_INPUTS
    && forall j :: from < j < k ==> Turn(w, f, sender, rate, funding, j) == More
  }

  /** A transaction is built exactly from the shortest leading part of the funding that is suitable. */
  lemma {:induction false} ShortestPartFunds(w: World, f: Frame, sender: Key, rate: nat, funding: seq<Coin>,
                                             from: nat, b: Built)
    requires from <= |funding|
    ensures Fund(w, f, sender, rate, funding, from) == Success(b)
       <==> exists k :: Reaches(w, f, sender, rate, funding, from, k) && Turn(w, f, sender, rate, funding, k) == Done(b)
    decreases |funding| - from
  {
    hide Turn;
    if from < |funding| && |f.inputs| + from < MAX_INPUTS {
      var first := Turn(w, f, sender, rate, funding, from + 1);
      assert Reaches(w, f, sender, rate, funding, from, from + 1);
      if first == More {
        ShortestPartFunds(w, f, sender, rate, funding, from + 1, b);
        forall k: nat ensures Reaches(w, f, sender, rate, funding, from, k) && k > from + 1
                    <==> Reaches(w, f, sender, rate, funding, from + 1, k) {
        }
      } else {
        forall k: nat ensures Reaches(w, f, sender, rate, funding, from, k) <==> k == from + 1 {
        }
      }
    }
  }

  // ----- balance ----------------------------------------------------------------------------------------------------

  lemma {:induction false} CoinSumConcat(a: seq<Coin>, b: seq<Coin>)
    ensures CoinSum(a + b) == CoinSum(a) + CoinSum(b)
  {
    if b == [] {
      assert a + b == a;
    } else {
      assert (a + b)[..|a + b| - 1] == a + b[..|b| - 1];
      CoinSumConcat(a, b[..|b| - 1]);
    }
  }

  lemma OutSumAppend(os: seq<Out>, o: Out)
    ensures OutSum(os + [o]) == OutSum(os) + o.value
  {
    assert (os + [o])[..|os|] == os;
  }

  lemma OutSums(a: Out, b: Out, c: Out)
    ensures OutSum([a, b]) == a.value + b.value && OutSum([a, b, c]) == a.value + b.value + c.value
  {
    OutSumAppend([], a);
    OutSumAppend([a], b);
    OutSumAppend([a, b], c);
    assert [] + [a] == [a] && [a] + [b] == [a, b] && [a, b] + [c] == [a, b, c];
  }

  lemma CoinSums(a: Coin, b: Coin)
    ensures CoinSum([a]) == a.amount && CoinSum([a, b]) == a.amount + b.amount
  {
    assert [a][..0] == [] && [a, b][..1] == [a];
  }

  /** What the covenant cells bring and the action requires is what the fixed outputs pay. */
  lemma FrameBalances(w: World, r: Request)
    requires Deployed(w.deployment) && FrameOf(w, r).Success?
    ensures var f := FrameOf(w, r).value; CoinSum(f.inputs) + f.required == OutSum(f.outputs)
  {
    hide Script, CoinSum, OutSum, ValidName, ValidOwner, SaleId;
    var f := FrameOf(w, r).value;
    AmountsSplitPrice(r.terms.price);
    if r.action.List? {
      CoinSums(f.inputs[0], f.inputs[0]);
      OutSums(f.outputs[0], f.outputs[1], f.outputs[1]);
      assert f.inputs == [f.inputs[0]] && f.outputs == [f.outputs[0], f.outputs[1]];
    } else {
      CoinSums(f.inputs[0], f.inputs[1]);
      assert f.inputs == [f.inputs[0], f.inputs[1]];
      if r.action.Buy? {
        OutSums(f.outputs[0], f.outputs[1], f.outputs[2]);
        assert f.outputs == [f.outputs[0], f.outputs[1], f.outputs[2]];
      } else {
        OutSums(f.outputs[0], f.outputs[1], f.outputs[1]);
        assert f.outputs == [f.outputs[0], f.outputs[1]];
      }
    }
  }

  /** No two inputs spend the same outpoint. */
  ghost predicate SpendsOnce(cs: seq<Coin>) {
    forall i, j :: 0 <= i < j < |cs| ==> cs[i].outpoint != cs[j].outpoint
  }

  lemma TurnBalances(w: World, f: Frame, sender: Key, rate: nat, funding: seq<Coin>, k: nat, b: Built)
    requires 1 <= k <= |funding| && Turn(w, f, sender, rate, funding, k) == Done(b)
    requires CoinSum(f.inputs) + f.required == OutSum(f.outputs)
    ensures CoinSum(b.inputs) == OutSum(b.outputs) + b.fee && b.change >= DUST
    ensures b.inputs == f.inputs + funding[..k] && b.outputs == f.outputs + [Change(sender, b.change)]
  {
    hide CoinSum, OutSum;
    CoinSumConcat(f.inputs, funding[..k]);
    OutSumAppend(f.outputs, Change(sender, b.change));
  }

  /** A turn that does not refuse has found its coin unspent so far. */
  lemma {:induction false} FreshCoins(w: World, f: Frame, sender: Key, rate: nat, funding: seq<Coin>, k: nat)
    requires k <= |funding| && SpendsOnce(f.inputs)
    requires forall j :: 1 <= j <= k ==> !Turn(w, f, sender, rate, funding, j).Refuse?
    ensures SpendsOnce(f.inputs + funding[..k])
  {
    hide CoinSum;
    if k == 0 {
      assert f.inputs + funding[..0] == f.inputs;
    } else {
      FreshCoins(w, f, sender, rate, funding, k - 1);
      NextCoin(f, funding, k - 1);
      var before := f.inputs + funding[..k - 1];
      assert !Turn(w, f, sender, rate, funding, k).Refuse?;
      forall i | 0 <= i < |before| ensures before[i].outpoint != funding[k - 1].outpoint {
        assert before[i] in before && before[i].outpoint in Outpoints(before);
      }
    }
  }

  lemma FrameSpendsOnce(w: World, r: Request)
    requires Deployed(w.deployment) && FrameOf(w, r).Success?
    ensures SpendsOnce(FrameOf(w, r).value.inputs)
  {
    hide Script, ValidName, ValidOwner, SaleId, Payouts, SaleTermsOf;
  }

  /** For every action and funding: inputs are outputs and fee, change is spendable, no coin is used twice. */
  lemma BuiltBalances(w: World, r: Request, less: (Key, Key) -> bool)
    requires Deployed(w.deployment) && BuildOf(w, r, less).Success?
    ensures var b := BuildOf(w, r, less).value;
            && CoinSum(b.inputs) == OutSum(b.outputs) + b.fee
            && b.change >= DUST && |b.inputs| <= MAX_INPUTS && SpendsOnce(b.inputs)
  {
    hide CoinSum, OutSum, FrameOf, Turn, SortCoins, Fund;
    var b := BuildOf(w, r, less).value;
    var sorted := r.(funding := SortCoins(r.funding, less));
    var f := FrameOf(w, sorted).value;
    ShortestPartFunds(w, f, r.sender, r.feeRate, sorted.funding, 0, b);
    var k :| Reaches(w, f, r.sender, r.feeRate, sorted.funding, 0, k)
             && Turn(w, f, r.sender, r.feeRate, sorted.funding, k) == Done(b);
    FrameBalances(w, sorted);
    TurnBalances(w, f, r.sender, r.feeRate, sorted.funding, k, b);
    FrameSpendsOnce(w, sorted);
    FreshCoins(w, f, r.sender, r.feeRate, sorted.funding, k);
  }

  // ----- a listing and what can follow it ---------------------------------------------------------------------------

  function CellOf(tx: Key, index: nat, o: Out): Cell
    requires o.binding.Some?
  {
    Cell(Outpoint(tx, index), o.value, o.lock, o.binding.value.covenant)
  }

  /** The frame of a transaction is what it starts with. */
  lemma BuiltOnFrame(w: World, r: Request, less: (Key, Key) -> bool)
    requires Deployed(w.deployment) && BuildOf(w, r, less).Success?
    ensures var b, sorted := BuildOf(w, r, less).value, r.(funding := SortCoins(r.funding, less));
            && FrameOf(w, sorted).Success?
            && var f := FrameOf(w, sorted).value;
               && f.inputs <= b.inputs && f.outputs <= b.outputs && |b.outputs| == |f.outputs| + 1
               && b.outputs[|f.outputs|] == Change(r.sender, b.change)
               && forall i :: |f.inputs| <= i < |b.inputs| ==> b.inputs[i] in sorted.funding
  {
    hide CoinSum, OutSum, FrameOf, Turn, SortCoins, Fund;
    var b := BuildOf(w, r, less).value;
    var sorted := r.(funding := SortCoins(r.funding, less));
    var f := FrameOf(w, sorted).value;
    ShortestPartFunds(w, f, r.sender, r.feeRate, sorted.funding, 0, b);
    var k :| Reaches(w, f, r.sender, r.feeRate, sorted.funding, 0, k)
             && Turn(w, f, r.sender, r.feeRate, sorted.funding, k) == Done(b);
    FrameBalances(w, sorted);
    TurnBalances(w, f, r.sender, r.feeRate, sorted.funding, k, b);
  }

  /** A request that follows the listing `b`, mined as `tx`, with the same terms. */
  predicate Follows(b: Built, listed: Request, tx: Key, r: Request) {
    && |b.outputs| >= 2 && b.outputs[0].binding.Some? && b.outputs[1].binding.Some?
    && r.terms == listed.terms
    && r.deed == CellOf(tx, 0, b.outputs[0]) && r.sale == Some(CellOf(tx, 1, b.outputs[1]))
  }

  /** What can still stop a purchase of a listed name is the fee rate, the buyer's key and the funding. */
  lemma ListThenBuy(w: World, listed: Request, less: (Key, Key) -> bool, tx: Key, r: Request)
    requires Deployed(w.deployment) && listed.action.List? && BuildOf(w, listed, less).Success?
    requires Follows(BuildOf(w, listed, less).value, listed, tx, r) && r.action.Buy?
    ensures FrameOf(w, r).Success?
       <==> 1 <= r.feeRate <= MAX_RATE && r.funding != [] && ValidOwner(w.deployment, 0, r.sender)
    ensures FrameOf(w, r).Success? ==>
              var (net, fee) := Amounts(r.terms.price).value;
              && FrameOf(w, r).value.required == r.terms.price
              && FrameOf(w, r).value.outputs
                 == [Out(BOND, ProgramLock(Script(w.deployment, r.terms.name, 0, r.sender).value),
                         Some(Binding(0, w.deployment.registry))),
                     Out(net + RESERVE, KeyLock(r.terms.seller), None),
                     Out(fee, r.terms.feeLock, None)]
  {
    hide CoinSum, OutSum, SortCoins, BuildOf, ValidName, ValidOwner, State, Fund;
    BuiltOnFrame(w, listed, less);
  }

  /** Listing and then buying: the seller gets the price less the fee and the reserve, the buyer pays the price. */
  lemma PurchasePaysSeller(w: World, listed: Request, less: (Key, Key) -> bool, tx: Key, r: Request)
    requires Deployed(w.deployment) && listed.action.List? && BuildOf(w, listed, less).Success?
    requires Follows(BuildOf(w, listed, less).value, listed, tx, r) && r.action.Buy? && BuildOf(w, r, less).Success?
    ensures Amounts(r.terms.price).Some?
    ensures var (net, fee) := Amounts(r.terms.price).value;
            var b := BuildOf(w, r, less).value;
            && |b.outputs| == 4
            && b.outputs[1] == Out(net + RESERVE, KeyLock(r.terms.seller), None)
            && b.outputs[2] == Out(fee, r.terms.feeLock, None)
            && b.outputs[3] == Change(r.sender, b.change)
            && CoinSum(b.inputs) == BOND + RESERVE + r.terms.price + b.change + b.fee
  {
    hide CoinSum, OutSum, SortCoins, BuildOf, ValidName, ValidOwner, State, Fund, FrameOf;
    BuiltOnFrame(w, r, less);
    var sorted := r.(funding := SortCoins(r.funding, less));
    ListThenBuy(w, listed, less, tx, sorted);
    ListedPrice(w, sorted);
    BuiltBalances(w, r, less);
    var o := BuildOf(w, r, less).value.outputs;
    OutSums(o[0], o[1], o[2]);
    OutSumAppend([o[0], o[1], o[2]], o[3]);
    assert o == [o[0], o[1], o[2]] + [o[3]];
  }

  lemma ListedPrice(w: World, r: Request)
    requires Deployed(w.deployment) && FrameOf(w, r).Success?
    ensures Amounts(r.terms.price).Some?
  {
    hide Script;
  }

  /** Cancelling a listing returns the deed and the reserve to the seller. */
  lemma ListThenCancel(w: World, listed: Request, less: (Key, Key) -> bool, tx: Key, r: Request)
    requires Deployed(w.deployment) && listed.action.List? && BuildOf(w, listed, less).Success?
    requires Follows(BuildOf(w, listed, less).value, listed, tx, r) && r.action.Cancel?
    ensures FrameOf(w, r).Success? <==> 1 <= r.feeRate <= MAX_RATE && r.funding != [] && r.sender == r.terms.seller
    ensures FrameOf(w, r).Success? ==>
              && FrameOf(w, r).value.required == 0
              && FrameOf(w, r).value.outputs
                 == [Out(BOND, ProgramLock(Script(w.deployment, r.terms.name, 0, r.terms.seller).value),
                         Some(Binding(0, w.deployment.registry))),
                     Out(RESERVE, KeyLock(r.terms.seller), None)]
  {
    hide CoinSum, OutSum, SortCoins, BuildOf, ValidName, ValidOwner, State, Fund;
    BuiltOnFrame(w, listed, less);
  }

  // ----- the sale contract ------------------------------------------------------------------------------------------

  /** What the sale contract demands of any spend: it stands next to the deed, and the deed goes to `newOwner`. */
  predicate ContractChecksDeed(registry: Key, s: SaleTerms, inputs: seq<Coin>, outputs: seq<Out>, newOwner: Key) {
    && |inputs| >= 2 && |outputs| >= 1
    && inputs[1].amount == RESERVE && inputs[1].covenant.Some?
    && var id := inputs[1].covenant.value;
       && id != registry
       && (forall i :: 0 <= i < |inputs| ==> (inputs[i].covenant == Some(id) <==> i == 1))
       && (forall i :: 0 <= i < |outputs| && outputs[i].binding.Some? ==> outputs[i].binding.value.covenant != id)
       && (forall i :: 0 <= i < |inputs| ==> (inputs[i].covenant == Some(registry) <==> i == 0))
       && (forall i :: 0 <= i < |outputs| ==>
             (outputs[i].binding.Some? && outputs[i].binding.value.covenant == registry <==> i == 0))
       && inputs[0].amount == BOND && outputs[0].value == BOND
       && inputs[0].lock == ProgramLock(s.prefix + [4, 32] + id + s.suffix)
       && outputs[0].lock == ProgramLock(s.prefix + [0, 32] + newOwner + s.suffix)
  }

  predicate ContractAllowsBuy(registry: Key, s: SaleTerms, inputs: seq<Coin>, outputs: seq<Out>, buyer: Key) {
    && ContractChecksDeed(registry, s, inputs, outputs, buyer)
    && |outputs| >= 3
    && outputs[1].lock == KeyLock(s.seller) && outputs[1].value == s.net + RESERVE
    && outputs[2].lock == s.feeLock && outputs[2].value == s.fee
  }

  predicate ContractAllowsCancel(registry: Key, s: SaleTerms, inputs: seq<Coin>, outputs: seq<Out>) {
    && ContractChecksDeed(registry, s, inputs, outputs, s.seller)
    && |outputs| >= 2
    && outputs[1].lock == KeyLock(s.seller) && outputs[1].value == RESERVE
  }

  lemma FrameMeetsContract(w: World, r: Request)
    requires Deployed(w.deployment) && FrameOf(w, r).Success? && !r.action.List?
    ensures SaleTermsOf(w, r.terms).Some?
    ensures var f, s := FrameOf(w, r).value, SaleTermsOf(w, r.terms).value;
            && |f.inputs| == 2 && f.inputs[1].lock == ProgramLock(w.compile(s))
            && if r.action.Buy? then ContractAllowsBuy(w.deployment.registry, s, f.inputs, f.outputs, r.sender)
               else ContractAllowsCancel(w.deployment.registry, s, f.inputs, f.outputs)
  {
    hide Script, Prefix, Suffix, ValidName, ValidOwner;
    var d, id := w.deployment, r.sale.value.covenant;
    SaleRebuildsDeed(d, r.terms.name, r.terms.seller, 4, id);
    SaleRebuildsDeed(d, r.terms.name, r.terms.seller, 0, r.sender);
  }

  /** Funding comes from the wallet's own address and carries no covenant. */
  predicate PlainFunding(cs: seq<Coin>) {
    forall c :: c in cs ==> c.covenant == None
  }

  lemma FundingKeepsContract(registry: Key, s: SaleTerms, a: seq<Coin>, b: seq<Coin>, o: seq<Out>, p: seq<Out>,
                             owner: Key)
    requires ContractChecksDeed(registry, s, a, o, owner) && a <= b && o <= p && |p| == |o| + 1
    requires p[|o|].binding == None && forall i :: |a| <= i < |b| ==> b[i].covenant == None
    ensures ContractChecksDeed(registry, s, b, p, owner)
  {
  }

  /** Every purchase and every cancellation built spends a sale cell whose contract allows it. */
  lemma ContractIsSatisfied(w: World, r: Request, less: (Key, Key) -> bool)
    requires Deployed(w.deployment) && BuildOf(w, r, less).Success? && !r.action.List? && PlainFunding(r.funding)
    ensures SaleTermsOf(w, r.terms).Some?
    ensures var b, s := BuildOf(w, r, less).value, SaleTermsOf(w, r.terms).value;
            && |b.inputs| >= 2 && b.inputs[1].lock == ProgramLock(w.compile(s))
            && if r.action.Buy? then ContractAllowsBuy(w.deployment.registry, s, b.inputs, b.outputs, r.sender)
               else ContractAllowsCancel(w.deployment.registry, s, b.inputs, b.outputs)
  {
    hide SortCoins, BuildOf, FrameOf, SaleTermsOf, ContractChecksDeed;
    BuiltOnFrame(w, r, less);
    var b, sorted := BuildOf(w, r, less).value, r.(funding := SortCoins(r.funding, less));
    FrameMeetsContract(w, sorted);
    var f, s := FrameOf(w, sorted).value, SaleTermsOf(w, r.terms).value;
    forall i | |f.inputs| <= i < |b.inputs| ensures b.inputs[i].covenant == None {
      assert b.inputs[i] in multiset(sorted.funding);
    }
    FundingKeepsContract(w.deployment.registry, s, f.inputs, b.inputs, f.outputs, b.outputs,
                         if r.action.Buy? then r.sender else s.seller);
  }
}
