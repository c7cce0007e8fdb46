/** Exactly which dot.k transactions are built: from which requests, which cells, which coins and at which fee. */
module DotkRules {
  import opened Wrappers
  import opened Words
  import opened Bytes
  import opened DotkDeed
  import opened DotkMarket
  import S = Sorting

  // ----- names and owners -----------------------------------------------------------------------------------------

  predicate Letter(c: char) {
    'a' <= c <= 'z' || '0' <= c <= '9' || c == '-'
  }

  /** A name is 1 to 32 small letters, digits and hyphens, with no hyphen at either end. */
  lemma NamesExactly(name: bytes)
    ensures ValidName(name) <==>
              && 1 <= |name| <= 32
              && (forall i :: 0 <= i < |name| ==> Letter(name[i] as char))
              && name[0] as char != '-' && name[|name| - 1] as char != '-'
  {
  }

  /** Who can own a name: a key on its curve, a script, or a covenant other than the registry; never zero. */
  lemma OwnersExactly(w: Deployment, ownerType: byte, owner: Key)
    ensures ValidOwner(w, ownerType, owner) <==>
              && (exists i :: 0 <= i < 32 && owner[i] != 0)
              && (ownerType == 3 || (ownerType == 4 && owner != w.registry)
                  || (ownerType in {0, 0x85, 0x86} && w.onCurve(ownerType, owner)))
  {
    if owner != Zeros(32) {
      assert exists i :: 0 <= i < 32 && owner[i] != 0;
    }
  }

  // ----- one deed ---------------------------------------------------------------------------------------------------

  /** Where the parts of a deed stand. */
  lemma DeedPositions(w: Deployment, name: bytes, ownerType: byte, owner: Key)
    requires Deployed(w) && Script(w, name, ownerType, owner).Some?
    ensures var d := Script(w, name, ownerType, owner).value;
            && |d| == |w.code| && d[0] == w.code[0] && d[104..] == w.code[104..]
            && d[1..4] == [1, 2, 32] && d[4..36] == w.digest(name) && d[36] == 1
            && d[37] == ownerType && d[38] == 32 && d[39..71] == owner && d[71] == 32
            && d[72..72 + |name|] == name && forall i :: 72 + |name| <= i < 104 ==> d[i] == 0
  {
  }

  // ----- the coins --------------------------------------------------------------------------------------------------

  /** Ids are ordered. */
  ghost predicate Orders(less: (Key, Key) -> bool) {
    && (forall a, b :: less(a, b) || less(b, a) || a == b)
    && (forall a, b :: less(a, b) ==> !less(b, a))
    && (forall a, b, c :: less(a, b) && less(b, c) ==> less(a, c))
  }

  lemma ByAmountIsTotal(less: (Key, Key) -> bool)
    requires Orders(less)
    ensures S.TotalOrder(ByAmount(less))
  {
    var before := ByAmount(less);
    forall a, b ensures before(a, b) || before(b, a) {
      assert less(a.outpoint.tx, b.outpoint.tx) || less(b.outpoint.tx, a.outpoint.tx) || a.outpoint.tx == b.outpoint.tx;
    }
    forall a, b, c | before(a, b) && before(b, c) ensures before(a, c) {
      var x, y, z := a.outpoint.tx, b.outpoint.tx, c.outpoint.tx;
      assert less(x, y) && less(y, z) ==> less(x, z);
    }
  }

  /** Coins are taken largest first; equal amounts by transaction id, and within one transaction by index. */
  lemma LargestFirst(cs: seq<Coin>, less: (Key, Key) -> bool, i: nat, j: nat)
    requires Orders(less) && i < j < |SortCoins(cs, less)|
    ensures var a, b := SortCoins(cs, less)[i], SortCoins(cs, less)[j];
            && a.amount >= b.amount
            && (a.amount == b.amount ==>
                  less(a.outpoint.tx, b.outpoint.tx)
                  || (a.outpoint.tx == b.outpoint.tx && a.outpoint.index <= b.outpoint.index))
  {
    ByAmountIsTotal(less);
    S.SortOrders(cs, ByAmount(less));
  }

  // ----- one candidate ----------------------------------------------------------------------------------------------

  /** These coins pay: the fee is the mass of the candidate with all the excess as change, times the rate. */
  ghost predicate Pays(w: World, f: Frame, sender: Key, rate: nat, coins: seq<Coin>, b: Built) {
    var all := CoinSum(coins) - f.required;
    && all > 10_000 && b.inputs == f.inputs + coins
    && b.fee == w.feeMass(b.inputs, f.outputs + [Out(all, KeyLock(sender), None)]) * rate < 0x1_0000_0000_0000_0000
    && b.change == all - b.fee >= 10_000
    && b.outputs == f.outputs + [Out(b.change, KeyLock(sender), None)]
    && w.weigh(b.inputs, b.outputs) == Within
  }

  /** The last of these coins may be used: it is not in yet, and the coins stay within the monetary range. */
  ghost predicate Usable(f: Frame, coins: seq<Coin>)
    requires coins != []
  {
    && (forall c :: c in f.inputs + coins[..|coins| - 1] ==> c.outpoint != coins[|coins| - 1].outpoint)
    && CoinSum(coins) <= 28_700_000_000 * 100_000_000
  }

  /** Too little for price, reserve, fee and spendable change, or too heavy. */
  ghost predicate FallsShort(w: World, f: Frame, sender: Key, rate: nat, coins: seq<Coin>) {
    var all := CoinSum(coins) - f.required;
    || all <= 10_000
    || var fee := w.feeMass(f.inputs + coins, f.outputs + [Out(all, KeyLock(sender), None)]) * rate;
       && fee < 0x1_0000_0000_0000_0000
       && (all < fee + 10_000
           || w.weigh(f.inputs + coins, f.outputs + [Out(all - fee, KeyLock(sender), None)]) == Over)
  }

  lemma OutpointsAre(cs: seq<Coin>, o: Outpoint)
    ensures o in Outpoints(cs) <==> exists c :: c in cs && c.outpoint == o
  {
  }

  /** What one more coin leads to. */
  lemma TurnExactly(w: World, f: Frame, sender: Key, rate: nat, funding: seq<Coin>, k: nat, b: Built)
    requires 1 <= k <= |funding|
    ensures Turn(w, f, sender, rate, funding, k) == Done(b)
       <==> Usable(f, funding[..k]) && Pays(w, f, sender, rate, funding[..k], b)
    ensures Turn(w, f, sender, rate, funding, k) == More
       <==> Usable(f, funding[..k]) && FallsShort(w, f, sender, rate, funding[..k])
  {
    hide CoinSum, Outpoints;
    assert funding[..k][..k - 1] == funding[..k - 1];
    OutpointsAre(f.inputs + funding[..k - 1], funding[k - 1].outpoint);
  }

  /**
   A transaction is built exactly from the shortest leading part of the coins that pays, all shorter ones falling
   short, with at most eighty inputs.
   */
  lemma FundedExactly(w: World, f: Frame, sender: Key, rate: nat, funding: seq<Coin>, b: Built)
    ensures Fund(w, f, sender, rate, funding, 0) == Success(b) <==>
              exists k: nat ::
                && 1 <= k <= |funding| && |f.inputs| + k <= 80
                && Usable(f, funding[..k]) && Pays(w, f, sender, rate, funding[..k], b)
                && forall j :: 1 <= j < k ==> Usable(f, funding[..j]) && FallsShort(w, f, sender, rate, funding[..j])
  {
    hide Turn, Pays, FallsShort, Usable, Fund;
    ShortestPartFunds(w, f, sender, rate, funding, 0, b);
    forall k: nat | 1 <= k <= |funding|
      ensures Turn(w, f, sender, rate, funding, k) == Done(b)
         <==> Usable(f, funding[..k]) && Pays(w, f, sender, rate, funding[..k], b)
      ensures Turn(w, f, sender, rate, funding, k) == More
         <==> Usable(f, funding[..k]) && FallsShort(w, f, sender, rate, funding[..k]) {
      TurnExactly(w, f, sender, rate, funding, k, b);
    }
    if Fund(w, f, sender, rate, funding, 0) == Success(b) {
      var k: nat :| Reaches(w, f, sender, rate, funding, 0, k) && Turn(w, f, sender, rate, funding, k) == Done(b);
      assert 1 <= k <= |funding|;
    }
    if k: nat :| && 1 <= k <= |funding| && |f.inputs| + k <= 80
                 && Usable(f, funding[..k]) && Pays(w, f, sender, rate, funding[..k], b)
                 && forall j :: 1 <= j < k ==> Usable(f, funding[..j]) && FallsShort(w, f, sender, rate, funding[..j]) {
      assert Reaches(w, f, sender, rate, funding, 0, k);
    }
  }

  // ----- the requests that are taken up ------------------------------------------------------------------------------

  /** The request makes sense: who may do what, at which price and fee rate, for which name. */
  predicate Sensible(w: World, r: Request) {
    && 10 * 100_000_000 <= r.terms.price <= 28_700_000_000 * 100_000_000 && 1 <= r.feeRate <= 10_000
    && (r.action != Buy ==> r.sender == r.terms.seller)
    && (r.sale == None <==> r.action == List)
    && r.funding != [] && ValidName(r.terms.name) && ValidOwner(w.deployment, 0, r.terms.seller)
  }

  /** The cells it names are what they must be: a deed of the registry with its bond, and a sale with its reserve. */
  predicate Trustworthy(w: World, r: Request)
    requires Deployed(w.deployment) && Sensible(w, r)
  {
    var d, fee := w.deployment, r.terms.price * 21 / 1000;
    ScriptExactly(d, r.terms.name, 0, r.terms.seller);
    var own := Script(d, r.terms.name, 0, r.terms.seller).value;
    var s := SaleTerms(r.terms.seller, r.terms.feeLock, r.terms.price - fee, fee, Prefix(own), Suffix(own));
    var sale := Out(100_000_000, ProgramLock(w.compile(s)), None);
    var id := if r.action == List then w.covenantOf(r.funding[0].outpoint, sale) else r.sale.value.covenant;
    && id != d.registry && ValidOwner(d, 4, id) && ValidOwner(d, 0, r.sender)
    && r.deed.covenant == d.registry && r.deed.value == 100_000_000
    && (r.action == List ==> r.deed.lock == ProgramLock(own))
    && (r.action != List ==>
          && r.deed.lock == ProgramLock(Script(d, r.terms.name, 4, id).value)
          && r.sale.value.value == 100_000_000 && r.sale.value.lock == ProgramLock(w.compile(s))
          && r.sale.value.outpoint != r.deed.outpoint)
  }

  lemma ScriptExactly(d: Deployment, name: bytes, ownerType: byte, owner: Key)
    requires Deployed(d)
    ensures Script(d, name, ownerType, owner).Some? <==> ValidName(name) && ValidOwner(d, ownerType, owner)
    ensures Script(d, name, ownerType, owner).Some? ==> |Script(d, name, ownerType, owner).value| >= REST
  {
    if Script(d, name, ownerType, owner).Some? {
      ScriptParts(d, name, ownerType, owner);
    }
  }

  /** A request is taken up exactly if it is sensible and its cells are trustworthy. */
  lemma FrameExactly(w: World, r: Request)
    requires Deployed(w.deployment)
    ensures FrameOf(w, r).Success? <==> Sensible(w, r) && Trustworthy(w, r)
  {
  }

  /** What a listing starts from: the seller's deed goes in; the sale's deed and the sale itself come out. */
  lemma ListingShape(w: World, r: Request)
    requires Deployed(w.deployment) && r.action == List && FrameOf(w, r).Success?
    ensures SaleTermsOf(w, r.terms).Some?
    ensures var f, s := FrameOf(w, r).value, SaleTermsOf(w, r.terms).value;
            var sale := Out(100_000_000, ProgramLock(w.compile(s)), None);
            var id := w.covenantOf(r.funding[0].outpoint, sale);
            && f.inputs == [Coin(r.deed.outpoint, 100_000_000, r.deed.lock, Some(w.deployment.registry))]
            && Script(w.deployment, r.terms.name, 4, id).Some?
            && f.outputs == [Out(100_000_000, ProgramLock(Script(w.deployment, r.terms.name, 4, id).value),
                                 Some(Binding(0, w.deployment.registry))),
                             sale.(binding := Some(Binding(1, id)))]
            && f.required == 100_000_000
  {
    hide Script, ValidName, ValidOwner, Prefix, Suffix;
  }
}
