/**
 * The check of a Kasseal swap. Every input and output is plain wallet KAS, a token cell of the wallet,
 * a token cell of the venue, or the venue itself; the check asks for balances of these parts only.
 */
module Kasseal {
  import opened Wrappers
  import opened Words
  import opened Bytes
  import opened PushScript
  import opened KassealToken
  import opened Totals

  const FEE_CAP := 200_000_000
  const MAX_INPUTS := 32
  const MAX_OUTPUTS := 16
  const CREATOR_WINDOW := 200

  type u64 = n: nat | n < U64_LIMIT

  datatype Script = WalletKey | ScriptHash(program: bytes) | Foreign(tag: nat)
  datatype Input = Input(amount: u64, script: Script, covenant: Option<Key>, sequence: u64, unlock: bytes)
  datatype Output = Output(value: u64, script: Script, covenant: Option<Key>)

  datatype Venue = Pool | Curve | OtherVenue
  datatype Pins = Pins(token: TokenProgram, pool: Pin, curves: seq<Pin>)

  /** What the user was shown; the net and the deposit refund are checked only where given. */
  datatype Review = Review(
    buy: bool, venue: Venue, tokenAmount: u64, minimumReceive: u64, rawAmount: u64, maxSpend: u64, kas: u64,
    networkFee: u64, walletNet: Option<int>, walletChange: u64, depositRefund: Option<u64>)

  datatype Swap = Swap(
    inputs: seq<Input>, outputs: seq<Output>, selected: set<nat>,
    prebuilt: map<nat, bytes>, outputPrograms: map<nat, bytes>,
    wallet: Key, walletSpk: bytes, token: Key, market: Key, pins: Pins, review: Review)

  /** The part an input or an output plays. */
  datatype Part = Plain | OwnTokens(tokens: nat) | VenueTokens | Market | Refused

  // ----- venues -----------------------------------------------------------------------------------------------

  function FirstMatch(curves: seq<Pin>, program: bytes): Option<Pin> {
    if curves == [] then None
    else if Matches(program, curves[0]) then Some(curves[0])
    else FirstMatch(curves[1..], program)
  }

  predicate AllZero(b: bytes) {
    forall i :: 0 <= i < |b| ==> b[i] == 0
  }

  /** A first purchase by anyone but the creator waits out the creator window. */
  function CurveSequence(pin: Pin, program: bytes, wallet: bytes, buy: bool): Option<nat> {
    if !buy || !pin.window then Some(0)
    else if |program| < 52 || pin.creators == [] || CreatorAt(program, pin.creators[0]).None? then None
    else if AllZero(program[35..43]) && AllZero(program[44..52]) && CreatorAt(program, pin.creators[0]).value != wallet
    then Some(CREATOR_WINDOW)
    else Some(0)
  }

  predicate NamesToken(s: Swap, program: bytes) {
    |program| >= 34 && program[2..34] == s.token
  }

  /** The sequence a pinned venue input must carry, if the program is a pinned venue of this token. */
  function VenueSequence(s: Swap, program: bytes): Option<nat> {
    if !NamesToken(s, program) || program[1] != 32 then None
    else
      match s.review.venue
      case Pool => if Matches(program, s.pins.pool) then Some(0) else None
      case Curve =>
        (match FirstMatch(s.pins.curves, program)
         case None => None
         case Some(pin) => CurveSequence(pin, program, s.walletSpk, s.review.buy))
      case OtherVenue => None
  }

  predicate VenueContinues(s: Swap, program: bytes) {
    && NamesToken(s, program)
    && if s.review.venue.Pool? then Matches(program, s.pins.pool) else FirstMatch(s.pins.curves, program).Some?
  }

  // ----- the parts --------------------------------------------------------------------------------------------

  function UnlockOf(s: Swap, i: nat): bytes
    requires i < |s.inputs|
  {
    if i in s.prebuilt then s.prebuilt[i] else s.inputs[i].unlock
  }

  function InPart(s: Swap, i: nat): Part {
    if i >= |s.inputs| then Refused
    else
      var e := s.inputs[i];
      if e.covenant.None? then
        if e.sequence == 0 && e.script == WalletKey && i in s.selected then Plain else Refused
      else
        match LastPush(UnlockOf(s, i), 0, [])
        case Failure(_) => Refused
        case Success(program) => if e.script != ScriptHash(program) then Refused else CellPart(s, i, program)
  }

  function CellPart(s: Swap, i: nat, program: bytes): Part
    requires i < |s.inputs|
  {
    var e := s.inputs[i];
    if e.covenant == Some(s.token) then
      match Token(s.pins.token, program)
      case None => Refused
      case Some(h) =>
        if e.sequence != 0 then Refused
        else if h.scheme == 0 && h.key == s.wallet then
          if i in s.selected then OwnTokens(h.amount) else Refused
        else if h.scheme == 4 && h.key == s.market && i !in s.selected then VenueTokens
        else Refused
    else if && e.covenant == Some(s.market) && i !in s.selected
            && VenueSequence(s, program) == Some(e.sequence) then Market
    else Refused
  }

  function OutPart(s: Swap, i: nat): Part {
    if i >= |s.outputs| then Refused
    else
      var o := s.outputs[i];
      if o.covenant.None? then
        if o.script == WalletKey then Plain else Refused
      else if i !in s.outputPrograms || o.script != ScriptHash(s.outputPrograms[i]) then Refused
      else if o.covenant == Some(s.token) then
        match Token(s.pins.token, s.outputPrograms[i])
        case None => Refused
        case Some(h) =>
          if h.scheme == 0 && h.key == s.wallet then OwnTokens(h.amount)
          else if h.scheme == 4 && h.key == s.market then VenueTokens
          else Refused
      else if o.covenant == Some(s.market) && VenueContinues(s, s.outputPrograms[i]) then Market
      else Refused
  }

  // ----- what the parts add up to -------------------------------------------------------------------------------

  /** One side of the transaction: the KAS at each position and the part it plays. */
  datatype Side = Side(kas: seq<u64>, part: seq<Part>)

  ghost predicate Paired(x: Side) {
    |x.kas| == |x.part|
  }

  function Ins(s: Swap): (x: Side)
    ensures Paired(x) && |x.kas| == |s.inputs|
  {
    Side(seq(|s.inputs|, i requires 0 <= i < |s.inputs| => s.inputs[i].amount),
         seq(|s.inputs|, (i: nat) => InPart(s, i)))
  }

  function Outs(s: Swap): (x: Side)
    ensures Paired(x) && |x.kas| == |s.outputs|
  {
    Side(seq(|s.outputs|, i requires 0 <= i < |s.outputs| => s.outputs[i].value),
         seq(|s.outputs|, (i: nat) => OutPart(s, i)))
  }

  function Whole(x: Side): nat -> nat {
    (i: nat) => if i < |x.kas| then x.kas[i] else 0
  }

  function InPlain(x: Side): nat -> nat
    requires Paired(x)
  {
    (i: nat) => if i < |x.kas| && x.part[i].Plain? then x.kas[i] else 0
  }

  function InOwn(x: Side): nat -> nat
    requires Paired(x)
  {
    (i: nat) => if i < |x.kas| && x.part[i].OwnTokens? then x.kas[i] else 0
  }

  function InVenue(x: Side): nat -> nat
    requires Paired(x)
  {
    (i: nat) => if i < |x.kas| && x.part[i].VenueTokens? then x.kas[i] else 0
  }

  function InMarket(x: Side): nat -> nat
    requires Paired(x)
  {
    (i: nat) => if i < |x.kas| && x.part[i].Market? then x.kas[i] else 0
  }

  function OwnedTokens(x: Side): nat -> nat
    requires Paired(x)
  {
    (i: nat) => if i < |x.kas| && x.part[i].OwnTokens? then x.part[i].tokens else 0
  }

  function Markets(x: Side): nat -> nat
    requires Paired(x)
  {
    (i: nat) => if i < |x.kas| && x.part[i].Market? then 1 else 0
  }

  /** The four running totals of a side. */
  datatype Sums = Sums(plain: nat, tokens: nat, locked: nat, market: nat)

  /** Nothing is refused, there is exactly one venue, and the plain KAS fits a word. */
  predicate Admissible(x: Side)
    requires Paired(x)
  {
    && (forall i :: 0 <= i < |x.part| ==> !x.part[i].Refused?)
    && Total(Markets(x), |x.kas|) == 1
    && Total(InPlain(x), |x.kas|) < U64_LIMIT
    && Total(OwnedTokens(x), |x.kas|) < U64_LIMIT
  }

  /** What a word keeps of a number added without a check. */
  function Wrapped(n: nat): nat {
    n % U64_LIMIT
  }

  /** The totals the loop ends with. The KAS in the wallet's token cells is added without a check and may wrap. */
  function SumsOf(x: Side): Sums
    requires Paired(x)
  {
    var n := |x.kas|;
    Sums(Total(InPlain(x), n), Total(OwnedTokens(x), n), Wrapped(Total(InOwn(x), n)), Total(InMarket(x), n))
  }

  lemma NextTotals(x: Side, i: nat)
    requires Paired(x) && i < |x.kas|
    ensures Total(InPlain(x), i + 1) == Total(InPlain(x), i) + if x.part[i].Plain? then x.kas[i] else 0
    ensures Total(OwnedTokens(x), i + 1)
         == Total(OwnedTokens(x), i) + if x.part[i].OwnTokens? then x.part[i].tokens else 0
    ensures Total(InOwn(x), i + 1) == Total(InOwn(x), i) + if x.part[i].OwnTokens? then x.kas[i] else 0
    ensures Total(InMarket(x), i + 1) == Total(InMarket(x), i) + if x.part[i].Market? then x.kas[i] else 0
    ensures Total(Markets(x), i + 1) == Total(Markets(x), i) + if x.part[i].Market? then 1 else 0
    ensures Total(InPlain(x), i + 1) <= Total(InPlain(x), |x.kas|)
    ensures Total(OwnedTokens(x), i + 1) <= Total(OwnedTokens(x), |x.kas|)
    ensures Total(Markets(x), i + 1) <= Total(Markets(x), |x.kas|)
  {
    TotalMonotone(InPlain(x), i + 1, |x.kas|);
    TotalMonotone(OwnedTokens(x), i + 1, |x.kas|);
    TotalMonotone(Markets(x), i + 1, |x.kas|);
  }

  /** The running totals of the first `i` positions, none of them refused. */
  predicate Tallied(x: Side, i: nat, plain: nat, tokens: nat, locked: nat, market: Option<u64>)
    requires Paired(x)
  {
    && i <= |x.kas|
    && (forall k :: 0 <= k < i ==> !x.part[k].Refused?)
    && plain == Total(InPlain(x), i) < U64_LIMIT && tokens == Total(OwnedTokens(x), i) < U64_LIMIT
    && locked == Wrapped(Total(InOwn(x), i))
    && Total(Markets(x), i) == (if market.None? then 0 else 1)
    && Total(InMarket(x), i) == (if market.None? then 0 else market.value)
  }

  /** One turn of the loop either keeps the totals or shows the side inadmissible. */
  lemma TallyNext(x: Side, i: nat, plain: nat, tokens: nat, locked: nat, market: Option<u64>)
    requires Paired(x) && i < |x.kas| && Tallied(x, i, plain, tokens, locked, market)
    ensures
      match x.part[i]
      case Plain =>
        if plain + x.kas[i] >= U64_LIMIT then !Admissible(x)
        else Tallied(x, i + 1, plain + x.kas[i], tokens, locked, market)
      case OwnTokens(amount) =>
        if tokens + amount >= U64_LIMIT then !Admissible(x)
        else Tallied(x, i + 1, plain, tokens + amount, Wrapped(locked + x.kas[i]), market)
      case VenueTokens => Tallied(x, i + 1, plain, tokens, locked, market)
      case Market =>
        if market.Some? then !Admissible(x)
        else Tallied(x, i + 1, plain, tokens, locked, Some(x.kas[i]))
      case Refused => !Admissible(x)
  {
    hide InPlain, OwnedTokens, InOwn, InMarket, Markets, Wrapped;
    NextTotals(x, i);
    WrapAdds(Total(InOwn(x), i), x.kas[i]);
  }

  /** One loop of the check as written, over the inputs or over the outputs. */
  method Scan(x: Side) returns (r: Option<Sums>)
    requires Paired(x)
    ensures r == if Admissible(x) then Some(SumsOf(x)) else None
  {
    var plain: nat, tokens: nat, locked: nat, market: Option<u64>, i := 0, 0, 0, None, 0;
    while i < |x.kas|
      invariant Tallied(x, i, plain, tokens, locked, market)
    {
      hide Tallied, Admissible, Wrapped;
      TallyNext(x, i, plain, tokens, locked, market);
      match x.part[i] {
        case Plain =>
          if plain + x.kas[i] >= U64_LIMIT {
            return None;
          }
          plain := plain + x.kas[i];
        case OwnTokens(amount) =>
          if tokens + amount >= U64_LIMIT {
            return None;
          }
          tokens, locked := tokens + amount, Wrapped(locked + x.kas[i]);
        case VenueTokens =>
        case Market =>
          if market.Some? {
            return None;
          }
          market := Some(x.kas[i]);
        case Refused =>
          return None;
      }
      i := i + 1;
    }
    if market.None? {
      return None;
    }
    return Some(Sums(plain, tokens, locked, market.value));
  }

  lemma WrapAdds(a: nat, b: nat)
    ensures Wrapped(Wrapped(a) + b) == Wrapped(a + b)
  {
    var q := a / U64_LIMIT;
    assert a + b == q * U64_LIMIT + (a % U64_LIMIT + b);
    WrapShift(a % U64_LIMIT + b, q);
  }

  lemma {:induction false} WrapShift(a: nat, q: nat)
    ensures (q * U64_LIMIT + a) % U64_LIMIT == a % U64_LIMIT
  {
    if q > 0 {
      WrapShift(a, q - 1);
      assert q * U64_LIMIT + a == ((q - 1) * U64_LIMIT + a) + U64_LIMIT;
    }
  }

  function Fee(s: Swap): int {
    Total(Whole(Ins(s)), |s.inputs|) - Total(Whole(Outs(s)), |s.outputs|)
  }

  /** The sums meet the reviewed terms. */
  predicate TermsMet(v: Review, a: Sums, b: Sums, fee: int) {
    var debit := a.plain - b.plain;
    && 0 <= fee <= FEE_CAP && fee == v.networkFee
    && (v.walletNet.Some? ==>
        && v.walletNet.value == -debit && v.walletChange == b.plain
        && (!v.buy && v.depositRefund.Some? ==> v.depositRefund.value == a.locked - b.locked))
    && if v.buy then
         && a.tokens == 0 && b.tokens == v.tokenAmount >= v.minimumReceive && 0 < v.tokenAmount
         && 0 < v.kas <= v.rawAmount && b.market - a.market == v.kas
         && debit == v.kas + b.locked + fee && debit <= v.maxSpend
       else
         && a.tokens > 0 && a.tokens - b.tokens == v.tokenAmount == v.rawAmount
         && a.market - b.market == v.kas >= v.minimumReceive
         && -debit == v.kas + a.locked - b.locked - fee && -debit >= v.minimumReceive
  }

  predicate Accepts(s: Swap) {
    && |s.inputs| <= MAX_INPUTS && |s.outputs| <= MAX_OUTPUTS && s.token != s.market
    && Admissible(Ins(s)) && Admissible(Outs(s))
    && TermsMet(s.review, SumsOf(Ins(s)), SumsOf(Outs(s)), Fee(s))
  }

  method Validate(s: Swap) returns (ok: bool)
    ensures ok <==> Accepts(s)
  {
    hide InPart, OutPart, Admissible, TermsMet, SumsOf;
    if |s.inputs| > MAX_INPUTS || |s.outputs| > MAX_OUTPUTS || s.token == s.market {
      return false;
    }
    var a := Scan(Ins(s));
    if a.None? {
      return false;
    }
    var b := Scan(Outs(s));
    if b.None? {
      return false;
    }
    return TermsMet(s.review, a.value, b.value, Fee(s));
  }

  // ----- what an accepted swap does to the KAS of each part ---------------------------------------------------

  function Kas(x: Side): (nat, nat, nat, nat)
    requires Paired(x)
  {
    var n := |x.kas|;
    (Total(InPlain(x), n), Total(InOwn(x), n), Total(InVenue(x), n), Total(InMarket(x), n))
  }

  function Cells(x: Side): nat -> nat
    requires Paired(x)
  {
    (i: nat) => var sum: nat := InOwn(x)(i) + InVenue(x)(i); sum
  }

  function Others(x: Side): nat -> nat
    requires Paired(x)
  {
    (i: nat) => var sum: nat := InPlain(x)(i) + InMarket(x)(i); sum
  }

  /** The parts partition a side. */
  lemma PartsAddUp(x: Side)
    requires Paired(x) && forall i :: 0 <= i < |x.part| ==> !x.part[i].Refused?
    ensures Total(Whole(x), |x.kas|) == Kas(x).0 + Kas(x).1 + Kas(x).2 + Kas(x).3
  {
    var n := |x.kas|;
    TotalAdds(InOwn(x), InVenue(x), Cells(x), n);
    TotalAdds(InPlain(x), InMarket(x), Others(x), n);
    forall i | 0 <= i < n ensures Whole(x)(i) == Cells(x)(i) + Others(x)(i) {
      assert !x.part[i].Refused?;
    }
    TotalAdds(Cells(x), Others(x), Whole(x), n);
  }

  /** How often the unchecked sum of the wallet's cells wraps. */
  function Wraps(x: Side): nat
    requires Paired(x)
  {
    Kas(x).1 / U64_LIMIT
  }

  lemma KasBalance(s: Swap)
    requires Accepts(s)
    ensures var a, b := Kas(Ins(s)), Kas(Outs(s));
            a.0 + a.1 + a.2 + a.3 == b.0 + b.1 + b.2 + b.3 + s.review.networkFee
  {
    hide InPart, OutPart;
    PartsAddUp(Ins(s));
    PartsAddUp(Outs(s));
  }

  /** What the reviewed terms say about the parts. */
  lemma TermsInKas(s: Swap)
    requires Accepts(s)
    ensures var a, b, v := Kas(Ins(s)), Kas(Outs(s)), s.review;
            if v.buy then
              b.3 - a.3 == v.kas && a.0 - b.0 == v.kas + Wrapped(b.1) + v.networkFee
            else
              a.3 - b.3 == v.kas && b.0 - a.0 == v.kas + Wrapped(a.1) - Wrapped(b.1) - v.networkFee
  {
    hide InPart, OutPart, Ins, Outs, Admissible, InPlain, OwnedTokens, InOwn, InMarket, InVenue;
  }

  /** A sale moves the KAS inside the venue's token cells by whole words, one for each wrap of the unchecked sums. */
  lemma SellMovesWraps(s: Swap)
    requires Accepts(s) && !s.review.buy
    ensures Kas(Ins(s)).2 - Kas(Outs(s)).2 == U64_LIMIT * (Wraps(Outs(s)) - Wraps(Ins(s)))
  {
    hide Accepts, Kas, Ins, Outs;
    KasBalance(s);
    TermsInKas(s);
  }

  /** An accepted sale leaves the KAS inside the venue's token cells unchanged, exactly when the sums wrap equally. */
  lemma SellKeepsVenueKasExactly(s: Swap)
    requires Accepts(s) && !s.review.buy
    ensures Kas(Ins(s)).2 == Kas(Outs(s)).2 <==> Wraps(Ins(s)) == Wraps(Outs(s))
  {
    hide Accepts, Kas, Wraps, Ins, Outs;
    SellMovesWraps(s);
  }

  /** An accepted purchase moves the wallet's empty token cells into the venue's, up to wraps of the created ones. */
  lemma BuyMovesOwnCells(s: Swap)
    requires Accepts(s) && s.review.buy
    ensures Kas(Outs(s)).2 - Kas(Ins(s)).2 == Kas(Ins(s)).1 - U64_LIMIT * Wraps(Outs(s))
    ensures forall i :: 0 <= i < |s.inputs| && InPart(s, i).OwnTokens? ==> InPart(s, i).tokens == 0
  {
    hide InPart, Kas, Ins, Outs, Admissible;
    KasBalance(s);
    TermsInKas(s);
    EmptyCells(s);
  }

  lemma EmptyCells(s: Swap)
    requires Total(OwnedTokens(Ins(s)), |s.inputs|) == 0
    ensures forall i :: 0 <= i < |s.inputs| && InPart(s, i).OwnTokens? ==> InPart(s, i).tokens == 0
  {
    hide InPart;
    TotalZero(OwnedTokens(Ins(s)), |s.inputs|);
    forall i | 0 <= i < |s.inputs| && InPart(s, i).OwnTokens? ensures InPart(s, i).tokens == 0 {
      assert Ins(s).part[i] == InPart(s, i) && OwnedTokens(Ins(s))(i) == 0;
    }
  }

  /** No wrap can happen while all the KAS spent fits a word. */
  lemma NoWraps(s: Swap)
    requires Accepts(s) && Total(Whole(Ins(s)), |s.inputs|) < U64_LIMIT
    ensures Wraps(Ins(s)) == 0 && Wraps(Outs(s)) == 0
  {
    hide InPart, OutPart, TermsMet;
    PartsAddUp(Ins(s));
    PartsAddUp(Outs(s));
    KasBalance(s);
  }

  /** With sums that fit a word: a sale keeps the venue's cells, a purchase feeds them exactly the wallet's cells. */
  lemma VenueCells(s: Swap)
    requires Accepts(s) && Total(Whole(Ins(s)), |s.inputs|) < U64_LIMIT
    ensures Kas(Outs(s)).2 - Kas(Ins(s)).2 == if s.review.buy then Kas(Ins(s)).1 else 0
  {
    hide Accepts, Kas, Wraps, Ins, Outs;
    NoWraps(s);
    if s.review.buy {
      BuyMovesOwnCells(s);
    } else {
      SellMovesWraps(s);
    }
  }

  /** What the wallet as a whole gives or gets: plain KAS and its own token cells together. */
  lemma WalletPaysTheReview(s: Swap)
    requires Accepts(s) && Total(Whole(Ins(s)), |s.inputs|) < U64_LIMIT
    ensures var a, b, v := Kas(Ins(s)), Kas(Outs(s)), s.review;
            (a.0 + a.1) - (b.0 + b.1) == if v.buy then v.kas + v.networkFee + a.1 else v.networkFee - v.kas
  {
    hide Accepts, Kas, Ins, Outs;
    NoWraps(s);
    TermsInKas(s);
  }

  /** The token sums cannot overflow: each cell holds at most the supply and there are few cells. */
  lemma {:induction false} TokensFit(x: Side, n: nat)
    requires Paired(x) && n <= |x.kas|
    requires forall i :: 0 <= i < n && x.part[i].OwnTokens? ==> x.part[i].tokens <= SUPPLY
    ensures Total(OwnedTokens(x), n) <= n * SUPPLY
  {
    if n > 0 {
      TokensFit(x, n - 1);
    }
  }

  lemma OverflowIsUnreachable(s: Swap)
    requires |s.inputs| <= MAX_INPUTS && |s.outputs| <= MAX_OUTPUTS
    ensures Total(OwnedTokens(Ins(s)), |s.inputs|) < U64_LIMIT && Total(OwnedTokens(Outs(s)), |s.outputs|) < U64_LIMIT
  {
    TokensFit(Ins(s), |s.inputs|);
    TokensFit(Outs(s), |s.outputs|);
  }
}
