/** What an accepted Kasseal swap does for the user, read from the scripts of both sides, against the reviewed terms. */
module KassealReview {
  import opened Wrappers
  import opened Words
  import opened Bytes
  import opened PushScript
  import opened KassealToken
  import opened Totals
  import opened Kasseal

  // ----- reading a side from its scripts --------------------------------------------------------------------------

  /** The wallet's tokens in a cell: those of a pinned token program that names the wallet's key as owner. */
  function TokensIn(s: Swap, covenant: Option<Key>, script: Script): nat {
    if covenant != Some(s.token) || !script.ScriptHash? then 0
    else
      match Token(s.pins.token, script.program)
      case None => 0
      case Some(h) => if h.scheme == 0 && h.key == s.wallet then h.amount else 0
  }

  function KasIn(covenant: Option<Key>, script: Script, amount: nat): nat {
    if covenant == None && script == WalletKey then amount else 0
  }

  function TokensBefore(s: Swap): nat -> nat {
    (i: nat) => if i < |s.inputs| then TokensIn(s, s.inputs[i].covenant, s.inputs[i].script) else 0
  }

  function TokensAfter(s: Swap): nat -> nat {
    (i: nat) => if i < |s.outputs| then TokensIn(s, s.outputs[i].covenant, s.outputs[i].script) else 0
  }

  function KasBefore(s: Swap): nat -> nat {
    (i: nat) => if i < |s.inputs| then KasIn(s.inputs[i].covenant, s.inputs[i].script, s.inputs[i].amount) else 0
  }

  function KasAfter(s: Swap): nat -> nat {
    (i: nat) => if i < |s.outputs| then KasIn(s.outputs[i].covenant, s.outputs[i].script, s.outputs[i].value) else 0
  }

  /** The KAS locked in the market itself. */
  function MarketBefore(s: Swap): nat -> nat {
    (i: nat) => if i < |s.inputs| && s.inputs[i].covenant == Some(s.market) then s.inputs[i].amount else 0
  }

  function MarketAfter(s: Swap): nat -> nat {
    (i: nat) => if i < |s.outputs| && s.outputs[i].covenant == Some(s.market) then s.outputs[i].value else 0
  }

  /** The wallet's tokens and plain KAS, and the market's KAS, before and after. */
  datatype Books = Books(tokensIn: nat, tokensOut: nat, kasIn: nat, kasOut: nat, marketIn: nat, marketOut: nat)

  function BooksOf(s: Swap): Books {
    Books(Total(TokensBefore(s), |s.inputs|), Total(TokensAfter(s), |s.outputs|),
          Total(KasBefore(s), |s.inputs|), Total(KasAfter(s), |s.outputs|),
          Total(MarketBefore(s), |s.inputs|), Total(MarketAfter(s), |s.outputs|))
  }

  // ----- the parts say the same -------------------------------------------------------------------------------------

  lemma InputReads(s: Swap, i: nat)
    requires s.token != s.market && i < |s.inputs| && !InPart(s, i).Refused?
    ensures TokensBefore(s)(i) == OwnedTokens(Ins(s))(i)
    ensures KasBefore(s)(i) == InPlain(Ins(s))(i)
    ensures MarketBefore(s)(i) == InMarket(Ins(s))(i)
  {
    hide LastPush, Token, VenueSequence;
  }

  lemma OutputReads(s: Swap, i: nat)
    requires s.token != s.market && i < |s.outputs| && !OutPart(s, i).Refused?
    ensures TokensAfter(s)(i) == OwnedTokens(Outs(s))(i)
    ensures KasAfter(s)(i) == InPlain(Outs(s))(i)
    ensures MarketAfter(s)(i) == InMarket(Outs(s))(i)
  {
    hide Token, VenueContinues;
  }

  lemma BooksAreSums(s: Swap)
    requires s.token != s.market && Admissible(Ins(s)) && Admissible(Outs(s))
    ensures var a, b, x := Ins(s), Outs(s), BooksOf(s);
            && x.tokensIn == Total(OwnedTokens(a), |s.inputs|) && x.tokensOut == Total(OwnedTokens(b), |s.outputs|)
            && x.kasIn == Total(InPlain(a), |s.inputs|) && x.kasOut == Total(InPlain(b), |s.outputs|)
            && x.marketIn == Total(InMarket(a), |s.inputs|) && x.marketOut == Total(InMarket(b), |s.outputs|)
  {
    hide TokensBefore, TokensAfter, KasBefore, KasAfter, MarketBefore, MarketAfter, OwnedTokens, InPlain, InMarket;
    hide InPart, OutPart;
    var a, b, n, m := Ins(s), Outs(s), |s.inputs|, |s.outputs|;
    forall i | 0 <= i < n
      ensures TokensBefore(s)(i) == OwnedTokens(a)(i) && KasBefore(s)(i) == InPlain(a)(i)
      ensures MarketBefore(s)(i) == InMarket(a)(i) {
      assert a.part[i] == InPart(s, i);
      InputReads(s, i);
    }
    forall i | 0 <= i < m
      ensures TokensAfter(s)(i) == OwnedTokens(b)(i) && KasAfter(s)(i) == InPlain(b)(i)
      ensures MarketAfter(s)(i) == InMarket(b)(i) {
      assert b.part[i] == OutPart(s, i);
      OutputReads(s, i);
    }
    TotalSame(TokensBefore(s), OwnedTokens(a), n);
    TotalSame(KasBefore(s), InPlain(a), n);
    TotalSame(MarketBefore(s), InMarket(a), n);
    TotalSame(TokensAfter(s), OwnedTokens(b), m);
    TotalSame(KasAfter(s), InPlain(b), m);
    TotalSame(MarketAfter(s), InMarket(b), m);
  }

  // ----- what the user gets ---------------------------------------------------------------------------------------

  /**
   An accepted purchase brings exactly the reviewed tokens, at least the reviewed minimum and never none, for exactly
   the reviewed KAS into the market, and takes no more plain KAS than the reviewed maximum, fee and deposits included.
   */
  lemma PurchaseDelivers(s: Swap)
    requires Accepts(s) && s.review.buy
    ensures var x, v := BooksOf(s), s.review;
            && x.tokensIn == 0 && x.tokensOut == v.tokenAmount >= Max(1, v.minimumReceive)
            && x.marketOut - x.marketIn == v.kas && 1 <= v.kas <= v.rawAmount
            && v.kas + v.networkFee <= x.kasIn - x.kasOut <= v.maxSpend
  {
    hide InPart, OutPart, BooksOf;
    BooksAreSums(s);
  }

  /**
   An accepted sale takes exactly the reviewed tokens, all that were asked to be sold, takes exactly the reviewed KAS
   out of the market, and pays the wallet at least the reviewed minimum after the fee.
   */
  lemma SalePays(s: Swap)
    requires Accepts(s) && !s.review.buy
    ensures var x, v := BooksOf(s), s.review;
            && x.tokensIn > 0 && x.tokensIn - x.tokensOut == v.tokenAmount == v.rawAmount
            && x.marketIn - x.marketOut == v.kas >= v.minimumReceive
            && x.kasOut - x.kasIn >= v.minimumReceive
  {
    hide InPart, OutPart, BooksOf;
    BooksAreSums(s);
  }

  /** Where the review states them, the wallet's net, its change and the released deposits are the actual ones. */
  lemma ReviewStatesNet(s: Swap)
    requires Accepts(s)
    ensures var x, v := BooksOf(s), s.review;
            && 0 <= v.networkFee <= 200_000_000
            && v.networkFee == Total(Whole(Ins(s)), |s.inputs|) - Total(Whole(Outs(s)), |s.outputs|)
            && (v.walletNet.Some? ==> v.walletNet.value == x.kasOut - x.kasIn && v.walletChange == x.kasOut)
            && (v.walletNet.Some? && !v.buy && v.depositRefund.Some? ==>
                  v.depositRefund.value == Kas(Ins(s)).1 % U64_LIMIT - Kas(Outs(s)).1 % U64_LIMIT)
  {
    hide InPart, OutPart, BooksOf;
    BooksAreSums(s);
  }

  /** The terms a purchase and a sale must meet, once it is clear whose every input and output is. */
  predicate Agreed(v: Review, x: Books, lockedIn: nat, lockedOut: nat, fee: int) {
    && fee == v.networkFee <= 200_000_000
    && (v.walletNet.Some? ==> v.walletNet.value == x.kasOut - x.kasIn && v.walletChange == x.kasOut)
    && if v.buy then
         && x.tokensIn == 0 && x.tokensOut == v.tokenAmount >= Max(1, v.minimumReceive)
         && x.marketOut - x.marketIn == v.kas && 1 <= v.kas <= v.rawAmount
         && x.kasIn - x.kasOut == v.kas + lockedOut + fee <= v.maxSpend
       else
         && x.tokensIn > 0 && x.tokensIn - x.tokensOut == v.tokenAmount == v.rawAmount
         && x.marketIn - x.marketOut == v.kas >= v.minimumReceive
         && x.kasOut - x.kasIn == v.kas + lockedIn - lockedOut - fee >= v.minimumReceive
         && (v.walletNet.Some? && v.depositRefund.Some? ==> v.depositRefund.value == lockedIn - lockedOut)
  }

  /** Exactly which swaps are accepted, in what the scripts of both sides hold. */
  lemma AcceptedExactly(s: Swap)
    ensures Accepts(s) <==>
              && |s.inputs| <= 32 && |s.outputs| <= 16 && s.token != s.market
              && Admissible(Ins(s)) && Admissible(Outs(s))
              && Agreed(s.review, BooksOf(s), Kas(Ins(s)).1 % U64_LIMIT, Kas(Outs(s)).1 % U64_LIMIT,
                        Total(Whole(Ins(s)), |s.inputs|) - Total(Whole(Outs(s)), |s.outputs|))
  {
    hide InPart, OutPart, BooksOf, Admissible;
    if s.token != s.market && Admissible(Ins(s)) && Admissible(Outs(s)) {
      BooksAreSums(s);
    }
  }

  // ----- whose every input and output is --------------------------------------------------------------------------

  /** A program the input reveals, which its script commits to. */
  predicate Reveals(s: Swap, i: nat, program: bytes)
    requires i < |s.inputs|
  {
    && s.inputs[i].script == ScriptHash(program)
    && LastPush(if i in s.prebuilt then s.prebuilt[i] else s.inputs[i].unlock, 0, []) == Success(program)
  }

  predicate IsFunding(s: Swap, i: nat)
    requires i < |s.inputs|
  {
    var e := s.inputs[i];
    e.covenant == None && e.script == WalletKey && e.sequence == 0 && i in s.selected
  }

  /** A revealed cell of the token, with its holding. */
  ghost predicate IsCell(s: Swap, i: nat, h: Holding)
    requires i < |s.inputs|
  {
    var e := s.inputs[i];
    && e.covenant == Some(s.token) && e.sequence == 0
    && exists program :: Reveals(s, i, program) && Token(s.pins.token, program) == Some(h)
  }

  ghost predicate IsVenue(s: Swap, i: nat)
    requires i < |s.inputs|
  {
    var e := s.inputs[i];
    && e.covenant == Some(s.market) && i !in s.selected
    && exists program :: Reveals(s, i, program) && VenueSequence(s, program) == Some(e.sequence)
  }

  /**
   What an input counts as: signed plain KAS of the wallet, a signed cell of the wallet, an unsigned cell of the
   market, or the unsigned market itself. Anything else is refused.
   */
  lemma InputRoles(s: Swap, i: nat)
    requires i < |s.inputs| && s.token != s.market
    ensures InPart(s, i) == Plain <==> IsFunding(s, i)
    ensures forall t :: InPart(s, i) == OwnTokens(t) <==>
              exists h :: IsCell(s, i, h) && h.scheme == 0 && h.key == s.wallet && h.amount == t && i in s.selected
    ensures InPart(s, i) == VenueTokens <==>
              exists h :: IsCell(s, i, h) && h.scheme == 4 && h.key == s.market && i !in s.selected
    ensures InPart(s, i) == Market <==> IsVenue(s, i)
  {
    hide LastPush, Token, VenueSequence;
    var push := LastPush(UnlockOf(s, i), 0, []);
    if push.Success? && s.inputs[i].script == ScriptHash(push.value) {
      assert Reveals(s, i, push.value);
      var read := Token(s.pins.token, push.value);
      if read.Some? && s.inputs[i].covenant == Some(s.token) && s.inputs[i].sequence == 0 {
        assert IsCell(s, i, read.value);
      }
    }
  }

  predicate IsPlainOutput(s: Swap, i: nat)
    requires i < |s.outputs|
  {
    s.outputs[i].covenant == None && s.outputs[i].script == WalletKey
  }

  /** The program stated for a covenant output, which its script commits to. */
  predicate States(s: Swap, i: nat, program: bytes)
    requires i < |s.outputs|
  {
    s.outputs[i].covenant != None && i in s.outputPrograms && s.outputPrograms[i] == program
    && s.outputs[i].script == ScriptHash(program)
  }

  /** What an output counts as: KAS back to the wallet, a cell of the wallet or of the market, or the market itself. */
  lemma OutputRoles(s: Swap, i: nat)
    requires i < |s.outputs| && s.token != s.market
    ensures OutPart(s, i) == Plain <==> IsPlainOutput(s, i)
    ensures forall t :: OutPart(s, i) == OwnTokens(t) <==>
              && s.outputs[i].covenant == Some(s.token)
              && exists p, h :: States(s, i, p) && Token(s.pins.token, p) == Some(h) && h.scheme == 0
                                && h.key == s.wallet && h.amount == t
    ensures OutPart(s, i) == VenueTokens <==>
              && s.outputs[i].covenant == Some(s.token)
              && exists p, h :: States(s, i, p) && Token(s.pins.token, p) == Some(h) && h.scheme == 4
                                && h.key == s.market
    ensures OutPart(s, i) == Market <==>
              s.outputs[i].covenant == Some(s.market) && exists p :: States(s, i, p) && VenueContinues(s, p)
  {
    hide Token, VenueContinues;
    if s.outputs[i].covenant != None && i in s.outputPrograms {
      var p := s.outputPrograms[i];
      assert s.outputs[i].script == ScriptHash(p) ==> States(s, i, p);
    }
  }

  // ----- the venue ------------------------------------------------------------------------------------------------

  /** A program of this token: it pushes the token's id first. */
  predicate OfToken(s: Swap, program: bytes) {
    |program| >= 34 && forall k :: 0 <= k < 32 ==> program[2 + k] == s.token[k]
  }

  /** The first of the pinned curves that the program matches. */
  ghost predicate FirstCurve(s: Swap, program: bytes, k: nat) {
    && k < |s.pins.curves| && Matches(program, s.pins.curves[k])
    && forall j :: 0 <= j < k ==> !Matches(program, s.pins.curves[j])
  }

  /** Nothing was bought on this curve yet: both its counters are zero. */
  predicate Untouched(program: bytes)
    requires |program| >= 52
  {
    (forall k :: 35 <= k < 43 ==> program[k] == 0) && forall k :: 44 <= k < 52 ==> program[k] == 0
  }

  /** The first purchase on a windowed curve, by anybody but its creator, must wait 200 blocks; everything else none. */
  predicate Waits(pin: Pin, program: bytes, walletSpk: bytes, buy: bool, sequence: nat) {
    if !buy || !pin.window then sequence == 0
    else
      && |program| >= 52 && |pin.creators| >= 1 && CreatorAt(program, pin.creators[0]).Some?
      && sequence == if Untouched(program) && CreatorAt(program, pin.creators[0]).value != walletSpk then 200 else 0
  }

  lemma {:induction false} FirstMatchExactly(curves: seq<Pin>, program: bytes)
    ensures match FirstMatch(curves, program)
            case None => forall j :: 0 <= j < |curves| ==> !Matches(program, curves[j])
            case Some(pin) =>
              exists k :: 0 <= k < |curves| && curves[k] == pin && Matches(program, pin)
                          && forall j :: 0 <= j < k ==> !Matches(program, curves[j])
  {
    hide Matches;
    if curves != [] {
      FirstMatchExactly(curves[1..], program);
      if !Matches(program, curves[0]) && FirstMatch(curves, program).Some? {
        var pin := FirstMatch(curves, program).value;
        var k :| 0 <= k < |curves[1..]| && curves[1..][k] == pin && Matches(program, pin)
                 && forall j :: 0 <= j < k ==> !Matches(program, curves[1..][j]);
        forall j | 0 <= j < k + 1 ensures !Matches(program, curves[j]) {
          assert j > 0 ==> curves[j] == curves[1..][j - 1];
        }
        assert curves[k + 1] == pin;
      } else if FirstMatch(curves, program).None? {
        forall j | 0 <= j < |curves| ensures !Matches(program, curves[j]) {
          assert j > 0 ==> curves[j] == curves[1..][j - 1];
        }
      }
    }
  }

  lemma SequenceExactly(pin: Pin, program: bytes, walletSpk: bytes, buy: bool, sequence: nat)
    ensures CurveSequence(pin, program, walletSpk, buy) == Some(sequence)
       <==> Waits(pin, program, walletSpk, buy, sequence)
  {
    hide CreatorAt;
    if |program| >= 52 {
      assert AllZero(program[35..43]) && AllZero(program[44..52]) <==> Untouched(program) by {
        ZeroRange(program, 35, 43);
        ZeroRange(program, 44, 52);
      }
    }
  }

  lemma ZeroRange(program: bytes, from: nat, to: nat)
    requires from <= to <= |program|
    ensures AllZero(program[from..to]) <==> forall k :: from <= k < to ==> program[k] == 0
  {
    if AllZero(program[from..to]) {
      forall k | from <= k < to ensures program[k] == 0 {
        assert program[from..to][k - from] == 0;
      }
    }
  }

  lemma OfTokenExactly(s: Swap, program: bytes)
    ensures NamesToken(s, program) <==> OfToken(s, program)
  {
    if OfToken(s, program) {
      assert program[2..34] == s.token;
    }
    if NamesToken(s, program) {
      assert forall k :: 0 <= k < 32 ==> program[2 + k] == program[2..34][k];
    }
  }

  /** Which programs are a venue of this token, and which sequence their input must carry. */
  lemma VenueExactly(s: Swap, program: bytes, sequence: nat)
    ensures VenueSequence(s, program) == Some(sequence) <==>
              && OfToken(s, program) && program[1] == 32
              && match s.review.venue
                 case Pool => Matches(program, s.pins.pool) && sequence == 0
                 case Curve =>
                   exists k: nat :: FirstCurve(s, program, k)
                               && Waits(s.pins.curves[k], program, s.walletSpk, s.review.buy, sequence)
                 case OtherVenue => false
    ensures VenueContinues(s, program) <==>
              && OfToken(s, program)
              && if s.review.venue == Pool then Matches(program, s.pins.pool)
                 else exists k :: 0 <= k < |s.pins.curves| && Matches(program, s.pins.curves[k])
  {
    hide Matches, CurveSequence, Waits, FirstMatch, OfToken;
    OfTokenExactly(s, program);
    OfTokenLength(s, program);
    FirstMatchExactly(s.pins.curves, program);
    var first := FirstMatch(s.pins.curves, program);
    if first.Some? {
      var k: nat :| 0 <= k < |s.pins.curves| && s.pins.curves[k] == first.value && Matches(program, first.value)
               && forall j :: 0 <= j < k ==> !Matches(program, s.pins.curves[j]);
      SequenceExactly(first.value, program, s.walletSpk, s.review.buy, sequence);
      assert FirstCurve(s, program, k);
      assert forall m: nat :: FirstCurve(s, program, m) ==> m == k;
    }
  }

  lemma OfTokenLength(s: Swap, program: bytes)
    ensures OfToken(s, program) ==> |program| >= 34
  {
  }
}
