/** A sale and a purchase the check accepts although they move KAS between wallet and venue: the unchecked sum wraps. */
module KassealWrap {
  import opened Wrappers
  import opened Words
  import opened Bytes
  import opened PushScript
  import opened KassealToken
  import opened Totals
  import opened Kasseal

  const HALF := 0x8000_0000_0000_0000

  /** What the sale is made of: pinned token and pool programs, the pool itself, a wallet and a market. */
  datatype Stage = Stage(pins: Pins, pool: bytes, wallet: Key, walletSpk: bytes, market: Key)

  /** A pinned pool that a two-byte push can carry, standing for a market that is not its own token. */
  ghost predicate Trusted(x: Stage) {
    && Pinned(x.pins.token) && Matches(x.pool, x.pins.pool)
    && 34 <= |x.pool| < 0x1_0000 && x.pool[1] == 32 && x.pool[2..34] != x.market
  }

  function TokenOf(x: Stage): Key
    requires |x.pool| >= 34
  {
    x.pool[2..34]
  }

  function CellProgram(x: Stage, h: Holding): bytes {
    x.pins.token.head + TokenState(h) + x.pins.token.tail
  }

  function Own(x: Stage): Holding {
    Holding(1, x.wallet, 0)
  }

  function Sold(x: Stage): Holding {
    Holding(1, x.market, 4)
  }

  function Unlocks(program: bytes): bytes
    requires |program| < 0x1_0000
  {
    Encode(Length2(program))
  }

  function OwnInput(x: Stage): Input
    requires |x.pool| >= 34 && |CellProgram(x, Own(x))| < 0x1_0000
  {
    var p := CellProgram(x, Own(x));
    Input(HALF, ScriptHash(p), Some(TokenOf(x)), 0, Unlocks(p))
  }

  function VenueOutput(x: Stage): Output
    requires |x.pool| >= 34
  {
    Output(HALF, ScriptHash(CellProgram(x, Sold(x))), Some(TokenOf(x)))
  }

  /** Two wallet cells of half a word each are sold for one sompi; all their KAS ends in the venue's cells. */
  function Sale(x: Stage): Swap
    requires 34 <= |x.pool| < 0x1_0000 && |CellProgram(x, Own(x))| < 0x1_0000
  {
    var pool, cell := x.pool, CellProgram(x, Sold(x));
    Swap(
      [OwnInput(x), OwnInput(x), Input(5, ScriptHash(pool), Some(x.market), 0, Unlocks(pool))],
      [VenueOutput(x), VenueOutput(x), Output(4, ScriptHash(pool), Some(x.market)), Output(1, WalletKey, None)],
      {0, 1}, map[], map[0 := cell, 1 := cell, 2 := pool],
      x.wallet, x.walletSpk, TokenOf(x), x.market, x.pins,
      Review(false, Pool, 2, 1, 2, 0, 1, 0, None, 0, None))
  }

  /** The sale the other way round: one sompi buys two tokens, and all the KAS of the venue's cells goes along. */
  function Purchase(x: Stage): Swap
    requires 34 <= |x.pool| < 0x1_0000 && |CellProgram(x, Sold(x))| < 0x1_0000
  {
    var pool, mine, cell := x.pool, CellProgram(x, Own(x)), CellProgram(x, Sold(x));
    var venue := Input(HALF, ScriptHash(cell), Some(TokenOf(x)), 0, Unlocks(cell));
    var bought := Output(HALF, ScriptHash(mine), Some(TokenOf(x)));
    Swap(
      [venue, venue, Input(4, ScriptHash(pool), Some(x.market), 0, Unlocks(pool)), Input(1, WalletKey, None, 0, [])],
      [bought, bought, Output(5, ScriptHash(pool), Some(x.market))],
      {3}, map[], map[0 := mine, 1 := mine, 2 := pool],
      x.wallet, x.walletSpk, TokenOf(x), x.market, x.pins,
      Review(true, Pool, 2, 2, 1, 1, 1, 0, None, 0, None))
  }

  lemma UnlockReads(program: bytes)
    requires 1 <= |program| < 0x1_0000
    ensures LastPush(Unlocks(program), 0, []) == Success(program)
  {
    hide LastPush, Encode;
    var ps := [Length2(program)];
    assert ps[1..] == [] && EncodeAll(ps) == Encode(ps[0]) + EncodeAll(ps[1..]) == Unlocks(program) + [];
    assert AllWellFormed(ps) && Pushed(ps[|ps| - 1]) == program;
    assert Unlocks(program) + [] == Unlocks(program);
    RedeemExactly(Unlocks(program), program);
  }

  lemma CellReads(x: Stage, h: Holding)
    requires Pinned(x.pins.token) && h.amount <= SUPPLY && h.scheme in {0, 4}
    ensures |CellProgram(x, h)| == TOKEN_LENGTH && Token(x.pins.token, CellProgram(x, h)) == Some(h)
  {
    hide Token, PlainState;
    StateParts(h);
    TokenExactly(x.pins.token, CellProgram(x, h), h);
  }

  lemma PoolReads(x: Stage, s: Swap)
    requires Trusted(x) && s.token == TokenOf(x) && s.pins == x.pins && s.review.venue.Pool?
    ensures VenueSequence(s, x.pool) == Some(0) && VenueContinues(s, x.pool)
  {
    hide Matches;
  }

  lemma InParts(x: Stage)
    requires Trusted(x) && |CellProgram(x, Own(x))| < 0x1_0000
    ensures var s := Sale(x);
            && InPart(s, 0) == InPart(s, 1) == OwnTokens(1) && InPart(s, 2) == Market
  {
    hide LastPush, Token, VenueSequence, CellProgram, Unlocks, Matches;
    CellReads(x, Own(x));
    UnlockReads(CellProgram(x, Own(x)));
    UnlockReads(x.pool);
    PoolReads(x, Sale(x));
  }

  lemma OutParts(x: Stage)
    requires Trusted(x) && |CellProgram(x, Own(x))| < 0x1_0000
    ensures var s := Sale(x);
            && OutPart(s, 0) == OutPart(s, 1) == VenueTokens && OutPart(s, 2) == Market && OutPart(s, 3) == Plain
  {
    hide Token, VenueContinues, CellProgram, Unlocks, Matches;
    CellReads(x, Sold(x));
    PoolReads(x, Sale(x));
  }

  lemma BuyInParts(x: Stage)
    requires Trusted(x) && |CellProgram(x, Sold(x))| < 0x1_0000
    ensures var s := Purchase(x);
            && InPart(s, 0) == InPart(s, 1) == VenueTokens && InPart(s, 2) == Market && InPart(s, 3) == Plain
  {
    hide LastPush, Token, VenueSequence, CellProgram, Unlocks, Matches;
    CellReads(x, Sold(x));
    UnlockReads(CellProgram(x, Sold(x)));
    UnlockReads(x.pool);
    PoolReads(x, Purchase(x));
  }

  lemma BuyOutParts(x: Stage)
    requires Trusted(x) && |CellProgram(x, Sold(x))| < 0x1_0000
    ensures var s := Purchase(x);
            && OutPart(s, 0) == OutPart(s, 1) == OwnTokens(1) && OutPart(s, 2) == Market
  {
    hide Token, VenueContinues, CellProgram, Unlocks, Matches;
    CellReads(x, Own(x));
    PoolReads(x, Purchase(x));
  }

  lemma TotalOfThree(f: nat -> nat)
    ensures Total(f, 3) == f(0) + f(1) + f(2)
    ensures Total(f, 4) == f(0) + f(1) + f(2) + f(3)
  {
    assert Total(f, 1) == f(0);
    assert Total(f, 2) == f(0) + f(1);
  }

  /** The side with the cells in the wallet, and the side with them at the venue. */
  const WALLET_SIDE := Side([HALF, HALF, 5], [OwnTokens(1), OwnTokens(1), Market])
  const VENUE_SIDE := Side([HALF, HALF, 4, 1], [VenueTokens, VenueTokens, Market, Plain])

  lemma WalletTotals()
    ensures Paired(WALLET_SIDE) && Admissible(WALLET_SIDE) && Kas(WALLET_SIDE) == (0, U64_LIMIT, 0, 5)
    ensures SumsOf(WALLET_SIDE) == Sums(0, 2, 0, 5) && Total(Whole(WALLET_SIDE), 3) == U64_LIMIT + 5
  {
    TotalOfThree(Whole(WALLET_SIDE));
    TotalOfThree(InPlain(WALLET_SIDE));
    TotalOfThree(InOwn(WALLET_SIDE));
    TotalOfThree(InVenue(WALLET_SIDE));
    TotalOfThree(InMarket(WALLET_SIDE));
    TotalOfThree(OwnedTokens(WALLET_SIDE));
    TotalOfThree(Markets(WALLET_SIDE));
  }

  lemma VenueTotals()
    ensures Paired(VENUE_SIDE) && Admissible(VENUE_SIDE) && Kas(VENUE_SIDE) == (1, 0, U64_LIMIT, 4)
    ensures SumsOf(VENUE_SIDE) == Sums(1, 0, 0, 4) && Total(Whole(VENUE_SIDE), 4) == U64_LIMIT + 5
  {
    TotalOfThree(Whole(VENUE_SIDE));
    TotalOfThree(InPlain(VENUE_SIDE));
    TotalOfThree(InOwn(VENUE_SIDE));
    TotalOfThree(InVenue(VENUE_SIDE));
    TotalOfThree(InMarket(VENUE_SIDE));
    TotalOfThree(OwnedTokens(VENUE_SIDE));
    TotalOfThree(Markets(VENUE_SIDE));
  }

  /** Whatever the pinned programs, pool, wallet and market: the sale is accepted, the venue's cells gain 2^64 sompi. */
  lemma WrappedSaleIsAccepted(x: Stage)
    requires Trusted(x)
    ensures |CellProgram(x, Own(x))| == TOKEN_LENGTH
    ensures var s := Sale(x);
            && Accepts(s) && !s.review.buy
            && Kas(Outs(s)).2 == Kas(Ins(s)).2 + U64_LIMIT
  {
    hide Admissible, Kas, SumsOf, Whole, InPart, OutPart, CellProgram, Matches;
    CellReads(x, Own(x));
    InParts(x);
    OutParts(x);
    WalletTotals();
    VenueTotals();
    var s := Sale(x);
    assert Ins(s) == WALLET_SIDE;
    assert Outs(s) == VENUE_SIDE;
  }

  /** The purchase is accepted as well: the venue's cells lose 2^64 sompi to the wallet's. */
  lemma WrappedPurchaseIsAccepted(x: Stage)
    requires Trusted(x)
    ensures |CellProgram(x, Sold(x))| == TOKEN_LENGTH
    ensures var s := Purchase(x);
            && Accepts(s) && s.review.buy
            && Kas(Ins(s)).2 == Kas(Outs(s)).2 + U64_LIMIT && Kas(Ins(s)).1 == 0
  {
    hide Admissible, Kas, SumsOf, Whole, InPart, OutPart, CellProgram, Matches;
    CellReads(x, Sold(x));
    BuyInParts(x);
    BuyOutParts(x);
    WalletTotals();
    VenueTotals();
    var s := Purchase(x);
    assert Ins(s) == VENUE_SIDE;
    assert Outs(s) == WALLET_SIDE;
  }
}
