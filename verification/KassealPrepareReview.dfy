/** Exactly which Kasseal preparations are accepted, said of the scripts of both sides. */
module KassealPrepareReview {
  import opened Wrappers
  import opened Words
  import opened Bytes
  import opened PushScript
  import opened KassealToken
  import opened Totals
  import K = Kasseal
  import P = KassealPrepare

  // ----- whose every input and output is --------------------------------------------------------------------------

  predicate OwnCoin(covenant: Option<Key>, script: K.Script) {
    covenant == None && script == K.WalletKey
  }

  /** The program is the pinned token around a holding of the wallet itself. */
  predicate HoldsOwn(p: P.Preparation, program: bytes, amount: nat) {
    Token(p.program, program) == Some(Holding(amount, p.wallet, 0))
  }

  ghost predicate OwnCellIn(p: P.Preparation, i: nat, amount: nat)
    requires i < |p.inputs|
  {
    var e := p.inputs[i];
    && e.covenant == Some(p.token) && e.script.ScriptHash? && HoldsOwn(p, e.script.program, amount)
    && LastPush(if i in p.prebuilt then p.prebuilt[i] else e.unlock, 0, []) == Success(e.script.program)
  }

  predicate OwnCellOut(p: P.Preparation, i: nat, amount: nat)
    requires i < |p.outputs|
  {
    var o := p.outputs[i];
    && o.covenant == Some(p.token) && o.script.ScriptHash? && HoldsOwn(p, o.script.program, amount)
    && i in p.outputPrograms && p.outputPrograms[i] == o.script.program && o.value >= 250_000_000
  }

  /** Every input is to be signed, and is a coin or a cell of the wallet. */
  lemma InputRoles(p: P.Preparation, i: nat)
    requires i < |p.inputs|
    ensures P.InPart(p, i) == K.Plain <==> i in p.selected && OwnCoin(p.inputs[i].covenant, p.inputs[i].script)
    ensures forall t :: P.InPart(p, i) == K.OwnTokens(t) <==> i in p.selected && OwnCellIn(p, i, t)
    ensures P.InPart(p, i).Plain? || P.InPart(p, i).OwnTokens? || P.InPart(p, i).Refused?
  {
    hide LastPush, Token;
  }

  /** Every output is a coin of the wallet, or a cell of it with at least 2.5 KAS. */
  lemma OutputRoles(p: P.Preparation, i: nat)
    requires i < |p.outputs|
    ensures P.OutPart(p, i) == K.Plain <==> OwnCoin(p.outputs[i].covenant, p.outputs[i].script)
    ensures forall t :: P.OutPart(p, i) == K.OwnTokens(t) <==> OwnCellOut(p, i, t)
    ensures P.OutPart(p, i).Plain? || P.OutPart(p, i).OwnTokens? || P.OutPart(p, i).Refused?
  {
    hide Token;
  }

  // ----- the terms --------------------------------------------------------------------------------------------------

  /** The reviewed terms, and what a split and a merge make of the cells. */
  predicate Agreed(p: P.Preparation, a: P.Tally, b: P.Tally, fee: int, carved: bool) {
    && |p.inputs| <= 32 && |p.outputs| <= 4
    && 1 <= p.target <= 1_200_000_000 && p.tokenAmount == p.target && p.maxDebit == 700_000_000
    && (p.operation == P.Split ==> a.cells == 1 && b.cells == 2 && carved)
    && (p.operation == P.Merge ==> (a.cells == 2 || a.cells == 3) && b.cells == 1) && p.operation != P.Unknown
    && a.tokens >= 1 && b.tokens == a.tokens
    && fee == p.networkFee <= 200_000_000 && b.locked <= a.locked + 500_000_000
    && p.walletNet == Some(b.plain - a.plain) && p.walletChange == b.plain
  }

  predicate InWord(t: P.Tally) {
    t.plain <= 0xffff_ffff_ffff_ffff && t.tokens <= 0xffff_ffff_ffff_ffff && t.locked <= 0xffff_ffff_ffff_ffff
  }

  ghost predicate OwnInput(p: P.Preparation, i: nat)
    requires i < |p.inputs|
  {
    i in p.selected && (OwnCoin(p.inputs[i].covenant, p.inputs[i].script) || exists t :: OwnCellIn(p, i, t))
  }

  ghost predicate OwnOutput(p: P.Preparation, i: nat)
    requires i < |p.outputs|
  {
    OwnCoin(p.outputs[i].covenant, p.outputs[i].script) || exists t :: OwnCellOut(p, i, t)
  }

  lemma InputsExactly(p: P.Preparation)
    ensures P.OwnOnly(P.Ins(p))
       <==> (forall i :: 0 <= i < |p.inputs| ==> OwnInput(p, i)) && InWord(P.TallyOf(P.Ins(p), |p.inputs|))
  {
    hide P.InPart, P.TallyOf, OwnCoin, OwnCellIn;
    var x := P.Ins(p);
    forall i | 0 <= i < |p.inputs| ensures x.part[i].Plain? || x.part[i].OwnTokens? <==> OwnInput(p, i) {
      assert x.part[i] == P.InPart(p, i);
      InputRoles(p, i);
      PartIs(P.InPart(p, i));
    }
  }

  lemma OutputsExactly(p: P.Preparation)
    ensures P.OwnOnly(P.Outs(p))
       <==> (forall i :: 0 <= i < |p.outputs| ==> OwnOutput(p, i)) && InWord(P.TallyOf(P.Outs(p), |p.outputs|))
    ensures P.Carved(P.Outs(p), p.target, |p.outputs|)
       <==> exists i :: 0 <= i < |p.outputs| && OwnCellOut(p, i, p.target)
  {
    hide P.OutPart, P.TallyOf, OwnCoin, OwnCellOut;
    var x := P.Outs(p);
    forall i | 0 <= i < |p.outputs|
      ensures x.part[i].Plain? || x.part[i].OwnTokens? <==> OwnOutput(p, i)
      ensures x.part[i] == K.OwnTokens(p.target) <==> OwnCellOut(p, i, p.target) {
      assert x.part[i] == P.OutPart(p, i);
      OutputRoles(p, i);
      PartIs(P.OutPart(p, i));
    }
  }

  /** Exactly which preparations are accepted: the wallet's own parts only, and the terms met. */
  lemma AcceptedExactly(p: P.Preparation)
    ensures P.Accepts(p) <==>
              && (forall i :: 0 <= i < |p.inputs| ==> OwnInput(p, i))
              && (forall i :: 0 <= i < |p.outputs| ==> OwnOutput(p, i))
              && var a, b := P.TallyOf(P.Ins(p), |p.inputs|), P.TallyOf(P.Outs(p), |p.outputs|);
                 && InWord(a) && InWord(b)
                 && Agreed(p, a, b, P.Fee(p), exists i :: 0 <= i < |p.outputs| && OwnCellOut(p, i, p.target))
  {
    hide P.TallyOf, P.OwnOnly, P.Carved, OwnInput, OwnOutput, OwnCellOut, P.Fee, P.Ins, P.Outs;
    InputsExactly(p);
    OutputsExactly(p);
  }

  lemma PartIs(x: K.Part)
    ensures x.Plain? <==> x == K.Plain
    ensures x.OwnTokens? <==> exists t :: x == K.OwnTokens(t)
  {
    if x.OwnTokens? {
      assert x == K.OwnTokens(x.tokens);
    }
  }
}
