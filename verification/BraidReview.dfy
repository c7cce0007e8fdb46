/** Exactly which Braid deposits are accepted, said of the transaction the user signs. */
module BraidReview {
  import opened Wrappers
  import opened Words
  import opened Bytes
  import opened BraidNotes
  import opened Totals
  import opened BraidDeposit

  // ----- the router coin ------------------------------------------------------------------------------------------

  /** What the router coin must carry: the sold KAS, a reserve for the router, and the fee or its carrier. */
  function CoinPrice(d: Deposit): nat {
    match d.template
    case None => d.amount + d.wfee + if d.toKas then 10_000_000 else 60_000_000
    case Some(_) =>
      100_000_000 + if d.toKas || d.staged || d.wfee == 0 then d.wfee else d.carrier
  }

  predicate PaysRouter(d: Deposit) {
    && d.coinIndex < |d.outputs|
    && d.outputs[d.coinIndex].script == ScriptHash(d.router) && d.outputs[d.coinIndex].binding == None
    && CoinPrice(d) <= d.outputs[d.coinIndex].value < CoinPrice(d) + 10_000_000
    && d.outputs[d.coinIndex].value < 0xffff_ffff_ffff_ffff
  }

  // ----- inputs and outputs -----------------------------------------------------------------------------------------

  /** A coin of the wallet, to be signed, with no witness of its own. */
  predicate SignedCoin(d: Deposit, i: nat)
    requires i < |d.inputs|
  {
    && d.inputs[i].script == WalletKey && d.inputs[i].covenant == None
    && i in d.selected && i !in d.witnesses
  }

  /** A note of the sold token that the wallet holds: signed with its prepared witness, or vouched for by presence. */
  ghost predicate OwnNote(d: Deposit, i: nat, amount: nat)
    requires i < |d.inputs|
  {
    && d.template.Some? && i in d.redeems && d.inputs[i].covenant == Some(d.asset)
    && d.inputs[i].script == ScriptHash(d.redeems[i])
    && ParseNote(d.template.value, d.redeems[i], d.wallet, false) == Success((amount, d.template.value.program))
    && (d.template.value.kind == Presence ==> i !in d.selected)
    && (d.template.value.kind == Reference ==>
          i in d.selected && i in d.witnesses && d.witnesses[i].prebuilt == Some(d.inputs[i].unlock)
          && d.witnesses[i].body == [])
  }

  /** An output with at most half a KAS that is a note of this amount for this holder, spent from one of the notes. */
  predicate NoteFor(d: Deposit, i: nat, holder: Key, amount: nat, p2sh: bool)
    requires d.template.Some? && i < |d.outputs|
  {
    var t, o := d.template.value, d.outputs[i];
    && o.script == ScriptHash(t.prefix + NoteState(t.kind, holder, amount, p2sh) + t.program) && o.value <= 50_000_000
    && o.binding.Some? && o.binding.value.covenant == d.asset
    && var a := o.binding.value.authorizing;
       a < |d.inputs| && (d.inputs[a].script != WalletKey || d.inputs[a].covenant != None)
  }

  /** The KAS a transaction side moves for the wallet, and the tokens it spends. */
  function CoinsIn(d: Deposit): nat -> nat {
    (i: nat) =>
      if i < |d.inputs| && d.inputs[i].script == WalletKey && d.inputs[i].covenant == None then d.inputs[i].amount
      else 0
  }

  function CoinsOut(d: Deposit): nat -> nat {
    (i: nat) =>
      if && i < |d.outputs| && d.outputs[i].script == WalletKey && d.outputs[i].binding == None
         && i != d.coinIndex && (d.template.Some? ==> i != d.noteIndex)
      then d.outputs[i].value else 0
  }

  /** Output `i` is change in tokens. */
  predicate IsTokenChange(d: Deposit, i: nat, tokens: nat)
    requires i < |d.outputs|
  {
    && d.template.Some? && tokens > d.amount && i != d.coinIndex && i != d.noteIndex
    && NoteFor(d, i, d.wallet, tokens - d.amount, false)
  }

  /** Exactly one output is change in tokens. */
  ghost predicate OneTokenChange(d: Deposit, tokens: nat) {
    exists i :: OnlyChangeAt(d, i, tokens)
  }

  ghost predicate OnlyChangeAt(d: Deposit, i: nat, tokens: nat) {
    && i < |d.outputs| && IsTokenChange(d, i, tokens)
    && forall j :: 0 <= j < |d.outputs| && j != i ==> !IsTokenChange(d, j, tokens)
  }

  /** What comes out: the router's coin and note, coins back to the wallet, and the one change note. */
  ghost predicate OutputsAreKnown(d: Deposit, tokens: nat) {
    && (forall i :: 0 <= i < |d.outputs| ==>
          || i == d.coinIndex || (d.template.Some? && i == d.noteIndex)
          || (d.outputs[i].script == WalletKey && d.outputs[i].binding == None)
          || IsTokenChange(d, i, tokens))
    && (d.template.Some? && tokens > d.amount ==> OneTokenChange(d, tokens))
    && Total(CoinsOut(d), |d.outputs|) <= 0xffff_ffff_ffff_ffff
  }

  /** A proper deposit, in all its parts. */
  ghost predicate Proper(d: Deposit) {
    var spent, made := Total(WholeIn(d), |d.inputs|), Total(WholeOut(d), |d.outputs|);
    var coins, tokens := Total(CoinsIn(d), |d.inputs|), Total(TokensIn(d), |d.inputs|);
    && d.amount >= 1 && d.termsAmount == (if d.template == None then 0 else d.amount)
    && made <= spent <= made + 10_000_000 && spent <= 0xffff_ffff_ffff_ffff
    && PaysRouter(d)
    && (forall i :: 0 <= i < |d.inputs| ==> SignedCoin(d, i) || exists amount :: OwnNote(d, i, amount))
    && coins >= 1 && tokens <= 0xffff_ffff_ffff_ffff && OutputsAreKnown(d, tokens)
    && match d.template
       case None =>
         && d.witnesses == map[] && |d.selected| == |d.inputs|
         && coins - Total(CoinsOut(d), |d.outputs|) == d.payTotal
       case Some(_) =>
         && tokens >= d.amount && d.noteIndex < |d.outputs| && d.noteIndex != d.coinIndex
         && NoteFor(d, d.noteIndex, d.routerHash, d.amount, true)
  }

  // ----- the check decides just that --------------------------------------------------------------------------------

  lemma CoinExactly(d: Deposit)
    ensures CoinAllowed(d) <==> PaysRouter(d)
  {
  }

  lemma InputExactly(d: Deposit, i: nat)
    requires i < |d.inputs|
    ensures InputAllowed(d, i) <==> SignedCoin(d, i) || exists amount :: OwnNote(d, i, amount)
  {
    hide ParseNote;
    if d.template.Some? && i in d.redeems {
      var read := ParseNote(d.template.value, d.redeems[i], d.wallet, false);
      if read.Success? {
        OneProgram(d.template.value, d.redeems[i], d.wallet);
        if !SignedCoin(d, i) && InputAllowed(d, i) {
          assert OwnNote(d, i, read.value.0);
        }
      }
    }
  }

  lemma NoteExactly(d: Deposit, i: nat, holder: Key, amount: nat, p2sh: bool)
    requires d.template.Some? && i < |d.outputs| && amount < U64_LIMIT
    ensures HoldsNote(d, d.outputs[i], holder, amount, p2sh) <==> NoteFor(d, i, holder, amount, p2sh)
  {
    hide NoteState;
  }

  lemma ChangeExactly(d: Deposit, i: nat, tokens: nat)
    requires i < |d.outputs| && tokens < U64_LIMIT
    ensures ChangeNote(d, tokens, i) <==> IsTokenChange(d, i, tokens)
  {
    hide HoldsNote, NoteFor;
    if d.template.Some? && tokens > d.amount {
      NoteExactly(d, i, d.wallet, tokens - d.amount, false);
    }
  }

  lemma OneExactly(d: Deposit, tokens: nat)
    requires tokens < U64_LIMIT
    ensures Total(Changes(d, tokens), |d.outputs|) == 1 <==> OneTokenChange(d, tokens)
  {
    hide ChangeNote, IsTokenChange, Total;
    var n, f := |d.outputs|, Changes(d, tokens);
    TotalIsOne(f, n);
    forall i | 0 <= i < n ensures ChangeNote(d, tokens, i) <==> IsTokenChange(d, i, tokens) {
      ChangeExactly(d, i, tokens);
    }
    assert forall j :: 0 <= j < n ==> f(j) == if IsTokenChange(d, j, tokens) then 1 else 0;
    forall i: nat ensures OnlyAt(f, i, n) <==> OnlyChangeAt(d, i, tokens) {
      OnlyOne(d, i, tokens);
    }
  }

  lemma OnlyOne(d: Deposit, i: nat, tokens: nat)
    requires forall j :: 0 <= j < |d.outputs| ==> Changes(d, tokens)(j) == if IsTokenChange(d, j, tokens) then 1 else 0
    ensures OnlyAt(Changes(d, tokens), i, |d.outputs|) <==> OnlyChangeAt(d, i, tokens)
  {
    hide IsTokenChange, Changes;
  }

  lemma CoinsAreCounted(d: Deposit)
    ensures Total(CoinsIn(d), |d.inputs|) == Total(PlainIn(d), |d.inputs|)
    ensures Total(CoinsOut(d), |d.outputs|) == Total(PlainOut(d), |d.outputs|)
  {
    TotalSame(CoinsIn(d), PlainIn(d), |d.inputs|);
    TotalSame(CoinsOut(d), PlainOut(d), |d.outputs|);
  }

  lemma OutputsExactly(d: Deposit, tokens: nat)
    requires tokens < U64_LIMIT
    ensures OutputsAllowed(d, tokens) <==> OutputsAreKnown(d, tokens)
  {
    hide ChangeNote, IsTokenChange, OneTokenChange;
    CoinsAreCounted(d);
    OneExactly(d, tokens);
    forall i | 0 <= i < |d.outputs| ensures ChangeNote(d, tokens, i) <==> IsTokenChange(d, i, tokens) {
      ChangeExactly(d, i, tokens);
    }
    if d.template.None? || tokens <= d.amount {
      assert Total(Changes(d, tokens), |d.outputs|) == 0 by { NoChange(d, tokens); }
    }
  }

  lemma NoChange(d: Deposit, tokens: nat)
    requires d.template.None? || tokens <= d.amount
    ensures Total(Changes(d, tokens), |d.outputs|) == 0
  {
    TotalZero(Changes(d, tokens), |d.outputs|);
  }

  /** A deposit is accepted exactly if it is proper. */
  lemma AcceptedExactly(d: Deposit)
    ensures Accepts(d) <==> Proper(d)
  {
    hide InputAllowed, SignedCoin, OwnNote, CoinAllowed, PaysRouter, OutputsAllowed, OutputsAreKnown,
      HoldsNote, NoteFor;
    CoinExactly(d);
    CoinsAreCounted(d);
    forall i | 0 <= i < |d.inputs|
      ensures InputAllowed(d, i) <==> SignedCoin(d, i) || exists amount :: OwnNote(d, i, amount) {
      InputExactly(d, i);
    }
    if Tokens(d) < U64_LIMIT {
      OutputsExactly(d, Tokens(d));
    }
    if d.template.Some? && d.noteIndex < |d.outputs| {
      NoteExactly(d, d.noteIndex, d.routerHash, d.amount, true);
    }
  }
}
