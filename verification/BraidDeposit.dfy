/**
 * The check of a Braid deposit: the router coin, the router note, and what comes back to the wallet.
 * Scripts are known by the program they commit to, so two scripts are equal only when their programs are.
 */
module BraidDeposit {
  import opened Wrappers
  import opened Words
  import opened Bytes
  import opened BraidNotes
  import opened Totals

  type u64 = n: nat | n < U64_LIMIT

  const FEE_CAP := 10_000_000
  const COIN_MARGIN := 10_000_000
  const NOTE_CAP := 50_000_000

  datatype Script = WalletKey | ScriptHash(program: bytes) | Foreign(tag: nat)
  datatype Binding = Binding(covenant: Key, authorizing: nat)
  datatype Input = Input(amount: u64, script: Script, covenant: Option<Key>, unlock: bytes)
  datatype Output = Output(value: u64, script: Script, binding: Option<Binding>)
  datatype Witness = Witness(prebuilt: Option<bytes>, body: bytes)

  /** What is checked: the transaction, the wallet's part in it, and the reviewed terms. */
  datatype Deposit = Deposit(
    inputs: seq<Input>, outputs: seq<Output>,
    redeems: map<nat, bytes>, selected: set<nat>, witnesses: map<nat, Witness>,
    wallet: Key, router: bytes, routerHash: Key,
    template: Option<Template>, asset: Key, toKas: bool, staged: bool,
    amount: u64, termsAmount: u64, wfee: u64, carrier: u64, payTotal: u64,
    coinIndex: nat, noteIndex: nat)

  // ----- inputs ---------------------------------------------------------------------------------------------

  predicate PlainInput(e: Input) {
    e.script == WalletKey && e.covenant == None
  }

  predicate PlainOutput(o: Output) {
    o.script == WalletKey && o.binding == None
  }

  /** The note read from the redeem script given for input `i`, if it is one of this wallet's. */
  function NoteAt(d: Deposit, i: nat): Option<nat> {
    if d.template.None? || i !in d.redeems then None
    else
      match ParseNote(d.template.value, d.redeems[i], d.wallet, false)
      case Failure(_) => None
      case Success(note) => Some(note.0)
  }

  function WholeIn(d: Deposit): nat -> nat {
    (i: nat) => if i < |d.inputs| then d.inputs[i].amount else 0
  }

  function WholeOut(d: Deposit): nat -> nat {
    (i: nat) => if i < |d.outputs| then d.outputs[i].value else 0
  }

  function PlainIn(d: Deposit): nat -> nat {
    (i: nat) => if i < |d.inputs| && PlainInput(d.inputs[i]) then d.inputs[i].amount else 0
  }

  function TokensIn(d: Deposit): nat -> nat {
    (i: nat) => if i < |d.inputs| && !PlainInput(d.inputs[i]) && NoteAt(d, i).Some? then NoteAt(d, i).value else 0
  }

  predicate InputAllowed(d: Deposit, i: nat)
    requires i < |d.inputs|
  {
    var e := d.inputs[i];
    if PlainInput(e) then i in d.selected && i !in d.witnesses
    else
      && NoteAt(d, i).Some?
      && e.script == ScriptHash(d.redeems[i])
      && e.covenant == Some(d.asset)
      && match d.template.value.kind
         case Presence => i !in d.selected
         case Reference => i in d.selected && i in d.witnesses && d.witnesses[i] == Witness(Some(e.unlock), [])
  }

  // ----- outputs --------------------------------------------------------------------------------------------

  /** What the router coin is worth at least. */
  function Base(d: Deposit): nat {
    if d.template.Some? then
      100_000_000 + (if !d.toKas && d.wfee > 0 && !d.staged then d.carrier else d.wfee)
    else
      d.amount + (if d.toKas then 10_000_000 else 60_000_000) + d.wfee
  }

  predicate CoinAllowed(d: Deposit) {
    && d.coinIndex < |d.outputs|
    && Base(d) < U64_LIMIT
    && var o := d.outputs[d.coinIndex];
       && o.script == ScriptHash(d.router)
       && o.binding == None
       && Base(d) <= o.value < Min(Base(d) + COIN_MARGIN, U64_LIMIT - 1)
  }

  predicate TokenInput(d: Deposit, i: nat) {
    i < |d.inputs| && !PlainInput(d.inputs[i])
  }

  /** A small token output of the sold asset, authorized by one of the spent notes, holding `amount`. */
  predicate HoldsNote(d: Deposit, o: Output, holder: Key, amount: nat, p2sh: bool)
    requires d.template.Some?
  {
    && amount < U64_LIMIT
    && o.script == ScriptHash(Note(d.template.value, holder, amount, p2sh, d.template.value.program).value)
    && o.value <= NOTE_CAP
    && o.binding.Some?
    && o.binding.value.covenant == d.asset
    && TokenInput(d, o.binding.value.authorizing)
  }

  predicate Used(d: Deposit, i: nat) {
    i == d.coinIndex || (d.template.Some? && i == d.noteIndex)
  }

  predicate ChangeNote(d: Deposit, tokens: nat, i: nat) {
    && d.template.Some? && tokens > d.amount
    && i < |d.outputs|
    && !Used(d, i)
    && HoldsNote(d, d.outputs[i], d.wallet, tokens - d.amount, false)
  }

  function PlainOut(d: Deposit): nat -> nat {
    (i: nat) => if i < |d.outputs| && !Used(d, i) && PlainOutput(d.outputs[i]) then d.outputs[i].value else 0
  }

  function Changes(d: Deposit, tokens: nat): nat -> nat {
    (i: nat) => if ChangeNote(d, tokens, i) then 1 else 0
  }

  /** Everything but the coin and the note goes back to the wallet, in at most one note. */
  predicate OutputsAllowed(d: Deposit, tokens: nat) {
    && (forall i :: 0 <= i < |d.outputs| && !Used(d, i) ==> PlainOutput(d.outputs[i]) || ChangeNote(d, tokens, i))
    && Total(PlainOut(d), |d.outputs|) < U64_LIMIT
    && Total(Changes(d, tokens), |d.outputs|) == if d.template.Some? && tokens > d.amount then 1 else 0
  }

  predicate SoldNoteAllowed(d: Deposit, tokens: nat) {
    if d.template.None? then d.witnesses == map[] && |d.selected| == |d.inputs|
    else
      && tokens >= d.amount
      && d.noteIndex < |d.outputs|
      && d.noteIndex != d.coinIndex
      && HoldsNote(d, d.outputs[d.noteIndex], d.routerHash, d.amount, true)
  }

  function Fee(d: Deposit): int {
    Total(WholeIn(d), |d.inputs|) - Total(WholeOut(d), |d.outputs|)
  }

  function Tokens(d: Deposit): nat {
    Total(TokensIn(d), |d.inputs|)
  }

  function Debit(d: Deposit): int {
    Total(PlainIn(d), |d.inputs|) - Total(PlainOut(d), |d.outputs|)
  }

  /** The whole review of a deposit, as a property of the transaction. */
  predicate Accepts(d: Deposit) {
    && 0 < d.amount && d.termsAmount == (if d.template.Some? then d.amount else 0)
    && Total(WholeIn(d), |d.inputs|) < U64_LIMIT && Total(WholeOut(d), |d.outputs|) < U64_LIMIT
    && 0 <= Fee(d) <= FEE_CAP
    && CoinAllowed(d)
    && (forall i :: 0 <= i < |d.inputs| ==> InputAllowed(d, i))
    && Total(PlainIn(d), |d.inputs|) > 0
    && Tokens(d) < U64_LIMIT
    && SoldNoteAllowed(d, Tokens(d))
    && OutputsAllowed(d, Tokens(d))
    && (d.template.None? ==> Debit(d) == d.payTotal)
  }

  // ----- the check as written -------------------------------------------------------------------------------

  /** The input loop: what the wallet puts in, as KAS and as tokens. */
  method ScanInputs(d: Deposit) returns (sums: Option<(nat, nat)>)
    ensures sums.Some? <==> Total(PlainIn(d), |d.inputs|) < U64_LIMIT && Tokens(d) < U64_LIMIT
                            && forall i :: 0 <= i < |d.inputs| ==> InputAllowed(d, i)
    ensures sums.Some? ==> sums.value == (Total(PlainIn(d), |d.inputs|), Tokens(d))
  {
    hide InputAllowed, PlainInput, NoteAt;
    var plain, tokens, i := 0, 0, 0;
    while i < |d.inputs|
      invariant 0 <= i <= |d.inputs|
      invariant plain == Total(PlainIn(d), i) < U64_LIMIT && tokens == Total(TokensIn(d), i) < U64_LIMIT
      invariant forall k :: 0 <= k < i ==> InputAllowed(d, k)
    {
      TotalMonotone(PlainIn(d), i + 1, |d.inputs|);
      TotalMonotone(TokensIn(d), i + 1, |d.inputs|);
      if !InputAllowed(d, i) || plain + PlainIn(d)(i) >= U64_LIMIT || tokens + TokensIn(d)(i) >= U64_LIMIT {
        return None;
      }
      plain, tokens := plain + PlainIn(d)(i), tokens + TokensIn(d)(i);
      i := i + 1;
    }
    return Some((plain, tokens));
  }

  /** The output loop: the plain change and the one token change. */
  method ScanOutputs(d: Deposit, tokens: nat) returns (plain: Option<nat>)
    ensures plain == if OutputsAllowed(d, tokens) then Some(Total(PlainOut(d), |d.outputs|)) else None
  {
    hide ChangeNote, PlainOutput, Used;
    var sum, seen, i := 0, false, 0;
    while i < |d.outputs|
      invariant 0 <= i <= |d.outputs|
      invariant sum == Total(PlainOut(d), i) < U64_LIMIT
      invariant Total(Changes(d, tokens), i) == if seen then 1 else 0
      invariant forall k :: 0 <= k < i && !Used(d, k) ==> PlainOutput(d.outputs[k]) || ChangeNote(d, tokens, k)
    {
      TotalMonotone(PlainOut(d), i + 1, |d.outputs|);
      TotalMonotone(Changes(d, tokens), i + 1, |d.outputs|);
      NeverBoth(d, tokens, i);
      if !Used(d, i) {
        if PlainOutput(d.outputs[i]) {
          if sum + d.outputs[i].value >= U64_LIMIT {
            return None;
          }
          sum := sum + d.outputs[i].value;
        } else if !seen && ChangeNote(d, tokens, i) {
          seen := true;
        } else {
          return None;
        }
      }
      i := i + 1;
    }
    if seen != (d.template.Some? && tokens > d.amount) {
      return None;
    }
    return Some(sum);
  }

  lemma NeverBoth(d: Deposit, tokens: nat, i: nat)
    requires i < |d.outputs|
    ensures !(PlainOutput(d.outputs[i]) && ChangeNote(d, tokens, i))
    ensures Used(d, i) ==> !ChangeNote(d, tokens, i)
  {
  }

  method ValidateDeposit(d: Deposit) returns (ok: bool)
    ensures ok <==> Accepts(d)
  {
    hide InputAllowed, OutputsAllowed, SoldNoteAllowed, CoinAllowed, PlainIn, WholeIn, WholeOut, TokensIn, PlainOut;
    if d.amount == 0 || d.termsAmount != (if d.template.Some? then d.amount else 0) {
      return false;
    }
    var wholeIn := CheckedTotal(WholeIn(d), |d.inputs|, U64_LIMIT);
    var wholeOut := CheckedTotal(WholeOut(d), |d.outputs|, U64_LIMIT);
    if wholeIn.None? || wholeOut.None? || wholeIn.value < wholeOut.value {
      return false;
    }
    if wholeIn.value - wholeOut.value > FEE_CAP || !CoinAllowed(d) {
      return false;
    }
    PlainIsPart(d);
    var sums := ScanInputs(d);
    if sums.None? || sums.value.0 == 0 {
      return false;
    }
    var tokens := sums.value.1;
    if !SoldNoteAllowed(d, tokens) {
      return false;
    }
    var plainOut := ScanOutputs(d, tokens);
    if plainOut.None? {
      return false;
    }
    return d.template.Some? || sums.value.0 == d.payTotal + plainOut.value;
  }

  /** The funding sum cannot overflow once the input sum did not. */
  lemma PlainIsPart(d: Deposit)
    ensures Total(PlainIn(d), |d.inputs|) <= Total(WholeIn(d), |d.inputs|)
  {
    TotalAtMost(PlainIn(d), WholeIn(d), |d.inputs|);
  }

  // ----- what an accepted deposit moves -----------------------------------------------------------------------

  /** The token amount a script of the sold asset locks. */
  function Locked(d: Deposit, s: Script): nat {
    if && d.template.Some? && s.ScriptHash?
       && |s.program| >= |d.template.value.prefix| + StateLength(d.template.value.kind)
    then AmountIn(d.template.value, s.program) else 0
  }

  /** Tokens of the sold asset spent and created, read from the scripts alone. */
  function AssetIn(d: Deposit): nat -> nat {
    (i: nat) => if i < |d.inputs| && d.inputs[i].covenant == Some(d.asset) then Locked(d, d.inputs[i].script) else 0
  }

  function AssetOut(d: Deposit): nat -> nat {
    (i: nat) => if i < |d.outputs| && d.outputs[i].binding.Some? && d.outputs[i].binding.value.covenant == d.asset
         then Locked(d, d.outputs[i].script) else 0
  }

  /** What is asked of an input pins the tokens it holds. */
  lemma AssetInAt(d: Deposit, i: nat)
    requires i < |d.inputs| && InputAllowed(d, i)
    ensures AssetIn(d)(i) == TokensIn(d)(i)
    ensures d.inputs[i].covenant.Some? ==> d.inputs[i].covenant == Some(d.asset)
  {
    hide ParseNote, AmountIn;
    if !PlainInput(d.inputs[i]) {
      ParsedAmount(d.template.value, d.redeems[i], d.wallet);
    }
  }

  lemma ParsedAmount(t: Template, r: bytes, owner: Key)
    requires ParseNote(t, r, owner, false).Success?
    ensures |r| >= |t.prefix| + StateLength(t.kind) && ParseNote(t, r, owner, false).value.0 == AmountIn(t, r)
  {
    hide AmountIn, Note;
  }

  /** The code behind any note that parses is the pinned one, so the check for mixed programs never fires. */
  lemma OneProgram(t: Template, r: bytes, owner: Key)
    requires ParseNote(t, r, owner, false).Success?
    ensures ParseNote(t, r, owner, false).value.1 == t.program
  {
    hide AmountIn, NoteState;
  }

  lemma HeldAmount(d: Deposit, o: Output, holder: Key, amount: nat, p2sh: bool)
    requires d.template.Some? && HoldsNote(d, o, holder, amount, p2sh)
    ensures Locked(d, o.script) == amount
  {
    hide Note, AmountIn;
    var t := d.template.value;
    NoteSucceeds(t, holder, amount, p2sh);
    AmountOfNote(t, holder, amount, p2sh, t.program);
  }

  lemma NoteSucceeds(t: Template, holder: Key, amount: nat, p2sh: bool)
    requires amount < U64_LIMIT
    ensures Note(t, holder, amount, p2sh, t.program).Success?
  {
    hide NoteState;
  }

  lemma AssetOutAt(d: Deposit, tokens: nat, i: nat)
    requires CoinAllowed(d) && d.template.Some? && SoldNoteAllowed(d, tokens) && OutputsAllowed(d, tokens)
    requires i < |d.outputs|
    ensures AssetOut(d)(i) == (if i == d.noteIndex then d.amount else 0)
                              + (if ChangeNote(d, tokens, i) then tokens - d.amount else 0)
  {
    hide Note, Locked;
    if i == d.noteIndex {
      HeldAmount(d, d.outputs[i], d.routerHash, d.amount, true);
    } else if ChangeNote(d, tokens, i) {
      HeldAmount(d, d.outputs[i], d.wallet, tokens - d.amount, false);
    }
  }

  function Sold(d: Deposit): nat -> nat {
    (i: nat) => var sold: nat := if i == d.noteIndex then d.amount else 0; sold
  }

  function Returned(d: Deposit, tokens: nat): nat -> nat {
    (i: nat) => if ChangeNote(d, tokens, i) then tokens - d.amount else 0
  }

  /** The notes created hold the sold amount and the rest. */
  lemma AssetOutTotal(d: Deposit, tokens: nat)
    requires CoinAllowed(d) && d.template.Some? && SoldNoteAllowed(d, tokens) && OutputsAllowed(d, tokens)
    ensures Total(AssetOut(d), |d.outputs|) == tokens
  {
    hide Locked, HoldsNote, CoinAllowed, ChangeNote;
    var n := |d.outputs|;
    forall i | 0 <= i < n ensures AssetOut(d)(i) == Sold(d)(i) + Returned(d, tokens)(i) {
      AssetOutAt(d, tokens, i);
    }
    TotalAdds(Sold(d), Returned(d, tokens), AssetOut(d), n);
    TotalAtOne(Sold(d), d.noteIndex, n);
    if tokens > d.amount {
      TotalScales(Changes(d, tokens), Returned(d, tokens), tokens - d.amount, n);
    } else {
      forall i | 0 <= i < n ensures Returned(d, tokens)(i) == 0 {
      }
      TotalZero(Returned(d, tokens), n);
    }
  }

  /** Tokens are conserved: the spent notes hold exactly what the created ones hold, and nothing else is bound. */
  lemma TokensAreConserved(d: Deposit)
    requires Accepts(d)
    ensures Total(AssetIn(d), |d.inputs|) == Total(AssetOut(d), |d.outputs|)
    ensures forall i :: 0 <= i < |d.inputs| && d.inputs[i].covenant.Some? ==> d.inputs[i].covenant == Some(d.asset)
    ensures forall i :: 0 <= i < |d.outputs| && d.outputs[i].binding.Some?
              ==> d.template.Some? && (i == d.noteIndex || ChangeNote(d, Tokens(d), i))
  {
    hide InputAllowed, HoldsNote, Locked, TokensIn;
    forall i | 0 <= i < |d.inputs| ensures AssetIn(d)(i) == TokensIn(d)(i)
                                   && (d.inputs[i].covenant.Some? ==> d.inputs[i].covenant == Some(d.asset)) {
      AssetInAt(d, i);
    }
    TotalSame(AssetIn(d), TokensIn(d), |d.inputs|);
    if d.template.Some? {
      AssetOutTotal(d, Tokens(d));
    } else {
      NothingLocked(d);
    }
  }

  lemma NothingLocked(d: Deposit)
    requires d.template.None?
    ensures Total(AssetOut(d), |d.outputs|) == 0 && Total(TokensIn(d), |d.inputs|) == 0
  {
    TotalZero(AssetOut(d), |d.outputs|);
    TotalZero(TokensIn(d), |d.inputs|);
  }

  /** Two different outputs cannot both be the change. */
  lemma OneChangeNote(d: Deposit, i: nat, j: nat)
    requires Accepts(d) && ChangeNote(d, Tokens(d), i) && ChangeNote(d, Tokens(d), j)
    ensures i == j
  {
    hide HoldsNote, CoinAllowed, InputAllowed, SoldNoteAllowed, Used, Tokens;
    if i < j {
      TotalOfTwo(Changes(d, Tokens(d)), i, j, |d.outputs|);
    } else if j < i {
      TotalOfTwo(Changes(d, Tokens(d)), j, i, |d.outputs|);
    }
  }

  // ----- the KAS side -----------------------------------------------------------------------------------------

  /** KAS locked in token cells, and KAS paid out by the deposit. */
  function CellIn(d: Deposit): nat -> nat {
    (i: nat) => if i < |d.inputs| && !PlainInput(d.inputs[i]) then d.inputs[i].amount else 0
  }

  function CellOut(d: Deposit, tokens: nat): nat -> nat {
    (i: nat) => if i < |d.outputs| && ChangeNote(d, tokens, i) then d.outputs[i].value else 0
  }

  function UsedOut(d: Deposit): nat -> nat {
    (i: nat) => if i < |d.outputs| && Used(d, i) then d.outputs[i].value else 0
  }

  function Returns(d: Deposit, tokens: nat): nat -> nat {
    (i: nat) => var back: nat := PlainOut(d)(i) + CellOut(d, tokens)(i); back
  }

  /** Every input and every output has exactly one part. */
  lemma KasSplits(d: Deposit, tokens: nat)
    requires OutputsAllowed(d, tokens)
    ensures Total(WholeIn(d), |d.inputs|) == Total(PlainIn(d), |d.inputs|) + Total(CellIn(d), |d.inputs|)
    ensures Total(WholeOut(d), |d.outputs|)
         == Total(PlainOut(d), |d.outputs|) + Total(CellOut(d, tokens), |d.outputs|) + Total(UsedOut(d), |d.outputs|)
  {
    hide ChangeNote, PlainOutput, Used, PlainInput;
    TotalAdds(PlainIn(d), CellIn(d), WholeIn(d), |d.inputs|);
    TotalAdds(PlainOut(d), CellOut(d, tokens), Returns(d, tokens), |d.outputs|);
    forall i | 0 <= i < |d.outputs| ensures WholeOut(d)(i) == Returns(d, tokens)(i) + UsedOut(d)(i) {
      NeverBoth(d, tokens, i);
    }
    TotalAdds(Returns(d, tokens), UsedOut(d), WholeOut(d), |d.outputs|);
  }

  function CoinOut(d: Deposit): nat -> nat {
    (i: nat) => if i < |d.outputs| && i == d.coinIndex then d.outputs[i].value else 0
  }

  function SoldOut(d: Deposit): nat -> nat {
    (i: nat) => if i < |d.outputs| && d.template.Some? && i == d.noteIndex then d.outputs[i].value else 0
  }

  lemma UsedTotal(d: Deposit, tokens: nat)
    requires CoinAllowed(d) && SoldNoteAllowed(d, tokens)
    ensures Total(UsedOut(d), |d.outputs|)
         == d.outputs[d.coinIndex].value + if d.template.Some? then d.outputs[d.noteIndex].value else 0
  {
    hide HoldsNote, Base;
    TotalAdds(CoinOut(d), SoldOut(d), UsedOut(d), |d.outputs|);
    TotalAtOne(CoinOut(d), d.coinIndex, |d.outputs|);
    if d.template.Some? {
      TotalAtOne(SoldOut(d), d.noteIndex, |d.outputs|);
    } else {
      TotalZero(SoldOut(d), |d.outputs|);
    }
  }

  /** A KAS deposit costs the entered total: the router coin and the network fee, nothing else. */
  lemma KasDepositCostsItsTotal(d: Deposit)
    requires Accepts(d) && d.template.None?
    ensures d.payTotal == d.outputs[d.coinIndex].value + Fee(d)
  {
    hide InputAllowed, CoinAllowed;
    KasSplits(d, Tokens(d));
    UsedTotal(d, Tokens(d));
    forall i | 0 <= i < |d.inputs| ensures CellIn(d)(i) == 0 {
      PlainWithoutTemplate(d, i);
    }
    TotalZero(CellIn(d), |d.inputs|);
    TotalZero(CellOut(d, Tokens(d)), |d.outputs|);
  }

  lemma PlainWithoutTemplate(d: Deposit, i: nat)
    requires d.template.None? && i < |d.inputs| && InputAllowed(d, i)
    ensures PlainInput(d.inputs[i])
  {
  }

  lemma ChangeIsSmall(d: Deposit, tokens: nat)
    requires OutputsAllowed(d, tokens)
    ensures Total(CellOut(d, tokens), |d.outputs|) <= NOTE_CAP
  {
    hide PlainOutput, Used;
    var capped: nat -> nat := (i: nat) => NOTE_CAP * Changes(d, tokens)(i);
    TotalAtMost(CellOut(d, tokens), capped, |d.outputs|);
    TotalScales(Changes(d, tokens), capped, NOTE_CAP, |d.outputs|);
  }

  /** A token deposit debits the wallet's plain KAS by less than the router base and 1.2 KAS. */
  lemma TokenDepositIsCheap(d: Deposit)
    requires Accepts(d) && d.template.Some?
    ensures Debit(d) < Base(d) + 120_000_000
  {
    hide InputAllowed, Base, Note;
    KasSplits(d, Tokens(d));
    UsedTotal(d, Tokens(d));
    ChangeIsSmall(d, Tokens(d));
  }
}
