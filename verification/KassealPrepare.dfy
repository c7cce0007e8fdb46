/** The check of a Kasseal preparation: the wallet splits or merges its own token cells before a sale. */
module KassealPrepare {
  import opened Wrappers
  import opened Words
  import opened Bytes
  import opened PushScript
  import opened KassealToken
  import opened Totals
  import opened Kasseal

  const MAX_PREPARED := 4
  const CELL_FLOOR := 250_000_000
  const LOCK_CAP := 500_000_000
  const DEBIT_CAP := 700_000_000

  datatype Operation = Split | Merge | Unknown

  datatype Preparation = Preparation(
    inputs: seq<Input>, outputs: seq<Output>, selected: set<nat>,
    prebuilt: map<nat, bytes>, outputPrograms: map<nat, bytes>,
    wallet: Key, token: Key, program: TokenProgram,
    operation: Operation, target: u64, tokenAmount: u64, maxDebit: u64,
    networkFee: u64, walletNet: Option<int>, walletChange: u64)

  /** A program holding tokens for the wallet itself. */
  function OwnHolding(p: Preparation, program: bytes): Part {
    match Token(p.program, program)
    case None => Refused
    case Some(h) => if h.scheme == 0 && h.key == p.wallet then OwnTokens(h.amount) else Refused
  }

  function InPart(p: Preparation, i: nat): Part {
    if i >= |p.inputs| || i !in p.selected then Refused
    else
      var e := p.inputs[i];
      if e.covenant.None? then
        if e.script == WalletKey then Plain else Refused
      else if e.covenant != Some(p.token) then Refused
      else
        match LastPush(if i in p.prebuilt then p.prebuilt[i] else e.unlock, 0, [])
        case Failure(_) => Refused
        case Success(program) => if e.script == ScriptHash(program) then OwnHolding(p, program) else Refused
  }

  function OutPart(p: Preparation, i: nat): Part {
    if i >= |p.outputs| then Refused
    else
      var o := p.outputs[i];
      if o.covenant.None? then
        if o.script == WalletKey then Plain else Refused
      else if o.covenant != Some(p.token) || i !in p.outputPrograms || o.script != ScriptHash(p.outputPrograms[i])
              || o.value < CELL_FLOOR
      then Refused
      else OwnHolding(p, p.outputPrograms[i])
  }

  function Ins(p: Preparation): (x: Side)
    ensures Paired(x) && |x.kas| == |p.inputs|
  {
    Side(seq(|p.inputs|, i requires 0 <= i < |p.inputs| => p.inputs[i].amount),
         seq(|p.inputs|, (i: nat) => InPart(p, i)))
  }

  function Outs(p: Preparation): (x: Side)
    ensures Paired(x) && |x.kas| == |p.outputs|
  {
    Side(seq(|p.outputs|, i requires 0 <= i < |p.outputs| => p.outputs[i].value),
         seq(|p.outputs|, (i: nat) => OutPart(p, i)))
  }

  function OwnCells(x: Side): nat -> nat
    requires Paired(x)
  {
    (i: nat) => if i < |x.kas| && x.part[i].OwnTokens? then 1 else 0
  }

  /** What one side of a preparation adds up to. */
  datatype Tally = Tally(plain: nat, tokens: nat, locked: nat, cells: nat)

  function TallyOf(x: Side, n: nat): Tally
    requires Paired(x)
  {
    Tally(Total(InPlain(x), n), Total(OwnedTokens(x), n), Total(InOwn(x), n), Total(OwnCells(x), n))
  }

  predicate Fits(t: Tally) {
    t.plain < U64_LIMIT && t.tokens < U64_LIMIT && t.locked < U64_LIMIT
  }

  /** Only the wallet's own KAS and tokens, with sums that fit a word. */
  predicate OwnOnly(x: Side)
    requires Paired(x)
  {
    (forall i :: 0 <= i < |x.part| ==> x.part[i].Plain? || x.part[i].OwnTokens?) && Fits(TallyOf(x, |x.kas|))
  }

  predicate Carved(x: Side, target: nat, n: nat)
    requires Paired(x) && n <= |x.part|
  {
    exists i :: 0 <= i < n && x.part[i] == OwnTokens(target)
  }

  lemma TallyGrows(x: Side, i: nat)
    requires Paired(x) && i < |x.kas|
    ensures var a, b, c := TallyOf(x, i), TallyOf(x, i + 1), TallyOf(x, |x.kas|);
            && b == (match x.part[i]
                     case Plain => a.(plain := a.plain + x.kas[i])
                     case OwnTokens(amount) => Tally(a.plain, a.tokens + amount, a.locked + x.kas[i], a.cells + 1)
                     case _ => a)
            && (Fits(c) ==> Fits(b))
  {
    TotalMonotone(InPlain(x), i + 1, |x.kas|);
    TotalMonotone(OwnedTokens(x), i + 1, |x.kas|);
    TotalMonotone(InOwn(x), i + 1, |x.kas|);
  }

  /** One loop of the check as written. */
  method Scan(x: Side, target: nat) returns (r: Option<(Tally, bool)>)
    requires Paired(x)
    ensures r == if OwnOnly(x) then Some((TallyOf(x, |x.kas|), Carved(x, target, |x.part|))) else None
  {
    var t, carved, i := Tally(0, 0, 0, 0), false, 0;
    while i < |x.kas|
      invariant 0 <= i <= |x.kas|
      invariant t == TallyOf(x, i) && Fits(t)
      invariant carved == Carved(x, target, i)
      invariant forall k :: 0 <= k < i ==> x.part[k].Plain? || x.part[k].OwnTokens?
    {
      hide TallyOf;
      TallyGrows(x, i);
      match x.part[i] {
        case Plain =>
          t := t.(plain := t.plain + x.kas[i]);
        case OwnTokens(amount) =>
          t := Tally(t.plain, t.tokens + amount, t.locked + x.kas[i], t.cells + 1);
          carved := carved || amount == target;
        case _ =>
          return None;
      }
      if !Fits(t) {
        return None;
      }
      i := i + 1;
    }
    return Some((t, carved));
  }

  predicate ShapeMet(op: Operation, a: Tally, b: Tally, carved: bool) {
    match op
    case Split => a.cells == 1 && b.cells == 2 && carved
    case Merge => 2 <= a.cells <= 3 && b.cells == 1
    case Unknown => false
  }

  function Fee(p: Preparation): int {
    Total(Whole(Ins(p)), |p.inputs|) - Total(Whole(Outs(p)), |p.outputs|)
  }

  predicate TermsStated(p: Preparation) {
    && |p.inputs| <= MAX_INPUTS && |p.outputs| <= MAX_PREPARED
    && 0 < p.target <= SUPPLY && p.target == p.tokenAmount && p.maxDebit == DEBIT_CAP
  }

  /** The review of a preparation, without what follows from the rest of it. */
  predicate Accepts(p: Preparation) {
    && TermsStated(p)
    && OwnOnly(Ins(p)) && OwnOnly(Outs(p))
    && var a, b := TallyOf(Ins(p), |p.inputs|), TallyOf(Outs(p), |p.outputs|);
       && ShapeMet(p.operation, a, b, Carved(Outs(p), p.target, |p.outputs|))
       && 0 < a.tokens == b.tokens
       && 0 <= Fee(p) <= FEE_CAP && Fee(p) == p.networkFee
       && b.locked - a.locked <= LOCK_CAP
       && p.walletNet == Some(b.plain - a.plain) && p.walletChange == b.plain
  }

  /** With only the wallet's parts, what it pays is what it locks more and the fee. */
  lemma DebitIsLockedAndFee(p: Preparation)
    requires OwnOnly(Ins(p)) && OwnOnly(Outs(p))
    ensures var a, b := TallyOf(Ins(p), |p.inputs|), TallyOf(Outs(p), |p.outputs|);
            a.plain - b.plain == b.locked - a.locked + Fee(p)
  {
    hide Ins, Outs;
    OwnAddUp(Ins(p));
    OwnAddUp(Outs(p));
  }

  lemma OwnAddUp(x: Side)
    requires Paired(x) && OwnOnly(x)
    ensures var t := TallyOf(x, |x.kas|); Total(Whole(x), |x.kas|) == t.plain + t.locked
  {
    TotalAdds(InPlain(x), InOwn(x), Whole(x), |x.kas|);
  }

  /** The check as written. Its debit limit and its debit equation never fail where the other checks pass. */
  method Validate(p: Preparation) returns (ok: bool)
    ensures ok <==> Accepts(p)
  {
    hide InPart, OutPart, OwnOnly, TallyOf, Ins, Outs, Fee;
    if !TermsStated(p) {
      return false;
    }
    var ins := Scan(Ins(p), p.target);
    if ins.None? {
      return false;
    }
    var outs := Scan(Outs(p), p.target);
    if outs.None? {
      return false;
    }
    var a, b, fee := ins.value.0, outs.value.0, Fee(p);
    if !ShapeMet(p.operation, a, b, outs.value.1) || a.tokens == 0 || a.tokens != b.tokens || fee < 0 {
      return false;
    }
    DebitIsLockedAndFee(p);
    var debit := a.plain - b.plain;
    return fee <= FEE_CAP && fee == p.networkFee && b.locked - a.locked <= LOCK_CAP && debit <= DEBIT_CAP
           && debit == b.locked - a.locked + fee && p.walletNet == Some(-debit) && p.walletChange == b.plain;
  }

  // ----- what a preparation leaves ------------------------------------------------------------------------------

  lemma {:induction false} OneCell(x: Side, n: nat) returns (k: nat)
    requires Paired(x) && n <= |x.kas| && TallyOf(x, n).cells == 1
    ensures k < n && x.part[k] == OwnTokens(TallyOf(x, n).tokens)
    ensures forall i :: 0 <= i < n && x.part[i].OwnTokens? ==> i == k
  {
    if x.part[n - 1].OwnTokens? {
      NoCell(x, n - 1);
      k := n - 1;
    } else {
      k := OneCell(x, n - 1);
    }
  }

  lemma {:induction false} NoCell(x: Side, n: nat)
    requires Paired(x) && n <= |x.kas| && TallyOf(x, n).cells == 0
    ensures TallyOf(x, n).tokens == 0
    ensures forall i :: 0 <= i < n ==> !x.part[i].OwnTokens?
  {
    if n > 0 {
      NoCell(x, n - 1);
    }
  }

  lemma {:induction false} TwoCells(x: Side, n: nat) returns (j: nat, k: nat)
    requires Paired(x) && n <= |x.kas| && TallyOf(x, n).cells == 2
    ensures j < k < n && x.part[j].OwnTokens? && x.part[k].OwnTokens?
    ensures TallyOf(x, n).tokens == x.part[j].tokens + x.part[k].tokens
    ensures forall i :: 0 <= i < n && x.part[i].OwnTokens? ==> i == j || i == k
  {
    if x.part[n - 1].OwnTokens? {
      k := n - 1;
      j := OneCell(x, n - 1);
    } else {
      j, k := TwoCells(x, n - 1);
    }
  }

  /** The outputs are one cell of the wallet holding `a`, and plain KAS. */
  predicate LeavesOne(p: Preparation, k: nat, a: nat) {
    k < |p.outputs| && forall i :: 0 <= i < |p.outputs| ==>
      if i == k then OutPart(p, i) == OwnTokens(a) else OutPart(p, i).Plain?
  }

  /** The outputs are two cells of the wallet, the target at `j` and the rest of `total` at `k`, and plain KAS. */
  predicate LeavesTwo(p: Preparation, j: nat, k: nat, total: nat) {
    p.target <= total && j < |p.outputs| && k < |p.outputs| && j != k && forall i :: 0 <= i < |p.outputs| ==>
      if i == j then OutPart(p, i) == OwnTokens(p.target)
      else if i == k then OutPart(p, i) == OwnTokens(total - p.target)
      else OutPart(p, i).Plain?
  }

  /** A merge leaves one cell of the wallet with all the tokens. */
  lemma MergeLeavesOne(p: Preparation)
    requires Accepts(p) && p.operation.Merge?
    ensures exists k :: LeavesOne(p, k, Total(OwnedTokens(Ins(p)), |p.inputs|))
  {
    hide InPart, OutPart;
    var k := OneCell(Outs(p), |p.outputs|);
    var total := Total(OwnedTokens(Ins(p)), |p.inputs|);
    forall i | 0 <= i < |p.outputs|
      ensures if i == k then OutPart(p, i) == OwnTokens(total) else OutPart(p, i).Plain? {
      assert Outs(p).part[i] == OutPart(p, i);
    }
    assert LeavesOne(p, k, total);
  }

  /** A split leaves two cells of the wallet: the amount to sell, and the rest. */
  lemma SplitCarvesTheTarget(p: Preparation)
    requires Accepts(p) && p.operation.Split?
    ensures exists j, k :: LeavesTwo(p, j, k, Total(OwnedTokens(Ins(p)), |p.inputs|))
  {
    hide InPart, OutPart;
    var j, k := TwoCells(Outs(p), |p.outputs|);
    var total := Total(OwnedTokens(Ins(p)), |p.inputs|);
    var i :| 0 <= i < |p.outputs| && Outs(p).part[i] == OwnTokens(p.target);
    var other := if i == j then k else j;
    CellsAt(p, i, other, total);
  }

  lemma CellsAt(p: Preparation, j: nat, k: nat, total: nat)
    requires j != k && j < |p.outputs| && k < |p.outputs| && OwnOnly(Outs(p)) && p.target <= total
    requires Outs(p).part[j] == OwnTokens(p.target) && Outs(p).part[k] == OwnTokens(total - p.target)
    requires forall i :: 0 <= i < |p.outputs| && Outs(p).part[i].OwnTokens? ==> i == j || i == k
    ensures LeavesTwo(p, j, k, total)
  {
    hide OutPart, TallyOf;
    forall i | 0 <= i < |p.outputs| ensures OutPart(p, i) == Outs(p).part[i] {
    }
  }

  /** However it is done, a preparation costs at most its two limits together. */
  lemma PreparationIsCheap(p: Preparation)
    requires Accepts(p)
    ensures TallyOf(Ins(p), |p.inputs|).plain - TallyOf(Outs(p), |p.outputs|).plain <= DEBIT_CAP
  {
    hide OwnOnly, TallyOf, Ins, Outs, Fee;
    DebitIsLockedAndFee(p);
  }
}
