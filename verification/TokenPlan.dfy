/**
 One approval for a whole chain of token payments.

 A transfer can spend only a few token cells, so a larger payment first compounds the sender's
 largest cells into one, again and again, until what is left can be paid in one transfer.
 */
module TokenPlan {
  import opened Wrappers
  import opened Words
  import opened Ledger
  import opened TokenCells
  import S = Sorting

  const MAX_CELLS := 65
  const MAX_STEPS := 32
  const DUST := 10_000
  const FEE_RESERVE := 50_000_000
  const KASSEAL_SUPPLY := 1_200_000_000

  datatype Template = Reference3 | Reference10 | KassealOwner

  function InputLimit(t: Template): nat {
    if t.Reference10? then 10 else 3
  }

  function Deposit(t: Template): nat {
    if t.KassealOwner? then 500_000_000 else 100_000_000
  }

  /** A cell of the recipient that receives the payment, and the smallest payment it lets through. */
  datatype Borrowed = Borrowed(cell: Cell, threshold: nat)
  datatype Funding = Funding(at: Outpoint, value: nat)

  datatype Request = Request(template: Template, sender: Address, recipient: Address, amount: nat,
                             cells: seq<Cell>, borrowed: Option<Borrowed>, funding: seq<Funding>)

  datatype Step = Step(tx: Tx, fee: nat)
  datatype Plan = Plan(steps: seq<Step>, totalFee: nat)

  datatype StepError = BadTransfer | BalanceTooLow | FundsTooLow | SumOverflow | MassRejected
  datatype PlanError =
    | InvalidPlan
    | DuplicateOrEmptyCell
    | TotalOverflow
    | InsufficientBalance
    | IncompletePlan
    | TooManySteps
    | FeeOverflow
    | StepRejected(why: StepError)

  /** The fee for these inputs and token outputs and this input total, or nothing when the mass limits reject it. */
  type FeeOracle = (seq<Outpoint>, seq<Coin>, nat) -> Option<nat>

  // ----- one transfer -----------------------------------------------------------------------

  predicate NoRepeats(s: seq<Outpoint>) {
    s == [] || (s[0] !in s[1..] && NoRepeats(s[1..]))
  }

  function BorrowedCells(r: Request): seq<Cell> {
    if r.borrowed.Some? then [r.borrowed.value.cell] else []
  }

  function BorrowedTokens(r: Request): nat {
    if r.borrowed.Some? then r.borrowed.value.cell.tokens else 0
  }

  predicate BorrowAllowed(r: Request) {
    r.borrowed.Some? ==>
      && r.sender != r.recipient
      && r.amount > r.borrowed.value.threshold
      && r.borrowed.value.cell.tokens + r.amount <= I64_MAX
      && !r.template.KassealOwner?
  }

  function FundingPlaces(f: seq<Funding>): seq<Outpoint> {
    seq(|f|, i requires 0 <= i < |f| => f[i].at)
  }

  function FundingValues(f: seq<Funding>): seq<nat> {
    seq(|f|, i requires 0 <= i < |f| => f[i].value)
  }

  function Unspent(f: seq<Funding>, spent: seq<Outpoint>): (u: seq<Funding>)
    ensures forall x :: x in u ==> x in f && x.at !in spent
  {
    if f == [] then []
    else (if f[0].at in spent then [] else [f[0]]) + Unspent(f[1..], spent)
  }

  predicate Larger(a: Funding, b: Funding) {
    a.value >= b.value
  }

  function SortFunding(f: seq<Funding>): (s: seq<Funding>)
    ensures multiset(s) == multiset(f)
  {
    S.Sort(f, Larger)
  }

  /** Takes coins in order, at least one, until `have` reaches `want`. */
  function Pick(f: seq<Funding>, have: nat, want: nat): (p: seq<Funding>)
    ensures p <= f
    ensures f != [] ==> p != []
  {
    if f == [] then []
    else if have + f[0].value >= want then [f[0]]
    else [f[0]] + Pick(f[1..], have + f[0].value, want)
  }

  function TokenOutputs(r: Request, change: nat): seq<Coin> {
    var floor := Deposit(r.template);
    var value := if r.borrowed.Some? then Max(r.borrowed.value.cell.value, floor) else floor;
    [Token(r.recipient, BorrowedTokens(r) + r.amount, value)]
    + (if change > 0 then [Token(r.sender, change, floor)] else [])
  }

  function AllCells(r: Request): seq<Cell> {
    BorrowedCells(r) + r.cells
  }

  function Picked(r: Request, outputs: seq<Coin>): seq<Funding> {
    Pick(SortFunding(Unspent(r.funding, Places(AllCells(r)))),
         Sum(Deposits(AllCells(r))), Values(outputs) + FEE_RESERVE)
  }

  function InputTotal(r: Request, outputs: seq<Coin>): nat {
    Sum(Deposits(AllCells(r))) + Sum(FundingValues(Picked(r, outputs)))
  }

  function Inputs(r: Request, outputs: seq<Coin>): seq<Outpoint> {
    Places(AllCells(r)) + FundingPlaces(Picked(r, outputs))
  }

  predicate TransferAllowed(r: Request) {
    && BorrowAllowed(r)
    && r.amount > 0
    && r.cells != []
    && |AllCells(r)| <= InputLimit(r.template)
    && NoRepeats(Places(AllCells(r)))
  }

  function Prepare(r: Request, fees: FeeOracle): (step: Result<Step, StepError>)
    ensures step.Success? ==> step.value.tx.outputs != []
  {
    var total := Sum(Amounts(r.cells));
    if !TransferAllowed(r) then Failure(BadTransfer)
    else if total > I64_MAX then Failure(SumOverflow)
    else if total < r.amount || (r.template.KassealOwner? && total > KASSEAL_SUPPLY) then Failure(BalanceTooLow)
    else if total + BorrowedTokens(r) > I64_MAX then Failure(SumOverflow)
    else
      var outputs := TokenOutputs(r, total - r.amount);
      if Picked(r, outputs) == [] then Failure(FundsTooLow)
      else if InputTotal(r, outputs) > U64_MAX then Failure(SumOverflow)
      else
        match fees(Inputs(r, outputs), outputs, InputTotal(r, outputs))
        case None => Failure(MassRejected)
        case Some(fee) =>
          var change := InputTotal(r, outputs) - Values(outputs) - fee;
          if change < DUST then Failure(FundsTooLow)
          else Success(Step(Tx(Inputs(r, outputs), outputs + [Plain(r.sender, change)]), fee))
  }

  // ----- the chain ---------------------------------------------------------------------------

  function FinalLimit(r: Request): (f: nat)
    ensures f == InputLimit(r.template) - (if r.borrowed.Some? then 1 else 0)
  {
    InputLimit(r.template) - (if r.borrowed.Some? then 1 else 0)
  }

  function StepRequest(r: Request, compound: bool, selected: seq<Cell>, funding: seq<Funding>): Request {
    if compound then
      r.(borrowed := None, cells := selected, recipient := r.sender, amount := Sum(Amounts(selected)),
         funding := funding)
    else
      r.(cells := selected, funding := funding)
  }

  /** The cell and the KAS change a compound leaves for the next step. */
  function Merged(r: Request, tx: Tx, tokens: nat): Cell {
    Cell(Outpoint(Hash(tx), 0), tokens, Deposit(r.template))
  }

  function NextFunding(funding: seq<Funding>, tx: Tx): seq<Funding>
    requires tx.outputs != []
  {
    var last := |tx.outputs| - 1;
    Unspent(funding, tx.inputs) + [Funding(Outpoint(Hash(tx), last), tx.outputs[last].value)]
  }

  function Selection(r: Request, sorted: seq<Cell>, required: nat): (n: nat)
    ensures n <= |sorted|
  {
    Min(|sorted|, if required > FinalLimit(r) then InputLimit(r.template) else FinalLimit(r))
  }

  /** What one turn of the loop makes of the cells and the funding it finds. */
  datatype Round =
    | Final(step: Step)
    | Compound(step: Step, cells: seq<Cell>, funding: seq<Funding>)

  function NextRound(r: Request, fees: FeeOracle, order: Outpoint -> int, cells: seq<Cell>, funding: seq<Funding>):
    Result<Round, PlanError>
    requires r.amount > 0
  {
    var sorted := SortCells(cells, order);
    match Required(Amounts(sorted), r.amount)
    case None => Failure(IncompletePlan)
    case Some(required) =>
      var compound := required > FinalLimit(r);
      var n := Selection(r, sorted, required);
      match Prepare(StepRequest(r, compound, sorted[..n], funding), fees)
      case Failure(why) => Failure(StepRejected(why))
      case Success(step) =>
        if !compound then Success(Final(step))
        else Success(Compound(step, sorted[n..] + [Merged(r, step.tx, Sum(Amounts(sorted[..n])))],
                              NextFunding(funding, step.tx)))
  }

  function PlanFrom(r: Request, fees: FeeOracle, order: Outpoint -> int, cells: seq<Cell>, funding: seq<Funding>,
                    done: nat, paid: nat): Result<Plan, PlanError>
    requires r.amount > 0 && done <= MAX_STEPS
    decreases MAX_STEPS - done
  {
    if done >= MAX_STEPS then Failure(TooManySteps)
    else
      match NextRound(r, fees, order, cells, funding)
      case Failure(e) => Failure(e)
      case Success(round) =>
        var total := paid + round.step.fee;
        if total > U64_MAX then Failure(FeeOverflow)
        else if round.Final? then Success(Plan([round.step], total))
        else Prepend(round.step, PlanFrom(r, fees, order, round.cells, round.funding, done + 1, total))
  }

  function Prepend(step: Step, rest: Result<Plan, PlanError>): Result<Plan, PlanError> {
    match rest
    case Failure(e) => Failure(e)
    case Success(plan) => Success(Plan([step] + plan.steps, plan.totalFee))
  }

  function Checked(r: Request): Result<bool, PlanError> {
    if r.cells == [] || |r.cells| > MAX_CELLS || r.amount == 0 || !BorrowAllowed(r)
       || (r.template.KassealOwner? && exists c :: c in r.cells && c.tokens > KASSEAL_SUPPLY)
    then Failure(InvalidPlan)
    else if (exists c :: c in r.cells && c.tokens == 0) || !NoRepeats(Places(AllCells(r)))
    then Failure(DuplicateOrEmptyCell)
    else if Sum(Amounts(r.cells)) > I64_MAX then Failure(TotalOverflow)
    else if Sum(Amounts(r.cells)) < r.amount then Failure(InsufficientBalance)
    else Success(true)
  }

  function PreparePlan(r: Request, fees: FeeOracle, order: Outpoint -> int): Result<Plan, PlanError> {
    match Checked(r)
    case Failure(e) => Failure(e)
    case Success(_) => PlanFrom(r, fees, order, r.cells, r.funding, 0, 0)
  }

  // ----- the planner as written: one loop over its own cells and funding -----------------------

  method PositionCovering(cells: seq<Cell>, amount: nat) returns (position: Option<nat>)
    requires amount > 0
    ensures position == match Required(Amounts(cells), amount) case None => None case Some(n) => Some(n - 1)
  {
    var covered := 0;
    var i := 0;
    assert Amounts(cells)[0..] == Amounts(cells);
    while i < |cells|
      invariant 0 <= i <= |cells| && covered < amount
      invariant covered == Sum(Amounts(cells)[..i])
      invariant Required(Amounts(cells), amount) ==
        match Required(Amounts(cells)[i..], amount - covered) case None => None case Some(n) => Some(n + i)
    {
      var a := Amounts(cells);
      assert a[i..][0] == cells[i].tokens && a[i..][1..] == a[i + 1..];
      assert a[..i + 1] == a[..i] + [a[i]];
      SumConcat(a[..i], [a[i]]);
      covered := covered + cells[i].tokens;
      if covered >= amount {
        return Some(i);
      }
      i := i + 1;
    }
    assert Amounts(cells)[i..] == [];
    return None;
  }

  method Turn(r: Request, fees: FeeOracle, order: Outpoint -> int, allCells: seq<Cell>, funding: seq<Funding>)
    returns (round: Result<Round, PlanError>)
    requires r.amount > 0
    ensures round == NextRound(r, fees, order, allCells, funding)
  {
    hide Prepare, SortCells, Required, Amounts, Sum, Selection, NextFunding, Merged;
    var cells := SortCells(allCells, order);
    var position := PositionCovering(cells, r.amount);
    if position == None {
      return Failure(IncompletePlan);
    }
    var required := position.value + 1;
    var compound := required > FinalLimit(r);
    var n := Selection(r, cells, required);
    var selected := cells[..n];
    cells := cells[n..];
    var prepared := Prepare(StepRequest(r, compound, selected, funding), fees);
    if prepared.Failure? {
      return Failure(StepRejected(prepared.error));
    }
    var step := prepared.value;
    if !compound {
      return Success(Final(step));
    }
    cells := cells + [Merged(r, step.tx, Sum(Amounts(selected)))];
    return Success(Compound(step, cells, NextFunding(funding, step.tx)));
  }

  method Build(r: Request, fees: FeeOracle, order: Outpoint -> int) returns (plan: Result<Plan, PlanError>)
    ensures plan == PreparePlan(r, fees, order)
  {
    hide NextRound, NoRepeats, Places, Amounts, Sum;
    var checked := Checked(r);
    if checked.Failure? {
      return Failure(checked.error);
    }
    var cells, funding := r.cells, r.funding;
    var steps: seq<Step>, totalFee: nat := [], 0;
    ghost var whole := PlanFrom(r, fees, order, cells, funding, 0, 0);
    assert whole.Success? ==> [] + whole.value.steps == whole.value.steps;
    while true
      invariant |steps| <= MAX_STEPS
      invariant whole == Continued(steps, PlanFrom(r, fees, order, cells, funding, |steps|, totalFee))
      decreases MAX_STEPS - |steps|
    {
      if |steps| >= MAX_STEPS {
        return Failure(TooManySteps);
      }
      var turn := Turn(r, fees, order, cells, funding);
      if turn.Failure? {
        return Failure(turn.error);
      }
      var round := turn.value;
      if totalFee + round.step.fee > U64_MAX {
        return Failure(FeeOverflow);
      }
      totalFee := totalFee + round.step.fee;
      if round.Final? {
        return Success(Plan(steps + [round.step], totalFee));
      }
      cells, funding := round.cells, round.funding;
      ContinuedByOne(steps, round.step, PlanFrom(r, fees, order, cells, funding, |steps| + 1, totalFee));
      steps := steps + [round.step];
    }
  }

  /** The plan that continues the given steps. */
  ghost function Continued(steps: seq<Step>, rest: Result<Plan, PlanError>): Result<Plan, PlanError> {
    match rest
    case Failure(e) => Failure(e)
    case Success(plan) => Success(Plan(steps + plan.steps, plan.totalFee))
  }

  lemma ContinuedByOne(steps: seq<Step>, step: Step, rest: Result<Plan, PlanError>)
    ensures Continued(steps, Prepend(step, rest)) == Continued(steps + [step], rest)
  {
    if rest.Success? {
      assert steps + ([step] + rest.value.steps) == (steps + [step]) + rest.value.steps;
    }
  }
}
