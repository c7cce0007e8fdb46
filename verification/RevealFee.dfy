/** The fee loop of an inscription reveal. */
module RevealFee {
  import opened Wrappers

  const DUST_LIMIT := 10_000

  /** The fee the network requires of the reveal that pays this fee; a larger fee leaves a smaller output. */
  type Required = nat -> nat

  ghost predicate Monotone(required: Required) {
    forall x: nat, y: nat :: x <= y ==> required(x) <= required(y)
  }

  /** The reveal can pay this fee and still return more than dust, and the fee is enough. */
  predicate Suffices(required: Required, amount: nat, fee: nat) {
    fee + DUST_LIMIT <= amount && fee >= required(fee)
  }

  ghost predicate IsLeast(required: Required, amount: nat, fee: nat) {
    Suffices(required, amount, fee) && forall other: nat :: Suffices(required, amount, other) ==> fee <= other
  }

  /**
   The unbounded loop: raise the fee to what is required of it until that is no more. It ends for every
   requirement. For a monotone one it returns the least fee that suffices and refuses only if none does.
   */
  method SettleFee(required: Required, amount: nat) returns (fee: Option<nat>)
    ensures fee.Some? ==> Suffices(required, amount, fee.value)
    ensures Monotone(required) ==>
      if fee.Some? then IsLeast(required, amount, fee.value)
      else forall other: nat :: !Suffices(required, amount, other)
  {
    var current: nat := 0;
    while true
      invariant Monotone(required) ==> forall other: nat :: Suffices(required, amount, other) ==> current <= other
      decreases amount - current
    {
      if current > amount || amount - current < DUST_LIMIT {
        return None;
      }
      var needed := required(current);
      if current >= needed {
        return Some(current);
      }
      current := needed;
    }
  }

  /** Fees that satisfy a monotone requirement are closed under minimum, so the least one is the fixed point itself. */
  lemma LeastIsFixed(required: Required, amount: nat, fee: nat)
    requires Monotone(required) && IsLeast(required, amount, fee)
    ensures required(fee) == fee
  {
    var lower := required(fee);
    assert required(lower) <= required(fee);
    assert Suffices(required, amount, lower);
  }
}
