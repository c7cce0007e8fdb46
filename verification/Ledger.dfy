/**
 A UTXO ledger for standard token payments.

 A transaction id is the hash of the transaction, and hashing is injective: an id therefore
 is the transaction it names. Nothing here assumes that ids are fresh; that follows from
 `Chained`, which every ledger grown from confirmed transactions satisfies.
 */
module Ledger {
  import opened Wrappers

  type Address = string

  datatype TxId = External(n: nat) | Hash(tx: Tx)
  datatype Outpoint = Outpoint(id: TxId, index: nat)
  datatype Tx = Tx(inputs: seq<Outpoint>, outputs: seq<Coin>)

  /** Plain KAS, or a token cell with the KAS deposit it carries. */
  datatype Coin =
    | Plain(owner: Address, value: nat)
    | Token(owner: Address, tokens: nat, value: nat)

  function Tokens(c: Coin): nat {
    if c.Token? then c.tokens else 0
  }

  datatype Ledger = Ledger(live: map<Outpoint, Coin>, spent: set<Outpoint>)

  /** Whatever a known coin was made from has been spent, and nothing is both spent and live. */
  ghost predicate Chained(l: Ledger) {
    && l.live.Keys !! l.spent
    && forall o, p :: (o in l.live || o in l.spent) && o.id.Hash? && p in o.id.tx.inputs ==> p in l.spent
  }

  function Values(cs: seq<Coin>): nat {
    if cs == [] then 0 else cs[0].value + Values(cs[1..])
  }

  function TokenTotal(cs: seq<Coin>): nat {
    if cs == [] then 0 else Tokens(cs[0]) + TokenTotal(cs[1..])
  }

  function CoinsAt(l: Ledger, at: seq<Outpoint>): (cs: seq<Coin>)
    requires forall o :: o in at ==> o in l.live
    ensures |cs| == |at|
  {
    if at == [] then [] else [l.live[at[0]]] + CoinsAt(l, at[1..])
  }

  /** The consensus rules a transaction paying `fee` has to meet: live inputs, each once, KAS and tokens balanced. */
  ghost predicate Applies(l: Ledger, tx: Tx, fee: nat) {
    && tx.inputs != []
    && Distinct(tx.inputs)
    && (forall o :: o in tx.inputs ==> o in l.live)
    && Values(CoinsAt(l, tx.inputs)) == Values(tx.outputs) + fee
    && TokenTotal(CoinsAt(l, tx.inputs)) == TokenTotal(tx.outputs)
  }

  ghost function Created(tx: Tx): map<Outpoint, Coin> {
    map i: nat | i < |tx.outputs| :: Outpoint(Hash(tx), i) := tx.outputs[i]
  }

  ghost function After(l: Ledger, tx: Tx): Ledger {
    var gone := set o | o in tx.inputs;
    Ledger((l.live - gone) + Created(tx), l.spent + gone)
  }

  /** A new id collides with nothing known, coins not named as inputs stay, and the ledger stays chained. */
  lemma AfterIsChained(l: Ledger, tx: Tx, fee: nat)
    requires Chained(l) && Applies(l, tx, fee)
    ensures Chained(After(l, tx))
    ensures forall i: nat :: Outpoint(Hash(tx), i) !in l.live && Outpoint(Hash(tx), i) !in l.spent
    ensures forall o :: o in l.live && o !in tx.inputs ==> o in After(l, tx).live && After(l, tx).live[o] == l.live[o]
    ensures forall i: nat :: i < |tx.outputs| ==>
      Outpoint(Hash(tx), i) in After(l, tx).live && After(l, tx).live[Outpoint(Hash(tx), i)] == tx.outputs[i]
  {
    var first := tx.inputs[0];
    assert first in tx.inputs && first in l.live && first !in l.spent;
    forall i: nat
      ensures Outpoint(Hash(tx), i) !in l.live && Outpoint(Hash(tx), i) !in l.spent
    {
      assert Outpoint(Hash(tx), i).id.tx == tx;
    }
    var created := Created(tx);
    assert forall o :: o in created ==> o.id == Hash(tx);
    var after := After(l, tx);
    forall o, p | (o in after.live || o in after.spent) && o.id.Hash? && p in o.id.tx.inputs
      ensures p in after.spent
    {
      if o !in created {
        assert o in l.live || o in l.spent;
      }
    }
  }

  lemma {:induction false} CoinsAtConcat(l: Ledger, a: seq<Outpoint>, b: seq<Outpoint>)
    requires forall o :: o in a + b ==> o in l.live
    ensures forall o :: o in a ==> o in l.live
    ensures forall o :: o in b ==> o in l.live
    ensures CoinsAt(l, a + b) == CoinsAt(l, a) + CoinsAt(l, b)
  {
    forall o | o in a || o in b
      ensures o in l.live
    {
      assert o in a + b;
    }
    if a == [] {
      assert a + b == b;
    } else {
      assert (a + b)[1..] == a[1..] + b;
      CoinsAtConcat(l, a[1..], b);
    }
  }

  lemma {:induction false} TotalsConcat(a: seq<Coin>, b: seq<Coin>)
    ensures Values(a + b) == Values(a) + Values(b)
    ensures TokenTotal(a + b) == TokenTotal(a) + TokenTotal(b)
  {
    if a == [] {
      assert a + b == b;
    } else {
      assert (a + b)[1..] == a[1..] + b;
      TotalsConcat(a[1..], b);
    }
  }
}
