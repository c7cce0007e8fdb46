/** Bytes and little-endian numbers. */
module Bytes {

  type byte = x: int | 0 <= x < 256
  type bytes = seq<byte>

  function Zeros(n: nat): (z: bytes)
    ensures |z| == n && forall i :: 0 <= i < n ==> z[i] == 0
  {
    seq(n, _ => 0)
  }

  /** A key, hash or other identifier of 32 bytes. */
  type Key = k: bytes | |k| == 32 witness Zeros(32)

  /** The number a little-endian byte string stands for. */
  function FromLe(b: bytes): nat {
    if b == [] then 0 else b[0] + 256 * FromLe(b[1..])
  }

  /** The low `width` bytes of `n`, lowest first. */
  function ToLe(n: nat, width: nat): (b: bytes)
    ensures |b| == width
  {
    if width == 0 then [] else [n % 256] + ToLe(n / 256, width - 1)
  }

  function Pow256(k: nat): (p: nat)
    ensures p >= 1
  {
    if k == 0 then 1 else 256 * Pow256(k - 1)
  }

  lemma {:induction false} LeRoundTrip(n: nat, width: nat)
    requires n < Pow256(width)
    ensures FromLe(ToLe(n, width)) == n
  {
    if width > 0 {
      LeRoundTrip(n / 256, width - 1);
      assert ToLe(n, width)[1..] == ToLe(n / 256, width - 1);
    }
  }

  lemma {:induction false} LeOfNumber(b: bytes)
    ensures FromLe(b) < Pow256(|b|)
    ensures ToLe(FromLe(b), |b|) == b
  {
    if b != [] {
      hide Pow256, FromLe, ToLe;
      LeOfNumber(b[1..]);
      LeUnfold(b);
      LowByte(b[0], FromLe(b[1..]), Pow256(|b| - 1));
      LeNext(FromLe(b), |b|);
      assert b == [b[0]] + b[1..];
    }
  }

  lemma LeUnfold(b: bytes)
    requires b != []
    ensures FromLe(b) == b[0] + 256 * FromLe(b[1..]) && Pow256(|b|) == 256 * Pow256(|b| - 1)
  {
  }

  lemma LowByte(low: byte, rest: nat, bound: nat)
    ensures (low + 256 * rest) % 256 == low && (low + 256 * rest) / 256 == rest
    ensures rest < bound ==> low + 256 * rest < 256 * bound
  {
  }

  lemma LeNext(n: nat, width: nat)
    requires width > 0
    ensures ToLe(n, width) == [n % 256] + ToLe(n / 256, width - 1)
  {
  }

  lemma Pow256Small()
    ensures Pow256(0) == 1 && Pow256(1) == 256 && Pow256(2) == 0x1_0000 && Pow256(4) == 0x1_0000_0000
    ensures Pow256(8) == 0x1_0000_0000_0000_0000
  {
    assert Pow256(3) == 256 * Pow256(2);
    assert Pow256(5) == 256 * Pow256(4);
    assert Pow256(6) == 256 * Pow256(5);
    assert Pow256(7) == 256 * Pow256(6);
  }
}
