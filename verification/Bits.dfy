/** Bit strings, most significant bit first, and the integer operators the CRC loop uses. */
module Bits {
  type Bits = seq<bool>

  function Pow2(w: nat): nat {
    if w == 0 then 1 else 2 * Pow2(w - 1)
  }

  /** The low `w` bits of `n`. */
  function ToBits(n: nat, w: nat): (bits: Bits)
    ensures |bits| == w
  {
    if w == 0 then [] else ToBits(n / 2, w - 1) + [n % 2 == 1]
  }

  function FromBits(bits: Bits): nat {
    if bits == [] then 0
    else 2 * FromBits(bits[..|bits| - 1]) + if bits[|bits| - 1] then 1 else 0
  }

  function Zeros(n: nat): (bits: Bits)
    ensures |bits| == n && forall k :: 0 <= k < n ==> !bits[k]
  {
    seq(n, i => false)
  }

  function Ones(n: nat): (bits: Bits)
    ensures |bits| == n && forall k :: 0 <= k < n ==> bits[k]
  {
    seq(n, i => true)
  }

  /** Add (exclusive or) `q` to the leading bits of `p`. */
  function AddFront(p: Bits, q: Bits): (sum: Bits)
    requires |q| <= |p|
    ensures |sum| == |p|
    ensures forall k :: 0 <= k < |p| ==> sum[k] == if k < |q| then p[k] != q[k] else p[k]
  {
    seq(|p|, i requires 0 <= i < |p| => if i < |q| then p[i] != q[i] else p[i])
  }

  /** `a ^ b` on non-negative integers. */
  function Xor(a: nat, b: nat): nat
    decreases a + b
  {
    if a == 0 && b == 0 then 0
    else 2 * Xor(a / 2, b / 2) + if a % 2 != b % 2 then 1 else 0
  }

  lemma {:induction false} XorBits(a: nat, b: nat, w: nat)
    ensures ToBits(Xor(a, b), w) == AddFront(ToBits(a, w), ToBits(b, w))
  {
    if w > 0 {
      assert Xor(a, b) / 2 == Xor(a / 2, b / 2);
      XorBits(a / 2, b / 2, w - 1);
    }
  }

  lemma {:induction false} FromToBits(n: nat, w: nat)
    requires n < Pow2(w)
    ensures FromBits(ToBits(n, w)) == n
  {
    if w > 0 {
      FromToBits(n / 2, w - 1);
      assert ToBits(n, w)[..w - 1] == ToBits(n / 2, w - 1);
    }
  }

  lemma {:induction false} ToFromBits(bits: Bits)
    ensures FromBits(bits) < Pow2(|bits|)
    ensures ToBits(FromBits(bits), |bits|) == bits
    decreases |bits|
  {
    if bits != [] {
      ToFromBits(bits[..|bits| - 1]);
    }
  }

  /** Bits above the width do not matter. */
  lemma {:induction false} HighBitsFallOff(n: nat, q: nat, w: nat)
    ensures ToBits(n + Pow2(w) * q, w) == ToBits(n, w)
  {
    if w > 0 {
      var x := Pow2(w - 1) * q;
      assert Pow2(w) * q == 2 * x;
      assert (n + 2 * x) / 2 == n / 2 + x;
      HighBitsFallOff(n / 2, q, w - 1);
    }
  }

  function Bit(n: nat, k: nat): bool {
    if k == 0 then n % 2 == 1 else Bit(n / 2, k - 1)
  }

  lemma {:induction false} ToBitsHead(n: nat, w: nat)
    ensures ToBits(n, w + 1) == [Bit(n, w)] + ToBits(n, w)
  {
    if w > 0 {
      ToBitsHead(n / 2, w - 1);
    } else {
      assert ToBits(n / 2, 0) == [];
    }
  }

  lemma {:induction false} ToBitsShifted(n: nat, k: nat, w: nat)
    ensures ToBits(Pow2(k) * n, w + k) == ToBits(n, w) + Zeros(k)
  {
    if k > 0 {
      var x := Pow2(k - 1) * n;
      assert Pow2(k) * n == 2 * x;
      ToBitsShifted(n, k - 1, w);
      assert Zeros(k) == Zeros(k - 1) + [false];
    } else {
      assert ToBits(n, w) + Zeros(0) == ToBits(n, w);
    }
  }

  lemma {:induction false} XorZero(a: nat)
    ensures Xor(a, 0) == a
  {
    if a > 0 {
      XorZero(a / 2);
    }
  }

  /** The exclusive or of the last hexadecimal digits. */
  function Nibble(a: nat, b: nat): nat {
    (if a % 2 != b % 2 then 1 else 0) + (if a / 2 % 2 != b / 2 % 2 then 2 else 0)
    + (if a / 4 % 2 != b / 4 % 2 then 4 else 0) + (if a / 8 % 2 != b / 8 % 2 then 8 else 0)
  }

  /** Digit by digit. */
  lemma FourBits(a: nat, b: nat)
    ensures Xor(a, b) == 16 * Xor(a / 16, b / 16) + Nibble(a, b)
  {
    assert a / 2 / 2 == a / 4 && a / 4 / 2 == a / 8 && a / 8 / 2 == a / 16;
    assert b / 2 / 2 == b / 4 && b / 4 / 2 == b / 8 && b / 8 / 2 == b / 16;
    assert Xor(a, b) == 2 * Xor(a / 2, b / 2) + if a % 2 != b % 2 then 1 else 0;
    assert Xor(a / 2, b / 2) == 2 * Xor(a / 4, b / 4) + if a / 2 % 2 != b / 2 % 2 then 1 else 0;
    assert Xor(a / 4, b / 4) == 2 * Xor(a / 8, b / 8) + if a / 4 % 2 != b / 4 % 2 then 1 else 0;
    assert Xor(a / 8, b / 8) == 2 * Xor(a / 16, b / 16) + if a / 8 % 2 != b / 8 % 2 then 1 else 0;
  }
}
