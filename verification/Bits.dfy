/**
 Machine integers as little-endian bit sequences: index 0 is the least significant bit.
 The C++ operators on fixed-width integers become the pointwise and slicing functions below,
 and arithmetic goes through ToNat / ToInt and back through FromInt, which wraps.
 */
module Bits {

  type Bits = seq<bool>

  function Pow2(k: nat): (p: nat)
    ensures p >= 1
  {
    if k == 0 then 1 else 2 * Pow2(k - 1)
  }

  function Zeros(k: nat): Bits {
    seq(k, _ => false)
  }

  function Ones(k: nat): Bits {
    seq(k, _ => true)
  }

  /** The k-bit two's complement representation of n, wrapping. */
  function FromInt(n: int, k: nat): (b: Bits)
    ensures |b| == k
  {
    seq(k, i requires 0 <= i < k => n / Pow2(i) % 2 == 1)
  }

  /** The unsigned value of b. */
  function ToNat(b: Bits): (n: nat)
    ensures n < Pow2(|b|)
  {
    if b == [] then 0 else (if b[0] then 1 else 0) + 2 * ToNat(b[1..])
  }

  /** The two's complement value of b. */
  function ToInt(b: Bits): int
    requires b != []
  {
    ToNat(b) - (if b[|b| - 1] then Pow2(|b|) else 0)
  }

  function Xor(a: Bits, b: Bits): (c: Bits)
    requires |a| == |b|
  {
    seq(|a|, i requires 0 <= i < |a| => a[i] != b[i])
  }

  function Or(a: Bits, b: Bits): (c: Bits)
    requires |a| == |b|
  {
    seq(|a|, i requires 0 <= i < |a| => a[i] || b[i])
  }

  function And(a: Bits, b: Bits): (c: Bits)
    requires |a| == |b|
  {
    seq(|a|, i requires 0 <= i < |a| => a[i] && b[i])
  }

  function Not(a: Bits): (c: Bits) {
    seq(|a|, i requires 0 <= i < |a| => !a[i])
  }

  /** a << n within the width of a. */
  function Shl(a: Bits, n: nat): (c: Bits)
    requires n <= |a|
    ensures |c| == |a|
  {
    Zeros(n) + a[..|a| - n]
  }

  /** a >> n for an unsigned a. */
  function Shr(a: Bits, n: nat): (c: Bits)
    requires n <= |a|
    ensures |c| == |a|
  {
    a[n..] + Zeros(n)
  }

  /** a with bit i inverted. */
  function Flip(a: Bits, i: nat): Bits
    requires i < |a|
  {
    a[i := !a[i]]
  }

  /** The word of k bits in which only bit i is set. */
  function OneHot(i: nat, k: nat): Bits
    requires i < k
  {
    Zeros(k)[i := true]
  }

  /** True when an odd number of the bits is set. */
  function Parity(b: Bits): bool {
    if b == [] then false else Parity(b[..|b| - 1]) != b[|b| - 1]
  }

  /** The number of bits that are set. */
  function Weight(b: Bits): nat {
    if b == [] then 0 else Weight(b[..|b| - 1]) + (if b[|b| - 1] then 1 else 0)
  }

  // Values and representations

  lemma {:induction false} FromIntCons(n: int, k: nat)
    requires k > 0
    ensures FromInt(n, k) == [n % 2 == 1] + FromInt(n / 2, k - 1)
  {
    forall i: nat | 0 < i < k
      ensures n / Pow2(i) == n / 2 / Pow2(i - 1)
    {
      DivDouble(n, Pow2(i - 1));
    }
  }

  lemma {:induction false} ToNatFromInt(n: int, k: nat)
    ensures ToNat(FromInt(n, k)) == n % Pow2(k)
    decreases k
  {
    if k != 0 {
      FromIntCons(n, k);
      ToNatFromInt(n / 2, k - 1);
      DivDouble(n, Pow2(k - 1));
    }
  }

  lemma {:induction false} ToNatFromNat(n: nat, k: nat)
    requires n < Pow2(k)
    ensures ToNat(FromInt(n, k)) == n
  {
    ToNatFromInt(n, k);
    DivModUnique(n, Pow2(k), 0, n);
  }

  lemma {:induction false} DivModUnique(n: int, d: int, q: int, r: int)
    requires 0 <= r < d && n == d * q + r
    ensures n / d == q && n % d == r
  {
    var x := n / d - q;
    assert d * x == r - n % d by {
      assert n == d * (n / d) + n % d;
      assert d * x == d * (n / d) - d * q;
    }
    if x >= 1 {
      MulAtLeast(d, x);
    } else if x <= -1 {
      MulAtLeast(d, -x);
    }
  }

  lemma {:induction false} DivDouble(n: int, p: int)
    requires p > 0
    ensures n / (2 * p) == n / 2 / p
    ensures n % (2 * p) == 2 * (n / 2 % p) + n % 2
  {
    var q, r := n / 2 / p, n / 2 % p;
    assert n / 2 == p * q + r;
    assert 2 * (p * q) == (2 * p) * q;
    DivModUnique(n, 2 * p, q, 2 * r + n % 2);
  }

  lemma {:induction false} MulAtLeast(d: int, x: int)
    requires d > 0 && x >= 1
    ensures d * x >= d
  {
  }

  lemma {:induction false} FromIntToNat(b: Bits)
    ensures FromInt(ToNat(b), |b|) == b
  {
    if b != [] {
      FromIntToNat(b[1..]);
      FromIntCons(ToNat(b), |b|);
      assert ToNat(b) / 2 == ToNat(b[1..]);
      assert b == [b[0]] + b[1..];
    }
  }

  /** Representation depends on the value modulo 2^k only. */
  lemma {:induction false} FromIntMod(n: int, k: nat)
    ensures FromInt(n % Pow2(k), k) == FromInt(n, k)
  {
    ToNatFromInt(n, k);
    FromIntToNat(FromInt(n, k));
  }

  lemma {:induction false} FromIntToInt(b: Bits)
    requires b != []
    ensures FromInt(ToInt(b), |b|) == b
  {
    var p := Pow2(|b|);
    if b[|b| - 1] {
      DivModUnique(ToInt(b), p, -1, ToNat(b));
      FromIntMod(ToInt(b), |b|);
    }
    FromIntToNat(b);
  }

  /** The top bit of a word is the sign of its value. */
  lemma {:induction false} TopBit(b: Bits)
    requires |b| > 0
    ensures b[|b| - 1] <==> ToNat(b) >= Pow2(|b| - 1)
  {
    if |b| > 1 {
      TopBit(b[1..]);
    }
  }

  lemma {:induction false} ToIntRange(b: Bits)
    requires |b| > 0
    ensures -1 * Pow2(|b| - 1) <= ToInt(b) < Pow2(|b| - 1)
  {
    TopBit(b);
  }

  lemma {:induction false} ToIntFromInt(n: int, k: nat)
    requires k > 0 && -1 * Pow2(k - 1) <= n < Pow2(k - 1)
    ensures ToInt(FromInt(n, k)) == n
  {
    var b := FromInt(n, k);
    ToNatFromInt(n, k);
    TopBit(b);
    if n < 0 {
      DivModUnique(n, Pow2(k), -1, n + Pow2(k));
    } else {
      DivModUnique(n, Pow2(k), 0, n);
    }
  }

  /** Truncation keeps the low bits. */
  lemma {:induction false} FromIntPrefix(n: int, k: nat, j: nat)
    requires j <= k
    ensures FromInt(n, k)[..j] == FromInt(n, j)
  {
  }

  /** A word is determined by its value. */
  lemma {:induction false} ToNatInjective(a: Bits, b: Bits)
    requires |a| == |b| && ToNat(a) == ToNat(b)
    ensures a == b
  {
    FromIntToNat(a);
    FromIntToNat(b);
  }

  /** Bit i of 2^w - 1 is set exactly below w. */
  lemma {:induction false} LowMaskBit(w: nat, i: nat)
    ensures (Pow2(w) - 1) / Pow2(i) % 2 == 1 <==> i < w
    decreases w
  {
    if w == 0 {
      DivModUnique(0, Pow2(i), 0, 0);
    } else if i != 0 {
      LowMaskBit(w - 1, i - 1);
      DivDouble(Pow2(w) - 1, Pow2(i - 1));
      assert (Pow2(w) - 1) / 2 == Pow2(w - 1) - 1;
    }
  }

  /** Masking with 2^w - 1 keeps the low w bits. */
  lemma {:induction false} AndLowMask(a: Bits, mask: nat, w: nat)
    requires w <= |a| && mask == Pow2(w) - 1
    ensures And(a, FromInt(mask, |a|)) == a[..w] + Zeros(|a| - w)
  {
    forall i: nat | i < |a|
      ensures FromInt(mask, |a|)[i] == (i < w)
    {
      LowMaskBit(w, i);
    }
  }

  lemma {:induction false} ToNatZeros(k: nat)
    ensures ToNat(Zeros(k)) == 0
  {
    if k != 0 {
      assert Zeros(k)[1..] == Zeros(k - 1);
      ToNatZeros(k - 1);
    }
  }

  /** Zero extension keeps the value. */
  lemma {:induction false} ToNatZeroExtend(b: Bits, k: nat)
    ensures ToNat(b + Zeros(k)) == ToNat(b)
  {
    if b == [] {
      assert b + Zeros(k) == Zeros(k);
      ToNatZeros(k);
    } else {
      assert (b + Zeros(k))[1..] == b[1..] + Zeros(k);
      ToNatZeroExtend(b[1..], k);
    }
  }

  // Parity, weight and xor

  lemma {:induction false} ParityConcat(a: Bits, b: Bits)
    ensures Parity(a + b) == (Parity(a) != Parity(b))
    decreases |b|
  {
    if b == [] {
      assert a + b == a;
    } else {
      assert (a + b)[..|a + b| - 1] == a + b[..|b| - 1];
      ParityConcat(a, b[..|b| - 1]);
    }
  }

  lemma {:induction false} WeightConcat(a: Bits, b: Bits)
    ensures Weight(a + b) == Weight(a) + Weight(b)
    decreases |b|
  {
    if b == [] {
      assert a + b == a;
    } else {
      assert (a + b)[..|a + b| - 1] == a + b[..|b| - 1];
      WeightConcat(a, b[..|b| - 1]);
    }
  }

  lemma {:induction false} ParityIsWeight(b: Bits)
    ensures Parity(b) <==> Weight(b) % 2 == 1
  {
    if b != [] {
      ParityIsWeight(b[..|b| - 1]);
    }
  }

  lemma {:induction false} ParityXor(a: Bits, b: Bits)
    requires |a| == |b|
    ensures Parity(Xor(a, b)) == (Parity(a) != Parity(b))
  {
    if a != [] {
      var n := |a| - 1;
      assert Xor(a, b)[..n] == Xor(a[..n], b[..n]);
      ParityXor(a[..n], b[..n]);
    }
  }

  lemma {:induction false} WeightZero(b: Bits)
    ensures Weight(b) == 0 <==> b == Zeros(|b|)
  {
    if b != [] {
      var n := |b| - 1;
      WeightZero(b[..n]);
      assert b == b[..n] + [b[n]];
      assert Zeros(|b|) == Zeros(n) + [false];
    }
  }

  /** A word of weight one has exactly one bit set. */
  lemma {:induction false} WeightOne(b: Bits) returns (i: nat)
    requires Weight(b) == 1
    ensures i < |b| && b == OneHot(i, |b|)
  {
    var n := |b| - 1;
    assert b == b[..n] + [b[n]];
    if b[n] {
      WeightZero(b[..n]);
      i := n;
    } else {
      i := WeightOne(b[..n]);
    }
  }

  lemma {:induction false} XorOneHot(a: Bits, i: nat)
    requires i < |a|
    ensures Xor(a, OneHot(i, |a|)) == Flip(a, i)
  {
  }

  lemma {:induction false} WeightTwo(b: Bits) returns (i: nat, j: nat)
    requires Weight(b) == 2
    ensures i < j < |b| && b == Xor(OneHot(i, |b|), OneHot(j, |b|))
  {
    var n := |b| - 1;
    assert b == b[..n] + [b[n]];
    if b[n] {
      i := WeightOne(b[..n]);
      j := n;
    } else {
      i, j := WeightTwo(b[..n]);
    }
  }

  lemma {:induction false} WeightOneHot(i: nat, k: nat)
    requires i < k
    ensures Weight(OneHot(i, k)) == 1
  {
    var b := OneHot(i, k);
    if i == k - 1 {
      assert b[..k - 1] == Zeros(k - 1);
      WeightZero(b[..k - 1]);
    } else {
      assert b[..k - 1] == OneHot(i, k - 1);
      WeightOneHot(i, k - 1);
    }
  }

  lemma {:induction false} ToNatOneHot(i: nat, k: nat)
    requires i < k
    ensures ToNat(OneHot(i, k)) == Pow2(i)
  {
    var b := OneHot(i, k);
    if i == 0 {
      assert b[1..] == Zeros(k - 1);
      ToNatZeros(k - 1);
    } else {
      assert b[1..] == OneHot(i - 1, k - 1);
      ToNatOneHot(i - 1, k - 1);
    }
  }

  lemma {:induction false} XorSelf(a: Bits, b: Bits)
    requires |a| == |b|
    ensures Xor(a, b) == Zeros(|a|) <==> a == b
  {
    if Xor(a, b) == Zeros(|a|) {
      forall i | 0 <= i < |a|
        ensures a[i] == b[i]
      {
        assert !Xor(a, b)[i];
      }
    }
  }

  lemma {:induction false} Pow2Add(i: nat, j: nat)
    ensures Pow2(i + j) == Pow2(i) * Pow2(j)
    decreases i
  {
    if i != 0 {
      Pow2Add(i - 1, j);
      assert Pow2(i) * Pow2(j) == 2 * (Pow2(i - 1) * Pow2(j));
    }
  }

  lemma {:induction false} Pow2Monotone(j: nat, k: nat)
    requires j <= k
    ensures Pow2(j) <= Pow2(k)
  {
    if j < k {
      Pow2Monotone(j, k - 1);
    }
  }

  lemma {:induction false} Pow2Words()
    ensures Pow2(8) == 0x100 && Pow2(16) == 0x1_0000
    ensures Pow2(31) == 0x8000_0000 && Pow2(32) == 0x1_0000_0000
    ensures Pow2(63) == 0x8000_0000_0000_0000 && Pow2(64) == 0x1_0000_0000_0000_0000
  {
    assert Pow2(4) == 16;
    Pow2Add(8, 8);
    Pow2Add(16, 16);
    Pow2Add(32, 32);
  }

  /** The bits above j of n represent n / 2^j. */
  lemma {:induction false} FromIntHigh(n: int, j: nat, k: nat)
    ensures FromInt(n, j + k)[j..] == FromInt(n / Pow2(j), k)
  {
    forall i: nat | i < k
      ensures n / Pow2(j + i) == n / Pow2(j) / Pow2(i)
    {
      Pow2Add(j, i);
      DivDiv(n, Pow2(j), Pow2(i));
    }
  }

  lemma {:induction false} DivDiv(n: int, a: int, b: int)
    requires a > 0 && b > 0
    ensures a * b > 0 && n / (a * b) == n / a / b
  {
    var q, r := n / a / b, n / a % b;
    var s := n % a;
    assert n / a == b * q + r;
    assert n == a * (b * q + r) + s;
    assert a * (b * q + r) == (a * b) * q + a * r;
    assert 0 <= a * r <= a * (b - 1) by {
      MulMonotone(a, 0, r);
      MulMonotone(a, r, b - 1);
    }
    assert a * (b - 1) == a * b - a;
    MulMonotone(a, 1, b);
    DivModUnique(n, a * b, q, a * r + s);
  }

  lemma {:induction false} MulMonotone(a: int, x: int, y: int)
    requires a >= 0 && x <= y
    ensures a * x <= a * y
  {
  }

  /** A number below 2^w has no bits at w and above. */
  lemma {:induction false} FromIntFits(n: nat, w: nat, k: nat)
    requires w <= k && n < Pow2(w)
    ensures FromInt(n, k) == FromInt(n, w) + Zeros(k - w)
  {
    forall i: nat | w <= i < k
      ensures !FromInt(n, k)[i]
    {
      Pow2Add(w, i - w);
      MulMonotone(Pow2(w), 1, Pow2(i - w));
      DivModUnique(n, Pow2(i), 0, n);
    }
  }
}
