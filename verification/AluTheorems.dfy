/**
 The high-half products are exact, and the packed operations are lane-wise except where the
 unmasked low lane of the 32-bit forms spills into the high one.
 */
module AluTheorems {
  import opened Bits
  import opened Metadata
  import opened Alu
  import opened Wrappers

  // High products

  lemma {:induction false} ProductBound(x: int, y: int, m: int, n: int)
    requires m > 0 && n > 0 && -m <= x <= m && -n <= y <= n
    ensures -(m * n) <= x * y <= m * n
  {
  }

  function High(product: int): int {
    product / 0x1_0000_0000_0000_0000
  }

  lemma {:induction false} HighHalfIsQuotient(product: int)
    ensures HighHalf(product) == FromInt(High(product), 64)
  {
    Pow2Words();
    FromIntHigh(product, 64, 64);
  }

  lemma {:induction false} MulhExact(a: Register, b: Register)
    ensures ToInt(HighHalf(ToInt(a) * ToInt(b))) == High(ToInt(a) * ToInt(b))
  {
    var x, y := ToInt(a), ToInt(b);
    HighHalfIsQuotient(x * y);
    Pow2Words();
    ToIntRange(a);
    ToIntRange(b);
    ProductBound(x, y, 0x8000_0000_0000_0000, 0x8000_0000_0000_0000);
    ToIntFromInt(High(x * y), 64);
  }

  lemma {:induction false} MulhsuExact(a: Register, b: Register)
    ensures ToInt(HighHalf(ToInt(a) * ToNat(b))) == High(ToInt(a) * ToNat(b))
  {
    var x, y := ToInt(a), ToNat(b);
    HighHalfIsQuotient(x * y);
    Pow2Words();
    ToIntRange(a);
    ProductBound(x, y, 0x8000_0000_0000_0000, 0xFFFF_FFFF_FFFF_FFFF);
    ToIntFromInt(High(x * y), 64);
  }

  lemma {:induction false} MulhuExact(a: Register, b: Register)
    ensures ToNat(a) * ToNat(b) >= 0
    ensures ToNat(HighHalf(ToNat(a) * ToNat(b))) == High(ToNat(a) * ToNat(b))
  {
    var x, y := ToNat(a), ToNat(b);
    HighHalfIsQuotient(x * y);
    Pow2Words();
    ProductBound(x, y, 0xFFFF_FFFF_FFFF_FFFF, 0xFFFF_FFFF_FFFF_FFFF);
    MulMonotone(x, 0, y);
    ToNatFromNat(High(x * y), 64);
  }

  /** kMulh, kMulhsu and kMulhu deliver the high 64 bits of the exact product of the operands they name. */
  lemma {:induction false} HighProducts(a: Register, b: Register)
    ensures ToInt(Execute(Mulh, a, b, None).0) == High(ToInt(a) * ToInt(b))
    ensures ToInt(Execute(Mulhsu, a, b, None).0) == High(ToInt(a) * ToNat(b))
    ensures ToNat(Execute(Mulhu, a, b, None).0) == High(ToNat(a) * ToNat(b))
  {
    MulhExact(a, b);
    MulhsuExact(a, b);
    MulhuExact(a, b);
  }

  /** Adding 2^64 to negative factors adds the other factor to the high half. */
  lemma {:induction false} HighOfShifted(x: int, y: int, alpha: bool, beta: bool)
    ensures var w := 0x1_0000_0000_0000_0000;
      High((if alpha then x + w else x) * (if beta then y + w else y))
        == High(x * y) + (if alpha then y else 0) + (if beta then x else 0) + w * (if alpha && beta then 1 else 0)
  {
  }

  lemma {:induction false} FromIntPeriodic(n: int, m: int, k: nat)
    ensures FromInt(n + Pow2(k) * m, k) == FromInt(n, k)
  {
    var p := Pow2(k);
    assert n == p * (n / p) + n % p;
    assert p * (n / p + m) == p * (n / p) + p * m;
    DivModUnique(n + p * m, p, n / p + m, n % p);
    FromIntMod(n, k);
    FromIntMod(n + p * m, k);
  }

  lemma {:induction false} UnsignedFromSigned(a: Register)
    ensures ToNat(a) == if ToInt(a) < 0 then ToInt(a) + 0x1_0000_0000_0000_0000 else ToInt(a)
  {
    Pow2Words();
    TopBit(a);
  }

  /** The unsigned high product from the signed one, modulo 2^64. */
  lemma {:induction false} MulhuFromMulh(a: Register, b: Register)
    ensures var corrected := ToInt(Execute(Mulh, a, b, None).0)
              + (if ToInt(a) < 0 then ToInt(b) else 0) + (if ToInt(b) < 0 then ToInt(a) else 0);
      Execute(Mulhu, a, b, None).0 == FromInt(corrected, 64)
  {
    MulhExact(a, b);
    HighHalfIsQuotient(ToNat(a) * ToNat(b));
    UnsignedFromSigned(a);
    UnsignedFromSigned(b);
    CorrectedHigh(ToInt(a), ToInt(b));
  }

  lemma {:induction false} CorrectedHigh(x: int, y: int)
    ensures var w := 0x1_0000_0000_0000_0000;
      FromInt(High((if x < 0 then x + w else x) * (if y < 0 then y + w else y)), 64)
        == FromInt(High(x * y) + (if x < 0 then y else 0) + (if y < 0 then x else 0), 64)
  {
    var w := 0x1_0000_0000_0000_0000;
    HighOfShifted(x, y, x < 0, y < 0);
    SameWord(High((if x < 0 then x + w else x) * (if y < 0 then y + w else y)),
             High(x * y) + (if x < 0 then y else 0) + (if y < 0 then x else 0), if x < 0 && y < 0 then 1 else 0);
  }

  lemma {:induction false} SameWord(a: int, b: int, k: int)
    requires a == b + 0x1_0000_0000_0000_0000 * k
    ensures FromInt(a, 64) == FromInt(b, 64)
  {
    Pow2Words();
    FromIntPeriodic(b, k, 64);
  }

  // Packed lanes

  /** Packing keeps all four 16-bit lanes apart, whatever their signs. */
  lemma {:induction false} Pack16Lanes(l0: Bits, l1: Bits, l2: Bits, l3: Bits)
    requires |l0| == |l1| == |l2| == |l3| == 16
    ensures Pack16(l0, l1, l2, l3) == l0 + l1 + l2 + l3
  {
    Low16Bits(l0);
    Low16Bits(l1);
    Low16Bits(l2);
  }

  lemma {:induction false} Low16Bits(l: Bits)
    requires |l| == 16
    ensures Low16(l) == l + Zeros(48)
  {
    Pow2Words();
    AndLowMask(SignExtend(l, 64), 0xFFFF, 16);
  }

  lemma {:induction false} Pack16Lane(r: Register, l0: Bits, l1: Bits, l2: Bits, l3: Bits)
    requires |l0| == |l1| == |l2| == |l3| == 16 && r == Pack16(l0, l1, l2, l3)
    ensures Lane(r, 16, 0) == l0 && Lane(r, 16, 1) == l1 && Lane(r, 16, 2) == l2 && Lane(r, 16, 3) == l3
  {
    Pack16Lanes(l0, l1, l2, l3);
  }

  /** A packed 16-bit operation is four independent wrapping lane operations. */
  lemma {:induction false} Simd16Lanes(op: LaneOp, a: Register, b: Register, k: nat)
    requires k < 4
    ensures Lane(Execute(Simd16(op), a, b, None).0, 16, k)
         == FromInt(LaneCompute(op, ToInt(Lane(a, 16, k)), ToInt(Lane(b, 16, k))), 16)
  {
    var ls := [LaneResult(op, a, b, 16, 0), LaneResult(op, a, b, 16, 1),
               LaneResult(op, a, b, 16, 2), LaneResult(op, a, b, 16, 3)];
    PackedLane(Execute(Simd16(op), a, b, None).0, ls, k);
    assert k == 0 || k == 1 || k == 2 || k == 3;
  }

  lemma {:induction false} PackedLane(r: Register, ls: seq<Bits>, k: nat)
    requires |ls| == 4 && (forall i :: 0 <= i < 4 ==> |ls[i]| == 16) && r == Pack16(ls[0], ls[1], ls[2], ls[3])
    requires k < 4
    ensures Lane(r, 16, k) == ls[k]
  {
    Pack16Lane(r, ls[0], ls[1], ls[2], ls[3]);
    assert k == 0 || k == 1 || k == 2 || k == 3;
  }

  lemma {:induction false} Pack32Halves(lower: Bits, upper: Bits)
    requires |lower| == |upper| == 32
    ensures Lane(Pack32(lower, upper), 32, 0) == lower
    ensures Lane(Pack32(lower, upper), 32, 1) == upper <==> ToInt(lower) >= 0 || ToInt(upper) == -1
    ensures ToInt(lower) < 0 ==> Lane(Pack32(lower, upper), 32, 1) == Ones(32)
  {
    var p := Pack32(lower, upper);
    assert forall i :: 0 <= i < 32 ==> p[32 + i] == (lower[31] || upper[i]);
    if lower[31] {
      assert p[32..] == Ones(32);
    }
    Pow2Words();
    TopBit(lower);
    MinusOne(upper);
  }

  /**
   A packed 32-bit operation always gives the right low lane, and the right high lane exactly when
   the low result is non-negative or the high result is -1.
   */
  lemma {:induction false} Simd32Lanes(op: LaneOp, a: Register, b: Register)
    ensures var r := Execute(Simd32(op), a, b, None).0;
      var low, high := LaneResult(op, a, b, 32, 0), LaneResult(op, a, b, 32, 1);
      && Lane(r, 32, 0) == low
      && (Lane(r, 32, 1) == high <==> ToInt(low) >= 0 || ToInt(high) == -1)
  {
    Pack32Halves(LaneResult(op, a, b, 32, 0), LaneResult(op, a, b, 32, 1));
  }

  /** For instance -1 + 0 in the low lane turns 0 + 0 in the high lane into -1. */
  lemma {:induction false} PackedSpill()
    ensures var a, b := Ones(32) + Zeros(32), Zeros(64);
      LaneResult(LaneAdd, a, b, 32, 1) == Zeros(32) != Lane(Execute(Simd32(LaneAdd), a, b, None).0, 32, 1)
  {
    var a := Ones(32) + Zeros(32);
    HalvesOf(Ones(32), Zeros(32));
    AddedZero(a, 0, Ones(32));
    AddedZero(a, 1, Zeros(32));
    Spills(LaneAdd, a, Zeros(64), Ones(32), Zeros(32));
  }

  lemma {:induction false} HalvesOf(low: Bits, high: Bits)
    requires |low| == 32 && |high| == 32
    ensures Lane(low + high, 32, 0) == low && Lane(low + high, 32, 1) == high
  {
  }

  lemma {:induction false} Spills(op: LaneOp, a: Register, b: Register, low: Bits, high: Bits)
    requires low == LaneResult(op, a, b, 32, 0) == Ones(32) && high == LaneResult(op, a, b, 32, 1) == Zeros(32)
    ensures Lane(Execute(Simd32(op), a, b, None).0, 32, 1) != high
  {
    SpillCondition();
    Simd32Lanes(op, a, b);
  }

  lemma {:induction false} AddedZero(a: Register, k: nat, l: Bits)
    requires k < 2 && l == Lane(a, 32, k)
    ensures LaneResult(LaneAdd, a, Zeros(64), 32, k) == l
  {
    ZeroLanes();
    FromIntToInt(l);
    assert k == 0 || k == 1;
  }

  lemma {:induction false} ZeroLanes()
    ensures ToInt(Lane(Zeros(64), 32, 0)) == 0 && ToInt(Lane(Zeros(64), 32, 1)) == 0
  {
    assert Zeros(32) + Zeros(32) == Zeros(64);
    HalvesOf(Zeros(32), Zeros(32));
    ToNatZeros(32);
  }

  lemma {:induction false} SpillCondition()
    ensures ToInt(Ones(32)) < 0 && ToInt(Zeros(32)) != -1
  {
    MinusOne(Ones(32));
    ToNatZeros(32);
  }

  lemma {:induction false} MinusOne(b: Bits)
    requires |b| == 32
    ensures ToInt(b) == -1 <==> b == Ones(32)
  {
    Pow2Words();
    FromIntToInt(b);
    ToIntFromInt(-1, 32);
    forall i: nat | i < 32
      ensures -1 / Pow2(i) == -1
    {
      DivModUnique(-1, Pow2(i), -1, Pow2(i) - 1);
    }
    assert FromInt(-1, 32) == Ones(32);
  }

  // Shifts and divisions as arithmetic

  lemma {:induction false} ToNatAppend(a: Bits, b: Bits)
    ensures ToNat(a + b) == ToNat(a) + Pow2(|a|) * ToNat(b)
    decreases |a|
  {
    if a == [] {
      assert a + b == b;
    } else {
      assert (a + b)[1..] == a[1..] + b;
      ToNatAppend(a[1..], b);
      DoubledProduct(Pow2(|a|), Pow2(|a| - 1), ToNat(b));
    }
  }

  lemma {:induction false} DoubledProduct(d: int, p: int, n: int)
    requires d == 2 * p
    ensures d * n == 2 * (p * n)
  {
  }

  /** The high bits are the quotient, the low bits the remainder. */
  lemma {:induction false} ToNatSplit(a: Bits, n: nat)
    requires n <= |a|
    ensures ToNat(a[n..]) == ToNat(a) / Pow2(n) && ToNat(a[..n]) == ToNat(a) % Pow2(n)
  {
    assert a == a[..n] + a[n..];
    ToNatAppend(a[..n], a[n..]);
    DivModUnique(ToNat(a), Pow2(n), ToNat(a[n..]), ToNat(a[..n]));
  }

  lemma {:induction false} ShlScales(a: Bits, n: nat)
    requires n <= |a|
    ensures ToNat(Shl(a, n)) == Pow2(n) * ToNat(a) % Pow2(|a|)
  {
    var k := |a| - n;
    ToNatSplit(a, k);
    ToNatZeros(n);
    ToNatAppend(Zeros(n), a[..k]);
    Pow2Add(n, k);
    ModScales(ToNat(a), Pow2(k), Pow2(n));
  }

  lemma {:induction false} ModScales(v: nat, p: nat, s: nat)
    requires p > 0 && s > 0
    ensures s * p > 0 && s * v % (s * p) == s * (v % p)
  {
    var q, r := v / p, v % p;
    assert v == p * q + r;
    ScaledDivision(p, q, r, s);
    MulBelow(s, r, p);
    DivModUnique(s * v, s * p, q, s * r);
  }

  lemma {:induction false} ScaledDivision(p: int, q: int, r: int, s: int)
    ensures s * (p * q + r) == (s * p) * q + s * r
  {
  }

  lemma {:induction false} MulBelow(s: nat, r: nat, p: nat)
    requires s > 0 && r < p
    ensures 0 <= s * r < s * p
  {
    MulAtLeast(s, p - r);
    assert s * p == s * r + s * (p - r);
  }

  lemma {:induction false} SignExtendKeeps(b: Bits, k: nat)
    requires 0 < |b| <= k
    ensures ToInt(SignExtend(b, k)) == ToInt(b)
  {
    var j := k - |b|;
    if b[|b| - 1] {
      assert SignExtend(b, k) == b + Ones(j);
      ToNatAppend(b, Ones(j));
      ToNatOnes(j);
      Pow2Add(|b|, j);
      Distribute(Pow2(|b|), Pow2(j));
    } else {
      assert SignExtend(b, k) == b + Zeros(j);
      ToNatZeroExtend(b, j);
    }
  }

  lemma {:induction false} Distribute(p: int, q: int)
    ensures p * (q - 1) == p * q - p
  {
  }

  lemma {:induction false} ToNatOnes(j: nat)
    ensures ToNat(Ones(j)) == Pow2(j) - 1
  {
    if j != 0 {
      assert Ones(j)[1..] == Ones(j - 1);
      ToNatOnes(j - 1);
    }
  }

  lemma {:induction false} SraScales(a: Bits, n: nat)
    requires n < |a|
    ensures ToInt(a[n..]) == ToInt(a) / Pow2(n)
  {
    ToNatSplit(a, n);
    Pow2Add(n, |a| - n);
    assert a[n..][|a| - n - 1] == a[|a| - 1];
    if a[|a| - 1] {
      QuotientShift(ToNat(a), Pow2(n), Pow2(|a| - n), Pow2(|a|));
    }
  }

  lemma {:induction false} QuotientShift(v: nat, p: nat, q: nat, w: nat)
    requires p > 0 && w == p * q
    ensures (v - w) / p == v / p - q
  {
    assert v == p * (v / p) + v % p;
    assert p * (v / p - q) == p * (v / p) - p * q;
    DivModUnique(v - w, p, v / p - q, v % p);
  }

  /** Shifts multiply modulo 2^64 and divide, rounding down, by the power of two that the low six bits of b name. */
  lemma {:induction false} ShiftsScale(a: Register, b: Register, n: nat)
    requires n == ToNat(b) % 64
    ensures ToNat(Execute(Sll, a, b, None).0) == Pow2(n) * ToNat(a) % Pow2(64)
    ensures ToNat(Execute(Srl, a, b, None).0) == ToNat(a) / Pow2(n)
    ensures ToInt(Execute(Sra, a, b, None).0) == ToInt(a) / Pow2(n)
  {
    ShiftAmountIs(b);
    ExecuteShifts(a, b, n);
    ShlScales(a, n);
    ShrScales(a, n);
    SraKeeps(a, n);
  }

  lemma {:induction false} ExecuteShifts(a: Register, b: Register, n: nat)
    requires ShiftAmount(b) == n
    ensures n < 64
    ensures Execute(Sll, a, b, None).0 == Shl(a, n)
    ensures Execute(Srl, a, b, None).0 == Shr(a, n)
    ensures Execute(Sra, a, b, None).0 == SignExtend(a[n..], 64)
  {
  }

  lemma {:induction false} ShiftAmountIs(b: Register)
    ensures ShiftAmount(b) == ToNat(b) % 64
  {
    Pow2Fields();
    ToNatSplit(b, 6);
  }

  lemma {:induction false} ShrScales(a: Bits, n: nat)
    requires n <= |a|
    ensures ToNat(Shr(a, n)) == ToNat(a) / Pow2(n)
  {
    ToNatSplit(a, n);
    ToNatZeroExtend(a[n..], n);
  }

  lemma {:induction false} SraKeeps(a: Bits, n: nat)
    requires n < |a|
    ensures ToInt(SignExtend(a[n..], |a|)) == ToInt(a) / Pow2(n)
  {
    SraScales(a, n);
    SignExtendKeeps(a[n..], |a|);
  }

  function Magnitude(n: int): (m: int)
    ensures m >= 0
  {
    if n < 0 then -n else n
  }

  /**
   Truncating division: quotient and remainder recompose, the remainder is smaller and takes the sign
   of the dividend.
   */
  lemma {:induction false} TruncatedDivision(x: int, y: int)
    requires y != 0
    ensures x == y * TruncDiv(x, y) + TruncRem(x, y)
    ensures Magnitude(TruncRem(x, y)) < Magnitude(y)
    ensures TruncRem(x, y) > 0 ==> x > 0
    ensures TruncRem(x, y) < 0 ==> x < 0
  {
    TruncRemIs(x, y);
    SmallerRemainder(Magnitude(x), y);
  }

  lemma {:induction false} TruncRemIs(x: int, y: int)
    requires y != 0
    ensures TruncRem(x, y) == if x < 0 then -(Magnitude(x) % y) else Magnitude(x) % y
  {
    var n := Magnitude(x);
    assert n == y * (n / y) + n % y;
    assert y * -(n / y) == -(y * (n / y));
  }

  lemma {:induction false} SmallerRemainder(n: int, y: int)
    requires n >= 0 && y != 0
    ensures 0 <= n % y < Magnitude(y)
    ensures n == 0 ==> n % y == 0
  {
  }

  /**
   Protected results are the 32-bit numbers congruent to the exact ones, with the overflow flag set
   exactly when those do not fit; division truncates, yields -1 by zero, and only overflows for the
   least number by -1.
   */
  lemma {:induction false} ProtectedArithmetic(op: Arith, x: int, y: int)
    requires InInt32(x) && InInt32(y)
    ensures var (r, overflow) := Compute(op, x, y);
      InInt32(r) && Delivers(op, x, y, r, overflow)
  {
    match op
    case Add => Wrapped(x + y);
    case Sub => Wrapped(x - y);
    case Mul => Wrapped(x * y);
    case Div =>
      if y != 0 {
        QuotientRange(x, y);
      }
  }

  /** The result is congruent to the exact one, and the flag says whether it differs from it. */
  predicate Delivers(op: Arith, x: int, y: int, r: int, overflow: bool) {
    && (op.Add? ==> Congruent(r, x + y) && (overflow <==> r != x + y))
    && (op.Sub? ==> Congruent(r, x - y) && (overflow <==> r != x - y))
    && (op.Mul? ==> Congruent(r, x * y) && (overflow <==> r != x * y))
    && (op.Div? && y != 0 ==> Congruent(r, TruncDiv(x, y)) && (overflow <==> r != TruncDiv(x, y)))
    && (op.Div? && y == 0 ==> r == -1 && !overflow)
  }

  /** Equal modulo 2^32. */
  predicate Congruent(r: int, n: int) {
    (r - n) % 0x1_0000_0000 == 0
  }

  lemma {:induction false} Wrapped(n: int)
    ensures InInt32(Wrap32(n)) && Congruent(Wrap32(n), n) && (InInt32(n) <==> Wrap32(n) == n)
  {
    Pow2Words();
    ToIntRange(FromInt(n, 32));
    ToNatFromInt(n, 32);
    CongruentMod(n, ToNat(FromInt(n, 32)));
    if InInt32(n) {
      ToIntFromInt(n, 32);
    }
  }

  lemma {:induction false} CongruentMod(n: int, v: int)
    requires v == n % 0x1_0000_0000
    ensures Congruent(v, n) && Congruent(v - 0x1_0000_0000, n)
  {
  }

  lemma {:induction false} QuotientRange(x: int, y: int)
    requires InInt32(x) && InInt32(y) && y != 0
    ensures if x == INT32_MIN && y == -1 then TruncDiv(x, y) == 0x8000_0000 else InInt32(TruncDiv(x, y))
  {
  }

  // Packed lanes as arithmetic

  /** q is the quotient of x by y rounded toward zero and r what is left. */
  predicate Divides(x: int, y: int, q: int, r: int) {
    x == y * q + r && Magnitude(r) < Magnitude(y) && (r > 0 ==> x > 0) && (r < 0 ==> x < 0)
  }

  /** What a lane of modulus m holds after an operation on x and y; a zero divisor gives 0. */
  ghost predicate LaneHolds(op: LaneOp, x: int, y: int, lane: int, m: int)
    requires m > 0
  {
    match op
    case LaneAdd => (lane - (x + y)) % m == 0
    case LaneSub => (lane - (x - y)) % m == 0
    case LaneMul => (lane - x * y) % m == 0
    case LaneDiv => if y == 0 then lane == 0 else exists q, r :: Divides(x, y, q, r) && (lane - q) % m == 0
    case LaneRem => if y == 0 then lane == 0 else exists q :: Divides(x, y, q, lane)
  }

  lemma {:induction false} WrapsModulo(n: int, w: nat, m: int)
    requires w > 0 && m == Pow2(w)
    ensures (ToInt(FromInt(n, w)) - n) % m == 0
  {
    var b := FromInt(n, w);
    ToNatFromInt(n, w);
    SameResidue(ToInt(b), n, m, if b[w - 1] then -1 else 0);
  }

  lemma {:induction false} SameResidue(v: int, n: int, m: int, k: int)
    requires m > 0 && -1 <= k <= 0 && v == n % m + (if k == 0 then 0 else -m)
    ensures (v - n) % m == 0
  {
    assert n == m * (n / m) + n % m;
    assert m * (k - n / m) == m * k - m * (n / m);
    DivModUnique(v - n, m, k - n / m, 0);
  }

  lemma {:induction false} LaneFits(n: int, w: nat, h: int)
    requires w > 0 && h == Pow2(w - 1) && Magnitude(n) < h
    ensures ToInt(FromInt(n, w)) == n
  {
    ToIntFromInt(n, w);
  }

  lemma {:induction false} LaneResultHolds(op: LaneOp, x: int, y: int, w: nat, m: int, h: int)
    requires w > 0 && m == Pow2(w) && h == Pow2(w - 1) && Magnitude(y) <= h
    ensures LaneHolds(op, x, y, ToInt(FromInt(LaneCompute(op, x, y), w)), m)
  {
    WrapsModulo(LaneCompute(op, x, y), w, m);
    match op
    case LaneDiv =>
      if y == 0 {
        LaneFits(0, w, h);
      } else {
        TruncatedDivision(x, y);
        assert Divides(x, y, TruncDiv(x, y), TruncRem(x, y));
      }
    case LaneRem =>
      if y == 0 {
        LaneFits(0, w, h);
      } else {
        TruncatedDivision(x, y);
        LaneFits(TruncRem(x, y), w, h);
        assert Divides(x, y, TruncDiv(x, y), TruncRem(x, y));
      }
    case _ =>
  }

  lemma {:induction false} LaneMagnitude(l: Bits, w: nat, h: int)
    requires |l| == w > 0 && h == Pow2(w - 1)
    ensures Magnitude(ToInt(l)) <= h
  {
    ToIntRange(l);
  }

  /** Every lane of a packed 16-bit operation holds what the operation means. */
  lemma {:induction false} Simd16Arithmetic(op: LaneOp, a: Register, b: Register, k: nat)
    requires k < 4
    ensures LaneHolds(op, ToInt(Lane(a, 16, k)), ToInt(Lane(b, 16, k)),
                      ToInt(Lane(Execute(Simd16(op), a, b, None).0, 16, k)), 0x1_0000)
  {
    Simd16Lanes(op, a, b, k);
    HalfWords();
    LaneMagnitude(Lane(b, 16, k), 16, 0x8000);
    LaneResultHolds(op, ToInt(Lane(a, 16, k)), ToInt(Lane(b, 16, k)), 16, 0x1_0000, 0x8000);
  }

  lemma {:induction false} HalfWords()
    ensures Pow2(15) == 0x8000 && Pow2(16) == 0x1_0000
    ensures Pow2(31) == 0x8000_0000 && Pow2(32) == 0x1_0000_0000
  {
    Pow2Words();
  }

  /**
   The low lane of a packed 32-bit operation holds what the operation means; so does the high lane
   when the low result is not negative, and otherwise it is -1.
   */
  lemma {:induction false} Simd32Arithmetic(op: LaneOp, a: Register, b: Register, low: Bits, high: Bits)
    requires var r := Execute(Simd32(op), a, b, None).0; low == Lane(r, 32, 0) && high == Lane(r, 32, 1)
    ensures LaneHolds(op, ToInt(Lane(a, 32, 0)), ToInt(Lane(b, 32, 0)), ToInt(low), 0x1_0000_0000)
    ensures if ToInt(low) < 0 then ToInt(high) == -1
      else LaneHolds(op, ToInt(Lane(a, 32, 1)), ToInt(Lane(b, 32, 1)), ToInt(high), 0x1_0000_0000)
  {
    Simd32Lane(op, a, b, low, high);
    Lane32Holds(op, a, b, 0, low);
    if ToInt(low) >= 0 {
      Lane32Holds(op, a, b, 1, high);
    }
  }

  lemma {:induction false} Simd32Lane(op: LaneOp, a: Register, b: Register, low: Bits, high: Bits)
    requires var r := Execute(Simd32(op), a, b, None).0; low == Lane(r, 32, 0) && high == Lane(r, 32, 1)
    ensures low == LaneResult(op, a, b, 32, 0)
    ensures if ToInt(low) < 0 then ToInt(high) == -1 else high == LaneResult(op, a, b, 32, 1)
  {
    Halves(Execute(Simd32(op), a, b, None).0, LaneResult(op, a, b, 32, 0), LaneResult(op, a, b, 32, 1), low, high);
  }

  lemma {:induction false} Halves(r: Register, lower: Bits, upper: Bits, low: Bits, high: Bits)
    requires |lower| == |upper| == 32 && r == Pack32(lower, upper)
    requires low == Lane(r, 32, 0) && high == Lane(r, 32, 1)
    ensures low == lower
    ensures if ToInt(low) < 0 then ToInt(high) == -1 else high == upper
  {
    Pack32Halves(lower, upper);
    MinusOne(Ones(32));
  }

  lemma {:induction false} Lane32Holds(op: LaneOp, a: Register, b: Register, k: nat, l: Bits)
    requires k < 2 && l == LaneResult(op, a, b, 32, k)
    ensures LaneHolds(op, ToInt(Lane(a, 32, k)), ToInt(Lane(b, 32, k)), ToInt(l), 0x1_0000_0000)
  {
    HalfWords();
    LaneMagnitude(Lane(b, 32, k), 32, 0x8000_0000);
    LaneResultHolds(op, ToInt(Lane(a, 32, k)), ToInt(Lane(b, 32, k)), 32, 0x1_0000_0000, 0x8000_0000);
  }

  // The second component of a result

  /** The flag of kInjectFlip says whether the word changed; if so, in the drawn bit alone. */
  lemma {:induction false} InjectedFlip(a: Register, b: Register, flip: Draw)
    ensures var (q, flipped) := Execute(InjectFlip, a, b, flip);
      && (flipped <==> q != a) && (flipped <==> flip.Some?)
      && forall i :: 0 <= i < 64 ==> (q[i] != a[i] <==> flip == Some(i))
  {
    if flip.Some? {
      assert Flip(a, flip.value)[flip.value] != a[flip.value];
    }
  }

  /** No operation besides the protected ones, kInjectFlip and kCheckError ever sets the flag. */
  lemma {:induction false} FlagUnused(op: AluOp, a: Register, b: Register, flip: Draw)
    requires !op.Protected? && !op.InjectFlip? && !op.CheckError?
    ensures !Execute(op, a, b, flip).1
  {
  }
}
