/**
 The integer cases of Alu::execute (src/vm/alu.cpp) that produce protected words, high products,
 packed lanes and shifts. The random generator of kInjectFlip is the argument `flip`.
 */
module Alu {
  import opened Bits
  import opened Metadata
  import opened Ecc
  import opened Wrappers

  /** Outcome of the random draw: no flip, or one bit position of the data. */
  type Draw = o: Option<nat> | o.Some? ==> o.value < 32 witness None

  datatype Arith = Add | Sub | Mul | Div

  datatype LaneOp = LaneAdd | LaneSub | LaneMul | LaneDiv | LaneRem

  datatype AluOp =
    | Protected(arith: Arith)
    | InjectFlip
    | CheckError
    | SetSig
    | Mulh
    | Mulhsu
    | Mulhu
    | Simd16(lane16: LaneOp)
    | Simd32(lane32: LaneOp)
    | Sll
    | Srl
    | Sra

  const INT32_MIN: int := -0x8000_0000

  predicate InInt32(n: int) {
    -0x8000_0000 <= n < 0x8000_0000
  }

  function Wrap32(n: int): int {
    ToInt(FromInt(n, 32))
  }

  /** C++ division, which rounds toward zero. */
  function TruncDiv(x: int, y: int): int
    requires y != 0
  {
    if x >= 0 then x / y else -(-x / y)
  }

  function TruncRem(x: int, y: int): int
    requires y != 0
  {
    x - y * TruncDiv(x, y)
  }

  /** Result and overflow flag of a protected operation on plain 32-bit values. */
  function Compute(op: Arith, x: int, y: int): (int, bool) {
    match op
    case Add => (Wrap32(x + y), !InInt32(x + y))
    case Sub => (Wrap32(x - y), !InInt32(x - y))
    case Mul => (Wrap32(x * y), !InInt32(x * y))
    case Div =>
      if y == 0 then (-1, false)
      else if x == INT32_MIN && y == -1 then (INT32_MIN, true)
      else (TruncDiv(x, y), false)
  }

  /** The signed 32-bit value held in a protected register. */
  function Value(r: Register): int {
    ToInt(r[..32])
  }

  function Max(x: nat, y: nat): nat {
    if x < y then y else x
  }

  function SignExtend(b: Bits, k: nat): (c: Bits)
    requires 0 < |b| <= k
    ensures |c| == k
  {
    b + seq(k - |b|, _ => b[|b| - 1])
  }

  function LaneCompute(op: LaneOp, x: int, y: int): int {
    match op
    case LaneAdd => x + y
    case LaneSub => x - y
    case LaneMul => x * y
    case LaneDiv => if y == 0 then 0 else TruncDiv(x, y)
    case LaneRem => if y == 0 then 0 else TruncRem(x, y)
  }

  /** Lane k of width w as a bit sequence. */
  function Lane(r: Register, w: nat, k: nat): (l: Bits)
    requires (k + 1) * w <= 64
    ensures |l| == w
  {
    assert k * w <= (k + 1) * w;
    r[k * w..k * w + w]
  }

  function LaneResult(op: LaneOp, a: Register, b: Register, w: nat, k: nat): (l: Bits)
    requires w > 0 && (k + 1) * w <= 64
    ensures |l| == w
  {
    FromInt(LaneCompute(op, ToInt(Lane(a, w, k)), ToInt(Lane(b, w, k))), w)
  }

  function Low16(l: Bits): (c: Bits)
    requires |l| == 16
    ensures |c| == 64
  {
    And(SignExtend(l, 64), FromInt(0xFFFF, 64))
  }

  /** The three low lanes are masked after sign extension, the top one is only shifted. */
  function Pack16(l0: Bits, l1: Bits, l2: Bits, l3: Bits): Register
    requires |l0| == |l1| == |l2| == |l3| == 16
  {
    Or(Or(Or(Low16(l0), Shl(Low16(l1), 16)), Shl(Low16(l2), 32)), Shl(SignExtend(l3, 64), 48))
  }

  /** The low lane is sign-extended and not masked before it is or-ed in. */
  function Pack32(lower: Bits, upper: Bits): Register
    requires |lower| == |upper| == 32
  {
    Or(SignExtend(lower, 64), Shl(SignExtend(upper, 64), 32))
  }

  /** The top half of the 128-bit wrapped product. */
  function HighHalf(product: int): Register {
    FromInt(product, 128)[64..]
  }

  function Execute(op: AluOp, a: Register, b: Register, flip: Draw): (Register, bool) {
    match op
    case Protected(arith) =>
      var (result, overflow) := Compute(arith, Value(a), Value(b));
      var sig := Max(GetSignificance(a), GetSignificance(b));
      (UpdateMetadata(Protect(FromInt(result, 32)), MODE_SEC, 0, 1, sig), overflow)
    case InjectFlip =>
      if flip.Some? then (Flip(a, flip.value), true) else (a, false)
    case CheckError =>
      var corrected := AdaptiveChecked(a);
      (corrected, a[..DATA_ECC_WIDTH] != corrected[..DATA_ECC_WIDTH])
    case SetSig =>
      (UpdateMetadata(a, GetMode(a), GetHist(a), GetFreq(a), ToNat(b[..8])), false)
    case Mulh => (HighHalf(ToInt(a) * ToInt(b)), false)
    case Mulhsu => (HighHalf(ToInt(a) * ToNat(b)), false)
    case Mulhu => (HighHalf(ToNat(a) * ToNat(b)), false)
    case Simd16(lane) =>
      (Pack16(LaneResult(lane, a, b, 16, 0), LaneResult(lane, a, b, 16, 1),
              LaneResult(lane, a, b, 16, 2), LaneResult(lane, a, b, 16, 3)), false)
    case Simd32(lane) =>
      (Pack32(LaneResult(lane, a, b, 32, 0), LaneResult(lane, a, b, 32, 1)), false)
    case Sll => (Shl(a, ShiftAmount(b)), false)
    case Srl => (Shr(a, ShiftAmount(b)), false)
    case Sra => (SignExtend(a[ShiftAmount(b)..], 64), false)
  }

  /** b & 63 */
  function ShiftAmount(b: Register): (n: nat)
    ensures n < 64
  {
    Pow2Fields();
    ToNat(b[..6])
  }
}
