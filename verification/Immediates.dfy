/**
 ImmGenerator and sign_extend of src/vm/vm_base.cpp, and the proof that they undo the encoding of
 every format that carries an immediate.
 */
module Immediates {
  import opened Bits
  import opened Instructions
  import opened CodeGenerator

  /** (value ^ (1 << (bits - 1))) - (1 << (bits - 1)), read as a signed 32-bit number. */
  function SignExtended(value: Word, bits: nat): int
    requires 0 < bits <= 32
  {
    var mask := OneHot(bits - 1, 32);
    ToInt(FromInt(ToNat(Xor(value, mask)) - ToNat(mask), 32))
  }

  function OpcodeBits(w: Word): (n: nat)
    ensures n < 128
  {
    Pow2Small();
    ToNat(w[..7])
  }

  function StoreBits(w: Word): Word {
    Or(Mask(Shr(w, 7), 0x1F), Shl(Mask(Shr(w, 25), 0x7F), 5))
  }

  function BranchBits(w: Word): Word {
    Shl(Or(Or(Or(Mask(Shr(w, 8), 0xF), Shl(Mask(Shr(w, 25), 0x3F), 4)),
              Shl(Mask(Shr(w, 7), 0x1), 10)), Shl(Mask(Shr(w, 31), 0x1), 11)), 1)
  }

  function JumpBits(w: Word): Word {
    Shl(Or(Or(Or(Mask(Shr(w, 21), 0x3FF), Shl(Mask(Shr(w, 20), 0x1), 10)),
              Shl(Mask(Shr(w, 12), 0xFF), 11)), Shl(Mask(Shr(w, 31), 0x1), 19)), 1)
  }

  function ImmGenerator(w: Word): int {
    var opcode := OpcodeBits(w);
    if opcode in {0x13, 0x03, 0x67, 0x0F, 0x07} then SignExtended(Mask(Shr(w, 20), 0xFFF), 12)
    else if opcode in {0x23, 0x27} then SignExtended(StoreBits(w), 12)
    else if opcode == 0x63 then SignExtended(BranchBits(w), 13)
    else if opcode in {0x37, 0x17} then ToInt(Shr(Mask(w, 0xFFFFF000), 12))
    else if opcode == 0x6F then SignExtended(JumpBits(w), 21)
    else 0
  }

  // Sign extension

  lemma {:induction false} ToNatTop(b: Bits)
    requires |b| > 0
    ensures ToNat(b) == ToNat(b[..|b| - 1]) + if b[|b| - 1] then Pow2(|b| - 1) else 0
  {
    if |b| > 1 {
      assert b[..|b| - 1][1..] == b[1..][..|b| - 2];
      ToNatTop(b[1..]);
    }
  }

  /** Inverting the top bit of a field and subtracting its weight gives the signed value. */
  lemma {:induction false} FlippedTop(f: Bits)
    requires |f| > 0
    ensures ToNat(Flip(f, |f| - 1)) - Pow2(|f| - 1) == ToInt(f)
  {
    var g := Flip(f, |f| - 1);
    assert f[..|f| - 1] == g[..|f| - 1];
    ToNatTop(f);
    ToNatTop(g);
  }

  /** The exclusive-or trick reads a field of any width as a signed number. */
  lemma {:induction false} SignExtendField(f: Bits)
    requires 0 < |f| <= 32
    ensures SignExtended(f + Zeros(32 - |f|), |f|) == ToInt(f)
  {
    var x, m := f + Zeros(32 - |f|), OneHot(|f| - 1, 32);
    assert ToNat(Xor(x, m)) - ToNat(m) == ToInt(f) by {
      XorTop(f);
      ToNatZeroExtend(Flip(f, |f| - 1), 32 - |f|);
      ToNatOneHot(|f| - 1, 32);
      FlippedTop(f);
    }
    FitsInWord(f);
  }

  lemma {:induction false} FitsInWord(f: Bits)
    requires 0 < |f| <= 32
    ensures ToInt(FromInt(ToInt(f), 32)) == ToInt(f)
  {
    ToIntRange(f);
    Pow2Monotone(|f| - 1, 31);
    ToIntFromInt(ToInt(f), 32);
  }

  lemma {:induction false} XorTop(f: Bits)
    requires 0 < |f| <= 32
    ensures Xor(f + Zeros(32 - |f|), OneHot(|f| - 1, 32)) == Flip(f, |f| - 1) + Zeros(32 - |f|)
  {
  }

  /** The low k bits of an in-range immediate, read back as a signed number. */
  lemma {:induction false} SignedField(imm: int, k: nat)
    requires 0 < k <= 32 && -1 * Pow2(k - 1) <= imm < Pow2(k - 1)
    ensures SignExtended(FromInt(imm, 32)[..k] + Zeros(32 - k), k) == imm
  {
    FromIntPrefix(imm, 32, k);
    SignExtendField(FromInt(imm, k));
    ToIntFromInt(imm, k);
  }

  /** (w >> lo) & (2^k - 1) */
  lemma {:induction false} Extract(w: Word, lo: nat, k: nat, mask: nat)
    requires lo + k <= 32 && mask == Pow2(k) - 1
    ensures Mask(Shr(w, lo), mask) == w[lo..lo + k] + Zeros(32 - k)
  {
    AndLowMask(Shr(w, lo), mask, k);
  }

  // One lemma per way of scattering the immediate

  lemma {:induction false} StoreField(w: Word)
    ensures StoreBits(w) == w[7..12] + w[25..32] + Zeros(20)
  {
    Pow2Small();
    Extract(w, 7, 5, 0x1F);
    Extract(w, 25, 7, 0x7F);
    OrAbove(w[7..12], w[25..32]);
  }

  lemma {:induction false} BranchField(w: Word)
    ensures BranchBits(w) == [false] + (w[8..12] + w[25..31] + w[7..8] + w[31..32]) + Zeros(19)
  {
    Pow2Small();
    Extract(w, 8, 4, 0xF);
    Extract(w, 25, 6, 0x3F);
    Extract(w, 7, 1, 0x1);
    Extract(w, 31, 1, 0x1);
    OrAbove(w[8..12], w[25..31]);
    OrAbove(w[8..12] + w[25..31], w[7..8]);
    OrAbove(w[8..12] + w[25..31] + w[7..8], w[31..32]);
    Doubled(w[8..12] + w[25..31] + w[7..8] + w[31..32]);
  }

  lemma {:induction false} JumpField(w: Word)
    ensures JumpBits(w) == [false] + (w[21..31] + w[20..21] + w[12..20] + w[31..32]) + Zeros(11)
  {
    Pow2Small();
    assert Pow2(10) == 1024 && Pow2(8) == 256;
    Extract(w, 21, 10, 0x3FF);
    Extract(w, 20, 1, 0x1);
    Extract(w, 12, 8, 0xFF);
    Extract(w, 31, 1, 0x1);
    OrAbove(w[21..31], w[20..21]);
    OrAbove(w[21..31] + w[20..21], w[12..20]);
    OrAbove(w[21..31] + w[20..21] + w[12..20], w[31..32]);
    Doubled(w[21..31] + w[20..21] + w[12..20] + w[31..32]);
  }

  /** A field or-ed in above the ones already placed. */
  lemma {:induction false} OrAbove(low: Bits, x: Bits)
    requires |low| + |x| <= 32
    ensures Or(low + Zeros(32 - |low|), Shl(x + Zeros(32 - |x|), |low|)) == low + x + Zeros(32 - |low| - |x|)
  {
  }

  lemma {:induction false} Doubled(x: Bits)
    requires |x| < 32
    ensures Shl(x + Zeros(32 - |x|), 1) == [false] + x + Zeros(31 - |x|)
  {
  }

  lemma {:induction false} UpperField(w: Word)
    ensures Shr(Mask(w, 0xFFFFF000), 12) == w[12..] + Zeros(12)
  {
    Pow2Small();
    MaskField(w, 0xFFFFF000, 12, 20, 0);
    assert Shl(Mask(w, 0xFFFFF000), 0) == Mask(w, 0xFFFFF000);
  }

  // Encoding and decoding

  /** Adjacent slices join. */
  lemma {:induction false} JoinSlices(b: Bits, i: nat, j: nat, k: nat)
    requires i <= j <= k <= |b|
    ensures b[i..j] + b[j..k] == b[i..k]
  {
  }

  /** A word that holds the scattered bits of n where the B format puts them. */
  lemma {:induction false} BranchDecodes(w: Word, n: int)
    requires -4096 <= n <= 4095 && n % 2 == 0 && OpcodeBits(w) == 0x63
    requires var imm := FromInt(n, 32);
      w[8..12] == imm[1..5] && w[25..31] == imm[5..11] && w[7..8] == imm[11..12] && w[31..32] == imm[12..13]
    ensures ImmGenerator(w) == n
  {
    var imm := FromInt(n, 32);
    BranchField(w);
    JoinSlices(imm, 1, 5, 11);
    JoinSlices(imm, 1, 11, 12);
    JoinSlices(imm, 1, 12, 13);
    EvenPrefix(n, 13);
    Pow2Small();
    SignedField(n, 13);
  }

  lemma {:induction false} JumpDecodes(w: Word, n: int)
    requires -0x10_0000 <= n < 0x10_0000 && n % 2 == 0 && OpcodeBits(w) == 0x6F
    requires var imm := FromInt(n, 32);
      w[21..31] == imm[1..11] && w[20..21] == imm[11..12] && w[12..20] == imm[12..20] && w[31..32] == imm[20..21]
    ensures ImmGenerator(w) == n
  {
    var imm := FromInt(n, 32);
    JumpField(w);
    JoinSlices(imm, 1, 11, 12);
    JoinSlices(imm, 1, 12, 20);
    JoinSlices(imm, 1, 20, 21);
    EvenPrefix(n, 21);
    Pow2Small();
    SignedField(n, 21);
  }

  lemma {:induction false} EvenPrefix(n: int, k: nat)
    requires n % 2 == 0 && 1 <= k <= 32
    ensures [false] + FromInt(n, 32)[1..k] == FromInt(n, 32)[..k]
  {
  }

  lemma {:induction false} ImmediateOfB(u: ICUnit, e: Encoding)
    requires e.B? && Listed(e) && InRange(u, e)
    ensures ImmGenerator(Layout(u, e)) == u.imm
  {
    var imm := FromInt(u.imm, 32);
    BranchFields(F7(e.opcode), imm[11..12], imm[1..5], F3(e.funct3), Reg(u.rs1), Reg(u.rs2), imm[5..11], imm[12..13]);
    OpcodeField(e.opcode);
    BranchDecodes(Layout(u, e), u.imm);
  }

  lemma {:induction false} OpcodeField(opc: nat)
    requires opc < 128
    ensures ToNat(F7(opc)) == opc
  {
    Pow2Small();
    ToNatFromNat(opc, 7);
  }

  lemma {:induction false} BranchFields(
    opc: Bits, b11: Bits, b4: Bits, f3: Bits, r1: Bits, r2: Bits, b10: Bits, b12: Bits
  )
    requires |opc| == 7 && |b11| == 1 && |b4| == 4 && |f3| == 3 && |r1| == 5 && |r2| == 5 && |b10| == 6 && |b12| == 1
    ensures var w := opc + b11 + b4 + f3 + r1 + r2 + b10 + b12;
      && w[..7] == opc && w[7..8] == b11 && w[8..12] == b4 && w[12..15] == f3
      && w[15..20] == r1 && w[20..25] == r2 && w[25..31] == b10 && w[31..32] == b12
  {
  }

  lemma {:induction false} ImmediateOfJ(u: ICUnit, e: Encoding)
    requires e.J? && Listed(e) && InRange(u, e)
    ensures ImmGenerator(Layout(u, e)) == u.imm
  {
    var imm := FromInt(u.imm, 32);
    JumpFields(F7(e.opcode), Reg(u.rd), imm[12..20], imm[11..12], imm[1..11], imm[20..21]);
    OpcodeField(e.opcode);
    JumpDecodes(Layout(u, e), u.imm);
  }

  lemma {:induction false} JumpFields(opc: Bits, rd: Bits, b19: Bits, b11: Bits, b10: Bits, b20: Bits)
    requires |opc| == 7 && |rd| == 5 && |b19| == 8 && |b11| == 1 && |b10| == 10 && |b20| == 1
    ensures var w := opc + rd + b19 + b11 + b10 + b20;
      && w[..7] == opc && w[7..12] == rd && w[12..20] == b19 && w[20..21] == b11 && w[21..31] == b10 && w[31..32] == b20
  {
  }

  /** The common low 20 bits of the remaining formats. */
  lemma {:induction false} LowFields(opc: Bits, a: Bits, b: Bits, c: Bits, top: Bits)
    requires |opc| == 7 && |a| == 5 && |b| == 3 && |c| == 5 && |top| == 12
    ensures var w := opc + a + b + c + top;
      && w[..7] == opc && w[7..12] == a && w[12..15] == b && w[15..20] == c && w[20..] == top
  {
  }

  /** I1 and FDI words: opcode 0011011 has no case, every other one yields the immediate. */
  lemma {:induction false} ImmediateOfI(u: ICUnit, e: Encoding)
    requires (e.I1? || e.FdI?) && Listed(e) && InRange(u, e)
    ensures ImmGenerator(Layout(u, e)) == u.imm <==> e.opcode != 0x1B || u.imm == 0
  {
    var w := F7(e.opcode) + Reg(u.rd) + F3(e.funct3) + Reg(u.rs1) + FromInt(u.imm, 32)[..12];
    assert Layout(u, e) == w;
    LowFields(F7(e.opcode), Reg(u.rd), F3(e.funct3), Reg(u.rs1), FromInt(u.imm, 32)[..12]);
    OpcodeField(e.opcode);
    TopDecodes(w, u.imm);
  }

  lemma {:induction false} TopDecodes(w: Word, n: int)
    requires IsSigned12(n) && OpcodeBits(w) in {0x13, 0x03, 0x67, 0x1B, 0x07} && w[20..] == FromInt(n, 32)[..12]
    ensures ImmGenerator(w) == n <==> OpcodeBits(w) != 0x1B || n == 0
  {
    TopField(w);
    Pow2Small();
    SignedField(n, 12);
  }

  lemma {:induction false} TopField(w: Word)
    ensures Mask(Shr(w, 20), 0xFFF) == w[20..] + Zeros(20)
  {
    Pow2Small();
    Extract(w, 20, 12, 0xFFF);
    assert w[20..32] == w[20..];
  }

  lemma {:induction false} ImmediateOfS(u: ICUnit, e: Encoding)
    requires (e.S? || e.FdS?) && Listed(e) && InRange(u, e)
    ensures ImmGenerator(Layout(u, e)) == u.imm
  {
    var imm := FromInt(u.imm, 32);
    SixFields(F7(e.opcode), imm[..5], F3(e.funct3), Reg(u.rs1), Reg(u.rs2), imm[5..12]);
    OpcodeField(e.opcode);
    StoreDecodes(Layout(u, e), u.imm);
  }

  lemma {:induction false} SixFields(opc: Bits, lo: Bits, f3: Bits, r1: Bits, r2: Bits, hi: Bits)
    requires |opc| == 7 && |lo| == 5 && |f3| == 3 && |r1| == 5 && |r2| == 5 && |hi| == 7
    ensures var w := opc + lo + f3 + r1 + r2 + hi;
      && w[..7] == opc && w[7..12] == lo && w[12..15] == f3 && w[15..20] == r1 && w[20..25] == r2 && w[25..32] == hi
  {
  }

  lemma {:induction false} StoreDecodes(w: Word, n: int)
    requires IsSigned12(n) && OpcodeBits(w) in {0x23, 0x27}
    requires w[7..12] == FromInt(n, 32)[..5] && w[25..32] == FromInt(n, 32)[5..12]
    ensures ImmGenerator(w) == n
  {
    StoreField(w);
    JoinSlices(FromInt(n, 32), 0, 5, 12);
    Pow2Small();
    SignedField(n, 12);
  }

  lemma {:induction false} ImmediateOfU(u: ICUnit, e: Encoding)
    requires e.U? && Listed(e) && InRange(u, e)
    ensures ImmGenerator(Layout(u, e)) == u.imm
  {
    UpperFields(F7(e.opcode), Reg(u.rd), FromInt(u.imm, 32)[..20]);
    OpcodeField(e.opcode);
    UpperDecodes(Layout(u, e), u.imm);
  }

  lemma {:induction false} UpperFields(opc: Bits, rd: Bits, top: Bits)
    requires |opc| == 7 && |rd| == 5 && |top| == 20
    ensures var w := opc + rd + top; w[..7] == opc && w[7..12] == rd && w[12..] == top
  {
  }

  lemma {:induction false} UpperDecodes(w: Word, n: nat)
    requires n < 0x10_0000 && OpcodeBits(w) in {0x37, 0x17} && w[12..] == FromInt(n, 32)[..20]
    ensures ImmGenerator(w) == n
  {
    UpperField(w);
    Pow2Small();
    Pow2Words();
    FromIntFits(n, 20, 32);
    ToIntFromInt(n, 32);
  }

  /**
   Shift immediates: the low six bits are the shift amount although funct6 leaks in above them,
   except for the W forms, whose opcode has no case.
   */
  lemma {:induction false} ShiftAmountOfI2(u: ICUnit, e: Encoding)
    requires e.I2? && Listed(e) && InRange(u, e)
    ensures ImmGenerator(Layout(u, e)) % 64 == u.imm <==> e.opcode == 0x13 || u.imm == 0
  {
    var w := Layout(u, e);
    ShiftWord(u, e);
    if e.opcode == 0x13 {
      ShiftDecodes(w, u.imm, FromInt(e.funct6, 6));
    }
  }

  lemma {:induction false} ShiftWord(u: ICUnit, e: Encoding)
    requires e.I2? && Listed(e) && InRange(u, e)
    ensures OpcodeBits(Layout(u, e)) == e.opcode && Layout(u, e)[20..] == FromInt(u.imm, 6) + FromInt(e.funct6, 6)
  {
    ShiftFields(F7(e.opcode), Reg(u.rd), F3(e.funct3), Reg(u.rs1), FromInt(u.imm, 6), FromInt(e.funct6, 6));
    OpcodeField(e.opcode);
  }

  lemma {:induction false} ShiftDecodes(w: Word, n: nat, funct6: Bits)
    requires n < 64 && |funct6| == 6 && OpcodeBits(w) == 0x13 && w[20..] == FromInt(n, 6) + funct6
    ensures ImmGenerator(w) % 64 == n
  {
    var f := FromInt(n, 6) + funct6;
    TopField(w);
    SignExtendField(f);
    ToIntLow(f, 6);
    Pow2Small();
    ToNatFromNat(n, 6);
  }

  lemma {:induction false} ShiftFields(opc: Bits, rd: Bits, f3: Bits, r1: Bits, shamt: Bits, f6: Bits)
    requires |opc| == 7 && |rd| == 5 && |f3| == 3 && |r1| == 5 && |shamt| == 6 && |f6| == 6
    ensures var w := opc + rd + f3 + r1 + shamt + f6;
      && w[..7] == opc && w[7..12] == rd && w[12..15] == f3 && w[15..20] == r1 && w[20..] == shamt + f6
      && w[20..26] == shamt && w[26..] == f6
  {
  }

  /** The low bits of a signed field. */
  lemma {:induction false} ToIntLow(f: Bits, k: nat)
    requires k <= |f| && f != []
    ensures ToInt(f) % Pow2(k) == ToNat(f[..k])
  {
    FromIntToInt(f);
    FromIntPrefix(ToInt(f), |f|, k);
    ToNatFromInt(ToInt(f), k);
  }
}
