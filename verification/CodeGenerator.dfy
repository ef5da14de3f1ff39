/**
 The machine-code generators of src/assembler/code_generator.cpp, proved against the instruction
 formats of sections 2.2 and 2.3 of the RISC-V Unprivileged ISA, version 20191213.
 */
module CodeGenerator {
  import opened Bits
  import opened Wrappers
  import opened Instructions

  type Word = b: Bits | |b| == 32 witness Zeros(32)

  /**
   One unit of intermediate code. Registers are the indices that extractRegisterIndex reads off
   their names, the immediate is the value std::stoi reads; opcode is None for a mnemonic that no
   format lists.
   */
  datatype ICUnit = ICUnit(
    opcode: Option<Opcode>,
    rd: nat, rs1: nat, rs2: nat, rs3: nat,
    csr: nat,
    imm: int,
    rm: nat,
    target: string,
    line: nat
  )

  /** static_cast<uint32_t>(n) << shift */
  function Place(n: int, shift: nat): (w: Word)
    requires shift <= 32
  {
    Shl(FromInt(n, 32), shift)
  }

  function Mask(x: Word, mask: nat): Word {
    And(x, FromInt(mask, 32))
  }

  predicate IsRegister(n: nat) {
    n < 32
  }

  predicate IsSigned12(n: int) {
    -2048 <= n <= 2047
  }

  /** The operands that the format takes are within its ranges. */
  predicate InRange(u: ICUnit, e: Encoding) {
    match e
    case R(_, _, _) => IsRegister(u.rd) && IsRegister(u.rs1) && IsRegister(u.rs2)
    case I1(_, _) => IsRegister(u.rd) && IsRegister(u.rs1) && IsSigned12(u.imm)
    case I2(_, _, _) => IsRegister(u.rd) && IsRegister(u.rs1) && 0 <= u.imm < 64
    case I3(_, _, _) => true
    case S(_, _) => IsRegister(u.rs1) && IsRegister(u.rs2) && IsSigned12(u.imm)
    case B(_, _) => IsRegister(u.rs1) && IsRegister(u.rs2) && -4096 <= u.imm <= 4095 && u.imm % 2 == 0
    case U(_) => IsRegister(u.rd) && 0 <= u.imm < 0x10_0000
    case J(_) => IsRegister(u.rd) && -0x10_0000 <= u.imm < 0x10_0000 && u.imm % 2 == 0
    case CsrR(_, _) => IsRegister(u.rd) && IsRegister(u.rs1) && u.csr < 4096
    case CsrI(_, _) => IsRegister(u.rd) && u.csr < 4096 && 0 <= u.imm < 32
    case FdR(_, _, _) => IsRegister(u.rd) && IsRegister(u.rs1) && IsRegister(u.rs2)
    case FdR1(_, _) => IsRegister(u.rd) && IsRegister(u.rs1) && IsRegister(u.rs2) && u.rm < 8
    case FdR2(_, _, _) => IsRegister(u.rd) && IsRegister(u.rs1) && u.rm < 8
    case FdR3(_, _, _, _) => IsRegister(u.rd) && IsRegister(u.rs1)
    case FdR4(_, _) => IsRegister(u.rd) && IsRegister(u.rs1) && IsRegister(u.rs2) && IsRegister(u.rs3) && u.rm < 8
    case FdI(_, _) => IsRegister(u.rd) && IsRegister(u.rs1) && IsSigned12(u.imm)
    case FdS(_, _) => IsRegister(u.rs1) && IsRegister(u.rs2) && IsSigned12(u.imm)
  }

  function Reg(n: nat): (b: Bits) ensures |b| == 5 { FromInt(n, 5) }

  function F3(n: nat): (b: Bits) ensures |b| == 3 { FromInt(n, 3) }

  function F7(n: nat): (b: Bits) ensures |b| == 7 { FromInt(n, 7) }

  /** The word of an instruction as its format lays it out, lowest field first. */
  function Layout(u: ICUnit, e: Encoding): Word {
    var imm := FromInt(u.imm, 32);
    match e
    case R(opc, f3, f7) => F7(opc) + Reg(u.rd) + F3(f3) + Reg(u.rs1) + Reg(u.rs2) + F7(f7)
    case I1(opc, f3) => F7(opc) + Reg(u.rd) + F3(f3) + Reg(u.rs1) + imm[..12]
    case I2(opc, f3, f6) => F7(opc) + Reg(u.rd) + F3(f3) + Reg(u.rs1) + FromInt(u.imm, 6) + FromInt(f6, 6)
    case I3(opc, f3, _) => F7(opc) + Reg(0) + F3(f3) + Reg(0) + Zeros(12)
    case S(opc, f3) => F7(opc) + imm[..5] + F3(f3) + Reg(u.rs1) + Reg(u.rs2) + imm[5..12]
    case B(opc, f3) =>
      F7(opc) + imm[11..12] + imm[1..5] + F3(f3) + Reg(u.rs1) + Reg(u.rs2) + imm[5..11] + imm[12..13]
    case U(opc) => F7(opc) + Reg(u.rd) + imm[..20]
    case J(opc) => F7(opc) + Reg(u.rd) + imm[12..20] + imm[11..12] + imm[1..11] + imm[20..21]
    case CsrR(opc, f3) => F7(opc) + Reg(u.rd) + F3(f3) + Reg(u.rs1) + FromInt(u.csr, 12)
    case CsrI(opc, f3) => F7(opc) + Reg(u.rd) + F3(f3) + imm[..5] + FromInt(u.csr, 12)
    case FdR(opc, f3, f7) => F7(opc) + Reg(u.rd) + F3(f3) + Reg(u.rs1) + Reg(u.rs2) + F7(f7)
    case FdR1(opc, f7) => F7(opc) + Reg(u.rd) + F3(u.rm) + Reg(u.rs1) + Reg(u.rs2) + F7(f7)
    case FdR2(opc, f5, f7) => F7(opc) + Reg(u.rd) + F3(u.rm) + Reg(u.rs1) + Reg(f5) + F7(f7)
    case FdR3(opc, f3, f5, f7) => F7(opc) + Reg(u.rd) + F3(f3) + Reg(u.rs1) + Reg(f5) + F7(f7)
    case FdR4(opc, f2) =>
      F7(opc) + Reg(u.rd) + F3(u.rm) + Reg(u.rs1) + Reg(u.rs2) + FromInt(f2, 2) + Reg(u.rs3)
    case FdI(opc, f3) => F7(opc) + Reg(u.rd) + F3(f3) + Reg(u.rs1) + imm[..12]
    case FdS(opc, f3) => F7(opc) + imm[..5] + F3(f3) + Reg(u.rs1) + Reg(u.rs2) + imm[5..12]
  }

  // Or-ing fields from the top of the word down

  /** A word with one field set. */
  function Placed(field: Bits, shift: nat): (w: Word)
    requires shift + |field| <= 32
  {
    Zeros(shift) + field + Zeros(32 - shift - |field|)
  }

  /** A field or-ed in below the ones already placed extends them downwards. */
  lemma {:induction false} OrBelow(high: Bits, field: Bits, shift: nat)
    requires shift + |field| + |high| == 32
    ensures Or(Zeros(shift + |field|) + high, Placed(field, shift)) == Zeros(shift) + (field + high)
  {
  }

  lemma {:induction false} OrFirst(field: Bits, shift: nat)
    requires shift + |field| == 32
    ensures Or(Zeros(32), Placed(field, shift)) == Zeros(shift) + field
  {
  }

  /** An in-range number shifted into place sets its field and nothing else. */
  lemma {:induction false} PlaceNat(n: nat, w: nat, shift: nat)
    requires shift + w <= 32 && n < Pow2(w)
    ensures Place(n, shift) == Placed(FromInt(n, w), shift)
  {
    FromIntFits(n, w, 32);
  }

  /** At the top of the word, the bits that do not fit are shifted out. */
  lemma {:induction false} PlaceTop(n: int, w: nat)
    requires w <= 32
    ensures Place(n, 32 - w) == Placed(FromInt(n, 32)[..w], 32 - w)
  {
  }

  /** (n >> lo) & (2^w - 1) is the field of n at lo. */
  lemma {:induction false} FieldOf(n: int, lo: nat, w: nat)
    requires lo + w <= 32
    ensures 0 <= n / Pow2(lo) % Pow2(w) < Pow2(w)
    ensures FromInt(n / Pow2(lo) % Pow2(w), w) == FromInt(n, 32)[lo..lo + w]
  {
    FromIntMod(n / Pow2(lo), w);
    FromIntHigh(n, lo, w);
    FromIntPrefix(n, 32, lo + w);
  }

  lemma {:induction false} LowTwenty(top: Bits, c: Bits, b: Bits, a: Bits, opc: Bits)
    requires |top| == 12 && |c| == 5 && |b| == 3 && |a| == 5 && |opc| == 7
    ensures Or(Or(Or(Or(Zeros(20) + top, Placed(c, 15)), Placed(b, 12)), Placed(a, 7)), Placed(opc, 0))
         == opc + a + b + c + top
  {
  }

  lemma {:induction false} Pow2Small()
    ensures Pow2(1) == 2 && Pow2(2) == 4 && Pow2(3) == 8 && Pow2(4) == 16 && Pow2(5) == 32
    ensures Pow2(6) == 64 && Pow2(7) == 128 && Pow2(12) == 4096 && Pow2(20) == 0x10_0000 && Pow2(11) == 2048
  {
  }

  // The generators

  /** The six fields that the R, FDR, FDR1, FDR2 and FDR3 generators or together. */
  method RShape(funct7: nat, rs2: nat, rs1: nat, funct3: nat, rd: nat, opcode: nat) returns (machineCode: Word)
    ensures funct7 < 128 && rs2 < 32 && rs1 < 32 && funct3 < 8 && rd < 32 && opcode < 128 ==>
      machineCode == F7(opcode) + Reg(rd) + F3(funct3) + Reg(rs1) + Reg(rs2) + F7(funct7)
  {
    machineCode := Zeros(32);
    machineCode := Or(machineCode, Place(funct7, 25));
    machineCode := Or(machineCode, Place(rs2, 20));
    machineCode := Or(machineCode, Place(rs1, 15));
    machineCode := Or(machineCode, Place(funct3, 12));
    machineCode := Or(machineCode, Place(rd, 7));
    machineCode := Or(machineCode, Place(opcode, 0));
    if funct7 < 128 && rs2 < 32 && rs1 < 32 && funct3 < 8 && rd < 32 && opcode < 128 {
      Pow2Small();
      PlaceNat(funct7, 7, 25);
      PlaceNat(rs2, 5, 20);
      PlaceNat(rs1, 5, 15);
      PlaceNat(funct3, 3, 12);
      PlaceNat(rd, 5, 7);
      PlaceNat(opcode, 7, 0);
      OrFirst(F7(funct7), 25);
      OrBelow(F7(funct7), Reg(rs2), 20);
      LowTwenty(Reg(rs2) + F7(funct7), Reg(rs1), F3(funct3), Reg(rd), F7(opcode));
    }
  }

  /** The I1, I3, CSRR, CSRI and FDI generators: a 12-bit number shifted to the top, and the fields below it. */
  method IShape(imm: int, rs1: nat, funct3: nat, rd: nat, opcode: nat) returns (machineCode: Word)
    ensures rs1 < 32 && funct3 < 8 && rd < 32 && opcode < 128 ==>
      machineCode == F7(opcode) + Reg(rd) + F3(funct3) + Reg(rs1) + FromInt(imm, 32)[..12]
  {
    machineCode := Zeros(32);
    machineCode := Or(machineCode, Place(imm, 20));
    machineCode := Or(machineCode, Place(rs1, 15));
    machineCode := Or(machineCode, Place(funct3, 12));
    machineCode := Or(machineCode, Place(rd, 7));
    machineCode := Or(machineCode, Place(opcode, 0));
    if rs1 < 32 && funct3 < 8 && rd < 32 && opcode < 128 {
      Pow2Small();
      PlaceTop(imm, 12);
      PlaceNat(rs1, 5, 15);
      PlaceNat(funct3, 3, 12);
      PlaceNat(rd, 5, 7);
      PlaceNat(opcode, 7, 0);
      OrFirst(FromInt(imm, 32)[..12], 20);
      LowTwenty(FromInt(imm, 32)[..12], Reg(rs1), F3(funct3), Reg(rd), F7(opcode));
    }
  }

  /** The split immediate of the S and FDS generators. */
  method SShape(imm: int, rs2: nat, rs1: nat, funct3: nat, opcode: nat) returns (machineCode: Word)
    ensures rs2 < 32 && rs1 < 32 && funct3 < 8 && opcode < 128 ==>
      machineCode == F7(opcode) + FromInt(imm, 32)[..5] + F3(funct3) + Reg(rs1) + Reg(rs2) + FromInt(imm, 32)[5..12]
  {
    Pow2Small();
    FieldOf(imm, 0, 5);
    FieldOf(imm, 5, 7);
    var immLo := imm % 32;
    var immHi := imm / 32 % 128;
    machineCode := RShape(immHi, rs2, rs1, funct3, immLo, opcode);
  }

  method GenerateI2(block: ICUnit, funct3: nat, funct6: nat, opcode: nat) returns (machineCode: Word)
    ensures block.rs1 < 32 && block.rd < 32 && 0 <= block.imm < 64 && funct3 < 8 && funct6 < 64 && opcode < 128 ==>
      machineCode == F7(opcode) + Reg(block.rd) + F3(funct3) + Reg(block.rs1) + FromInt(block.imm, 6)
                     + FromInt(funct6, 6)
  {
    machineCode := Zeros(32);
    machineCode := Or(machineCode, Place(funct6, 26));
    machineCode := Or(machineCode, Place(block.imm, 20));
    machineCode := Or(machineCode, Place(block.rs1, 15));
    machineCode := Or(machineCode, Place(funct3, 12));
    machineCode := Or(machineCode, Place(block.rd, 7));
    machineCode := Or(machineCode, Place(opcode, 0));
    if block.rs1 < 32 && block.rd < 32 && 0 <= block.imm < 64 && funct3 < 8 && funct6 < 64 && opcode < 128 {
      Pow2Small();
      PlaceNat(funct6, 6, 26);
      PlaceNat(block.imm, 6, 20);
      PlaceNat(block.rs1, 5, 15);
      PlaceNat(funct3, 3, 12);
      PlaceNat(block.rd, 5, 7);
      PlaceNat(opcode, 7, 0);
      OrFirst(FromInt(funct6, 6), 26);
      OrBelow(FromInt(funct6, 6), FromInt(block.imm, 6), 20);
      LowTwenty(FromInt(block.imm, 6) + FromInt(funct6, 6), Reg(block.rs1), F3(funct3), Reg(block.rd), F7(opcode));
    }
  }

  method GenerateB(block: ICUnit, funct3: nat, opcode: nat) returns (machineCode: Word)
    ensures block.rs1 < 32 && block.rs2 < 32 && funct3 < 8 && opcode < 128 ==>
      var imm := FromInt(block.imm, 32);
      machineCode == F7(opcode) + imm[11..12] + imm[1..5] + F3(funct3) + Reg(block.rs1) + Reg(block.rs2)
                     + imm[5..11] + imm[12..13]
  {
    Pow2Small();
    FieldOf(block.imm, 12, 1);
    FieldOf(block.imm, 5, 6);
    FieldOf(block.imm, 1, 4);
    FieldOf(block.imm, 11, 1);
    var imm12 := block.imm / 4096 % 2;
    var imm10_5 := block.imm / 32 % 64;
    var imm4_1 := block.imm / 2 % 16;
    var imm11 := block.imm / 2048 % 2;
    machineCode := Zeros(32);
    machineCode := Or(machineCode, Place(imm12, 31));
    machineCode := Or(machineCode, Place(imm10_5, 25));
    machineCode := Or(machineCode, Place(block.rs2, 20));
    machineCode := Or(machineCode, Place(block.rs1, 15));
    machineCode := Or(machineCode, Place(funct3, 12));
    machineCode := Or(machineCode, Place(imm4_1, 8));
    machineCode := Or(machineCode, Place(imm11, 7));
    machineCode := Or(machineCode, Place(opcode, 0));
    if block.rs1 < 32 && block.rs2 < 32 && funct3 < 8 && opcode < 128 {
      BranchWord(FromInt(imm12, 1), FromInt(imm10_5, 6), FromInt(imm4_1, 4), FromInt(imm11, 1),
                 block.rs2, block.rs1, funct3, opcode, imm12, imm10_5, imm4_1, imm11);
    }
  }

  lemma {:induction false} BranchWord(
    b12: Bits, b10: Bits, b4: Bits, b11: Bits, rs2: nat, rs1: nat, funct3: nat, opcode: nat,
    imm12: nat, imm10_5: nat, imm4_1: nat, imm11: nat
  )
    requires imm12 < 2 && imm10_5 < 64 && imm4_1 < 16 && imm11 < 2
    requires rs1 < 32 && rs2 < 32 && funct3 < 8 && opcode < 128
    requires b12 == FromInt(imm12, 1) && b10 == FromInt(imm10_5, 6)
    requires b4 == FromInt(imm4_1, 4) && b11 == FromInt(imm11, 1)
    ensures Or(Or(Or(Or(Or(Or(Or(Or(Zeros(32), Place(imm12, 31)), Place(imm10_5, 25)), Place(rs2, 20)), Place(rs1, 15)),
                  Place(funct3, 12)), Place(imm4_1, 8)), Place(imm11, 7)), Place(opcode, 0))
         == F7(opcode) + b11 + b4 + F3(funct3) + Reg(rs1) + Reg(rs2) + b10 + b12
  {
    var top := Reg(rs2) + (b10 + b12);
    Pow2Small();
    PlaceNat(rs1, 5, 15);
    PlaceNat(funct3, 3, 12);
    PlaceNat(imm4_1, 4, 8);
    PlaceNat(imm11, 1, 7);
    PlaceNat(opcode, 7, 0);
    BranchTop(b12, b10, rs2, imm12, imm10_5);
    BranchRest(top, Reg(rs1), F3(funct3), b4, b11, F7(opcode));
  }

  lemma {:induction false} BranchTop(b12: Bits, b10: Bits, rs2: nat, imm12: nat, imm10_5: nat)
    requires imm12 < 2 && imm10_5 < 64 && rs2 < 32 && b12 == FromInt(imm12, 1) && b10 == FromInt(imm10_5, 6)
    ensures Or(Or(Or(Zeros(32), Place(imm12, 31)), Place(imm10_5, 25)), Place(rs2, 20))
         == Zeros(20) + (Reg(rs2) + (b10 + b12))
  {
    Pow2Small();
    PlaceNat(imm12, 1, 31);
    PlaceNat(imm10_5, 6, 25);
    PlaceNat(rs2, 5, 20);
    OrFirst(b12, 31);
    OrBelow(b12, b10, 25);
    OrBelow(b10 + b12, Reg(rs2), 20);
  }

  lemma {:induction false} BranchRest(top: Bits, r1: Bits, f3: Bits, b4: Bits, b11: Bits, opc: Bits)
    requires |top| == 12 && |r1| == 5 && |f3| == 3 && |b4| == 4 && |b11| == 1 && |opc| == 7
    ensures Or(Or(Or(Or(Or(Zeros(20) + top, Placed(r1, 15)), Placed(f3, 12)), Placed(b4, 8)), Placed(b11, 7)),
               Placed(opc, 0))
         == opc + b11 + b4 + f3 + r1 + top
  {
    OrBelow(top, r1, 15);
    OrBelow(r1 + top, f3, 12);
    OrBelow(f3 + (r1 + top), b4, 8);
    OrBelow(b4 + (f3 + (r1 + top)), b11, 7);
    OrBelow(b11 + (b4 + (f3 + (r1 + top))), opc, 0);
  }

  method GenerateU(block: ICUnit, opcode: nat) returns (machineCode: Word)
    ensures block.rd < 32 && opcode < 128 ==>
      machineCode == F7(opcode) + Reg(block.rd) + FromInt(block.imm, 32)[..20]
  {
    Pow2Small();
    FieldOf(block.imm, 0, 20);
    var imm := block.imm % 0x10_0000;
    machineCode := Zeros(32);
    machineCode := Or(machineCode, Place(imm, 12));
    machineCode := Or(machineCode, Place(block.rd, 7));
    machineCode := Or(machineCode, Place(opcode, 0));
    if block.rd < 32 && opcode < 128 {
      PlaceNat(imm, 20, 12);
      PlaceNat(block.rd, 5, 7);
      PlaceNat(opcode, 7, 0);
      var top := FromInt(imm, 20);
      OrFirst(top, 12);
      OrBelow(top, Reg(block.rd), 7);
      OrBelow(Reg(block.rd) + top, F7(opcode), 0);
    }
  }

  /** A mask of w ones at lo keeps that field; shifting moves it. */
  lemma {:induction false} MaskField(x: Word, mask: nat, lo: nat, w: nat, shift: nat)
    requires lo + shift + w <= 32 && mask == (Pow2(w) - 1) * Pow2(lo)
    ensures Shl(Mask(x, mask), shift) == Placed(x[lo..lo + w], lo + shift)
  {
    forall i: nat | i < 32
      ensures FromInt(mask, 32)[i] <==> lo <= i < lo + w
    {
      MaskBit(w, lo, i);
    }
  }

  lemma {:induction false} MaskBit(w: nat, lo: nat, i: nat)
    ensures (Pow2(w) - 1) * Pow2(lo) / Pow2(i) % 2 == 1 <==> lo <= i < lo + w
  {
    if i < lo {
      ShiftedBelow(Pow2(w) - 1, lo, i);
    } else {
      ShiftedMask(w, lo, i);
    }
  }

  lemma {:induction false} ShiftedMask(w: nat, lo: nat, i: nat)
    requires lo <= i
    ensures (Pow2(w) - 1) * Pow2(lo) / Pow2(i) % 2 == 1 <==> i < lo + w
  {
    var m := Pow2(w) - 1;
    LowMaskBit(w, i - lo);
    assert m * Pow2(lo) / Pow2(i) == m / Pow2(i - lo) by {
      ShiftedAbove(m, lo, i);
    }
  }

  lemma {:induction false} ShiftedBelow(m: nat, lo: nat, i: nat)
    requires i < lo
    ensures m * Pow2(lo) / Pow2(i) % 2 == 0
  {
    Pow2Add(i, lo - i);
    EvenQuotient(m, Pow2(i), Pow2(lo - i - 1), m * Pow2(lo));
  }

  lemma {:induction false} EvenQuotient(m: nat, p: nat, q: nat, v: nat)
    requires p > 0 && v == m * (p * (2 * q))
    ensures v / p % 2 == 0
  {
    var h := m * q;
    Regroup(m, p, q);
    DivModUnique(v, p, 2 * h, 0);
  }

  lemma {:induction false} Regroup(m: int, p: int, q: int)
    ensures m * (p * (2 * q)) == p * (2 * (m * q))
  {
  }

  lemma {:induction false} ShiftedAbove(m: nat, lo: nat, i: nat)
    requires lo <= i
    ensures m * Pow2(lo) / Pow2(i) == m / Pow2(i - lo)
  {
    Pow2Add(lo, i - lo);
    CancelFactor(m, Pow2(lo), Pow2(i - lo), m * Pow2(lo));
  }

  lemma {:induction false} CancelFactor(m: nat, p: nat, q: nat, v: nat)
    requires p > 0 && q > 0 && v == m * p
    ensures p * q > 0 && v / (p * q) == m / q
  {
    DivModUnique(v, p, m, 0);
    DivDiv(v, p, q);
  }

  method GenerateJ(block: ICUnit, opcode: nat) returns (machineCode: Word)
    ensures block.rd < 32 && opcode < 128 ==>
      var imm := FromInt(block.imm, 32);
      machineCode == F7(opcode) + Reg(block.rd) + imm[12..20] + imm[11..12] + imm[1..11] + imm[20..21]
  {
    var imm := FromInt(block.imm, 32);
    machineCode := Zeros(32);
    machineCode := Or(machineCode, Shl(Mask(imm, 0x100000), 11));
    machineCode := Or(machineCode, Shl(Mask(imm, 0x7FE), 20));
    machineCode := Or(machineCode, Shl(Mask(imm, 0x800), 9));
    machineCode := Or(machineCode, Shl(Mask(imm, 0xFF000), 0));
    machineCode := Or(machineCode, Place(block.rd, 7));
    machineCode := Or(machineCode, Place(opcode, 0));
    if block.rd < 32 && opcode < 128 {
      JumpWord(imm, block.rd, opcode);
    }
  }

  lemma {:induction false} JumpWord(imm: Word, rd: nat, opcode: nat)
    requires rd < 32 && opcode < 128
    ensures Or(Or(Or(Or(Or(Or(Zeros(32), Shl(Mask(imm, 0x100000), 11)), Shl(Mask(imm, 0x7FE), 20)),
                  Shl(Mask(imm, 0x800), 9)), Shl(Mask(imm, 0xFF000), 0)), Place(rd, 7)), Place(opcode, 0))
         == F7(opcode) + Reg(rd) + imm[12..20] + imm[11..12] + imm[1..11] + imm[20..21]
  {
    Pow2Small();
    assert Pow2(10) == 2 * (2 * (2 * Pow2(7)));
    assert Pow2(8) == 2 * Pow2(7);
    MaskField(imm, 0x100000, 20, 1, 11);
    MaskField(imm, 0x7FE, 1, 10, 20);
    MaskField(imm, 0x800, 11, 1, 9);
    MaskField(imm, 0xFF000, 12, 8, 0);
    PlaceNat(rd, 5, 7);
    PlaceNat(opcode, 7, 0);
    var i20, i10, i11, i19, r := imm[20..21], imm[1..11], imm[11..12], imm[12..20], Reg(rd);
    OrFirst(i20, 31);
    OrBelow(i20, i10, 21);
    OrBelow(i10 + i20, i11, 20);
    OrBelow(i11 + (i10 + i20), i19, 12);
    OrBelow(i19 + (i11 + (i10 + i20)), r, 7);
    OrBelow(r + (i19 + (i11 + (i10 + i20))), F7(opcode), 0);
  }

  predicate FusedInRange(block: ICUnit, funct2: nat, opcode: nat) {
    && block.rs3 < 32 && block.rs2 < 32 && block.rs1 < 32 && block.rm < 8 && block.rd < 32
    && funct2 < 4 && opcode < 128
  }

  method GenerateR4(block: ICUnit, funct2: nat, opcode: nat) returns (machineCode: Word)
    ensures FusedInRange(block, funct2, opcode)
            ==> machineCode == F7(opcode) + Reg(block.rd) + F3(block.rm) + Reg(block.rs1) + Reg(block.rs2)
                               + FromInt(funct2, 2) + Reg(block.rs3)
  {
    var rm := block.rm % 8;
    machineCode := Zeros(32);
    machineCode := Or(machineCode, Place(block.rs3, 27));
    machineCode := Or(machineCode, Place(funct2, 25));
    machineCode := Or(machineCode, Place(block.rs2, 20));
    machineCode := Or(machineCode, Place(block.rs1, 15));
    machineCode := Or(machineCode, Place(rm, 12));
    machineCode := Or(machineCode, Place(block.rd, 7));
    machineCode := Or(machineCode, Place(opcode, 0));
    if FusedInRange(block, funct2, opcode) {
      assert rm == block.rm;
      FusedWord(block.rs3, funct2, block.rs2, block.rs1, rm, block.rd, opcode);
    }
  }

  lemma {:induction false} FusedWord(rs3: nat, funct2: nat, rs2: nat, rs1: nat, rm: nat, rd: nat, opcode: nat)
    requires rs3 < 32 && funct2 < 4 && rs2 < 32 && rs1 < 32 && rm < 8 && rd < 32 && opcode < 128
    ensures Or(Or(Or(Or(Or(Or(Or(Zeros(32), Place(rs3, 27)), Place(funct2, 25)), Place(rs2, 20)), Place(rs1, 15)),
                  Place(rm, 12)), Place(rd, 7)), Place(opcode, 0))
         == F7(opcode) + Reg(rd) + F3(rm) + Reg(rs1) + Reg(rs2) + FromInt(funct2, 2) + Reg(rs3)
  {
    Pow2Small();
    PlaceNat(rs3, 5, 27);
    PlaceNat(funct2, 2, 25);
    PlaceNat(rs2, 5, 20);
    PlaceNat(rs1, 5, 15);
    PlaceNat(rm, 3, 12);
    PlaceNat(rd, 5, 7);
    PlaceNat(opcode, 7, 0);
    var r3, f2, r2 := Reg(rs3), FromInt(funct2, 2), Reg(rs2);
    OrFirst(r3, 27);
    OrBelow(r3, f2, 25);
    OrBelow(f2 + r3, r2, 20);
    LowTwenty(r2 + (f2 + r3), Reg(rs1), F3(rm), Reg(rd), F7(opcode));
  }

  predicate IsFloat(e: Encoding) {
    e.FdR? || e.FdR1? || e.FdR2? || e.FdR3? || e.FdR4? || e.FdI? || e.FdS?
  }

  /** Dispatches on the format, as generateMachineCode does; in-range operands give the specified layout. */
  method Generate(block: ICUnit, e: Encoding) returns (machineCode: Word)
    requires Listed(e)
    ensures InRange(block, e) ==> machineCode == Layout(block, e)
  {
    if IsFloat(e) {
      machineCode := GenerateFloat(block, e);
    } else {
      machineCode := GenerateInteger(block, e);
    }
  }

  method GenerateInteger(block: ICUnit, e: Encoding) returns (machineCode: Word)
    requires Listed(e) && !IsFloat(e)
    ensures InRange(block, e) ==> machineCode == Layout(block, e)
  {
    match e
    case R(opc, f3, f7) => machineCode := RShape(f7, block.rs2, block.rs1, f3, block.rd, opc);
    case I1(opc, f3) => machineCode := IShape(block.imm, block.rs1, f3, block.rd, opc);
    case I2(opc, f3, f6) => machineCode := GenerateI2(block, f3, f6, opc);
    case I3(opc, f3, _) =>
      FromIntFits(0, 0, 32);
      machineCode := IShape(0, 0, f3, 0, opc);
    case S(opc, f3) => machineCode := SShape(block.imm, block.rs2, block.rs1, f3, opc);
    case B(opc, f3) => machineCode := GenerateB(block, f3, opc);
    case U(opc) => machineCode := GenerateU(block, opc);
    case J(opc) => machineCode := GenerateJ(block, opc);
    case CsrR(opc, f3) =>
      Truncations(block);
      machineCode := IShape(block.csr % 4096, block.rs1, f3, block.rd, opc);
    case CsrI(opc, f3) =>
      Truncations(block);
      machineCode := IShape(block.csr % 4096, block.imm % 32, f3, block.rd, opc);
  }

  method GenerateFloat(block: ICUnit, e: Encoding) returns (machineCode: Word)
    requires Listed(e) && IsFloat(e)
    ensures InRange(block, e) ==> machineCode == Layout(block, e)
  {
    match e
    case FdR(opc, f3, f7) => machineCode := RShape(f7, block.rs2, block.rs1, f3, block.rd, opc);
    case FdR1(opc, f7) => machineCode := RShape(f7, block.rs2, block.rs1, block.rm % 8, block.rd, opc);
    case FdR2(opc, f5, f7) => machineCode := RShape(f7, f5, block.rs1, block.rm % 8, block.rd, opc);
    case FdR3(opc, f3, f5, f7) => machineCode := RShape(f7, f5, block.rs1, f3, block.rd, opc);
    case FdR4(opc, f2) => machineCode := GenerateR4(block, f2, opc);
    case FdI(opc, f3) => machineCode := IShape(block.imm, block.rs1, f3, block.rd, opc);
    case FdS(opc, f3) => machineCode := SShape(block.imm, block.rs2, block.rs1, f3, opc);
  }

  lemma {:induction false} Truncations(block: ICUnit)
    ensures Reg(block.imm % 32) == FromInt(block.imm, 32)[..5]
    ensures FromInt(block.csr % 4096, 32)[..12] == FromInt(block.csr, 12)
    ensures block.csr % 4096 >= 0 && 0 <= block.imm % 32 < 32
  {
    Pow2Small();
    FieldOf(block.imm, 0, 5);
    FromIntPrefix(block.csr % 4096, 32, 12);
    FromIntMod(block.csr, 12);
  }

  /** w is the word the format of u prescribes. */
  predicate Emits(u: ICUnit, w: Word) {
    u.opcode.Some? && var e := EncodingOf(u.opcode.value); InRange(u, e) ==> w == Layout(u, e)
  }

  /** Every emitted unit in order, or the runtime error for a mnemonic without a format. */
  method GenerateMachineCode(intermediateCode: seq<(ICUnit, bool)>) returns (r: Result<seq<Word>, string>)
    ensures r.Success? <==> forall i :: 0 <= i < |intermediateCode| ==> intermediateCode[i].0.opcode.Some?
    ensures r.Success? ==> |r.value| == |intermediateCode|
    ensures r.Success? ==> forall i :: 0 <= i < |intermediateCode| ==> Emits(intermediateCode[i].0, r.value[i])
  {
    var machineCode: seq<Word> := [];
    for n := 0 to |intermediateCode|
      invariant |machineCode| == n
      invariant forall i :: 0 <= i < n ==> Emits(intermediateCode[i].0, machineCode[i])
    {
      var block := intermediateCode[n].0;
      if block.opcode.None? {
        return Failure("Invalid instruction type");
      }
      TablesListed(block.opcode.value);
      var code := Generate(block, EncodingOf(block.opcode.value));
      machineCode := machineCode + [code];
    }
    return Success(machineCode);
  }
}
