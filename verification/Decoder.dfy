/**
 A decoder for the assembler's own output: a left inverse of the generators, so that no two
 different instructions share a word; and the immediate that the virtual machine reads back.
 */
module Decoder {
  import opened Bits
  import opened Wrappers
  import opened Instructions
  import opened CodeGenerator
  import opened Immediates
  import Metadata
  import AluTheorems
  import Alu

  function Field(w: Word, lo: nat, k: nat): nat
    requires lo + k <= 32
  {
    ToNat(w[lo..lo + k])
  }

  /** The only format and fixed fields that the opcode, funct3 and funct7 of a word leave open. */
  function EncodingIn(w: Word): Option<Encoding> {
    var opc, f3, f7 := Field(w, 0, 7), Field(w, 12, 3), Field(w, 25, 7);
    if opc in {51, 59} then Some(R(opc, f3, f7))
    else if opc in {19, 27} && f3 in {1, 5} then Some(I2(opc, f3, Field(w, 26, 6)))
    else if opc in {3, 19, 27, 103} then Some(I1(opc, f3))
    else if opc == 35 then Some(S(opc, f3))
    else if opc == 99 then Some(B(opc, f3))
    else if opc in {55, 23} then Some(U(opc))
    else if opc == 111 then Some(J(opc))
    else if opc == 115 then
      if f3 == 0 then Some(I3(opc, f3, 0)) else if f3 < 4 then Some(CsrR(opc, f3)) else Some(CsrI(opc, f3))
    else if opc == 83 then
      if FdRFunct7(f7) then Some(FdR(opc, f3, f7))
      else if FdR2Funct7(f7) then Some(FdR2(opc, Field(w, 20, 5), f7))
      else if FdR3Funct7(f7) then Some(FdR3(opc, f3, Field(w, 20, 5), f7))
      else Some(FdR1(opc, f7))
    else if opc in {67, 71, 75, 79} then Some(FdR4(opc, Field(w, 25, 2)))
    else if opc == 7 then Some(FdI(opc, f3))
    else if opc == 39 then Some(FdS(opc, f3))
    else None
  }

  function Blank(op: Opcode): ICUnit {
    ICUnit(Some(op), 0, 0, 0, 0, 0, 0, 0, "", 0)
  }

  /** The operands of a word of the given format; what the format does not use stays blank. */
  function OperandsIn(w: Word, op: Opcode, e: Encoding): ICUnit {
    var u := Blank(op);
    var rd, rs1, rs2, rm := Field(w, 7, 5), Field(w, 15, 5), Field(w, 20, 5), Field(w, 12, 3);
    match e
    case R(_, _, _) => u.(rd := rd, rs1 := rs1, rs2 := rs2)
    case I1(_, _) => u.(rd := rd, rs1 := rs1, imm := ToInt(w[20..]))
    case I2(_, _, _) => u.(rd := rd, rs1 := rs1, imm := Field(w, 20, 6))
    case I3(_, _, _) => u
    case S(_, _) => u.(rs1 := rs1, rs2 := rs2, imm := ToInt(w[7..12] + w[25..32]))
    case B(_, _) => u.(rs1 := rs1, rs2 := rs2, imm := ToInt([false] + (w[8..12] + w[25..31] + w[7..8] + w[31..32])))
    case U(_) => u.(rd := rd, imm := ToNat(w[12..]))
    case J(_) => u.(rd := rd, imm := ToInt([false] + (w[21..31] + w[20..21] + w[12..20] + w[31..32])))
    case CsrR(_, _) => u.(rd := rd, rs1 := rs1, csr := ToNat(w[20..]))
    case CsrI(_, _) => u.(rd := rd, imm := rs1, csr := ToNat(w[20..]))
    case FdR(_, _, _) => u.(rd := rd, rs1 := rs1, rs2 := rs2)
    case FdR1(_, _) => u.(rd := rd, rs1 := rs1, rs2 := rs2, rm := rm)
    case FdR2(_, _, _) => u.(rd := rd, rs1 := rs1, rm := rm)
    case FdR3(_, _, _, _) => u.(rd := rd, rs1 := rs1)
    case FdR4(_, _) => u.(rd := rd, rs1 := rs1, rs2 := rs2, rs3 := Field(w, 27, 5), rm := rm)
    case FdI(_, _) => u.(rd := rd, rs1 := rs1, imm := ToInt(w[20..]))
    case FdS(_, _) => u.(rs1 := rs1, rs2 := rs2, imm := ToInt(w[7..12] + w[25..32]))
  }

  function Decode(w: Word): Option<ICUnit> {
    var e := EncodingIn(w);
    if e.None? then None
    else
      var op := OpcodeOf(e.value);
      if op.None? then None else Some(OperandsIn(w, op.value, e.value))
  }

  /** u reduced to its mnemonic and the operands its format uses. */
  function Canonical(u: ICUnit, op: Opcode, e: Encoding): ICUnit {
    var c := Blank(op);
    match e
    case R(_, _, _) => c.(rd := u.rd, rs1 := u.rs1, rs2 := u.rs2)
    case I1(_, _) => c.(rd := u.rd, rs1 := u.rs1, imm := u.imm)
    case I2(_, _, _) => c.(rd := u.rd, rs1 := u.rs1, imm := u.imm)
    case I3(_, _, _) => c
    case S(_, _) => c.(rs1 := u.rs1, rs2 := u.rs2, imm := u.imm)
    case B(_, _) => c.(rs1 := u.rs1, rs2 := u.rs2, imm := u.imm)
    case U(_) => c.(rd := u.rd, imm := u.imm)
    case J(_) => c.(rd := u.rd, imm := u.imm)
    case CsrR(_, _) => c.(rd := u.rd, rs1 := u.rs1, csr := u.csr)
    case CsrI(_, _) => c.(rd := u.rd, imm := u.imm, csr := u.csr)
    case FdR(_, _, _) => c.(rd := u.rd, rs1 := u.rs1, rs2 := u.rs2)
    case FdR1(_, _) => c.(rd := u.rd, rs1 := u.rs1, rs2 := u.rs2, rm := u.rm)
    case FdR2(_, _, _) => c.(rd := u.rd, rs1 := u.rs1, rm := u.rm)
    case FdR3(_, _, _, _) => c.(rd := u.rd, rs1 := u.rs1)
    case FdR4(_, _) => c.(rd := u.rd, rs1 := u.rs1, rs2 := u.rs2, rs3 := u.rs3, rm := u.rm)
    case FdI(_, _) => c.(rd := u.rd, rs1 := u.rs1, imm := u.imm)
    case FdS(_, _) => c.(rs1 := u.rs1, rs2 := u.rs2, imm := u.imm)
  }

  // Fields of the shapes that several formats share

  lemma {:induction false} FieldValue(n: nat, k: nat)
    requires k in {2, 3, 5, 6, 7, 12} && n < Pow2(k)
    ensures ToNat(FromInt(n, k)) == n
  {
    ToNatFromNat(n, k);
  }

  lemma {:induction false} RegisterShape(opc: nat, rd: nat, f3: nat, rs1: nat, rs2: nat, f7: nat)
    requires opc < 128 && rd < 32 && f3 < 8 && rs1 < 32 && rs2 < 32 && f7 < 128
    ensures var w := F7(opc) + Reg(rd) + F3(f3) + Reg(rs1) + Reg(rs2) + F7(f7);
      && Field(w, 0, 7) == opc && Field(w, 7, 5) == rd && Field(w, 12, 3) == f3
      && Field(w, 15, 5) == rs1 && Field(w, 20, 5) == rs2 && Field(w, 25, 7) == f7
  {
    Pow2Small();
    SixFields(F7(opc), Reg(rd), F3(f3), Reg(rs1), Reg(rs2), F7(f7));
    FieldValue(opc, 7);
    FieldValue(rd, 5);
    FieldValue(f3, 3);
    FieldValue(rs1, 5);
    FieldValue(rs2, 5);
    FieldValue(f7, 7);
  }

  lemma {:induction false} ImmediateShape(opc: nat, rd: nat, f3: nat, rs1: nat, top: Bits)
    requires opc < 128 && rd < 32 && f3 < 8 && rs1 < 32 && |top| == 12
    ensures var w := F7(opc) + Reg(rd) + F3(f3) + Reg(rs1) + top;
      && Field(w, 0, 7) == opc && Field(w, 7, 5) == rd && Field(w, 12, 3) == f3
      && Field(w, 15, 5) == rs1 && w[20..] == top
  {
    Pow2Small();
    LowFields(F7(opc), Reg(rd), F3(f3), Reg(rs1), top);
    FieldValue(opc, 7);
    FieldValue(rd, 5);
    FieldValue(f3, 3);
    FieldValue(rs1, 5);
  }

  lemma {:induction false} StoreShape(opc: nat, f3: nat, rs1: nat, rs2: nat, n: int)
    requires opc < 128 && f3 < 8 && rs1 < 32 && rs2 < 32 && IsSigned12(n)
    ensures var imm := FromInt(n, 32);
      var w := F7(opc) + imm[..5] + F3(f3) + Reg(rs1) + Reg(rs2) + imm[5..12];
      && Field(w, 0, 7) == opc && Field(w, 12, 3) == f3 && Field(w, 15, 5) == rs1 && Field(w, 20, 5) == rs2
      && ToInt(w[7..12] + w[25..32]) == n
  {
    var imm := FromInt(n, 32);
    Pow2Small();
    SixFields(F7(opc), imm[..5], F3(f3), Reg(rs1), Reg(rs2), imm[5..12]);
    FieldValue(opc, 7);
    FieldValue(f3, 3);
    FieldValue(rs1, 5);
    FieldValue(rs2, 5);
    JoinSlices(imm, 0, 5, 12);
    SignedPrefix(n, 12);
  }

  lemma {:induction false} SignedPrefix(n: int, k: nat)
    requires 0 < k <= 32 && -1 * Pow2(k - 1) <= n < Pow2(k - 1)
    ensures ToInt(FromInt(n, 32)[..k]) == n
  {
    FromIntPrefix(n, 32, k);
    ToIntFromInt(n, k);
  }

  lemma {:induction false} BranchShape(opc: nat, f3: nat, rs1: nat, rs2: nat, n: int)
    requires opc < 128 && f3 < 8 && rs1 < 32 && rs2 < 32 && -4096 <= n <= 4095 && n % 2 == 0
    ensures var imm := FromInt(n, 32);
      var w := F7(opc) + imm[11..12] + imm[1..5] + F3(f3) + Reg(rs1) + Reg(rs2) + imm[5..11] + imm[12..13];
      && Field(w, 0, 7) == opc && Field(w, 12, 3) == f3 && Field(w, 15, 5) == rs1 && Field(w, 20, 5) == rs2
      && ToInt([false] + (w[8..12] + w[25..31] + w[7..8] + w[31..32])) == n
  {
    var imm := FromInt(n, 32);
    Pow2Small();
    BranchFields(F7(opc), imm[11..12], imm[1..5], F3(f3), Reg(rs1), Reg(rs2), imm[5..11], imm[12..13]);
    FieldValue(opc, 7);
    FieldValue(f3, 3);
    FieldValue(rs1, 5);
    FieldValue(rs2, 5);
    JoinSlices(imm, 1, 5, 11);
    JoinSlices(imm, 1, 11, 12);
    JoinSlices(imm, 1, 12, 13);
    EvenPrefix(n, 13);
    SignedPrefix(n, 13);
  }

  lemma {:induction false} JumpShape(opc: nat, rd: nat, n: int)
    requires opc < 128 && rd < 32 && -0x10_0000 <= n < 0x10_0000 && n % 2 == 0
    ensures var imm := FromInt(n, 32);
      var w := F7(opc) + Reg(rd) + imm[12..20] + imm[11..12] + imm[1..11] + imm[20..21];
      && Field(w, 0, 7) == opc && Field(w, 7, 5) == rd
      && ToInt([false] + (w[21..31] + w[20..21] + w[12..20] + w[31..32])) == n
  {
    var imm := FromInt(n, 32);
    Pow2Small();
    JumpFields(F7(opc), Reg(rd), imm[12..20], imm[11..12], imm[1..11], imm[20..21]);
    FieldValue(opc, 7);
    FieldValue(rd, 5);
    JoinSlices(imm, 1, 11, 12);
    JoinSlices(imm, 1, 12, 20);
    JoinSlices(imm, 1, 20, 21);
    EvenPrefix(n, 21);
    SignedPrefix(n, 21);
  }

  lemma {:induction false} UpperShape(opc: nat, rd: nat, n: nat)
    requires opc < 128 && rd < 32 && n < 0x10_0000
    ensures var w := F7(opc) + Reg(rd) + FromInt(n, 32)[..20];
      Field(w, 0, 7) == opc && Field(w, 7, 5) == rd && ToNat(w[12..]) == n
  {
    Pow2Small();
    UpperFields(F7(opc), Reg(rd), FromInt(n, 32)[..20]);
    FieldValue(opc, 7);
    FieldValue(rd, 5);
    FromIntPrefix(n, 32, 20);
    ToNatFromNat(n, 20);
  }

  lemma {:induction false} ShiftShape(opc: nat, rd: nat, f3: nat, rs1: nat, n: nat, f6: nat)
    requires opc < 128 && rd < 32 && f3 < 8 && rs1 < 32 && n < 64 && f6 < 64
    ensures var w := F7(opc) + Reg(rd) + F3(f3) + Reg(rs1) + FromInt(n, 6) + FromInt(f6, 6);
      && Field(w, 0, 7) == opc && Field(w, 7, 5) == rd && Field(w, 12, 3) == f3
      && Field(w, 15, 5) == rs1 && Field(w, 20, 6) == n && Field(w, 26, 6) == f6
  {
    Pow2Small();
    ShiftFields(F7(opc), Reg(rd), F3(f3), Reg(rs1), FromInt(n, 6), FromInt(f6, 6));
    var w := F7(opc) + Reg(rd) + F3(f3) + Reg(rs1) + FromInt(n, 6) + FromInt(f6, 6);
    assert w[26..32] == w[26..];
    FieldValue(opc, 7);
    FieldValue(rd, 5);
    FieldValue(f3, 3);
    FieldValue(rs1, 5);
    FieldValue(n, 6);
    FieldValue(f6, 6);
  }

  lemma {:induction false} FusedShape(opc: nat, rd: nat, rm: nat, rs1: nat, rs2: nat, f2: nat, rs3: nat)
    requires opc < 128 && rd < 32 && rm < 8 && rs1 < 32 && rs2 < 32 && f2 < 4 && rs3 < 32
    ensures var w := F7(opc) + Reg(rd) + F3(rm) + Reg(rs1) + Reg(rs2) + FromInt(f2, 2) + Reg(rs3);
      && Field(w, 0, 7) == opc && Field(w, 7, 5) == rd && Field(w, 12, 3) == rm && Field(w, 15, 5) == rs1
      && Field(w, 20, 5) == rs2 && Field(w, 25, 2) == f2 && Field(w, 27, 5) == rs3
  {
    Pow2Small();
    FusedFields(F7(opc), Reg(rd), F3(rm), Reg(rs1), Reg(rs2), FromInt(f2, 2), Reg(rs3));
    FieldValue(opc, 7);
    FieldValue(rd, 5);
    FieldValue(rm, 3);
    FieldValue(rs1, 5);
    FieldValue(rs2, 5);
    FieldValue(f2, 2);
    FieldValue(rs3, 5);
  }

  lemma {:induction false} FusedFields(opc: Bits, rd: Bits, rm: Bits, r1: Bits, r2: Bits, f2: Bits, r3: Bits)
    requires |opc| == 7 && |rd| == 5 && |rm| == 3 && |r1| == 5 && |r2| == 5 && |f2| == 2 && |r3| == 5
    ensures var w := opc + rd + rm + r1 + r2 + f2 + r3;
      && w[0..7] == opc && w[7..12] == rd && w[12..15] == rm && w[15..20] == r1
      && w[20..25] == r2 && w[25..27] == f2 && w[27..32] == r3
  {
  }

  // The decoder inverts the generators

  predicate Recovered(u: ICUnit, op: Opcode, e: Encoding) {
    var w := Layout(u, e);
    EncodingIn(w) == Some(e) && OperandsIn(w, op, e) == Canonical(u, op, e)
  }

  lemma {:induction false} RecoverR(u: ICUnit, op: Opcode, e: Encoding)
    requires e.R? && Listed(e) && InRange(u, e)
    ensures Recovered(u, op, e)
  {
    RegisterShape(e.opcode, u.rd, e.funct3, u.rs1, u.rs2, e.funct7);
  }

  lemma {:induction false} RecoverI1(u: ICUnit, op: Opcode, e: Encoding)
    requires e.I1? && Listed(e) && InRange(u, e)
    ensures Recovered(u, op, e)
  {
    var top := FromInt(u.imm, 32)[..12];
    ImmediateShape(e.opcode, u.rd, e.funct3, u.rs1, top);
    ImmediateValue(u.imm, top);
    LoadEncoding(Layout(u, e), e);
  }

  lemma {:induction false} ImmediateValue(n: int, top: Bits)
    requires IsSigned12(n) && top == FromInt(n, 32)[..12]
    ensures ToInt(top) == n
  {
    Pow2Small();
    SignedPrefix(n, 12);
  }

  lemma {:induction false} LoadEncoding(w: Word, e: Encoding)
    requires e.I1? && Listed(e) && Field(w, 0, 7) == e.opcode && Field(w, 12, 3) == e.funct3
    ensures EncodingIn(w) == Some(e)
  {
  }

  lemma {:induction false} RecoverI2(u: ICUnit, op: Opcode, e: Encoding)
    requires e.I2? && Listed(e) && InRange(u, e)
    ensures Recovered(u, op, e)
  {
    var w := Layout(u, e);
    ShiftShape(e.opcode, u.rd, e.funct3, u.rs1, u.imm, e.funct6);
    ShiftEncoding(w, e);
    ShiftOperands(w, u, op, e);
  }

  lemma {:induction false} ShiftEncoding(w: Word, e: Encoding)
    requires e.I2? && Listed(e)
    requires Field(w, 0, 7) == e.opcode && Field(w, 12, 3) == e.funct3 && Field(w, 26, 6) == e.funct6
    ensures EncodingIn(w) == Some(e)
  {
  }

  lemma {:induction false} ShiftOperands(w: Word, u: ICUnit, op: Opcode, e: Encoding)
    requires e.I2? && Field(w, 7, 5) == u.rd && Field(w, 15, 5) == u.rs1 && Field(w, 20, 6) == u.imm
    ensures OperandsIn(w, op, e) == Canonical(u, op, e)
  {
  }

  lemma {:induction false} RecoverI3(u: ICUnit, op: Opcode, e: Encoding)
    requires e.I3? && Listed(e) && InRange(u, e)
    ensures Recovered(u, op, e)
  {
    ImmediateShape(e.opcode, 0, e.funct3, 0, Zeros(12));
  }

  lemma {:induction false} RecoverS(u: ICUnit, op: Opcode, e: Encoding)
    requires e.S? && Listed(e) && InRange(u, e)
    ensures Recovered(u, op, e)
  {
    StoreShape(e.opcode, e.funct3, u.rs1, u.rs2, u.imm);
  }

  lemma {:induction false} RecoverB(u: ICUnit, op: Opcode, e: Encoding)
    requires e.B? && Listed(e) && InRange(u, e)
    ensures Recovered(u, op, e)
  {
    BranchShape(e.opcode, e.funct3, u.rs1, u.rs2, u.imm);
  }

  lemma {:induction false} RecoverU(u: ICUnit, op: Opcode, e: Encoding)
    requires e.U? && Listed(e) && InRange(u, e)
    ensures Recovered(u, op, e)
  {
    UpperShape(e.opcode, u.rd, u.imm);
  }

  lemma {:induction false} RecoverJ(u: ICUnit, op: Opcode, e: Encoding)
    requires e.J? && Listed(e) && InRange(u, e)
    ensures Recovered(u, op, e)
  {
    JumpShape(e.opcode, u.rd, u.imm);
  }

  lemma {:induction false} RecoverCsrR(u: ICUnit, op: Opcode, e: Encoding)
    requires e.CsrR? && Listed(e) && InRange(u, e)
    ensures Recovered(u, op, e)
  {
    ImmediateShape(e.opcode, u.rd, e.funct3, u.rs1, FromInt(u.csr, 12));
    Pow2Small();
    FieldValue(u.csr, 12);
  }

  lemma {:induction false} RecoverCsrI(u: ICUnit, op: Opcode, e: Encoding)
    requires e.CsrI? && Listed(e) && InRange(u, e)
    ensures Recovered(u, op, e)
  {
    FromIntPrefix(u.imm, 32, 5);
    ImmediateShape(e.opcode, u.rd, e.funct3, u.imm, FromInt(u.csr, 12));
    Pow2Small();
    FieldValue(u.csr, 12);
  }

  lemma {:induction false} RecoverFdR(u: ICUnit, op: Opcode, e: Encoding)
    requires e.FdR? && Listed(e) && InRange(u, e)
    ensures Recovered(u, op, e)
  {
    RegisterShape(e.opcode, u.rd, e.funct3, u.rs1, u.rs2, e.funct7);
  }

  lemma {:induction false} RecoverFdR1(u: ICUnit, op: Opcode, e: Encoding)
    requires e.FdR1? && Listed(e) && InRange(u, e)
    ensures Recovered(u, op, e)
  {
    RegisterShape(e.opcode, u.rd, u.rm, u.rs1, u.rs2, e.funct7);
  }

  lemma {:induction false} RecoverFdR2(u: ICUnit, op: Opcode, e: Encoding)
    requires e.FdR2? && Listed(e) && InRange(u, e)
    ensures Recovered(u, op, e)
  {
    RegisterShape(e.opcode, u.rd, u.rm, u.rs1, e.funct5, e.funct7);
  }

  lemma {:induction false} RecoverFdR3(u: ICUnit, op: Opcode, e: Encoding)
    requires e.FdR3? && Listed(e) && InRange(u, e)
    ensures Recovered(u, op, e)
  {
    RegisterShape(e.opcode, u.rd, e.funct3, u.rs1, e.funct5, e.funct7);
  }

  lemma {:induction false} RecoverFdR4(u: ICUnit, op: Opcode, e: Encoding)
    requires e.FdR4? && Listed(e) && InRange(u, e)
    ensures Recovered(u, op, e)
  {
    FusedShape(e.opcode, u.rd, u.rm, u.rs1, u.rs2, e.funct2, u.rs3);
  }

  lemma {:induction false} RecoverFdI(u: ICUnit, op: Opcode, e: Encoding)
    requires e.FdI? && Listed(e) && InRange(u, e)
    ensures Recovered(u, op, e)
  {
    ImmediateShape(e.opcode, u.rd, e.funct3, u.rs1, FromInt(u.imm, 32)[..12]);
    Pow2Small();
    SignedPrefix(u.imm, 12);
  }

  lemma {:induction false} RecoverFdS(u: ICUnit, op: Opcode, e: Encoding)
    requires e.FdS? && Listed(e) && InRange(u, e)
    ensures Recovered(u, op, e)
  {
    StoreShape(e.opcode, e.funct3, u.rs1, u.rs2, u.imm);
  }

  /** The format and every operand of a word are recovered. */
  lemma {:induction false} FormatRecovered(u: ICUnit, op: Opcode, e: Encoding)
    requires Listed(e) && InRange(u, e)
    ensures Recovered(u, op, e)
  {
    match e
    case R(_, _, _) => RecoverR(u, op, e);
    case I1(_, _) => RecoverI1(u, op, e);
    case I2(_, _, _) => RecoverI2(u, op, e);
    case I3(_, _, _) => RecoverI3(u, op, e);
    case S(_, _) => RecoverS(u, op, e);
    case B(_, _) => RecoverB(u, op, e);
    case U(_) => RecoverU(u, op, e);
    case J(_) => RecoverJ(u, op, e);
    case CsrR(_, _) => RecoverCsrR(u, op, e);
    case CsrI(_, _) => RecoverCsrI(u, op, e);
    case FdR(_, _, _) => RecoverFdR(u, op, e);
    case FdR1(_, _) => RecoverFdR1(u, op, e);
    case FdR2(_, _, _) => RecoverFdR2(u, op, e);
    case FdR3(_, _, _, _) => RecoverFdR3(u, op, e);
    case FdR4(_, _) => RecoverFdR4(u, op, e);
    case FdI(_, _) => RecoverFdI(u, op, e);
    case FdS(_, _) => RecoverFdS(u, op, e);
  }

  /** Decode is a left inverse of the assembler on every mnemonic and all in-range operands. */
  lemma {:induction false} DecodeInverts(u: ICUnit, op: Opcode, w: Word)
    requires InRange(u, EncodingOf(op)) && w == Layout(u, EncodingOf(op))
    ensures Decode(w) == Some(Canonical(u, op, EncodingOf(op)))
  {
    TablesListed(op);
    TablesInvert(op);
    FormatRecovered(u, op, EncodingOf(op));
  }

  /** Two instructions with the same word have the same mnemonic and the same operands. */
  lemma {:induction false} AssemblerInjective(u: ICUnit, op: Opcode, v: ICUnit, op': Opcode, w: Word)
    requires InRange(u, EncodingOf(op)) && w == Layout(u, EncodingOf(op))
    requires InRange(v, EncodingOf(op')) && w == Layout(v, EncodingOf(op'))
    ensures op == op' && Canonical(u, op, EncodingOf(op)) == Canonical(v, op', EncodingOf(op'))
  {
    DecodeInverts(u, op, w);
    DecodeInverts(v, op', w);
    CanonicalOpcode(u, op, EncodingOf(op));
    CanonicalOpcode(v, op', EncodingOf(op'));
  }

  lemma {:induction false} CanonicalOpcode(u: ICUnit, op: Opcode, e: Encoding)
    ensures Canonical(u, op, e).opcode == Some(op)
  {
  }

  // The immediate that the virtual machine reads

  /** Formats whose immediate ImmGenerator reads; opcode 0011011 (addiw and the W shifts) has no case. */
  predicate HasImmediate(e: Encoding) {
    e.I1? || e.S? || e.B? || e.U? || e.J? || e.FdI? || e.FdS?
  }

  /** ImmGenerator undoes the encoding of every in-range immediate, except that addiw always reads 0. */
  lemma {:induction false} ImmediateRecovered(u: ICUnit, op: Opcode)
    requires var e := EncodingOf(op); InRange(u, e) && HasImmediate(e)
    ensures var e := EncodingOf(op); ImmGenerator(Layout(u, e)) == u.imm <==> e.opcode != 0x1B || u.imm == 0
  {
    var e := EncodingOf(op);
    TablesListed(op);
    if e.I1? || e.FdI? { ImmediateOfI(u, e); }
    if e.S? || e.FdS? { ImmediateOfS(u, e); }
    if e.B? { ImmediateOfB(u, e); }
    if e.J? { ImmediateOfJ(u, e); }
    if e.U? { ImmediateOfU(u, e); }
  }

  /** For instance addiw by 1 adds 0. */
  lemma {:induction false} AddiwReadsZero()
    ensures var op := Immediate(kaddiw); var u := Blank(op).(imm := 1);
      InRange(u, EncodingOf(op)) && ImmGenerator(Layout(u, EncodingOf(op))) == 0
  {
    var op := Immediate(kaddiw);
    var u := Blank(op).(imm := 1);
    UncasedOpcode(u, EncodingOf(op));
  }

  lemma {:induction false} UncasedOpcode(u: ICUnit, e: Encoding)
    requires e.I1? && e.opcode == 0x1B && Listed(e) && InRange(u, e)
    ensures ImmGenerator(Layout(u, e)) == 0
  {
    ImmediateShape(e.opcode, u.rd, e.funct3, u.rs1, FromInt(u.imm, 32)[..12]);
  }

  /** A shift by immediate shifts by its operand: the ALU masks the sign-extended immediate with 63. */
  lemma {:induction false} ShiftImmediate(u: ICUnit, op: Opcode, a: Metadata.Register)
    requires var e := EncodingOf(op); e.I2? && e.opcode == 0x13 && InRange(u, e)
    ensures var b := FromInt(ImmGenerator(Layout(u, EncodingOf(op))), 64);
      && Alu.Execute(Alu.Sll, a, b, None).0 == Shl(a, u.imm)
      && Alu.Execute(Alu.Srl, a, b, None).0 == Shr(a, u.imm)
      && Alu.Execute(Alu.Sra, a, b, None).0 == Alu.SignExtend(a[u.imm..], 64)
  {
    TablesListed(op);
    ShiftAmountOfI2(u, EncodingOf(op));
    var n := ImmGenerator(Layout(u, EncodingOf(op)));
    LowSixBits(n);
    AluTheorems.ExecuteShifts(a, FromInt(n, 64), u.imm);
  }

  /** b & 63 of a sign-extended immediate. */
  lemma {:induction false} LowSixBits(n: int)
    ensures Alu.ShiftAmount(FromInt(n, 64)) == n % 64
  {
    FromIntPrefix(n, 64, 6);
    ToNatFromInt(n, 6);
    Pow2Small();
  }
}
