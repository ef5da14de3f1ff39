/**
 The encoding tables of src/common/instructions.cpp: one constructor per mnemonic in the
 per-format maps, its format with the fixed fields, and the inverse table a decoder needs.
 */
module Instructions {
  import opened Wrappers

  /** Mnemonics are named as in the Instruction enumeration of include/common/instructions.h. */
  datatype Opcode =
    | Register(register: RegisterOp)
    | Narrow(narrow: NarrowOp)
    | Packed(packed: PackedOp)
    | Immediate(immediate: ImmediateOp)
    | Base(base: BaseOp)
    | FloatPlain(floatPlain: FloatPlainOp)
    | FloatRounded(floatRounded: FloatRoundedOp)
    | FloatUnary(floatUnary: FloatUnaryOp)
    | FloatOther(floatOther: FloatOtherOp)

  datatype RegisterOp =
    | kadd | ksub | kxor | kor | kand | ksll | ksrl | ksra | kslt | ksltu | kmul | kmulh | kmulhsu | kmulhu
    | kdiv | kdivu | krem | kremu

  datatype NarrowOp =
    | kaddw | ksubw | ksllw | ksrlw | ksraw | kmulw | kdivw | kdivuw | kremw | kremuw

  datatype PackedOp =
    | kSIMD_add32 | kSIMD_sub32 | kSIMD_load32 | kSIMD_mul32 | kSIMD_div32 | kSIMD_rem32 | kinjectFlip
    | kcheckError | ksetSig | kSIMD_add16 | kSIMD_sub16 | kSIMD_mul16 | kSIMD_div16 | kSIMD_rem16
    | kSIMD_load16_upper | kSIMD_load16_lower

  datatype ImmediateOp =
    | kaddi | kxori | kori | kandi | ksltiu | kslti | kaddiw | klb | klh | klw | kld | klbu | klhu | klwu
    | klwpd | kjalr | kslli | ksrli | ksrai | kslliw | ksrliw | ksraiw | kecall

  datatype BaseOp =
    | ksb | ksh | ksw | ksd | kbeq | kbne | kblt | kbge | kbltu | kbgeu | klui | kauipc | kjal | kcsrrw
    | kcsrrs | kcsrrc | kcsrrwi | kcsrrsi | kcsrrci

  datatype FloatPlainOp =
    | kfsgnj_s | kfsgnjn_s | kfsgnjx_s | kfmin_s | kfmax_s | kfeq_s | kflt_s | kfle_s | kfeq_d | kflt_d
    | kfle_d | kfsgnj_d | kfsgnjn_d | kfsgnjx_d | kfmin_d | kfmax_d

  datatype FloatRoundedOp =
    | kfadd_s | kfsub_s | kfmul_s | kfdiv_s | kfadd_d | kfsub_d | kfmul_d | kfdiv_d | kfadd_bf16 | kfsub_bf16
    | kfmul_bf16 | kfdiv_bf16 | kvdotp_bf16 | kSIMDF_add32 | kSIMDF_sub32 | kSIMDF_mul32 | kSIMDF_div32
    | kSIMDF_rem32 | kSIMDF_ld32

  datatype FloatUnaryOp =
    | kfsqrt_s | kfcvt_w_s | kfcvt_wu_s | kfcvt_l_s | kfcvt_lu_s | kfcvt_s_w | kfcvt_s_wu | kfcvt_s_l
    | kfcvt_s_lu | kfsqrt_d | kfcvt_w_d | kfcvt_wu_d | kfcvt_l_d | kfcvt_lu_d | kfcvt_d_w | kfcvt_d_wu
    | kfcvt_d_l | kfcvt_d_lu | kfcvt_s_d | kfcvt_d_s

  datatype FloatOtherOp =
    | kfmv_w_x | kfmv_x_w | kfclass_s | kfmv_d_x | kfmv_x_d | kfclass_d | kfmadd_s | kfmsub_s | kfnmsub_s
    | kfnmadd_s | kfmadd_d | kfmsub_d | kfnmsub_d | kfnmadd_d | kflw | kfld | kfsw | kfsd

  /** The format of a mnemonic, that is the map it is listed in, with the entry of that map. */
  datatype Encoding =
    | R(opcode: nat, funct3: nat, funct7: nat)
    | I1(opcode: nat, funct3: nat)
    | I2(opcode: nat, funct3: nat, funct6: nat)
    | I3(opcode: nat, funct3: nat, funct7: nat)
    | S(opcode: nat, funct3: nat)
    | B(opcode: nat, funct3: nat)
    | U(opcode: nat)
    | J(opcode: nat)
    | CsrR(opcode: nat, funct3: nat)
    | CsrI(opcode: nat, funct3: nat)
    | FdR(opcode: nat, funct3: nat, funct7: nat)
    | FdR1(opcode: nat, funct7: nat)
    | FdR2(opcode: nat, funct5: nat, funct7: nat)
    | FdR3(opcode: nat, funct3: nat, funct5: nat, funct7: nat)
    | FdR4(opcode: nat, funct2: nat)
    | FdI(opcode: nat, funct3: nat)
    | FdS(opcode: nat, funct3: nat)

  /**
   What the tables guarantee of an entry: its fields fit their places, and opcode, funct3 and funct7
   tell its format apart from all others.
   */
  predicate Listed(e: Encoding) {
    match e
    case R(opc, f3, f7) => opc in {51, 59} && f3 < 8 && f7 < 128
    case I1(opc, f3) => opc in {3, 19, 27, 103} && f3 < 8 && (opc in {19, 27} ==> f3 !in {1, 5})
    case I2(opc, f3, f6) => opc in {19, 27} && f3 in {1, 5} && f6 < 64
    case I3(opc, f3, f7) => opc == 115 && f3 == 0 && f7 == 0
    case S(opc, f3) => opc == 35 && f3 < 8
    case B(opc, f3) => opc == 99 && f3 < 8
    case U(opc) => opc in {55, 23}
    case J(opc) => opc == 111
    case CsrR(opc, f3) => opc == 115 && 1 <= f3 <= 3
    case CsrI(opc, f3) => opc == 115 && 5 <= f3 <= 7
    case FdR(opc, f3, f7) => opc == 83 && f3 < 8 && FdRFunct7(f7)
    case FdR1(opc, f7) => opc == 83 && f7 < 24 && !FdRFunct7(f7)
    case FdR2(opc, f5, f7) => opc == 83 && f5 < 32 && FdR2Funct7(f7)
    case FdR3(opc, f3, f5, f7) => opc == 83 && f3 < 8 && f5 == 0 && FdR3Funct7(f7)
    case FdR4(opc, f2) => opc in {67, 71, 75, 79} && f2 < 4
    case FdI(opc, f3) => opc == 7 && f3 < 8
    case FdS(opc, f3) => opc == 39 && f3 < 8
  }

  predicate FdRFunct7(f7: nat) {
    f7 in {16, 17, 20, 21, 80, 81}
  }

  predicate FdR2Funct7(f7: nat) {
    f7 in {32, 33, 44, 45, 96, 97, 104, 105}
  }

  predicate FdR3Funct7(f7: nat) {
    f7 in {112, 113, 120, 121}
  }

  function EncodingOf(op: Opcode): Encoding {
    match op
    case Register(o) => RegisterEncoding(o)
    case Narrow(o) => NarrowEncoding(o)
    case Packed(o) => PackedEncoding(o)
    case Immediate(o) => ImmediateEncoding(o)
    case Base(o) => BaseEncoding(o)
    case FloatPlain(o) => FloatPlainEncoding(o)
    case FloatRounded(o) => FloatRoundedEncoding(o)
    case FloatUnary(o) => FloatUnaryEncoding(o)
    case FloatOther(o) => FloatOtherEncoding(o)
  }

  function RegisterEncoding(op: RegisterOp): Encoding {
    match op
    case kadd => R(51, 0, 0) case ksub => R(51, 0, 32) case kxor => R(51, 4, 0) case kor => R(51, 6, 0)
    case kand => R(51, 7, 0) case ksll => R(51, 1, 0) case ksrl => R(51, 5, 0) case ksra => R(51, 5, 32)
    case kslt => R(51, 2, 0) case ksltu => R(51, 3, 0) case kmul => R(51, 0, 1) case kmulh => R(51, 1, 1)
    case kmulhsu => R(51, 2, 1) case kmulhu => R(51, 3, 1) case kdiv => R(51, 4, 1)
    case kdivu => R(51, 5, 1) case krem => R(51, 6, 1) case kremu => R(51, 7, 1)
  }

  function NarrowEncoding(op: NarrowOp): Encoding {
    match op
    case kaddw => R(59, 0, 0) case ksubw => R(59, 0, 32) case ksllw => R(59, 1, 0)
    case ksrlw => R(59, 5, 0) case ksraw => R(59, 5, 32) case kmulw => R(59, 0, 1)
    case kdivw => R(59, 4, 1) case kdivuw => R(59, 5, 1) case kremw => R(59, 6, 1)
    case kremuw => R(59, 7, 1)
  }

  function PackedEncoding(op: PackedOp): Encoding {
    match op
    case kSIMD_add32 => R(51, 0, 11) case kSIMD_sub32 => R(51, 1, 11) case kSIMD_load32 => R(51, 7, 11)
    case kSIMD_mul32 => R(51, 3, 11) case kSIMD_div32 => R(51, 4, 11) case kSIMD_rem32 => R(51, 5, 11)
    case kinjectFlip => R(51, 0, 31) case kcheckError => R(51, 1, 31) case ksetSig => R(51, 2, 31)
    case kSIMD_add16 => R(51, 2, 11) case kSIMD_sub16 => R(51, 6, 11) case kSIMD_mul16 => R(51, 0, 15)
    case kSIMD_div16 => R(51, 3, 15) case kSIMD_rem16 => R(51, 4, 15)
    case kSIMD_load16_upper => R(51, 1, 15) case kSIMD_load16_lower => R(51, 2, 15)
  }

  function ImmediateEncoding(op: ImmediateOp): Encoding {
    match op
    case kaddi => I1(19, 0) case kxori => I1(19, 4) case kori => I1(19, 6) case kandi => I1(19, 7)
    case ksltiu => I1(19, 3) case kslti => I1(19, 2) case kaddiw => I1(27, 0) case klb => I1(3, 0)
    case klh => I1(3, 1) case klw => I1(3, 2) case kld => I1(3, 3) case klbu => I1(3, 4)
    case klhu => I1(3, 5) case klwu => I1(3, 6) case klwpd => I1(3, 7) case kjalr => I1(103, 0)
    case kslli => I2(19, 1, 0) case ksrli => I2(19, 5, 0) case ksrai => I2(19, 5, 16)
    case kslliw => I2(27, 1, 0) case ksrliw => I2(27, 5, 0) case ksraiw => I2(27, 5, 16)
    case kecall => I3(115, 0, 0)
  }

  function BaseEncoding(op: BaseOp): Encoding {
    match op
    case ksb => S(35, 0) case ksh => S(35, 1) case ksw => S(35, 2) case ksd => S(35, 3)
    case kbeq => B(99, 0) case kbne => B(99, 1) case kblt => B(99, 4) case kbge => B(99, 5)
    case kbltu => B(99, 6) case kbgeu => B(99, 7) case klui => U(55) case kauipc => U(23)
    case kjal => J(111) case kcsrrw => CsrR(115, 1) case kcsrrs => CsrR(115, 2) case kcsrrc => CsrR(115, 3)
    case kcsrrwi => CsrI(115, 5) case kcsrrsi => CsrI(115, 6) case kcsrrci => CsrI(115, 7)
  }

  function FloatPlainEncoding(op: FloatPlainOp): Encoding {
    match op
    case kfsgnj_s => FdR(83, 0, 16) case kfsgnjn_s => FdR(83, 1, 16) case kfsgnjx_s => FdR(83, 2, 16)
    case kfmin_s => FdR(83, 0, 20) case kfmax_s => FdR(83, 1, 20) case kfeq_s => FdR(83, 2, 80)
    case kflt_s => FdR(83, 1, 80) case kfle_s => FdR(83, 0, 80) case kfeq_d => FdR(83, 2, 81)
    case kflt_d => FdR(83, 1, 81) case kfle_d => FdR(83, 0, 81) case kfsgnj_d => FdR(83, 0, 17)
    case kfsgnjn_d => FdR(83, 1, 17) case kfsgnjx_d => FdR(83, 2, 17) case kfmin_d => FdR(83, 0, 21)
    case kfmax_d => FdR(83, 1, 21)
  }

  function FloatRoundedEncoding(op: FloatRoundedOp): Encoding {
    match op
    case kfadd_s => FdR1(83, 0) case kfsub_s => FdR1(83, 4) case kfmul_s => FdR1(83, 8)
    case kfdiv_s => FdR1(83, 12) case kfadd_d => FdR1(83, 1) case kfsub_d => FdR1(83, 5)
    case kfmul_d => FdR1(83, 9) case kfdiv_d => FdR1(83, 13) case kfadd_bf16 => FdR1(83, 2)
    case kfsub_bf16 => FdR1(83, 6) case kfmul_bf16 => FdR1(83, 10) case kfdiv_bf16 => FdR1(83, 14)
    case kvdotp_bf16 => FdR1(83, 18) case kSIMDF_add32 => FdR1(83, 3) case kSIMDF_sub32 => FdR1(83, 7)
    case kSIMDF_mul32 => FdR1(83, 11) case kSIMDF_div32 => FdR1(83, 15) case kSIMDF_rem32 => FdR1(83, 19)
    case kSIMDF_ld32 => FdR1(83, 23)
  }

  function FloatUnaryEncoding(op: FloatUnaryOp): Encoding {
    match op
    case kfsqrt_s => FdR2(83, 0, 44) case kfcvt_w_s => FdR2(83, 0, 96) case kfcvt_wu_s => FdR2(83, 1, 96)
    case kfcvt_l_s => FdR2(83, 2, 96) case kfcvt_lu_s => FdR2(83, 3, 96) case kfcvt_s_w => FdR2(83, 0, 104)
    case kfcvt_s_wu => FdR2(83, 1, 104) case kfcvt_s_l => FdR2(83, 2, 104)
    case kfcvt_s_lu => FdR2(83, 3, 104) case kfsqrt_d => FdR2(83, 0, 45) case kfcvt_w_d => FdR2(83, 0, 97)
    case kfcvt_wu_d => FdR2(83, 1, 97) case kfcvt_l_d => FdR2(83, 2, 97) case kfcvt_lu_d => FdR2(83, 3, 97)
    case kfcvt_d_w => FdR2(83, 0, 105) case kfcvt_d_wu => FdR2(83, 1, 105)
    case kfcvt_d_l => FdR2(83, 2, 105) case kfcvt_d_lu => FdR2(83, 3, 105)
    case kfcvt_s_d => FdR2(83, 1, 32) case kfcvt_d_s => FdR2(83, 0, 33)
  }

  function FloatOtherEncoding(op: FloatOtherOp): Encoding {
    match op
    case kfmv_w_x => FdR3(83, 0, 0, 120) case kfmv_x_w => FdR3(83, 0, 0, 112)
    case kfclass_s => FdR3(83, 1, 0, 112) case kfmv_d_x => FdR3(83, 0, 0, 121)
    case kfmv_x_d => FdR3(83, 0, 0, 113) case kfclass_d => FdR3(83, 1, 0, 113) case kfmadd_s => FdR4(67, 0)
    case kfmsub_s => FdR4(71, 0) case kfnmsub_s => FdR4(75, 0) case kfnmadd_s => FdR4(79, 0)
    case kfmadd_d => FdR4(67, 1) case kfmsub_d => FdR4(71, 1) case kfnmsub_d => FdR4(75, 1)
    case kfnmadd_d => FdR4(79, 1) case kflw => FdI(7, 2) case kfld => FdI(7, 3) case kfsw => FdS(39, 2)
    case kfsd => FdS(39, 3)
  }

  /** The mnemonic listed with exactly these fixed fields. */
  function OpcodeOf(e: Encoding): Option<Opcode> {
    match e
    case R(opcode, funct3, funct7) => ROpcode(opcode, funct3, funct7)
    case I1(opcode, funct3) => I1Opcode(opcode, funct3)
    case I2(opcode, funct3, funct6) => I2Opcode(opcode, funct3, funct6)
    case I3(opcode, funct3, funct7) => I3Opcode(opcode, funct3, funct7)
    case S(opcode, funct3) => SOpcode(opcode, funct3)
    case B(opcode, funct3) => BOpcode(opcode, funct3)
    case U(opcode) => UOpcode(opcode)
    case J(opcode) => JOpcode(opcode)
    case CsrR(opcode, funct3) => CsrROpcode(opcode, funct3)
    case CsrI(opcode, funct3) => CsrIOpcode(opcode, funct3)
    case FdR(opcode, funct3, funct7) => FdROpcode(opcode, funct3, funct7)
    case FdR1(opcode, funct7) => FdR1Opcode(opcode, funct7)
    case FdR2(opcode, funct5, funct7) => FdR2Opcode(opcode, funct5, funct7)
    case FdR3(opcode, funct3, funct5, funct7) => FdR3Opcode(opcode, funct3, funct5, funct7)
    case FdR4(opcode, funct2) => FdR4Opcode(opcode, funct2)
    case FdI(opcode, funct3) => FdIOpcode(opcode, funct3)
    case FdS(opcode, funct3) => FdSOpcode(opcode, funct3)
  }

  function ROpcode(opcode: nat, funct3: nat, funct7: nat): Option<Opcode> {
    if opcode == 51 then
      if funct7 == 0 then
        if funct3 == 0 then Some(Register(kadd)) else if funct3 == 1 then Some(Register(ksll))
        else if funct3 == 2 then Some(Register(kslt)) else if funct3 == 3 then Some(Register(ksltu))
        else if funct3 == 4 then Some(Register(kxor)) else if funct3 == 5 then Some(Register(ksrl))
        else if funct3 == 6 then Some(Register(kor)) else if funct3 == 7 then Some(Register(kand))
        else None
      else if funct7 == 1 then
        if funct3 == 0 then Some(Register(kmul)) else if funct3 == 1 then Some(Register(kmulh))
        else if funct3 == 2 then Some(Register(kmulhsu)) else if funct3 == 3 then Some(Register(kmulhu))
        else if funct3 == 4 then Some(Register(kdiv)) else if funct3 == 5 then Some(Register(kdivu))
        else if funct3 == 6 then Some(Register(krem)) else if funct3 == 7 then Some(Register(kremu))
        else None
      else if funct7 == 11 then
        if funct3 == 0 then Some(Packed(kSIMD_add32)) else if funct3 == 1 then Some(Packed(kSIMD_sub32))
        else if funct3 == 2 then Some(Packed(kSIMD_add16))
        else if funct3 == 3 then Some(Packed(kSIMD_mul32))
        else if funct3 == 4 then Some(Packed(kSIMD_div32))
        else if funct3 == 5 then Some(Packed(kSIMD_rem32))
        else if funct3 == 6 then Some(Packed(kSIMD_sub16))
        else if funct3 == 7 then Some(Packed(kSIMD_load32)) else None
      else if funct7 == 15 then
        if funct3 == 0 then Some(Packed(kSIMD_mul16))
        else if funct3 == 1 then Some(Packed(kSIMD_load16_upper))
        else if funct3 == 2 then Some(Packed(kSIMD_load16_lower))
        else if funct3 == 3 then Some(Packed(kSIMD_div16))
        else if funct3 == 4 then Some(Packed(kSIMD_rem16)) else None
      else if funct7 == 31 then
        if funct3 == 0 then Some(Packed(kinjectFlip)) else if funct3 == 1 then Some(Packed(kcheckError))
        else if funct3 == 2 then Some(Packed(ksetSig)) else None
      else if funct7 == 32 then
        if funct3 == 0 then Some(Register(ksub)) else if funct3 == 5 then Some(Register(ksra)) else None
      else None
    else if opcode == 59 then
      if funct7 == 0 then
        if funct3 == 0 then Some(Narrow(kaddw)) else if funct3 == 1 then Some(Narrow(ksllw))
        else if funct3 == 5 then Some(Narrow(ksrlw)) else None
      else if funct7 == 1 then
        if funct3 == 0 then Some(Narrow(kmulw)) else if funct3 == 4 then Some(Narrow(kdivw))
        else if funct3 == 5 then Some(Narrow(kdivuw)) else if funct3 == 6 then Some(Narrow(kremw))
        else if funct3 == 7 then Some(Narrow(kremuw)) else None
      else if funct7 == 32 then
        if funct3 == 0 then Some(Narrow(ksubw)) else if funct3 == 5 then Some(Narrow(ksraw)) else None
      else None
    else None
  }

  function I1Opcode(opcode: nat, funct3: nat): Option<Opcode> {
    if opcode == 3 then
      if funct3 == 0 then Some(Immediate(klb)) else if funct3 == 1 then Some(Immediate(klh))
      else if funct3 == 2 then Some(Immediate(klw)) else if funct3 == 3 then Some(Immediate(kld))
      else if funct3 == 4 then Some(Immediate(klbu)) else if funct3 == 5 then Some(Immediate(klhu))
      else if funct3 == 6 then Some(Immediate(klwu)) else if funct3 == 7 then Some(Immediate(klwpd))
      else None
    else if opcode == 19 then
      if funct3 == 0 then Some(Immediate(kaddi)) else if funct3 == 2 then Some(Immediate(kslti))
      else if funct3 == 3 then Some(Immediate(ksltiu)) else if funct3 == 4 then Some(Immediate(kxori))
      else if funct3 == 6 then Some(Immediate(kori)) else if funct3 == 7 then Some(Immediate(kandi))
      else None
    else if opcode == 27 then
      if funct3 == 0 then Some(Immediate(kaddiw)) else None
    else if opcode == 103 then
      if funct3 == 0 then Some(Immediate(kjalr)) else None
    else None
  }

  function I2Opcode(opcode: nat, funct3: nat, funct6: nat): Option<Opcode> {
    if opcode == 19 then
      if funct3 == 1 then
        if funct6 == 0 then Some(Immediate(kslli)) else None
      else if funct3 == 5 then
        if funct6 == 0 then Some(Immediate(ksrli)) else if funct6 == 16 then Some(Immediate(ksrai))
        else None
      else None
    else if opcode == 27 then
      if funct3 == 1 then
        if funct6 == 0 then Some(Immediate(kslliw)) else None
      else if funct3 == 5 then
        if funct6 == 0 then Some(Immediate(ksrliw)) else if funct6 == 16 then Some(Immediate(ksraiw))
        else None
      else None
    else None
  }

  function I3Opcode(opcode: nat, funct3: nat, funct7: nat): Option<Opcode> {
    if opcode == 115 then
      if funct3 == 0 then
        if funct7 == 0 then Some(Immediate(kecall)) else None
      else None
    else None
  }

  function SOpcode(opcode: nat, funct3: nat): Option<Opcode> {
    if opcode == 35 then
      if funct3 == 0 then Some(Base(ksb)) else if funct3 == 1 then Some(Base(ksh))
      else if funct3 == 2 then Some(Base(ksw)) else if funct3 == 3 then Some(Base(ksd)) else None
    else None
  }

  function BOpcode(opcode: nat, funct3: nat): Option<Opcode> {
    if opcode == 99 then
      if funct3 == 0 then Some(Base(kbeq)) else if funct3 == 1 then Some(Base(kbne))
      else if funct3 == 4 then Some(Base(kblt)) else if funct3 == 5 then Some(Base(kbge))
      else if funct3 == 6 then Some(Base(kbltu)) else if funct3 == 7 then Some(Base(kbgeu)) else None
    else None
  }

  function UOpcode(opcode: nat): Option<Opcode> {
    if opcode == 23 then Some(Base(kauipc)) else if opcode == 55 then Some(Base(klui)) else None
  }

  function JOpcode(opcode: nat): Option<Opcode> {
    if opcode == 111 then Some(Base(kjal)) else None
  }

  function CsrROpcode(opcode: nat, funct3: nat): Option<Opcode> {
    if opcode == 115 then
      if funct3 == 1 then Some(Base(kcsrrw)) else if funct3 == 2 then Some(Base(kcsrrs))
      else if funct3 == 3 then Some(Base(kcsrrc)) else None
    else None
  }

  function CsrIOpcode(opcode: nat, funct3: nat): Option<Opcode> {
    if opcode == 115 then
      if funct3 == 5 then Some(Base(kcsrrwi)) else if funct3 == 6 then Some(Base(kcsrrsi))
      else if funct3 == 7 then Some(Base(kcsrrci)) else None
    else None
  }

  function FdROpcode(opcode: nat, funct3: nat, funct7: nat): Option<Opcode> {
    if opcode == 83 then
      if funct7 == 16 then
        if funct3 == 0 then Some(FloatPlain(kfsgnj_s)) else if funct3 == 1 then Some(FloatPlain(kfsgnjn_s))
        else if funct3 == 2 then Some(FloatPlain(kfsgnjx_s)) else None
      else if funct7 == 17 then
        if funct3 == 0 then Some(FloatPlain(kfsgnj_d)) else if funct3 == 1 then Some(FloatPlain(kfsgnjn_d))
        else if funct3 == 2 then Some(FloatPlain(kfsgnjx_d)) else None
      else if funct7 == 20 then
        if funct3 == 0 then Some(FloatPlain(kfmin_s)) else if funct3 == 1 then Some(FloatPlain(kfmax_s))
        else None
      else if funct7 == 21 then
        if funct3 == 0 then Some(FloatPlain(kfmin_d)) else if funct3 == 1 then Some(FloatPlain(kfmax_d))
        else None
      else if funct7 == 80 then
        if funct3 == 0 then Some(FloatPlain(kfle_s)) else if funct3 == 1 then Some(FloatPlain(kflt_s))
        else if funct3 == 2 then Some(FloatPlain(kfeq_s)) else None
      else if funct7 == 81 then
        if funct3 == 0 then Some(FloatPlain(kfle_d)) else if funct3 == 1 then Some(FloatPlain(kflt_d))
        else if funct3 == 2 then Some(FloatPlain(kfeq_d)) else None
      else None
    else None
  }

  function FdR1Opcode(opcode: nat, funct7: nat): Option<Opcode> {
    if opcode == 83 then
      if funct7 == 0 then Some(FloatRounded(kfadd_s)) else if funct7 == 1 then Some(FloatRounded(kfadd_d))
      else if funct7 == 2 then Some(FloatRounded(kfadd_bf16))
      else if funct7 == 3 then Some(FloatRounded(kSIMDF_add32))
      else if funct7 == 4 then Some(FloatRounded(kfsub_s))
      else if funct7 == 5 then Some(FloatRounded(kfsub_d))
      else if funct7 == 6 then Some(FloatRounded(kfsub_bf16))
      else if funct7 == 7 then Some(FloatRounded(kSIMDF_sub32))
      else if funct7 == 8 then Some(FloatRounded(kfmul_s))
      else if funct7 == 9 then Some(FloatRounded(kfmul_d))
      else if funct7 == 10 then Some(FloatRounded(kfmul_bf16))
      else if funct7 == 11 then Some(FloatRounded(kSIMDF_mul32))
      else if funct7 == 12 then Some(FloatRounded(kfdiv_s))
      else if funct7 == 13 then Some(FloatRounded(kfdiv_d))
      else if funct7 == 14 then Some(FloatRounded(kfdiv_bf16))
      else if funct7 == 15 then Some(FloatRounded(kSIMDF_div32))
      else if funct7 == 18 then Some(FloatRounded(kvdotp_bf16))
      else if funct7 == 19 then Some(FloatRounded(kSIMDF_rem32))
      else if funct7 == 23 then Some(FloatRounded(kSIMDF_ld32)) else None
    else None
  }

  function FdR2Opcode(opcode: nat, funct5: nat, funct7: nat): Option<Opcode> {
    if opcode == 83 then
      if funct7 == 32 then
        if funct5 == 1 then Some(FloatUnary(kfcvt_s_d)) else None
      else if funct7 == 33 then
        if funct5 == 0 then Some(FloatUnary(kfcvt_d_s)) else None
      else if funct7 == 44 then
        if funct5 == 0 then Some(FloatUnary(kfsqrt_s)) else None
      else if funct7 == 45 then
        if funct5 == 0 then Some(FloatUnary(kfsqrt_d)) else None
      else if funct7 == 96 then
        if funct5 == 0 then Some(FloatUnary(kfcvt_w_s))
        else if funct5 == 1 then Some(FloatUnary(kfcvt_wu_s))
        else if funct5 == 2 then Some(FloatUnary(kfcvt_l_s))
        else if funct5 == 3 then Some(FloatUnary(kfcvt_lu_s)) else None
      else if funct7 == 97 then
        if funct5 == 0 then Some(FloatUnary(kfcvt_w_d))
        else if funct5 == 1 then Some(FloatUnary(kfcvt_wu_d))
        else if funct5 == 2 then Some(FloatUnary(kfcvt_l_d))
        else if funct5 == 3 then Some(FloatUnary(kfcvt_lu_d)) else None
      else if funct7 == 104 then
        if funct5 == 0 then Some(FloatUnary(kfcvt_s_w))
        else if funct5 == 1 then Some(FloatUnary(kfcvt_s_wu))
        else if funct5 == 2 then Some(FloatUnary(kfcvt_s_l))
        else if funct5 == 3 then Some(FloatUnary(kfcvt_s_lu)) else None
      else if funct7 == 105 then
        if funct5 == 0 then Some(FloatUnary(kfcvt_d_w))
        else if funct5 == 1 then Some(FloatUnary(kfcvt_d_wu))
        else if funct5 == 2 then Some(FloatUnary(kfcvt_d_l))
        else if funct5 == 3 then Some(FloatUnary(kfcvt_d_lu)) else None
      else None
    else None
  }

  function FdR3Opcode(opcode: nat, funct3: nat, funct5: nat, funct7: nat): Option<Opcode> {
    if opcode == 83 then
      if funct7 == 112 then
        if funct5 == 0 then
          if funct3 == 0 then Some(FloatOther(kfmv_x_w))
          else if funct3 == 1 then Some(FloatOther(kfclass_s)) else None
        else None
      else if funct7 == 113 then
        if funct5 == 0 then
          if funct3 == 0 then Some(FloatOther(kfmv_x_d))
          else if funct3 == 1 then Some(FloatOther(kfclass_d)) else None
        else None
      else if funct7 == 120 then
        if funct5 == 0 then
          if funct3 == 0 then Some(FloatOther(kfmv_w_x)) else None
        else None
      else if funct7 == 121 then
        if funct5 == 0 then
          if funct3 == 0 then Some(FloatOther(kfmv_d_x)) else None
        else None
      else None
    else None
  }

  function FdR4Opcode(opcode: nat, funct2: nat): Option<Opcode> {
    if opcode == 67 then
      if funct2 == 0 then Some(FloatOther(kfmadd_s)) else if funct2 == 1 then Some(FloatOther(kfmadd_d))
      else None
    else if opcode == 71 then
      if funct2 == 0 then Some(FloatOther(kfmsub_s)) else if funct2 == 1 then Some(FloatOther(kfmsub_d))
      else None
    else if opcode == 75 then
      if funct2 == 0 then Some(FloatOther(kfnmsub_s)) else if funct2 == 1 then Some(FloatOther(kfnmsub_d))
      else None
    else if opcode == 79 then
      if funct2 == 0 then Some(FloatOther(kfnmadd_s)) else if funct2 == 1 then Some(FloatOther(kfnmadd_d))
      else None
    else None
  }

  function FdIOpcode(opcode: nat, funct3: nat): Option<Opcode> {
    if opcode == 7 then
      if funct3 == 2 then Some(FloatOther(kflw)) else if funct3 == 3 then Some(FloatOther(kfld)) else None
    else None
  }

  function FdSOpcode(opcode: nat, funct3: nat): Option<Opcode> {
    if opcode == 39 then
      if funct3 == 2 then Some(FloatOther(kfsw)) else if funct3 == 3 then Some(FloatOther(kfsd)) else None
    else None
  }

  lemma {:induction false} TablesListed(op: Opcode)
    ensures Listed(EncodingOf(op))
  {
    match op
    case Register(o) => RegisterListed(o);
    case Narrow(o) => NarrowListed(o);
    case Packed(o) => PackedListed(o);
    case Immediate(o) => ImmediateListed(o);
    case Base(o) => BaseListed(o);
    case FloatPlain(o) => FloatPlainListed(o);
    case FloatRounded(o) => FloatRoundedListed(o);
    case FloatUnary(o) => FloatUnaryListed(o);
    case FloatOther(o) => FloatOtherListed(o);
  }

  lemma {:induction false} RegisterListed(op: RegisterOp)
    ensures Listed(RegisterEncoding(op))
  {
  }

  lemma {:induction false} NarrowListed(op: NarrowOp)
    ensures Listed(NarrowEncoding(op))
  {
  }

  lemma {:induction false} PackedListed(op: PackedOp)
    ensures Listed(PackedEncoding(op))
  {
  }

  lemma {:induction false} ImmediateListed(op: ImmediateOp)
    ensures Listed(ImmediateEncoding(op))
  {
  }

  lemma {:induction false} BaseListed(op: BaseOp)
    ensures Listed(BaseEncoding(op))
  {
  }

  lemma {:induction false} FloatPlainListed(op: FloatPlainOp)
    ensures Listed(FloatPlainEncoding(op))
  {
  }

  lemma {:induction false} FloatRoundedListed(op: FloatRoundedOp)
    ensures Listed(FloatRoundedEncoding(op))
  {
  }

  lemma {:induction false} FloatUnaryListed(op: FloatUnaryOp)
    ensures Listed(FloatUnaryEncoding(op))
  {
  }

  lemma {:induction false} FloatOtherListed(op: FloatOtherOp)
    ensures Listed(FloatOtherEncoding(op))
  {
  }

  /** No two mnemonics share a format and its fixed fields. */
  lemma {:induction false} TablesInvert(op: Opcode)
    ensures OpcodeOf(EncodingOf(op)) == Some(op)
  {
    match op
    case Register(o) => RegisterInverts(o);
    case Narrow(o) => NarrowInverts(o);
    case Packed(o) => PackedInverts(o);
    case Immediate(o) => ImmediateInverts(o);
    case Base(o) => BaseInverts(o);
    case FloatPlain(o) => FloatPlainInverts(o);
    case FloatRounded(o) => FloatRoundedInverts(o);
    case FloatUnary(o) => FloatUnaryInverts(o);
    case FloatOther(o) => FloatOtherInverts(o);
  }

  lemma {:induction false} RegisterInverts(op: RegisterOp)
    ensures OpcodeOf(RegisterEncoding(op)) == Some(Register(op))
  {
  }

  lemma {:induction false} NarrowInverts(op: NarrowOp)
    ensures OpcodeOf(NarrowEncoding(op)) == Some(Narrow(op))
  {
  }

  lemma {:induction false} PackedInverts(op: PackedOp)
    ensures OpcodeOf(PackedEncoding(op)) == Some(Packed(op))
  {
  }

  lemma {:induction false} ImmediateInverts(op: ImmediateOp)
    ensures OpcodeOf(ImmediateEncoding(op)) == Some(Immediate(op))
  {
  }

  lemma {:induction false} BaseInverts(op: BaseOp)
    ensures OpcodeOf(BaseEncoding(op)) == Some(Base(op))
  {
  }

  lemma {:induction false} FloatPlainInverts(op: FloatPlainOp)
    ensures OpcodeOf(FloatPlainEncoding(op)) == Some(FloatPlain(op))
  {
  }

  lemma {:induction false} FloatRoundedInverts(op: FloatRoundedOp)
    ensures OpcodeOf(FloatRoundedEncoding(op)) == Some(FloatRounded(op))
  {
  }

  lemma {:induction false} FloatUnaryInverts(op: FloatUnaryOp)
    ensures OpcodeOf(FloatUnaryEncoding(op)) == Some(FloatUnary(op))
  {
  }

  lemma {:induction false} FloatOtherInverts(op: FloatOtherOp)
    ensures OpcodeOf(FloatOtherEncoding(op)) == Some(FloatOther(op))
  {
  }
}
