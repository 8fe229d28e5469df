/** The encoding table: major opcodes and the funct3 / funct7 / funct12 /
    rs2 sub-codes the dispatcher compares against, as listed in chapter 24
    of the RISC-V Unprivileged ISA. Names follow the table's mnemonics; a
    sub-code is declared next to the opcode it refines. All codes are kept
    at the width of the decoded field they are compared with: 32-bit words
    for opcode and funct fields, 5-bit values for register fields. */
module Opcodes {

  import opened Wrappers

  // RV32I base instruction set
  const OP_LUI: bv32 := 0x37  // 0110111
  const OP_AUIPC: bv32 := 0x17  // 0010111
  const OP_JAL: bv32 := 0x6F  // 1101111
  const OP_JALR: bv32 := 0x67  // 1100111
  const OP_BR: bv32 := 0x63  // 1100011
    const F3_BEQ: bv32 := 0x00  // 000
    const F3_BNE: bv32 := 0x01  // 001
    const F3_BLT: bv32 := 0x04  // 100
    const F3_BGE: bv32 := 0x05  // 101
    const F3_BLTU: bv32 := 0x06  // 110
    const F3_BGEU: bv32 := 0x07  // 111
  const OP_LD: bv32 := 0x03  // 0000011
    const F3_LB: bv32 := 0x00  // 000
    const F3_LH: bv32 := 0x01  // 001
    const F3_LW: bv32 := 0x02  // 010
    const F3_LBU: bv32 := 0x04  // 100
    const F3_LHU: bv32 := 0x05  // 101
  const OP_ST: bv32 := 0x23  // 0100011
    const F3_SB: bv32 := 0x00  // 000
    const F3_SH: bv32 := 0x01  // 001
    const F3_SW: bv32 := 0x02  // 010
  const OP_MO1: bv32 := 0x13  // 0010011
    const F3_ADDI: bv32 := 0x00  // 000
    const F3_SLTI: bv32 := 0x02  // 010
    const F3_SLTIU: bv32 := 0x03  // 011
    const F3_XORI: bv32 := 0x04  // 100
    const F3_ORI: bv32 := 0x06  // 110
    const F3_ANDI: bv32 := 0x07  // 111
    const F3_SL: bv32 := 0x01  // 001
      const F7_SLLI: bv32 := 0x00  // 0000000
    const F3_SR: bv32 := 0x05  // 101
      const F7_SRLI: bv32 := 0x00  // 0000000
      const F7_SRAI: bv32 := 0x20  // 0100000
  const OP_MO2: bv32 := 0x33  // 0110011
    const F3_AS: bv32 := 0x00  // 000
      const F7_ADD: bv32 := 0x00  // 0000000
      const F7_SUB: bv32 := 0x20  // 0100000
    const F3_SLL: bv32 := 0x01  // 001
      const F7_SLL: bv32 := 0x00  // 0000000
    const F3_SLT: bv32 := 0x02  // 010
      const F7_SLT: bv32 := 0x00  // 0000000
    const F3_SLTU: bv32 := 0x03  // 011
      const F7_SLTU: bv32 := 0x00  // 0000000
    const F3_XOR: bv32 := 0x04  // 100
      const F7_XOR: bv32 := 0x00  // 0000000
    const F3_SR2: bv32 := 0x05  // 101
      const F7_SRL: bv32 := 0x00  // 0000000
      const F7_SRA: bv32 := 0x20  // 0100000
    const F3_OR: bv32 := 0x06  // 110
      const F7_OR: bv32 := 0x00  // 0000000
    const F3_AND: bv32 := 0x07  // 111
      const F7_AND: bv32 := 0x00  // 0000000
  const OP_MISC_MEM: bv32 := 0x0F  // 0001111
    const F3_FENCE: bv32 := 0x00  // 000
  const OP_SYSTEM: bv32 := 0x73  // 1110011
    const F3_SYS_PRIV: bv32 := 0x00  // 000
      const F12_ECALL: bv32 := 0x00  // 000000000000
      const F12_EBREAK: bv32 := 0x01  // 000000000001

  // RV64I additions
    const F3_LWU: bv32 := 0x06  // 110
    const F3_LD: bv32 := 0x03  // 011
    const F3_SD: bv32 := 0x03  // 011
  const OP_MO3: bv32 := 0x1B  // 0011011
    const F3_ADDIW: bv32 := 0x00  // 000
    const F3_SHL: bv32 := 0x01  // 001
      const F7_SLLIW: bv32 := 0x00  // 0000000
    const F3_SHR: bv32 := 0x05  // 101
      const F7_SRLIW: bv32 := 0x00  // 0000000
      const F7_SRAIW: bv32 := 0x20  // 0100000
  const OP_MO4: bv32 := 0x3B  // 0111011
    const F3_ASW: bv32 := 0x00  // 000
      const F7_ADDW: bv32 := 0x00  // 0000000
      const F7_SUBW: bv32 := 0x20  // 0100000
    const F3_SLLW: bv32 := 0x01  // 001
      const F7_SLLW: bv32 := 0x00  // 0000000
      const F7_SRLW: bv32 := 0x00  // 0000000
      const F7_SRAW: bv32 := 0x20  // 0100000

  // M extension (RV32M on OP_MO2, RV64M on OP_MO4)
    const F3_32_MUL: bv32 := 0x00  // 000
    const F3_32_MULH: bv32 := 0x01  // 001
    const F3_32_MULHSU: bv32 := 0x02  // 010
    const F3_32_MULHU: bv32 := 0x03  // 011
    const F3_32_DIV: bv32 := 0x04  // 100
    const F3_32_DIVU: bv32 := 0x05  // 101
    const F3_32_REM: bv32 := 0x06  // 110
    const F3_32_REMU: bv32 := 0x07  // 111
      const F7_M_EXT: bv32 := 0x01  // 0000001
    const F3_64_MULW: bv32 := 0x00  // 000
    const F3_64_DIVW: bv32 := 0x04  // 100
    const F3_64_DIVUW: bv32 := 0x05  // 101
    const F3_64_REMW: bv32 := 0x06  // 110
    const F3_64_REMUW: bv32 := 0x07  // 111

  // A extension: funct7 is funct5 followed by the aq and rl bits
  const EXT_A_F7_MASK: bv32 := 0x7C  // 1111100
  const OP_EXT_A: bv32 := 0x2F  // 0101111
    const F3_EXT_A32: bv32 := 0x02  // 010
      const F7_LR_W: bv32 := 0x08  // 0001000
        const RS2_LR_W: bv5 := 0x00  // 00000
      const F7_SC_W: bv32 := 0x0C  // 0001100
      const F7_AMOSWAP_W: bv32 := 0x04  // 0000100
      const F7_AMOADD_W: bv32 := 0x00  // 0000000
      const F7_AMOXOR_W: bv32 := 0x10  // 0010000
      const F7_AMOAND_W: bv32 := 0x30  // 0110000
      const F7_AMOOR_W: bv32 := 0x20  // 0100000
      const F7_AMOMIN_W: bv32 := 0x40  // 1000000
      const F7_AMOMAX_W: bv32 := 0x50  // 1010000
      const F7_AMOMINU_W: bv32 := 0x60  // 1100000
      const F7_AMOMAXU_W: bv32 := 0x70  // 1110000
    const F3_EXT_A64: bv32 := 0x03  // 011
      const F7_LR_D: bv32 := 0x08  // 0001000
        const RS2_LR_D: bv5 := 0x00  // 00000
      const F7_SC_D: bv32 := 0x0C  // 0001100
      const F7_AMOSWAP_D: bv32 := 0x04  // 0000100
      const F7_AMOADD_D: bv32 := 0x00  // 0000000
      const F7_AMOXOR_D: bv32 := 0x10  // 0010000
      const F7_AMOAND_D: bv32 := 0x30  // 0110000
      const F7_AMOOR_D: bv32 := 0x20  // 0100000
      const F7_AMOMIN_D: bv32 := 0x40  // 1000000
      const F7_AMOMAX_D: bv32 := 0x50  // 1010000
      const F7_AMOMINU_D: bv32 := 0x60  // 1100000
      const F7_AMOMAXU_D: bv32 := 0x70  // 1110000

  // F extension: the fused multiply-add opcodes carry a 2-bit fmt field in
  // the low bits of funct7, which RS3_MASK isolates
  const RS3_MASK: bv32 := 0x03  // 0000011
  const OP_FLW: bv32 := 0x07  // 0000111
  const OP_FSW: bv32 := 0x27  // 0100111
  const OP_FMADD_S: bv32 := 0x43  // 1000011
    const F7_FMADD_S: bv32 := 0x00  // 00
  const OP_FMSUB_S: bv32 := 0x47  // 1000111
    const F7_FMSUB_S: bv32 := 0x00  // 00
  const OP_FNMSUB_S: bv32 := 0x4B  // 1001011
    const F7_FNMSUB_S: bv32 := 0x00  // 00
  const OP_FNMADD_S: bv32 := 0x4F  // 1001111
    const F7_FNMADD_S: bv32 := 0x00  // 00
  const OP_RV_F: bv32 := 0x53  // 1010011
      const F7_FADD_S: bv32 := 0x00  // 0000000
      const F7_FSUB_S: bv32 := 0x04  // 0000100
      const F7_FMUL_S: bv32 := 0x08  // 0001000
      const F7_FDIV_S: bv32 := 0x0C  // 0001100
      const F7_FSQRT_S: bv32 := 0x2C  // 0101100
        const RS2_F7_FSQRT_S: bv5 := 0x00  // 00000
      const F7_FSGNJ: bv32 := 0x10  // 0010000
        const F3_FSGNJ_S: bv32 := 0x00  // 000
        const F3_FSGNJN_S: bv32 := 0x01  // 001
        const F3_FSGNJX_S: bv32 := 0x02  // 010
      const F7_FSMM: bv32 := 0x14  // 0010100
        const F3_FMIN_S: bv32 := 0x00  // 000
        const F3_FMAX_S: bv32 := 0x01  // 001
      const F7_FCVT_W: bv32 := 0x60  // 1100000
        const F3_FCVT_W_S: bv32 := 0x00  // 000
        const F3_FCVT_WU_S: bv32 := 0x01  // 001
    const F3_32_FMV: bv32 := 0x00  // 000
      const F7_FMV_X_W: bv32 := 0x70  // 1110000
        const RS2_FMV_X_W: bv5 := 0x00  // 00000
      const F7_FLE_S: bv32 := 0x50  // 1010000
      const F7_FMV_W_X: bv32 := 0x78  // 1111000
        const RS2_FMV_W_X: bv5 := 0x00  // 00000
    const F3_32_FE: bv32 := 0x02  // 010
      const F7_FEQ_S: bv32 := 0x50  // 1010000
    const F3_32_FLT: bv32 := 0x01  // 001
      const F7_FLT_S: bv32 := 0x50  // 1010000
    const F3_32_FC: bv32 := 0x01  // 001
      const F7_FCLASS_S: bv32 := 0x70  // 1110000
        const RS2_FCLASS_S: bv5 := 0x00  // 00000
      const F7_FCVT_S: bv32 := 0x68  // 1101000
        const F3_FCVT_S_W: bv32 := 0x00  // 000
        const F3_FCVT_S_WU: bv32 := 0x01  // 001
        const RS2_FCVT_L_S: bv5 := 0x02  // 00010
        const RS2_FCVT_LU_S: bv5 := 0x03  // 00011
        const RS2_FCVT_S_L: bv5 := 0x02  // 00010
        const RS2_FCVT_S_LU: bv5 := 0x03  // 00011

  // D extension
    const F3_FLD: bv32 := 0x03  // 011
    const F3_FSD: bv32 := 0x03  // 011
    const F7_FMADD_D: bv32 := 0x01  // 01
    const F7_FMSUB_D: bv32 := 0x01  // 01
    const F7_FNMSUB_D: bv32 := 0x01  // 01
    const F7_FNMADD_D: bv32 := 0x01  // 01
    const F7_FADD_D: bv32 := 0x01  // 0000001
    const F7_FSUB_D: bv32 := 0x05  // 0000101
    const F7_FMUL_D: bv32 := 0x09  // 0001001
    const F7_FDIV_D: bv32 := 0x0D  // 0001101
    const F7_FSQRT_D: bv32 := 0x2D  // 0101101
      const RS2_F7_FSQRT_D: bv5 := 0x00  // 00000
    const F7_FSGNJ_D: bv32 := 0x11  // 0010001
      const F3_FSGNJ_D: bv32 := 0x00  // 000
      const F3_FSGNJN_D: bv32 := 0x01  // 001
      const F3_FSGNJX_D: bv32 := 0x02  // 010
    const F7_FSMM_D: bv32 := 0x15  // 0010101
      const F3_FMIN_D: bv32 := 0x00  // 000
      const F3_FMAX_D: bv32 := 0x01  // 001
    const F7_FCVT_S_D: bv32 := 0x20  // 0100000
      const RS2_FCVT_S_D: bv5 := 0x01  // 00001
    const F7_FCVT_D_S: bv32 := 0x21  // 0100001
      const RS2_FCVT_D_S: bv5 := 0x00  // 00000
    const F7_F_QLT_D: bv32 := 0x51  // 1010001
      const F3_FEQ_D: bv32 := 0x02  // 010
      const F3_FLT_D: bv32 := 0x01  // 001
      const F3_FLE_D: bv32 := 0x00  // 000
    const F3_FCLASS_D: bv32 := 0x01  // 001
      const F7_FCLASS_D: bv32 := 0x71  // 1110001
        const RS2_FCLASS_D: bv5 := 0x00  // 00000
    const F7_FCVT1: bv32 := 0x61  // 1100001
      const RS2_FCVT_W_D: bv5 := 0x00  // 00000
      const RS2_FCVT_WU_D: bv5 := 0x01  // 00001
      const RS2_FCVT_L_D: bv5 := 0x02  // 00010
      const RS2_FCVT_LU_D: bv5 := 0x03  // 00011
    const F7_FCVT2: bv32 := 0x69  // 1101001
      const RS2_FCVT_D_W: bv5 := 0x00  // 00000
      const RS2_FCVT_D_WU: bv5 := 0x01  // 00001
      const RS2_FCVT_D_L: bv5 := 0x02  // 00010
      const RS2_FCVT_D_LU: bv5 := 0x03  // 00011
    const F3_FMV_X_D: bv32 := 0x02  // 010
      const F7_FMV_X_D: bv32 := 0x71  // 1110001
        const RS2_FMV_X_D: bv5 := 0x00  // 00000
    const F7_FMV_D_X: bv32 := 0x79  // 1111001
      const RS2_FMV_D_X: bv5 := 0x00  // 00000

  /** The major opcode groups of the ISA's opcode map that the dispatcher
      names, in ascending order of their codes. */
  datatype Major =
    | Load | LoadFp | MiscMem | OpImm | Auipc | OpImm32 | Store | StoreFp | Amo
    | Op | Lui | Op32 | Madd | Msub | Nmsub | Nmadd | OpFp | Branch | Jalr | Jal
    | System

  /** The 7-bit code of each group, as the constants above name it. */
  function Code(m: Major): bv32
  {
    match m
    case Load => OP_LD
    case LoadFp => OP_FLW
    case MiscMem => OP_MISC_MEM
    case OpImm => OP_MO1
    case Auipc => OP_AUIPC
    case OpImm32 => OP_MO3
    case Store => OP_ST
    case StoreFp => OP_FSW
    case Amo => OP_EXT_A
    case Op => OP_MO2
    case Lui => OP_LUI
    case Op32 => OP_MO4
    case Madd => OP_FMADD_S
    case Msub => OP_FMSUB_S
    case Nmsub => OP_FNMSUB_S
    case Nmadd => OP_FNMADD_S
    case OpFp => OP_RV_F
    case Branch => OP_BR
    case Jalr => OP_JALR
    case Jal => OP_JAL
    case System => OP_SYSTEM
  }

  /** The group an opcode field selects, if any. */
  function Group(opcode: bv32): Option<Major>
  {
    if opcode == OP_LD then Some(Load)
    else if opcode == OP_FLW then Some(LoadFp)
    else if opcode == OP_MISC_MEM then Some(MiscMem)
    else if opcode == OP_MO1 then Some(OpImm)
    else if opcode == OP_AUIPC then Some(Auipc)
    else if opcode == OP_MO3 then Some(OpImm32)
    else if opcode == OP_ST then Some(Store)
    else if opcode == OP_FSW then Some(StoreFp)
    else if opcode == OP_EXT_A then Some(Amo)
    else if opcode == OP_MO2 then Some(Op)
    else if opcode == OP_LUI then Some(Lui)
    else if opcode == OP_MO4 then Some(Op32)
    else if opcode == OP_FMADD_S then Some(Madd)
    else if opcode == OP_FMSUB_S then Some(Msub)
    else if opcode == OP_FNMSUB_S then Some(Nmsub)
    else if opcode == OP_FNMADD_S then Some(Nmadd)
    else if opcode == OP_RV_F then Some(OpFp)
    else if opcode == OP_BR then Some(Branch)
    else if opcode == OP_JALR then Some(Jalr)
    else if opcode == OP_JAL then Some(Jal)
    else if opcode == OP_SYSTEM then Some(System)
    else None
  }

  /** The integer (RV64IM) opcodes; the rest belong to the F, D and A
      extensions whose execution bodies are empty. */
  predicate IsIntegerOpcode(op: bv32)
  {
    op in {OP_LUI, OP_AUIPC, OP_JAL, OP_JALR, OP_BR, OP_LD, OP_ST, OP_MO1,
           OP_MO2, OP_MISC_MEM, OP_SYSTEM, OP_MO3, OP_MO4}
  }

  /** The AMO function codes (funct7 with aq/rl cleared), ascending. */
  const AMO_W_CODES: seq<bv32> :=
    [F7_AMOADD_W, F7_AMOSWAP_W, F7_LR_W, F7_SC_W, F7_AMOXOR_W, F7_AMOOR_W,
     F7_AMOAND_W, F7_AMOMIN_W, F7_AMOMAX_W, F7_AMOMINU_W, F7_AMOMAXU_W]
  const AMO_D_CODES: seq<bv32> :=
    [F7_AMOADD_D, F7_AMOSWAP_D, F7_LR_D, F7_SC_D, F7_AMOXOR_D, F7_AMOOR_D,
     F7_AMOAND_D, F7_AMOMIN_D, F7_AMOMAX_D, F7_AMOMINU_D, F7_AMOMAXU_D]

  /** No two entries of a code list are equal. */
  predicate Distinct(codes: seq<bv32>)
  {
    forall i, j :: 0 <= i < j < |codes| ==> codes[i] != codes[j]
  }

  /** Every major opcode is a 7-bit code whose low two bits are 11 (the mark
      of a 32-bit instruction), and reading the group back from the code
      gives the group again. */
  lemma MajorOpcodesWellFormed(m: Major)
    ensures Code(m) < 0x80 && Code(m) & 3 == 3
    ensures Group(Code(m)) == Some(m)
  {
  }

  /** No two groups share a code, so the opcode alone decides which group of
      dispatch arms can match. */
  lemma MajorOpcodesDistinct(m1: Major, m2: Major)
    requires m1 != m2
    ensures Code(m1) != Code(m2)
  {
    MajorOpcodesWellFormed(m1);
    MajorOpcodesWellFormed(m2);
  }

  /** Within each of the branch, load and store groups the funct3 codes are
      3-bit values and pairwise distinct (RV64I's LWU, LD and SD included). */
  lemma Funct3CodesDistinct()
    ensures Distinct([F3_BEQ, F3_BNE, F3_BLT, F3_BGE, F3_BLTU, F3_BGEU])
    ensures Distinct([F3_LB, F3_LH, F3_LW, F3_LD, F3_LBU, F3_LHU, F3_LWU])
    ensures Distinct([F3_SB, F3_SH, F3_SW, F3_SD])
    ensures forall c :: (c in [F3_BEQ, F3_BNE, F3_BLT, F3_BGE, F3_BLTU, F3_BGEU, F3_LB, F3_LH, F3_LW,
                               F3_LBU, F3_LHU, F3_LWU, F3_LD, F3_SB, F3_SH, F3_SW, F3_SD]) ==> c < 8
  {
  }

  /** The M extension's funct7 differs from every base funct7 used on the
      same opcodes, so multiply/divide arms and base arms never overlap. */
  lemma MulDivFunct7Separate()
    ensures F7_M_EXT !in {F7_ADD, F7_SUB, F7_SLL, F7_SLT, F7_SLTU, F7_XOR, F7_SRL, F7_SRA, F7_OR, F7_AND,
                          F7_ADDW, F7_SUBW, F7_SLLW, F7_SRLW, F7_SRAW}
  {
  }

  /** The shift-immediate funct7 codes are full 7-bit constants with bit 0
      clear; instruction bit 25, which RV64 uses as shamt[5], is that bit. */
  lemma ShiftImmediateFunct7Even()
    ensures forall c :: c in [F7_SLLI, F7_SRLI, F7_SRAI, F7_SLLIW, F7_SRLIW, F7_SRAIW] ==> c < 0x80 && c & 1 == 0
  {
  }

  /** EXT_A_F7_MASK keeps funct5 and clears exactly the aq and rl bits; the
      eleven AMO codes are distinct and already have those bits clear; the
      doubleword set equals the word set and only funct3 tells them apart. */
  lemma AtomicCodesWellFormed()
    ensures EXT_A_F7_MASK == 0x7F & !3
    ensures Distinct(AMO_W_CODES)
    ensures forall i :: 0 <= i < |AMO_W_CODES| ==> AMO_W_CODES[i] & 3 == 0 && AMO_W_CODES[i] & EXT_A_F7_MASK == AMO_W_CODES[i]
    ensures AMO_D_CODES == AMO_W_CODES && F3_EXT_A32 != F3_EXT_A64
  {
  }

  /** RS3_MASK isolates the 2-bit fmt field of the fused multiply-add
      encodings: single precision is 00 and double precision 01. */
  lemma FusedFormatCodes()
    ensures RS3_MASK == 3
    ensures forall c :: c in [F7_FMADD_S, F7_FMSUB_S, F7_FNMSUB_S, F7_FNMADD_S] ==> c == 0
    ensures forall c :: c in [F7_FMADD_D, F7_FMSUB_D, F7_FNMSUB_D, F7_FNMADD_D] ==> c == 1
  {
  }

  /** ECALL and EBREAK share opcode and funct3; only funct12 separates them. */
  lemma SystemCodesDistinct()
    ensures F12_ECALL != F12_EBREAK
  {
  }

  /** The double-precision funct7 codes are the single-precision ones with
      the fmt field (bit 0 of funct7) set to 01, as the D listing shows. */
  lemma DoubleFunct7IsSingleWithFmt()
    ensures F7_FADD_D == F7_FADD_S | 1 && F7_FSUB_D == F7_FSUB_S | 1
    ensures F7_FMUL_D == F7_FMUL_S | 1 && F7_FDIV_D == F7_FDIV_S | 1
    ensures F7_FSQRT_D == F7_FSQRT_S | 1 && F7_FSGNJ_D == F7_FSGNJ | 1 && F7_FSMM_D == F7_FSMM | 1
    ensures F7_FCVT1 == F7_FCVT_W | 1 && F7_FCVT2 == F7_FCVT_S | 1
    ensures F7_F_QLT_D == F7_FEQ_S | 1 && F7_FCLASS_D == F7_FCLASS_S | 1
    ensures F7_FMV_X_D == F7_FMV_X_W | 1 && F7_FMV_D_X == F7_FMV_W_X | 1
    ensures forall c :: (c in [F7_FADD_S, F7_FSUB_S, F7_FMUL_S, F7_FDIV_S, F7_FSQRT_S, F7_FSGNJ, F7_FSMM,
                               F7_FCVT_W, F7_FCVT_S, F7_FEQ_S, F7_FCLASS_S, F7_FMV_X_W, F7_FMV_W_X]) ==> c & 1 == 0
  {
  }
}
