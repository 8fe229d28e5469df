/** Which arm of the emulator's `execute` match a decoded instruction takes.
    The match looks at the triple (funct7, funct3, opcode), first at the arms
    of the F, D and A extensions (all of which do nothing), then at the
    RV64M, RV32M, RV64I and RV32I arms, then FENCE, ECALL and EBREAK, and
    finally a default arm that only logs. `Arm` names the arm taken.

    Two readings are kept side by side. `AsWritten` compares the fields the
    way the match does. `Isa` differs in the three places where the match
    reads a field the ISA lays out differently: the shift-immediate arms
    (RV64I keeps bit 5 of the shift amount in bit 25, which the match reads
    as part of funct7), the ECALL / EBREAK guard (which reads funct12
    through the decoder's shifted field), and the FMV.X.D arm (whose funct3
    constant is 010 where the ISA's encoding has 000). */
module Dispatch {

  import opened Opcodes
  import opened Decoder

  /** The two readings of the emulator: the code as written, and the code
      with the discrepancies against the ISA corrected. */
  datatype Semantics = AsWritten | Isa

  /** The arm an instruction takes. The shift-immediate arms carry the
      shift amount they read. */
  datatype Op =
    // RV64M
    | Mulw | Divw | Divuw | Remw | Remuw
    // RV32M
    | Mul | Mulh | Mulhsu | Mulhu | Div | Divu | Rem | Remu
    // RV64I
    | Lwu | Ld | Sd | Addiw | Slliw | Srliw | Sraiw
    | Addw | Subw | Sllw | Srlw | Sraw
    // RV32I
    | Lui | Auipc | Jal | Jalr
    | Beq | Bne | Blt | Bge | Bltu | Bgeu
    | Lb | Lh | Lw | Lbu | Lhu
    | Sb | Sh | Sw
    | Addi | Slti | Sltiu | Xori | Ori | Andi
    | Slli(shamt: bv6) | Srli(shamt: bv6) | Srai(shamt: bv6)
    | Add | Sub | Sll | Slt | Sltu | Xor | Srl | Sra | Or | And
    | Fence | Ecall | Ebreak
    // an arm of the F, D or A extension: its body is empty
    | Extension
    // the default arm: the instruction is logged and skipped
    | Unimplemented

  // The extension arms

  /** The RV32D arms, in source order. */
  predicate DoubleArm(sem: Semantics, ins: Instruction)
  {
    (ins.func7 == F3_FLD && ins.opcode == OP_FLW)
    || (ins.func7 == F3_FSD && ins.opcode == OP_FSW)
    || (ins.opcode == OP_FMADD_S && ins.func7 & RS3_MASK == F7_FMADD_D)
    || (ins.opcode == OP_FMSUB_S && ins.func7 & RS3_MASK == F7_FMSUB_D)
    || (ins.opcode == OP_FNMSUB_S && ins.func7 & RS3_MASK == F7_FNMSUB_D)
    || (ins.opcode == OP_FNMADD_S && ins.func7 & RS3_MASK == F7_FNMADD_D)
    || (ins.opcode == OP_RV_F && DoubleOpFpArm(sem, ins))
  }

  /** The RV32D and RV64D arms under the OP-FP opcode. */
  predicate DoubleOpFpArm(sem: Semantics, ins: Instruction)
  {
    ins.func7 in {F7_FADD_D, F7_FSUB_D, F7_FMUL_D, F7_FDIV_D}
    || (ins.func7 == F7_FSQRT_D && ins.rs2 == RS2_F7_FSQRT_D)
    || (ins.func7 == F7_FSGNJ_D && ins.func3 in {F3_FSGNJ_D, F3_FSGNJN_D, F3_FSGNJX_D})
    || (ins.func7 == F7_FSMM_D && ins.func3 in {F3_FMIN_D, F3_FMAX_D})
    || (ins.func7 == F7_FCVT_S_D && ins.rs2 == RS2_FCVT_S_D)
    || (ins.func7 == F7_FCVT_D_S && ins.rs2 == RS2_FCVT_D_S)
    || (ins.func7 == F7_F_QLT_D && ins.func3 in {F3_FEQ_D, F3_FLT_D, F3_FLE_D})
    || (ins.func7 == F7_FCLASS_D && ins.func3 == F3_FCLASS_D && ins.rs2 == RS2_FCLASS_D)
    || (ins.func7 == F7_FCVT1 && ins.rs2 in {RS2_FCVT_W_D, RS2_FCVT_WU_D, RS2_FCVT_L_D, RS2_FCVT_LU_D})
    || (ins.func7 == F7_FMV_X_D && ins.func3 == FmvXDFunct3(sem) && ins.rs2 == RS2_FMV_X_D)
    || (ins.func7 == F7_FCVT2 && ins.rs2 in {RS2_FCVT_D_W, RS2_FCVT_D_WU, RS2_FCVT_D_L, RS2_FCVT_D_LU})
    || (ins.func7 == F7_FMV_D_X && ins.rs2 == RS2_FMV_D_X)
  }

  /** The RV32F and RV64F arms, in source order. The load and store arms
      match every funct7. */
  predicate SingleArm(ins: Instruction)
  {
    ins.opcode == OP_FLW
    || ins.opcode == OP_FSW
    || (ins.opcode == OP_FMADD_S && ins.func7 & RS3_MASK == F7_FMADD_S)
    || (ins.opcode == OP_FMSUB_S && ins.func7 & RS3_MASK == F7_FMSUB_S)
    || (ins.opcode == OP_FNMSUB_S && ins.func7 & RS3_MASK == F7_FNMSUB_S)
    || (ins.opcode == OP_FNMADD_S && ins.func7 & RS3_MASK == F7_FNMADD_S)
    || (ins.opcode == OP_RV_F && SingleOpFpArm(ins))
  }

  /** The RV32F and RV64F arms under the OP-FP opcode. */
  predicate SingleOpFpArm(ins: Instruction)
  {
    ins.func7 in {F7_FADD_S, F7_FSUB_S, F7_FMUL_S, F7_FDIV_S}
    || (ins.func7 == F7_FSQRT_S && ins.rs2 == RS2_F7_FSQRT_S)
    || (ins.func7 == F7_FSGNJ && ins.func3 in {F3_FSGNJ_S, F3_FSGNJN_S, F3_FSGNJX_S})
    || (ins.func7 == F7_FSMM && ins.func3 in {F3_FMIN_S, F3_FMAX_S})
    || (ins.func7 == F7_FCVT_W && ins.func3 in {F3_FCVT_W_S, F3_FCVT_WU_S})
    || (ins.func7 == F7_FMV_X_W && ins.func3 == F3_32_FMV && ins.rs2 == RS2_FMV_X_W)
    || (ins.func7 == F7_FLE_S && ins.func3 == F3_32_FMV)
    || (ins.func7 == F7_FMV_W_X && ins.func3 == F3_32_FMV && ins.rs2 == RS2_FMV_W_X)
    || (ins.func7 == F7_FEQ_S && ins.func3 == F3_32_FE)
    || (ins.func7 == F7_FLT_S && ins.func3 == F3_32_FLT)
    || (ins.func7 == F7_FCLASS_S && ins.func3 == F3_32_FC && ins.rs2 == RS2_FCLASS_S)
    || (ins.func7 == F7_FCVT_S && ins.func3 in {F3_FCVT_S_W, F3_FCVT_S_WU})
    || (ins.func7 == F7_FCVT_W && ins.rs2 in {RS2_FCVT_L_S, RS2_FCVT_LU_S})
    || (ins.func7 == F7_FCVT_S && ins.rs2 in {RS2_FCVT_S_L, RS2_FCVT_S_LU})
  }

  /** The RV32A and RV64A arms: funct7 with the aq and rl bits masked off
      names the operation; LR also needs rs2 to be zero. */
  predicate AtomicArm(ins: Instruction)
  {
    ins.opcode == OP_EXT_A
    && ((ins.func3 == F3_EXT_A32
         && ((ins.func7 & EXT_A_F7_MASK == F7_LR_W && ins.rs2 == RS2_LR_W)
             || ins.func7 & EXT_A_F7_MASK in
                  {F7_SC_W, F7_AMOSWAP_W, F7_AMOADD_W, F7_AMOXOR_W, F7_AMOAND_W,
                   F7_AMOOR_W, F7_AMOMIN_W, F7_AMOMAX_W, F7_AMOMINU_W, F7_AMOMAXU_W}))
        || (ins.func3 == F3_EXT_A64
            && ((ins.func7 & EXT_A_F7_MASK == F7_LR_D && ins.rs2 == RS2_LR_D)
                || ins.func7 & EXT_A_F7_MASK in
                     {F7_SC_D, F7_AMOSWAP_D, F7_AMOADD_D, F7_AMOXOR_D, F7_AMOAND_D,
                      F7_AMOOR_D, F7_AMOMIN_D, F7_AMOMAX_D, F7_AMOMINU_D, F7_AMOMAXU_D})))
  }

  /** One of the (empty) extension arms matches. */
  predicate ExtensionArm(sem: Semantics, ins: Instruction)
  {
    DoubleArm(sem, ins) || SingleArm(ins) || AtomicArm(ins)
  }

  // The fields the two readings read differently

  /** The funct7 the shift-immediate arms compare: the decoded funct7 as
      written; bits 31..26 (with bit 25, the top bit of the shift amount,
      cleared) in the ISA's layout. */
  function ShiftFunct7(sem: Semantics, ins: Instruction): bv32
  {
    if sem == AsWritten then ins.func7 else ins.func7 & 0x7E
  }

  /** The shift amount of SLLI, SRLI and SRAI: the rs2 field as written;
      bits 25..20 in the ISA's layout. */
  function ShiftAmount(sem: Semantics, ins: Instruction): bv6
  {
    if sem == AsWritten then ins.rs2 as bv6
    else (((ins.func7 & 1) << 5) | (ins.rs2 as bv32)) as bv6
  }

  /** The funct3 the FMV.X.D arm compares: `F3_FMV_X_D___` (010) as
      written; 000, the funct3 of FMV.X.D in the ISA's encoding, in the
      other reading. */
  function FmvXDFunct3(sem: Semantics): bv32
  {
    if sem == AsWritten then F3_FMV_X_D else 0x00
  }

  /** The funct12 the ECALL and EBREAK guards compare. */
  function Funct12(sem: Semantics, ins: Instruction): bv32
  {
    if sem == AsWritten then ins.func12 else Func12Isa(ins.raw)
  }

  /** The arm taken: the first whose pattern and guard match, in the order
      of the match. */
  function Arm(sem: Semantics, ins: Instruction): Op
  {
    var f7 := ins.func7;
    var f3 := ins.func3;
    var op := ins.opcode;
    if ExtensionArm(sem, ins) then Extension
    // RV64M
    else if f7 == F7_M_EXT && f3 == F3_64_MULW && op == OP_MO4 then Mulw
    else if f7 == F7_M_EXT && f3 == F3_64_DIVW && op == OP_MO4 then Divw
    else if f7 == F7_M_EXT && f3 == F3_64_DIVUW && op == OP_MO4 then Divuw
    else if f7 == F7_M_EXT && f3 == F3_64_REMW && op == OP_MO4 then Remw
    else if f7 == F7_M_EXT && f3 == F3_64_REMUW && op == OP_MO4 then Remuw
    // RV32M
    else if f7 == F7_M_EXT && f3 == F3_32_MUL && op == OP_MO2 then Mul
    else if f7 == F7_M_EXT && f3 == F3_32_MULH && op == OP_MO2 then Mulh
    else if f7 == F7_M_EXT && f3 == F3_32_MULHSU && op == OP_MO2 then Mulhsu
    else if f7 == F7_M_EXT && f3 == F3_32_MULHU && op == OP_MO2 then Mulhu
    else if f7 == F7_M_EXT && f3 == F3_32_DIV && op == OP_MO2 then Div
    else if f7 == F7_M_EXT && f3 == F3_32_DIVU && op == OP_MO2 then Divu
    else if f7 == F7_M_EXT && f3 == F3_32_REM && op == OP_MO2 then Rem
    else if f7 == F7_M_EXT && f3 == F3_32_REMU && op == OP_MO2 then Remu
    // RV64I
    else if f3 == F3_LWU && op == OP_LD then Lwu
    else if f3 == F3_LD && op == OP_LD then Ld
    else if f3 == F3_SD && op == OP_ST then Sd
    else if f3 == F3_ADDIW && op == OP_MO3 then Addiw
    else if f7 == F7_SLLIW && f3 == F3_SHL && op == OP_MO3 then Slliw
    else if f7 == F7_SRLIW && f3 == F3_SHR && op == OP_MO3 then Srliw
    else if f7 == F7_SRAIW && f3 == F3_SHR && op == OP_MO3 then Sraiw
    else if f7 == F7_ADDW && f3 == F3_ASW && op == OP_MO4 then Addw
    else if f7 == F7_SUBW && f3 == F3_ASW && op == OP_MO4 then Subw
    else if f7 == F7_SLLW && f3 == F3_SLLW && op == OP_MO4 then Sllw
    else if f7 == F7_SRLW && f3 == F3_SHR && op == OP_MO4 then Srlw
    else if f7 == F7_SRAW && f3 == F3_SHR && op == OP_MO4 then Sraw
    // RV32I
    else if op == OP_LUI then Op.Lui
    else if op == OP_AUIPC then Op.Auipc
    else if op == OP_JAL then Op.Jal
    else if op == OP_JALR then Op.Jalr
    else if f3 == F3_BEQ && op == OP_BR then Beq
    else if f3 == F3_BNE && op == OP_BR then Bne
    else if f3 == F3_BLT && op == OP_BR then Blt
    else if f3 == F3_BGE && op == OP_BR then Bge
    else if f3 == F3_BLTU && op == OP_BR then Bltu
    else if f3 == F3_BGEU && op == OP_BR then Bgeu
    else if f3 == F3_LB && op == OP_LD then Lb
    else if f3 == F3_LH && op == OP_LD then Lh
    else if f3 == F3_LW && op == OP_LD then Lw
    else if f3 == F3_LBU && op == OP_LD then Lbu
    else if f3 == F3_LHU && op == OP_LD then Lhu
    else if f3 == F3_SB && op == OP_ST then Sb
    else if f3 == F3_SH && op == OP_ST then Sh
    else if f3 == F3_SW && op == OP_ST then Sw
    else if f3 == F3_ADDI && op == OP_MO1 then Addi
    else if f3 == F3_SLTI && op == OP_MO1 then Slti
    else if f3 == F3_SLTIU && op == OP_MO1 then Sltiu
    else if f3 == F3_XORI && op == OP_MO1 then Xori
    else if f3 == F3_ORI && op == OP_MO1 then Ori
    else if f3 == F3_ANDI && op == OP_MO1 then Andi
    else if ShiftFunct7(sem, ins) == F7_SLLI && f3 == F3_SL && op == OP_MO1 then Slli(ShiftAmount(sem, ins))
    else if ShiftFunct7(sem, ins) == F7_SRLI && f3 == F3_SR && op == OP_MO1 then Srli(ShiftAmount(sem, ins))
    else if ShiftFunct7(sem, ins) == F7_SRAI && f3 == F3_SR && op == OP_MO1 then Srai(ShiftAmount(sem, ins))
    else if f7 == F7_ADD && f3 == F3_AS && op == OP_MO2 then Add
    else if f7 == F7_SUB && f3 == F3_AS && op == OP_MO2 then Sub
    else if f7 == F7_SLL && f3 == F3_SLL && op == OP_MO2 then Sll
    else if f7 == F7_SLT && f3 == F3_SLT && op == OP_MO2 then Slt
    else if f7 == F7_SLTU && f3 == F3_SLTU && op == OP_MO2 then Sltu
    else if f7 == F7_XOR && f3 == F3_XOR && op == OP_MO2 then Xor
    else if f7 == F7_SRL && f3 == F3_SR2 && op == OP_MO2 then Srl
    else if f7 == F7_SRA && f3 == F3_SR2 && op == OP_MO2 then Sra
    else if f7 == F7_OR && f3 == F3_OR && op == OP_MO2 then Or
    else if f7 == F7_AND && f3 == F3_AND && op == OP_MO2 then And
    else if f3 == F3_FENCE && op == OP_MISC_MEM then Fence
    else if f3 == F3_SYS_PRIV && op == OP_SYSTEM && Funct12(sem, ins) == F12_ECALL then Ecall
    else if f3 == F3_SYS_PRIV && op == OP_SYSTEM && Funct12(sem, ins) == F12_EBREAK then Ebreak
    else Unimplemented
  }

  // Routing

  /** Each extension arm matches only opcodes of its own extension. */
  lemma ExtensionArmOpcodes(sem: Semantics, ins: Instruction)
    ensures DoubleArm(sem, ins) || SingleArm(ins) ==>
      ins.opcode in {OP_FLW, OP_FSW, OP_FMADD_S, OP_FMSUB_S, OP_FNMSUB_S, OP_FNMADD_S, OP_RV_F}
    ensures AtomicArm(ins) ==> ins.opcode == OP_EXT_A
  {
  }

  /** So the extension arms never shadow an integer arm. */
  lemma ExtensionArmsNotInteger(sem: Semantics, ins: Instruction)
    ensures ExtensionArm(sem, ins) ==> !IsIntegerOpcode(ins.opcode)
  {
    ExtensionArmOpcodes(sem, ins);
  }

  /** An integer opcode never reaches an extension arm. */
  lemma IntegerOpcodesSkipExtensionArms(sem: Semantics, ins: Instruction)
    requires IsIntegerOpcode(ins.opcode)
    ensures Arm(sem, ins) != Extension
  {
    ExtensionArmsNotInteger(sem, ins);
  }

  /** Every other opcode reaches an extension arm or the default arm. */
  lemma OtherOpcodesAreExtensionOrDefault(sem: Semantics, ins: Instruction)
    requires !IsIntegerOpcode(ins.opcode)
    ensures Arm(sem, ins) == Extension || Arm(sem, ins) == Unimplemented
  {
  }

  /** The two readings take the same arm except for the shift-immediate
      arms, the ECALL / EBREAK arms and the FMV.X.D arm. */
  lemma ReadingsDifferOnlyInShiftsAndSystem(ins: Instruction)
    requires Arm(AsWritten, ins) != Arm(Isa, ins)
    ensures (ins.opcode == OP_MO1 && ins.func3 in {F3_SL, F3_SR})
         || (ins.opcode == OP_SYSTEM && ins.func3 == F3_SYS_PRIV)
         || (ins.opcode == OP_RV_F && ins.func7 == F7_FMV_X_D)
  {
    if !(ins.opcode == OP_RV_F && ins.func7 == F7_FMV_X_D) {
      ReadingsDifferOutsideFmv(ins);
    }
  }

  lemma ReadingsDifferOutsideFmv(ins: Instruction)
    requires !(ins.opcode == OP_RV_F && ins.func7 == F7_FMV_X_D)
    requires Arm(AsWritten, ins) != Arm(Isa, ins)
    ensures (ins.opcode == OP_MO1 && ins.func3 in {F3_SL, F3_SR})
         || (ins.opcode == OP_SYSTEM && ins.func3 == F3_SYS_PRIV)
  {
    ExtensionReadingsAgree(ins);
  }

  /** Away from the FMV.X.D encoding the extension arms match the same
      words in both readings. */
  lemma ExtensionReadingsAgree(ins: Instruction)
    requires !(ins.opcode == OP_RV_F && ins.func7 == F7_FMV_X_D)
    ensures ExtensionArm(AsWritten, ins) == ExtensionArm(Isa, ins)
  {
  }

  /** For a shift amount below 32 (bit 25 of the word clear) the two
      readings of the shift-immediate fields agree. */
  lemma ShiftFieldsAgreeBelow32(raw: bv32)
    requires raw & 0x0200_0000 == 0
    ensures ShiftFunct7(AsWritten, Decode(raw)) == ShiftFunct7(Isa, Decode(raw))
    ensures ShiftAmount(AsWritten, Decode(raw)) == ShiftAmount(Isa, Decode(raw))
    ensures ShiftAmount(Isa, Decode(raw)) as bv32 == (raw >> 20) & 0x3F
  {
  }

  /** So outside SYSTEM, a word whose bit 25 is clear takes the same arm in
      both readings. */
  lemma ReadingsAgreeBelow32(raw: bv32)
    requires raw & 0x0200_0000 == 0
    requires Decode(raw).opcode != OP_SYSTEM
    ensures Arm(AsWritten, Decode(raw)) == Arm(Isa, Decode(raw))
  {
    ShiftFieldsAgreeBelow32(raw);
    if Arm(AsWritten, Decode(raw)) != Arm(Isa, Decode(raw)) {
      ReadingsDifferOnlyInShiftsAndSystem(Decode(raw));
    }
  }

  /** `slli x1, x1, 32` (0x02009093) and `srai x1, x1, 33` (0x4210d093):
      RV64I shift amounts of 32 and more set bit 25, which the match reads
      as funct7, so as written both fall to the default arm. */
  lemma WideShiftImmediates()
    ensures Arm(AsWritten, Decode(0x0200_9093)) == Unimplemented
    ensures Arm(Isa, Decode(0x0200_9093)) == Slli(32)
    ensures Arm(AsWritten, Decode(0x4210_D093)) == Unimplemented
    ensures Arm(Isa, Decode(0x4210_D093)) == Srai(33)
  {
  }

  /** EBREAK (0x00100073) takes the ECALL arm as written. */
  lemma EbreakTakesEcallArm()
    ensures Arm(AsWritten, Decode(0x0010_0073)) == Ecall
    ensures Arm(Isa, Decode(0x0010_0073)) == Ebreak
    ensures Arm(AsWritten, Decode(0x0000_0073)) == Ecall
    ensures Arm(Isa, Decode(0x0000_0073)) == Ecall
  {
  }

  /** Under OP-FP with funct7 1110001 and rs2 0 the D extension has two
      instructions: FCLASS.D (funct3 001) and FMV.X.D (funct3 000). As
      written the match accepts 001 and 010 instead, so a real FMV.X.D
      falls to the default arm; the ISA reading accepts exactly the two
      encodings. */
  lemma FmvXDReadings(ins: Instruction)
    requires ins.opcode == OP_RV_F && ins.func7 == F7_FMV_X_D && ins.rs2 == RS2_FMV_X_D
    ensures Arm(AsWritten, ins) == Extension <==> ins.func3 in {0x01, 0x02}
    ensures Arm(Isa, ins) == Extension <==> ins.func3 in {0x00, 0x01}
    ensures Arm(AsWritten, ins) != Extension ==> Arm(AsWritten, ins) == Unimplemented
    ensures Arm(Isa, ins) != Extension ==> Arm(Isa, ins) == Unimplemented
  {
    FmvXDReading(AsWritten, ins);
    FmvXDReading(Isa, ins);
  }

  /** One reading at a time: the extension arm fires exactly when funct3
      is FCLASS.D's or the reading's FMV.X.D funct3. */
  lemma FmvXDReading(sem: Semantics, ins: Instruction)
    requires ins.opcode == OP_RV_F && ins.func7 == F7_FMV_X_D && ins.rs2 == RS2_FMV_X_D
    ensures Arm(sem, ins) == Extension <==> ins.func3 in {F3_FCLASS_D, FmvXDFunct3(sem)}
    ensures Arm(sem, ins) != Extension ==> Arm(sem, ins) == Unimplemented
  {
  }

  /** `fmv.x.d x1, f2` (0xE20100D3) takes the default arm as written and
      the FMV.X.D arm in the ISA reading. */
  lemma FmvXDExample()
    ensures Arm(AsWritten, Decode(0xE201_00D3)) == Unimplemented
    ensures Arm(Isa, Decode(0xE201_00D3)) == Extension
  {
  }

  /** Some encodings and the arms they take: `add x3, x1, x2`,
      `mul x3, x1, x2`, `addi x1, x0, 1`, `addi x1, x1, 1`, `fadd.d f1, f2, f3`, and the
      all-zero word, which has opcode 0 and is no instruction. */
  lemma AddExample(sem: Semantics)
    ensures Arm(sem, Decode(0x0020_81B3)) == Add
  {
  }

  lemma MulExample(sem: Semantics)
    ensures Arm(sem, Decode(0x0220_81B3)) == Mul
  {
  }

  lemma AddiExample(sem: Semantics)
    ensures Arm(sem, Decode(0x0010_0093)) == Addi
  {
  }

  lemma AddiIncrementExample(sem: Semantics)
    ensures Arm(sem, Decode(0x0010_8093)) == Addi
  {
  }

  lemma FaddDExample(sem: Semantics)
    ensures Arm(sem, Decode(0x0231_00D3)) == Extension
  {
  }

  lemma ZeroWordExample(sem: Semantics)
    ensures Arm(sem, Decode(0)) == Unimplemented
  {
  }
}
