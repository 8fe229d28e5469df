/** The machine `Cpu` holds and one call of `execute`: 31 stored registers
    (x0 is hard-wired to zero and not stored), the program counter and the
    flat byte memory the program was loaded into. `Execute` is called after
    the main loop has already advanced pc past the instruction, so pc - 4
    is the instruction's own address. A Rust panic (an access past the end
    of memory) is `None`. */
module Cpu {

  import opened Wrappers
  import opened Decoder
  import opened Dispatch
  import B = Bits
  import A = Alu
  import M = Memory

  /** The registers x1..x31; `regs[i - 1]` holds xi. */
  type Registers = r: seq<bv64> | |r| == 31 witness seq(31, _ => 0)

  datatype State = State(regs: Registers, pc: bv64, mem: M.Bytes)

  // ---------------------------------------------------------------------
  // Registers

  /** `read_gp_reg`: x0 reads as 0. */
  function ReadReg(regs: Registers, i: bv5): bv64
  {
    if i == 0 then 0 else regs[i as int - 1]
  }

  /** `write_gp_reg`: a write to x0 is dropped. */
  function WriteReg(regs: Registers, i: bv5, v: bv64): Registers
  {
    if i == 0 then regs else regs[i as int - 1 := v]
  }

  /** A read after a write sees the written value at the written register,
      unless that register is x0, and the old value everywhere else. */
  lemma ReadAfterWriteReg(regs: Registers, i: bv5, v: bv64, j: bv5)
    ensures ReadReg(WriteReg(regs, i, v), j) == if j == i && i != 0 then v else ReadReg(regs, j)
  {
  }

  /** The 32 architectural registers determine the stored ones: two
      register files that read alike everywhere are equal. */
  lemma {:induction false} RegistersExtensional(r1: Registers, r2: Registers)
    requires forall i: bv5 :: ReadReg(r1, i) == ReadReg(r2, i)
    ensures r1 == r2
  {
    forall k | 0 <= k < 31
      ensures r1[k] == r2[k]
    {
      var i := (k + 1) as bv5;
      assert ReadReg(r1, i) == ReadReg(r2, i);
    }
  }

  /** Writing a register back with the value it holds changes nothing. */
  lemma WriteRegSameValue(regs: Registers, i: bv5)
    ensures WriteReg(regs, i, ReadReg(regs, i)) == regs
  {
  }

  /** The state with register `rd` set to `v`. */
  function SetRd(s: State, rd: bv5, v: bv64): State
  {
    s.(regs := WriteReg(s.regs, rd, v))
  }

  // ---------------------------------------------------------------------
  // Memory accesses

  /** A read of `w` bytes at `a`: `read_u8` reads the byte; the wider reads
      follow the reading in force (the slice as written, or the intended
      little-endian read). */
  function LoadValue(sem: Semantics, mem: M.Bytes, a: bv64, w: M.Width): Option<bv64>
  {
    if sem == Isa then M.Read(mem, a as nat, w) else M.ReadAsWritten(mem, a as nat, w)
  }

  /** How a load widens what it read to 64 bits. */
  datatype Widening = Signed8 | Signed16 | Signed32 | Unsigned

  /** `as i8 as i64 as u64` and its 16- and 32-bit forms, or the plain
      zero-extending `as u64`. */
  function Extend(v: bv64, e: Widening): bv64
  {
    match e
    case Signed8 => B.Sext8(M.Low(v))
    case Signed16 => B.Sext16((v & 0xFFFF) as bv16)
    case Signed32 => B.Sext32(v)
    case Unsigned => v
  }

  /** A load arm: read, widen, write rd. */
  function Load(sem: Semantics, s: State, rd: bv5, a: bv64, w: M.Width, e: Widening): Option<State>
  {
    match LoadValue(sem, s.mem, a, w)
    case None => None
    case Some(v) => Some(SetRd(s, rd, Extend(v, e)))
  }

  /** A store arm: the low bytes of the value, little-endian. */
  function Store(s: State, a: bv64, w: M.Width, v: bv64): Option<State>
  {
    match M.Write(s.mem, a as nat, w, v)
    case None => None
    case Some(m) => Some(s.(mem := m))
  }

  // ---------------------------------------------------------------------
  // Control transfers

  /** The B-type offset: the decoder's as written, the ISA's otherwise. */
  function BranchOffset(sem: Semantics, ins: Instruction): bv64
  {
    if sem == AsWritten then BtImmediate(ins) else BtImmediateCorrected(ins)
  }

  /** The J-type offset: the decoder's as written, the ISA's otherwise. */
  function JumpOffset(sem: Semantics, ins: Instruction): bv64
  {
    if sem == AsWritten then JtImmediate(ins) else JtImmediateCorrected(ins)
  }

  /** The immediates an arm may use, decoded once per instruction: the
      I-, S-, B-, U- and J-type values, the B and J offsets as the reading
      in force decodes them. */
  datatype Immediates = Immediates(i: bv64, s: bv64, b: bv64, u: bv64, j: bv64)

  function ImmediatesOf(sem: Semantics, ins: Instruction): Immediates
  {
    Immediates(ItImmediate(ins), StImmediate(ins), BranchOffset(sem, ins), UtImmediate(ins), JumpOffset(sem, ins))
  }

  /** A branch arm: when taken, pc becomes the instruction's own address
      plus the offset; otherwise nothing changes. */
  function BranchIf(s: State, offset: bv64, taken: bool): Option<State>
    requires s.pc >= 4
  {
    if taken then Some(s.(pc := PcRelative(s.pc, offset))) else Some(s)
  }

  /** The address of the instruction being executed: pc has already moved
      4 past it. */
  function Here(next: bv64): bv64
  {
    next - 4
  }

  /** `address_from_bt` and `address_from_jt` as the branch and JAL arms
      apply them: to pc, which has already moved 4 past the instruction,
      less 4. */
  function PcRelative(next: bv64, offset: bv64): bv64
  {
    A.OffsetAddress(Here(next), offset)
  }

  /** The low six bits of a register, a 64-bit shift amount. */
  function Low6(x: bv64): bv6
  {
    (x & 0x3F) as bv6
  }

  /** The low five bits of a register, a 32-bit shift amount. */
  function Low5(x: bv64): bv5
  {
    (x & 0x1F) as bv5
  }

  /** The arms whose value depends on the reading are chosen here. */
  function Pick(sem: Semantics, asWritten: bv64, isa: bv64): bv64
  {
    if sem == AsWritten then asWritten else isa
  }

  // ---------------------------------------------------------------------
  // Kinds of arm

  /** What an arm does to the state. */
  datatype Kind = Computes | Loads | Stores | Branches | JumpAndLink | JumpRegister | DoesNothing

  function KindOf(op: Op): Kind
  {
    match op
    case Lb | Lh | Lw | Lbu | Lhu | Lwu | Ld => Loads
    case Sb | Sh | Sw | Sd => Stores
    case Beq | Bne | Blt | Bge | Bltu | Bgeu => Branches
    case Jal => JumpAndLink
    case Jalr => JumpRegister
    case Fence | Ecall | Ebreak | Extension | Unimplemented => DoesNothing
    case _ => Computes
  }

  /** The width and the widening of a load arm. */
  function LoadWidth(op: Op): M.Width
    requires KindOf(op) == Loads
  {
    match op
    case Lb => M.Byte
    case Lbu => M.Byte
    case Lh => M.Half
    case Lhu => M.Half
    case Lw => M.Word
    case Lwu => M.Word
    case Ld => M.Double
  }

  function LoadWidening(op: Op): Widening
    requires KindOf(op) == Loads
  {
    match op
    case Lb => Signed8
    case Lh => Signed16
    case Lw => Signed32
    case Lbu => Unsigned
    case Lhu => Unsigned
    case Lwu => Unsigned
    case Ld => Unsigned
  }

  /** The width of a store arm. */
  function StoreWidth(op: Op): M.Width
    requires KindOf(op) == Stores
  {
    match op
    case Sb => M.Byte
    case Sh => M.Half
    case Sw => M.Word
    case Sd => M.Double
  }

  /** The condition a branch arm tests: `==` and `!=` on the registers,
      `<` and `>=` on them read as `i64` (BLT, BGE) or as `u64` (BLTU,
      BGEU). */
  predicate Taken(op: Op, x1: bv64, x2: bv64)
    requires KindOf(op) == Branches
  {
    match op
    case Beq => x1 == x2
    case Bne => x1 != x2
    case Blt => B.Slt(x1, x2)
    case Bge => !B.Slt(x1, x2)
    case Bltu => x1 < x2
    case Bgeu => x1 >= x2
  }

  // ---------------------------------------------------------------------
  // execute

  /** The value a computing arm writes to rd, from x[rs1], x[rs2], the
      instruction's fields and, for AUIPC, its own address `here`. */
  function Value(sem: Semantics, op: Op, ins: Instruction, imm: Immediates, x1: bv64, x2: bv64, here: bv64): bv64
    requires KindOf(op) == Computes
  {
    match op
    // RV64M
    case Mulw => A.MulW(x1, x2)
    case Divw => A.DivW(x1, x2)
    case Divuw => Pick(sem, A.DivuwAsWritten(x1, x2), A.Divuw(x1, x2))
    case Remw => Pick(sem, A.RemwAsWritten(x1, x2), A.Remw(x1, x2))
    case Remuw => Pick(sem, A.RemuwAsWritten(x1, x2), A.Remuw(x1, x2))
    // RV32M
    case Mul => x1 * x2
    case Mulh => Pick(sem, A.MulhAsWritten(x1, x2), A.Mulh(x1, x2))
    case Mulhsu => Pick(sem, A.MulhsuAsWritten(x1, x2), A.Mulhsu(x1, x2))
    case Mulhu => A.Mulhu(x1, x2)
    case Div => A.Div(x1, x2)
    case Divu => A.Divu(x1, x2)
    case Rem => Pick(sem, A.RemAsWritten(x1, x2), A.Rem(x1, x2))
    case Remu => Pick(sem, A.RemuAsWritten(x1, x2), A.Remu(x1, x2))
    // RV64I
    case Addiw => A.AddiwAsWritten(x1, imm.i)
    case Slliw => A.SllW(x1, ins.rs2)
    case Srliw => Pick(sem, A.SrlwAsWritten(x1, ins.rs2), A.Srlw(x1, ins.rs2))
    case Sraiw => Pick(sem, A.SrawAsWritten(x1, ins.rs2), A.Sraw(x1, ins.rs2))
    case Addw => A.AddW(x1, x2)
    case Subw => A.SubW(x1, x2)
    case Sllw => A.SllW(x1, Low5(x2))
    case Srlw => Pick(sem, A.SrlwAsWritten(x1, Low5(x2)), A.Srlw(x1, Low5(x2)))
    case Sraw => Pick(sem, A.SrawAsWritten(x1, Low5(x2)), A.Sraw(x1, Low5(x2)))
    // RV32I
    case Lui => imm.u
    case Auipc => A.OffsetAddress(here, imm.u)
    case Addi => A.Add(x1, imm.i)
    case Slti => A.Flag(B.Slt(x1, imm.i))
    case Sltiu => Pick(sem, A.SltiuAsWritten(x1, imm.i), A.Flag(x1 < imm.i))
    case Xori => x1 ^ imm.i
    case Ori => x1 | imm.i
    case Andi => x1 & imm.i
    case Slli(k) => x1 << k
    case Srli(k) => x1 >> k
    case Srai(k) => B.Sra64(x1, k)
    case Add => A.Add(x1, x2)
    case Sub => x1 - x2
    case Sll => x1 << Low6(x2)
    case Slt => A.Flag(B.Slt(x1, x2))
    case Sltu => A.SltuAsWritten(ins.rs1, x1, x2)
    case Xor => x1 ^ x2
    case Srl => x1 >> Low6(x2)
    case Sra => B.Sra64(x1, Low6(x2))
    case Or => x1 | x2
    case And => x1 & x2
  }

  /** The body of arm `op` applied to the state. */
  function ExecuteArm(sem: Semantics, s: State, ins: Instruction, op: Op, imm: Immediates): Option<State>
    requires s.pc >= 4
  {
    var x1 := ReadReg(s.regs, ins.rs1);
    var x2 := ReadReg(s.regs, ins.rs2);
    match KindOf(op)
    case DoesNothing => Some(s)
    case Loads => Load(sem, s, ins.rd, A.OffsetAddress(x1, imm.i), LoadWidth(op), LoadWidening(op))
    case Stores => Store(s, A.OffsetAddress(x1, imm.s), StoreWidth(op), x2)
    case Branches => BranchIf(s, imm.b, Taken(op, x1, x2))
    case JumpAndLink => Some(SetRd(s, ins.rd, s.pc).(pc := PcRelative(s.pc, imm.j)))
    case JumpRegister =>
      // the target is computed before rd is written
      var target := A.OffsetAddress(x1, imm.i);
      Some(SetRd(s, ins.rd, s.pc).(pc := ClearLowBit(target)))
    case Computes => Some(SetRd(s, ins.rd, Value(sem, op, ins, imm, x1, x2, Here(s.pc))))
  }

  /** One call of `execute` on a decoded instruction: the body of the arm
      the match selects. */
  function Execute(sem: Semantics, s: State, ins: Instruction): Option<State>
    requires s.pc >= 4
  {
    ExecuteArm(sem, s, ins, Arm(sem, ins), ImmediatesOf(sem, ins))
  }

  // ---------------------------------------------------------------------
  // Construction and fetch

  /** `Cpu::new`: every register 0, pc 0, and the loaded binary as memory. */
  function New(binary: M.Bytes): (s: State)
    ensures forall i: bv5 :: ReadReg(s.regs, i) == 0
    ensures s.pc == 0 && s.mem == binary
  {
    State(seq(31, _ => 0), 0, binary)
  }

  /** The 32-bit word `fetch` reads at pc. */
  function FetchWord(sem: Semantics, s: State): Option<bv32>
  {
    match LoadValue(sem, s.mem, s.pc, M.Word)
    case None => None
    case Some(v) => Some(A.Lo32(v))
  }

  /** `fetch`: the 32-bit word at pc, decoded. */
  function Fetch(sem: Semantics, s: State): Option<Instruction>
  {
    match FetchWord(sem, s)
    case None => None
    case Some(w) => Some(Decode(w))
  }

  /** In the ISA's reading, fetch succeeds exactly when the four bytes at
      pc exist. */
  lemma FetchWordIsaSucceeds(s: State)
    ensures FetchWord(Isa, s).Some? <==> s.pc as int + 4 <= |s.mem|
  {
  }

  /** In the ISA's reading, the fetched word is the little-endian word held
      by the four bytes at pc, whose index is `a`. */
  lemma FetchWordIsa(s: State, a: nat, w: bv32)
    requires a == s.pc as nat && FetchWord(Isa, s) == Some(w)
    ensures a + 4 <= |s.mem|
    ensures w == (s.mem[a] as bv32) | ((s.mem[a + 1] as bv32) << 8)
                 | ((s.mem[a + 2] as bv32) << 16) | ((s.mem[a + 3] as bv32) << 24)
  {
    var v :| LoadValue(Isa, s.mem, s.pc, M.Word) == Some(v) && w == A.Lo32(v);
    M.ReadWordBytes(s.mem, a, v);
    Lo32OfBytes(s.mem[a], s.mem[a + 1], s.mem[a + 2], s.mem[a + 3]);
  }

  /** The low half of a zero-extended four-byte word is that word. */
  lemma Lo32OfBytes(b0: bv8, b1: bv8, b2: bv8, b3: bv8)
    ensures A.Lo32((b0 as bv64) | ((b1 as bv64) << 8) | ((b2 as bv64) << 16) | ((b3 as bv64) << 24))
      == (b0 as bv32) | ((b1 as bv32) << 8) | ((b2 as bv32) << 16) | ((b3 as bv32) << 24)
  {
  }

  /** As written, only the fetch at address 0 sees memory: there both
      readings agree; at address 4 (when at least four bytes are loaded) it
      reads the all-zero word, and beyond address 4 it panics. */
  lemma FetchWordAsWrittenAtZero(s: State)
    requires s.pc == 0
    ensures FetchWord(AsWritten, s) == FetchWord(Isa, s)
  {
    M.ReadAsWrittenAtZero(s.mem, M.Word);
  }

  lemma FetchWordAsWrittenAtFour(s: State)
    requires s.pc == 4
    ensures |s.mem| >= 4 ==> FetchWord(AsWritten, s) == Some(0)
  {
    M.ReadAsWrittenElsewhere(s.mem, 4, M.Word);
  }

  lemma FetchWordAsWrittenBeyondFour(s: State, a: nat)
    requires a == s.pc as nat && a > 4
    ensures FetchWord(AsWritten, s) == None
  {
    M.ReadAsWrittenElsewhere(s.mem, a, M.Word);
  }

  // ---------------------------------------------------------------------
  // What an instruction may change

  /** `r2` differs from `r1` at most in register `rd`: writing the value
      `r2` holds there into `r1` gives `r2`. */
  predicate WritesAtMost(r1: Registers, r2: Registers, rd: bv5)
  {
    r2 == WriteReg(r1, rd, ReadReg(r2, rd))
  }

  /** Every register other than rd keeps its value, and x0 stays 0. */
  lemma WritesAtMostKeepsOthers(r1: Registers, r2: Registers, rd: bv5, j: bv5)
    requires WritesAtMost(r1, r2, rd)
    ensures j != rd ==> ReadReg(r2, j) == ReadReg(r1, j)
    ensures rd == 0 ==> r2 == r1
  {
    ReadAfterWriteReg(r1, rd, ReadReg(r2, rd), j);
  }

  /** Only loads and stores can panic. */
  lemma OnlyMemoryArmsPanic(sem: Semantics, s: State, ins: Instruction, op: Op, imm: Immediates)
    requires s.pc >= 4
    ensures ExecuteArm(sem, s, ins, op, imm).None? ==> KindOf(op) in {Loads, Stores}
  {
    if KindOf(op) !in {Loads, Stores} {
      NonMemoryArmsSucceed(sem, s, ins, op, imm);
    }
  }

  lemma NonMemoryArmsSucceed(sem: Semantics, s: State, ins: Instruction, op: Op, imm: Immediates)
    requires s.pc >= 4 && KindOf(op) !in {Loads, Stores}
    ensures ExecuteArm(sem, s, ins, op, imm).Some?
  {
  }

  /** A computing arm writes rd and nothing else. */
  lemma ComputeFrame(sem: Semantics, s: State, ins: Instruction, op: Op, imm: Immediates, t: State)
    requires s.pc >= 4 && KindOf(op) == Computes && ExecuteArm(sem, s, ins, op, imm) == Some(t)
    ensures t.pc == s.pc && t.mem == s.mem
    ensures WritesAtMost(s.regs, t.regs, ins.rd)
  {
  }

  /** A load that does not panic writes rd and nothing else. */
  lemma LoadFrame(sem: Semantics, s: State, ins: Instruction, op: Op, imm: Immediates, t: State)
    requires s.pc >= 4 && KindOf(op) == Loads && ExecuteArm(sem, s, ins, op, imm) == Some(t)
    ensures t.pc == s.pc && t.mem == s.mem
    ensures WritesAtMost(s.regs, t.regs, ins.rd)
  {
  }

  /** A store that does not panic keeps pc, the registers and the length of
      memory. */
  lemma StoreFrame(sem: Semantics, s: State, ins: Instruction, op: Op, imm: Immediates, t: State)
    requires s.pc >= 4 && KindOf(op) == Stores && ExecuteArm(sem, s, ins, op, imm) == Some(t)
    ensures t.pc == s.pc && t.regs == s.regs
    ensures |t.mem| == |s.mem|
  {
    var a := A.OffsetAddress(ReadReg(s.regs, ins.rs1), imm.s);
    M.WriteFrame(s.mem, a as nat, StoreWidth(op), ReadReg(s.regs, ins.rs2));
  }

  /** A branch changes at most pc. */
  lemma BranchFrame(sem: Semantics, s: State, ins: Instruction, op: Op, imm: Immediates, t: State)
    requires s.pc >= 4 && KindOf(op) == Branches && ExecuteArm(sem, s, ins, op, imm) == Some(t)
    ensures t.regs == s.regs && t.mem == s.mem
  {
  }

  /** JAL and JALR write rd and pc and nothing else. */
  lemma JumpFrame(sem: Semantics, s: State, ins: Instruction, op: Op, imm: Immediates, t: State)
    requires s.pc >= 4 && KindOf(op) in {JumpAndLink, JumpRegister}
    requires ExecuteArm(sem, s, ins, op, imm) == Some(t)
    ensures t.mem == s.mem
    ensures WritesAtMost(s.regs, t.regs, ins.rd)
  {
  }

  /** The empty arms leave the whole state as it was. */
  lemma NoOpArmsChangeNothing(sem: Semantics, s: State, ins: Instruction, op: Op, imm: Immediates)
    requires s.pc >= 4 && KindOf(op) == DoesNothing
    ensures ExecuteArm(sem, s, ins, op, imm) == Some(s)
  {
  }

  /** What one instruction may change, whichever arm the match selects:
      only jumps and branches move pc, only stores touch memory (and never
      its length), and no arm writes a register other than rd. */
  lemma ExecuteFrame(sem: Semantics, s: State, ins: Instruction, op: Op, imm: Immediates, t: State)
    requires s.pc >= 4 && ExecuteArm(sem, s, ins, op, imm) == Some(t)
    ensures KindOf(op) !in {Branches, JumpAndLink, JumpRegister} ==> t.pc == s.pc
    ensures KindOf(op) != Stores ==> t.mem == s.mem
    ensures |t.mem| == |s.mem|
    ensures WritesAtMost(s.regs, t.regs, ins.rd)
    ensures KindOf(op) in {Branches, Stores, DoesNothing} ==> t.regs == s.regs
  {
    match KindOf(op)
    case DoesNothing => NoOpArmsChangeNothing(sem, s, ins, op, imm);
    case Loads => LoadFrame(sem, s, ins, op, imm, t);
    case Stores => StoreFrame(sem, s, ins, op, imm, t);
    case Branches => BranchFrame(sem, s, ins, op, imm, t);
    case JumpAndLink => JumpFrame(sem, s, ins, op, imm, t);
    case JumpRegister => JumpFrame(sem, s, ins, op, imm, t);
    case Computes => ComputeFrame(sem, s, ins, op, imm, t);
  }

  // ---------------------------------------------------------------------
  // What the arms compute

  /** A store followed by a load no wider than it at the same address
      gives back the stored value cut to the load's width, widened as the
      load widens; in the ISA's reading. */
  lemma LoadAfterStore(s: State, a: bv64, n: nat, w: M.Width, v: bv64, rd: bv5, w2: M.Width, e: Widening, t: State)
    requires n == a as nat && Store(s, a, w, v) == Some(t) && M.Size(w2) <= M.Size(w)
    ensures Load(Isa, t, rd, a, w2, e) == Some(SetRd(t, rd, Extend(M.Truncate(v, w2), e)))
  {
    M.ReadNarrowerAfterWrite(s.mem, n, w, v, w2);
  }

  /** As written, a load of two, four or eight bytes from any address but 0
      either panics or writes 0 (widened, still 0) to rd, whatever memory
      holds. */
  lemma LoadAsWrittenElsewhere(s: State, a: bv64, n: nat, w: M.Width, rd: bv5, e: Widening)
    requires n == a as nat && w != M.Byte && a != 0
    ensures Load(AsWritten, s, rd, a, w, e) == if n <= M.Size(w) <= |s.mem| then Some(SetRd(s, rd, 0)) else None
  {
    M.ReadAsWrittenElsewhere(s.mem, n, w);
    assert Extend(0, e) == 0;
  }

  /** A computing arm writes the value its operation computes to rd. */
  lemma ComputeArm(sem: Semantics, s: State, ins: Instruction, op: Op, imm: Immediates)
    requires s.pc >= 4 && KindOf(op) == Computes
    ensures ExecuteArm(sem, s, ins, op, imm)
      == Some(SetRd(s, ins.rd, Value(sem, op, ins, imm, ReadReg(s.regs, ins.rs1), ReadReg(s.regs, ins.rs2), Here(s.pc))))
  {
  }

  /** ADDI adds the I-type immediate to x[rs1], wrapping at 64 bits. */
  lemma AddiValue(sem: Semantics, ins: Instruction, imm: Immediates, x1: bv64, x2: bv64, here: bv64)
    ensures Value(sem, Addi, ins, imm, x1, x2, here) == A.Add(x1, imm.i)
  {
  }

  /** The ADDI arm writes x[rs1] plus the I-type immediate to rd. */
  lemma AddiArm(sem: Semantics, s: State, ins: Instruction, imm: Immediates)
    requires s.pc >= 4
    ensures ExecuteArm(sem, s, ins, Addi, imm) == Some(SetRd(s, ins.rd, A.Add(ReadReg(s.regs, ins.rs1), imm.i)))
  {
    ComputeArm(sem, s, ins, Addi, imm);
    AddiValue(sem, ins, imm, ReadReg(s.regs, ins.rs1), ReadReg(s.regs, ins.rs2), Here(s.pc));
  }

  /** LUI writes the U-type immediate. */
  lemma LuiArm(sem: Semantics, s: State, ins: Instruction, imm: Immediates)
    requires s.pc >= 4
    ensures ExecuteArm(sem, s, ins, Lui, imm) == Some(SetRd(s, ins.rd, imm.u))
  {
    ComputeArm(sem, s, ins, Lui, imm);
    LuiValue(sem, ins, imm, ReadReg(s.regs, ins.rs1), ReadReg(s.regs, ins.rs2), Here(s.pc));
  }

  lemma LuiValue(sem: Semantics, ins: Instruction, imm: Immediates, x1: bv64, x2: bv64, here: bv64)
    ensures Value(sem, Lui, ins, imm, x1, x2, here) == imm.u
  {
  }

  lemma AuipcValue(sem: Semantics, ins: Instruction, imm: Immediates, x1: bv64, x2: bv64, here: bv64)
    ensures Value(sem, Auipc, ins, imm, x1, x2, here) == A.OffsetAddress(here, imm.u)
  {
  }

  /** AUIPC writes `address_from_ut`: the U-type immediate added to the
      instruction's own address. */
  lemma AuipcArm(sem: Semantics, s: State, ins: Instruction, imm: Immediates)
    requires s.pc >= 4
    ensures ExecuteArm(sem, s, ins, Auipc, imm) == Some(SetRd(s, ins.rd, PcRelative(s.pc, imm.u)))
  {
    ComputeArm(sem, s, ins, Auipc, imm);
    AuipcValue(sem, ins, imm, ReadReg(s.regs, ins.rs1), ReadReg(s.regs, ins.rs2), Here(s.pc));
  }

  /** AUIPC writes the address of the AUIPC itself plus the U-type
      immediate, as the ISA defines it. */
  lemma AuipcWrites(sem: Semantics, s: State, ins: Instruction, imm: Immediates)
    requires s.pc >= 4
    ensures ExecuteArm(sem, s, ins, Auipc, imm) == Some(SetRd(s, ins.rd, RelativeTarget(s.pc, imm.u)))
  {
    AuipcArm(sem, s, ins, imm);
    RelativeTargetAgrees(s.pc, imm.u);
  }

  /** A load arm reads at the address `address_from_it` forms from x[rs1]
      and the I-type immediate. */
  lemma LoadArm(sem: Semantics, s: State, ins: Instruction, op: Op, imm: Immediates)
    requires s.pc >= 4 && KindOf(op) == Loads
    ensures ExecuteArm(sem, s, ins, op, imm)
      == Load(sem, s, ins.rd, A.OffsetAddress(ReadReg(s.regs, ins.rs1), imm.i), LoadWidth(op), LoadWidening(op))
  {
  }

  /** A store arm writes x[rs2] at the address `address_from_st` forms from
      x[rs1] and the S-type immediate. */
  lemma StoreArm(sem: Semantics, s: State, ins: Instruction, op: Op, imm: Immediates)
    requires s.pc >= 4 && KindOf(op) == Stores
    ensures ExecuteArm(sem, s, ins, op, imm)
      == Store(s, A.OffsetAddress(ReadReg(s.regs, ins.rs1), imm.s), StoreWidth(op), ReadReg(s.regs, ins.rs2))
  {
  }

  /** A load reads at x[rs1] plus the decoded I-type immediate, modulo
      2^64, with the width and widening of its arm. */
  lemma LoadAddress(sem: Semantics, s: State, ins: Instruction, op: Op)
    requires s.pc >= 4 && KindOf(op) == Loads
    ensures ExecuteArm(sem, s, ins, op, ImmediatesOf(sem, ins))
      == Load(sem, s, ins.rd, ReadReg(s.regs, ins.rs1) + ItImmediate(ins), LoadWidth(op), LoadWidening(op))
  {
    LoadArm(sem, s, ins, op, ImmediatesOf(sem, ins));
    A.OffsetAddressIsSum(ReadReg(s.regs, ins.rs1), ItImmediate(ins));
  }

  /** A store writes x[rs2] at x[rs1] plus the decoded S-type immediate,
      modulo 2^64, with the width of its arm. */
  lemma StoreAddress(sem: Semantics, s: State, ins: Instruction, op: Op)
    requires s.pc >= 4 && KindOf(op) == Stores
    ensures ExecuteArm(sem, s, ins, op, ImmediatesOf(sem, ins))
      == Store(s, ReadReg(s.regs, ins.rs1) + StImmediate(ins), StoreWidth(op), ReadReg(s.regs, ins.rs2))
  {
    StoreArm(sem, s, ins, op, ImmediatesOf(sem, ins));
    A.OffsetAddressIsSum(ReadReg(s.regs, ins.rs1), StImmediate(ins));
  }

  /** SB, SH, SW or SD followed by a load no wider than the store from the
      same effective address gives back the stored register cut to the
      load's width and widened as the load widens: SD then LD gives the
      register itself, SD then LB its low byte sign-extended. */
  lemma StoreThenLoad(s: State, st: Instruction, stOp: Op, stImm: Immediates, t: State,
                      ld: Instruction, ldOp: Op, ldImm: Immediates)
    requires s.pc >= 4 && KindOf(stOp) == Stores && KindOf(ldOp) == Loads
    requires M.Size(LoadWidth(ldOp)) <= M.Size(StoreWidth(stOp))
    requires ExecuteArm(Isa, s, st, stOp, stImm) == Some(t)
    requires A.OffsetAddress(ReadReg(t.regs, ld.rs1), ldImm.i) == A.OffsetAddress(ReadReg(s.regs, st.rs1), stImm.s)
    ensures t.pc >= 4
    ensures ExecuteArm(Isa, t, ld, ldOp, ldImm)
      == Some(SetRd(t, ld.rd, Extend(M.Truncate(ReadReg(s.regs, st.rs2), LoadWidth(ldOp)), LoadWidening(ldOp))))
  {
    StoreFrame(Isa, s, st, stOp, stImm, t);
    StoreArm(Isa, s, st, stOp, stImm);
    LoadArm(Isa, t, ld, ldOp, ldImm);
    var a := A.OffsetAddress(ReadReg(s.regs, st.rs1), stImm.s);
    LoadAfterStore(s, a, a as nat, StoreWidth(stOp), ReadReg(s.regs, st.rs2), ld.rd, LoadWidth(ldOp), LoadWidening(ldOp), t);
  }

  // ---------------------------------------------------------------------
  // Control transfers against the ISA

  /** The ISA's target of a pc-relative jump or branch: the address of the
      instruction itself (pc has already moved 4 past it) plus the offset,
      modulo 2^64. */
  function RelativeTarget(next: bv64, offset: bv64): bv64
  {
    (next - 4) + offset
  }

  /** The ISA's JALR target: x[rs1] plus the offset with bit 0 cleared. */
  function RegisterTarget(base: bv64, offset: bv64): bv64
  {
    ClearLowBit(base + offset)
  }

  /** `x` with bit 0 cleared, as JALR leaves its target. */
  function ClearLowBit(x: bv64): bv64
  {
    x & 0xFFFF_FFFF_FFFF_FFFE
  }

  predicate Even(x: bv64)
  {
    x & 1 == 0
  }

  /** `address_from_bt`/`address_from_jt` applied to pc - 4 compute the
      ISA's relative target. */
  lemma RelativeTargetAgrees(next: bv64, offset: bv64)
    ensures PcRelative(next, offset) == RelativeTarget(next, offset)
  {
    assert Here(next) == next - 4;
    A.OffsetAddressIsSum(next - 4, offset);
  }

  /** The JALR arm's masked `address_from_it` is the ISA's target. */
  lemma RegisterTargetAgrees(base: bv64, offset: bv64)
    ensures ClearLowBit(A.OffsetAddress(base, offset)) == RegisterTarget(base, offset)
  {
    A.OffsetAddressIsSum(base, offset);
  }

  /** Jumping through a register that holds an even address with offset 0
      lands on that address. */
  lemma RegisterTargetOfEven(x: bv64)
    requires Even(x)
    ensures RegisterTarget(x, 0) == x
  {
  }

  /** The branch arms as the code states them: pc moves by
      `address_from_bt` when the condition holds. */
  lemma BranchArm(sem: Semantics, s: State, ins: Instruction, op: Op, imm: Immediates, t: State)
    requires s.pc >= 4 && KindOf(op) == Branches && ExecuteArm(sem, s, ins, op, imm) == Some(t)
    ensures Taken(op, ReadReg(s.regs, ins.rs1), ReadReg(s.regs, ins.rs2)) ==> t.pc == PcRelative(s.pc, imm.b)
    ensures !Taken(op, ReadReg(s.regs, ins.rs1), ReadReg(s.regs, ins.rs2)) ==> t.pc == s.pc
  {
  }

  /** A branch moves pc to the branch's own address plus the offset exactly
      when its condition holds, and otherwise leaves pc at the next
      instruction. */
  lemma BranchTarget(sem: Semantics, s: State, ins: Instruction, op: Op, imm: Immediates, t: State)
    requires s.pc >= 4 && KindOf(op) == Branches && ExecuteArm(sem, s, ins, op, imm) == Some(t)
    ensures Taken(op, ReadReg(s.regs, ins.rs1), ReadReg(s.regs, ins.rs2)) ==> t.pc == RelativeTarget(s.pc, imm.b)
    ensures !Taken(op, ReadReg(s.regs, ins.rs1), ReadReg(s.regs, ins.rs2)) ==> t.pc == s.pc
  {
    BranchArm(sem, s, ins, op, imm, t);
    RelativeTargetAgrees(s.pc, imm.b);
  }

  /** The branch conditions against the ISA's: BLT and BGE compare as
      two's complement numbers, that is, as unsigned numbers once the sign
      bits are flipped; BLTU and BGEU compare unsigned. */
  lemma TakenReference(op: Op, x1: bv64, x2: bv64)
    requires KindOf(op) == Branches
    ensures Taken(op, x1, x2) <==>
      match op
      case Beq => x1 == x2
      case Bne => x1 != x2
      case Blt => x1 ^ 0x8000_0000_0000_0000 < x2 ^ 0x8000_0000_0000_0000
      case Bge => x1 ^ 0x8000_0000_0000_0000 >= x2 ^ 0x8000_0000_0000_0000
      case Bltu => x1 < x2
      case _ => x1 >= x2
  {
    A.SltBySignFlip(x1, x2);
  }

  /** The JAL arm as the code states it. */
  lemma JalArm(sem: Semantics, s: State, ins: Instruction, op: Op, imm: Immediates, t: State)
    requires s.pc >= 4 && KindOf(op) == JumpAndLink && ExecuteArm(sem, s, ins, op, imm) == Some(t)
    ensures t.pc == PcRelative(s.pc, imm.j)
  {
  }

  /** Both jumps link: rd receives pc, already moved past the jump. */
  lemma JumpLinks(sem: Semantics, s: State, ins: Instruction, op: Op, imm: Immediates, t: State)
    requires s.pc >= 4 && KindOf(op) in {JumpAndLink, JumpRegister} && ExecuteArm(sem, s, ins, op, imm) == Some(t)
    ensures t.regs == SetRd(s, ins.rd, s.pc).regs
  {
  }

  /** JAL writes the address of the next instruction to rd (x0 stays 0) and
      jumps to its own address plus the offset. */
  lemma JalLinks(sem: Semantics, s: State, ins: Instruction, op: Op, imm: Immediates, t: State)
    requires s.pc >= 4 && KindOf(op) == JumpAndLink && ExecuteArm(sem, s, ins, op, imm) == Some(t)
    ensures t.pc == RelativeTarget(s.pc, imm.j)
    ensures ReadReg(t.regs, ins.rd) == if ins.rd == 0 then 0 else s.pc
  {
    JalArm(sem, s, ins, op, imm, t);
    JumpLinks(sem, s, ins, op, imm, t);
    ReadAfterWriteReg(s.regs, ins.rd, s.pc, ins.rd);
    RelativeTargetAgrees(s.pc, imm.j);
  }

  /** The JALR arm as the code states it. */
  lemma JalrArm(sem: Semantics, s: State, ins: Instruction, op: Op, imm: Immediates, t: State)
    requires s.pc >= 4 && KindOf(op) == JumpRegister && ExecuteArm(sem, s, ins, op, imm) == Some(t)
    ensures t.pc == ClearLowBit(A.OffsetAddress(ReadReg(s.regs, ins.rs1), imm.i))
  {
  }

  /** JALR writes the address of the next instruction to rd and jumps to
      x[rs1] plus the offset with bit 0 cleared, x[rs1] being read before rd
      is written. */
  lemma JalrLinks(sem: Semantics, s: State, ins: Instruction, op: Op, imm: Immediates, t: State)
    requires s.pc >= 4 && KindOf(op) == JumpRegister && ExecuteArm(sem, s, ins, op, imm) == Some(t)
    ensures t.pc == RegisterTarget(ReadReg(s.regs, ins.rs1), imm.i)
    ensures ReadReg(t.regs, ins.rd) == if ins.rd == 0 then 0 else s.pc
  {
    JalrArm(sem, s, ins, op, imm, t);
    JumpLinks(sem, s, ins, op, imm, t);
    ReadAfterWriteReg(s.regs, ins.rd, s.pc, ins.rd);
    RegisterTargetAgrees(ReadReg(s.regs, ins.rs1), imm.i);
  }

  /** A call and its return: after a JAL that links into a register, any
      code that keeps that register and then runs JALR on it with offset 0
      resumes at the instruction following the JAL (whose address is even). */
  lemma CallReturn(sem: Semantics, s: State, call: Instruction, callOp: Op, callImm: Immediates, t: State,
                   r: State, ret: Instruction, retOp: Op, retImm: Immediates, u: State)
    requires s.pc >= 4 && Even(s.pc)
    requires KindOf(callOp) == JumpAndLink && call.rd != 0
    requires ExecuteArm(sem, s, call, callOp, callImm) == Some(t)
    requires r.pc >= 4 && ReadReg(r.regs, call.rd) == ReadReg(t.regs, call.rd)
    requires KindOf(retOp) == JumpRegister && ret.rs1 == call.rd && retImm.i == 0
    requires ExecuteArm(sem, r, ret, retOp, retImm) == Some(u)
    ensures u.pc == s.pc
  {
    JalLinks(sem, s, call, callOp, callImm, t);
    JalrLinks(sem, r, ret, retOp, retImm, u);
    RegisterTargetOfEven(s.pc);
  }
}
