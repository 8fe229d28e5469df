# RV64IM decode-and-execute core, modelled in Dafny

This project models the instruction engine of a small 64-bit RISC-V emulator.
The emulator runs RV64I plus the M extension; F, D and A encodings are
recognised but do nothing. It covers:

- the field decoder and the five immediate accessors (`Instruction::new`,
  `decode_immediate_signed`, `it_/st_/bt_/ut_/jt_immediate`);
- the encoding constants the dispatcher matches on;
- the machine state with its byte memory and register file (`read_u*`,
  `write_u*`, `read_gp_reg`, `write_gp_reg`);
- the `address_from_*` helpers, `fetch`, every arm of the `execute` match;
- the driver loop: fetch, `pc += 4`, execute, while pc is inside memory.

Every value is a bit-vector (`bv32`/`bv64`, `bv128` for the high-product
multiplies), so the emulator's `wrapping_*` arithmetic and its `as`
conversions are modelled exactly.

In several places the code departs from the RISC-V Unprivileged ISA. The
model therefore takes a `Semantics` parameter with two readings:

- `AsWritten` follows the code line for line, including its slips;
- `Isa` replaces each slip by the rule of the ISA.

Lemmas state where the two readings agree and give concrete inputs where
they do not (see "## Findings").

Modules, one per component:

- `Bits`: bit slices and sign extension from 8, 16 and 32 bits; 64-bit
  arithmetic right shift.
- `Opcodes`: the constants of `opcodes.rs` and the disjointness and masking
  facts the dispatcher relies on.
- `Decoder`: `Instruction::new`, `FieldMask`, `decode_immediate_signed`, the
  immediate accessors, the ISA's immediate layouts, and encoders (`PlaceI` ..
  `PlaceJ`) for the round trips.
- `Memory`: little-endian byte encoding, `read_u*`/`write_u*` and their
  frame laws. `ReadAsWritten` is the slice `[a..size]` the multi-byte reads
  actually take.
- `Alu`: the value of every computing arm, as written and as the ISA says.
- `Dispatch`: the ordered `match` on `(func7, func3, opcode)` with its
  guards, as a function `Arm` into the datatype `Op`, with the arms in
  source order.
- `Cpu`: the state (31 stored registers, x0 hard-wired; pc; memory),
  `Cpu::new`, `fetch` and the body of every arm (`ExecuteArm`, `Execute`).
- `Machine`: one trip round the driver loop (`Step`), the loop itself with
  a fuel bound (`Run`), and a two-instruction program run under both
  readings.

A Rust panic (an index past the end of memory, a slice that starts after
its end) is `None`, and for the loop `Panicked`. `execute` always runs after
`pc += 4`, so `ExecuteArm` requires pc >= 4 and takes pc - 4 as the address
of the instruction. Two of the code's departures from the RISC-V
Unprivileged ISA shape everything downstream:

- Section 2.3 of the RISC-V Unprivileged ISA sign-extends the B and J
  immediates from 13 and 21 bits; the code passes 20 for both.
- The ISA's fetch reads the 4 bytes at pc; `read_u32` reads the slice
  `[pc..4]`. `Machine.CountToTwoRuns` shows the effect on a two-ADDI
  program.

## Model

| member | source | states |
|---|---|---|
| Bits.Sext8Extends | src/cpu/cpu.rs:1117-1122 | `as i8 as i64 as u64` keeps the byte and copies bit 7 into bits 63..8 (LB) |
| Bits.Sext16Extends | src/cpu/cpu.rs:1124-1129 | `as i16 as i64 as u64` keeps the half-word and copies bit 15 upward (LH) |
| Bits.Sext32Extends | src/cpu/cpu.rs:1131-1136 | `as i32 as i64 as u64` keeps the low word and copies bit 31 upward (LW and every W result) |
| Bits.Sext32Idempotent | src/cpu/instruction.rs:38 | the 32-to-64 sign extension yields a value that is already sign-extended: applying it twice changes nothing |
| Bits.Sra64KeepsSign | src/cpu/cpu.rs:1252-1259 | SRAI's `i64 >>` keeps the sign of the operand for every shift amount |
| Bits.Sra64NonNegative | src/cpu/cpu.rs:1326-1335 | on a non-negative value the arithmetic shift of SRA equals the logical shift |
| Bits.Sra64FillsWithOnes | src/cpu/cpu.rs:1326-1335 | on a negative value the k vacated high bits of SRA are all ones |
| Opcodes.MajorOpcodesWellFormed | src/cpu/opcodes.rs:4-250 | every major opcode is a 7-bit value ending in 0b11, and decoding its code gives the opcode back |
| Opcodes.MajorOpcodesDistinct | src/cpu/opcodes.rs:4-250 | no two major opcodes (LUI .. RV_F) share a code |
| Opcodes.Funct3CodesDistinct | src/cpu/opcodes.rs:9-24 | the six branch, seven load and four store funct3 codes are distinct within their group and below 8 |
| Opcodes.MulDivFunct7Separate | src/cpu/opcodes.rs:39-110 | F7_M_EXT differs from every base funct7 on OP_MO2/OP_MO4, so the M arms and base arms cannot overlap |
| Opcodes.ShiftImmediateFunct7Even | src/cpu/opcodes.rs:33-83 | the six shift-immediate funct7 values are 7-bit with bit 0 clear, so instruction bit 25 (RV64 shamt[5]) defeats the exact match |
| Opcodes.AtomicCodesWellFormed | src/cpu/opcodes.rs:152-184 | EXT_A_F7_MASK clears exactly aq/rl; the eleven AMO codes are distinct with low bits 0; the .W and .D sets differ only in funct3 |
| Opcodes.FusedFormatCodes | src/cpu/opcodes.rs:237-250 | RS3_MASK isolates the 2-bit fmt field: fused multiplies have fmt 0b00 for S and 0b01 for D |
| Opcodes.SystemCodesDistinct | src/cpu/opcodes.rs:58-61 | F12_ECALL and F12_EBREAK differ |
| Opcodes.DoubleFunct7IsSingleWithFmt | src/cpu/opcodes.rs:303-322 | each D funct7 is its S counterpart with the fmt bit set, and every S funct7 has bit 0 clear |
| Decoder.ExtendWordNegative | src/cpu/instruction.rs:28-35 | when the sign bit of a narrow immediate is set, bits size..31 become ones |
| Decoder.ExtendWordNonNegative | src/cpu/instruction.rs:28-35 | with a clear sign bit, or with size 32, the gathered word is left as it is |
| Decoder.DecodeFields | src/cpu/instruction.rs:61-74 | opcode, rd, rs1, rs2, func3 and func7 are exactly the ISA bit slices; func12 is bits 31..21 |
| Decoder.Func12Isa | src/cpu/instruction.rs:71 | the ISA's funct12 is bits 31..20 of the word |
| Decoder.EncodeDecode | src/cpu/instruction.rs:61-74 | reassembling the six R-type fields gives the word back: nothing is lost |
| Decoder.DecodeEncode | src/cpu/instruction.rs:61-74 | any in-range R-type fields survive encoding and decoding |
| Decoder.Func12DropsLowBit | src/cpu/instruction.rs:71 | the func12 read is the ISA funct12 with bit 20 dropped |
| Decoder.EbreakReadsAsEcall | src/cpu/instruction.rs:71 | EBREAK's word 0x00100073 yields func12 0, the value of F12_ECALL |
| Decoder.GatherFourFields | src/cpu/instruction.rs:15-25 | gathering four field masks is the OR of the four placed fields |
| Decoder.ItImmediateMatchesIsa | src/cpu/instruction.rs:77-82 | `it_immediate` equals the ISA's I-immediate: bits 31..20, sign-extended to 64 bits |
| Decoder.StImmediateMatchesIsa | src/cpu/instruction.rs:85-91 | `st_immediate` equals the ISA's S-immediate from bits 31..25 and 11..7 |
| Decoder.UtImmediateMatchesIsa | src/cpu/instruction.rs:103-108 | `ut_immediate` equals the ISA's U-immediate: bits 31..12 in place, low 12 bits zero, sign-extended |
| Decoder.BtImmediateDropsSign | src/cpu/instruction.rs:93-101 | as written, the B-immediate is the ISA's B-immediate cut to bits 12..1: it is never sign-extended |
| Decoder.BtImmediateCounterexample | src/cpu/instruction.rs:100 | for `beq x0, x0, -4096` the ISA gives -4096 and the code gives +4096 |
| Decoder.BtImmediateCorrectedMatchesIsa | src/cpu/instruction.rs:93-101 | the same field masks with sign width 13 give exactly the ISA's B-immediate |
| Decoder.JtGathers | src/cpu/instruction.rs:110-118 | the four J masks gather bit 31 to bit 21, bits 30..21 to 9..0, bit 20 to 11 and bits 19..12 in place |
| Decoder.JtImmediateAgreesIff | src/cpu/instruction.rs:110-118 | for every word, the code's J-immediate equals the ISA's exactly when bits 30..21 are zero and bit 31 equals bit 19 |
| Decoder.JtImmediateCounterexample | src/cpu/instruction.rs:110-118 | for `jal x0, 2` the ISA gives 2 and the code gives 1 |
| Decoder.JtImmediateCorrectedMatchesIsa | src/cpu/instruction.rs:110-118 | the ISA's J layout (bit 31 to 20, bits 30..21 to 10..1) with sign width 21 gives exactly the ISA's J-immediate |
| Decoder.ItIsaRoundTrip | src/cpu/instruction.rs:77-82 | every v in [-2048, 2047] placed in an I-type word is read back by the ISA's I-immediate, whatever the other bits |
| Decoder.StIsaRoundTrip | src/cpu/instruction.rs:85-91 | every v in [-2048, 2047] placed in an S-type word is read back by the ISA's S-immediate |
| Decoder.BtIsaRoundTrip | src/cpu/instruction.rs:93-101 | every even v in [-4096, 4094] placed in a B-type word is read back by the ISA's B-immediate |
| Decoder.UtIsaRoundTrip | src/cpu/instruction.rs:103-108 | every 32-bit signed multiple of 4096 placed in a U-type word is read back by the ISA's U-immediate |
| Decoder.JtIsaRoundTrip | src/cpu/instruction.rs:110-118 | every even v in [-2^20, 2^20 - 2] placed in a J-type word is read back by the ISA's J-immediate |
| Decoder.ItRoundTrip | src/cpu/instruction.rs:77-82 | `it_immediate` recovers every 12-bit signed value placed in an I-type word |
| Decoder.StRoundTrip | src/cpu/instruction.rs:85-91 | `st_immediate` recovers every 12-bit signed value placed in an S-type word |
| Decoder.UtRoundTrip | src/cpu/instruction.rs:103-108 | `ut_immediate` recovers every upper immediate placed in a U-type word |
| Decoder.BtRoundTripAsWritten | src/cpu/instruction.rs:93-101 | `bt_immediate` recovers only bits 12..1 of a branch offset: negative offsets come back positive |
| Decoder.BtRoundTripCorrected | src/cpu/instruction.rs:93-101 | with sign width 13 every even 13-bit signed offset is recovered |
| Decoder.JtRoundTripCorrected | src/cpu/instruction.rs:110-118 | with the ISA's J layout and sign width 21 every even 21-bit signed offset is recovered |
| Memory.Encode | src/cpu/cpu.rs:78-110 | `to_le_bytes` of an access yields exactly as many bytes as the access is wide |
| Memory.DecodeEncode | src/cpu/cpu.rs:51-110 | `from_le_bytes` of `to_le_bytes` gives the value cut to the access width |
| Memory.EncodeDecode | src/cpu/cpu.rs:51-110 | encoding a decoded byte string gives the bytes back |
| Memory.ReadWordBytes | src/cpu/cpu.rs:58-62 | an intended word read at a is the four bytes a .. a+3, least significant first |
| Memory.WriteFrame | src/cpu/cpu.rs:72-110 | a write succeeds exactly where a read of that width would, keeps the length, and changes no byte outside [a, a+n) |
| Memory.ReadAfterWrite | src/cpu/cpu.rs:72-110 | reading back at the address just written gives the stored value cut to the access width |
| Memory.ReadNarrowerAfterWrite | src/cpu/cpu.rs:51-110 | a read at the written address no wider than the write returns the stored value cut to the read's width |
| Memory.ReadOtherAfterWrite | src/cpu/cpu.rs:72-110 | a read that does not overlap a write sees the old value |
| Memory.UntouchedRange | src/cpu/cpu.rs:72-110 | every byte range outside the written bytes is unchanged |
| Memory.ReadAsWrittenAtZero | src/cpu/cpu.rs:51-69 | at address 0 the slice `[a..size]` is the right one: the as-written read equals the intended read |
| Memory.ReadAsWrittenElsewhere | src/cpu/cpu.rs:51-69 | at any other address a multi-byte read gives 0 (1 <= a <= size <= length) or panics, whatever the memory holds |
| Memory.ReadAsWrittenCounterexample | src/cpu/cpu.rs:60 | a word read at 4 returns 0 instead of 0x00100093, and one at 5 panics although the bytes exist |
| Alu.OffsetAddressIsSum | src/cpu/cpu.rs:177-191 | the two-branch add/subtract of `address_from_it` (and the other `address_from_*`) is the wrapping sum base + offset |
| Alu.SltBySignFlip | src/cpu/cpu.rs:1288-1293 | the signed compare of SLT/SLTI/BLT/BGE is the unsigned compare with both sign bits flipped |
| Alu.SltuAgrees | src/cpu/cpu.rs:1295-1308 | both branches of SLTU's `rs1 == 0` special case compute unsigned rs1 < rs2 |
| Alu.SltiuDiffersExactlyAtOne | src/cpu/cpu.rs:1191-1205 | SLTIU as written differs from unsigned rs1 < imm exactly when rs1 is 1 and imm > 1 |
| Alu.AddwIsWordOperation | src/cpu/cpu.rs:959-966 | ADDW's result is sign-extended and depends only on the low words of its operands |
| Alu.SubwIsWordOperation | src/cpu/cpu.rs:968-975 | SUBW's result is sign-extended and depends only on the low words of its operands |
| Alu.AddwOverflowExample | src/cpu/cpu.rs:959-966 | 0x7fffffff +w 1 is 0xffffffff80000000, and 64-bit ADD of u64::MAX and 1 wraps to 0 |
| Alu.AddiwAgrees | src/cpu/cpu.rs:911-927 | both branches of ADDIW (immediate zero or not) give ADDW of rs1 and the immediate |
| Alu.SllwIsWordShift | src/cpu/cpu.rs:977-985 | SLLW/SLLIW depend only on the low word of rs1 |
| Alu.SrlwAgrees | src/cpu/cpu.rs:987-995 | SRLW as written (64-bit shift, then truncate) agrees with the ISA when rs1 has no high bits or the amount is 0 |
| Alu.SrawAgrees | src/cpu/cpu.rs:997-1007 | SRAW as written agrees with the ISA whenever rs1 is already a sign-extended word |
| Alu.SrawOfNonNegativeWord | src/cpu/cpu.rs:997-1007 | on a word with bit 31 clear, the ISA's SRAW equals its SRLW |
| Alu.RightWordShiftCounterexamples | src/cpu/cpu.rs:939-1007 | concrete operands on which the as-written SRLW and SRAW leak high bits into the result |
| Alu.MulIsLowProduct | src/cpu/cpu.rs:780-785 | MUL's wrapping product is the low 64 bits of the 128-bit product |
| Alu.MulhIsMulhu | src/cpu/cpu.rs:787-794 | MULH as written (`u64 as i128` zero-extends) equals MULHU for all inputs, and differs from the ISA's MULH on -1 * 1 |
| Alu.MulhAgreesOnNonNegative | src/cpu/cpu.rs:787-794 | on two non-negative operands MULH as written equals the ISA's signed high product |
| Alu.MulhsuCounterexamples | src/cpu/cpu.rs:796-811 | MULHSU as written departs from the ISA for a negative rs1 and for an rs2 with bit 63 set |
| Alu.MulhsuAgreesOnNonNegative | src/cpu/cpu.rs:796-811 | on two non-negative operands MULHSU as written, the ISA's MULHSU and MULHU coincide |
| Alu.MulwIsWordProduct | src/cpu/cpu.rs:705-710 | MULW is the 32-bit wrapping product of the low words, sign-extended |
| Alu.DivByZero | src/cpu/cpu.rs:822-852 | for every dividend, DIV and DIVU by 0 give all ones (`u64::MAX as i64`, `u64::MAX`), as do the ISA's DIVW and DIVUW; DIVUW as written gives 0xFFFFFFFF |
| Alu.DivOverflow | src/cpu/cpu.rs:822-836 | DIV of i64::MIN by -1 gives i64::MIN and REM gives 0 (`wrapping_div`/`wrapping_rem`) |
| Alu.DivisionTruncates | src/cpu/cpu.rs:822-868 | signed DIV and REM truncate toward zero, with the remainder taking the dividend's sign |
| Alu.RemAgreesIff | src/cpu/cpu.rs:854-884 | REM and REMU as written agree with the ISA exactly when the divisor is nonzero or the dividend is 0 |
| Alu.RemByZero | src/cpu/cpu.rs:744-884 | by a zero divisor the ISA's remainders give the dividend (sign-extended for the W forms); the code gives 0 for REM/REMU and -1 for REMW |
| Alu.UnsignedWordDivisionSignExtends | src/cpu/cpu.rs:728-776 | the ISA's DIVUW and REMUW always produce a sign-extended word |
| Alu.WidenIsZextIff | src/cpu/cpu.rs:728-776 | the `u32 as u64` of DIVUW/REMUW equals the ISA's sign extension exactly when bit 31 is clear |
| Alu.DivwSpecialCases | src/cpu/cpu.rs:712-726 | DIVW by 0 gives -1 sign-extended; DIVW of i32::MIN by -1 gives i32::MIN sign-extended, REMW gives 0 |
| Alu.DivuwAgreesIff | src/cpu/cpu.rs:728-742 | DIVUW as written agrees with the ISA exactly when the divisor word is nonzero and the quotient has bit 31 clear |
| Alu.RemuwByZero | src/cpu/cpu.rs:760-776 | REMUW by 0 as written gives 0xffffffff; the ISA gives the dividend sign-extended |
| Alu.RemwAgreesIff | src/cpu/cpu.rs:744-758 | REMW as written agrees with the ISA exactly when the divisor word is nonzero or the dividend is -1 |
| Dispatch.ExtensionArmOpcodes | src/cpu/cpu.rs:256-699 | the D and F arms fire only on the FP opcodes and the A arms only on OP_EXT_A |
| Dispatch.ExtensionArmsNotInteger | src/cpu/cpu.rs:256-699 | no extension arm fires on an integer opcode |
| Dispatch.IntegerOpcodesSkipExtensionArms | src/cpu/cpu.rs:252-1372 | an instruction with an integer opcode never takes an F/D/A arm, under either reading |
| Dispatch.OtherOpcodesAreExtensionOrDefault | src/cpu/cpu.rs:252-1372 | any other opcode takes an extension arm or the default arm |
| Dispatch.ReadingsDifferOnlyInShiftsAndSystem | src/cpu/cpu.rs:256-1366 | the two readings route an instruction differently only for OP_MO1 shifts, OP_SYSTEM privileged instructions and OP-FP words with FMV.X.D's funct7 |
| Dispatch.FmvXDReadings | src/cpu/cpu.rs:401-404 | with funct7 1110001 and rs2 0 under OP-FP, the match takes an F/D arm exactly for funct3 001 and 010 as written, and exactly for 001 and 000 (FCLASS.D, FMV.X.D) in the ISA reading; otherwise the default arm |
| Dispatch.FmvXDExample | src/cpu/opcodes.rs:385 | `fmv.x.d x1, f2` (0xE20100D3) takes the default arm as written and the FMV.X.D arm in the ISA reading |
| Dispatch.ShiftFieldsAgreeBelow32 | src/cpu/cpu.rs:1234-1259 | with bit 25 clear the as-written funct7 and 5-bit amount match the ISA's 6-bit shamt reading |
| Dispatch.ReadingsAgreeBelow32 | src/cpu/cpu.rs:252-1372 | outside OP_SYSTEM, a word with bit 25 clear takes the same arm under both readings |
| Dispatch.WideShiftImmediates | src/cpu/cpu.rs:1234-1259 | `slli x1, x1, 32` and `srai x1, x1, 33` fall to the default arm as written, while the ISA shifts |
| Dispatch.EbreakTakesEcallArm | src/cpu/cpu.rs:1356-1366 | as written EBREAK takes the ECALL arm; under the ISA it takes the EBREAK arm |
| Dispatch.AddExample | src/cpu/cpu.rs:1261-1268 | `add x3, x1, x2` takes the ADD arm |
| Dispatch.MulExample | src/cpu/cpu.rs:780-785 | `mul x3, x1, x2` takes the MUL arm, not ADD |
| Dispatch.AddiExample | src/cpu/cpu.rs:1173-1180 | `addi x1, x0, 1` takes the ADDI arm |
| Dispatch.AddiIncrementExample | src/cpu/cpu.rs:1173-1180 | `addi x1, x1, 1` takes the ADDI arm |
| Dispatch.FaddDExample | src/cpu/cpu.rs:256-699 | `fadd.d` takes an extension arm |
| Dispatch.ZeroWordExample | src/cpu/cpu.rs:1367-1372 | the all-zero word takes the default arm |
| Cpu.ReadAfterWriteReg | src/cpu/cpu.rs:114-133 | after `write_gp_reg(i, v)` register i reads v unless i is 0; every other register is unchanged |
| Cpu.RegistersExtensional | src/cpu/cpu.rs:114-124 | two register files that read alike at every index are equal |
| Cpu.WriteRegSameValue | src/cpu/cpu.rs:127-133 | writing a register's own value back changes nothing, including x0 |
| Cpu.New | src/cpu/cpu.rs:33-42 | `Cpu::new`: every register reads 0, pc is 0, memory is the binary |
| Cpu.FetchWordIsaSucceeds | src/cpu/cpu.rs:245-249 | the intended fetch succeeds exactly when pc + 4 lies within memory |
| Cpu.FetchWordIsa | src/cpu/cpu.rs:245-249 | the intended fetch yields the four bytes at pc, little-endian |
| Cpu.FetchWordAsWrittenAtZero | src/cpu/cpu.rs:245-249 | at pc 0 the as-written fetch is the intended one |
| Cpu.FetchWordAsWrittenAtFour | src/cpu/cpu.rs:245-249 | at pc 4 the as-written fetch yields 0 whatever memory holds |
| Cpu.FetchWordAsWrittenBeyondFour | src/cpu/cpu.rs:245-249 | beyond pc 4 the as-written fetch panics |
| Cpu.WritesAtMostKeepsOthers | src/cpu/cpu.rs:127-133 | when only rd may have been written, every other register keeps its value, and rd = 0 changes nothing |
| Cpu.OnlyMemoryArmsPanic | src/cpu/cpu.rs:252-1372 | an arm can panic only if it is a load or a store |
| Cpu.NonMemoryArmsSucceed | src/cpu/cpu.rs:1013-1115 | every arm other than a load or store completes: jumps, branches, computing and no-op arms never panic |
| Cpu.ComputeFrame | src/cpu/cpu.rs:705-1349 | a computing arm keeps pc and memory and writes at most rd |
| Cpu.LoadFrame | src/cpu/cpu.rs:1117-1150 | a load keeps pc and memory and writes at most rd |
| Cpu.StoreFrame | src/cpu/cpu.rs:1152-1171 | a store keeps pc, the registers and the memory length |
| Cpu.BranchFrame | src/cpu/cpu.rs:1045-1115 | a branch keeps the registers and memory |
| Cpu.JumpFrame | src/cpu/cpu.rs:1025-1043 | JAL and JALR keep memory and write at most rd |
| Cpu.NoOpArmsChangeNothing | src/cpu/cpu.rs:1351-1372 | FENCE, ECALL, EBREAK, every extension arm and the default arm leave the state unchanged |
| Cpu.ExecuteFrame | src/cpu/cpu.rs:252-1372 | every arm: only control arms move pc, only stores touch memory, memory keeps its length, at most rd is written |
| Cpu.LoadAfterStore | src/cpu/cpu.rs:1117-1171 | under the intended reads, a load no wider than the store at the address just stored gives the stored value cut to the load's width and extended |
| Cpu.LoadAsWrittenElsewhere | src/cpu/cpu.rs:1124-1136 | as written, a multi-byte load at a nonzero address writes 0 to rd or panics |
| Cpu.AddiArm | src/cpu/cpu.rs:1173-1180 | ADDI writes rs1 + sext(imm), wrapping, into rd |
| Cpu.LuiArm | src/cpu/cpu.rs:1013-1017 | LUI writes the U-immediate into rd |
| Cpu.AuipcWrites | src/cpu/cpu.rs:1019-1023 | AUIPC writes (pc - 4) + U-immediate into rd |
| Cpu.LoadAddress | src/cpu/cpu.rs:177-191 | a load arm reads at x[rs1] + `it_immediate`, the plain wrapping sum, with its arm's width and extension, and writes rd |
| Cpu.StoreAddress | src/cpu/cpu.rs:194-208 | a store arm writes x[rs2] at x[rs1] + `st_immediate`, the plain wrapping sum, with its arm's width |
| Cpu.StoreThenLoad | src/cpu/cpu.rs:1117-1171 | a store followed by a load no wider than it from the same effective address returns the stored value cut to the load's width and extended as the load extends (SD then LB: the low byte, sign-extended) |
| Cpu.RelativeTargetAgrees | src/cpu/cpu.rs:211-242 | `address_from_jt`/`_ut`/`_bt` computed from pc - 4 give (pc - 4) + offset |
| Cpu.RegisterTargetAgrees | src/cpu/cpu.rs:1034-1043 | JALR's target is (rs1 + imm) with bit 0 cleared |
| Cpu.RegisterTargetOfEven | src/cpu/cpu.rs:1040 | clearing bit 0 of an even address leaves it unchanged |
| Cpu.BranchTarget | src/cpu/cpu.rs:1045-1115 | a taken branch sets pc to (pc - 4) + B-immediate; a branch not taken leaves pc at its advanced value |
| Cpu.TakenReference | src/cpu/cpu.rs:1045-1115 | BEQ/BNE test equality, BLT/BGE compare signed, BLTU/BGEU compare unsigned |
| Cpu.JumpLinks | src/cpu/cpu.rs:1025-1043 | JAL and JALR write the advanced pc into rd and nothing else into the registers |
| Cpu.JalLinks | src/cpu/cpu.rs:1025-1032 | JAL sets pc to (pc - 4) + J-immediate and rd to the return address |
| Cpu.JalrLinks | src/cpu/cpu.rs:1034-1043 | JALR computes its target from rs1 before writing rd, so rd = rs1 is safe; rd receives the return address |
| Cpu.CallReturn | src/cpu/cpu.rs:1025-1043 | a JAL from an even address followed by `jalr x0, 0(rd)` returns to the instruction after the call |
| Machine.AdvancedPc | src/main.rs:33 | `pc += 4` leaves pc at least 4 and changes nothing else |
| Machine.StepFrame | src/main.rs:29-35 | one trip round the loop keeps the memory length and writes at most the fetched instruction's rd; non-control instructions leave pc advanced by 4 |
| Machine.StepPanics | src/main.rs:29-35 | a trip panics only if pc + 4 overflows, the fetch panics, or a load or store panics |
| Machine.AddiStep | src/main.rs:29-35 | a trip that fetches an ADDI writes rs1 + imm into rd and advances pc by 4 |
| Machine.NoOpStep | src/main.rs:29-35 | a trip over a no-op arm only advances pc |
| Machine.IterateSplit | src/main.rs:29-35 | running the loop m + n trips is running m trips and then n more |
| Machine.RunSplit | src/main.rs:29-35 | the emulator loop run for m + n trips is m trips then n more |
| Machine.RunSettles | src/main.rs:29-35 | once the loop has halted or panicked, more fuel changes nothing |
| Machine.StepKeepsSize | src/main.rs:29-35 | no trip round the loop changes the memory length |
| Machine.IterateKeepsSize | src/main.rs:29-35 | a halted loop has pc outside memory, and a loop that does not panic keeps the memory length |
| Machine.RunKeepsSize | src/main.rs:29-35 | the emulator halts only with pc past the end of memory and never changes the memory length |
| Machine.RunStep | src/main.rs:29-35 | while pc is in memory, the loop is one step followed by the rest |
| Machine.CountToTwoFirstFetch | src/cpu/cpu.rs:245-249 | the first fetch of the two-ADDI program decodes `addi x1, x0, 1` under both readings |
| Machine.CountToTwoSecondFetch | src/cpu/cpu.rs:245-249 | at pc 4 the ISA fetches `addi x1, x1, 1`, while the code as written fetches the zero word |
| Machine.CountToTwoFirstStep | src/main.rs:29-35 | the first trip sets x1 to 1 under both readings |
| Machine.CountToTwoSecondStepIsa | src/main.rs:29-35 | under the ISA the second trip sets x1 to 2 |
| Machine.CountToTwoSecondStepAsWritten | src/main.rs:29-35 | as written the second trip only advances pc |
| Machine.CountToTwoRuns | src/main.rs:29-35 | the program halts after two trips with x1 = 2 under the ISA and x1 = 1 as written |

## Left out

- The `csrs` array, `PrivilegeLvel`, and `IALIGN`, `ILEN` and `XLEN`: no instruction reads or writes them.
- Reading argv and the binary file in `src/main.rs`: this is I/O. The loaded bytes are a parameter of `Cpu.New`.
- `tests/fib.c` and `src/cpu/mod.rs`: a test program whose binary is not part of this model, and module re-exports.
- The bodies of the F, D and A arms are empty in the source, so the model routes them to one no-op tag, `Extension`. There is no floating-point or atomic-memory semantics. `Dispatch.Arm` still matches these arms in source order, including FLD/FSD, which put their funct3 codes in the funct7 slot.
- Rust's debug-build overflow panics in `address_from_*` and `pc + 4` are modelled as wrapping, the release-build behaviour. Two exceptions:
  - `pc - 4` is a precondition, pc >= 4, which the driver guarantees.
  - `pc + 4` overflow ends a trip in `None`.
- Alu.MulhsuAsWritten: `rs1.abs()` panics on i64::MIN in debug builds; the model takes the wrapped value, i64::MIN itself.
- The misalignment exceptions the source leaves as TODO comments: they are not behaviour.
- The `dbg!` message of the default arm is represented by the `Unimplemented` tag.
- Machine.Run: the loop takes a fuel bound, because the emulator's `while` need not terminate. Running out of fuel is a third outcome, `OutOfFuel`.
- Alu.DivOverflow: 64-bit division is stated on concrete operands and by agreement lemmas, not as a symbolic quotient/remainder identity, because the solver cannot discharge the general 64-bit identity.
- Alu.DivisionTruncates: same reason as Alu.DivOverflow; rounding toward zero is stated on representative operands of each sign.

## Findings

| source | as written | input that shows it | evidently intended | confidence | as-written member | corrected member |
|---|---|---|---|---|---|---|
| src/cpu/instruction.rs:100 | B-immediate sign-extended from width 20, so bit 12 is never the sign | `beq x0, x0, -4096` (0x80000063) gives +4096 | width 13 (section 2.3 of the RISC-V Unprivileged ISA) | high, not executed | Decoder.BtImmediateCounterexample, Decoder.BtRoundTripAsWritten | Decoder.BtImmediateCorrectedMatchesIsa, Decoder.BtRoundTripCorrected |
| src/cpu/instruction.rs:112-117 | J-immediate: bits 30..21 shifted by 21 (to 9..0) and bit 31 by 10 (to 21), sign width 20 | `jal x0, 2` (0x0020006F) gives 1 | shifts 20 and 11, sign width 21 | high, not executed | Decoder.JtImmediateCounterexample, Decoder.JtImmediateAgreesIff | Decoder.JtImmediateCorrectedMatchesIsa, Decoder.JtRoundTripCorrected |
| src/cpu/instruction.rs:71 | func12 shifted right by 21, dropping bit 20 | `ebreak` (0x00100073) yields func12 0 and takes the ECALL arm | shift by 20 | high, not executed | Decoder.EbreakReadsAsEcall, Dispatch.EbreakTakesEcallArm | Decoder.Func12Isa, Dispatch.EbreakTakesEcallArm |
| src/cpu/cpu.rs:53-67 | `read_u16/32/64` slice `[address..N]` | a word read at 4 returns 0; at 5 it panics | slice `[address..address + N]` | high, not executed | Memory.ReadAsWrittenCounterexample, Machine.CountToTwoRuns | Memory.ReadAfterWrite, Cpu.StoreThenLoad |
| src/cpu/cpu.rs:248 | `fetch` inherits the slice, so only the word at 0 is ever fetched | the two-ADDI program leaves x1 = 1 | fetch the word at pc | high, not executed | Cpu.FetchWordAsWrittenAtFour, Machine.CountToTwoSecondStepAsWritten | Cpu.FetchWordIsa, Machine.CountToTwoSecondStepIsa |
| src/cpu/cpu.rs:858-877 | REM and REMU by 0 give 0 | `rem` of 5 by 0 gives 0 | the dividend (section 7.2 of the RISC-V Unprivileged ISA) | medium, not executed | Alu.RemAgreesIff | Alu.RemByZero |
| src/cpu/cpu.rs:748-751 | REMW by 0 gives -1 | `remw` of 5 by 0 gives -1 | the dividend, sign-extended | medium, not executed | Alu.RemwAgreesIff | Alu.RemByZero |
| src/cpu/cpu.rs:741 | DIVUW result zero-extended | 0x80000000 / 1 gives 0x80000000 | sign-extended 32-bit result | high, not executed | Alu.DivuwAgreesIff | Alu.UnsignedWordDivisionSignExtends |
| src/cpu/cpu.rs:773 | REMUW result zero-extended, by 0 gives 0xffffffff | 0x80000000 rem 0 | the dividend, sign-extended | high, not executed | Alu.RemuwByZero | Alu.RemByZero, Alu.UnsignedWordDivisionSignExtends |
| src/cpu/cpu.rs:944-1004 | SRLW/SRLIW/SRAW/SRAIW shift the 64-bit value before truncating | `srlw` of 0x100000000 by 1 gives 0xffffffff80000000 | shift the low word | high, not executed | Alu.RightWordShiftCounterexamples | Alu.SrlwAgrees, Alu.SrawAgrees |
| src/cpu/cpu.rs:1235-1259 | shift immediates match funct7 exactly and read a 5-bit amount | `slli x1, x1, 32` falls to the default arm | 6-bit shamt on RV64 | high, not executed | Dispatch.WideShiftImmediates | Dispatch.ShiftFieldsAgreeBelow32, Dispatch.WideShiftImmediates |
| src/cpu/cpu.rs:791 | MULH casts `u64` to `i128`, which zero-extends | -1 * 1 gives 0 | signed product, -1 | high, not executed | Alu.MulhIsMulhu | Alu.MulhAgreesOnNonNegative |
| src/cpu/cpu.rs:797-811 | MULHSU multiplies the magnitude of rs1 and sign-extends rs2 | -1 * 1 gives 0; 1 * 2^63 gives -1 | signed rs1 times unsigned rs2 | high, not executed | Alu.MulhsuCounterexamples | Alu.MulhsuAgreesOnNonNegative |
| src/cpu/cpu.rs:1197-1204 | SLTIU special-cases rs1 = 1 | `sltiu` with rs1 = 1, imm = 2 gives 0 | unsigned rs1 < imm | high, not executed | Alu.SltiuDiffersExactlyAtOne | Alu.SltiuDiffersExactlyAtOne |
| src/cpu/opcodes.rs:385 | `F3_FMV_X_D___` is 010, where the instruction listing in the same file (and the ISA) gives FMV.X.D funct3 000 | `fmv.x.d x1, f2` (0xE20100D3) takes the default arm | funct3 000 | high, not executed | Dispatch.FmvXDExample, Dispatch.FmvXDReadings | Dispatch.FmvXDReadings |
