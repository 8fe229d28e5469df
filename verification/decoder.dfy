/** Instruction decoding: splitting a 32-bit instruction word into the
    fixed fields every format shares, and gathering the scattered immediate
    of each format into a sign-extended 64-bit value. */
module Decoder {

  import opened Bits

  /** A signed shift amount strictly between -32 and 32, held as an 8-bit
      two's complement pattern: every amount a 32-bit word can be moved by
      without overflowing. */
  type Shift = s: bv8 | s < 32 || s > 0xE0

  /** One piece of a scattered immediate: the bits `mask` selects are moved
      right by `shift` places when it is positive and left by `-shift`
      places otherwise. */
  datatype FieldMask = FieldMask(mask: bv32, shift: Shift)

  /** The bits one field contributes, already moved into place. */
  function Place(source: bv32, f: FieldMask): bv32
  {
    if 0 < f.shift < 0x80 then (source & f.mask) >> (f.shift as bv32)
    else (source & f.mask) << ((-f.shift) as bv32)
  }

  /** The union of the contributions of all fields. */
  function Gather(source: bv32, fields: seq<FieldMask>): bv32
  {
    if |fields| == 0 then 0
    else Place(source, fields[0]) | Gather(source, fields[1..])
  }

  /** A word whose low `size` bits hold a two's complement number, with
      bits `size` to 31 set when the number's sign bit `size - 1` is set and
      kept as they are otherwise. */
  function ExtendWord(value: bv32, size: bv32): bv32
    requires 1 <= size <= 32
  {
    if size < 32 && value & ((1 as bv32) << (size - 1)) != 0 then value | (0xFFFF_FFFF << size)
    else value
  }

  /** With the sign bit set, every bit from `size` up is set. */
  lemma ExtendWordNegative(value: bv32, size: bv32)
    requires 1 <= size < 32
    requires value & ((1 as bv32) << (size - 1)) != 0
    ensures ExtendWord(value, size) == value | (0xFFFF_FFFF << size)
  {
  }

  /** With the sign bit clear, or no room to extend, the word is kept. */
  lemma ExtendWordNonNegative(value: bv32, size: bv32)
    requires 1 <= size <= 32
    requires size == 32 || value & ((1 as bv32) << (size - 1)) == 0
    ensures ExtendWord(value, size) == value
  {
  }

  /** The immediate of an instruction word: the gathered fields read as a
      two's complement number of `size` bits, widened to 64 bits. */
  function DecodeImmediateSigned(source: bv32, fields: seq<FieldMask>, size: bv32): bv64
    requires 1 <= size <= 32
  {
    Sext32(Zext32(ExtendWord(Gather(source, fields), size)))
  }

  /** A decoded instruction word: the raw word and the fixed fields
      (opcode, rd, rs1, rs2, funct3, funct7, funct12) taken from it. */
  datatype Instruction = Instruction(
    raw: bv32,
    opcode: bv32,
    rd: bv5,
    rs1: bv5,
    rs2: bv5,
    func3: bv32,
    func7: bv32,
    func12: bv32)

  /** The fixed fields of an instruction word. The funct12 field is read by
      shifting the masked bits 31..20 right by 21 places, one more than the
      field's position, so it holds bits 31..21 of the word. */
  function Decode(raw: bv32): (ins: Instruction)
    ensures ins.raw == raw
  {
    Instruction(
      raw,
      raw & 0x7F,
      ((raw & 0xF80) >> 7) as bv5,
      ((raw & 0xF_8000) >> 15) as bv5,
      ((raw & 0x1F0_0000) >> 20) as bv5,
      (raw & 0x7000) >> 12,
      (raw & 0xFE00_0000) >> 25,
      (raw & 0xFFF0_0000) >> 21)
  }

  /** Each fixed field is the slice of the word the ISA assigns to it,
      except funct12, which lacks the lowest bit of the ISA's slice 31..20. */
  lemma DecodeFields(raw: bv32)
    ensures Decode(raw).opcode == Slice(raw, 6, 0)
    ensures Decode(raw).rd as bv32 == Slice(raw, 11, 7)
    ensures Decode(raw).rs1 as bv32 == Slice(raw, 19, 15)
    ensures Decode(raw).rs2 as bv32 == Slice(raw, 24, 20)
    ensures Decode(raw).func3 == Slice(raw, 14, 12)
    ensures Decode(raw).func7 == Slice(raw, 31, 25)
    ensures Decode(raw).func12 == Slice(raw, 31, 21)
  {
    var ins := Decode(raw);
    assert ins.opcode == Slice(raw, 6, 0);
    assert ins.rd as bv32 == Slice(raw, 11, 7);
    assert ins.rs1 as bv32 == Slice(raw, 19, 15);
    assert ins.rs2 as bv32 == Slice(raw, 24, 20);
    assert ins.func3 == Slice(raw, 14, 12);
    assert ins.func7 == Slice(raw, 31, 25);
  }

  /** The funct12 field as the ISA places it: bits 31..20. */
  function Func12Isa(raw: bv32): (f: bv32)
    ensures f == Slice(raw, 31, 20)
  {
    raw >> 20
  }

  /** Assembles an instruction word from the register-register fields. */
  function EncodeR(func7: bv32, rs2: bv5, rs1: bv5, func3: bv32, rd: bv5, opcode: bv32): bv32
  {
    ((func7 & 0x7F) << 25) | ((rs2 as bv32) << 20) | ((rs1 as bv32) << 15)
    | ((func3 & 7) << 12) | ((rd as bv32) << 7) | (opcode & 0x7F)
  }

  /** The fields shared by all formats determine the word: assembling them
      again gives back the word that was decoded. */
  lemma EncodeDecode(raw: bv32)
    ensures
      var ins := Decode(raw);
      EncodeR(ins.func7, ins.rs2, ins.rs1, ins.func3, ins.rd, ins.opcode) == raw
  {
  }

  /** Decoding an assembled word gives back every field that fits its slot. */
  lemma DecodeEncode(func7: bv32, rs2: bv5, rs1: bv5, func3: bv32, rd: bv5, opcode: bv32)
    requires func7 < 0x80 && func3 < 8 && opcode < 0x80
    ensures
      var ins := Decode(EncodeR(func7, rs2, rs1, func3, rd, opcode));
      ins.func7 == func7 && ins.rs2 == rs2 && ins.rs1 == rs1
      && ins.func3 == func3 && ins.rd == rd && ins.opcode == opcode
  {
  }

  /** The funct12 field as decoded is the ISA's funct12 without its lowest
      bit, which is the bit that tells EBREAK from ECALL. */
  lemma Func12DropsLowBit(raw: bv32)
    ensures Decode(raw).func12 == Func12Isa(raw) >> 1
  {
  }

  /** EBREAK (funct12 1, opcode SYSTEM) decodes with the funct12 of ECALL. */
  lemma EbreakReadsAsEcall()
    ensures Func12Isa(0x0010_0073) == 1
    ensures Decode(0x0010_0073).func12 == 0
  {
  }

  // Immediates, as the decoder gathers them

  function ItFields(): seq<FieldMask>
  {
    [FieldMask(0xFFF0_0000, 20)]
  }

  function StFields(): seq<FieldMask>
  {
    [FieldMask(0xFE00_0000, 20), FieldMask(0xF80, 7)]
  }

  function BtFields(): seq<FieldMask>
  {
    [FieldMask(0x8000_0000, 19), FieldMask(0x7E00_0000, 20),
     FieldMask(0xF00, 7), FieldMask(0x80, -4)]
  }

  function UtFields(): seq<FieldMask>
  {
    [FieldMask(0xFFFF_F000, 0)]
  }

  function JtFields(): seq<FieldMask>
  {
    [FieldMask(0x8000_0000, 10), FieldMask(0x7FE0_0000, 21),
     FieldMask(0x0010_0000, 9), FieldMask(0x000F_F000, 0)]
  }

  function JtFieldsCorrected(): seq<FieldMask>
  {
    [FieldMask(0x8000_0000, 11), FieldMask(0x7FE0_0000, 20),
     FieldMask(0x0010_0000, 9), FieldMask(0x000F_F000, 0)]
  }

  /** I-type: bits 31..20, a 12-bit signed value. */
  function ItImmediate(ins: Instruction): bv64
  {
    DecodeImmediateSigned(ins.raw, ItFields(), 12)
  }

  /** S-type: bits 31..25 above bits 11..7, a 12-bit signed value. */
  function StImmediate(ins: Instruction): bv64
  {
    DecodeImmediateSigned(ins.raw, StFields(), 12)
  }

  /** B-type: bit 31 to bit 12, bits 30..25 to 10..5, bits 11..8 to 4..1
      and bit 7 to bit 11, read with its sign bit at bit 19. */
  function BtImmediate(ins: Instruction): bv64
  {
    DecodeImmediateSigned(ins.raw, BtFields(), 20)
  }

  /** U-type: bits 31..12 in place, the low 12 bits zero. */
  function UtImmediate(ins: Instruction): bv64
  {
    DecodeImmediateSigned(ins.raw, UtFields(), 32)
  }

  /** J-type as gathered: bit 31 to bit 21, bits 30..21 to bits 9..0,
      bit 20 to bit 11 and bits 19..12 in place, read with its sign bit at
      bit 19. */
  function JtImmediate(ins: Instruction): bv64
  {
    DecodeImmediateSigned(ins.raw, JtFields(), 20)
  }

  /** B-type as the ISA reads it: the same pieces, 13 bits wide. */
  function BtImmediateCorrected(ins: Instruction): bv64
  {
    DecodeImmediateSigned(ins.raw, BtFields(), 13)
  }

  /** J-type as the ISA reads it: bit 31 to bit 20, bits 30..21 to bits
      10..1, bit 20 to bit 11 and bits 19..12 in place, 21 bits wide. */
  function JtImmediateCorrected(ins: Instruction): bv64
  {
    DecodeImmediateSigned(ins.raw, JtFieldsCorrected(), 21)
  }

  // The immediates of Figure 2.4 (section 2.3) of the RISC-V Unprivileged
  // ISA: a 32-bit value assembled from slices of the instruction word, with
  // bit 31 of the word copied into every bit above the slices, then widened
  // to 64 bits by its sign as every immediate of RV64 is.

  /** Bit 31 of the instruction word, the sign of every signed immediate. */
  predicate SignSet(raw: bv32)
  {
    raw & 0x8000_0000 != 0
  }

  /** inst[31] copied into bits 31..11, inst[30:20] into bits 10..0. */
  function ItWordIsa(raw: bv32): bv32
  {
    (if SignSet(raw) then 0xFFFF_F800 else 0) | ((raw >> 20) & 0x7FF)
  }

  /** inst[31] into bits 31..11, inst[30:25] into bits 10..5, inst[11:7]
      into bits 4..0. */
  function StWordIsa(raw: bv32): bv32
  {
    (if SignSet(raw) then 0xFFFF_F800 else 0) | (((raw >> 25) & 0x3F) << 5)
    | ((raw >> 7) & 0x1F)
  }

  /** inst[31] into bits 31..12, inst[7] into bit 11, inst[30:25] into bits
      10..5, inst[11:8] into bits 4..1, bit 0 clear. */
  function BtWordIsa(raw: bv32): bv32
  {
    (if SignSet(raw) then 0xFFFF_F000 else 0) | (((raw >> 7) & 1) << 11)
    | (((raw >> 25) & 0x3F) << 5) | (((raw >> 8) & 0xF) << 1)
  }

  /** inst[31:12] into bits 31..12, the low 12 bits clear. */
  function UtWordIsa(raw: bv32): bv32
  {
    ((raw >> 12) & 0xF_FFFF) << 12
  }

  /** inst[31] into bits 31..20, inst[19:12] into bits 19..12, inst[20] into
      bit 11, inst[30:21] into bits 10..1, bit 0 clear. */
  function JtWordIsa(raw: bv32): bv32
  {
    (if SignSet(raw) then 0xFFF0_0000 else 0) | (((raw >> 12) & 0xFF) << 12)
    | (((raw >> 20) & 1) << 11) | (((raw >> 21) & 0x3FF) << 1)
  }

  function ItImmediateIsa(raw: bv32): bv64
  {
    Sext32(Zext32(ItWordIsa(raw)))
  }

  function StImmediateIsa(raw: bv32): bv64
  {
    Sext32(Zext32(StWordIsa(raw)))
  }

  function BtImmediateIsa(raw: bv32): bv64
  {
    Sext32(Zext32(BtWordIsa(raw)))
  }

  function UtImmediateIsa(raw: bv32): bv64
  {
    Sext32(Zext32(UtWordIsa(raw)))
  }

  function JtImmediateIsa(raw: bv32): bv64
  {
    Sext32(Zext32(JtWordIsa(raw)))
  }

  // Unrolling the gathering loop over a fixed list of fields

  /** A single field gathers to its own contribution. */
  lemma GatherOne(source: bv32, a: FieldMask)
    ensures Gather(source, [a]) == Place(source, a)
  {
    assert [a][1..] == [];
  }

  // What each list of fields gathers to, written out with fixed shifts

  function ItGathered(raw: bv32): bv32
  {
    (raw & 0xFFF0_0000) >> 20
  }

  function StGathered(raw: bv32): bv32
  {
    ((raw & 0xFE00_0000) >> 20) | ((raw & 0xF80) >> 7)
  }

  function BtGathered(raw: bv32): bv32
  {
    ((raw & 0x8000_0000) >> 19) | ((raw & 0x7E00_0000) >> 20)
    | ((raw & 0xF00) >> 7) | ((raw & 0x80) << 4)
  }

  function UtGathered(raw: bv32): bv32
  {
    raw & 0xFFFF_F000
  }

  function JtGathered(raw: bv32): bv32
  {
    ((raw & 0x8000_0000) >> 10) | ((raw & 0x7FE0_0000) >> 21)
    | ((raw & 0x0010_0000) >> 9) | (raw & 0x000F_F000)
  }

  function JtGatheredCorrected(raw: bv32): bv32
  {
    ((raw & 0x8000_0000) >> 11) | ((raw & 0x7FE0_0000) >> 20)
    | ((raw & 0x0010_0000) >> 9) | (raw & 0x000F_F000)
  }

  lemma ItGathers(raw: bv32)
    ensures Gather(raw, ItFields()) == ItGathered(raw)
  {
    GatherOne(raw, ItFields()[0]);
  }

  lemma StGathers(raw: bv32)
    ensures Gather(raw, StFields()) == StGathered(raw)
  {
    var fs := StFields();
    assert fs[1..] == [fs[1]];
    GatherOne(raw, fs[1]);
  }

  lemma UtGathers(raw: bv32)
    ensures Gather(raw, UtFields()) == UtGathered(raw)
  {
    GatherOne(raw, UtFields()[0]);
  }

  /** One step of the gathering loop. */
  lemma GatherStep(raw: bv32, fs: seq<FieldMask>)
    requires |fs| > 0
    ensures Gather(raw, fs) == Place(raw, fs[0]) | Gather(raw, fs[1..])
  {
  }

  /** Gathering four fields, written out. */
  lemma GatherFourFields(raw: bv32, fs: seq<FieldMask>)
    requires |fs| == 4
    ensures Gather(raw, fs)
         == Place(raw, fs[0]) | Place(raw, fs[1]) | Place(raw, fs[2]) | Place(raw, fs[3])
  {
    GatherStep(raw, fs);
    GatherStep(raw, fs[1..]);
    GatherStep(raw, fs[2..]);
    assert fs[1..][1..] == fs[2..];
    assert fs[2..][1..] == [fs[3]];
    GatherOne(raw, fs[3]);
  }

  lemma BtGathers(raw: bv32)
    ensures Gather(raw, BtFields()) == BtGathered(raw)
  {
    GatherFourFields(raw, BtFields());
  }

  lemma JtGathers(raw: bv32)
    ensures Gather(raw, JtFields()) == JtGathered(raw)
  {
    GatherFourFields(raw, JtFields());
  }

  lemma JtGathersCorrected(raw: bv32)
    ensures Gather(raw, JtFieldsCorrected()) == JtGatheredCorrected(raw)
  {
    GatherFourFields(raw, JtFieldsCorrected());
  }

  // I-type

  lemma ItWordMatches(raw: bv32)
    ensures ExtendWord(ItGathered(raw), 12) == ItWordIsa(raw)
  {
    if SignSet(raw) {
      ExtendWordNegative(ItGathered(raw), 12);
      ItWordMatchesNegative(raw);
    } else {
      ExtendWordNonNegative(ItGathered(raw), 12);
      ItWordMatchesNonNegative(raw);
    }
  }

  lemma ItWordMatchesNegative(raw: bv32)
    requires SignSet(raw)
    ensures ItGathered(raw) | 0xFFFF_F000 == ItWordIsa(raw)
  {
  }

  lemma ItWordMatchesNonNegative(raw: bv32)
    requires !SignSet(raw)
    ensures ItGathered(raw) == ItWordIsa(raw)
  {
  }

  /** The I-type immediate is the one the ISA defines. */
  lemma ItImmediateMatchesIsa(raw: bv32)
    ensures ItImmediate(Decode(raw)) == ItImmediateIsa(raw)
  {
    ItGathers(raw);
    ItWordMatches(raw);
  }

  // S-type

  lemma StWordMatches(raw: bv32)
    ensures ExtendWord(StGathered(raw), 12) == StWordIsa(raw)
  {
    if SignSet(raw) {
      ExtendWordNegative(StGathered(raw), 12);
      StWordMatchesNegative(raw);
    } else {
      ExtendWordNonNegative(StGathered(raw), 12);
      StWordMatchesNonNegative(raw);
    }
  }

  lemma StWordMatchesNegative(raw: bv32)
    requires SignSet(raw)
    ensures StGathered(raw) | 0xFFFF_F000 == StWordIsa(raw)
  {
  }

  lemma StWordMatchesNonNegative(raw: bv32)
    requires !SignSet(raw)
    ensures StGathered(raw) == StWordIsa(raw)
  {
  }

  /** The S-type immediate is the one the ISA defines. */
  lemma StImmediateMatchesIsa(raw: bv32)
    ensures StImmediate(Decode(raw)) == StImmediateIsa(raw)
  {
    StGathers(raw);
    StWordMatches(raw);
  }

  // U-type

  /** The U-type immediate is the one the ISA defines. */
  lemma UtWordMatches(raw: bv32)
    ensures ExtendWord(UtGathered(raw), 32) == UtWordIsa(raw)
  {
    ExtendWordNonNegative(UtGathered(raw), 32);
    assert UtGathered(raw) == UtWordIsa(raw);
  }

  lemma UtImmediateMatchesIsa(raw: bv32)
    ensures UtImmediate(Decode(raw)) == UtImmediateIsa(raw)
  {
    UtGathers(raw);
    UtWordMatches(raw);
  }

  // B-type

  /** With its sign bit placed at bit 19, which no field reaches, the
      gathered B-type value is never extended: it is the ISA's 13-bit
      offset without the sign. */
  lemma BtWordDropsSign(raw: bv32)
    ensures ExtendWord(BtGathered(raw), 20) == BtWordIsa(raw) & 0x1FFE
  {
    BtGatheredBelowSignBit(raw);
    ExtendWordNonNegative(BtGathered(raw), 20);
    BtGatheredIsLowBits(raw);
  }

  lemma BtGatheredBelowSignBit(raw: bv32)
    ensures BtGathered(raw) & ((1 as bv32) << 19) == 0
  {
  }

  lemma BtGatheredIsLowBits(raw: bv32)
    ensures BtGathered(raw) == BtWordIsa(raw) & 0x1FFE
  {
    if SignSet(raw) {
      BtGatheredIsLowBitsNegative(raw);
    } else {
      BtGatheredIsLowBitsNonNegative(raw);
    }
  }

  lemma BtGatheredIsLowBitsNegative(raw: bv32)
    requires SignSet(raw)
    ensures BtGathered(raw) == BtWordIsa(raw) & 0x1FFE
  {
  }

  lemma BtGatheredIsLowBitsNonNegative(raw: bv32)
    requires !SignSet(raw)
    ensures BtGathered(raw) == BtWordIsa(raw) & 0x1FFE
  {
  }

  /** A word below 2^31 widens to the same value by sign and by zeros. */
  lemma Sext32OfSmall(w: bv32)
    requires w < 0x8000_0000
    ensures Sext32(Zext32(w)) == Zext32(w)
  {
  }

  /** As decoded, the B-type immediate is the ISA's offset with its sign
      dropped: the low 13 bits only, so never negative and never above
      8190. */
  lemma BtImmediateDropsSign(raw: bv32)
    ensures BtImmediate(Decode(raw)) == Zext32(BtWordIsa(raw) & 0x1FFE)
  {
    BtGathers(raw);
    BtWordDropsSign(raw);
    Sext32OfSmall(BtWordIsa(raw) & 0x1FFE);
  }

  /** BEQ x0, x0, -4096: the ISA's offset is -4096, the decoded one 4096. */
  lemma BtImmediateCounterexample()
    ensures BtImmediateIsa(0x8000_0063) == 0xFFFF_FFFF_FFFF_F000
    ensures BtImmediate(Decode(0x8000_0063)) == 0x1000
  {
    BtImmediateDropsSign(0x8000_0063);
  }

  lemma BtWordMatchesCorrected(raw: bv32)
    ensures ExtendWord(BtGathered(raw), 13) == BtWordIsa(raw)
  {
    if SignSet(raw) {
      ExtendWordNegative(BtGathered(raw), 13);
      BtWordMatchesCorrectedNegative(raw);
    } else {
      ExtendWordNonNegative(BtGathered(raw), 13);
      BtWordMatchesCorrectedNonNegative(raw);
    }
  }

  lemma BtWordMatchesCorrectedNegative(raw: bv32)
    requires SignSet(raw)
    ensures BtGathered(raw) | 0xFFFF_E000 == BtWordIsa(raw)
  {
  }

  lemma BtWordMatchesCorrectedNonNegative(raw: bv32)
    requires !SignSet(raw)
    ensures BtGathered(raw) == BtWordIsa(raw)
  {
  }

  /** Read 13 bits wide, the same fields give the ISA's B-type offset. */
  lemma BtImmediateCorrectedMatchesIsa(raw: bv32)
    ensures BtImmediateCorrected(Decode(raw)) == BtImmediateIsa(raw)
  {
    BtGathers(raw);
    BtWordMatchesCorrected(raw);
  }

  // J-type

  /** JAL x0, 2: bits 30..21 hold 1, which the ISA reads as offset 2 and
      the decoder, placing those bits one position too low, as 1. */
  lemma JtImmediateCounterexample()
    ensures JtImmediateIsa(0x0020_006F) == 2
    ensures JtImmediate(Decode(0x0020_006F)) == 1
  {
    JtGathers(0x0020_006F);
    ExtendWordNonNegative(JtGathered(0x0020_006F), 20);
  }

  /** For every word: the code's J-type offset is the ISA's exactly when
      bits 30..21 are zero and bit 31 equals bit 19. The decoder moves bits
      30..21 one place too low and takes bit 19 as the sign, so only words
      where both mistakes are invisible agree. */
  lemma JtImmediateAgreesIff(raw: bv32)
    ensures JtImmediate(Decode(raw)) == JtImmediateIsa(raw)
        <==> raw & 0x7FE0_0000 == 0 && raw >> 31 == (raw >> 19) & 1
  {
    JtGathers(raw);
    JtWordAgreesIff(raw);
    WidenWordInjective(ExtendWord(JtGathered(raw), 20), JtWordIsa(raw));
  }

  /** Widening a word to 64 bits loses nothing. */
  lemma WidenWordInjective(x: bv32, y: bv32)
    ensures Sext32(Zext32(x)) == Sext32(Zext32(y)) ==> x == y
  {
    Sext32Extends(Zext32(x));
    Sext32Extends(Zext32(y));
  }

  lemma JtWordAgreesIff(raw: bv32)
    ensures ExtendWord(JtGathered(raw), 20) == JtWordIsa(raw)
        <==> raw & 0x7FE0_0000 == 0 && raw >> 31 == (raw >> 19) & 1
  {
    if JtGathered(raw) & ((1 as bv32) << 19) != 0 {
      ExtendWordNegative(JtGathered(raw), 20);
      JtWordAgreesIffNegative(raw);
    } else {
      ExtendWordNonNegative(JtGathered(raw), 20);
      JtWordAgreesIffNonNegative(raw);
    }
  }

  lemma JtWordAgreesIffNegative(raw: bv32)
    requires JtGathered(raw) & ((1 as bv32) << 19) != 0
    ensures JtGathered(raw) | (0xFFFF_FFFF << 20) == JtWordIsa(raw)
        <==> raw & 0x7FE0_0000 == 0 && raw >> 31 == (raw >> 19) & 1
  {
  }

  lemma JtWordAgreesIffNonNegative(raw: bv32)
    requires JtGathered(raw) & ((1 as bv32) << 19) == 0
    ensures JtGathered(raw) == JtWordIsa(raw)
        <==> raw & 0x7FE0_0000 == 0 && raw >> 31 == (raw >> 19) & 1
  {
  }

  lemma JtWordMatchesCorrected(raw: bv32)
    ensures ExtendWord(JtGatheredCorrected(raw), 21) == JtWordIsa(raw)
  {
    if SignSet(raw) {
      ExtendWordNegative(JtGatheredCorrected(raw), 21);
      JtWordMatchesCorrectedNegative(raw);
    } else {
      ExtendWordNonNegative(JtGatheredCorrected(raw), 21);
      JtWordMatchesCorrectedNonNegative(raw);
    }
  }

  lemma JtWordMatchesCorrectedNegative(raw: bv32)
    requires SignSet(raw)
    ensures JtGatheredCorrected(raw) | 0xFFE0_0000 == JtWordIsa(raw)
  {
  }

  lemma JtWordMatchesCorrectedNonNegative(raw: bv32)
    requires !SignSet(raw)
    ensures JtGatheredCorrected(raw) == JtWordIsa(raw)
  {
  }

  /** With bit 31 placed at bit 20, bits 30..21 at bits 10..1 and a width of
      21 bits, the fields give the ISA's J-type offset. */
  lemma JtImmediateCorrectedMatchesIsa(raw: bv32)
    ensures JtImmediateCorrected(Decode(raw)) == JtImmediateIsa(raw)
  {
    JtGathersCorrected(raw);
    JtWordMatchesCorrected(raw);
  }

  // ---------------------------------------------------------------------
  // Encoding immediates: the inverse of the ISA's reading

  /** `v` is a 12-bit two's complement number widened to 64 bits:
      -2048 <= v <= 2047. */
  predicate FitsSigned12(v: bv64)
  {
    v + 0x800 < 0x1000
  }

  /** `v` is an even 13-bit two's complement number: a branch offset. */
  predicate FitsBranch(v: bv64)
  {
    v + 0x1000 < 0x2000 && v & 1 == 0
  }

  /** `v` is an even 21-bit two's complement number: a jump offset. */
  predicate FitsJump(v: bv64)
  {
    v + 0x10_0000 < 0x20_0000 && v & 1 == 0
  }

  /** `v` is a 32-bit two's complement number with its low 12 bits clear. */
  predicate FitsUpper(v: bv64)
  {
    v + 0x8000_0000 < 0x1_0000_0000 && v & 0xFFF == 0
  }

  /** The I-type word carrying `v` in bits 31..20; the other bits come from
      `rest`. */
  function PlaceI(v: bv64, rest: bv32): bv32
  {
    (((v & 0xFFF) as bv32) << 20) | (rest & 0x000F_FFFF)
  }

  /** The S-type word: v[11:5] in bits 31..25 and v[4:0] in bits 11..7. */
  function PlaceS(v: bv64, rest: bv32): bv32
  {
    ((((v >> 5) & 0x7F) as bv32) << 25) | (((v & 0x1F) as bv32) << 7) | (rest & 0x01FF_F07F)
  }

  /** The B-type word: v[12] in bit 31, v[10:5] in bits 30..25, v[4:1] in
      bits 11..8 and v[11] in bit 7. */
  function PlaceB(v: bv64, rest: bv32): bv32
  {
    ((((v >> 12) & 1) as bv32) << 31) | ((((v >> 5) & 0x3F) as bv32) << 25)
    | ((((v >> 1) & 0xF) as bv32) << 8) | ((((v >> 11) & 1) as bv32) << 7)
    | (rest & 0x01FF_F07F)
  }

  /** The U-type word: v[31:12] in bits 31..12. */
  function PlaceU(v: bv64, rest: bv32): bv32
  {
    ((v & 0xFFFF_F000) as bv32) | (rest & 0xFFF)
  }

  /** The J-type word: v[20] in bit 31, v[10:1] in bits 30..21, v[11] in
      bit 20 and v[19:12] in bits 19..12. */
  function PlaceJ(v: bv64, rest: bv32): bv32
  {
    ((((v >> 20) & 1) as bv32) << 31) | ((((v >> 1) & 0x3FF) as bv32) << 21)
    | ((((v >> 11) & 1) as bv32) << 20) | ((((v >> 12) & 0xFF) as bv32) << 12)
    | (rest & 0xFFF)
  }

  lemma ItIsaRoundTrip(v: bv64, rest: bv32)
    requires FitsSigned12(v)
    ensures ItImmediateIsa(PlaceI(v, rest)) == v
  {
  }

  lemma StIsaRoundTrip(v: bv64, rest: bv32)
    requires FitsSigned12(v)
    ensures StImmediateIsa(PlaceS(v, rest)) == v
  {
  }

  lemma BtIsaRoundTrip(v: bv64, rest: bv32)
    requires FitsBranch(v)
    ensures BtImmediateIsa(PlaceB(v, rest)) == v
  {
  }

  lemma UtIsaRoundTrip(v: bv64, rest: bv32)
    requires FitsUpper(v)
    ensures UtImmediateIsa(PlaceU(v, rest)) == v
  {
    if v & 0x8000_0000 == 0 {
      UtIsaRoundTripNonNegative(v, rest);
    } else {
      UtIsaRoundTripNegative(v, rest);
    }
  }

  lemma UtIsaRoundTripNonNegative(v: bv64, rest: bv32)
    requires v < 0x8000_0000 && v & 0xFFF == 0
    ensures UtImmediateIsa(PlaceU(v, rest)) == v
  {
  }

  lemma UtIsaRoundTripNegative(v: bv64, rest: bv32)
    requires v >= 0xFFFF_FFFF_8000_0000 && v & 0xFFF == 0
    ensures UtImmediateIsa(PlaceU(v, rest)) == v
  {
  }

  lemma JtIsaRoundTrip(v: bv64, rest: bv32)
    requires FitsJump(v)
    ensures JtImmediateIsa(PlaceJ(v, rest)) == v
  {
  }

  /** Decoding recovers every I-type immediate, whatever the other bits. */
  lemma ItRoundTrip(v: bv64, rest: bv32)
    requires FitsSigned12(v)
    ensures ItImmediate(Decode(PlaceI(v, rest))) == v
  {
    ItImmediateMatchesIsa(PlaceI(v, rest));
    ItIsaRoundTrip(v, rest);
  }

  /** Decoding recovers every S-type immediate. */
  lemma StRoundTrip(v: bv64, rest: bv32)
    requires FitsSigned12(v)
    ensures StImmediate(Decode(PlaceS(v, rest))) == v
  {
    StImmediateMatchesIsa(PlaceS(v, rest));
    StIsaRoundTrip(v, rest);
  }

  /** Decoding recovers every U-type immediate. */
  lemma UtRoundTrip(v: bv64, rest: bv32)
    requires FitsUpper(v)
    ensures UtImmediate(Decode(PlaceU(v, rest))) == v
  {
    UtImmediateMatchesIsa(PlaceU(v, rest));
    UtIsaRoundTrip(v, rest);
  }

  /** As written, a branch offset comes back without its sign: its low 13
      bits read as a non-negative number. */
  lemma BtRoundTripAsWritten(v: bv64, rest: bv32)
    requires FitsBranch(v)
    ensures BtImmediate(Decode(PlaceB(v, rest))) == v & 0x1FFE
  {
    BtImmediateDropsSign(PlaceB(v, rest));
    BtWordLowBits(v, rest);
  }

  lemma BtWordLowBits(v: bv64, rest: bv32)
    requires FitsBranch(v)
    ensures Zext32(BtWordIsa(PlaceB(v, rest)) & 0x1FFE) == v & 0x1FFE
  {
    var raw := PlaceB(v, rest);
    BtIsaRoundTrip(v, rest);
    BtLowBits(BtImmediateIsa(raw), BtWordIsa(raw));
  }

  lemma BtLowBits(v: bv64, w: bv32)
    requires v == Sext32(Zext32(w))
    ensures Zext32(w & 0x1FFE) == v & 0x1FFE
  {
  }

  /** Read 13 bits wide, every branch offset comes back. */
  lemma BtRoundTripCorrected(v: bv64, rest: bv32)
    requires FitsBranch(v)
    ensures BtImmediateCorrected(Decode(PlaceB(v, rest))) == v
  {
    BtImmediateCorrectedMatchesIsa(PlaceB(v, rest));
    BtIsaRoundTrip(v, rest);
  }

  /** With the corrected layout, every jump offset comes back. */
  lemma JtRoundTripCorrected(v: bv64, rest: bv32)
    requires FitsJump(v)
    ensures JtImmediateCorrected(Decode(PlaceJ(v, rest))) == v
  {
    JtImmediateCorrectedMatchesIsa(PlaceJ(v, rest));
    JtIsaRoundTrip(v, rest);
  }
}
