/** The values the integer arms of `Cpu::execute` compute, on raw 64-bit
    register patterns. Where an arm departs from the RISC-V Unprivileged ISA
    the function that follows the code carries the suffix `AsWritten` and the
    function without it is the ISA's rule; the lemmas say exactly where the
    two agree. Every `wrapping_*` operation is bit-vector arithmetic modulo
    2^64 (or 2^32 for the `i32`/`u32` forms); Rust's signed division and
    remainder truncate toward zero and are built here from the unsigned ones
    on magnitudes. */
module Alu {

  import opened Bits

  /** The value a comparison arm writes: 1 when the test holds, else 0. */
  function Flag(c: bool): bv64
  {
    if c then 1 else 0
  }

  /** `wrapping_add` on 64-bit registers, as ADD and ADDI compute it. */
  function Add(a: bv64, b: bv64): bv64
  {
    a + b
  }

  /** The low half of a register, `x as u32`. */
  function Lo32(x: bv64): bv32
  {
    (x & 0xFFFF_FFFF) as bv32
  }

  // ---------------------------------------------------------------------
  // Effective addresses

  /** `address_from_it/st/bt/jt/ut`: a non-negative offset is added, a
      negative one is subtracted as its magnitude (`offset.abs()`). The
      arithmetic wraps as a release build's does. */
  function OffsetAddress(base: bv64, offset: bv64): bv64
  {
    if !Negative(offset) then base + offset else base - (-offset)
  }

  /** Both branches compute base + offset modulo 2^64: the address is the
      ISA's x[rs1] + sext(imm) (or pc + sext(imm)). */
  lemma OffsetAddressIsSum(base: bv64, offset: bv64)
    ensures OffsetAddress(base, offset) == base + offset
  {
    if Negative(offset) {
      SubtractNegated(base, offset);
    }
  }

  lemma SubtractNegated(base: bv64, offset: bv64)
    ensures base - (-offset) == base + offset
  {
  }

  // ---------------------------------------------------------------------
  // Comparisons

  /** Signed order is unsigned order with the sign bits flipped: the
      reference reading of `Slt` used by SLT, SLTI, BLT and BGE. */
  lemma SltBySignFlip(a: bv64, b: bv64)
    ensures Slt(a, b) <==> (a ^ 0x8000_0000_0000_0000) < (b ^ 0x8000_0000_0000_0000)
  {
    if Negative(a) && !Negative(b) {
      SignFlipMixed(a, b);
    } else if !Negative(a) && Negative(b) {
      SignFlipMixed(b, a);
    } else if Negative(a) {
      SignFlipBothNegative(a, b);
    } else {
      SignFlipBothNonNegative(a, b);
    }
  }

  lemma SignFlipMixed(a: bv64, b: bv64)
    requires Negative(a) && !Negative(b)
    ensures (a ^ 0x8000_0000_0000_0000) < (b ^ 0x8000_0000_0000_0000)
  {
    assert (a ^ 0x8000_0000_0000_0000) < 0x8000_0000_0000_0000 <= (b ^ 0x8000_0000_0000_0000);
  }

  lemma SignFlipBothNegative(a: bv64, b: bv64)
    requires Negative(a) && Negative(b)
    ensures a < b <==> (a ^ 0x8000_0000_0000_0000) < (b ^ 0x8000_0000_0000_0000)
  {
    assert a ^ 0x8000_0000_0000_0000 == a - 0x8000_0000_0000_0000 && b ^ 0x8000_0000_0000_0000 == b - 0x8000_0000_0000_0000;
  }

  lemma SignFlipBothNonNegative(a: bv64, b: bv64)
    requires !Negative(a) && !Negative(b)
    ensures a < b <==> (a ^ 0x8000_0000_0000_0000) < (b ^ 0x8000_0000_0000_0000)
  {
    assert a ^ 0x8000_0000_0000_0000 == a + 0x8000_0000_0000_0000 && b ^ 0x8000_0000_0000_0000 == b + 0x8000_0000_0000_0000;
  }

  /** SLTU as written: a source register index of 0 is tested with
      `rs2 != 0` instead of the comparison. */
  function SltuAsWritten(rs1: bv5, a: bv64, b: bv64): bv64
  {
    if rs1 == 0 then Flag(b != 0) else Flag(a < b)
  }

  /** Because x0 reads 0, the special case gives the unsigned comparison
      too: SLTU is the ISA's x[rs1] <u x[rs2] in both branches. */
  lemma SltuAgrees(rs1: bv5, a: bv64, b: bv64)
    requires rs1 == 0 ==> a == 0
    ensures SltuAsWritten(rs1, a, b) == Flag(a < b)
  {
  }

  /** SLTIU as written: a register VALUE of 1 takes a branch that tests it
      against 0, and so always yields 0. */
  function SltiuAsWritten(a: bv64, imm: bv64): bv64
  {
    if a != 1 then Flag(a < imm) else Flag(a == 0)
  }

  /** SLTIU gives the ISA's x[rs1] <u sext(imm) except exactly when the
      register holds 1 and the immediate exceeds 1 (`sltiu rd, rs1, 2` with
      x[rs1] = 1 writes 0 instead of 1). */
  lemma SltiuDiffersExactlyAtOne(a: bv64, imm: bv64)
    ensures SltiuAsWritten(a, imm) != Flag(a < imm) <==> a == 1 && imm > 1
  {
  }

  // ---------------------------------------------------------------------
  // 32-bit ("W") arithmetic

  /** Two patterns with the same low half sign-extend to the same value:
      every W result depends on its 32-bit input only. */
  lemma Sext32LowOnly(x: bv64, y: bv64)
    requires x & 0xFFFF_FFFF == y & 0xFFFF_FFFF
    ensures Sext32(x) == Sext32(y)
  {
  }

  /** ADDW, `rs1.wrapping_add(rs2) as i32 as i64 as u64`. */
  function AddW(a: bv64, b: bv64): bv64
  {
    Sext32(a + b)
  }

  /** SUBW, `rs1.wrapping_sub(rs2) as i32 as i64 as u64`. */
  function SubW(a: bv64, b: bv64): bv64
  {
    Sext32(a - b)
  }

  /** ADDW is a 32-bit operation: the result is a sign-extended word and
      the upper halves of the operands do not matter. */
  lemma AddwIsWordOperation(a: bv64, b: bv64)
    ensures IsSext32(AddW(a, b))
    ensures AddW(a, b) == AddW(a & 0xFFFF_FFFF, b & 0xFFFF_FFFF)
  {
  }

  /** SUBW likewise. */
  lemma SubwIsWordOperation(a: bv64, b: bv64)
    ensures IsSext32(SubW(a, b))
    ensures SubW(a, b) == SubW(a & 0xFFFF_FFFF, b & 0xFFFF_FFFF)
  {
  }

  /** `0x7fffffff +w 1` overflows into the sign-extended negative word. */
  lemma AddwOverflowExample()
    ensures AddW(0x7FFF_FFFF, 1) == 0xFFFF_FFFF_8000_0000
    ensures Add(0xFFFF_FFFF_FFFF_FFFF, 1) == 0
  {
  }

  /** ADDIW as written: a zero immediate takes a separate branch that
      masks the register instead of adding. */
  function AddiwAsWritten(a: bv64, imm: bv64): bv64
  {
    if imm != 0 then Sext32(a + imm) else Sext32(a & 0xFFFF_FFFF)
  }

  /** The two branches of ADDIW agree: it is ADDW with the immediate. */
  lemma AddiwAgrees(a: bv64, imm: bv64)
    ensures AddiwAsWritten(a, imm) == AddW(a, imm)
  {
  }

  /** SLLW and SLLIW, `(rs1 << shift) as i32 as i64 as u64`. */
  function SllW(a: bv64, k: bv5): bv64
  {
    Sext32(a << k)
  }

  /** Shifting left never moves upper bits down, so SLLW follows the ISA:
      only the low word of the operand matters. */
  lemma SllwIsWordShift(a: bv64, k: bv5)
    ensures SllW(a, k) == SllW(a & 0xFFFF_FFFF, k)
  {
  }

  /** SRLW and SRLIW as written: the whole 64-bit register is shifted, so
      upper bits slide into the word before it is truncated. */
  function SrlwAsWritten(a: bv64, k: bv5): bv64
  {
    Sext32(a >> k)
  }

  /** SRLW and SRLIW in the ISA: the low word shifted, zeros in. */
  function Srlw(a: bv64, k: bv5): bv64
  {
    Sext32((a & 0xFFFF_FFFF) >> k)
  }

  /** SRAW and SRAIW as written: `(rs1 as i64) >> shift`, then truncated. */
  function SrawAsWritten(a: bv64, k: bv5): bv64
  {
    Sext32(Sra64(a, k as bv6))
  }

  /** SRAW and SRAIW in the ISA: the low word shifted, copies of its bit
      31 in. */
  function Sraw(a: bv64, k: bv5): bv64
  {
    Sext32(Sra64(Sext32(a), k as bv6))
  }

  /** The logical word shift agrees with the ISA when the register's upper
      half is zero, or when nothing is shifted. */
  lemma SrlwAgrees(a: bv64, k: bv5)
    requires a & 0xFFFF_FFFF == a || k == 0
    ensures SrlwAsWritten(a, k) == Srlw(a, k)
  {
  }

  /** The arithmetic word shift agrees with the ISA on registers that hold
      a sign-extended word, as every W result does. */
  lemma SrawAgrees(a: bv64, k: bv5)
    requires IsSext32(a)
    ensures SrawAsWritten(a, k) == Sraw(a, k)
  {
  }

  /** In the ISA an arithmetic word shift of a word whose bit 31 is clear
      is the logical one. */
  lemma SrawOfNonNegativeWord(a: bv64, k: bv5)
    requires a & 0x8000_0000 == 0
    ensures Sraw(a, k) == Srlw(a, k)
  {
    assert Sext32(a) == a & 0xFFFF_FFFF;
    Sra64NonNegative(a & 0xFFFF_FFFF, k as bv6);
  }

  /** Where the right word shifts differ: `srliw` by 1 of 2^32 gives
      0xFFFFFFFF80000000 as written instead of 0; of the sign-extended word
      -2^31 it gives 0xFFFFFFFFC0000000 instead of 0x40000000; and `sraiw`
      by 1 of 2^32 gives 0xFFFFFFFF80000000 instead of 0. */
  lemma RightWordShiftCounterexamples()
    ensures SrlwAsWritten(0x1_0000_0000, 1) == 0xFFFF_FFFF_8000_0000
    ensures Srlw(0x1_0000_0000, 1) == 0
    ensures SrlwAsWritten(0xFFFF_FFFF_8000_0000, 1) == 0xFFFF_FFFF_C000_0000
    ensures Srlw(0xFFFF_FFFF_8000_0000, 1) == 0x4000_0000
    ensures SrawAsWritten(0x1_0000_0000, 1) == 0xFFFF_FFFF_8000_0000
    ensures Sraw(0x1_0000_0000, 1) == 0
  {
    assert Sra64(0x1_0000_0000, 1) == 0x8000_0000;
    assert Sra64(0, 1) == 0;
  }

  // ---------------------------------------------------------------------
  // Multiplication

  /** `x as i64 as i128 as u128`: a 64-bit pattern sign-extended. */
  function Sext128(x: bv64): bv128
  {
    if Negative(x) then (x as bv128) | 0xFFFF_FFFF_FFFF_FFFF_0000_0000_0000_0000
    else x as bv128
  }

  /** Bits 127..64 of a wrapping 128-bit product: the part every MULH
      variant keeps. */
  function HighProduct(x: bv128, y: bv128): bv64
  {
    ((x * y) >> 64) as bv64
  }

  /** MULHU: bits 127..64 of the unsigned 128-bit product. */
  function Mulhu(a: bv64, b: bv64): bv64
  {
    HighProduct(a as bv128, b as bv128)
  }

  /** MUL (`wrapping_mul`) is bits 63..0 of the same unsigned product, so
      MUL and MULHU together give all 128 bits of it. */
  lemma MulIsLowProduct(a: bv64, b: bv64)
    ensures a * b == (((a as bv128) * (b as bv128)) & 0xFFFF_FFFF_FFFF_FFFF) as bv64
  {
  }

  /** MULH as written: `rs1 as i128` of a `u64` zero-extends, and the
      product's bits 127..64 are taken. */
  function MulhAsWritten(a: bv64, b: bv64): bv64
  {
    HighProduct(a as bv128, b as bv128)
  }

  /** MULH in the ISA: bits 127..64 of the signed product. */
  function Mulh(a: bv64, b: bv64): bv64
  {
    HighProduct(Sext128(a), Sext128(b))
  }

  /** MULH as written computes MULHU for every pair of operands. The ISA's
      MULH differs once an operand is negative: -1 * 1 has the high half
      0xFFFFFFFFFFFFFFFF, but the code gives 0. */
  lemma MulhIsMulhu(a: bv64, b: bv64)
    ensures MulhAsWritten(a, b) == Mulhu(a, b)
    ensures Mulh(0xFFFF_FFFF_FFFF_FFFF, 1) == 0xFFFF_FFFF_FFFF_FFFF
    ensures MulhAsWritten(0xFFFF_FFFF_FFFF_FFFF, 1) == 0
  {
    assert Sext128(0xFFFF_FFFF_FFFF_FFFF) == 0xFFFF_FFFF_FFFF_FFFF_FFFF_FFFF_FFFF_FFFF;
    assert Sext128(1) == 1;
  }

  /** Sign- and zero-extension to 128 bits agree on non-negative values, so
      the ISA's MULH is MULHU when neither operand is negative. */
  lemma Sext128OfNonNegative(x: bv64)
    requires !Negative(x)
    ensures Sext128(x) == x as bv128
  {
  }

  /** Where both operands are non-negative the signed and unsigned high
      products coincide, so MULH as written is right there. */
  lemma MulhAgreesOnNonNegative(a: bv64, b: bv64)
    requires !Negative(a) && !Negative(b)
    ensures MulhAsWritten(a, b) == Mulh(a, b)
  {
    Sext128OfNonNegative(a);
    Sext128OfNonNegative(b);
  }

  /** MULHSU as written: a negative rs1 is replaced by its magnitude
      (`i64::abs`, which keeps i64::MIN in a release build), whose sign is
      then lost, while rs2 is sign-extended by `i64 as u128`. */
  function MulhsuAsWritten(a: bv64, b: bv64): bv64
  {
    var lhs := if Negative(a) then Sext128(-a) else a as bv128;
    HighProduct(lhs, Sext128(b))
  }

  /** MULHSU in the ISA: signed rs1 times unsigned rs2. */
  function Mulhsu(a: bv64, b: bv64): bv64
  {
    HighProduct(Sext128(a), b as bv128)
  }

  /** MULHSU as written departs from the ISA on either kind of sign:
      -1 * 1 and 1 * 2^63. */
  lemma MulhsuCounterexamples()
    ensures MulhsuAsWritten(0xFFFF_FFFF_FFFF_FFFF, 1) == 0
    ensures Mulhsu(0xFFFF_FFFF_FFFF_FFFF, 1) == 0xFFFF_FFFF_FFFF_FFFF
    ensures MulhsuAsWritten(1, 0x8000_0000_0000_0000) == 0xFFFF_FFFF_FFFF_FFFF
    ensures Mulhsu(1, 0x8000_0000_0000_0000) == 0
  {
    assert Sext128(1) == 1;
    assert Sext128(0xFFFF_FFFF_FFFF_FFFF) == 0xFFFF_FFFF_FFFF_FFFF_FFFF_FFFF_FFFF_FFFF;
    assert Sext128(0x8000_0000_0000_0000) == 0xFFFF_FFFF_FFFF_FFFF_8000_0000_0000_0000;
  }

  /** Where both operands are non-negative MULHSU as written is the ISA's
      MULHSU, and both are the unsigned high product. */
  lemma MulhsuAgreesOnNonNegative(a: bv64, b: bv64)
    requires !Negative(a) && !Negative(b)
    ensures MulhsuAsWritten(a, b) == Mulhsu(a, b) == Mulhu(a, b)
  {
    Sext128OfNonNegative(a);
    Sext128OfNonNegative(b);
  }

  /** MULW, `(rs1 as i32).wrapping_mul(rs2 as i32) as u64`: the low word of
      the 64-bit product, sign-extended. */
  function MulW(a: bv64, b: bv64): bv64
  {
    Sext32(a * b)
  }

  /** The low word of the 64-bit product is the 32-bit product of the low
      words, so MULW is the `i32` multiplication the arm performs. */
  lemma MulwIsWordProduct(a: bv64, b: bv64)
    ensures MulW(a, b) == Sext32((((a & 0xFFFF_FFFF) as bv32) * ((b & 0xFFFF_FFFF) as bv32)) as bv64)
  {
  }

  // ---------------------------------------------------------------------
  // Division

  /** The magnitude of a signed pattern, as an unsigned number; i64::MIN's
      magnitude 2^63 is its own pattern. */
  function Abs(x: bv64): bv64
  {
    if Negative(x) then -x else x
  }

  /** `i64::wrapping_div` for a non-zero divisor: truncation toward zero. */
  function SDiv(a: bv64, b: bv64): bv64
    requires b != 0
  {
    var q := Abs(a) / Abs(b);
    if Negative(a) != Negative(b) then -q else q
  }

  /** `i64::wrapping_rem` for a non-zero divisor: the sign of the dividend. */
  function SRem(a: bv64, b: bv64): bv64
    requires b != 0
  {
    var r := Abs(a) % Abs(b);
    if Negative(a) then -r else r
  }

  /** DIV: all ones for a zero divisor. */
  function Div(a: bv64, b: bv64): bv64
  {
    if b == 0 then 0xFFFF_FFFF_FFFF_FFFF else SDiv(a, b)
  }

  /** DIVU: u64::MAX for a zero divisor. */
  function Divu(a: bv64, b: bv64): bv64
  {
    if b == 0 then 0xFFFF_FFFF_FFFF_FFFF else a / b
  }

  /** REM as written: 0 for a zero divisor. */
  function RemAsWritten(a: bv64, b: bv64): bv64
  {
    if b == 0 then 0 else SRem(a, b)
  }

  /** REM in the ISA: the dividend for a zero divisor. */
  function Rem(a: bv64, b: bv64): bv64
  {
    if b == 0 then a else SRem(a, b)
  }

  /** REMU as written: 0 for a zero divisor. */
  function RemuAsWritten(a: bv64, b: bv64): bv64
  {
    if b == 0 then 0 else a % b
  }

  /** REMU in the ISA: the dividend for a zero divisor. */
  function Remu(a: bv64, b: bv64): bv64
  {
    if b == 0 then a else a % b
  }

  /** The overflow row of the ISA's division table: i64::MIN / -1 is
      i64::MIN with remainder 0, with no trap. */
  lemma DivOverflow()
    ensures Div(0x8000_0000_0000_0000, 0xFFFF_FFFF_FFFF_FFFF) == 0x8000_0000_0000_0000
    ensures Rem(0x8000_0000_0000_0000, 0xFFFF_FFFF_FFFF_FFFF) == 0 && RemAsWritten(0x8000_0000_0000_0000, 0xFFFF_FFFF_FFFF_FFFF) == 0
  {
    assert Abs(0x8000_0000_0000_0000) == 0x8000_0000_0000_0000 && Abs(0xFFFF_FFFF_FFFF_FFFF) == 1;
  }

  /** The ISA's quotient for a zero divisor, which DIV (`u64::MAX as i64`),
      DIVU (`u64::MAX`) and DIVW (-1) give for every dividend: every bit
      set. DIVUW as written gives only the low word's bits. */
  lemma DivByZero(a: bv64)
    ensures Div(a, 0) == 0xFFFF_FFFF_FFFF_FFFF && Divu(a, 0) == 0xFFFF_FFFF_FFFF_FFFF
    ensures DivW(a, 0) == 0xFFFF_FFFF_FFFF_FFFF && Divuw(a, 0) == 0xFFFF_FFFF_FFFF_FFFF
    ensures DivuwAsWritten(a, 0) == 0xFFFF_FFFF
  {
  }

  /** Division truncates toward zero and the remainder takes the sign of
      the dividend: -7 / 2 is -3 remainder -1 and 7 / -2 is -3 remainder 1,
      where floored division would give -4 remainder 1 and -4 remainder -1. */
  lemma DivisionTruncates()
    ensures Div(0xFFFF_FFFF_FFFF_FFF9, 2) == 0xFFFF_FFFF_FFFF_FFFD
    ensures Rem(0xFFFF_FFFF_FFFF_FFF9, 2) == 0xFFFF_FFFF_FFFF_FFFF
    ensures Div(7, 0xFFFF_FFFF_FFFF_FFFE) == 0xFFFF_FFFF_FFFF_FFFD
    ensures Rem(7, 0xFFFF_FFFF_FFFF_FFFE) == 1
  {
  }

  /** REM and REMU as written agree with the ISA exactly when the divisor
      is non-zero or the dividend is 0. */
  lemma RemAgreesIff(a: bv64, b: bv64)
    ensures RemAsWritten(a, b) == Rem(a, b) <==> b != 0 || a == 0
    ensures RemuAsWritten(a, b) == Remu(a, b) <==> b != 0 || a == 0
  {
  }

  // 32-bit division

  predicate Negative32(x: bv32)
  {
    x & 0x8000_0000 != 0
  }

  function Abs32(x: bv32): bv32
  {
    if Negative32(x) then -x else x
  }

  /** `i32::wrapping_div` for a non-zero divisor. */
  function SDiv32(a: bv32, b: bv32): bv32
    requires b != 0
  {
    var q := Abs32(a) / Abs32(b);
    if Negative32(a) != Negative32(b) then -q else q
  }

  /** `i32::wrapping_rem` for a non-zero divisor. */
  function SRem32(a: bv32, b: bv32): bv32
    requires b != 0
  {
    var r := Abs32(a) % Abs32(b);
    if Negative32(a) then -r else r
  }

  /** `x as i32 as i64 as u64` for a 32-bit `x`. */
  function Widen(x: bv32): bv64
  {
    Sext32(Zext32(x))
  }

  /** DIVW: -1 for a zero divisor. */
  function DivW(a: bv64, b: bv64): bv64
  {
    if Lo32(b) == 0 then 0xFFFF_FFFF_FFFF_FFFF else Widen(SDiv32(Lo32(a), Lo32(b)))
  }

  /** REMW as written: -1 for a zero divisor. */
  function RemwAsWritten(a: bv64, b: bv64): bv64
  {
    if Lo32(b) == 0 then 0xFFFF_FFFF_FFFF_FFFF else Widen(SRem32(Lo32(a), Lo32(b)))
  }

  /** REMW in the ISA: the sign-extended dividend for a zero divisor. */
  function Remw(a: bv64, b: bv64): bv64
  {
    if Lo32(b) == 0 then Sext32(a) else Widen(SRem32(Lo32(a), Lo32(b)))
  }

  /** DIVUW as written: the 32-bit quotient zero-extended (`as u64`), and
      0xFFFFFFFF for a zero divisor. */
  function DivuwAsWritten(a: bv64, b: bv64): bv64
  {
    if Lo32(b) == 0 then 0xFFFF_FFFF else Zext32(Lo32(a) / Lo32(b))
  }

  /** DIVUW in the ISA: the quotient sign-extended, all ones for a zero
      divisor. */
  function Divuw(a: bv64, b: bv64): bv64
  {
    if Lo32(b) == 0 then 0xFFFF_FFFF_FFFF_FFFF else Widen(Lo32(a) / Lo32(b))
  }

  /** REMUW as written: zero-extended, and 0xFFFFFFFF for a zero divisor. */
  function RemuwAsWritten(a: bv64, b: bv64): bv64
  {
    if Lo32(b) == 0 then 0xFFFF_FFFF else Zext32(Lo32(a) % Lo32(b))
  }

  /** REMUW in the ISA: sign-extended, the sign-extended dividend for a
      zero divisor. */
  function Remuw(a: bv64, b: bv64): bv64
  {
    if Lo32(b) == 0 then Sext32(a) else Widen(Lo32(a) % Lo32(b))
  }

  /** The ISA's rule for a zero divisor: the remainder is the dividend
      (sign-extended from its low word for the W forms), where the code
      gives 0 for REM and REMU and -1 for REMW. */
  lemma RemByZero(a: bv64)
    ensures Rem(a, 0) == a && Remu(a, 0) == a
    ensures Remw(a, 0) == Sext32(a) && Remuw(a, 0) == Sext32(a)
    ensures RemAsWritten(a, 0) == 0 && RemuAsWritten(a, 0) == 0
    ensures RemwAsWritten(a, 0) == 0xFFFF_FFFF_FFFF_FFFF
  {
  }

  /** Every word division of the ISA yields a sign-extended word, as all
      RV64 W instructions do. */
  lemma UnsignedWordDivisionSignExtends(a: bv64, b: bv64)
    ensures IsSext32(Divuw(a, b)) && IsSext32(Remuw(a, b))
  {
    if Lo32(b) == 0 {
      Sext32Idempotent(a);
    } else {
      Sext32Idempotent(Zext32(Lo32(a) / Lo32(b)));
      Sext32Idempotent(Zext32(Lo32(a) % Lo32(b)));
    }
  }

  /** Zero- and sign-extension of a word agree exactly when its bit 31 is
      clear. */
  lemma WidenIsZextIff(x: bv32)
    ensures Widen(x) == Zext32(x) <==> x & 0x8000_0000 == 0
  {
  }

  /** The word division table: DIVW by 0 is -1 and i32::MIN / -1 is
      i32::MIN sign-extended, with remainder 0. */
  lemma DivwSpecialCases(a: bv64)
    ensures DivW(a, 0) == 0xFFFF_FFFF_FFFF_FFFF
    ensures DivW(0x8000_0000, 0xFFFF_FFFF_FFFF_FFFF) == 0xFFFF_FFFF_8000_0000
    ensures Remw(0x8000_0000, 0xFFFF_FFFF_FFFF_FFFF) == 0
  {
    assert Lo32(0x8000_0000) == 0x8000_0000 && Lo32(0xFFFF_FFFF_FFFF_FFFF) == 0xFFFF_FFFF;
    assert Abs32(0x8000_0000) == 0x8000_0000 && Abs32(0xFFFF_FFFF) == 1;
  }

  /** DIVUW as written agrees with the ISA exactly when the divisor's low
      word is non-zero and the 32-bit quotient has bit 31 clear; a zero
      divisor gives 0x00000000FFFFFFFF instead of all ones. */
  lemma DivuwAgreesIff(a: bv64, b: bv64)
    ensures DivuwAsWritten(a, b) == Divuw(a, b)
        <==> Lo32(b) != 0 && (Lo32(a) / Lo32(b)) & 0x8000_0000 == 0
  {
    if Lo32(b) != 0 {
      WidenIsZextIff(Lo32(a) / Lo32(b));
    }
  }

  /** For a zero divisor REMUW as written gives 0x00000000FFFFFFFF where
      the ISA gives the sign-extended dividend: 0xFFFFFFFF80000000 for the
      dividend 0x80000000. */
  lemma RemuwByZero()
    ensures RemuwAsWritten(0x8000_0000, 0) == 0xFFFF_FFFF
    ensures Remuw(0x8000_0000, 0) == 0xFFFF_FFFF_8000_0000
  {
  }

  /** REMW as written agrees with the ISA exactly when the divisor's low
      word is non-zero or the dividend's sign-extended word is -1. */
  lemma RemwAgreesIff(a: bv64, b: bv64)
    ensures RemwAsWritten(a, b) == Remw(a, b) <==> Lo32(b) != 0 || Sext32(a) == 0xFFFF_FFFF_FFFF_FFFF
  {
  }
}
