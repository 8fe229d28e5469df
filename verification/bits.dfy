/** Bit-level vocabulary shared by the decoder and the execution engine:
    the ISA's x[hi:lo] slice notation, sign extension of narrow two's
    complement values, signed comparison and the arithmetic right shift that
    Rust performs on signed integers. A register holds a raw 64-bit pattern;
    these functions give its signed readings. 32-bit operations are written on
    64-bit patterns whose upper half is ignored, which is what Rust's
    `as u32` / `as i32` casts amount to. */
module Bits {


  /** x[hi:lo] in the ISA's notation, moved down to bit 0. */
  function Slice(x: bv32, hi: bv32, lo: bv32): bv32
    requires lo <= hi < 32
  {
    (x >> lo) & (((1 as bv32) << (hi - lo + 1)) - 1)
  }

  /** `x as u64` for a 32-bit `x`: the word in the low half, zeros above. */
  function Zext32(x: bv32): bv64
  {
    x as bv64
  }

  /** `x as i8 as i64 as u64`: an 8-bit pattern sign-extended to 64 bits. */
  function Sext8(x: bv8): bv64
  {
    ((x as bv64) ^ 0x80) - 0x80
  }

  /** Sext8 keeps the low bits and copies the sign bit into every higher
      bit. */
  lemma Sext8Extends(x: bv8)
    ensures Sext8(x) & 0xFF == x as bv64
    ensures Sext8(x) >> 7 == if x & 0x80 == 0 then 0 else 0xFFFF_FFFF_FFFF_FFFF >> 7
  {
    if x & 0x80 != 0 {
      Sext8Negative(x);
    } else {
      Sext8NonNegative(x);
    }
  }

  lemma Sext8Negative(x: bv8)
    requires x & 0x80 != 0
    ensures Sext8(x) & 0xFF == x as bv64
    ensures Sext8(x) >> 7 == 0xFFFF_FFFF_FFFF_FFFF >> 7
  {
    assert Sext8(x) == (x as bv64) | 0xFFFF_FFFF_FFFF_FF00;
  }

  lemma Sext8NonNegative(x: bv8)
    requires x & 0x80 == 0
    ensures Sext8(x) & 0xFF == x as bv64
    ensures Sext8(x) >> 7 == 0
  {
    assert Sext8(x) == x as bv64;
  }

  /** `x as i16 as i64 as u64`: a 16-bit pattern sign-extended to 64 bits. */
  function Sext16(x: bv16): bv64
  {
    ((x as bv64) ^ 0x8000) - 0x8000
  }

  /** Sext16 keeps the low bits and copies the sign bit into every higher
      bit. */
  lemma Sext16Extends(x: bv16)
    ensures Sext16(x) & 0xFFFF == x as bv64
    ensures Sext16(x) >> 15 == if x & 0x8000 == 0 then 0 else 0xFFFF_FFFF_FFFF_FFFF >> 15
  {
    if x & 0x8000 != 0 {
      Sext16Negative(x);
    } else {
      Sext16NonNegative(x);
    }
  }

  lemma Sext16Negative(x: bv16)
    requires x & 0x8000 != 0
    ensures Sext16(x) & 0xFFFF == x as bv64
    ensures Sext16(x) >> 15 == 0xFFFF_FFFF_FFFF_FFFF >> 15
  {
    assert Sext16(x) == (x as bv64) | 0xFFFF_FFFF_FFFF_0000;
  }

  lemma Sext16NonNegative(x: bv16)
    requires x & 0x8000 == 0
    ensures Sext16(x) & 0xFFFF == x as bv64
    ensures Sext16(x) >> 15 == 0
  {
    assert Sext16(x) == x as bv64;
  }

  /** `x as i32 as i64 as u64` for the low half of `x`: bits 31..0 are kept
      and bits 63..32 become copies of bit 31. */
  function Sext32(x: bv64): bv64
  {
    ((x & 0xFFFF_FFFF) ^ 0x8000_0000) - 0x8000_0000
  }

  /** Sext32 keeps the low bits and copies the sign bit into every higher
      bit. */
  lemma Sext32Extends(x: bv64)
    ensures Sext32(x) & 0xFFFF_FFFF == x & 0xFFFF_FFFF
    ensures Sext32(x) >> 31 == if x & 0x8000_0000 == 0 then 0 else 0xFFFF_FFFF_FFFF_FFFF >> 31
  {
    if x & 0x8000_0000 != 0 {
      Sext32Negative(x);
    } else {
      Sext32NonNegative(x);
    }
  }

  lemma Sext32Negative(x: bv64)
    requires x & 0x8000_0000 != 0
    ensures Sext32(x) & 0xFFFF_FFFF == x & 0xFFFF_FFFF
    ensures Sext32(x) >> 31 == 0xFFFF_FFFF_FFFF_FFFF >> 31
  {
    assert Sext32(x) == x | 0xFFFF_FFFF_0000_0000;
  }

  lemma Sext32NonNegative(x: bv64)
    requires x & 0x8000_0000 == 0
    ensures Sext32(x) & 0xFFFF_FFFF == x & 0xFFFF_FFFF
    ensures Sext32(x) >> 31 == 0
  {
    assert Sext32(x) == x & 0xFFFF_FFFF;
  }

  /** A value that is already the sign extension of its low 32 bits, as
      every result of a 32-bit ("W") instruction is. */
  predicate IsSext32(x: bv64)
  {
    Sext32(x) == x
  }

  /** Sign-extending twice changes nothing: every result of Sext32 is
      already in the form IsSext32 describes. */
  lemma Sext32Idempotent(x: bv64)
    ensures IsSext32(Sext32(x))
  {
    if x & 0x8000_0000 != 0 {
      Sext32IdempotentNegative(x);
    } else {
      Sext32IdempotentNonNegative(x);
    }
  }

  lemma Sext32IdempotentNegative(x: bv64)
    requires x & 0x8000_0000 != 0
    ensures IsSext32(Sext32(x))
  {
    assert Sext32(x) == x | 0xFFFF_FFFF_0000_0000;
  }

  lemma Sext32IdempotentNonNegative(x: bv64)
    requires x & 0x8000_0000 == 0
    ensures IsSext32(Sext32(x))
  {
    assert Sext32(x) == x & 0xFFFF_FFFF;
  }

  /** The value is negative when read as a signed 64-bit number. */
  predicate Negative(x: bv64)
  {
    x & 0x8000_0000_0000_0000 != 0
  }

  /** Signed 64-bit `<` (Rust's `i64` comparison) on raw patterns, by the
      two's complement order: a negative number is below every non-negative
      one, and numbers of the same sign compare as their patterns do. */
  predicate Slt(a: bv64, b: bv64)
  {
    if Negative(a) != Negative(b) then Negative(a) else a < b
  }

  /** Arithmetic right shift of a 64-bit pattern (`(x as i64) >> k`). The
      amount is a 6-bit value: every shift in the engine is either masked to
      6 bits or taken from a 5-bit register field. */
  function Sra64(x: bv64, k: bv6): bv64
  {
    if Negative(x) then !((!x) >> k) else x >> k
  }

  /** The arithmetic shift keeps the sign. */
  lemma Sra64KeepsSign(x: bv64, k: bv6)
    ensures Negative(Sra64(x, k)) == Negative(x)
  {
    if Negative(x) {
      Sra64KeepsSignNegative(x, k);
    }
  }

  lemma Sra64KeepsSignNegative(x: bv64, k: bv6)
    requires Negative(x)
    ensures Negative(Sra64(x, k))
  {
    assert !Negative((!x) >> k);
  }

  /** A non-negative value shifts exactly as an unsigned one. */
  lemma Sra64NonNegative(x: bv64, k: bv6)
    requires !Negative(x)
    ensures Sra64(x, k) == x >> k
  {
  }

  /** Shifting a negative value fills every vacated top bit with 1. */
  lemma Sra64FillsWithOnes(x: bv64, k: bv6)
    requires Negative(x)
    ensures Sra64(x, k) & !(0xFFFF_FFFF_FFFF_FFFF >> k) == !(0xFFFF_FFFF_FFFF_FFFF >> k)
  {
  }
}
