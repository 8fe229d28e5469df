/** The emulator's memory: one flat byte vector, read and written
    little-endian in accesses of 1, 2, 4 or 8 bytes. An access that reaches
    past the end of the vector makes the emulator panic; here it yields
    `None`. */
module Memory {

  import opened Wrappers

  type Bytes = seq<bv8>

  /** The width of an access. */
  datatype Width = Byte | Half | Word | Double

  /** The number of bytes an access of width `w` covers. */
  function Size(w: Width): nat
  {
    match w
    case Byte => 1
    case Half => 2
    case Word => 4
    case Double => 8
  }

  /** The low byte of `v`. */
  function Low(v: bv64): bv8
  {
    (v & 0xFF) as bv8
  }

  /** `to_le_bytes` of the value cut to the access width: its low bytes,
      least significant first. */
  function Encode(v: bv64, w: Width): (bs: Bytes)
    ensures |bs| == Size(w)
  {
    match w
    case Byte => [Low(v)]
    case Half => [Low(v), Low(v >> 8)]
    case Word => [Low(v), Low(v >> 8), Low(v >> 16), Low(v >> 24)]
    case Double => [Low(v), Low(v >> 8), Low(v >> 16), Low(v >> 24),
                    Low(v >> 32), Low(v >> 40), Low(v >> 48), Low(v >> 56)]
  }

  /** `from_le_bytes`: the number whose little-endian bytes are `bs`,
      zero-extended to 64 bits. */
  function Decode(bs: Bytes, w: Width): bv64
    requires |bs| == Size(w)
  {
    match w
    case Byte => bs[0] as bv64
    case Half => (bs[0] as bv64) | ((bs[1] as bv64) << 8)
    case Word => (bs[0] as bv64) | ((bs[1] as bv64) << 8)
                 | ((bs[2] as bv64) << 16) | ((bs[3] as bv64) << 24)
    case Double => (bs[0] as bv64) | ((bs[1] as bv64) << 8)
                   | ((bs[2] as bv64) << 16) | ((bs[3] as bv64) << 24)
                   | ((bs[4] as bv64) << 32) | ((bs[5] as bv64) << 40)
                   | ((bs[6] as bv64) << 48) | ((bs[7] as bv64) << 56)
  }

  /** The value as an access of width `w` stores it: its low bytes only. */
  function Truncate(v: bv64, w: Width): bv64
  {
    match w
    case Byte => v & 0xFF
    case Half => v & 0xFFFF
    case Word => v & 0xFFFF_FFFF
    case Double => v
  }

  /** Decoding the encoding of `v` gives `v` cut to the access width. */
  lemma DecodeEncode(v: bv64, w: Width)
    ensures Decode(Encode(v, w), w) == Truncate(v, w)
  {
    match w
    case Byte => DecodeEncodeByte(v);
    case Half => DecodeEncodeHalf(v);
    case Word => DecodeEncodeWord(v);
    case Double => DecodeEncodeDouble(v);
  }

  lemma DecodeEncodeByte(v: bv64)
    ensures Decode(Encode(v, Byte), Byte) == v & 0xFF
  {
  }

  lemma DecodeEncodeHalf(v: bv64)
    ensures Decode(Encode(v, Half), Half) == v & 0xFFFF
  {
  }

  lemma DecodeEncodeWord(v: bv64)
    ensures Decode(Encode(v, Word), Word) == v & 0xFFFF_FFFF
  {
  }

  lemma DecodeEncodeDouble(v: bv64)
    ensures Decode(Encode(v, Double), Double) == v
  {
  }

  /** Encoding a decoded value gives the bytes back: no two byte strings of
      one width read as the same number. */
  lemma EncodeDecode(bs: Bytes, w: Width)
    requires |bs| == Size(w)
    ensures Encode(Decode(bs, w), w) == bs
  {
    match w
    case Byte => EncodeDecodeByte(bs);
    case Half => EncodeDecodeHalf(bs);
    case Word => EncodeDecodeWord(bs);
    case Double => EncodeDecodeDouble(bs);
  }

  lemma EncodeDecodeByte(bs: Bytes)
    requires |bs| == 1
    ensures Encode(Decode(bs, Byte), Byte) == bs
  {
  }

  lemma EncodeDecodeHalf(bs: Bytes)
    requires |bs| == 2
    ensures Encode(Decode(bs, Half), Half) == bs
  {
  }

  lemma EncodeDecodeWord(bs: Bytes)
    requires |bs| == 4
    ensures Encode(Decode(bs, Word), Word) == bs
  {
  }

  lemma EncodeDecodeDouble(bs: Bytes)
    requires |bs| == 8
    ensures Encode(Decode(bs, Double), Double) == bs
  {
  }

  /** The bytes [a, a + size) as one little-endian number, or `None` when
      they do not all exist. This is the read `read_u8` performs and the one
      `read_u16`, `read_u32` and `read_u64` are meant to perform. */
  function Read(mem: Bytes, a: nat, w: Width): Option<bv64>
  {
    if a + Size(w) <= |mem| then Some(Decode(mem[a..a + Size(w)], w)) else None
  }

  /** A word read yields the four bytes at [a, a + 4), least significant
      first. */
  lemma ReadWordBytes(mem: Bytes, a: nat, v: bv64)
    requires Read(mem, a, Word) == Some(v)
    ensures a + 4 <= |mem|
    ensures v == (mem[a] as bv64) | ((mem[a + 1] as bv64) << 8)
                 | ((mem[a + 2] as bv64) << 16) | ((mem[a + 3] as bv64) << 24)
  {
  }

  /** `write_u8` .. `write_u64`: the low bytes of `v` stored little-endian
      at [a, a + size), or `None` when one of them lies past the end. */
  function Write(mem: Bytes, a: nat, w: Width, v: bv64): Option<Bytes>
  {
    if a + Size(w) <= |mem| then Some(mem[..a] + Encode(v, w) + mem[a + Size(w)..])
    else None
  }

  /** A write succeeds exactly where a read of the same width does, keeps
      the length, and changes no byte outside [a, a + size). */
  lemma WriteFrame(mem: Bytes, a: nat, w: Width, v: bv64)
    ensures Write(mem, a, w, v).Some? <==> Read(mem, a, w).Some?
    ensures Write(mem, a, w, v).Some? ==> |Write(mem, a, w, v).value| == |mem|
    ensures Write(mem, a, w, v).Some? ==>
      forall i :: 0 <= i < |mem| && !(a <= i < a + Size(w)) ==>
        Write(mem, a, w, v).value[i] == mem[i]
  {
    if a + Size(w) <= |mem| {
      var m := Write(mem, a, w, v).value;
      forall i | 0 <= i < |mem| && !(a <= i < a + Size(w))
        ensures m[i] == mem[i]
      {
        if i < a {
          assert m[i] == mem[..a][i];
        } else {
          assert m[i] == mem[a + Size(w)..][i - a - Size(w)];
        }
      }
    }
  }

  /** Reading back what was just written gives the stored value, cut to the
      access width. */
  lemma ReadAfterWrite(mem: Bytes, a: nat, w: Width, v: bv64)
    requires Write(mem, a, w, v).Some?
    ensures Read(Write(mem, a, w, v).value, a, w) == Some(Truncate(v, w))
  {
    var m := Write(mem, a, w, v).value;
    assert m[a..a + Size(w)] == Encode(v, w);
    DecodeEncode(v, w);
  }

  /** A read at the written address no wider than the write gives the
      stored value cut to the read's width: the write's low bytes come
      first. */
  lemma ReadNarrowerAfterWrite(mem: Bytes, a: nat, w: Width, v: bv64, w2: Width)
    requires Write(mem, a, w, v).Some? && Size(w2) <= Size(w)
    ensures Read(Write(mem, a, w, v).value, a, w2) == Some(Truncate(v, w2))
  {
    SliceOfMiddle(mem[..a], Encode(v, w), mem[a + Size(w)..], Size(w2));
    EncodePrefix(v, w, w2);
    DecodeEncode(v, w2);
  }

  /** The first k bytes after a prefix are the first k of what follows it. */
  lemma SliceOfMiddle(pre: Bytes, mid: Bytes, post: Bytes, k: nat)
    requires k <= |mid|
    ensures (pre + mid + post)[|pre|..|pre| + k] == mid[..k]
  {
  }

  /** The encoding at a narrower width is a prefix of the wider one. */
  lemma EncodePrefix(v: bv64, w: Width, w2: Width)
    requires Size(w2) <= Size(w)
    ensures Encode(v, w)[..Size(w2)] == Encode(v, w2)
  {
  }

  /** A read that does not overlap a write sees the old bytes. */
  lemma ReadOtherAfterWrite(mem: Bytes, a: nat, w: Width, v: bv64, b: nat, w2: Width)
    requires Write(mem, a, w, v).Some?
    requires b + Size(w2) <= a || a + Size(w) <= b
    ensures Read(Write(mem, a, w, v).value, b, w2) == Read(mem, b, w2)
  {
    if b + Size(w2) <= |mem| {
      UntouchedRange(mem, a, w, v, b, b + Size(w2));
    }
  }

  /** The bytes of a range a write does not cover are the old ones. */
  lemma UntouchedRange(mem: Bytes, a: nat, w: Width, v: bv64, lo: nat, hi: nat)
    requires Write(mem, a, w, v).Some?
    requires lo <= hi <= |mem|
    requires hi <= a || a + Size(w) <= lo
    ensures Write(mem, a, w, v).value[lo..hi] == mem[lo..hi]
  {
    WriteFrame(mem, a, w, v);
    var m := Write(mem, a, w, v).value;
    assert forall i :: lo <= i < hi ==> m[lo..hi][i - lo] == m[i];
  }

  /** `read_u16`, `read_u32` and `read_u64` as written: they take the bytes
      [a, size) rather than [a, a + size). The range panics when it starts
      after its end or ends past the memory; a range of the wrong length is
      replaced by zeros, so only a read at address 0 sees memory. */
  function ReadAsWritten(mem: Bytes, a: nat, w: Width): Option<bv64>
  {
    if w == Byte then Read(mem, a, w)
    else if a > Size(w) || Size(w) > |mem| then None
    else if a == 0 then Some(Decode(mem[0..Size(w)], w))
    else Some(0)
  }

  /** At address 0 the slice is the right one. */
  lemma ReadAsWrittenAtZero(mem: Bytes, w: Width)
    ensures ReadAsWritten(mem, 0, w) == Read(mem, 0, w)
  {
  }

  /** Anywhere else a multi-byte read gives 0 or panics, whatever the
      memory holds. */
  lemma ReadAsWrittenElsewhere(mem: Bytes, a: nat, w: Width)
    requires w != Byte && a > 0
    ensures ReadAsWritten(mem, a, w) == if a <= Size(w) <= |mem| then Some(0) else None
  {
  }

  /** Eight bytes holding two instruction words: the word at address 4 is
      0x00100093, but the read as written returns 0, and a word read at
      address 5 panics although all four bytes exist. */
  lemma ReadAsWrittenCounterexample()
    ensures Read([0x13, 0, 0, 0, 0x93, 0, 0x10, 0], 4, Word) == Some(0x0010_0093)
    ensures ReadAsWritten([0x13, 0, 0, 0, 0x93, 0, 0x10, 0], 4, Word) == Some(0)
    ensures Read([0x13, 0, 0, 0, 0x93, 0, 0x10, 0, 0], 5, Word).Some?
    ensures ReadAsWritten([0x13, 0, 0, 0, 0x93, 0, 0x10, 0, 0], 5, Word) == None
  {
    var mem: Bytes := [0x13, 0, 0, 0, 0x93, 0, 0x10, 0];
    assert mem[4..8] == [0x93, 0, 0x10, 0];
    assert [0x93, 0, 0x10, 0][1..] == [0, 0x10, 0];
    assert [0, 0x10, 0][1..] == [0x10, 0];
    assert [0x10, 0][1..] == [0];
    var last: Bytes := [0];
    assert last[1..] == [];
  }
}
