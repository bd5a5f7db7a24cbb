/** The CRC-32 of final/crc32.c: a table-driven loop, its bit-serial definition
    (RFC 1952, section 8), and the error detection the daemon relies on. */
module Crc32 {
  import opened Bytes

  // The feedback terms, sixteen to a row.
  const ROW_0: seq<bv32> := [
    0x00000000, 0x77073096, 0xee0e612c, 0x990951ba, 0x076dc419, 0x706af48f, 0xe963a535, 0x9e6495a3,
    0x0edb8832, 0x79dcb8a4, 0xe0d5e91e, 0x97d2d988, 0x09b64c2b, 0x7eb17cbd, 0xe7b82d07, 0x90bf1d91]
  const ROW_1: seq<bv32> := [
    0x1db71064, 0x6ab020f2, 0xf3b97148, 0x84be41de, 0x1adad47d, 0x6ddde4eb, 0xf4d4b551, 0x83d385c7,
    0x136c9856, 0x646ba8c0, 0xfd62f97a, 0x8a65c9ec, 0x14015c4f, 0x63066cd9, 0xfa0f3d63, 0x8d080df5]
  const ROW_2: seq<bv32> := [
    0x3b6e20c8, 0x4c69105e, 0xd56041e4, 0xa2677172, 0x3c03e4d1, 0x4b04d447, 0xd20d85fd, 0xa50ab56b,
    0x35b5a8fa, 0x42b2986c, 0xdbbbc9d6, 0xacbcf940, 0x32d86ce3, 0x45df5c75, 0xdcd60dcf, 0xabd13d59]
  const ROW_3: seq<bv32> := [
    0x26d930ac, 0x51de003a, 0xc8d75180, 0xbfd06116, 0x21b4f4b5, 0x56b3c423, 0xcfba9599, 0xb8bda50f,
    0x2802b89e, 0x5f058808, 0xc60cd9b2, 0xb10be924, 0x2f6f7c87, 0x58684c11, 0xc1611dab, 0xb6662d3d]
  const ROW_4: seq<bv32> := [
    0x76dc4190, 0x01db7106, 0x98d220bc, 0xefd5102a, 0x71b18589, 0x06b6b51f, 0x9fbfe4a5, 0xe8b8d433,
    0x7807c9a2, 0x0f00f934, 0x9609a88e, 0xe10e9818, 0x7f6a0dbb, 0x086d3d2d, 0x91646c97, 0xe6635c01]
  const ROW_5: seq<bv32> := [
    0x6b6b51f4, 0x1c6c6162, 0x856530d8, 0xf262004e, 0x6c0695ed, 0x1b01a57b, 0x8208f4c1, 0xf50fc457,
    0x65b0d9c6, 0x12b7e950, 0x8bbeb8ea, 0xfcb9887c, 0x62dd1ddf, 0x15da2d49, 0x8cd37cf3, 0xfbd44c65]
  const ROW_6: seq<bv32> := [
    0x4db26158, 0x3ab551ce, 0xa3bc0074, 0xd4bb30e2, 0x4adfa541, 0x3dd895d7, 0xa4d1c46d, 0xd3d6f4fb,
    0x4369e96a, 0x346ed9fc, 0xad678846, 0xda60b8d0, 0x44042d73, 0x33031de5, 0xaa0a4c5f, 0xdd0d7cc9]
  const ROW_7: seq<bv32> := [
    0x5005713c, 0x270241aa, 0xbe0b1010, 0xc90c2086, 0x5768b525, 0x206f85b3, 0xb966d409, 0xce61e49f,
    0x5edef90e, 0x29d9c998, 0xb0d09822, 0xc7d7a8b4, 0x59b33d17, 0x2eb40d81, 0xb7bd5c3b, 0xc0ba6cad]
  const ROW_8: seq<bv32> := [
    0xedb88320, 0x9abfb3b6, 0x03b6e20c, 0x74b1d29a, 0xead54739, 0x9dd277af, 0x04db2615, 0x73dc1683,
    0xe3630b12, 0x94643b84, 0x0d6d6a3e, 0x7a6a5aa8, 0xe40ecf0b, 0x9309ff9d, 0x0a00ae27, 0x7d079eb1]
  const ROW_9: seq<bv32> := [
    0xf00f9344, 0x8708a3d2, 0x1e01f268, 0x6906c2fe, 0xf762575d, 0x806567cb, 0x196c3671, 0x6e6b06e7,
    0xfed41b76, 0x89d32be0, 0x10da7a5a, 0x67dd4acc, 0xf9b9df6f, 0x8ebeeff9, 0x17b7be43, 0x60b08ed5]
  const ROW_A: seq<bv32> := [
    0xd6d6a3e8, 0xa1d1937e, 0x38d8c2c4, 0x4fdff252, 0xd1bb67f1, 0xa6bc5767, 0x3fb506dd, 0x48b2364b,
    0xd80d2bda, 0xaf0a1b4c, 0x36034af6, 0x41047a60, 0xdf60efc3, 0xa867df55, 0x316e8eef, 0x4669be79]
  const ROW_B: seq<bv32> := [
    0xcb61b38c, 0xbc66831a, 0x256fd2a0, 0x5268e236, 0xcc0c7795, 0xbb0b4703, 0x220216b9, 0x5505262f,
    0xc5ba3bbe, 0xb2bd0b28, 0x2bb45a92, 0x5cb36a04, 0xc2d7ffa7, 0xb5d0cf31, 0x2cd99e8b, 0x5bdeae1d]
  const ROW_C: seq<bv32> := [
    0x9b64c2b0, 0xec63f226, 0x756aa39c, 0x026d930a, 0x9c0906a9, 0xeb0e363f, 0x72076785, 0x05005713,
    0x95bf4a82, 0xe2b87a14, 0x7bb12bae, 0x0cb61b38, 0x92d28e9b, 0xe5d5be0d, 0x7cdcefb7, 0x0bdbdf21]
  const ROW_D: seq<bv32> := [
    0x86d3d2d4, 0xf1d4e242, 0x68ddb3f8, 0x1fda836e, 0x81be16cd, 0xf6b9265b, 0x6fb077e1, 0x18b74777,
    0x88085ae6, 0xff0f6a70, 0x66063bca, 0x11010b5c, 0x8f659eff, 0xf862ae69, 0x616bffd3, 0x166ccf45]
  const ROW_E: seq<bv32> := [
    0xa00ae278, 0xd70dd2ee, 0x4e048354, 0x3903b3c2, 0xa7672661, 0xd06016f7, 0x4969474d, 0x3e6e77db,
    0xaed16a4a, 0xd9d65adc, 0x40df0b66, 0x37d83bf0, 0xa9bcae53, 0xdebb9ec5, 0x47b2cf7f, 0x30b5ffe9]
  const ROW_F: seq<bv32> := [
    0xbdbdf21c, 0xcabac28a, 0x53b39330, 0x24b4a3a6, 0xbad03605, 0xcdd70693, 0x54de5729, 0x23d967bf,
    0xb3667a2e, 0xc4614ab8, 0x5d681b02, 0x2a6f2b94, 0xb40bbe37, 0xc30c8ea1, 0x5a05df1b, 0x2d02ef8d]

  const TABLE: seq<seq<bv32>> := [
    ROW_0, ROW_1, ROW_2, ROW_3, ROW_4, ROW_5, ROW_6, ROW_7,
    ROW_8, ROW_9, ROW_A, ROW_B, ROW_C, ROW_D, ROW_E, ROW_F]

  function Entry(i: bv32): bv32
    requires i <= 0xff
  {
    assert i >> 4 <= 15 && i & 15 <= 15;
    TABLE[(i >> 4) as int][(i & 15) as int]
  }

  // ----- The bit-serial definition ---------------------------------------------------------------

  /** One clock of the shift register, without input.  0xedb88320 is
      X^32+X^26+...+X^1+X^0 with the highest-order term in the lowest-order bit. */
  function Shift(r: bv32): bv32 {
    (r >> 1) ^ (if r & 1 == 1 then 0xedb88320 else 0)
  }

  function Bit(b: bool): bv32 {
    if b then 1 else 0
  }

  /** Clocks one bit into the register. */
  function Clock(r: bv32, b: bool): bv32 {
    Shift(r ^ Bit(b))
  }

  /** Clocks a string of bits into the register, first bit first. */
  function Feed(r: bv32, bits: seq<bool>): bv32
    decreases |bits|
  {
    if bits == [] then r else Feed(Clock(r, bits[0]), bits[1..])
  }

  /** The n low bits of a register, least significant first. */
  function LowBits(y: bv32, n: nat): (bits: seq<bool>)
    ensures |bits| == n
    decreases n
  {
    if n == 0 then [] else [y & 1 == 1] + LowBits(y >> 1, n - 1)
  }

  /** The bits of a string of bytes in transmission order. */
  function Bits(s: seq<Byte>): (bits: seq<bool>)
    ensures |bits| == 8 * |s|
  {
    if s == [] then [] else LowBits(s[0] as bv32, 8) + Bits(s[1..])
  }

  function Flip(x: bv32): bv32 {
    x ^ 0xffffffff
  }

  /** The bit-serial CRC: complement, clock in every bit, complement. */
  function BitSerial(crc: bv32, s: seq<Byte>): bv32 {
    Flip(Feed(Flip(crc), Bits(s)))
  }

  // ----- Iterating a map that respects an operation ----------------------------------------------

  function Iterate<T>(f: T -> T, n: nat, r: T): T
    decreases n
  {
    if n == 0 then r else Iterate(f, n - 1, f(r))
  }

  ghost predicate Respects<T>(f: T -> T, op: (T, T) -> T, x: T, y: T) {
    f(op(x, y)) == op(f(x), f(y))
  }

  ghost predicate Homomorphism<T(!new)>(f: T -> T, op: (T, T) -> T) {
    forall x, y :: Respects(f, op, x, y)
  }

  lemma {:induction false} IterateRespects<T(!new)>(f: T -> T, op: (T, T) -> T, n: nat, x: T, y: T)
    requires Homomorphism(f, op)
    ensures Iterate(f, n, op(x, y)) == op(Iterate(f, n, x), Iterate(f, n, y))
    decreases n
  {
    if n == 0 {
    } else {
      assert Respects(f, op, x, y);
      IterateRespects(f, op, n - 1, f(x), f(y));
    }
  }

  lemma {:induction false} IterateCommutes<T>(f: T -> T, n: nat, x: T)
    ensures Iterate(f, n, f(x)) == f(Iterate(f, n, x))
    decreases n
  {
    if n == 0 {
    } else {
      IterateCommutes(f, n - 1, f(x));
    }
  }

  // ----- One clock is linear over xor ------------------------------------------------------------

  function Xor(x: bv32, y: bv32): bv32 {
    x ^ y
  }

  lemma ShiftEvenEven(x: bv32, y: bv32)
    requires x & 1 != 1 && y & 1 != 1
    ensures Shift(x ^ y) == Shift(x) ^ Shift(y)
  {}

  lemma ShiftEvenOdd(x: bv32, y: bv32)
    requires x & 1 != 1 && y & 1 == 1
    ensures Shift(x ^ y) == Shift(x) ^ Shift(y)
    ensures Shift(y ^ x) == Shift(y) ^ Shift(x)
  {}

  lemma ShiftOddOdd(x: bv32, y: bv32)
    requires x & 1 == 1 && y & 1 == 1
    ensures Shift(x ^ y) == Shift(x) ^ Shift(y)
  {}

  lemma ShiftLinear(x: bv32, y: bv32)
    ensures Shift(x ^ y) == Shift(x) ^ Shift(y)
  {
    if x & 1 == 1 {
      if y & 1 == 1 { ShiftOddOdd(x, y); } else { ShiftEvenOdd(y, x); }
    } else {
      if y & 1 == 1 { ShiftEvenOdd(x, y); } else { ShiftEvenEven(x, y); }
    }
  }

  lemma ShiftRespectsXor()
    ensures Homomorphism(Shift, Xor)
  {
    forall x, y
      ensures Respects(Shift, Xor, x, y)
    {
      ShiftLinear(x, y);
    }
  }

  function Shift8(r: bv32): bv32 {
    Iterate(Shift, 8, r)
  }

  lemma Shift8Xor(x: bv32, y: bv32)
    ensures Shift8(Xor(x, y)) == Xor(Shift8(x), Shift8(y))
  {
    ShiftRespectsXor();
    IterateRespects(Shift, Xor, 8, x, y);
  }

  lemma Shift8Linear(x: bv32, y: bv32)
    ensures Shift8(x ^ y) == Shift8(x) ^ Shift8(y)
  {
    Shift8Xor(x, y);
  }

  // ----- The table is eight clocks of its index --------------------------------------------------

  lemma Halve(x: bv32)
    ensures Shift8(Shift(x)) == Shift(Shift8(x))
  {
    IterateCommutes(Shift, 8, x);
  }

  lemma Powers()
    ensures Shift8(0x80) == 0xedb88320 && Shift8(0x40) == 0x76dc4190 && Shift8(0x20) == 0x3b6e20c8
    ensures Shift8(0x10) == 0x1db71064 && Shift8(8) == 0x0edb8832 && Shift8(4) == 0x076dc419
    ensures Shift8(2) == 0xee0e612c && Shift8(1) == 0x77073096
  {
    assert Shift(0x80) == 0x40 && Shift(0x40) == 0x20 && Shift(0x20) == 0x10 && Shift(0x10) == 8;
    assert Shift(8) == 4 && Shift(4) == 2 && Shift(2) == 1 && Shift(1) == 0xedb88320;
    assert Iterate(Shift, 4, 8) == 0xedb88320;
    Halve(0x80); Halve(0x40); Halve(0x20); Halve(0x10); Halve(8); Halve(4); Halve(2);
  }

  lemma Zero()
    ensures Shift8(0) == 0
  {
    Shift8Linear(0, 0);
  }

  /** A row is its first entry xor the row of index zero. */
  ghost predicate Spans(row: seq<bv32>) {
    && |row| == 16
    && row[1] == Xor(row[0], ROW_0[1]) && row[2] == Xor(row[0], ROW_0[2])
    && row[3] == Xor(row[0], ROW_0[3]) && row[4] == Xor(row[0], ROW_0[4])
    && row[5] == Xor(row[0], ROW_0[5]) && row[6] == Xor(row[0], ROW_0[6])
    && row[7] == Xor(row[0], ROW_0[7]) && row[8] == Xor(row[0], ROW_0[8])
    && row[9] == Xor(row[0], ROW_0[9]) && row[10] == Xor(row[0], ROW_0[10])
    && row[11] == Xor(row[0], ROW_0[11]) && row[12] == Xor(row[0], ROW_0[12])
    && row[13] == Xor(row[0], ROW_0[13]) && row[14] == Xor(row[0], ROW_0[14])
    && row[15] == Xor(row[0], ROW_0[15])
  }

  lemma Spans1() ensures Spans(ROW_1) {}
  lemma Spans2() ensures Spans(ROW_2) {}
  lemma Spans3() ensures Spans(ROW_3) {}
  lemma Spans4() ensures Spans(ROW_4) {}
  lemma Spans5() ensures Spans(ROW_5) {}
  lemma Spans6() ensures Spans(ROW_6) {}
  lemma Spans7() ensures Spans(ROW_7) {}
  lemma Spans8() ensures Spans(ROW_8) {}
  lemma Spans9() ensures Spans(ROW_9) {}
  lemma SpansA() ensures Spans(ROW_A) {}
  lemma SpansB() ensures Spans(ROW_B) {}
  lemma SpansC() ensures Spans(ROW_C) {}
  lemma SpansD() ensures Spans(ROW_D) {}
  lemma SpansE() ensures Spans(ROW_E) {}
  lemma SpansF() ensures Spans(ROW_F) {}

  lemma LowValues()
    ensures Shift8(0x3) == 0x990951ba && Shift8(0x5) == 0x706af48f && Shift8(0x6) == 0xe963a535
    ensures Shift8(0x7) == 0x9e6495a3 && Shift8(0x9) == 0x79dcb8a4 && Shift8(0xa) == 0xe0d5e91e
    ensures Shift8(0xb) == 0x97d2d988 && Shift8(0xc) == 0x09b64c2b && Shift8(0xd) == 0x7eb17cbd
    ensures Shift8(0xe) == 0xe7b82d07 && Shift8(0xf) == 0x90bf1d91
  {
    Powers();
    Shift8Linear(0x2, 0x1);
    Shift8Linear(0x4, 0x1);
    Shift8Linear(0x4, 0x2);
    Shift8Linear(0x6, 0x1);
    Shift8Linear(0x8, 0x1);
    Shift8Linear(0x8, 0x2);
    Shift8Linear(0xa, 0x1);
    Shift8Linear(0x8, 0x4);
    Shift8Linear(0xc, 0x1);
    Shift8Linear(0xc, 0x2);
    Shift8Linear(0xe, 0x1);
  }

  lemma HighValues()
    ensures Shift8(0x30) == 0x26d930ac && Shift8(0x50) == 0x6b6b51f4 && Shift8(0x60) == 0x4db26158
    ensures Shift8(0x70) == 0x5005713c && Shift8(0x90) == 0xf00f9344 && Shift8(0xa0) == 0xd6d6a3e8
    ensures Shift8(0xb0) == 0xcb61b38c && Shift8(0xc0) == 0x9b64c2b0 && Shift8(0xd0) == 0x86d3d2d4
    ensures Shift8(0xe0) == 0xa00ae278 && Shift8(0xf0) == 0xbdbdf21c
  {
    Powers();
    Shift8Linear(0x20, 0x10);
    Shift8Linear(0x40, 0x10);
    Shift8Linear(0x40, 0x20);
    Shift8Linear(0x60, 0x10);
    Shift8Linear(0x80, 0x10);
    Shift8Linear(0x80, 0x20);
    Shift8Linear(0xa0, 0x10);
    Shift8Linear(0x80, 0x40);
    Shift8Linear(0xc0, 0x10);
    Shift8Linear(0xc0, 0x20);
    Shift8Linear(0xe0, 0x10);
  }

  lemma LowNibble(i: bv32)
    requires i <= 15
    ensures ROW_0[i as int] == Shift8(i)
  {
    Powers();
    Zero();
    LowValues();
    if i == 0 {
      assert ROW_0[0] == Shift8(0);
    } else if i == 1 {
      assert ROW_0[1] == Shift8(1);
    } else if i == 2 {
      assert ROW_0[2] == Shift8(2);
    } else if i == 3 {
      assert ROW_0[3] == Shift8(3);
    } else if i == 4 {
      assert ROW_0[4] == Shift8(4);
    } else if i == 5 {
      assert ROW_0[5] == Shift8(5);
    } else if i == 6 {
      assert ROW_0[6] == Shift8(6);
    } else if i == 7 {
      assert ROW_0[7] == Shift8(7);
    } else if i == 8 {
      assert ROW_0[8] == Shift8(8);
    } else if i == 9 {
      assert ROW_0[9] == Shift8(9);
    } else if i == 10 {
      assert ROW_0[10] == Shift8(10);
    } else if i == 11 {
      assert ROW_0[11] == Shift8(11);
    } else if i == 12 {
      assert ROW_0[12] == Shift8(12);
    } else if i == 13 {
      assert ROW_0[13] == Shift8(13);
    } else if i == 14 {
      assert ROW_0[14] == Shift8(14);
    } else if i == 15 {
      assert ROW_0[15] == Shift8(15);
    }
  }

  lemma HighNibble(h: bv32)
    requires h <= 15
    ensures TABLE[h as int][0] == Shift8(h << 4)
  {
    Powers();
    Zero();
    HighValues();
    if h == 0 {
      assert TABLE[0] == ROW_0 && ROW_0[0] == Shift8(0x0);
    } else if h == 1 {
      assert TABLE[1] == ROW_1 && ROW_1[0] == Shift8(0x10);
    } else if h == 2 {
      assert TABLE[2] == ROW_2 && ROW_2[0] == Shift8(0x20);
    } else if h == 3 {
      assert TABLE[3] == ROW_3 && ROW_3[0] == Shift8(0x30);
    } else if h == 4 {
      assert TABLE[4] == ROW_4 && ROW_4[0] == Shift8(0x40);
    } else if h == 5 {
      assert TABLE[5] == ROW_5 && ROW_5[0] == Shift8(0x50);
    } else if h == 6 {
      assert TABLE[6] == ROW_6 && ROW_6[0] == Shift8(0x60);
    } else if h == 7 {
      assert TABLE[7] == ROW_7 && ROW_7[0] == Shift8(0x70);
    } else if h == 8 {
      assert TABLE[8] == ROW_8 && ROW_8[0] == Shift8(0x80);
    } else if h == 9 {
      assert TABLE[9] == ROW_9 && ROW_9[0] == Shift8(0x90);
    } else if h == 10 {
      assert TABLE[10] == ROW_A && ROW_A[0] == Shift8(0xa0);
    } else if h == 11 {
      assert TABLE[11] == ROW_B && ROW_B[0] == Shift8(0xb0);
    } else if h == 12 {
      assert TABLE[12] == ROW_C && ROW_C[0] == Shift8(0xc0);
    } else if h == 13 {
      assert TABLE[13] == ROW_D && ROW_D[0] == Shift8(0xd0);
    } else if h == 14 {
      assert TABLE[14] == ROW_E && ROW_E[0] == Shift8(0xe0);
    } else if h == 15 {
      assert TABLE[15] == ROW_F && ROW_F[0] == Shift8(0xf0);
    }
  }

  lemma RowSpans(h: bv32)
    requires 0 < h <= 15
    ensures Spans(TABLE[h as int])
  {
    hide Spans;
    if h == 1 {
      Spans1(); assert TABLE[1] == ROW_1;
    } else if h == 2 {
      Spans2(); assert TABLE[2] == ROW_2;
    } else if h == 3 {
      Spans3(); assert TABLE[3] == ROW_3;
    } else if h == 4 {
      Spans4(); assert TABLE[4] == ROW_4;
    } else if h == 5 {
      Spans5(); assert TABLE[5] == ROW_5;
    } else if h == 6 {
      Spans6(); assert TABLE[6] == ROW_6;
    } else if h == 7 {
      Spans7(); assert TABLE[7] == ROW_7;
    } else if h == 8 {
      Spans8(); assert TABLE[8] == ROW_8;
    } else if h == 9 {
      Spans9(); assert TABLE[9] == ROW_9;
    } else if h == 10 {
      SpansA(); assert TABLE[10] == ROW_A;
    } else if h == 11 {
      SpansB(); assert TABLE[11] == ROW_B;
    } else if h == 12 {
      SpansC(); assert TABLE[12] == ROW_C;
    } else if h == 13 {
      SpansD(); assert TABLE[13] == ROW_D;
    } else if h == 14 {
      SpansE(); assert TABLE[14] == ROW_E;
    } else if h == 15 {
      SpansF(); assert TABLE[15] == ROW_F;
    }
  }

  lemma Column(row: seq<bv32>, c: nat)
    requires Spans(row) && 0 < c < 16
    ensures row[c] == Xor(row[0], ROW_0[c])
  {
    hide Xor;
  }

  lemma XorZero(x: bv32)
    ensures Xor(x, 0) == x
  {}

  lemma Follows(row: seq<bv32>, c: bv32)
    requires Spans(row) && c <= 15
    ensures row[c as int] == Xor(row[0], ROW_0[c as int])
  {
    if c == 0 {
      XorZero(row[0]);
    } else {
      Column(row, c as int);
    }
  }

  lemma Nibbles(i: bv32)
    requires i <= 0xff
    ensures i >> 4 <= 15 && i & 15 <= 15
    ensures i == Xor((i >> 4) << 4, i & 15)
    ensures i >> 4 == 0 ==> i == i & 15
  {}

  /** Every table entry is the result of eight clocks on its index. */
  lemma EntryIsShift8(i: bv32)
    requires i <= 0xff
    ensures Entry(i) == Shift8(i)
  {
    hide Shift8, Xor;
    Nibbles(i);
    var h, c := i >> 4, i & 15;
    LowNibble(c);
    if h != 0 {
      RowSpans(h);
      Follows(TABLE[h as int], c);
      HighNibble(h);
      Shift8Xor(h << 4, c);
    }
  }

  // ----- The loop body is one byte of the bit-serial definition ----------------------------------

  lemma ShiftSplits(r: bv32, y: bv32)
    ensures Shift(r ^ y) == Shift(r ^ Bit(y & 1 == 1)) ^ (y >> 1)
  {
    if y & 1 == 1 {
      ShiftSplitsOdd(r, y);
    } else {
      ShiftSplitsEven(r, y);
    }
  }

  lemma ShiftSplitsXor(r: bv32, y: bv32)
    ensures Shift(Xor(r, y)) == Xor(Clock(r, y & 1 == 1), y >> 1)
  {
    hide Shift, Bit;
    ShiftSplits(r, y);
  }

  lemma ShiftSplitsOdd(r: bv32, y: bv32)
    requires y & 1 == 1
    ensures Shift(r ^ y) == Shift(r ^ 1) ^ (y >> 1)
  {}

  lemma ShiftSplitsEven(r: bv32, y: bv32)
    requires y & 1 != 1
    ensures Shift(r ^ y) == Shift(r ^ 0) ^ (y >> 1)
  {}

  ghost predicate Fits(y: bv32, n: nat)
    decreases n
  {
    if n == 0 then y == 0 else Fits(y >> 1, n - 1)
  }

  /** Clocking n bits in one by one is xoring them in at once and clocking n times. */
  lemma {:induction false} FeedLowBits(r: bv32, y: bv32, n: nat)
    requires Fits(y, n)
    ensures Feed(r, LowBits(y, n)) == Iterate(Shift, n, Xor(r, y))
    decreases n
  {
    hide Xor, Shift, Clock;
    if n == 0 {
      XorZero(r);
    } else {
      var r' := Clock(r, y & 1 == 1);
      FeedLowBits(r', y >> 1, n - 1);
      assert Shift(Xor(r, y)) == Xor(r', y >> 1) by { ShiftSplitsXor(r, y); }
      assert LowBits(y, n)[1..] == LowBits(y >> 1, n - 1);
    }
  }

  lemma ByteFits(b: Byte)
    ensures Fits(b as bv32, 8)
  {
    var y := b as bv32;
    assert (((((((y >> 1) >> 1) >> 1) >> 1) >> 1) >> 1) >> 1) >> 1 == 0;
  }

  lemma LowAndHigh(r: bv32, y: bv32)
    requires y <= 0xff
    ensures (r ^ y) & 0xff <= 0xff
    ensures Xor(r, y) == Xor((r ^ y) & 0xff, r & 0xffffff00)
  {}

  function Half(y: bv32): bv32 {
    y >> 1
  }

  /** The n low bits are clear. */
  ghost predicate Clear(y: bv32, n: nat)
    decreases n
  {
    n == 0 || (y & 1 != 1 && Clear(Half(y), n - 1))
  }

  lemma ShiftClear(y: bv32)
    requires y & 1 != 1
    ensures Shift(y) == Half(y)
  {}

  lemma {:induction false} IterateClear(y: bv32, n: nat)
    requires Clear(y, n)
    ensures Iterate(Shift, n, y) == Iterate(Half, n, y)
    decreases n
  {
    hide Shift, Half;
    if n == 0 {
    } else {
      ShiftClear(y);
      IterateClear(Half(y), n - 1);
    }
  }

  lemma HighBytesClear(r: bv32)
    ensures Clear(r & 0xffffff00, 8)
  {
    var h := r & 0xffffff00;
    assert Clear((((h >> 1) >> 1) >> 1) >> 1, 4);
  }

  lemma Unroll<T>(f: T -> T, x: T)
    ensures Iterate(f, 8, x) == f(f(f(f(f(f(f(f(x))))))))
  {
    assert Iterate(f, 8, x) == Iterate(f, 4, f(f(f(f(x)))));
  }

  lemma HighBytesHalved(r: bv32)
    ensures Iterate(Half, 8, r & 0xffffff00) == r >> 8
  {
    hide Iterate;
    Unroll(Half, r & 0xffffff00);
    assert (((((((((r & 0xffffff00) >> 1) >> 1) >> 1) >> 1) >> 1) >> 1) >> 1) >> 1) == r >> 8;
  }

  /** The three high bytes pass through eight clocks as a plain shift. */
  lemma Shift8High(r: bv32)
    ensures Shift8(r & 0xffffff00) == r >> 8
  {
    hide Shift, Iterate, Half, Clear;
    HighBytesClear(r);
    IterateClear(r & 0xffffff00, 8);
    HighBytesHalved(r);
  }

  /** The loop body of the source. */
  function TableStep(crc: bv32, b: Byte): bv32 {
    Entry((crc ^ (b as bv32)) & 0xff) ^ (crc >> 8)
  }

  lemma TableStepXor(crc: bv32, b: Byte)
    ensures TableStep(crc, b) == Xor(Entry((crc ^ (b as bv32)) & 0xff), crc >> 8)
  {
    hide Entry;
  }

  lemma TableStepIsFeed(crc: bv32, b: Byte)
    ensures TableStep(crc, b) == Feed(crc, LowBits(b as bv32, 8))
  {
    hide Xor, Shift, Fits, Entry, TableStep, LowBits, Iterate;
    var y := b as bv32;
    var low, high := (crc ^ y) & 0xff, crc & 0xffffff00;
    ByteFits(b);
    FeedLowBits(crc, y, 8);
    LowAndHigh(crc, y);
    Shift8Xor(low, high);
    EntryIsShift8(low);
    Shift8High(crc);
    TableStepXor(crc, b);
  }

  lemma {:induction false} FeedConcat(r: bv32, a: seq<bool>, b: seq<bool>)
    ensures Feed(r, a + b) == Feed(Feed(r, a), b)
    decreases |a|
  {
    hide Clock;
    if a == [] {
      assert a + b == b;
    } else {
      assert (a + b)[1..] == a[1..] + b;
      FeedConcat(Clock(r, a[0]), a[1..], b);
    }
  }

  // ----- The source's function -------------------------------------------------------------------

  method Crc32(crc0: bv32, buf: array<Byte>, size: nat) returns (crc: bv32)
    requires size <= buf.Length
    ensures crc == BitSerial(crc0, buf[..size])
  {
    hide Clock, Entry, TableStep, Flip, LowBits;
    crc := Flip(crc0);
    var p := 0;
    while p < size
      invariant p <= size
      invariant Feed(crc, Bits(buf[p..size])) == Feed(Flip(crc0), Bits(buf[..size]))
    {
      assert buf[p..size][1..] == buf[p + 1..size];
      TableStepIsFeed(crc, buf[p]);
      FeedConcat(crc, LowBits(buf[p] as bv32, 8), Bits(buf[p + 1..size]));
      crc := TableStep(crc, buf[p]);
      p := p + 1;
    }
    crc := Flip(crc);
  }

  // ----- What the daemon relies on ---------------------------------------------------------------

  lemma {:induction false} BitsConcat(a: seq<Byte>, b: seq<Byte>)
    ensures Bits(a + b) == Bits(a) + Bits(b)
  {
    hide LowBits;
    if a == [] {
      assert a + b == b;
    } else {
      assert (a + b)[1..] == a[1..] + b;
      BitsConcat(a[1..], b);
    }
  }

  lemma FlipFlip(x: bv32)
    ensures Flip(Flip(x)) == x
  {}

  /** A CRC can be computed piece by piece, carrying the value along. */
  lemma CrcOfConcat(crc: bv32, a: seq<Byte>, b: seq<Byte>)
    ensures BitSerial(BitSerial(crc, a), b) == BitSerial(crc, a + b)
  {
    hide Feed, Bits, Flip;
    FlipFlip(Feed(Flip(crc), Bits(a)));
    BitsConcat(a, b);
    FeedConcat(Flip(crc), Bits(a), Bits(b));
  }

  lemma ShiftInjective(r: bv32, s: bv32)
    requires Shift(r) == Shift(s)
    ensures r == s
  {}

  lemma ClockInjective(r: bv32, s: bv32, b: bool)
    requires Clock(r, b) == Clock(s, b)
    ensures r == s
  {
    ShiftInjective(r ^ Bit(b), s ^ Bit(b));
  }

  lemma {:induction false} FeedInjective(r: bv32, s: bv32, bits: seq<bool>)
    requires Feed(r, bits) == Feed(s, bits)
    ensures r == s
    decreases |bits|
  {
    hide Clock;
    if bits == [] {
    } else {
      FeedInjective(Clock(r, bits[0]), Clock(s, bits[0]), bits[1..]);
      ClockInjective(r, s, bits[0]);
    }
  }

  // Registers that agree on all but the m low bits differ only where HighMask(m) is clear.
  function HighMask(m: nat): bv32
    decreases m
  {
    if m == 0 then 0xffffffff else HighMask(m - 1) << 1
  }

  lemma MaskValues()
    ensures forall m: nat | m <= 31 :: HighMask(m) & 0x80000000 != 0
  {
    assert HighMask(1) == 0xfffffffe && HighMask(2) == 0xfffffffc && HighMask(3) == 0xfffffff8;
    assert HighMask(4) == 0xfffffff0 && HighMask(5) == 0xffffffe0 && HighMask(6) == 0xffffffc0;
    assert HighMask(7) == 0xffffff80 && HighMask(8) == 0xffffff00 && HighMask(9) == 0xfffffe00;
    assert HighMask(10) == 0xfffffc00 && HighMask(11) == 0xfffff800 && HighMask(12) == 0xfffff000;
    assert HighMask(13) == 0xffffe000 && HighMask(14) == 0xffffc000 && HighMask(15) == 0xffff8000;
    assert HighMask(16) == 0xffff0000 && HighMask(17) == 0xfffe0000 && HighMask(18) == 0xfffc0000;
    assert HighMask(19) == 0xfff80000 && HighMask(20) == 0xfff00000 && HighMask(21) == 0xffe00000;
    assert HighMask(22) == 0xffc00000 && HighMask(23) == 0xff800000 && HighMask(24) == 0xff000000;
    assert HighMask(25) == 0xfe000000 && HighMask(26) == 0xfc000000 && HighMask(27) == 0xf8000000;
    assert HighMask(28) == 0xf0000000 && HighMask(29) == 0xe0000000 && HighMask(30) == 0xc0000000;
    assert HighMask(31) == 0x80000000;
  }

  ghost predicate Agree(r: bv32, s: bv32, mask: bv32) {
    (r ^ s) & mask == 0
  }

  lemma AgreeBackPure(r: bv32, s: bv32, h: bv32)
    ensures h & 0x80000000 != 0 &&
            (((r >> 1) ^ (if r & 1 == 1 then 0xedb88320 else 0)) ^ ((s >> 1) ^ (if s & 1 == 1 then
                0xedb88320 else 0))) & h == 0
            ==> ((r ^ s) >> 1) & h == 0
  {}

  lemma AgreeBack(r: bv32, s: bv32, h: bv32)
    requires h & 0x80000000 != 0
    requires Agree(Shift(r), Shift(s), h)
    ensures ((r ^ s) >> 1) & h == 0
  {
    AgreeBackPure(r, s, h);
  }

  lemma Undo(r: bv32, s: bv32, b: bool, c: bool, h: bv32)
    requires (((r ^ Bit(b)) ^ (s ^ Bit(c))) >> 1) & h == 0
    ensures Agree(r, s, h << 1)
  {}

  /** Undoing a clock loses knowledge of one more low bit. */
  lemma ClockBack(r: bv32, s: bv32, b: bool, c: bool, h: bv32)
    requires h & 0x80000000 != 0
    requires Agree(Clock(r, b), Clock(s, c), h)
    ensures Agree(r, s, h << 1)
  {
    hide Shift, Bit;
    AgreeBack(r ^ Bit(b), s ^ Bit(c), h);
    Undo(r, s, b, c, h);
  }

  lemma Reflexive(r: bv32, mask: bv32)
    ensures Agree(r, r, mask)
  {}

  lemma {:induction false} FeedBack(r: bv32, s: bv32, w: seq<bool>, v: seq<bool>)
    requires |w| == |v| <= 32
    requires Feed(r, w) == Feed(s, v)
    ensures Agree(r, s, HighMask(|w|))
    decreases |w|
  {
    hide Agree, Clock, HighMask;
    if w == [] {
      Reflexive(r, HighMask(0));
    } else {
      NextMask(|w|);
      FeedBack(Clock(r, w[0]), Clock(s, v[0]), w[1..], v[1..]);
      MaskValues();
      ClockBack(r, s, w[0], v[0], HighMask(|w| - 1));
    }
  }

  lemma NextMask(m: nat)
    requires m > 0
    ensures HighMask(m) == HighMask(m - 1) << 1
  {}

  lemma OneBitApart(r: bv32, mask: bv32)
    requires mask & 0x80000000 != 0
    ensures !Agree(Clock(r, true), Clock(r, false), mask)
    ensures !Agree(Clock(r, false), Clock(r, true), mask)
  {}

  /** From one register, different strings of at most 32 bits lead to different registers. */
  lemma {:induction false} WindowInjective(r: bv32, w: seq<bool>, v: seq<bool>)
    requires |w| == |v| <= 32
    requires Feed(r, w) == Feed(r, v)
    ensures w == v
    decreases |w|
  {
    hide Agree, Clock;
    if w == [] {
    } else {
      if w[0] == v[0] {
        WindowInjective(Clock(r, w[0]), w[1..], v[1..]);
      } else {
        FeedBack(Clock(r, w[0]), Clock(r, v[0]), w[1..], v[1..]);
        MaskValues();
        OneBitApart(r, HighMask(|w| - 1));
      }
    }
  }

  lemma {:induction false} LowBitsInjective(y: bv32, z: bv32, n: nat)
    requires Fits(y, n) && Fits(z, n) && LowBits(y, n) == LowBits(z, n)
    ensures y == z
    decreases n
  {
    if n == 0 {
    } else {
      assert LowBits(y, n)[0] == LowBits(z, n)[0];
      assert LowBits(y >> 1, n - 1) == LowBits(y, n)[1..] == LowBits(z, n)[1..] == LowBits(z >> 1, n - 1);
      LowBitsInjective(y >> 1, z >> 1, n - 1);
    }
  }

  lemma ByteInjective(a: Byte, b: Byte)
    requires LowBits(a as bv32, 8) == LowBits(b as bv32, 8)
    ensures a == b
  {
    hide Fits, LowBits;
    ByteFits(a);
    ByteFits(b);
    LowBitsInjective(a as bv32, b as bv32, 8);
  }

  lemma {:induction false} BitsInjective(m: seq<Byte>, m': seq<Byte>)
    requires |m| == |m'| && Bits(m) == Bits(m')
    ensures m == m'
  {
    hide LowBits;
    if m == [] {
    } else {
      var b, b' := LowBits(m[0] as bv32, 8), LowBits(m'[0] as bv32, 8);
      assert b == Bits(m)[..8] == Bits(m')[..8] == b';
      assert Bits(m[1..]) == Bits(m)[8..] == Bits(m')[8..] == Bits(m'[1..]);
      ByteInjective(m[0], m'[0]);
      BitsInjective(m[1..], m'[1..]);
    }
  }

  /** The two messages differ only within 32 consecutive transmitted bits, from bit k on. */
  ghost predicate BurstAt(m: seq<Byte>, m': seq<Byte>, k: nat) {
    && |m| == |m'|
    && forall i :: 0 <= i < |Bits(m)| && Bits(m)[i] != Bits(m')[i] ==> k <= i < k + 32
  }

  /** Every burst of at most 32 bits changes the CRC. */
  lemma BurstDetected(crc: bv32, m: seq<Byte>, m': seq<Byte>, k: nat)
    requires BurstAt(m, m', k) && m != m'
    ensures BitSerial(crc, m) != BitSerial(crc, m')
  {
    hide Feed, Bits, Flip;
    var x, y := Bits(m), Bits(m');
    var from := if k < |x| then k else |x|;
    var to := if k + 32 < |x| then k + 32 else |x|;
    var r := Flip(crc);
    if BitSerial(crc, m) == BitSerial(crc, m') {
      FlipFlip(Feed(r, x));
      FlipFlip(Feed(r, y));
      var pre, suf := x[..from], x[to..];
      var w, v := x[from..to], y[from..to];
      assert x == pre + w + suf && y == pre + v + suf;
      FeedConcat(r, pre + w, suf);
      FeedConcat(r, pre + v, suf);
      FeedInjective(Feed(r, pre + w), Feed(r, pre + v), suf);
      FeedConcat(r, pre, w);
      FeedConcat(r, pre, v);
      WindowInjective(Feed(r, pre), w, v);
      BitsInjective(m, m');
    }
  }

  lemma FeedByte(crc: bv32, b: Byte, rest: seq<Byte>)
    ensures Feed(crc, Bits([b] + rest)) == Feed(TableStep(crc, b), Bits(rest))
  {
    hide Feed, LowBits, TableStep;
    assert ([b] + rest)[1..] == rest;
    TableStepIsFeed(crc, b);
    FeedConcat(crc, LowBits(b as bv32, 8), Bits(rest));
  }

  lemma TableSteps()
    ensures TableStep(0xffffffff, 0x0) == 0x2dfd1072
    ensures TableStep(0x2dfd1072, 0x0) == 0xbe26ed00
    ensures TableStep(0xbe26ed00, 0x0) == 0xbe26ed
    ensures TableStep(0xbe26ed, 0x0) == 0xdebb20e3
    ensures TableStep(0xdebb20e3, 0x0) == 0x39dd08e2
    ensures TableStep(0xffffffff, 0x41) == 0x2c266174
    ensures TableStep(0x2c266174, 0x6) == 0xbe273671
    ensures TableStep(0xbe273671, 0x71) == 0xbe2736
    ensures TableStep(0xbe2736, 0xdb) == 0xdebb20e2
    ensures TableStep(0xdebb20e2, 0x1) == 0x39dd08e2
  {}

  /** Two messages that differ in 33 consecutive bits, by the generator itself, have the same CRC:
      the bound of 32 cannot be raised. */
  lemma LongerBurstMissed()
    ensures BitSerial(0, [0, 0, 0, 0, 0]) == BitSerial(0, [0x41, 0x06, 0x71, 0xdb, 0x01])
  {
    hide Feed, Bits, TableStep;
    TableSteps();
    FeedByte(0xffffffff, 0x0, [0x0, 0x0, 0x0, 0x0]);
    assert [0x0 as Byte] + [0x0, 0x0, 0x0, 0x0] == [0x0, 0x0, 0x0, 0x0, 0x0];
    FeedByte(0x2dfd1072, 0x0, [0x0, 0x0, 0x0]);
    assert [0x0 as Byte] + [0x0, 0x0, 0x0] == [0x0, 0x0, 0x0, 0x0];
    FeedByte(0xbe26ed00, 0x0, [0x0, 0x0]);
    assert [0x0 as Byte] + [0x0, 0x0] == [0x0, 0x0, 0x0];
    FeedByte(0xbe26ed, 0x0, [0x0]);
    assert [0x0 as Byte] + [0x0] == [0x0, 0x0];
    FeedByte(0xdebb20e3, 0x0, []);
    assert [0x0 as Byte] + [] == [0x0];
    FeedByte(0xffffffff, 0x41, [0x6, 0x71, 0xdb, 0x1]);
    assert [0x41 as Byte] + [0x6, 0x71, 0xdb, 0x1] == [0x41, 0x6, 0x71, 0xdb, 0x1];
    FeedByte(0x2c266174, 0x6, [0x71, 0xdb, 0x1]);
    assert [0x6 as Byte] + [0x71, 0xdb, 0x1] == [0x6, 0x71, 0xdb, 0x1];
    FeedByte(0xbe273671, 0x71, [0xdb, 0x1]);
    assert [0x71 as Byte] + [0xdb, 0x1] == [0x71, 0xdb, 0x1];
    FeedByte(0xbe2736, 0xdb, [0x1]);
    assert [0xdb as Byte] + [0x1] == [0xdb, 0x1];
    FeedByte(0xdebb20e2, 0x1, []);
    assert [0x1 as Byte] + [] == [0x1];
  }

  lemma CheckSteps()
    ensures TableStep(0xffffffff, 0x31) == 0x7c231048
    ensures TableStep(0x7c231048, 0x32) == 0xb0acbb32
    ensures TableStep(0xb0acbb32, 0x33) == 0x77b79c2d
    ensures TableStep(0x77b79c2d, 0x34) == 0x641c1f5c
    ensures TableStep(0x641c1f5c, 0x35) == 0x340ac5e3
    ensures TableStep(0x340ac5e3, 0x36) == 0xf68d2c9e
    ensures TableStep(0xf68d2c9e, 0x37) == 0xaffc9660
    ensures TableStep(0xaffc9660, 0x38) == 0x651f2550
    ensures TableStep(0x651f2550, 0x39) == 0x340bc6d9
  {}

  /** The check value by which this checksum is known: that of the digits 1 to 9. */
  lemma CheckValue()
    ensures BitSerial(0, [0x31, 0x32, 0x33, 0x34, 0x35, 0x36, 0x37, 0x38, 0x39]) == 0xcbf43926
  {
    hide Feed, Bits, TableStep;
    CheckSteps();
    FeedByte(0xffffffff, 0x31, [0x32, 0x33, 0x34, 0x35, 0x36, 0x37, 0x38, 0x39]);
    assert [0x31 as Byte] + [0x32, 0x33, 0x34, 0x35, 0x36, 0x37, 0x38, 0x39]
        == [0x31, 0x32, 0x33, 0x34, 0x35, 0x36, 0x37, 0x38, 0x39];
    FeedByte(0x7c231048, 0x32, [0x33, 0x34, 0x35, 0x36, 0x37, 0x38, 0x39]);
    assert [0x32 as Byte] + [0x33, 0x34, 0x35, 0x36, 0x37, 0x38, 0x39]
        == [0x32, 0x33, 0x34, 0x35, 0x36, 0x37, 0x38, 0x39];
    FeedByte(0xb0acbb32, 0x33, [0x34, 0x35, 0x36, 0x37, 0x38, 0x39]);
    assert [0x33 as Byte] + [0x34, 0x35, 0x36, 0x37, 0x38, 0x39] == [0x33, 0x34, 0x35, 0x36, 0x37, 0x38, 0x39];
    FeedByte(0x77b79c2d, 0x34, [0x35, 0x36, 0x37, 0x38, 0x39]);
    assert [0x34 as Byte] + [0x35, 0x36, 0x37, 0x38, 0x39] == [0x34, 0x35, 0x36, 0x37, 0x38, 0x39];
    FeedByte(0x641c1f5c, 0x35, [0x36, 0x37, 0x38, 0x39]);
    assert [0x35 as Byte] + [0x36, 0x37, 0x38, 0x39] == [0x35, 0x36, 0x37, 0x38, 0x39];
    FeedByte(0x340ac5e3, 0x36, [0x37, 0x38, 0x39]);
    assert [0x36 as Byte] + [0x37, 0x38, 0x39] == [0x36, 0x37, 0x38, 0x39];
    FeedByte(0xf68d2c9e, 0x37, [0x38, 0x39]);
    assert [0x37 as Byte] + [0x38, 0x39] == [0x37, 0x38, 0x39];
    FeedByte(0xaffc9660, 0x38, [0x39]);
    assert [0x38 as Byte] + [0x39] == [0x38, 0x39];
    FeedByte(0x651f2550, 0x39, []);
    assert [0x39 as Byte] + [] == [0x39];
    NothingToFeed(0x340bc6d9);
  }

  lemma NothingToFeed(crc: bv32)
    ensures Feed(crc, Bits([])) == crc
  {}
}
