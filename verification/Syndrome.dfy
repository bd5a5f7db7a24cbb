/** What the checksum says about the difference of two messages: the map from the first bits that
    differ to the change of the checksum, for the two lengths of final/Header.h. */
module Syndrome {
  import opened Crc32

  // ----- Many clocks without input ---------------------------------------------------------------

  function Clocks(n: nat, r: bv32): bv32 {
    Iterate(Shift, n, r)
  }

  lemma ClocksRespect(n: nat, x: bv32, y: bv32)
    ensures Clocks(n, Xor(x, y)) == Xor(Clocks(n, x), Clocks(n, y))
  {
    hide Shift, Xor, Iterate;
    ShiftRespectsXor();
    IterateRespects(Shift, Xor, n, x, y);
  }

  lemma ClocksXor(n: nat, x: bv32, y: bv32)
    ensures Clocks(n, x ^ y) == Clocks(n, x) ^ Clocks(n, y)
  {
    hide Clocks;
    ClocksRespect(n, x, y);
  }

  lemma {:induction false} IterateTwice<T>(f: T -> T, m: nat, n: nat, x: T)
    ensures Iterate(f, n, Iterate(f, m, x)) == Iterate(f, m + n, x)
    decreases m
  {
    if m == 0 {
    } else {
      IterateTwice(f, m - 1, n, f(x));
    }
  }

  lemma ClocksTwice(m: nat, n: nat, x: bv32)
    ensures Clocks(n, Clocks(m, x)) == Clocks(m + n, x)
  {
    hide Iterate;
    IterateTwice(Shift, m, n, x);
  }

  lemma {:induction false} ClocksInjective(n: nat, x: bv32, y: bv32)
    requires Clocks(n, x) == Clocks(n, y)
    ensures x == y
    decreases n
  {
    hide Shift;
    if n == 0 {
    } else {
      ClocksInjective(n - 1, Shift(x), Shift(y));
      ShiftInjective(x, y);
    }
  }

  lemma ClocksZero(n: nat)
    ensures Clocks(n, 0) == 0
  {
    ClocksXor(n, 0, 0);
  }

  /** One clock backwards. */
  function Unshift(y: bv32): (r: bv32)
    ensures Shift(r) == y
  {
    if y & 0x80000000 != 0 then ((y ^ 0xedb88320) << 1) | 1 else y << 1
  }

  lemma DoubleShift(x: bv32)
    requires x & 0x80000000 == 0
    ensures Shift(x << 1) == x
  {}

  /** A bit pattern moved up by one clocks to what is one clock back. */
  lemma Raise(n: nat, e: bv32, f: bv32)
    requires Clocks(n, e) == f && e & 0x80000000 == 0
    ensures Clocks(n, e << 1) == Unshift(f)
  {
    hide Shift, Unshift;
    DoubleShift(e);
    IterateCommutes(Shift, n, e << 1);
    ShiftInjective(Clocks(n, e << 1), Unshift(f));
  }

  lemma Join(n: nat, e: bv32, f: bv32, e': bv32, f': bv32)
    requires Clocks(n, e) == f && Clocks(n, e') == f'
    ensures Clocks(n, e ^ e') == f ^ f'
  {
    hide Clocks;
    ClocksXor(n, e, e');
  }

  lemma Masks()
    ensures HighMask(0) == 0xffffffff && HighMask(1) == 0xfffffffe && HighMask(2) == 0xfffffffc
    ensures HighMask(3) == 0xfffffff8 && HighMask(4) == 0xfffffff0 && HighMask(5) == 0xffffffe0
    ensures HighMask(6) == 0xffffffc0 && HighMask(7) == 0xffffff80 && HighMask(8) == 0xffffff00
    ensures HighMask(9) == 0xfffffe00 && HighMask(10) == 0xfffffc00 && HighMask(11) == 0xfffff800
    ensures HighMask(12) == 0xfffff000 && HighMask(13) == 0xffffe000 && HighMask(14) == 0xffffc000
    ensures HighMask(15) == 0xffff8000 && HighMask(16) == 0xffff0000 && HighMask(17) == 0xfffe0000
    ensures HighMask(18) == 0xfffc0000 && HighMask(19) == 0xfff80000 && HighMask(20) == 0xfff00000
    ensures HighMask(21) == 0xffe00000 && HighMask(22) == 0xffc00000 && HighMask(23) == 0xff800000
    ensures HighMask(24) == 0xff000000 && HighMask(25) == 0xfe000000 && HighMask(26) == 0xfc000000
    ensures HighMask(27) == 0xf8000000 && HighMask(28) == 0xf0000000 && HighMask(29) == 0xe0000000
    ensures HighMask(30) == 0xc0000000 && HighMask(31) == 0x80000000 && HighMask(32) == 0x0
  {
    assert HighMask(0) == 0xffffffff && HighMask(1) == 0xfffffffe && HighMask(2) == 0xfffffffc;
    assert HighMask(3) == 0xfffffff8 && HighMask(4) == 0xfffffff0 && HighMask(5) == 0xffffffe0;
    assert HighMask(6) == 0xffffffc0 && HighMask(7) == 0xffffff80 && HighMask(8) == 0xffffff00;
    assert HighMask(9) == 0xfffffe00 && HighMask(10) == 0xfffffc00 && HighMask(11) == 0xfffff800;
    assert HighMask(12) == 0xfffff000 && HighMask(13) == 0xffffe000 && HighMask(14) == 0xffffc000;
    assert HighMask(15) == 0xffff8000 && HighMask(16) == 0xffff0000 && HighMask(17) == 0xfffe0000;
    assert HighMask(18) == 0xfffc0000 && HighMask(19) == 0xfff80000 && HighMask(20) == 0xfff00000;
    assert HighMask(21) == 0xffe00000 && HighMask(22) == 0xffc00000 && HighMask(23) == 0xff800000;
    assert HighMask(24) == 0xff000000 && HighMask(25) == 0xfe000000 && HighMask(26) == 0xfc000000;
    assert HighMask(27) == 0xf8000000 && HighMask(28) == 0xf0000000 && HighMask(29) == 0xe0000000;
  }

  // ----- Computing the map -----------------------------------------------------------------------

  function Pick(e: bv32, k: bv32): bv32 {
    if e & 1 == 1 then k else 0
  }

  /** The image of the m low bits of e under the map that takes 1 to k. */
  function Image(k: bv32, e: bv32, m: nat): bv32
    decreases m
  {
    if m == 0 then 0 else Xor(Unshift(Image(k, Half(e), m - 1)), Pick(e, k))
  }

  lemma LastBit(e: bv32)
    ensures Half(e) & 0x80000000 == 0
    ensures e == Xor(Half(e) << 1, Pick(e, 1))
  {}

  lemma ImageStep(n: nat, k: bv32, e: bv32, f: bv32)
    requires Clocks(n, 1) == k && Clocks(n, Half(e)) == f
    ensures Clocks(n, e) == Xor(Unshift(f), Pick(e, k))
  {
    hide Clocks, Unshift, Half, Xor;
    LastBit(e);
    Raise(n, Half(e), f);
    ClocksZero(n);
    ClocksRespect(n, Half(e) << 1, Pick(e, 1));
  }

  lemma FitsUnfolds(e: bv32, m: nat)
    requires m > 0
    ensures Fits(e, m) <==> Fits(Half(e), m - 1)
  {}

  lemma {:induction false} ImageIs(n: nat, k: bv32, e: bv32, m: nat)
    requires Clocks(n, 1) == k && Fits(e, m)
    ensures Clocks(n, e) == Image(k, e, m)
    decreases m
  {
    hide Clocks, Unshift, Half, Xor, Pick;
    if m == 0 {
      ClocksZero(n);
    } else {
      hide Fits;
      FitsUnfolds(e, m);
      ImageIs(n, k, Half(e), m - 1);
      ImageStep(n, k, e, Image(k, Half(e), m - 1));
    }
  }

  predicate Masked(e: bv32, mask: bv32) {
    e & mask == 0
  }

  /** No bit from n on is set. */
  ghost predicate Below(e: bv32, n: nat) {
    Masked(e, HighMask(n))
  }

  function Up(mask: bv32): bv32 {
    mask << 1
  }

  lemma MaskUp(n: nat)
    requires n > 0
    ensures HighMask(n) == Up(HighMask(n - 1))
  {}

  lemma HalfMasked(e: bv32, mask: bv32)
    ensures Masked(e, Up(mask)) <==> Masked(Half(e), mask)
  {}

  lemma HalfBelow(e: bv32, n: nat)
    requires n > 0
    ensures Below(e, n) <==> Below(Half(e), n - 1)
  {
    hide Masked, Half, HighMask, Up;
    MaskUp(n);
    HalfMasked(e, HighMask(n - 1));
  }

  lemma NothingBelow(e: bv32)
    ensures Below(e, 0) <==> e == 0
  {}

  lemma {:induction false} BelowFits(e: bv32, n: nat)
    requires Below(e, n)
    ensures Fits(e, n)
    decreases n
  {
    hide Below, Half;
    if n == 0 {
      NothingBelow(e);
    } else {
      hide Fits;
      HalfBelow(e, n);
      FitsUnfolds(e, n);
      BelowFits(Half(e), n - 1);
    }
  }

  lemma RegisterFits(e: bv32)
    ensures Fits(e, 32)
  {
    hide Fits;
    Masks();
    BelowFits(e, 32);
  }

  lemma Double(n: nat, k: bv32)
    requires Clocks(n, 1) == k
    ensures Clocks(2 * n, 1) == Image(k, k, 32)
  {
    hide Clocks, Image, Fits;
    RegisterFits(k);
    ImageIs(n, k, k, 32);
    ClocksTwice(n, n, 1);
  }

  // ----- Levels ----------------------------------------------------------------------------------

  /** The lowest bit that is set, as a mask. */
  function Lowest(y: bv32): bv32 {
    y & (Flip(y) + 1)
  }

  ghost predicate EndsIn(y: bv32, seen: bv32) {
    Lowest(y) & seen != 0
  }

  /** What differs only in the i low bits has an image whose lowest bit is one of `seen`. */
  ghost predicate Level(n: nat, i: nat, seen: bv32) {
    forall d: bv32 :: d != 0 && Below(d, i) ==> EndsIn(Clocks(n, d), seen)
  }

  /** The t low bits are clear. */
  ghost predicate FromOn(y: bv32, t: nat) {
    Masked(y, Flip(HighMask(t)))
  }

  /** What differs only in the i low bits has an image that differs in the i + lag low bits. */
  ghost predicate Spreads(n: nat, i: nat, lag: nat) {
    forall d: bv32 :: d != 0 && Below(d, i) ==> !FromOn(Clocks(n, d), i + lag)
  }

  lemma Nothing(n: nat)
    ensures Level(n, 0, 0)
  {
    forall d: bv32 | Below(d, 0)
      ensures d == 0
    {
      NothingBelow(d);
    }
  }

  lemma LowestOfXor(y: bv32, z: bv32, seen: bv32)
    requires EndsIn(y, seen) && z != 0 && Lowest(z) & seen == 0
    ensures EndsIn(Xor(y, z), seen | Lowest(z))
  {}

  lemma LowestIsPart(y: bv32, seen: bv32, t: nat)
    requires EndsIn(y, seen) && Masked(seen, HighMask(t))
    ensures !FromOn(y, t)
  {
    hide HighMask, EndsIn, Masked, Flip;
    PartOf(y, seen, HighMask(t));
  }

  lemma PartOf(y: bv32, seen: bv32, high: bv32)
    requires EndsIn(y, seen) && Masked(seen, high)
    ensures !Masked(y, Flip(high))
  {}

  lemma MoreSeen(y: bv32, seen: bv32, more: bv32)
    requires EndsIn(y, seen)
    ensures EndsIn(y, seen | more)
  {}

  lemma EndsItself(f: bv32, seen: bv32)
    requires f != 0
    ensures EndsIn(f, seen | Lowest(f))
  {}

  lemma XorBack(d: bv32, e: bv32)
    ensures Xor(Xor(d, e), e) == d
    ensures d != e ==> Xor(d, e) != 0
  {}

  lemma HalfXor(d: bv32, e: bv32)
    ensures Half(Xor(d, e)) == Xor(Half(d), Half(e))
  {}

  lemma OneBit(d: bv32)
    requires Below(d, 1) && !Below(d, 0)
    ensures d == 1
  {
    assert HighMask(1) == 0xfffffffe;
  }

  /** Two patterns with the same highest bit: it cancels. */
  lemma {:induction false} Cancelled(d: bv32, e: bv32, i: nat)
    requires Below(d, i + 1) && !Below(d, i) && Below(e, i + 1) && !Below(e, i)
    ensures Below(Xor(d, e), i)
    decreases i
  {
    hide Below, Half, Xor;
    if i == 0 {
      OneBit(d);
      OneBit(e);
      SameCancels(d);
      NothingBelow(Xor(d, e));
    } else {
      HalfBelow(d, i + 1);
      HalfBelow(d, i);
      HalfBelow(e, i + 1);
      HalfBelow(e, i);
      HalfXor(d, e);
      HalfBelow(Xor(d, e), i);
      Cancelled(Half(d), Half(e), i - 1);
    }
  }

  lemma SameCancels(d: bv32)
    ensures Xor(d, d) == 0
  {}

  /** e has i as its highest bit and an image that ends in a bit not seen before. */
  ghost predicate Next(n: nat, i: nat, seen: bv32, e: bv32, f: bv32) {
    && Clocks(n, e) == f && f != 0 && Lowest(f) & seen == 0
    && Below(e, i + 1) && !Below(e, i)
  }

  lemma Reduced(n: nat, i: nat, seen: bv32, e: bv32, f: bv32, d: bv32)
    requires Level(n, i, seen) && Next(n, i, seen, e, f) && d != 0 && Below(d, i + 1)
    ensures EndsIn(Clocks(n, d), seen | Lowest(f))
  {
    hide Clocks, Lowest, HighMask, Below, EndsIn, Xor;
    if Below(d, i) {
      MoreSeen(Clocks(n, d), seen, Lowest(f));
    } else if d == e {
      EndsItself(f, seen);
    } else {
      Cancelled(d, e, i);
      XorBack(d, e);
      var g := Xor(d, e);
      ClocksRespect(n, g, e);
      LowestOfXor(Clocks(n, g), f, seen);
    }
  }

  /** One bit more: with e every pattern can be reduced to a shorter one. */
  lemma Extend(n: nat, i: nat, seen: bv32, e: bv32, f: bv32, lag: nat)
    requires Level(n, i, seen) && Next(n, i, seen, e, f)
    requires Masked(seen | Lowest(f), HighMask(i + 1 + lag))
    ensures Level(n, i + 1, seen | Lowest(f)) && Spreads(n, i + 1, lag)
  {
    hide Clocks, Lowest, HighMask, Masked, Below, EndsIn, FromOn;
    forall d: bv32 | d != 0 && Below(d, i + 1)
      ensures EndsIn(Clocks(n, d), seen | Lowest(f)) && !FromOn(Clocks(n, d), i + 1 + lag)
    {
      Reduced(n, i, seen, e, f, d);
      LowestIsPart(Clocks(n, d), seen | Lowest(f), i + 1 + lag);
    }
  }

  // ----- The two lengths -------------------------------------------------------------------------

  lemma Twice8()
    requires Clocks(8, 1) == 0x77073096
    ensures Clocks(16, 1) == 0x191b3141
  {
    hide Clocks, Unshift;
    assert Image(0x77073096, 7, 4) == 0x9e6495a3;
    assert Image(0x77073096, 0x77, 8) == 0xce61e49f;
    assert Image(0x77073096, 0x770, 12) == 0x5005713b;
    assert Image(0x77073096, 0x7707, 16) == 0x9e6495d4;
    assert Image(0x77073096, 0x77073, 20) == 0xc90c27f6;
    assert Image(0x77073096, 0x770730, 24) == 0x26d947ab;
    assert Image(0x77073096, 0x7707309, 28) == 0x79dbc8d7;
    assert Image(0x77073096, 0x77073096, 32) == 0x191b3141;
    Double(8, 0x77073096);
  }

  lemma Twice16()
    requires Clocks(16, 1) == 0x191b3141
    ensures Clocks(32, 1) == 0xb8bc6765
  {
    hide Clocks, Unshift;
    assert Image(0x191b3141, 1, 4) == 0x191b3141;
    assert Image(0x191b3141, 0x19, 8) == 0x9b00a918;
    assert Image(0x191b3141, 0x191, 12) == 0x1f5d8bcd;
    assert Image(0x191b3141, 0x191b, 16) == 0xcd5d635a;
    assert Image(0x191b3141, 0x191b3, 20) == 0x48e05ea8;
    assert Image(0x191b3141, 0x191b31, 24) == 0x4c38ce47;
    assert Image(0x191b3141, 0x191b314, 28) == 0x7cc634f2;
    assert Image(0x191b3141, 0x191b3141, 32) == 0xb8bc6765;
    Double(16, 0x191b3141);
  }

  lemma Twice32()
    requires Clocks(32, 1) == 0xb8bc6765
    ensures Clocks(64, 1) == 0xccaa009e
  {
    hide Clocks, Unshift;
    assert Image(0xb8bc6765, 0xb, 4) == 0xd7018701;
    assert Image(0xb8bc6765, 0xb8, 8) == 0xd8c66675;
    assert Image(0xb8bc6765, 0xb8b, 12) == 0x360ddedb;
    assert Image(0xb8bc6765, 0xb8bc, 16) == 0x9ce95e8a;
    assert Image(0xb8bc6765, 0xb8bc6, 20) == 0x5db29c70;
    assert Image(0xb8bc6765, 0xb8bc67, 24) == 0x46a9ec7e;
    assert Image(0xb8bc6765, 0xb8bc676, 28) == 0x94d38dba;
    assert Image(0xb8bc6765, 0xb8bc6765, 32) == 0xccaa009e;
    Double(32, 0xb8bc6765);
  }

  lemma Twice64()
    requires Clocks(64, 1) == 0xccaa009e
    ensures Clocks(128, 1) == 0xae689191
  {
    hide Clocks, Unshift;
    assert Image(0xccaa009e, 0xc, 4) == 0x57af154f;
    assert Image(0xccaa009e, 0xcc, 8) == 0x2d095278;
    assert Image(0xccaa009e, 0xcca, 12) == 0x2cc6318b;
    assert Image(0xccaa009e, 0xccaa, 16) == 0x30300ebb;
    assert Image(0xccaa009e, 0xccaa0, 20) == 0xb5e2e732;
    assert Image(0xccaa009e, 0xccaa00, 24) == 0x85f152ef;
    assert Image(0xccaa009e, 0xccaa009, 28) == 0x2d671896;
    assert Image(0xccaa009e, 0xccaa009e, 32) == 0xae689191;
    Double(64, 0xccaa009e);
  }

  lemma Twice128()
    requires Clocks(128, 1) == 0xae689191
    ensures Clocks(256, 1) == 0xf1da05aa
  {
    hide Clocks, Unshift;
    assert Image(0xae689191, 0xa, 4) == 0xf4b3ba2c;
    assert Image(0xae689191, 0xae, 8) == 0x6b406022;
    assert Image(0xae689191, 0xae6, 12) == 0x51227481;
    assert Image(0xae689191, 0xae68, 16) == 0x6163c498;
    assert Image(0xae689191, 0xae689, 20) == 0x7df2581b;
    assert Image(0xae689191, 0xae6891, 24) == 0x1c890925;
    assert Image(0xae689191, 0xae68919, 28) == 0xce9a9acf;
    assert Image(0xae689191, 0xae689191, 32) == 0xf1da05aa;
    Double(128, 0xae689191);
  }

  lemma Twice256()
    requires Clocks(256, 1) == 0xf1da05aa
    ensures Clocks(512, 1) == 0x8f352d95
  {
    hide Clocks, Unshift;
    assert Image(0xf1da05aa, 0xf, 4) == 0x5b8126c1;
    assert Image(0xf1da05aa, 0xf1, 8) == 0x499f7a7d;
    assert Image(0xf1da05aa, 0xf1d, 12) == 0x21959982;
    assert Image(0xf1da05aa, 0xf1da, 16) == 0xaf1baba2;
    assert Image(0xf1da05aa, 0xf1da0, 20) == 0xf1149dae;
    assert Image(0xf1da05aa, 0xf1da05, 24) == 0x91e0f129;
    assert Image(0xf1da05aa, 0xf1da05a, 28) == 0x739200dd;
    assert Image(0xf1da05aa, 0xf1da05aa, 32) == 0x8f352d95;
    Double(256, 0xf1da05aa);
  }

  lemma Twice512()
    requires Clocks(512, 1) == 0x8f352d95
    ensures Clocks(1024, 1) == 0x33fff533
  {
    hide Clocks, Unshift;
    assert Image(0x8f352d95, 8, 4) == 0xa28f792e;
    assert Image(0x8f352d95, 0x8f, 8) == 0x91bf0029;
    assert Image(0x8f352d95, 0x8f3, 12) == 0xe7925962;
    assert Image(0x8f352d95, 0x8f35, 16) == 0x7cdf352a;
    assert Image(0x8f352d95, 0x8f352, 20) == 0x652c16cf;
    assert Image(0x8f352d95, 0x8f352d, 24) == 0x98899b99;
    assert Image(0x8f352d95, 0x8f352d9, 28) == 0x136fc627;
    assert Image(0x8f352d95, 0x8f352d95, 32) == 0x33fff533;
    Double(512, 0x8f352d95);
  }

  lemma Twice1024()
    requires Clocks(1024, 1) == 0x33fff533
    ensures Clocks(2048, 1) == 0xce3371cb
  {
    hide Clocks, Unshift;
    assert Image(0x33fff533, 3, 4) == 0x54001f55;
    assert Image(0x33fff533, 0x33, 8) == 0x1456f9c2;
    assert Image(0x33fff533, 0x33f, 12) == 0x416ffe21;
    assert Image(0x33fff533, 0x33ff, 16) == 0x12a893d6;
    assert Image(0x33fff533, 0x33fff, 20) == 0x2e895f61;
    assert Image(0x33fff533, 0x33fff5, 24) == 0x7906dd2c;
    assert Image(0x33fff533, 0x33fff53, 28) == 0xa9a9d491;
    assert Image(0x33fff533, 0x33fff533, 32) == 0xce3371cb;
    Double(1024, 0x33fff533);
  }

  lemma Twice2048()
    requires Clocks(2048, 1) == 0xce3371cb
    ensures Clocks(4096, 1) == 0x1072db28
  {
    hide Clocks, Unshift;
    assert Image(0xce3371cb, 0xc, 4) == 0x49015ab3;
    assert Image(0xce3371cb, 0xce, 8) == 0x452501d2;
    assert Image(0xce3371cb, 0xce3, 12) == 0x529cba;
    assert Image(0xce3371cb, 0xce33, 16) == 0x8c0d5fbc;
    assert Image(0xce3371cb, 0xce337, 20) == 0xaae3893f;
    assert Image(0xce3371cb, 0xce3371, 24) == 0x60a5c5b5;
    assert Image(0xce3371cb, 0xce3371c, 28) == 0xf5e81ea6;
    assert Image(0xce3371cb, 0xce3371cb, 32) == 0x1072db28;
    Double(2048, 0xce3371cb);
  }

  lemma Twice4096()
    requires Clocks(4096, 1) == 0x1072db28
    ensures Clocks(8192, 1) == 0xf891f16f
  {
    hide Clocks, Unshift;
    assert Image(0x1072db28, 1, 4) == 0x1072db28;
    assert Image(0x1072db28, 0x10, 8) == 0xdc5cb4c1;
    assert Image(0x1072db28, 0x107, 12) == 0xd9fd7342;
    assert Image(0x1072db28, 0x1072, 16) == 0xd258bcfa;
    assert Image(0x1072db28, 0x1072d, 20) == 0x9ace9fe2;
    assert Image(0x1072db28, 0x1072db, 24) == 0xa9a46114;
    assert Image(0x1072db28, 0x1072db2, 28) == 0xba0d809e;
    assert Image(0x1072db28, 0x1072db28, 32) == 0xf891f16f;
    Double(4096, 0x1072db28);
  }

  // Row by row: Raise moves an earlier row up by one bit, Join adds two, and Extend uses the result,
  // whose highest bit is the next one and whose image ends in a bit that no row before it ends in.

  lemma DataRows1()
    requires Clocks(8160, 1) == 0xc84f001c
    ensures Clocks(8160, 0xb) == 0x776d19c0 && Clocks(8160, 0x16) == 0xeeda3380
    ensures Clocks(8160, 0x5c) == 0x9a54ce70
    ensures Level(8160, 7, 0xdf)
    ensures forall i :: 0 < i <= 7 ==> Spreads(8160, i, 3)
  {
    hide Clocks, Level, Spreads, HighMask;
    Masks();
    Nothing(8160);
    Extend(8160, 0, 0, 1, 0xc84f001c, 3);
    Raise(8160, 1, 0xc84f001c);
    Extend(8160, 1, 4, 2, 0x4bef0679, 3);
    Raise(8160, 2, 0x4bef0679);
    Extend(8160, 2, 5, 4, 0x97de0cf2, 3);
    Raise(8160, 4, 0x97de0cf2);
    Join(8160, 8, 0xf4cd1fa5, 1, 0xc84f001c);
    Join(8160, 9, 0x3c821fb9, 2, 0x4bef0679);
    Extend(8160, 3, 7, 0xb, 0x776d19c0, 3);
    Raise(8160, 0xb, 0x776d19c0);
    Extend(8160, 4, 0x47, 0x16, 0xeeda3380, 3);
    Raise(8160, 0x16, 0xeeda3380);
    Join(8160, 0x2c, 0x6c56141, 2, 0x4bef0679);
    Extend(8160, 5, 0xc7, 0x2e, 0x4d2a6738, 3);
    Raise(8160, 0x2e, 0x4d2a6738);
    Extend(8160, 6, 0xcf, 0x5c, 0x9a54ce70, 3);
  }

  lemma DataRows2()
    requires Clocks(8160, 0xb) == 0x776d19c0 && Clocks(8160, 0x16) == 0xeeda3380
    requires Clocks(8160, 0x5c) == 0x9a54ce70
    requires Level(8160, 7, 0xdf)
    ensures Clocks(8160, 0x1d7f) == 0xc2594000 && Clocks(8160, 0x34fc) == 0xea813000
    ensures Level(8160, 14, 0x5fff)
    ensures forall i :: 7 < i <= 14 ==> Spreads(8160, i, 3)
  {
    hide Clocks, Level, Spreads, HighMask;
    Masks();
    Join(8160, 0x16, 0xeeda3380, 0x5c, 0x9a54ce70);
    Raise(8160, 0x4a, 0x748efdf0);
    Extend(8160, 7, 0xdf, 0x94, 0xe91dfbe0, 3);
    Join(8160, 0x16, 0xeeda3380, 0x94, 0xe91dfbe0);
    Raise(8160, 0x82, 0x7c7c860);
    Join(8160, 0x104, 0xf8f90c0, 0xb, 0x776d19c0);
    Extend(8160, 8, 0xff, 0x10f, 0x78e28900, 3);
    Raise(8160, 0x10f, 0x78e28900);
    Extend(8160, 9, 0x1ff, 0x21e, 0xf1c51200, 3);
    Join(8160, 0x16, 0xeeda3380, 0x21e, 0xf1c51200);
    Raise(8160, 0x208, 0x1f1f2180);
    Join(8160, 0x410, 0x3e3e4300, 0x10f, 0x78e28900);
    Join(8160, 0x51f, 0x46dcca00, 0x21e, 0xf1c51200);
    Extend(8160, 10, 0x3ff, 0x701, 0xb719d800, 3);
    Join(8160, 0x21e, 0xf1c51200, 0x701, 0xb719d800);
    Raise(8160, 0x51f, 0x46dcca00);
    Extend(8160, 11, 0xbff, 0xa3e, 0x8db99400, 3);
    Join(8160, 0x701, 0xb719d800, 0xa3e, 0x8db99400);
    Raise(8160, 0xd3f, 0x3aa04c00);
    Join(8160, 0x1a7e, 0x75409800, 0x701, 0xb719d800);
    Extend(8160, 12, 0xfff, 0x1d7f, 0xc2594000, 3);
    Join(8160, 0x701, 0xb719d800, 0x1d7f, 0xc2594000);
    Raise(8160, 0x1a7e, 0x75409800);
    Extend(8160, 13, 0x4fff, 0x34fc, 0xea813000, 3);
  }

  lemma DataRows3()
    requires Clocks(8160, 0x1d7f) == 0xc2594000 && Clocks(8160, 0x34fc) == 0xea813000
    requires Level(8160, 14, 0x5fff)
    ensures Clocks(8160, 0x26c41) == 0x61680000 && Clocks(8160, 0x4d882) == 0xc2d00000
    ensures Clocks(8160, 0x16b990) == 0x2840000
    ensures Level(8160, 21, 0x1fffff)
    ensures forall i :: 14 < i <= 21 ==> Spreads(8160, i, 3)
  {
    hide Clocks, Level, Spreads, HighMask;
    Masks();
    Join(8160, 0x1d7f, 0xc2594000, 0x34fc, 0xea813000);
    Raise(8160, 0x2983, 0x28d87000);
    Extend(8160, 14, 0x5fff, 0x5306, 0x51b0e000, 3);
    Raise(8160, 0x5306, 0x51b0e000);
    Join(8160, 0xa60c, 0xa361c000, 0x1d7f, 0xc2594000);
    Extend(8160, 15, 0x7fff, 0xbb73, 0x61388000, 3);
    Raise(8160, 0xbb73, 0x61388000);
    Extend(8160, 16, 0xffff, 0x176e6, 0xc2710000, 3);
    Join(8160, 0x1d7f, 0xc2594000, 0x176e6, 0xc2710000);
    Raise(8160, 0x16b99, 0x284000);
    Join(8160, 0x2d732, 0x508000, 0xbb73, 0x61388000);
    Extend(8160, 17, 0x1ffff, 0x26c41, 0x61680000, 3);
    Raise(8160, 0x26c41, 0x61680000);
    Extend(8160, 18, 0x9ffff, 0x4d882, 0xc2d00000, 3);
    Join(8160, 0x176e6, 0xc2710000, 0x4d882, 0xc2d00000);
    Raise(8160, 0x5ae64, 0xa10000);
    Extend(8160, 19, 0x19ffff, 0xb5cc8, 0x1420000, 3);
    Raise(8160, 0xb5cc8, 0x1420000);
    Extend(8160, 20, 0x1bffff, 0x16b990, 0x2840000, 3);
  }

  lemma DataRows4()
    requires Clocks(8160, 0x26c41) == 0x61680000 && Clocks(8160, 0x4d882) == 0xc2d00000
    requires Clocks(8160, 0x16b990) == 0x2840000
    requires Level(8160, 21, 0x1fffff)
    ensures Level(8160, 28, 0x1bffffff)
    ensures forall i :: 21 < i <= 28 ==> Spreads(8160, i, 3)
  {
    hide Clocks, Level, Spreads, HighMask;
    Masks();
    Raise(8160, 0x16b990, 0x2840000);
    Join(8160, 0x2d7320, 0x5080000, 0x26c41, 0x61680000);
    Extend(8160, 21, 0x1fffff, 0x2f1f61, 0x64600000, 3);
    Raise(8160, 0x2f1f61, 0x64600000);
    Extend(8160, 22, 0x3fffff, 0x5e3ec2, 0xc8c00000, 3);
    Join(8160, 0x4d882, 0xc2d00000, 0x5e3ec2, 0xc8c00000);
    Raise(8160, 0x5ae640, 0xa100000);
    Join(8160, 0xb5cc80, 0x14200000, 0x2f1f61, 0x64600000);
    Join(8160, 0x9ad3e1, 0x70400000, 0x5e3ec2, 0xc8c00000);
    Extend(8160, 23, 0x7fffff, 0xc4ed23, 0xb8800000, 3);
    Join(8160, 0x5e3ec2, 0xc8c00000, 0xc4ed23, 0xb8800000);
    Raise(8160, 0x9ad3e1, 0x70400000);
    Join(8160, 0x135a7c2, 0xe0800000, 0xc4ed23, 0xb8800000);
    Extend(8160, 24, 0xffffff, 0x1f14ae1, 0x58000000, 3);
    Raise(8160, 0x1f14ae1, 0x58000000);
    Extend(8160, 25, 0x8ffffff, 0x3e295c2, 0xb0000000, 3);
    Join(8160, 0xc4ed23, 0xb8800000, 0x3e295c2, 0xb0000000);
    Raise(8160, 0x32678e1, 0x8800000);
    Extend(8160, 26, 0x18ffffff, 0x64cf1c2, 0x11000000, 3);
    Raise(8160, 0x64cf1c2, 0x11000000);
    Extend(8160, 27, 0x19ffffff, 0xc99e384, 0x22000000, 3);
  }

  lemma AckRows1()
    requires Clocks(64, 1) == 0xccaa009e
    ensures Clocks(64, 0x19) == 0x63f42a00 && Clocks(64, 0x32) == 0xc7e85400 && Clocks(64, 0x70) == 0xac509190
    ensures Level(64, 7, 0x61f)
    ensures forall i :: 0 < i <= 7 ==> Spreads(64, i, 5)
  {
    hide Clocks, Level, Spreads, HighMask;
    Masks();
    Nothing(64);
    Extend(64, 0, 0, 1, 0xccaa009e, 5);
    Raise(64, 1, 0xccaa009e);
    Extend(64, 1, 2, 2, 0x4225077d, 5);
    Raise(64, 2, 0x4225077d);
    Join(64, 4, 0x844a0efa, 1, 0xccaa009e);
    Extend(64, 2, 3, 5, 0x48e00e64, 5);
    Raise(64, 5, 0x48e00e64);
    Extend(64, 3, 7, 0xa, 0x91c01cc8, 5);
    Raise(64, 0xa, 0x91c01cc8);
    Join(64, 0x14, 0xf8f13fd1, 2, 0x4225077d);
    Join(64, 0x16, 0xbad438ac, 5, 0x48e00e64);
    Join(64, 0x13, 0xf23436c8, 0xa, 0x91c01cc8);
    Extend(64, 4, 0xf, 0x19, 0x63f42a00, 5);
    Raise(64, 0x19, 0x63f42a00);
    Extend(64, 5, 0x20f, 0x32, 0xc7e85400, 5);
    Join(64, 0xa, 0x91c01cc8, 0x32, 0xc7e85400);
    Raise(64, 0x38, 0x562848c8);
    Extend(64, 6, 0x60f, 0x70, 0xac509190, 5);
  }

  lemma AckRows2()
    requires Clocks(64, 0x19) == 0x63f42a00 && Clocks(64, 0x32) == 0xc7e85400 && Clocks(64, 0x70) == 0xac509190
    requires Level(64, 7, 0x61f)
    ensures Clocks(64, 0xb1d) == 0xe5b97000 && Clocks(64, 0x27a1) == 0x6cfde000
    ensures Level(64, 14, 0x3fff)
    ensures forall i :: 7 < i <= 14 ==> Spreads(64, i, 5)
  {
    hide Clocks, Level, Spreads, HighMask;
    Masks();
    Join(64, 0x32, 0xc7e85400, 0x70, 0xac509190);
    Raise(64, 0x42, 0x6bb8c590);
    Extend(64, 7, 0x61f, 0x84, 0xd7718b20, 5);
    Join(64, 0x32, 0xc7e85400, 0x84, 0xd7718b20);
    Raise(64, 0xb6, 0x1099df20);
    Extend(64, 8, 0x63f, 0x16c, 0x2133be40, 5);
    Raise(64, 0x16c, 0x2133be40);
    Extend(64, 9, 0x67f, 0x2d8, 0x42677c80, 5);
    Raise(64, 0x2d8, 0x42677c80);
    Extend(64, 10, 0x6ff, 0x5b0, 0x84cef900, 5);
    Join(64, 0x32, 0xc7e85400, 0x5b0, 0x84cef900);
    Raise(64, 0x582, 0x4326ad00);
    Join(64, 0xb04, 0x864d5a00, 0x19, 0x63f42a00);
    Extend(64, 11, 0x7ff, 0xb1d, 0xe5b97000, 5);
    Join(64, 0x32, 0xc7e85400, 0xb1d, 0xe5b97000);
    Raise(64, 0xb2f, 0x22512400);
    Extend(64, 12, 0x17ff, 0x165e, 0x44a24800, 5);
    Raise(64, 0x165e, 0x44a24800);
    Join(64, 0x2cbc, 0x89449000, 0xb1d, 0xe5b97000);
    Extend(64, 13, 0x1fff, 0x27a1, 0x6cfde000, 5);
  }

  lemma AckRows3()
    requires Clocks(64, 0xb1d) == 0xe5b97000 && Clocks(64, 0x27a1) == 0x6cfde000
    requires Level(64, 14, 0x3fff)
    ensures Clocks(64, 0x578f8) == 0xa3c40000 && Clocks(64, 0xc5ad1) == 0x3ad00000
    ensures Clocks(64, 0x18b5a2) == 0x75a00000
    ensures Level(64, 21, 0x37ffff)
    ensures forall i :: 14 < i <= 21 ==> Spreads(64, i, 5)
  {
    hide Clocks, Level, Spreads, HighMask;
    Masks();
    Raise(64, 0x27a1, 0x6cfde000);
    Extend(64, 14, 0x3fff, 0x4f42, 0xd9fbc000, 5);
    Join(64, 0xb1d, 0xe5b97000, 0x4f42, 0xd9fbc000);
    Raise(64, 0x445f, 0x3c42b000);
    Join(64, 0x88be, 0x78856000, 0x27a1, 0x6cfde000);
    Extend(64, 15, 0x7fff, 0xaf1f, 0x14788000, 5);
    Raise(64, 0xaf1f, 0x14788000);
    Extend(64, 16, 0xffff, 0x15e3e, 0x28f10000, 5);
    Raise(64, 0x15e3e, 0x28f10000);
    Extend(64, 17, 0x1ffff, 0x2bc7c, 0x51e20000, 5);
    Raise(64, 0x2bc7c, 0x51e20000);
    Extend(64, 18, 0x3ffff, 0x578f8, 0xa3c40000, 5);
    Join(64, 0xb1d, 0xe5b97000, 0x578f8, 0xa3c40000);
    Raise(64, 0x573e5, 0x467d7000);
    Join(64, 0xae7ca, 0x8cfae000, 0x27a1, 0x6cfde000);
    Join(64, 0xac06b, 0xe0070000, 0x15e3e, 0x28f10000);
    Join(64, 0xb9e55, 0xc8f60000, 0x2bc7c, 0x51e20000);
    Join(64, 0x92229, 0x99140000, 0x578f8, 0xa3c40000);
    Extend(64, 19, 0x7ffff, 0xc5ad1, 0x3ad00000, 5);
    Raise(64, 0xc5ad1, 0x3ad00000);
    Extend(64, 20, 0x17ffff, 0x18b5a2, 0x75a00000, 5);
  }

  lemma AckRows4()
    requires Clocks(64, 0x578f8) == 0xa3c40000 && Clocks(64, 0xc5ad1) == 0x3ad00000
    requires Clocks(64, 0x18b5a2) == 0x75a00000
    requires Level(64, 21, 0x37ffff)
    ensures Level(64, 26, 0x77fffff)
    ensures forall i :: 21 < i <= 26 ==> Spreads(64, i, 5)
  {
    hide Clocks, Level, Spreads, HighMask;
    Masks();
    Raise(64, 0x18b5a2, 0x75a00000);
    Extend(64, 21, 0x37ffff, 0x316b44, 0xeb400000, 5);
    Join(64, 0x578f8, 0xa3c40000, 0x316b44, 0xeb400000);
    Raise(64, 0x3413bc, 0x48840000);
    Extend(64, 22, 0x77ffff, 0x682778, 0x91080000, 5);
    Join(64, 0x316b44, 0xeb400000, 0x682778, 0x91080000);
    Raise(64, 0x594c3c, 0x7a480000);
    Join(64, 0xb29878, 0xf4900000, 0xc5ad1, 0x3ad00000);
    Join(64, 0xbec2a9, 0xce400000, 0x316b44, 0xeb400000);
    Extend(64, 23, 0x7fffff, 0x8fa9ed, 0x25000000, 5);
    Raise(64, 0x8fa9ed, 0x25000000);
    Extend(64, 24, 0x17fffff, 0x11f53da, 0x4a000000, 5);
    Raise(64, 0x11f53da, 0x4a000000);
    Extend(64, 25, 0x37fffff, 0x23ea7b4, 0x94000000, 5);
  }

  lemma Doublings()
    ensures Clocks(32, 1) == 0xb8bc6765 && Clocks(64, 1) == 0xccaa009e && Clocks(8192, 1) == 0xf891f16f
  {
    hide Clocks, Shift8;
    EightClocks();
    Twice8();
    Twice16();
    Twice32();
    Twice64();
    Twice128();
    Twice256();
    Twice512();
    Twice1024();
    Twice2048();
    Twice4096();
  }

  lemma EightClocks()
    ensures Clocks(8, 1) == 0x77073096
  {
    hide Iterate;
    Powers();
  }

  lemma DataStart()
    ensures Clocks(8160, 1) == 0xc84f001c
  {
    hide Clocks, Unshift;
    Doublings();
    assert Image(0xb8bc6765, 0xc, 4) == 0x4ad6bfb8;
    assert Image(0xb8bc6765, 0xc8, 8) == 0xb3f9c6e9;
    assert Image(0xb8bc6765, 0xc84, 12) == 0x6b21d808;
    assert Image(0xb8bc6765, 0xc84f, 16) == 0x5ccb8f93;
    assert Image(0xb8bc6765, 0xc84f0, 20) == 0xccefeaf7;
    assert Image(0xb8bc6765, 0xc84f00, 24) == 0x78e597bb;
    assert Image(0xb8bc6765, 0xc84f001, 28) == 0x5b2105d1;
    assert Image(0xb8bc6765, 0xc84f001c, 32) == 0xf891f16f;
    hide Image, Fits, HighMask;
    ClocksTwice(8160, 32, 1);
    RegisterFits(0xc84f001c);
    ImageIs(32, 0xb8bc6765, 0xc84f001c, 32);
    ClocksInjective(32, Clocks(8160, 1), 0xc84f001c);
  }

  /** 1020 bytes: a difference confined to the first i bits shows in the i + 3 low bits of the
      checksum; that of 0xb shows in none of the 6 lowest. */
  lemma DataSpreads()
    ensures forall i :: 0 < i <= 28 ==> Spreads(8160, i, 3)
    ensures Clocks(8160, 0xb) == 0x776d19c0
  {
    hide Clocks, Level, Spreads;
    DataStart();
    DataRows1();
    DataRows2();
    DataRows3();
    DataRows4();
  }

  /** 8 bytes: in the i + 5 low bits; that of 0x19 in none of the 9 lowest. */
  lemma AckSpreads()
    ensures forall i :: 0 < i <= 26 ==> Spreads(64, i, 5)
    ensures Clocks(64, 0x19) == 0x63f42a00
  {
    hide Clocks, Level, Spreads;
    Doublings();
    AckRows1();
    AckRows2();
    AckRows3();
    AckRows4();
  }

  // ----- Messages of zeros --------------------------------------------------------------------------

  /** From the register that a checksum starts with, 1020 zero bytes lead here. */
  lemma DataOfZeros()
    ensures Clocks(8160, 0xffffffff) == 0x98445079
  {
    hide Clocks, Unshift;
    DataStart();
    assert Image(0xc84f001c, 0xf, 4) == 0xe0b31532;
    assert Image(0xc84f001c, 0xff, 8) == 0x300a741a;
    assert Image(0xc84f001c, 0xfff, 12) == 0x56f65810;
    assert Image(0xc84f001c, 0xffff, 16) == 0x8f8187f5;
    assert Image(0xc84f001c, 0xfffff, 20) == 0x7596472f;
    assert Image(0xc84f001c, 0xffffff, 24) == 0xd4137ec6;
    assert Image(0xc84f001c, 0xfffffff, 28) == 0xcceec7d8;
    assert Image(0xc84f001c, 0xffffffff, 32) == 0x98445079;
    hide Image, Fits, HighMask;
    RegisterFits(0xffffffff);
    ImageIs(8160, 0xc84f001c, 0xffffffff, 32);
  }

  lemma AckOfZeros()
    ensures Clocks(64, 0xffffffff) == 0x9add2096
  {
    hide Clocks, Unshift;
    Doublings();
    assert Image(0xccaa009e, 0xf, 4) == 0xd92012ac;
    assert Image(0xccaa009e, 0xff, 8) == 0x264b06e6;
    assert Image(0xccaa009e, 0xfff, 12) == 0xd003760f;
    assert Image(0xccaa009e, 0xffff, 16) == 0xb47d4cd6;
    assert Image(0xccaa009e, 0xfffff, 20) == 0x452bfe03;
    assert Image(0xccaa009e, 0xffffff, 24) == 0x50b9e71a;
    assert Image(0xccaa009e, 0xfffffff, 28) == 0xd2e970cb;
    assert Image(0xccaa009e, 0xffffffff, 32) == 0x9add2096;
    hide Image, Fits, HighMask;
    RegisterFits(0xffffffff);
    ImageIs(64, 0xccaa009e, 0xffffffff, 32);
  }
}
