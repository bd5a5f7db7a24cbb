/** Bursts anywhere in a datagram, from the checksum field into the bytes it covers: which lengths
    are always noticed, and a shortest one that is not. */
module Straddle {
  import opened Options
  import Bytes
  import opened Crc32
  import opened Syndrome
  import opened Wire

  /** Every burst of at most so many bits is noticed in a package. */
  const DATA_BURST := 29

  /** And in an acknowledgement. */
  const ACK_BURST := 27

  // ----- Datagrams as strings of bits ------------------------------------------------------------

  /** The checksum field stands directly in front of the bytes it covers. */
  function WireBits(d: Datagram): (bits: seq<bool>)
    ensures |bits| == 32 + 8 * |d.covered|
  {
    LowBits(d.checkSum, 32) + Bits(d.covered)
  }

  /** The datagrams differ only within n consecutive bits, from bit k on. */
  ghost predicate BurstIn(d: Datagram, d': Datagram, k: nat, n: nat) {
    && |d.covered| == |d'.covered|
    && forall i :: 0 <= i < |WireBits(d)| && WireBits(d)[i] != WireBits(d')[i] ==> k <= i < k + n
  }

  lemma BurstParts(d: Datagram, d': Datagram, k: nat, n: nat)
    requires BurstIn(d, d', k, n)
    ensures |Bits(d.covered)| == |Bits(d'.covered)|
    ensures forall i :: 0 <= i < 32 && LowBits(d.checkSum, 32)[i] != LowBits(d'.checkSum, 32)[i] ==> k <= i < k + n
    ensures forall i :: 0 <= i < |Bits(d.covered)| && Bits(d.covered)[i] != Bits(d'.covered)[i] ==>
      k <= i + 32 < k + n
  {
    hide LowBits, Bits;
    var s, s' := LowBits(d.checkSum, 32), LowBits(d'.checkSum, 32);
    var b, b' := Bits(d.covered), Bits(d'.covered);
    forall i | 0 <= i < 32 && s[i] != s'[i]
      ensures k <= i < k + n
    {
      assert WireBits(d)[i] == s[i] && WireBits(d')[i] == s'[i];
    }
    forall i | 0 <= i < |b| && b[i] != b'[i]
      ensures k <= i + 32 < k + n
    {
      assert WireBits(d)[i + 32] == b[i] && WireBits(d')[i + 32] == b'[i];
    }
  }

  lemma BurstFromParts(d: Datagram, d': Datagram, k: nat, n: nat)
    requires |d.covered| == |d'.covered|
    requires forall i :: 0 <= i < 32 && LowBits(d.checkSum, 32)[i] != LowBits(d'.checkSum, 32)[i] ==> k <= i < k + n
    requires forall i :: 0 <= i < |Bits(d.covered)| && Bits(d.covered)[i] != Bits(d'.covered)[i] ==>
      k <= i + 32 < k + n
    ensures BurstIn(d, d', k, n)
  {
    hide LowBits, Bits;
    forall i | 0 <= i < |WireBits(d)| && WireBits(d)[i] != WireBits(d')[i]
      ensures k <= i < k + n
    {
      if i >= 32 {
        assert Bits(d.covered)[i - 32] != Bits(d'.covered)[i - 32];
      }
    }
  }

  // ----- Strings of bits as registers ------------------------------------------------------------

  function Put(b: bool, r: bv32): bv32 {
    Bit(b) | (r << 1)
  }

  function Odd(r: bv32): bool {
    r & 1 == 1
  }

  function Register(bits: seq<bool>): bv32 {
    if bits == [] then 0 else Put(bits[0], Register(bits[1..]))
  }

  lemma PutParts(b: bool, r: bv32)
    requires Masked(r, 0x80000000)
    ensures Odd(Put(b, r)) == b && Half(Put(b, r)) == r
  {
    hide Masked, Odd, Put, Half;
    if b {
      PutOne(r);
    } else {
      PutZero(r);
    }
  }

  lemma PutOne(r: bv32)
    requires Masked(r, 0x80000000)
    ensures Odd(Put(true, r)) && Half(Put(true, r)) == r
  {}

  lemma PutZero(r: bv32)
    requires Masked(r, 0x80000000)
    ensures !Odd(Put(false, r)) && Half(Put(false, r)) == r
  {}

  lemma TopClear(r: bv32, n: nat)
    requires Below(r, n) && n <= 31
    ensures Masked(r, 0x80000000)
  {
    MaskValues();
    TopInMask(r, HighMask(n));
  }

  lemma TopInMask(r: bv32, mask: bv32)
    requires r & mask == 0 && mask & 0x80000000 != 0
    ensures r & 0x80000000 == 0
  {}

  lemma LowBitsUnfold(y: bv32, n: nat)
    requires n > 0
    ensures LowBits(y, n) == [Odd(y)] + LowBits(Half(y), n - 1)
  {}

  lemma {:induction false} RegisterBits(bits: seq<bool>)
    requires |bits| <= 32
    ensures Below(Register(bits), |bits|) && LowBits(Register(bits), |bits|) == bits
    decreases |bits|
  {
    hide Below, Put, Half, Odd, Masked;
    if bits == [] {
      NothingBelow(0);
    } else {
      hide LowBits;
      var rest := Register(bits[1..]);
      RegisterBits(bits[1..]);
      TopClear(rest, |bits| - 1);
      PutParts(bits[0], rest);
      HalfBelow(Register(bits), |bits|);
      LowBitsUnfold(Register(bits), |bits|);
    }
  }

  /** Strings that agree from i on give registers that differ below i only. */
  lemma {:induction false} AgreeFrom(w: seq<bool>, v: seq<bool>, i: nat)
    requires |w| == |v| <= 32 && forall j :: i <= j < |w| ==> w[j] == v[j]
    ensures Below(Xor(Register(w), Register(v)), i)
    decreases |w|
  {
    hide Below, Put, Half, Xor, Odd, Masked;
    if i == 0 {
      assert w == v;
      SameCancels(Register(w));
      NothingBelow(0);
    } else if w == [] {
      SameCancels(0);
      ZeroBelow(i);
    } else {
      var a, b := Register(w[1..]), Register(v[1..]);
      AgreeFrom(w[1..], v[1..], i - 1);
      RegisterBits(w[1..]);
      RegisterBits(v[1..]);
      TopClear(a, |w| - 1);
      TopClear(b, |w| - 1);
      PutParts(w[0], a);
      PutParts(v[0], b);
      HalfXor(Register(w), Register(v));
      HalfBelow(Xor(Register(w), Register(v)), i);
    }
  }

  lemma ZeroBelow(i: nat)
    ensures Below(0, i)
  {}

  /** Registers whose first bits agree differ from there on only. */
  lemma {:induction false} AgreeUpTo(y: bv32, z: bv32, n: nat, k: nat)
    requires k <= n && forall j :: 0 <= j < k ==> LowBits(y, n)[j] == LowBits(z, n)[j]
    ensures FromOn(Xor(y, z), k)
    decreases k
  {
    hide FromOn, Half, Xor, Odd, LowBits;
    if k == 0 {
      AllFromZero(Xor(y, z));
    } else {
      LowBitsUnfold(y, n);
      LowBitsUnfold(z, n);
      assert LowBits(y, n)[0] == LowBits(z, n)[0];
      var a, b := LowBits(Half(y), n - 1), LowBits(Half(z), n - 1);
      forall j | 0 <= j < k - 1
        ensures a[j] == b[j]
      {
        assert LowBits(y, n)[j + 1] == LowBits(z, n)[j + 1];
      }
      AgreeUpTo(Half(y), Half(z), n - 1, k - 1);
      HalfXor(y, z);
      FromOnHalf(y, z, k);
    }
  }

  lemma AllFromZero(y: bv32)
    ensures FromOn(y, 0)
  {
    assert HighMask(0) == 0xffffffff;
  }

  lemma FromOnHalf(y: bv32, z: bv32, k: nat)
    requires k > 0 && Odd(y) == Odd(z) && FromOn(Half(Xor(y, z)), k - 1)
    ensures FromOn(Xor(y, z), k)
  {
    hide Masked, Half, HighMask, Up, Flip, Odd, Xor;
    MaskUp(k);
    EvenFromOn(y, z, HighMask(k - 1));
  }

  lemma EvenFromOn(y: bv32, z: bv32, mask: bv32)
    requires Odd(y) == Odd(z) && Masked(Half(Xor(y, z)), Flip(mask))
    ensures Masked(Xor(y, z), Flip(Up(mask)))
  {}

  lemma {:induction false} FromOnLess(y: bv32, k: nat, t: nat)
    requires FromOn(y, k) && t <= k
    ensures FromOn(y, t)
    decreases k
  {
    if t == k {
    } else {
      MaskLess(y, k);
      hide FromOn;
      FromOnLess(y, k - 1, t);
    }
  }

  lemma MaskLess(y: bv32, k: nat)
    requires FromOn(y, k) && k > 0
    ensures FromOn(y, k - 1)
  {
    hide Masked, HighMask, Up, Flip, Shrinks;
    MaskUp(k);
    MaskShrinks(k - 1);
    UpLess(y, HighMask(k - 1));
  }

  /** Moved up by one the mask covers less. */
  ghost predicate Shrinks(mask: bv32) {
    Up(mask) & mask == Up(mask)
  }

  lemma {:induction false} MaskShrinks(k: nat)
    ensures Shrinks(HighMask(k))
    decreases k
  {
    if k == 0 {
      assert HighMask(0) == 0xffffffff;
    } else {
      hide HighMask, Up, Shrinks;
      MaskShrinks(k - 1);
      MaskUp(k);
      UpShrinks(HighMask(k - 1));
    }
  }

  lemma UpShrinks(mask: bv32)
    requires Shrinks(mask)
    ensures Shrinks(Up(mask))
  {}

  lemma UpLess(y: bv32, mask: bv32)
    requires Shrinks(mask) && Masked(y, Flip(Up(mask)))
    ensures Masked(y, Flip(mask))
  {}

  // ----- The difference of two checksums ---------------------------------------------------------

  lemma ShiftXor(x: bv32, y: bv32)
    ensures Shift(Xor(x, y)) == Xor(Shift(x), Shift(y))
  {
    hide Shift, Xor;
    ShiftRespectsXor();
    assert Respects(Shift, Xor, x, y);
  }

  lemma ClockIs(r: bv32, b: bool)
    ensures Clock(r, b) == Shift(Xor(r, Bit(b)))
  {
    hide Shift;
  }

  lemma SameAdded(r: bv32, s: bv32, b: bv32)
    ensures Xor(Xor(r, b), Xor(s, b)) == Xor(r, s)
  {
    BitCancels(r, s, b);
  }

  lemma BitCancels(r: bv32, s: bv32, b: bv32)
    ensures (r ^ b) ^ (s ^ b) == r ^ s
  {}

  lemma ClockDifference(r: bv32, s: bv32, b: bool)
    ensures Xor(Clock(r, b), Clock(s, b)) == Shift(Xor(r, s))
  {
    hide Shift, Xor, Clock, Bit;
    ClockIs(r, b);
    ClockIs(s, b);
    ShiftXor(Xor(r, Bit(b)), Xor(s, Bit(b)));
    SameAdded(r, s, Bit(b));
  }

  /** The same bits keep a difference and clock it. */
  lemma {:induction false} FeedDifference(r: bv32, s: bv32, bits: seq<bool>)
    ensures Xor(Feed(r, bits), Feed(s, bits)) == Clocks(|bits|, Xor(r, s))
    decreases |bits|
  {
    hide Clock, Xor, Shift;
    if bits == [] {
    } else {
      ClockDifference(r, s, bits[0]);
      FeedDifference(Clock(r, bits[0]), Clock(s, bits[0]), bits[1..]);
    }
  }

  lemma FeedWindow(r: bv32, w: seq<bool>)
    requires |w| == 32
    ensures Feed(r, w) == Clocks(32, Xor(r, Register(w)))
  {
    hide Fits, LowBits, Xor, Shift, Feed, Register, Iterate, Below;
    RegisterBits(w);
    RegisterFits(Register(w));
    FeedLowBits(r, Register(w), 32);
  }

  lemma XorCommutes(x: bv32, y: bv32)
    ensures Xor(x, y) == Xor(y, x)
  {}

  lemma XorCancels(r: bv32, x: bv32, y: bv32)
    ensures Xor(Xor(r, x), Xor(r, y)) == Xor(x, y)
  {
    hide Xor;
    XorCommutes(r, x);
    XorCommutes(r, y);
    SameAdded(x, y, r);
  }

  /** Strings that differ in the first 32 bits only: the difference is clocked to the end. */
  lemma WindowDifference(r: bv32, w: seq<bool>, v: seq<bool>, rest: seq<bool>)
    requires |w| == |v| == 32
    ensures Xor(Feed(r, w + rest), Feed(r, v + rest)) == Clocks(32 + |rest|, Xor(Register(w), Register(v)))
  {
    hide Feed, Xor, Register, Clocks;
    FeedConcat(r, w, rest);
    FeedConcat(r, v, rest);
    FeedWindow(r, w);
    FeedWindow(r, v);
    FeedDifference(Feed(r, w), Feed(r, v), rest);
    var x, y := Xor(r, Register(w)), Xor(r, Register(v));
    Apart(32, x, y);
    XorCancels(r, Register(w), Register(v));
    ClocksTwice(32, |rest|, Xor(Register(w), Register(v)));
  }

  lemma Apart(n: nat, x: bv32, y: bv32)
    ensures Xor(Clocks(n, x), Clocks(n, y)) == Clocks(n, Xor(x, y))
  {
    ClocksRespect(n, x, y);
  }

  lemma FlipApart(x: bv32, y: bv32)
    ensures Xor(Flip(x), Flip(y)) == Xor(x, y)
  {}

  lemma SumDifference(c: seq<Bytes.Byte>, c': seq<Bytes.Byte>)
    requires |c| == |c'| >= 4 && Bits(c)[32..] == Bits(c')[32..]
    ensures Xor(BitSerial(0, c), BitSerial(0, c')) ==
            Clocks(8 * |c|, Xor(Register(Bits(c)[..32]), Register(Bits(c')[..32])))
  {
    hide Feed, Xor, Register, Clocks, Bits;
    var x, x' := Bits(c), Bits(c');
    assert x == x[..32] + x[32..] && x' == x'[..32] + x[32..];
    WindowDifference(Flip(0), x[..32], x'[..32], x[32..]);
    FlipApart(Feed(Flip(0), x), Feed(Flip(0), x'));
  }

  // ----- Short bursts are noticed ----------------------------------------------------------------

  lemma SumFieldSame(s: bv32, s': bv32)
    requires LowBits(s, 32) == LowBits(s', 32)
    ensures s == s'
  {
    hide LowBits, Fits;
    RegisterFits(s);
    RegisterFits(s');
    LowBitsInjective(s, s', 32);
  }

  /** A burst behind the checksum field. */
  lemma CoveredBurst(c: seq<Bytes.Byte>, d: Datagram, k: nat, n: nat)
    requires BurstIn(Seal(c), d, k, n) && n <= 32 <= k && d != Seal(c)
    ensures !Intact(d)
  {
    hide LowBits, Bits, BitSerial, BurstIn;
    BurstParts(Seal(c), d, k, n);
    assert LowBits(Seal(c).checkSum, 32) == LowBits(d.checkSum, 32);
    SumFieldSame(Seal(c).checkSum, d.checkSum);
    assert BurstAt(c, d.covered, k - 32);
    BurstDetected(0, c, d.covered, k - 32);
  }

  /** A burst that begins in the checksum field. */
  lemma StraddlingBurst(c: seq<Bytes.Byte>, d: Datagram, k: nat, n: nat, lag: nat)
    requires |c| >= 4 && BurstIn(Seal(c), d, k, n) && k < 32 && n + lag <= 32 && d != Seal(c)
    requires forall i :: 0 < i <= 31 - lag ==> Spreads(8 * |c|, i, lag)
    ensures !Intact(d)
  {
    hide LowBits, Bits, BitSerial, BurstIn, Register, Clocks, Xor, Below, FromOn;
    BurstParts(Seal(c), d, k, n);
    var x, x' := Bits(c), Bits(d.covered);
    if Intact(d) {
      var i := if k + n > 32 then k + n - 32 else 0;
      assert x[32..] == x'[32..];
      SumDifference(c, d.covered);
      var diff := Xor(Register(x[..32]), Register(x'[..32]));
      AgreeFrom(x[..32], x'[..32], i);
      AgreeUpTo(Seal(c).checkSum, d.checkSum, 32, k);
      if i == 0 {
        NothingBelow(diff);
      }
      if diff == 0 {
        SameRegisters(x, x');
        BitsInjective(c, d.covered);
      } else {
        assert Spreads(8 * |c|, i, lag);
        FromOnLess(Xor(Seal(c).checkSum, d.checkSum), k, i + lag);
      }
    }
  }

  lemma SameRegisters(x: seq<bool>, x': seq<bool>)
    requires |x| == |x'| >= 32 && x[32..] == x'[32..]
    requires Xor(Register(x[..32]), Register(x'[..32])) == 0
    ensures x == x'
  {
    hide Register, LowBits, Below;
    RegisterBits(x[..32]);
    RegisterBits(x'[..32]);
    XorZeroSame(Register(x[..32]), Register(x'[..32]));
    assert x == x[..32] + x[32..] && x' == x'[..32] + x'[32..];
  }

  lemma XorZeroSame(y: bv32, z: bv32)
    requires Xor(y, z) == 0
    ensures y == z
  {}

  /** Wherever it falls, a burst of at most 29 bits in a package, checksum included, is noticed. */
  lemma DataBurstNoticed(c: seq<Bytes.Byte>, d: Datagram, k: nat)
    requires |c| == 20 + BUF_LEN && BurstIn(Seal(c), d, k, DATA_BURST) && d != Seal(c)
    ensures !Intact(d)
  {
    hide BurstIn, BitSerial, Spreads;
    if k < 32 {
      DataSpreads();
      StraddlingBurst(c, d, k, DATA_BURST, 3);
    } else {
      CoveredBurst(c, d, k, DATA_BURST);
    }
  }

  /** And one of at most 27 bits in an acknowledgement. */
  lemma AckBurstNoticed(c: seq<Bytes.Byte>, d: Datagram, k: nat)
    requires |c| == 8 && BurstIn(Seal(c), d, k, ACK_BURST) && d != Seal(c)
    ensures !Intact(d)
  {
    hide BurstIn, BitSerial, Spreads;
    if k < 32 {
      AckSpreads();
      StraddlingBurst(c, d, k, ACK_BURST, 5);
    } else {
      CoveredBurst(c, d, k, ACK_BURST);
    }
  }

  // ----- Longer ones are not ---------------------------------------------------------------------

  lemma FromOnHalves(y: bv32, z: bv32, k: nat)
    requires k > 0 && FromOn(Xor(y, z), k)
    ensures Odd(y) == Odd(z) && FromOn(Xor(Half(y), Half(z)), k - 1)
  {
    hide Masked, Half, HighMask, Up, Flip, Odd, Xor;
    MaskUp(k);
    HalfXor(y, z);
    EvenHalves(y, z, HighMask(k - 1));
  }

  lemma EvenHalves(y: bv32, z: bv32, mask: bv32)
    requires Masked(Xor(y, z), Flip(Up(mask)))
    ensures Odd(y) == Odd(z) && Masked(Half(Xor(y, z)), Flip(mask))
  {}

  lemma {:induction false} SameUpTo(y: bv32, z: bv32, n: nat, k: nat)
    requires k <= n && FromOn(Xor(y, z), k)
    ensures forall j :: 0 <= j < k ==> LowBits(y, n)[j] == LowBits(z, n)[j]
    decreases k
  {
    hide FromOn, Half, Xor, Odd, LowBits;
    if k == 0 {
    } else {
      LowBitsUnfold(y, n);
      LowBitsUnfold(z, n);
      FromOnHalves(y, z, k);
      SameUpTo(Half(y), Half(z), n - 1, k - 1);
    }
  }

  lemma {:induction false} SameFrom(y: bv32, z: bv32, n: nat, i: nat)
    requires i <= n && Below(Xor(y, z), i)
    ensures forall j :: i <= j < n ==> LowBits(y, n)[j] == LowBits(z, n)[j]
    decreases i
  {
    hide Below, Half, Xor, Odd, LowBits;
    if i == 0 {
      NothingBelow(Xor(y, z));
      XorZeroSame(y, z);
    } else {
      LowBitsUnfold(y, n);
      LowBitsUnfold(z, n);
      HalfXor(y, z);
      HalfBelow(Xor(y, z), i);
      SameFrom(Half(y), Half(z), n - 1, i - 1);
    }
  }

  /** The covered bytes with some bits of the first one flipped. */
  function FirstFlipped(c: seq<Bytes.Byte>, w: Bytes.Byte): seq<Bytes.Byte>
    requires c != []
  {
    [c[0] ^ w] + c[1..]
  }

  function Wide(b: Bytes.Byte): bv32 {
    b as bv32
  }

  lemma ByteApart(b: Bytes.Byte, w: Bytes.Byte)
    ensures Xor(Wide(b), Wide(b ^ w)) == Wide(w)
  {}

  lemma FlippedParts(c: seq<Bytes.Byte>, w: Bytes.Byte)
    requires c != []
    ensures var c' := FirstFlipped(c, w);
      |c'| == |c| && c'[1..] == c[1..] && Xor(Wide(c[0]), Wide(c'[0])) == Wide(w)
  {
    hide Xor, Wide;
    ByteApart(c[0], w);
  }

  lemma BitsUnfold(c: seq<Bytes.Byte>)
    requires c != []
    ensures Bits(c) == LowBits(Wide(c[0]), 8) + Bits(c[1..])
  {
    hide LowBits;
  }

  lemma FeedOneByte(r: bv32, b: Bytes.Byte)
    ensures Feed(r, LowBits(Wide(b), 8)) == Clocks(8, Xor(r, Wide(b)))
  {
    hide Fits, LowBits, Xor, Shift, Feed, Iterate;
    ByteFits(b);
    FeedLowBits(r, b as bv32, 8);
  }

  lemma FirstDifference(r: bv32, b: Bytes.Byte, b': Bytes.Byte, rest: seq<bool>)
    ensures Xor(Feed(r, LowBits(Wide(b), 8) + rest), Feed(r, LowBits(Wide(b'), 8) + rest)) ==
            Clocks(8 + |rest|, Xor(Wide(b), Wide(b')))
  {
    hide Feed, Xor, Clocks, LowBits, Wide;
    var y, z := Wide(b), Wide(b');
    FeedConcat(r, LowBits(y, 8), rest);
    FeedConcat(r, LowBits(z, 8), rest);
    FeedDifference(Feed(r, LowBits(y, 8)), Feed(r, LowBits(z, 8)), rest);
    FeedOneByte(r, b);
    FeedOneByte(r, b');
    Apart(8, Xor(r, y), Xor(r, z));
    XorCancels(r, y, z);
    ClocksTwice(8, |rest|, Xor(y, z));
  }

  lemma FirstByteSum(c: seq<Bytes.Byte>, w: Bytes.Byte)
    requires c != []
    ensures Xor(BitSerial(0, c), BitSerial(0, FirstFlipped(c, w))) == Clocks(8 * |c|, Wide(w))
  {
    hide Feed, Xor, Clocks, LowBits, Bits, FirstFlipped, Flip, Wide;
    var c' := FirstFlipped(c, w);
    FlippedParts(c, w);
    BitsUnfold(c);
    BitsUnfold(c');
    FirstDifference(Flip(0), c[0], c'[0], Bits(c[1..]));
    FlipApart(Feed(Flip(0), Bits(c)), Feed(Flip(0), Bits(c')));
  }

  lemma FirstByteBits(c: seq<Bytes.Byte>, w: Bytes.Byte, i: nat)
    requires c != [] && i <= 8 && Below(Wide(w), i)
    ensures |FirstFlipped(c, w)| == |c|
    ensures forall j :: 0 <= j < |Bits(c)| && Bits(c)[j] != Bits(FirstFlipped(c, w))[j] ==> j < i
  {
    hide LowBits, Xor, Below, Bits, FirstFlipped, Wide;
    FlippedParts(c, w);
    BitsUnfold(c);
    BitsUnfold(FirstFlipped(c, w));
    SameFrom(Wide(c[0]), Wide(FirstFlipped(c, w)[0]), 8, i);
  }

  /** Flipped bits whose image is clear up to bit k are within a burst from there on. */
  lemma FirstByteBurst(c: seq<Bytes.Byte>, w: Bytes.Byte, k: nat, i: nat)
    requires c != [] && i <= 8 && k <= 32 && Below(Wide(w), i) && FromOn(Clocks(8 * |c|, Wide(w)), k)
    ensures BurstIn(Seal(c), Seal(FirstFlipped(c, w)), k, 32 - k + i)
  {
    hide LowBits, Bits, BitSerial, BurstIn, Clocks, Below, FromOn, Xor, Wide, FirstFlipped;
    var c' := FirstFlipped(c, w);
    FirstByteSum(c, w);
    FirstByteBits(c, w, i);
    SameUpTo(Seal(c).checkSum, Seal(c').checkSum, 32, k);
    BurstFromParts(Seal(c), Seal(c'), k, 32 - k + i);
  }

  lemma ParityFlips(b: Bytes.Byte, w: Bytes.Byte)
    requires w & 1 != 0
    ensures Bytes.Value(b ^ w) != Bytes.Value(b)
  {
    ValueParity(b);
    ValueParity(b ^ w);
    hide Bytes.Value;
  }

  lemma ValueParity(b: Bytes.Byte)
    ensures Bytes.Value(b) % 2 == if b & 1 != 0 then 1 else 0
  {}

  lemma OtherSession(c: seq<Bytes.Byte>, w: Bytes.Byte)
    requires |c| >= 4 && w & 1 != 0
    ensures FromLittle(FirstFlipped(c, w)[..4]) != FromLittle(c[..4])
  {
    hide Bytes.Value;
    ParityFlips(c[0], w);
    assert FirstFlipped(c, w)[..4][1..] == c[..4][1..];
  }

  /** The bound is sharp, for every package: flipping the bits 0, 1 and 3 of its session number and
      the right ones of its checksum, 30 bits from end to end, makes a package of another session. */
  lemma DataBurstMissed(p: Package, padding: seq<Bytes.Byte>, tail: seq<Bytes.Byte>) returns (d: Datagram, session: nat)
    requires Fits32(p) && Fills(p, padding, tail)
    ensures BurstIn(Seal(DataBytes(p, padding, tail)), d, 6, DATA_BURST + 1)
    ensures OpenData(d) == Some(p.(session := session)) && session != p.session
  {
    hide BitSerial, FromLittle, BurstIn, Spreads, Little;
    var c := DataBytes(p, padding, tail);
    DataRoundTrip(p, padding, tail);
    DataSpreads();
    SharpImages();
    FirstByteBurst(c, 0xb, 6, 4);
    OtherSession(c, 0xb);
    var c' := FirstFlipped(c, 0xb);
    d, session := Seal(c'), FromLittle(c'[..4]);
    assert c'[4..8] == c[4..8] && c'[12..20] == c[12..20] && c'[20..20 + |p.body|] == c[20..20 + |p.body|];
  }

  /** And for every acknowledgement, with the bits 0, 3 and 4 and 28 bits from end to end. */
  lemma AckBurstMissed(a: Ack) returns (d: Datagram, session: nat)
    requires a.session < WORD && a.seqNum < WORD
    ensures BurstIn(Seal(AckBytes(a)), d, 9, ACK_BURST + 1)
    ensures OpenAck(d) == Some(a.(session := session)) && session != a.session
  {
    hide BitSerial, FromLittle, BurstIn, Spreads, Little;
    var c := AckBytes(a);
    AckRoundTrip(a);
    AckSpreads();
    SharpImages();
    FirstByteBurst(c, 0x19, 9, 5);
    OtherSession(c, 0x19);
    var c' := FirstFlipped(c, 0x19);
    d, session := Seal(c'), FromLittle(c'[..4]);
    assert c'[4..8] == c[4..8];
  }

  lemma SharpImages()
    ensures Below(0xb, 4) && FromOn(0x776d19c0, 6)
    ensures Below(0x19, 5) && FromOn(0x63f42a00, 9)
  {
    Masks();
    hide HighMask;
  }

  // ----- Messages of zeros --------------------------------------------------------------------------

  function ZeroBytes(n: nat): (c: seq<Bytes.Byte>)
    ensures |c| == n
  {
    seq(n, _ => 0)
  }

  lemma ZeroShifts(r: bv32)
    ensures Clock(r, false) == Shift(r)
  {
    hide Shift;
    assert r ^ 0 == r;
  }

  lemma {:induction false} FeedZeros(r: bv32, bits: seq<bool>)
    requires forall i :: 0 <= i < |bits| ==> !bits[i]
    ensures Feed(r, bits) == Clocks(|bits|, r)
    decreases |bits|
  {
    hide Clock, Shift;
    if bits == [] {
    } else {
      ZeroShifts(r);
      FeedZeros(Shift(r), bits[1..]);
    }
  }

  lemma {:induction false} LowBitsOfZero(n: nat)
    ensures forall i :: 0 <= i < n ==> !LowBits(0, n)[i]
    decreases n
  {
    if n == 0 {
    } else {
      LowBitsOfZero(n - 1);
    }
  }

  lemma {:induction false} BitsOfZeros(c: seq<Bytes.Byte>)
    requires forall k :: 0 <= k < |c| ==> c[k] == 0
    ensures forall i :: 0 <= i < |Bits(c)| ==> !Bits(c)[i]
  {
    hide LowBits;
    if c == [] {
    } else {
      LowBitsOfZero(8);
      BitsOfZeros(c[1..]);
    }
  }

  lemma SumOfZeros(n: nat)
    ensures BitSerial(0, ZeroBytes(n)) == Flip(Clocks(8 * n, 0xffffffff))
  {
    hide Feed, Clocks, Bits;
    BitsOfZeros(ZeroBytes(n));
    FeedZeros(0xffffffff, Bits(ZeroBytes(n)));
    assert Flip(0) == 0xffffffff;
  }

  /** A datagram of nothing but zeros, checksum and all, is never taken for a package or an
      acknowledgement: the checksums of 1020 and of 8 zero bytes are not zero. */
  lemma ZerosRejected()
    ensures BitSerial(0, ZeroBytes(20 + BUF_LEN)) == 0x67bbaf86 && BitSerial(0, ZeroBytes(8)) == 0x6522df69
    ensures forall n :: OpenData(Datagram(0, ZeroBytes(n))) == None && OpenAck(Datagram(0, ZeroBytes(n))) == None
  {
    hide Clocks, BitSerial, ZeroBytes, FromLittle;
    SumOfZeros(20 + BUF_LEN);
    SumOfZeros(8);
    DataOfZeros();
    AckOfZeros();
    assert Flip(0x98445079) == 0x67bbaf86 && Flip(0x9add2096) == 0x6522df69;
  }
}
