/** Bytes as bit-vectors, and the numbers they stand for. */
module Bytes {
  type Byte = bv8

  function Bit(on: bool, weight: Byte): Byte {
    if on then weight else 0
  }

  function On(on: bool, weight: nat): nat {
    if on then weight else 0
  }

  function FromBits(p: bool, q: bool, r: bool, s: bool, t: bool, u: bool, v: bool, w: bool): Byte {
    Bit(p, 1) | Bit(q, 2) | Bit(r, 4) | Bit(s, 8) | Bit(t, 16) | Bit(u, 32) | Bit(v, 64) | Bit(w, 128)
  }

  function Weigh(p: bool, q: bool, r: bool, s: bool, t: bool, u: bool, v: bool, w: bool): nat {
    On(p, 1) + On(q, 2) + On(r, 4) + On(s, 8) + On(t, 16) + On(u, 32) + On(v, 64) + On(w, 128)
  }

  /** The lowest eight binary digits of a number. */
  function ToByte(n: nat): Byte {
    FromBits(n % 2 == 1, n / 2 % 2 == 1, n / 4 % 2 == 1, n / 8 % 2 == 1,
             n / 16 % 2 == 1, n / 32 % 2 == 1, n / 64 % 2 == 1, n / 128 % 2 == 1)
  }

  /** The number a byte stands for. */
  function Value(b: Byte): nat {
    Weigh(b & 1 != 0, b & 2 != 0, b & 4 != 0, b & 8 != 0, b & 16 != 0, b & 32 != 0, b & 64 != 0, b & 128 != 0)
  }

  lemma BitsApart(p: bool, q: bool, r: bool, s: bool, t: bool, u: bool, v: bool, w: bool)
    ensures Value(FromBits(p, q, r, s, t, u, v, w)) == Weigh(p, q, r, s, t, u, v, w)
  {
    hide On;
  }

  lemma LastDigit(n: nat, weight: nat)
    ensures n * weight == n / 2 * (2 * weight) + On(n % 2 == 1, weight)
  {}

  lemma Quotients(n: nat)
    ensures n / 4 == n / 2 / 2 && n / 8 == n / 4 / 2 && n / 16 == n / 8 / 2
    ensures n / 32 == n / 16 / 2 && n / 64 == n / 32 / 2 && n / 128 == n / 64 / 2 && n / 256 == n / 128 / 2
  {}

  lemma BinaryDigits(n: nat)
    ensures n % 256 == Weigh(n % 2 == 1, n / 2 % 2 == 1, n / 4 % 2 == 1, n / 8 % 2 == 1,
                             n / 16 % 2 == 1, n / 32 % 2 == 1, n / 64 % 2 == 1, n / 128 % 2 == 1)
  {
    hide On;
    Quotients(n);
    LastDigit(n, 1);
    LastDigit(n / 2, 2);
    LastDigit(n / 4, 4);
    LastDigit(n / 8, 8);
    LastDigit(n / 16, 16);
    LastDigit(n / 32, 32);
    LastDigit(n / 64, 64);
    LastDigit(n / 128, 128);
  }

  lemma ByteRoundTrip(n: nat)
    ensures Value(ToByte(n)) == n % 256
  {
    hide FromBits, Weigh, Value;
    BinaryDigits(n);
    BitsApart(n % 2 == 1, n / 2 % 2 == 1, n / 4 % 2 == 1, n / 8 % 2 == 1,
              n / 16 % 2 == 1, n / 32 % 2 == 1, n / 64 % 2 == 1, n / 128 % 2 == 1);
  }
}
