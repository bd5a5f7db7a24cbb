/** The messages of final/Header.h as they travel, and what the checksum keeps out. */
module Wire {
  import opened Options
  import opened Bytes
  import opened Crc32

  const BUF_LEN := 1000

  const WORD: nat := 0x1_0000_0000

  /** One TrollMessageStruct: `len` is the length of the body. */
  datatype Package = Package(session: nat, seqNum: nat, body: seq<Byte>)

  /** One TrollAckStruct. */
  datatype Ack = Ack(session: nat, seqNum: nat)

  /** The checksum field and the bytes it covers, those from CheckSumOffset on. */
  datatype Datagram = Datagram(checkSum: bv32, covered: seq<Byte>)

  ghost predicate Fits32(p: Package) {
    p.session < WORD && p.seqNum < WORD && |p.body| <= BUF_LEN
  }

  // ----- Fixed-width integers, least significant byte first --------------------------------------

  function Little(n: nat, width: nat): (s: seq<Byte>)
    ensures |s| == width
    decreases width
  {
    if width == 0 then [] else [ToByte(n)] + Little(n / 256, width - 1)
  }

  function FromLittle(s: seq<Byte>): nat {
    if s == [] then 0 else Value(s[0]) + 256 * FromLittle(s[1..])
  }

  function Power256(width: nat): nat {
    if width == 0 then 1 else 256 * Power256(width - 1)
  }

  lemma DivideByByte(n: nat, p: nat)
    requires n < 256 * p
    ensures n / 256 < p
  {}

  lemma {:induction false} LittleRoundTrip(n: nat, width: nat)
    requires n < Power256(width)
    ensures FromLittle(Little(n, width)) == n
    decreases width
  {
    hide Value, ToByte;
    if width == 0 {
    } else {
      ByteRoundTrip(n);
      DivideByByte(n, Power256(width - 1));
      LittleRoundTrip(n / 256, width - 1);
      assert Little(n, width)[1..] == Little(n / 256, width - 1);
    }
  }

  // ----- Messages and the bytes the checksum covers ----------------------------------------------

  /** What the two daemons do not set: the alignment padding and the unused end of the body array. */
  ghost predicate Fills(p: Package, padding: seq<Byte>, tail: seq<Byte>) {
    |padding| == 4 && |p.body| + |tail| == BUF_LEN
  }

  /** Session, SeqNum, padding, len and the whole body array. */
  function DataBytes(p: Package, padding: seq<Byte>, tail: seq<Byte>): seq<Byte> {
    Little(p.session, 4) + Little(p.seqNum, 4) + padding + Little(|p.body|, 8) + p.body + tail
  }

  function AckBytes(a: Ack): seq<Byte> {
    Little(a.session, 4) + Little(a.seqNum, 4)
  }

  function Seal(covered: seq<Byte>): Datagram {
    Datagram(BitSerial(0, covered), covered)
  }

  /** The receiver recomputes the checksum and compares. */
  predicate Intact(d: Datagram) {
    BitSerial(0, d.covered) == d.checkSum
  }

  /** A package read out of a data datagram; None when it is garbled. */
  function OpenData(d: Datagram): Option<Package> {
    if !Intact(d) || |d.covered| != 20 + BUF_LEN then
      None
    else
      var len := FromLittle(d.covered[12..20]);
      if len > BUF_LEN then
        None
      else
        Some(Package(FromLittle(d.covered[..4]), FromLittle(d.covered[4..8]), d.covered[20..20 + len]))
  }

  function OpenAck(d: Datagram): Option<Ack> {
    if !Intact(d) || |d.covered| != 8 then
      None
    else
      Some(Ack(FromLittle(d.covered[..4]), FromLittle(d.covered[4..8])))
  }

  lemma Widths()
    ensures Power256(4) == WORD && Power256(8) > BUF_LEN
  {
    assert Power256(2) == 65536;
    assert Power256(4) == 65536 * Power256(2) by {
      assert Power256(3) == 256 * Power256(2);
    }
    assert Power256(5) == 256 * Power256(4) && Power256(6) == 256 * Power256(5);
    assert Power256(7) == 256 * Power256(6) && Power256(8) == 256 * Power256(7);
  }

  /** What the sender seals is what the receiver reads, whatever the padding and the tail hold. */
  lemma DataRoundTrip(p: Package, padding: seq<Byte>, tail: seq<Byte>)
    requires Fits32(p) && Fills(p, padding, tail)
    ensures OpenData(Seal(DataBytes(p, padding, tail))) == Some(p)
  {
    hide BitSerial, FromLittle, Little, Power256;
    var c := DataBytes(p, padding, tail);
    Widths();
    LittleRoundTrip(p.session, 4);
    LittleRoundTrip(p.seqNum, 4);
    LittleRoundTrip(|p.body|, 8);
    assert c[..4] == Little(p.session, 4);
    assert c[4..8] == Little(p.seqNum, 4);
    assert c[12..20] == Little(|p.body|, 8);
    assert c[20..20 + |p.body|] == p.body;
  }

  lemma AckRoundTrip(a: Ack)
    requires a.session < WORD && a.seqNum < WORD
    ensures OpenAck(Seal(AckBytes(a))) == Some(a)
  {
    hide BitSerial, FromLittle, Little, Power256;
    var c := AckBytes(a);
    Widths();
    LittleRoundTrip(a.session, 4);
    LittleRoundTrip(a.seqNum, 4);
    assert c[..4] == Little(a.session, 4);
    assert c[4..8] == Little(a.seqNum, 4);
  }

  /** Garbling at most 32 consecutive covered bits, or the checksum itself, is always noticed. */
  lemma GarblingIsNoticed(covered: seq<Byte>, d: Datagram, k: nat)
    requires d != Seal(covered)
    requires
      || (BurstAt(covered, d.covered, k) && d.checkSum == Seal(covered).checkSum)
      || d.covered == covered
    ensures OpenData(d) == None && OpenAck(d) == None
  {
    hide BitSerial, Bits;
    if d.covered != covered {
      BurstDetected(0, covered, d.covered, k);
    }
  }

  // ----- Where the fields are -----------------------------------------------------------------------

  /** Four bytes as a number, least significant first. */
  function Number4(a: Byte, b: Byte, c: Byte, d: Byte): nat {
    Value(a) + 0x100 * Value(b) + 0x1_0000 * Value(c) + 0x100_0000 * Value(d)
  }

  lemma FourBytes(n: nat, s: seq<Byte>)
    requires n < WORD && s == Little(n, 4)
    ensures Number4(s[0], s[1], s[2], s[3]) == n
  {
    hide Value, ToByte, Little;
    Widths();
    hide Power256;
    LittleRoundTrip(n, 4);
    FromFour(s);
  }

  lemma FromFour(s: seq<Byte>)
    requires |s| == 4
    ensures FromLittle(s) == Number4(s[0], s[1], s[2], s[3])
  {
    hide Value;
    assert FromLittle(s[3..]) == Value(s[3]);
    assert FromLittle(s[2..]) == Value(s[2]) + 256 * FromLittle(s[3..]) by { assert s[2..][1..] == s[3..]; }
    assert FromLittle(s[1..]) == Value(s[1]) + 256 * FromLittle(s[2..]) by { assert s[1..][1..] == s[2..]; }
  }

  /** A package: session, number, four bytes of padding, eight of length, and 1000 of body. */
  lemma DataLayout(p: Package, padding: seq<Byte>, tail: seq<Byte>)
    requires Fits32(p) && Fills(p, padding, tail)
    ensures var c := DataBytes(p, padding, tail);
            && |c| == 1020
            && Number4(c[0], c[1], c[2], c[3]) == p.session
            && Number4(c[4], c[5], c[6], c[7]) == p.seqNum
            && Number4(c[12], c[13], c[14], c[15]) == |p.body|
            && c[20..20 + |p.body|] == p.body
  {
    hide Value, ToByte, Little, Number4;
    var c := DataBytes(p, padding, tail);
    FourBytes(p.session, Little(p.session, 4));
    FourBytes(p.seqNum, Little(p.seqNum, 4));
    LengthBytes(|p.body|);
    assert c[..4] == Little(p.session, 4) && c[4..8] == Little(p.seqNum, 4);
    assert c[12..20] == Little(|p.body|, 8);
    assert forall k :: 0 <= k < 4 ==> c[k] == c[..4][k] && c[4 + k] == c[4..8][k] && c[12 + k] == c[12..20][k];
  }

  lemma LengthBytes(n: nat)
    requires n <= BUF_LEN
    ensures var s := Little(n, 8); Number4(s[0], s[1], s[2], s[3]) == n
  {
    hide Value, ToByte;
    FourBytes(n, Little(n, 4));
    LittleStarts(n, 4, 8);
  }

  lemma {:induction false} LittleStarts(n: nat, a: nat, b: nat)
    requires a <= b
    ensures Little(n, a) == Little(n, b)[..a]
    decreases a
  {
    hide ToByte;
    if a == 0 {
    } else {
      LittleStarts(n / 256, a - 1, b - 1);
    }
  }

  /** An acknowledgement: session and number. */
  lemma AckLayout(a: Ack)
    requires a.session < WORD && a.seqNum < WORD
    ensures var c := AckBytes(a);
            && |c| == 8
            && Number4(c[0], c[1], c[2], c[3]) == a.session && Number4(c[4], c[5], c[6], c[7]) == a.seqNum
  {
    hide Value, ToByte, Little, Number4;
    var c := AckBytes(a);
    FourBytes(a.session, Little(a.session, 4));
    FourBytes(a.seqNum, Little(a.seqNum, 4));
    assert c[..4] == Little(a.session, 4) && c[4..8] == Little(a.seqNum, 4);
    assert forall k :: 0 <= k < 4 ==> c[k] == c[..4][k] && c[4 + k] == c[4..8][k];
  }
}
