/** How final/ftpc.c cuts a file into SEND calls, and final/ftps.c asks for it with RECV calls. */
module Framing {
  import opened Options
  import opened CStrings
  import opened Bytes
  import opened Wire
  import opened Conversation

  const NAME_LEN := 20

  // ----- The client ------------------------------------------------------------------------------

  /** The four size bytes, most significant first. */
  function SizeBytes(size: nat): (s: seq<Byte>)
    ensures |s| == 4
  {
    [ToByte(size / 0x100_0000), ToByte(size / 0x1_0000), ToByte(size / 0x100), ToByte(size)]
  }

  /** The name, cut or filled up with zeros to 20 bytes. */
  function NameBytes(name: seq<Byte>): (s: seq<Byte>)
    ensures |s| == NAME_LEN
  {
    (name + Zeros(NAME_LEN))[..NAME_LEN]
  }

  function Min(a: nat, b: nat): nat {
    if a < b then a else b
  }

  function Chunks(file: seq<Byte>): (c: seq<Payload>)
    ensures forall i :: 0 <= i < |c| ==> 0 < |c[i]| <= BUF_LEN
  {
    if file == [] then [] else var n := Min(|file|, BUF_LEN); [file[..n]] + Chunks(file[n..])
  }

  lemma ChunksStep(file: seq<Byte>, n: nat)
    requires file != [] && n == Min(|file|, BUF_LEN)
    ensures Chunks(file) == [file[..n]] + Chunks(file[n..])
  {}

  lemma NoChunks()
    ensures Chunks([]) == []
  {}

  /** Everything ftpc hands to SEND, call by call. */
  function Frames(name: seq<Byte>, file: seq<Byte>): seq<Payload> {
    [SizeBytes(|file|), NameBytes(name)] + Chunks(file)
  }

  /** The main loop of ftpc: reads a buffer at a time and sends what it read. */
  method SendFile(name: seq<Byte>, file: seq<Byte>) returns (sent: seq<Payload>)
    ensures sent == Frames(name, file)
  {
    hide Chunks, SizeBytes, NameBytes;
    sent := [SizeBytes(|file|)];
    sent := sent + [NameBytes(name)];
    var position, fileLeft := 0, |file|;
    assert file[0..] == file;
    while fileLeft > 0
      invariant position <= |file| && fileLeft == |file| - position
      invariant sent + Chunks(file[position..]) == Frames(name, file)
    {
      var rVal := Min(BUF_LEN, |file| - position);
      if rVal > fileLeft {
        rVal := fileLeft;
      }
      ChunksStep(file[position..], rVal);
      assert file[position..][..rVal] == file[position..position + rVal];
      assert file[position..][rVal..] == file[position + rVal..];
      assert Chunks(file[position..]) == [file[position..position + rVal]] + Chunks(file[position + rVal..]);
      sent := sent + [file[position..position + rVal]];
      position := position + rVal;
      fileLeft := fileLeft - rVal;
    }
    NoChunks();
    assert file[position..] == [];
  }

  // ----- The server ------------------------------------------------------------------------------

  function SizeOf(s: seq<Byte>): nat
    requires |s| >= 4
  {
    Value(s[0]) * 0x100_0000 + Value(s[1]) * 0x1_0000 + Value(s[2]) * 0x100 + Value(s[3])
  }

  /** What ftps has made of the bytes it got. */
  datatype Received = Received(name: seq<Byte>, file: seq<Byte>)

  /** The length ftps asks for when it has got `got` so far; 0 when it is done. */
  function NextRequest(got: seq<Byte>): nat {
    if |got| < 4 then
      4
    else if |got| < 4 + NAME_LEN then
      NAME_LEN
    else
      var size, written := SizeOf(got), |got| - 4 - NAME_LEN;
      if size <= written then 0 else Min(size - written, BUF_LEN)
  }

  function Sum(lengths: seq<nat>): nat {
    if lengths == [] then 0 else Sum(lengths[..|lengths| - 1]) + lengths[|lengths| - 1]
  }

  /** Each request follows from what the requests before it have brought. */
  ghost predicate AskedInTurn(stream: seq<Byte>, asked: seq<nat>) {
    forall k :: 0 <= k < |asked| ==>
      Sum(asked[..k]) <= |stream| && asked[k] == NextRequest(stream[..Sum(asked[..k])])
  }

  lemma AskOnce(stream: seq<Byte>, asked: seq<nat>, got: nat, length: nat)
    requires AskedInTurn(stream, asked) && Sum(asked) == got <= |stream| && length == NextRequest(stream[..got])
    ensures AskedInTurn(stream, asked + [length]) && Sum(asked + [length]) == got + length
  {
    hide NextRequest;
    var more := asked + [length];
    assert more[..|asked|] == asked;
    assert forall k :: 0 <= k < |asked| ==> more[..k] == asked[..k];
  }

  /** The main loop of ftps over a daemon that answers each request with exactly the bytes asked
      for, the next ones of `stream`; None when the stream ends before the file does.  `asked` are
      the lengths it asks for. */
  method ReceiveFile(stream: seq<Byte>) returns (r: Option<Received>, asked: seq<nat>)
    ensures r == Parse(stream)
    ensures AskedInTurn(stream, asked)
    ensures if r.Some? then Sum(asked) <= |stream| && NextRequest(stream[..Sum(asked)]) == 0 else Sum(asked) > |stream|
  {
    hide SizeOf, CString, AskedInTurn, Sum;
    StartAsking(stream);
    AskOnce(stream, [], 0, 4);
    asked := [] + [4];
    if |stream| < 4 {
      return None, asked;
    }
    var fileSize := SizeOf(stream[..4]);
    SizeOfStart(stream, stream[..4]);
    AskOnce(stream, asked, 4, NAME_LEN);
    asked := asked + [NAME_LEN];
    if |stream| < 4 + NAME_LEN {
      return None, asked;
    }
    var fileName := CString(stream[4..4 + NAME_LEN]);
    var position, fileLeft := 4 + NAME_LEN, fileSize;
    var written: seq<Byte> := [];
    while fileLeft > 0
      invariant 4 + NAME_LEN <= position <= |stream| && fileLeft >= 0
      invariant written == stream[4 + NAME_LEN..position]
      invariant |written| + fileLeft == fileSize == SizeOf(stream)
      invariant AskedInTurn(stream, asked) && Sum(asked) == position
    {
      var length := if fileLeft < BUF_LEN then fileLeft else BUF_LEN;
      SizeOfStart(stream[..position], stream[..4]);
      AskOnce(stream, asked, position, length);
      asked := asked + [length];
      if |stream| < position + length {
        return None, asked;
      }
      written := written + stream[position..position + length];
      position := position + length;
      fileLeft := fileLeft - length;
    }
    assert position == 4 + NAME_LEN + SizeOf(stream);
    SizeOfStart(stream[..position], stream[..4]);
    return Some(Received(fileName, written)), asked;
  }

  lemma StartAsking(stream: seq<Byte>)
    ensures AskedInTurn(stream, []) && Sum([]) == 0
  {}

  function Parse(stream: seq<Byte>): Option<Received> {
    if |stream| < 4 + NAME_LEN || |stream| < 4 + NAME_LEN + SizeOf(stream) then
      None
    else
      Some(Received(CString(stream[4..4 + NAME_LEN]), stream[4 + NAME_LEN..4 + NAME_LEN + SizeOf(stream)]))
  }

  // ----- They agree ------------------------------------------------------------------------------

  /** What a 32-bit variable keeps of a number. */
  function Low32(n: nat): (low: nat)
    ensures low <= n
    ensures n < WORD <==> low == n
  {
    n % WORD
  }

  lemma SizeRoundTrip(size: nat)
    ensures SizeOf(SizeBytes(size)) == Low32(size)
  {
    hide Value, ToByte, Low32;
    ByteRoundTrip(size / 0x100_0000);
    ByteRoundTrip(size / 0x1_0000);
    ByteRoundTrip(size / 0x100);
    ByteRoundTrip(size);
    Digits(size);
  }

  lemma Digits(n: nat)
    ensures (n / 0x100_0000 % 256) * 0x100_0000 + (n / 0x1_0000 % 256) * 0x1_0000 + (n / 0x100 % 256) * 0x100 +
        n % 256 == Low32(n)
  {
    var q1 := n / 0x100;
    var q2 := q1 / 0x100;
    var q3 := q2 / 0x100;
    var q4 := q3 / 0x100;
    assert n / 0x1_0000 == q2;
    assert n / 0x100_0000 == q3;
    assert n / WORD == q4;
  }

  lemma CStringOfName(name: seq<Byte>, n: nat)
    requires 0 !in name
    ensures CString((name + Zeros(n))[..n]) == if |name| <= n then name else name[..n]
  {
    hide CString;
    CStringIsPrefix((name + Zeros(n))[..n], if |name| <= n then name else name[..n]);
  }

  lemma {:induction false} ConcatCons(p: Payload, rest: seq<Payload>)
    ensures Concat([p] + rest) == p + Concat(rest)
  {
    if rest == [] {
      assert [p] + rest == [p] && [p][..0] == [];
    } else {
      var n := |rest| - 1;
      var all := [p] + rest;
      assert all[..n + 1] == [p] + rest[..n] && all[n + 1] == rest[n];
      ConcatCons(p, rest[..n]);
      assert p + (Concat(rest[..n]) + rest[n]) == p + Concat(rest[..n]) + rest[n];
    }
  }

  lemma {:induction false} ChunksConcat(file: seq<Byte>)
    ensures Concat(Chunks(file)) == file
  {
    if file == [] {
    } else {
      var n := Min(|file|, BUF_LEN);
      ChunksConcat(file[n..]);
      ConcatCons(file[..n], Chunks(file[n..]));
      assert file == file[..n] + file[n..];
    }
  }

  lemma FramesConcat(name: seq<Byte>, file: seq<Byte>)
    ensures Concat(Frames(name, file)) == SizeBytes(|file|) + NameBytes(name) + file
  {
    hide Concat, SizeBytes, NameBytes, Chunks;
    ChunksConcat(file);
    TwoFirst(SizeBytes(|file|), NameBytes(name), Chunks(file), |Chunks(file)| + 2);
    assert Frames(name, file)[..|Chunks(file)| + 2] == Frames(name, file);
    assert Chunks(file)[..|Chunks(file)|] == Chunks(file);
  }

  /** The three parts of a stream, as the server sees them. */
  lemma Cut(stream: seq<Byte>, a: seq<Byte>, b: seq<Byte>, c: seq<Byte>)
    requires stream == a + b + c && |a| == 4 && |b| == NAME_LEN
    ensures SizeOf(stream) == SizeOf(a)
    ensures SizeOf(a) <= |c| ==> Parse(stream) == Some(Received(CString(b), c[..SizeOf(a)]))
    ensures NextRequest(stream) == if SizeOf(a) <= |c| then 0 else Min(SizeOf(a) - |c|, BUF_LEN)
  {
    hide SizeOf, CString;
    SizeOfStart(stream, a);
    assert stream[4..4 + NAME_LEN] == b;
    if SizeOf(a) <= |c| {
      assert stream[4 + NAME_LEN..4 + NAME_LEN + SizeOf(a)] == c[..SizeOf(a)];
    }
  }

  lemma SizeOfStart(stream: seq<Byte>, a: seq<Byte>)
    requires |a| == 4 && a <= stream
    ensures SizeOf(stream) == SizeOf(a)
  {
    hide Value;
  }

  /** What the server makes of the client's frames, whatever their sizes. */
  lemma ParseFrames(name: seq<Byte>, file: seq<Byte>)
    ensures Parse(Concat(Frames(name, file))) == Some(Received(CString(NameBytes(name)), file[..Low32(|file|)]))
  {
    FramesConcat(name, file);
    SizeRoundTrip(|file|);
    Cut(Concat(Frames(name, file)), SizeBytes(|file|), NameBytes(name), file);
    hide *;
  }

  /** For a name without zero bytes, the server ends up with the client's name and file if and
      only if the name has at most 20 bytes and the file fewer than 2^32. */
  lemma TransferRoundTrip(name: seq<Byte>, file: seq<Byte>)
    requires 0 !in name
    ensures Parse(Concat(Frames(name, file))) == Some(Received(name, file)) <==> |name| <= NAME_LEN && |file| < WORD
  {
    hide Concat, Frames, CString, Parse;
    ParseFrames(name, file);
    CStringOfName(name, NAME_LEN);
    if |file| < WORD {
      assert file[..Low32(|file|)] == file;
    } else {
      assert |file[..Low32(|file|)]| < |file|;
    }
  }

  // ----- The lengths on both sides ---------------------------------------------------------------

  lemma {:induction false} ChunksPrefix(file: seq<Byte>, j: nat)
    requires j <= |Chunks(file)|
    ensures Concat(Chunks(file)[..j]) == file[..Min(|file|, j * BUF_LEN)]
    ensures j < |Chunks(file)| <==> j * BUF_LEN < |file|
    ensures j < |Chunks(file)| ==> |Chunks(file)[j]| == Min(|file| - j * BUF_LEN, BUF_LEN)
  {
    hide Concat, Chunks;
    NoChunks();
    NoPayloads();
    if file == [] {
    } else {
      var n := Min(|file|, BUF_LEN);
      var rest := Chunks(file[n..]);
      ChunksStep(file, n);
      if j > 0 {
        ChunksPrefix(file[n..], j - 1);
        ConcatCons(file[..n], rest[..j - 1]);
        assert Chunks(file)[..j] == [file[..n]] + rest[..j - 1];
        assert file[..n] + file[n..][..Min(|file| - n, (j - 1) * BUF_LEN)] == file[..Min(|file|, j * BUF_LEN)];
      }
    }
  }

  lemma NoPayloads()
    ensures forall c: seq<Payload> :: Concat(c[..0]) == []
  {}

  lemma FramesPrefix(name: seq<Byte>, file: seq<Byte>, k: nat)
    requires 2 <= k <= |Frames(name, file)|
    ensures Concat(Frames(name, file)[..k]) == SizeBytes(|file|) + NameBytes(name) +
        file[..Min(|file|, (k - 2) * BUF_LEN)]
  {
    hide SizeBytes, NameBytes, Chunks, Concat;
    ChunksPrefix(file, k - 2);
    TwoFirst(SizeBytes(|file|), NameBytes(name), Chunks(file), k);
  }

  lemma TwoFirst(a: Payload, b: Payload, rest: seq<Payload>, k: nat)
    requires 2 <= k <= |rest| + 2
    ensures Concat(([a, b] + rest)[..k]) == a + b + Concat(rest[..k - 2])
  {
    hide Concat;
    var r := rest[..k - 2];
    assert ([a, b] + rest)[..k] == [a] + ([b] + r);
    ConcatCons(b, r);
    ConcatCons(a, [b] + r);
  }

  lemma SmallSize(n: nat)
    requires n < WORD
    ensures Low32(n) == n
  {}

  lemma LaterRequest(name: seq<Byte>, file: seq<Byte>, k: nat)
    requires |file| < WORD && 2 <= k <= |Frames(name, file)|
    ensures NextRequest(Concat(Frames(name, file)[..k])) == if k - 2 < |Chunks(file)| then |Chunks(file)[k - 2]| else 0
  {
    hide Concat, SizeOf, Chunks, NextRequest, Parse, Low32;
    var j, size := k - 2, |file|;
    var have := Min(size, j * BUF_LEN);
    ChunksPrefix(file, j);
    SizeRoundTrip(size);
    SmallSize(size);
    FramesPrefix(name, file, k);
    assert |file[..have]| == have;
    Cut(Concat(Frames(name, file)[..k]), SizeBytes(size), NameBytes(name), file[..have]);
  }

  /** Having got the first k frames, the server asks for exactly the length of the next one, and
      for nothing more after the last. */
  lemma RequestIsNextFrame(name: seq<Byte>, file: seq<Byte>, k: nat)
    requires |file| < WORD && k <= |Frames(name, file)|
    ensures NextRequest(Concat(Frames(name, file)[..k])) ==
              if k < |Frames(name, file)| then |Frames(name, file)[k]| else 0
    ensures k < |Frames(name, file)| ==> 0 < |Frames(name, file)[k]| <= BUF_LEN
  {
    var frames := Frames(name, file);
    if k == 1 {
      assert frames[..1] == [SizeBytes(|file|)] && [SizeBytes(|file|)][..0] == [];
    } else if k >= 2 {
      LaterRequest(name, file, k);
    }
  }

  // ----- The stream, byte by byte -----------------------------------------------------------------

  /** Four bytes of size, most significant first; twenty of the name, filled up with zeros; and then
      the file. */
  lemma StreamLayout(name: seq<Byte>, file: seq<Byte>)
    ensures var s := Concat(Frames(name, file));
            && |s| == 24 + |file|
            && (|file| < 0x1_0000_0000 ==>
                  Value(s[0]) * 0x100_0000 + Value(s[1]) * 0x1_0000 + Value(s[2]) * 0x100 + Value(s[3]) == |file|)
            && (forall k :: 0 <= k < 20 ==> s[4 + k] == if k < |name| then name[k] else 0)
            && s[24..] == file
  {
    hide Concat, Value, ToByte, Low32, SizeBytes, NameBytes, Frames;
    FramesConcat(name, file);
    var a, b := SizeBytes(|file|), NameBytes(name);
    ThreeParts(a, b, file);
    SizeRoundTrip(|file|);
    NameLayout(name);
    if |file| < WORD {
      SmallSize(|file|);
    }
  }

  lemma ThreeParts(a: seq<Byte>, b: seq<Byte>, c: seq<Byte>)
    requires |a| == 4 && |b| == 20
    ensures var s := a + b + c;
            && |s| == 24 + |c| && s[24..] == c
            && s[0] == a[0] && s[1] == a[1] && s[2] == a[2] && s[3] == a[3]
            && forall k :: 0 <= k < 20 ==> s[4 + k] == b[k]
  {}

  lemma NameLayout(name: seq<Byte>)
    ensures forall k :: 0 <= k < 20 ==> NameBytes(name)[k] == if k < |name| then name[k] else 0
  {}

  /** The client's calls: 4 bytes, 20 bytes, and the file in pieces of 1000 and a last one. */
  lemma CallLengths(name: seq<Byte>, file: seq<Byte>)
    ensures var frames := Frames(name, file);
            && |frames| >= 2 && |frames[0]| == 4 && |frames[1]| == 20
            && (forall k :: 2 <= k < |frames| - 1 ==> |frames[k]| == 1000)
            && (|frames| > 2 ==> 0 < |frames[|frames| - 1]| <= 1000)
  {
    hide Chunks;
    var c := Chunks(file);
    forall k | 0 <= k < |c|
      ensures k * BUF_LEN < |file| && |c[k]| == Min(|file| - k * BUF_LEN, BUF_LEN)
    {
      ChunksPrefix(file, k);
    }
    forall k | 0 <= k < |c| - 1
      ensures |c[k]| == 1000
    {
      assert (k + 1) * BUF_LEN < |file|;
    }
  }
}
