/** The acked_sock of final/Global.h and the code of final/tcpd.c that works on one of them. */
module ReceivingSock {
  import opened Bytes
  import opened Wire
  import opened Receiver

  /** bcopy into a buffer, from position `at` on. */
  method Bcopy(src: seq<Byte>, dst: array<Byte>, at: nat)
    requires at + |src| <= dst.Length
    modifies dst
    ensures dst[..] == old(dst[..at]) + src + old(dst[at + |src|..])
  {
    var i := 0;
    while i < |src|
      invariant i <= |src|
      invariant dst[..at] == old(dst[..at])
      invariant dst[at..at + i] == src[..i]
      invariant dst[at + |src|..] == old(dst[at + |src|..])
    {
      dst[at + i] := src[i];
      i := i + 1;
    }
    assert dst[..] == dst[..at] + dst[at..at + i] + dst[at + |src|..];
  }

  class AckedSock {
    const socketFd: int
    const session: nat
    const recvBuffer: array<Byte>
    var base: nat
    var packages: seq<Package>
    var receivingLength: nat
    var recvBufferSize: nat
    /** Everything sent to the receiving process so far. */
    var handedUp: seq<Byte>

    ghost predicate Valid()
      reads this
    {
      recvBuffer.Length == BUF_LEN && recvBufferSize <= BUF_LEN
    }

    ghost function View(): Session
      reads this, recvBuffer
      requires Valid()
    {
      Session(socketFd, session, base, packages, receivingLength, recvBuffer[..recvBufferSize], handedUp)
    }

    constructor (socketFd: int, session: nat)
      ensures Valid() && View() == NewSession(socketFd, session)
      ensures fresh(recvBuffer)
    {
      this.socketFd, this.session := socketFd, session;
      recvBuffer := new Byte[BUF_LEN];
      base, packages, receivingLength, recvBufferSize, handedUp := 0, [], 0, 0, [];
    }

    /** Files a package that has arrived, unless it is outdated or a duplicate. */
    method Insert(p: Package)
      requires Valid()
      modifies this`packages
      ensures Valid() && View() == Place(old(View()), p)
    {
      var requireValid := base <= p.seqNum;
      var l := 0;
      assert packages[0..] == packages;
      while l < |packages| && packages[l].seqNum < p.seqNum
        invariant l <= |packages|
        invariant Slot(packages, p.seqNum) == l + Slot(packages[l..], p.seqNum)
      {
        assert packages[l..][1..] == packages[l + 1..];
        l := l + 1;
      }
      if l < |packages| && packages[l].seqNum == p.seqNum {
        requireValid := false;
      }
      if requireValid {
        packages := packages[..l] + [p] + packages[l..];
      }
    }

    /** Moves ready packages into the receive buffer, and answers the request when it is filled. */
    method HandleRecv()
      requires Valid() && receivingLength <= BUF_LEN
      modifies this, recvBuffer
      ensures Valid() && View() == Drain(old(View()))
    {
      if receivingLength > 0 {
        while recvBufferSize < receivingLength && packages != [] && packages[0].seqNum == base
          invariant Valid() && receivingLength == old(receivingLength)
          invariant DrainLoop(View()) == DrainLoop(old(View()))
          decreases |packages|, HeadLength(packages)
        {
          TakeOne();
        }
        if recvBufferSize == receivingLength {
          handedUp := handedUp + recvBuffer[..recvBufferSize];
          recvBufferSize := 0;
          receivingLength := 0;
        }
      }
    }

    method TakeOne()
      requires Valid() && receivingLength <= BUF_LEN && Draining(View())
      modifies this`packages, this`base, this`recvBufferSize, recvBuffer
      ensures Valid() && View() == Take(old(View()))
      ensures |packages| < |old(packages)| || (|packages| == |old(packages)| &&
          HeadLength(packages) < HeadLength(old(packages)))
    {
      var message := packages[0];
      if recvBufferSize + |message.body| <= receivingLength {
        Bcopy(message.body, recvBuffer, recvBufferSize);
        assert recvBuffer[..recvBufferSize + |message.body|] == old(recvBuffer[..recvBufferSize]) + message.body;
        recvBufferSize := recvBufferSize + |message.body|;
        packages := packages[1..];
        base := (base + 1) % WORD;
      } else {
        var remainSize := receivingLength - recvBufferSize;
        Bcopy(message.body[..remainSize], recvBuffer, recvBufferSize);
        assert recvBuffer[..recvBufferSize] == old(recvBuffer[..recvBufferSize]);
        packages := [message.(body := message.body[remainSize..])] + packages[1..];
      }
    }
  }
}
