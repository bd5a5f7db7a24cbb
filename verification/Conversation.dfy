/** One session of final/tcpd.c seen from both ends, over a network that may lose, repeat,
    reorder and garble: what the sender, the receiver and the acknowledgements keep true. */
module Conversation {
  import opened Options
  import opened Bytes
  import opened Wire
  import opened Sender
  import opened Receiver
  import TimerList

  type Payload = seq<Byte>

  function Concat(payloads: seq<Payload>): seq<Byte> {
    if payloads == [] then [] else Concat(payloads[..|payloads| - 1]) + payloads[|payloads| - 1]
  }

  /** Everything the sender still keeps for retransmission. */
  function Buffered(s: Sock): multiset<Package> {
    multiset(s.packages) + multiset(s.pending)
  }

  /** The package that carries the n-th payload accepted in session x. */
  function Nth(x: nat, sent: seq<Payload>, n: nat): Package
    requires n < |sent|
  {
    Package(x, n, sent[n])
  }

  ghost predicate Carries(p: Package, x: nat, sent: seq<Payload>) {
    p.seqNum < |sent| && p == Nth(x, sent, p.seqNum)
  }

  /** The sender's lists hold packages of this session, each at most once, and everything in
      flight has been handed to the network. */
  ghost predicate SenderInv(s: Sock, net: seq<Package>, sent: seq<Payload>) {
    && |sent| == s.base < WORD
    && (forall p :: p in Buffered(s) ==> Carries(p, s.session, sent) && Buffered(s)[p] == 1)
    && (forall p :: p in net && p.session == s.session ==> Carries(p, s.session, sent))
    && (forall p :: p in s.packages ==> p in net)
  }

  /** Every byte of the consumed packages is in `out` and the buffer, in order and nothing else. */
  ghost predicate Exact(r: Session, sent: seq<Payload>)
    requires r.base <= |sent|
  {
    r.out + r.buffer == Concat(sent[..r.base])
  }

  /** At least one byte of the consumed packages is missing. */
  ghost predicate Short(r: Session, sent: seq<Payload>)
    requires r.base <= |sent|
  {
    |r.out| + |r.buffer| < |Concat(sent[..r.base])|
  }

  ghost predicate ReceiverInv(x: nat, r: Session, sent: seq<Payload>, split: bool) {
    && r.session == x
    && Sorted(r)
    && r.base <= |sent|
    && (forall n: nat :: Got(r, n) ==> n < |sent|)
    && (forall i :: 0 <= i < |r.packages| ==> Carries(r.packages[i], x, sent))
    && |r.buffer| <= r.receivingLength
    && if split then Short(r, sent) else Exact(r, sent)
  }

  ghost predicate GotIt(record: Option<Session>, n: nat) {
    record.Some? && Got(record.value, n)
  }

  /** The invariant of one session: its sender, its receiver if there is one yet, what is on
      the network, the payloads accepted so far, and whether a drain has split a package. */
  ghost predicate SessionInv(s: Sock, net: seq<Package>, acks: seq<Ack>, record: Option<Session>, sent: seq<Payload>,
                             split: bool) {
    && SenderInv(s, net, sent)
    && (record.Some? ==> ReceiverInv(s.session, record.value, sent, split))
    && (forall n: nat :: Ack(s.session, n) in acks <==> GotIt(record, n))
    && (forall n :: 0 <= n < |sent| ==> Nth(s.session, sent, n) in Buffered(s) || GotIt(record, n))
  }

  // ----- The sender's lists as multisets ---------------------------------------------------------

  lemma WithoutMultiset(list: seq<Package>, i: nat)
    requires i < |list|
    ensures multiset(Without(list, i)) == multiset(list) - multiset{list[i]}
    ensures list[i] in multiset(list)
  {
    assert list == list[..i] + [list[i]] + list[i + 1..];
  }

  lemma {:induction false} Partition(list: seq<Package>, limit: nat)
    ensures multiset(Below(list, limit)) + multiset(AtLeast(list, limit)) == multiset(list)
  {
    if list == [] {
    } else {
      Partition(list[1..], limit);
      assert list == [list[0]] + list[1..];
    }
  }

  lemma {:induction false} BelowMembers(list: seq<Package>, limit: nat, p: Package)
    ensures p in Below(list, limit) <==> p in list && p.seqNum < limit
    ensures p in AtLeast(list, limit) <==> p in list && p.seqNum >= limit
  {
    if list == [] {
    } else {
      BelowMembers(list[1..], limit, p);
      assert p in list <==> p == list[0] || p in list[1..];
    }
  }

  lemma AcceptBuffered(s: Sock, body: Payload)
    ensures Buffered(Accept(s, body)) == Buffered(s) + multiset{Package(s.session, s.base, body)}
  {}

  lemma AcknowledgeBuffered(s: Sock, a: Ack)
    ensures var i := Position(s.packages, a.session, a.seqNum);
            Buffered(Acknowledge(s, a)) ==
              if i < |s.packages| then Buffered(s) - multiset{s.packages[i]} else Buffered(s)
  {
    var i := Position(s.packages, a.session, a.seqNum);
    if i < |s.packages| {
      WithoutMultiset(s.packages, i);
    }
  }

  lemma ExpireBuffered(s: Sock, id: TimerList.Id)
    ensures Buffered(Expire(s, id)) == Buffered(s)
    ensures forall p :: p in Expire(s, id).packages ==> p in s.packages
  {
    var i := Position(s.packages, id.session, id.seqNum);
    if i < |s.packages| {
      WithoutMultiset(s.packages, i);
    }
  }

  lemma FlushBuffered(s: Sock)
    ensures Buffered(Flush(s)) == Buffered(s)
  {
    Partition(s.pending, Limit(s));
  }

  // ----- Events at the sender --------------------------------------------------------------------

  lemma CarriesMore(p: Package, x: nat, sent: seq<Payload>, body: Payload)
    requires Carries(p, x, sent)
    ensures Carries(p, x, sent + [body])
  {}

  lemma ReceiverKeeps(x: nat, r: Session, sent: seq<Payload>, split: bool, body: Payload)
    requires ReceiverInv(x, r, sent, split)
    ensures ReceiverInv(x, r, sent + [body], split)
  {
    assert (sent + [body])[..r.base] == sent[..r.base];
    forall i | 0 <= i < |r.packages|
      ensures Carries(r.packages[i], x, sent + [body])
    {
      CarriesMore(r.packages[i], x, sent, body);
    }
  }

  lemma SenderAccepts(s: Sock, net: seq<Package>, sent: seq<Payload>, body: Payload)
    requires SenderInv(s, net, sent) && s.base + 1 < WORD
    ensures SenderInv(Accept(s, body), net, sent + [body])
  {
    var s', sent' := Accept(s, body), sent + [body];
    AcceptBuffered(s, body);
    var p := Package(s.session, s.base, body);
    assert p !in Buffered(s);
    forall q | q in Buffered(s')
      ensures Carries(q, s.session, sent') && Buffered(s')[q] == 1
    {
      if q != p {
        CarriesMore(q, s.session, sent, body);
      }
    }
    forall q | q in net && q.session == s.session
      ensures Carries(q, s.session, sent')
    {
      CarriesMore(q, s.session, sent, body);
    }
  }

  lemma AcceptKeeps(s: Sock, net: seq<Package>, acks: seq<Ack>, record: Option<Session>, sent: seq<Payload>,
                    split: bool, body: Payload)
    requires SessionInv(s, net, acks, record, sent, split) && s.base + 1 < WORD
    ensures SessionInv(Accept(s, body), net, acks, record, sent + [body], split)
  {
    var s', sent' := Accept(s, body), sent + [body];
    SenderAccepts(s, net, sent, body);
    if record.Some? {
      ReceiverKeeps(s.session, record.value, sent, split, body);
    }
    hide ReceiverInv, SenderInv;
    AcceptBuffered(s, body);
    forall n | 0 <= n < |sent'|
      ensures Nth(s.session, sent', n) in Buffered(s') || GotIt(record, n)
    {
      if n < |sent| {
        assert Nth(s.session, sent', n) == Nth(s.session, sent, n);
      }
    }
  }

  lemma SenderAcknowledges(s: Sock, net: seq<Package>, sent: seq<Payload>, a: Ack)
    requires SenderInv(s, net, sent)
    ensures SenderInv(Acknowledge(s, a), net, sent)
    ensures forall n :: 0 <= n < |sent| && Nth(s.session, sent, n) in Buffered(s) ==>
              Nth(s.session, sent, n) in Buffered(Acknowledge(s, a)) || a.seqNum == n
  {
    var s' := Acknowledge(s, a);
    AcknowledgeBuffered(s, a);
    var i := Position(s.packages, a.session, a.seqNum);
    if i < |s.packages| {
      var p := s.packages[i];
      assert p in Buffered(s);
      forall q | q in s'.packages
        ensures q in s.packages
      {}
    }
  }

  lemma AcknowledgeNames(s: Sock, a: Ack)
    ensures Acknowledge(s, a).session == s.session && Acknowledge(s, a).base == s.base
  {}

  /** An acknowledgement takes out only what the receiver has. */
  lemma AcknowledgeKeeps(s: Sock, net: seq<Package>, acks: seq<Ack>, record: Option<Session>, sent: seq<Payload>,
                         split: bool, a: Ack)
    requires SessionInv(s, net, acks, record, sent, split) && a in acks && a.session == s.session
    ensures SessionInv(Acknowledge(s, a), net, acks, record, sent, split)
  {
    hide ReceiverInv, SenderInv, Acknowledge, Buffered, GotIt;
    SenderAcknowledges(s, net, sent, a);
    AcknowledgeNames(s, a);
    assert a == Ack(s.session, a.seqNum);
  }

  lemma ExpireKeeps(s: Sock, net: seq<Package>, acks: seq<Ack>, record: Option<Session>, sent: seq<Payload>,
                    split: bool, id: TimerList.Id)
    requires SessionInv(s, net, acks, record, sent, split)
    ensures SessionInv(Expire(s, id), net, acks, record, sent, split)
  {
    hide ReceiverInv, Expire;
    ExpireBuffered(s, id);
    assert Expire(s, id).base == s.base && Expire(s, id).session == s.session by {
      ExpireNames(s, id);
    }
  }

  lemma ExpireNames(s: Sock, id: TimerList.Id)
    ensures Expire(s, id).base == s.base && Expire(s, id).session == s.session
  {}

  lemma SenderFlushes(s: Sock, net: seq<Package>, sent: seq<Payload>)
    requires SenderInv(s, net, sent)
    ensures SenderInv(Flush(s), net + ToSend(s), sent)
  {
    FlushBuffered(s);
    hide Below, AtLeast, Limit;
    forall p | p in ToSend(s)
      ensures Carries(p, s.session, sent)
    {
      BelowMembers(s.pending, Limit(s), p);
      assert p in Buffered(s);
    }
    forall p | p in net + ToSend(s) && p.session == s.session
      ensures Carries(p, s.session, sent)
    {
      assert p in net || p in ToSend(s);
    }
    forall p | p in s.packages + ToSend(s)
      ensures p in net + ToSend(s)
    {
      assert p in s.packages || p in ToSend(s);
    }
  }

  /** A flush hands pending packages to the network. */
  lemma FlushKeeps(s: Sock, net: seq<Package>, acks: seq<Ack>, record: Option<Session>, sent: seq<Payload>, split: bool)
    requires SessionInv(s, net, acks, record, sent, split)
    ensures SessionInv(Flush(s), net + ToSend(s), acks, record, sent, split)
  {
    SenderFlushes(s, net, sent);
    FlushBuffered(s);
    hide ReceiverInv, SenderInv, Buffered;
  }

  /** What other sockets send does not concern this session. */
  lemma OthersKeep(s: Sock, net: seq<Package>, acks: seq<Ack>, record: Option<Session>, sent: seq<Payload>,
                   split: bool, more: seq<Package>)
    requires SessionInv(s, net, acks, record, sent, split)
    requires forall p :: p in more ==> p.session != s.session
    ensures SessionInv(s, net + more, acks, record, sent, split)
  {
    hide ReceiverInv;
  }

  // ----- Events at the receiver ------------------------------------------------------------------

  lemma NewReceiver(fd: int, x: nat, sent: seq<Payload>)
    ensures ReceiverInv(x, NewSession(fd, x), sent, false)
    ensures forall n: nat :: !Got(NewSession(fd, x), n)
  {}

  lemma ReceiverPlaces(x: nat, r: Session, sent: seq<Payload>, split: bool, p: Package)
    requires ReceiverInv(x, r, sent, split) && Carries(p, x, sent)
    ensures ReceiverInv(x, Place(r, p), sent, split)
    ensures forall n: nat :: Got(Place(r, p), n) <==> Got(r, n) || n == p.seqNum
  {
    PlaceAddsOne(r, p);
    var r' := Place(r, p);
    forall i | 0 <= i < |r'.packages|
      ensures Carries(r'.packages[i], x, sent)
    {
      assert r'.packages[i] in r'.packages;
    }
  }

  /** A package from the network, taken in by the session's record. */
  function Arrived(record: Option<Session>, fd: int, p: Package): Session {
    match record
    case None => Place(NewSession(fd, p.session), p)
    case Some(r) => Place(r, p)
  }

  lemma DataKeeps(s: Sock, net: seq<Package>, acks: seq<Ack>, record: Option<Session>, sent: seq<Payload>,
                  split: bool, fd: int, p: Package)
    requires SessionInv(s, net, acks, record, sent, split)
    requires p in net && p.session == s.session && (record == None ==> !split)
    ensures SessionInv(s, net, acks + [Ack(p.session, p.seqNum)], Some(Arrived(record, fd, p)), sent, split)
  {
    hide Place, Sorted, Exact, Short;
    NewReceiver(fd, p.session, sent);
    ReceiverPlaces(s.session, if record.Some? then record.value else NewSession(fd, p.session), sent, split, p);
  }

  // ----- The drain -------------------------------------------------------------------------------

  lemma {:induction false} AscendingCount(list: seq<Package>, base: nat)
    requires Ascending(list) && (forall i :: 0 <= i < |list| ==> base <= list[i].seqNum)
    ensures list != [] ==> base + |list| <= list[|list| - 1].seqNum + 1
  {
    if |list| <= 1 {
    } else {
      AscendingCount(list[..|list| - 1], base);
      assert list[|list| - 2].seqNum < list[|list| - 1].seqNum;
    }
  }

  lemma ReceiverInRange(x: nat, r: Session, sent: seq<Payload>, split: bool)
    requires ReceiverInv(x, r, sent, split) && |sent| < WORD
    ensures InRange(r)
  {
    AscendingCount(r.packages, r.base);
    if r.packages != [] {
      assert Carries(r.packages[|r.packages| - 1], x, sent);
    }
  }

  /** Consumed packages are the next payloads of the stream. */
  lemma {:induction false} ConsumedStream(list: seq<Package>, x: nat, sent: seq<Payload>, base: nat, c: nat)
    requires c <= |list| && base + c <= |sent|
    requires forall i :: 0 <= i < c ==> list[i].seqNum == base + i && Carries(list[i], x, sent)
    ensures Concat(sent[..base + c]) == Concat(sent[..base]) + Flat(list[..c])
    decreases c
  {
    if c == 0 {
      assert list[..0] == [];
    } else {
      ConsumedStream(list, x, sent, base, c - 1);
      assert sent[..base + c][..base + c - 1] == sent[..base + c - 1];
      assert list[..c] == list[..c - 1] + [list[c - 1]];
      FlatConcat(list[..c - 1], list[c - 1]);
    }
  }

  lemma {:induction false} FlatConcat(list: seq<Package>, p: Package)
    ensures Flat(list + [p]) == Flat(list) + p.body
  {
    if list == [] {
      assert [p][1..] == [];
    } else {
      assert (list + [p])[1..] == list[1..] + [p];
      FlatConcat(list[1..], p);
    }
  }

  /** The drain splits a package. */
  ghost predicate Splits(r: Session) {
    r.receivingLength > 0 && !OnBoundary(r.packages, r.base, Want(r))
  }

  lemma GotAfter(r: Session, r': Session, c: nat, n: nat)
    requires Sorted(r) && Consumed(r, r', c)
    ensures Got(r', n) <==> Got(r, n)
  {
    if Got(r, n) && n >= r'.base {
      var i :| 0 <= i < |r.packages| && r.packages[i].seqNum == n;
      assert r'.packages[i - c] == r.packages[i];
    }
    if Got(r', n) && n >= r'.base {
      var i :| 0 <= i < |r'.packages| && r'.packages[i].seqNum == n;
      assert r'.packages[i] == r.packages[i + c];
    }
    if Got(r', n) && r.base <= n < r'.base {
      assert r.packages[n - r.base].seqNum == n;
    }
  }

  /** Draining keeps the reassembly facts, and the stream is exact afterwards if and only if it
      was exact before and the request falls on a package boundary. */
  lemma DrainKeeps(x: nat, r: Session, sent: seq<Payload>, split: bool)
    requires ReceiverInv(x, r, sent, split) && |sent| < WORD
    ensures ReceiverInv(x, Drain(r), sent, split || Splits(r))
    ensures forall n: nat :: Got(Drain(r), n) <==> Got(r, n)
  {
    if r.receivingLength > 0 {
      ReceiverInRange(x, r, sent, split);
      var c := DrainLoopExact(r);
      var r' := DrainLoop(r);
      DrainLoopKeeps(x, r, r', c, sent, split);
      hide DrainLoop, ReceiverInv;
      AnswerKeeps(x, r', sent, split || Splits(r));
    }
  }

  lemma AnswerKeeps(x: nat, r: Session, sent: seq<Payload>, split: bool)
    requires ReceiverInv(x, r, sent, split)
    ensures ReceiverInv(x, Answer(r), sent, split)
    ensures forall n: nat :: Got(Answer(r), n) <==> Got(r, n)
  {}

  lemma DrainLoopKeeps(x: nat, r: Session, r': Session, c: nat, sent: seq<Payload>, split: bool)
    requires ReceiverInv(x, r, sent, split) && Consumed(r, r', c) && r.receivingLength > 0
    requires OnBoundary(r.packages, r.base, Want(r)) ==> r'.buffer == r.buffer + Flat(r.packages[..c])
    requires !OnBoundary(r.packages, r.base, Want(r)) ==> |r'.buffer| < |r.buffer| + |Flat(r.packages[..c])|
    ensures ReceiverInv(x, r', sent, split || Splits(r))
    ensures forall n: nat :: Got(r', n) <==> Got(r, n)
  {
    hide OnBoundary, Got, Flat;
    forall n: nat
      ensures Got(r', n) <==> Got(r, n)
    {
      GotAfter(r, r', c, n);
    }
    if c > 0 {
      assert Carries(r.packages[c - 1], x, sent);
    }
    ConsumedStream(r.packages, x, sent, r.base, c);
    assert r.out + (r.buffer + Flat(r.packages[..c])) == (r.out + r.buffer) + Flat(r.packages[..c]);
  }

  /** The receiving process asks for `length` bytes. */
  lemma RequestKeeps(x: nat, r: Session, sent: seq<Payload>, split: bool, length: nat)
    requires ReceiverInv(x, r, sent, split) && r.receivingLength == 0
    ensures ReceiverInv(x, r.(receivingLength := length), sent, split)
    ensures forall n: nat :: Got(r.(receivingLength := length), n) <==> Got(r, n)
  {}
}
