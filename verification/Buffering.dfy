/** The count of buffered packages that gates the sending process. */
module Buffering {
  import opened Wire
  import opened Sender
  import opened Conversation
  import opened Protocol

  /** Packages kept for one socket. */
  function Size(s: Sock): nat {
    |s.packages| + |s.pending|
  }

  /** Packages kept for all sockets. */
  ghost function Sum(socks: map<int, Sock>): nat
    decreases |socks|
  {
    if exists fd :: fd in socks then
      var fd :| fd in socks;
      Size(socks[fd]) + Sum(socks - {fd})
    else
      0
  }

  lemma {:induction false} SumTakes(socks: map<int, Sock>, fd: int)
    requires fd in socks
    ensures Sum(socks) == Size(socks[fd]) + Sum(socks - {fd})
    decreases |socks|
  {
    var f :| f in socks && Sum(socks) == Size(socks[f]) + Sum(socks - {f});
    if f == fd {
    } else {
      SumTakes(socks - {f}, fd);
      SumTakes(socks - {fd}, f);
      assert socks - {f} - {fd} == socks - {fd} - {f};
    }
  }

  lemma SumPut(socks: map<int, Sock>, fd: int, s: Sock)
    ensures Sum(socks[fd := s]) == Size(s) + (if fd in socks then Sum(socks) - Size(socks[fd]) else Sum(socks))
  {
    SumTakes(socks[fd := s], fd);
    assert socks[fd := s] - {fd} == socks - {fd};
    if fd in socks {
      SumTakes(socks, fd);
    } else {
      assert socks - {fd} == socks;
    }
  }

  lemma {:induction false} SumSame(socks: map<int, Sock>, socks': map<int, Sock>)
    requires socks.Keys == socks'.Keys
    requires forall fd :: fd in socks ==> Size(socks'[fd]) == Size(socks[fd])
    ensures Sum(socks) == Sum(socks')
    decreases |socks|
  {
    if fd :| fd in socks {
      SumTakes(socks, fd);
      SumTakes(socks', fd);
      SumSame(socks - {fd}, socks' - {fd});
    }
  }

  /** in_buffer_packages is the number of packages in all lists, and never more than 64. */
  ghost predicate Counted(c: Client) {
    c.inBuffer == Sum(c.socks) <= MAX_BUFFER_PACKAGES
  }

  lemma SizeIsCardinality(s: Sock)
    ensures Size(s) == |Buffered(s)|
  {}

  lemma FlushAtCounted(c: Client, fd: int)
    requires Counted(c) && fd in c.socks
    ensures Counted(FlushAt(c, fd))
  {
    FlushBuffered(c.socks[fd]);
    SizeIsCardinality(c.socks[fd]);
    SizeIsCardinality(Flush(c.socks[fd]));
    SumPut(c.socks, fd, Flush(c.socks[fd]));
  }

  lemma {:induction false} FlushCounted(c: Client, order: seq<int>)
    requires Counted(c) && forall i :: 0 <= i < |order| ==> order[i] in c.socks
    ensures Counted(FlushInOrder(c, order))
  {
    hide Counted, FlushAt;
    if order == [] {
    } else {
      FlushCounted(c, order[..|order| - 1]);
      FlushAtCounted(FlushInOrder(c, order[..|order| - 1]), order[|order| - 1]);
    }
  }

  /** Every step keeps the count, given the gate that holds back SEND at 64. */
  lemma StepCounted(s: System, step: Step)
    requires Counted(s.client) && Enabled(s, step)
    ensures Counted(After(s, step).client)
  {
    hide Position;
    match step
    case ConnectStep(fd, name, to) => SumPut(s.client.socks, fd, Connect(name));
    case SendStep(fd, body) => SumPut(s.client.socks, fd, Accept(s.client.socks[fd], body));
    case AckStep(fd, datagram, sample) =>
      if OpenAck(datagram).Some? {
        SumPut(s.client.socks, fd, Acknowledge(s.client.socks[fd], OpenAck(datagram).value));
      }
    case NoticeStep =>
      var id := s.notices[0];
      forall fd | fd in s.client.socks
        ensures Size(Expire(s.client.socks[fd], id)) == Size(s.client.socks[fd])
      {
        ExpireBuffered(s.client.socks[fd], id);
        SizeIsCardinality(s.client.socks[fd]);
        SizeIsCardinality(Expire(s.client.socks[fd], id));
      }
      SumSame(s.client.socks, ExpireAt(s.client, id).socks);
    case FlushStep(order) => FlushCounted(s.client, order);
    case TimerStep(elapsed, take) =>
    case BindStep(fd) =>
    case DataStep(fd, datagram) =>
    case AcceptCallStep(k) =>
    case AcceptStep =>
    case RecvStep(session, length) =>
    case DrainStep =>
  }
}
