/** What a single step can do to a package in flight and to its timer token. */
module Progress {
  import opened Options
  import opened Wire
  import opened TimerList
  import opened Sender
  import opened Conversation
  import opened Protocol
  import opened Bindings
  import opened Buffering
  import opened Tokens
  import opened Reliability
  import opened Retransmission
  import opened Sentinel

  // ----- Buffered packages -----------------------------------------------------------------------

  /** A step only takes packages away from a socket, or adds the next one. */
  ghost predicate OnlyNext(k: Sock, k': Sock) {
    && k'.session == k.session && k'.base >= k.base
    && forall q :: q in Buffered(k') ==> q in Buffered(k) || q.seqNum >= k.base
  }

  lemma FlushOnlyNext(c: Client, order: seq<int>, fd: int, fds: set<int>)
    requires IsOrder(order, fds) && fds == c.socks.Keys && fd in c.socks
    ensures OnlyNext(c.socks[fd], FlushInOrder(c, order).socks[fd])
  {
    hide Buffered, ToSend, Limit, FlushInOrder;
    FlushInOrderFlushesEach(c, order, fd);
    FlushBuffered(c.socks[fd]);
  }

  lemma StepOnlyNext(s: System, step: Step, fd: int)
    requires Enabled(s, step) && fd in s.client.socks
    ensures fd in After(s, step).client.socks && OnlyNext(s.client.socks[fd], After(s, step).client.socks[fd])
  {
    hide OpenAck, OpenData, FlushInOrder, Position, Buffered, IsOrder, Expire;
    match step {
      case SendStep(f, body) => AcceptBuffered(s.client.socks[f], body);
      case AckStep(f, datagram, sample) =>
        if OpenAck(datagram).Some? {
          AcknowledgeBuffered(s.client.socks[f], OpenAck(datagram).value);
          AcknowledgeNames(s.client.socks[f], OpenAck(datagram).value);
        }
      case NoticeStep =>
        ExpireBuffered(s.client.socks[fd], s.notices[0]);
        ExpireNames(s.client.socks[fd], s.notices[0]);
      case FlushStep(order) => FlushOnlyNext(s.client, order, fd, s.client.socks.Keys);
      case _ =>
    }
  }

  lemma LowestStays(k: Sock, k': Sock, p: Package)
    requires OnlyNext(k, k') && Lowest(k, p) && p in Buffered(k') && p.seqNum < k.base
    ensures Lowest(k', p)
  {
    hide Buffered;
  }

  lemma BufferedBelow(s: System, fd: int, p: Package)
    requires Inv(s) && fd in s.client.socks && p in Buffered(s.client.socks[fd])
    ensures p.seqNum < s.client.socks[fd].base && p.session == s.client.socks[fd].session
  {
    InvSessions(s);
    SocksOwn(s, fd);
    assert Keeps(s.client.socks[fd], p);
  }

  /** A package that has left is not buffered again. */
  lemma StepLowest(s: System, step: Step, fd: int, p: Package)
    requires Inv(s) && Enabled(s, step) && fd in s.client.socks && Lowest(s.client.socks[fd], p)
    requires fd in After(s, step).client.socks && p in Buffered(After(s, step).client.socks[fd])
    ensures Lowest(After(s, step).client.socks[fd], p)
  {
    hide Inv, Enabled, After, Buffered;
    StepOnlyNext(s, step, fd);
    assert p in Buffered(s.client.socks[fd]);
    BufferedBelow(s, fd, p);
    LowestStays(s.client.socks[fd], After(s, step).client.socks[fd], p);
  }

  // ----- Packages in flight ----------------------------------------------------------------------

  lemma AckLeaves(k: Sock, a: Ack, p: Package)
    requires OwnPackages(k) && p in k.packages && p in Buffered(Acknowledge(k, a))
    ensures p in Acknowledge(k, a).packages
  {
    AcknowledgeBuffered(k, a);
    assert Keeps(k, p);
    assert Buffered(k)[p] == multiset(k.packages)[p] + multiset(k.pending)[p];
  }

  /** A package in flight that stays buffered stays in flight, unless its own notice is read. */
  lemma StepInFlight(s: System, step: Step, fd: int, p: Package)
    requires Inv(s) && Enabled(s, step) && fd in s.client.socks
    requires p in s.client.socks[fd].packages && Lowest(s.client.socks[fd], p) && p.seqNum < LIMIT
    requires fd in After(s, step).client.socks && p in Buffered(After(s, step).client.socks[fd])
    ensures if step.NoticeStep? && s.notices[0] == IdOf(p) then p in After(s, step).client.socks[fd].pending
            else p in After(s, step).client.socks[fd].packages
  {
    hide OpenAck, OpenData, FlushInOrder, Position, Buffered, IsOrder, Expire, Inv, Lowest, Acknowledge, Transmissions;
    match step {
      case SendStep(f, body) =>
      case AckStep(f, datagram, sample) =>
        if OpenAck(datagram).Some? && f == fd {
          InvSessions(s);
          SocksOwn(s, fd);
          hide OwnPackages;
          AckLeaves(s.client.socks[fd], OpenAck(datagram).value, p);
        }
      case NoticeStep =>
        InvSessions(s);
        NoticeRead(s, fd, p);
      case FlushStep(order) => FlushedLowest(s, order, fd, p);
      case _ =>
    }
  }

  /** The acknowledgement of a package in flight takes it away. */
  lemma AckTakes(s: System, fd: int, p: Package, f: int, datagram: Datagram, sample: real)
    requires Inv(s) && Enabled(s, AckStep(f, datagram, sample)) && fd in s.client.socks
    requires p in s.client.socks[fd].packages && OpenAck(datagram) == Some(Ack(p.session, p.seqNum))
    ensures var socks := After(s, AckStep(f, datagram, sample)).client.socks;
            fd in socks ==> p !in Buffered(socks[fd])
  {
    hide OpenAck, Inv, Sessions;
    InvSessions(s);
    SocksOwn(s, fd);
    SocksOwn(s, f);
    SessionsParts(s);
    var k, a := s.client.socks[fd], Ack(p.session, p.seqNum);
    assert Keeps(k, p);
    assert f == fd;
    AcknowledgeBuffered(k, a);
    var i := Position(k.packages, a.session, a.seqNum);
    var j :| 0 <= j < |k.packages| && k.packages[j] == p;
    assert Matches(k.packages[j], a.session, a.seqNum);
    assert Keeps(k, k.packages[i]) && k.packages[i] == p;
  }

  // ----- Its token -------------------------------------------------------------------------------

  /** Where the request to start a timer is among those on their way; their number if there is none. */
  function StartAt(requests: seq<Request>, id: Id): (i: nat)
    ensures i <= |requests|
    ensures i < |requests| ==> requests[i].Start? && requests[i].id == id
  {
    if requests == [] || (requests[0].Start? && requests[0].id == id) then 0 else 1 + StartAt(requests[1..], id)
  }

  predicate Starting(requests: seq<Request>, id: Id) {
    StartAt(requests, id) < |requests|
  }

  lemma {:induction false} StartAtMore(a: seq<Request>, b: seq<Request>, id: Id)
    requires Starting(a, id)
    ensures StartAt(a + b, id) == StartAt(a, id)
    decreases |a|
  {
    if a[0].Start? && a[0].id == id {
    } else {
      assert (a + b)[1..] == a[1..] + b;
      StartAtMore(a[1..], b, id);
    }
  }

  lemma {:induction false} StartingInBag(requests: seq<Request>, id: Id)
    ensures Starting(requests, id) <==> id in StartBag(requests)
  {
    if requests == [] {
    } else {
      assert requests == [requests[0]] + requests[1..];
      StartBagFirst(requests[0], requests[1..]);
      StartingInBag(requests[1..], id);
    }
  }

  function NoticeAt(notices: seq<Id>, id: Id): (i: nat)
    ensures i <= |notices|
    ensures i < |notices| <==> id in notices
    ensures i < |notices| ==> notices[i] == id
  {
    if notices == [] || notices[0] == id then 0 else 1 + NoticeAt(notices[1..], id)
  }

  lemma {:induction false} NoticeAtMore(a: seq<Id>, b: seq<Id>, id: Id)
    requires id in a
    ensures NoticeAt(a + b, id) == NoticeAt(a, id)
    decreases |a|
  {
    if a[0] == id {
    } else {
      assert (a + b)[1..] == a[1..] + b;
      NoticeAtMore(a[1..], b, id);
    }
  }

  /** The one token of a package in flight is a request, a timer or a notice. */
  lemma OneToken(s: System, fd: int, p: Package)
    requires Inv(s) && fd in s.client.socks && p in s.client.socks[fd].packages
    ensures StartBag(InTransit(s))[IdOf(p)] + IdBag(s.timer)[IdOf(p)] + multiset(s.notices)[IdOf(p)] == 1
    ensures Starting(InTransit(s), IdOf(p)) || Has(s.timer, IdOf(p)) || IdOf(p) in s.notices
    ensures NoKill(InTransit(s), IdOf(p))
  {
    hide Sessions, Counted, RecordsBound, NoKill, InTransit;
    assert SockTokens(s.client.socks[fd], InTransit(s), TokenBag(s));
    StartingInBag(InTransit(s), IdOf(p));
    IdBagHas(s.timer, IdOf(p));
  }

  lemma {:induction false} FlushWrites(c: Client, order: seq<int>)
    requires forall i :: 0 <= i < |order| ==> order[i] in c.socks
    ensures c.toTimer <= FlushInOrder(c, order).toTimer
  {
    hide ToSend, Starts, AfterSends, Flush;
    if order == [] {
    } else {
      FlushWrites(c, order[..|order| - 1]);
    }
  }

  /** Only the timer takes requests, and only the daemon adds some. */
  lemma StepTransit(s: System, step: Step)
    requires TokensInv(s) && Enabled(s, step)
    ensures InTransit(After(s, step)) == if step.TimerStep? && step.take then InTransit(s)[1..]
                                         else InTransit(s) + More(s, step)
    ensures step.TimerStep? && step.take ==> InTransit(s) != []
    ensures !step.TimerStep? ==> After(s, step).timer == s.timer
    ensures !step.TimerStep? && !step.NoticeStep? ==> After(s, step).notices == s.notices
    ensures step.TimerStep? ==> s.notices <= After(s, step).notices
  {
    hide OpenAck, OpenData, FlushInOrder, Expire, OneRound, AllTokens, InTransit;
    StepWrites(s, step);
    if step.TimerStep? {
      TransitTaken(s, After(s, step), step.take);
    } else {
      TransitGrows(s, After(s, step));
    }
  }

  lemma StepWrites(s: System, step: Step)
    requires TokensInv(s) && Enabled(s, step)
    ensures s.client.toTimer <= After(s, step).client.toTimer && s.consumed <= |s.client.toTimer|
    ensures step.TimerStep? || step.NoticeStep? ==> After(s, step).client.toTimer == s.client.toTimer
  {
    hide OpenAck, OpenData, FlushInOrder, Expire, OneRound, AllTokens, InTransit;
    match step {
      case FlushStep(order) => FlushWrites(s.client, order);
      case _ =>
    }
  }

  lemma TransitTaken(s: System, t: System, take: bool)
    requires t.client == s.client && s.consumed <= |s.client.toTimer|
    requires t.consumed == if take then s.consumed + 1 else s.consumed
    requires take ==> InTransit(s) != []
    ensures InTransit(t) == if take then InTransit(s)[1..] else InTransit(s)
  {}

  lemma TransitGrows(s: System, t: System)
    requires s.client.toTimer <= t.client.toTimer && t.consumed == s.consumed <= |s.client.toTimer|
    ensures InTransit(t) == InTransit(s) + t.client.toTimer[|s.client.toTimer|..]
  {
    var before, after := s.client.toTimer, t.client.toTimer;
    assert after == before + after[|before|..];
  }

  /** The requests a step writes. */
  ghost function More(s: System, step: Step): seq<Request>
    requires Enabled(s, step)
  {
    var before, after := s.client.toTimer, After(s, step).client.toTimer;
    if |before| <= |after| then after[|before|..] else []
  }

  lemma InvTokens(s: System)
    requires Inv(s)
    ensures TokensInv(s)
  {}

  /** No request to start the timer of a package in flight is added, and those on their way come
      nearer. */
  lemma StepStarting(s: System, step: Step, fd: int, p: Package)
    requires Inv(s) && Enabled(s, step) && fd in s.client.socks && p in s.client.socks[fd].packages
    requires fd in After(s, step).client.socks && p in After(s, step).client.socks[fd].packages
    requires Starting(InTransit(After(s, step)), IdOf(p))
    ensures Starting(InTransit(s), IdOf(p))
    ensures StartAt(InTransit(After(s, step)), IdOf(p)) ==
              StartAt(InTransit(s), IdOf(p)) - (if step.TimerStep? && step.take then 1 else 0)
  {
    hide Inv, Enabled, After, InTransit, NoKill;
    var t, id := After(s, step), IdOf(p);
    StepInv(s, step);
    InvTokens(s);
    StepTransit(s, step);
    OneToken(s, fd, p);
    OneToken(t, fd, p);
    if step.TimerStep? && step.take {
      RestStarting(InTransit(s), id);
    } else {
      WritesNothing(s, step);
      StartingInBag(InTransit(t), id);
      StartingInBag(InTransit(s), id);
      IdBagSame(s.timer, id);
      assert InTransit(s) + [] == InTransit(s);
      StartAtMore(InTransit(s), More(s, step), id);
    }
  }

  lemma IdBagSame(list: seq<Node>, id: Id)
    ensures IdBag(list)[id] >= 0
  {}

  lemma WritesNothing(s: System, step: Step)
    requires Enabled(s, step)
    ensures step.TimerStep? || step.NoticeStep? ==> More(s, step) == []
  {
    hide Expire, OneRound;
  }

  lemma RestStarting(requests: seq<Request>, id: Id)
    requires requests != [] && StartBag(requests)[id] <= 1 && Starting(requests[1..], id)
    ensures Starting(requests, id) && StartAt(requests, id) == StartAt(requests[1..], id) + 1
  {
    StartingInBag(requests[1..], id);
    StartBagFirst(requests[0], requests[1..]);
    assert requests == [requests[0]] + requests[1..];
  }

  /** The notice of a package in flight comes nearer until it is read. */
  lemma StepNotices(s: System, step: Step, id: Id)
    requires TokensInv(s) && Enabled(s, step) && id in s.notices
    requires !(step.NoticeStep? && s.notices[0] == id)
    ensures id in After(s, step).notices
    ensures NoticeAt(After(s, step).notices, id) == NoticeAt(s.notices, id) - (if step.NoticeStep? then 1 else 0)
  {
    hide InTransit, TokensInv;
    StepTransit(s, step);
    if step.NoticeStep? {
    } else if step.TimerStep? {
      var more := After(s, step).notices[|s.notices|..];
      hide Enabled, After;
      assert After(s, step).notices == s.notices + more;
      NoticeAtMore(s.notices, more, id);
    } else {
    }
  }
}
