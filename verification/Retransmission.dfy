/** The protocol never gets stuck: while a package is buffered, the lowest one is in flight
    after every flush, and it can always be sent again without any help from the network. */
module Retransmission {
  import opened Options
  import opened Wire
  import opened TimerList
  import opened Sender
  import opened Conversation
  import opened Protocol
  import opened Tokens
  import opened Reliability
  import opened Paths

  lemma {:induction false} MinSeqBounds(list: seq<Package>)
    ensures MinSeq(list) <= NO_MIN_SEQ && forall p :: p in list ==> MinSeq(list) <= p.seqNum
    ensures MinSeq(list) < NO_MIN_SEQ ==> exists p :: p in list && p.seqNum == MinSeq(list)
  {
    if list == [] {
    } else {
      var n := |list| - 1;
      MinSeqBounds(list[..n]);
      assert list == list[..n] + [list[n]];
      assert list[n] in list;
    }
  }

  /** No package of the socket has a lower number. */
  ghost predicate Lowest(s: Sock, p: Package) {
    p in Buffered(s) && forall q :: q in Buffered(s) ==> p.seqNum <= q.seqNum
  }

  lemma SentBelow(s: Sock, p: Package)
    requires p in s.pending
    ensures p in ToSend(s) <==> p.seqNum < MinSeq(s.packages) + MAX_BUFFER_PACKAGES
  {
    BelowMembers(s.pending, Limit(s), p);
  }

  /** A flush sends a pending package exactly when its number is below 100000064 and less than 64
      above every number in flight. */
  lemma FlushSends(s: Sock, p: Package)
    requires p in s.pending
    ensures p in ToSend(s) <==> p.seqNum < 100000064 && forall q :: q in s.packages ==> p.seqNum < q.seqNum + 64
  {
    SentBelow(s, p);
    MinSeqBounds(s.packages);
  }

  /** The field it leaves behind is the lowest number that was in flight, if one below 100000000 was. */
  lemma FlushRecords(s: Sock)
    ensures forall q :: q in s.packages ==> Flush(s).minSeq <= q.seqNum
    ensures Flush(s).minSeq == 100000000 ||
            (Flush(s).minSeq < 100000000 && exists q :: q in s.packages && q.seqNum == Flush(s).minSeq)
  {
    MinSeqBounds(s.packages);
  }

  /** The sentinel that stands for "nothing in flight" is itself a bound: from number 100000064
      on, a socket with nothing in flight sends nothing any more, and below it always does. */
  lemma IdleSocketSends(s: Sock)
    requires s.packages == []
    ensures ToSend(s) != [] <==> exists p :: p in s.pending && p.seqNum < NO_MIN_SEQ + MAX_BUFFER_PACKAGES
  {
    if p :| p in s.pending && p.seqNum < NO_MIN_SEQ + MAX_BUFFER_PACKAGES {
      SentBelow(s, p);
    }
    if ToSend(s) != [] {
      BelowMembers(s.pending, Limit(s), ToSend(s)[0]);
    }
  }

  lemma LowestIsSent(s: Sock, p: Package)
    requires Lowest(s, p) && p in s.pending && p.seqNum < NO_MIN_SEQ + MAX_BUFFER_PACKAGES
    ensures p in ToSend(s)
  {
    MinSeqBounds(s.packages);
    if MinSeq(s.packages) < NO_MIN_SEQ {
      var q :| q in s.packages && q.seqNum == MinSeq(s.packages);
      assert q in Buffered(s);
    }
    SentBelow(s, p);
  }

  /** After a flush of all sockets, the lowest buffered package of each is in flight. */
  lemma LowestInFlight(s: System, order: seq<int>, fd: int, p: Package)
    requires Enabled(s, FlushStep(order)) && fd in s.client.socks
    requires Lowest(s.client.socks[fd], p) && p.seqNum < NO_MIN_SEQ + MAX_BUFFER_PACKAGES
    ensures var s' := After(s, FlushStep(order)).client.socks[fd];
            p in s'.packages && Lowest(s', p)
  {
    FlushInOrderFlushesEach(s.client, order, fd);
    FlushBuffered(s.client.socks[fd]);
    if p in s.client.socks[fd].pending {
      LowestIsSent(s.client.socks[fd], p);
    }
  }

  // ----- Continuations without the network -------------------------------------------------------

  lemma {:induction false} OrderExists(fds: set<int>) returns (order: seq<int>)
    ensures IsOrder(order, fds)
  {
    if fd :| fd in fds {
      var rest := OrderExists(fds - {fd});
      order := rest + [fd];
      assert forall f :: f in fds ==> f == fd || f in rest;
    } else {
      order := [];
    }
  }

  lemma OneTurn(s: System, step: Step)
    requires (step.TimerStep? || step.FlushStep?) && Enabled(s, step)
    ensures Goes(s, [step], After(s, step), TimerOnly)
  {
    hide Path, Enabled, After;
    OneStep(s, step, TimerOnly);
    assert Orderly([]) && [step][1..] == [];
  }

  /** The timer reads every request that is on its way. */
  lemma {:induction false} ReadAll(s: System) returns (steps: seq<Step>, s': System)
    requires Inv(s)
    ensures Goes(s, steps, s', TimerOnly) && Inv(s') && InTransit(s') == [] && s'.client == s.client
    decreases |InTransit(s)|
  {
    hide Inv, OneRound, Goes;
    steps, s' := [], s;
    if InTransit(s) == [] {
      GoesNowhere(s, TimerOnly);
    } else {
      var step := TimerStep(0.0, true);
      var t := After(s, step);
      StepInv(s, step);
      ReadShorter(s);
      var more, u := ReadAll(t);
      OneTurn(s, step);
      GoesConcat(s, [step], t, more, u, TimerOnly);
      steps, s' := [step] + more, u;
    }
  }

  lemma ReadShorter(s: System)
    requires InTransit(s) != []
    ensures |InTransit(After(s, TimerStep(0.0, true)))| < |InTransit(s)|
    ensures After(s, TimerStep(0.0, true)).client == s.client
  {
    hide OneRound;
  }

  // ----- Waiting long enough ---------------------------------------------------------------------

  /** Enough time for every timer in the list. */
  function LongEnough(list: seq<Node>): (t: real)
    ensures t >= 0.0
  {
    if list == [] then
      0.0
    else
      var t := list[0].remain + LongEnough(list[1..]);
      if t < 0.0 then 0.0 else t
  }

  lemma {:induction false} AllSettle(list: seq<Node>, r: real)
    requires r + LongEnough(list) <= 0.0
    ensures |Settle(Carry(list, r))| == |list|
    ensures forall i :: 0 <= i < |list| ==> Settle(Carry(list, r))[i].remain == 0.0
  {
    if list == [] {
    } else {
      var c := Carry(list, r);
      assert c[1..] == list[1..];
      AllSettle(list[1..], c[0].remain);
      assert Settle(c) == [c[0].(remain := 0.0)] + Settle(Carry(list[1..], c[0].remain));
    }
  }

  lemma {:induction false} AllExpired(list: seq<Node>)
    requires forall i :: 0 <= i < |list| ==> list[i].remain == 0.0
    ensures Expired(list) == |list|
  {
    if list == [] {
    } else {
      assert forall i :: 0 <= i < |list| - 1 ==> list[1..][i] == list[i + 1];
      AllExpired(list[1..]);
    }
  }

  /** After waiting long enough every timer has fired. */
  lemma WaitForAll(list: seq<Node>)
    ensures OneRound(list, LongEnough(list), None).0 == []
  {
    AllSettle(list, -LongEnough(list));
    AllExpired(Update(list, LongEnough(list)));
  }

  /** With no request under way and no timer running, every token is an expiry notice. */
  lemma ToNotices(s: System) returns (steps: seq<Step>, s': System)
    requires Inv(s)
    ensures Goes(s, steps, s', TimerOnly) && Inv(s') && s'.client == s.client
    ensures InTransit(s') == [] && s'.timer == []
  {
    hide Inv, OneRound, LongEnough, Goes;
    var a, t := ReadAll(s);
    var step := TimerStep(LongEnough(t.timer), false);
    WaitForAll(t.timer);
    WaitIs(t);
    hide Enabled, After;
    s' := After(t, step);
    StepInv(t, step);
    OneTurn(t, step);
    GoesConcat(s, a, t, [step], s', TimerOnly);
    steps := a + [step];
  }

  lemma WaitIs(t: System)
    requires OneRound(t.timer, LongEnough(t.timer), None).0 == []
    ensures var step := TimerStep(LongEnough(t.timer), false);
            && Enabled(t, step)
            && After(t, step).client == t.client
            && After(t, step).timer == []
            && InTransit(After(t, step)) == InTransit(t)
  {}

  // ----- Sending again ---------------------------------------------------------------------------

  /** How often a package has been handed to the network. */
  function Transmissions(s: System, p: Package): nat {
    multiset(s.client.toTroll)[p]
  }

  lemma CountGrows(a: seq<Package>, b: seq<Package>, p: Package)
    requires a <= b
    ensures multiset(a)[p] <= multiset(b)[p]
    ensures p in b[|a|..] ==> multiset(a)[p] < multiset(b)[p]
  {
    assert b == a + b[|a|..];
  }

  lemma ExpiredIsPending(s: Sock, p: Package)
    requires OwnPackages(s) && p in s.packages
    ensures p in Expire(s, IdOf(p)).pending
  {
    assert Keeps(s, p);
    var i := Position(s.packages, p.session, p.seqNum);
    var k :| 0 <= k < |s.packages| && s.packages[k] == p;
    assert Matches(s.packages[k], p.session, p.seqNum);
    assert Keeps(s, s.packages[i]);
  }

  lemma OthersStay(s: Sock, id: Id, p: Package)
    requires p in s.packages && IdOf(p) != id
    ensures p in Expire(s, id).packages
  {
    var i := Position(s.packages, id.session, id.seqNum);
    var k :| 0 <= k < |s.packages| && s.packages[k] == p;
    if i < |s.packages| {
      assert k != i;
      assert Without(s.packages, i)[if k < i then k else k - 1] == p;
    }
  }

  lemma ExpiredLowest(s: Sock, id: Id, p: Package)
    requires Lowest(s, p)
    ensures Lowest(Expire(s, id), p)
  {
    ExpireBuffered(s, id);
  }

  lemma SockAfterNotice(k: Sock, id: Id, p: Package)
    requires OwnPackages(k) && p in k.packages && Lowest(k, p)
    ensures var k' := if k.session == id.session then Expire(k, id) else k;
            && Lowest(k', p)
            && if id == IdOf(p) then p in k'.pending else p in k'.packages
  {
    assert Keeps(k, p);
    hide Expire, Lowest;
    if k.session == id.session {
      ExpiredLowest(k, id, p);
      if id == IdOf(p) {
        ExpiredIsPending(k, p);
      } else {
        OthersStay(k, id, p);
      }
    }
  }

  /** The socket after the first notice has been read. */
  lemma NoticeRead(s: System, fd: int, p: Package)
    requires Sessions(s) && s.notices != [] && fd in s.client.socks
    requires p in s.client.socks[fd].packages && Lowest(s.client.socks[fd], p)
    ensures var c := ExpireAt(s.client, s.notices[0]);
            && c.socks.Keys == s.client.socks.Keys
            && Lowest(c.socks[fd], p)
            && c.toTroll == s.client.toTroll
            && if s.notices[0] == IdOf(p) then p in c.socks[fd].pending else p in c.socks[fd].packages
  {
    SocksOwn(s, fd);
    hide Sessions, Expire, Lowest, OwnPackages;
    SockAfterNotice(s.client.socks[fd], s.notices[0], p);
  }

  /** A flush of all sockets sends a pending lowest package and keeps one in flight. */
  lemma FlushedLowest(s: System, order: seq<int>, fd: int, p: Package)
    requires Enabled(s, FlushStep(order)) && fd in s.client.socks
    requires Lowest(s.client.socks[fd], p) && p.seqNum < NO_MIN_SEQ + MAX_BUFFER_PACKAGES
    ensures var t := After(s, FlushStep(order));
            && fd in t.client.socks
            && p in t.client.socks[fd].packages && Lowest(t.client.socks[fd], p)
            && Transmissions(s, p) <= Transmissions(t, p)
            && (p in s.client.socks[fd].pending ==> Transmissions(s, p) < Transmissions(t, p))
            && t.notices == s.notices
  {
    LowestInFlight(s, order, fd, p);
    FlushInOrderFlushesEach(s.client, order, fd);
    var t := After(s, FlushStep(order));
    CountGrows(s.client.toTroll, t.client.toTroll, p);
    InOrderHas(s.client, order, fd);
    if p in s.client.socks[fd].pending {
      LowestIsSent(s.client.socks[fd], p);
    }
  }

  lemma NoticeThenFlush(s: System, fd: int, p: Package) returns (steps: seq<Step>, u: System)
    requires Inv(s) && s.notices != [] && fd in s.client.socks
    requires p in s.client.socks[fd].packages && Lowest(s.client.socks[fd], p)
    requires p.seqNum < NO_MIN_SEQ + MAX_BUFFER_PACKAGES
    ensures Goes(s, steps, u, TimerOnly) && Inv(u) && fd in u.client.socks
    ensures p in u.client.socks[fd].packages && Lowest(u.client.socks[fd], p)
    ensures u.notices == s.notices[1..]
    ensures Transmissions(s, p) <= Transmissions(u, p)
    ensures s.notices[0] == IdOf(p) ==> Transmissions(s, p) < Transmissions(u, p)
  {
    hide Inv, Lowest, Goes, FlushInOrder, ExpireAt, Sessions, Enabled, After, IsOrder, Transmissions;
    InvSessions(s);
    NoticeRead(s, fd, p);
    NoticeIs(s);
    var t := After(s, NoticeStep);
    var order := OrderExists(t.client.socks.Keys);
    FlushIs(t, order);
    FlushedLowest(t, order, fd, p);
    u := After(t, FlushStep(order));
    TwoSteps(s, NoticeStep, FlushStep(order));
    StepInv(s, NoticeStep);
    StepInv(t, FlushStep(order));
    SameTroll(s, t, p);
    steps := [NoticeStep, FlushStep(order)];
  }

  lemma NoticeIs(s: System)
    requires s.notices != []
    ensures Enabled(s, NoticeStep)
    ensures After(s, NoticeStep) == s.(client := ExpireAt(s.client, s.notices[0]), notices := s.notices[1..])
  {}

  lemma FlushIs(s: System, order: seq<int>)
    requires IsOrder(order, s.client.socks.Keys)
    ensures Enabled(s, FlushStep(order))
  {}

  lemma SameTroll(s: System, t: System, p: Package)
    requires s.client.toTroll == t.client.toTroll
    ensures Transmissions(s, p) == Transmissions(t, p)
  {}

  /** Reading notice after notice, each followed by a flush, until the package is sent again. */
  lemma {:induction false} ReadNotices(s: System, fd: int, p: Package, j: nat) returns (steps: seq<Step>, s': System)
    requires Inv(s) && fd in s.client.socks
    requires p in s.client.socks[fd].packages && Lowest(s.client.socks[fd], p)
    requires p.seqNum < NO_MIN_SEQ + MAX_BUFFER_PACKAGES
    requires j < |s.notices| && s.notices[j] == IdOf(p)
    ensures Goes(s, steps, s', TimerOnly) && Transmissions(s, p) < Transmissions(s', p)
    ensures fd in s'.client.socks && p in s'.client.socks[fd].packages
    decreases j
  {
    hide Inv, Lowest, Goes, Transmissions;
    steps, s' := NoticeThenFlush(s, fd, p);
    if s.notices[0] != IdOf(p) {
      var u := s';
      var more, v := ReadNotices(u, fd, p, j - 1);
      GoesConcat(s, steps, u, more, v, TimerOnly);
      steps, s' := steps + more, v;
    }
  }

  lemma TwoSteps(s: System, a: Step, b: Step)
    requires a.NoticeStep? && Enabled(s, a) && b.FlushStep? && Enabled(After(s, a), b)
    ensures Goes(s, [a, b], After(After(s, a), b), TimerOnly)
  {
    hide Path, Enabled, After;
    OneStep(s, a, TimerOnly);
    PathThen(s, [a], After(s, a), b, TimerOnly);
    assert [a] + [b] == [a, b] && [a, b][2..] == [] && Orderly([]);
  }

  lemma OnlyNotices(s: System, fd: int, p: Package) returns (j: nat)
    requires Inv(s) && InTransit(s) == [] && s.timer == []
    requires fd in s.client.socks && p in s.client.socks[fd].packages
    ensures j < |s.notices| && s.notices[j] == IdOf(p)
  {
    assert SockTokens(s.client.socks[fd], InTransit(s), TokenBag(s));
    assert Ids(s.timer) == [];
    assert IdOf(p) in multiset(s.notices);
    j :| 0 <= j < |s.notices| && s.notices[j] == IdOf(p);
  }

  lemma SendAgain(s: System, fd: int, p: Package) returns (steps: seq<Step>, s': System)
    requires Inv(s) && fd in s.client.socks
    requires Lowest(s.client.socks[fd], p) && p.seqNum < NO_MIN_SEQ + MAX_BUFFER_PACKAGES
    ensures Goes(s, steps, s', TimerOnly) && Transmissions(s, p) < Transmissions(s', p)
    ensures fd in s'.client.socks && p in s'.client.socks[fd].packages
  {
    if p in s.client.socks[fd].pending {
      var order := OrderExists(s.client.socks.Keys);
      FlushedLowest(s, order, fd, p);
      OneTurn(s, FlushStep(order));
      steps, s' := [FlushStep(order)], After(s, FlushStep(order));
    } else {
      var a, t := ToNotices(s);
      var j := OnlyNotices(t, fd, p);
      hide Goes, Inv;
      var b, u := ReadNotices(t, fd, p, j);
      GoesConcat(s, a, t, b, u, TimerOnly);
      steps, s' := a + b, u;
    }
  }

  /** From every state of every run, the lowest buffered package of a session can be sent once
      more by the timer and the daemon alone, whatever the network has lost. */
  lemma LowestIsSentAgain(states: seq<System>, run: seq<Step>, i: nat, fd: int, p: Package)
    returns (steps: seq<Step>, s': System)
    requires IsRun(states, run) && i < |states| && fd in states[i].client.socks
    requires Lowest(states[i].client.socks[fd], p) && p.seqNum < NO_MIN_SEQ + MAX_BUFFER_PACKAGES
    ensures Goes(states[i], steps, s', TimerOnly) && Transmissions(states[i], p) < Transmissions(s', p)
    ensures fd in s'.client.socks && p in s'.client.socks[fd].packages
  {
    hide Inv, Goes;
    RunInv(states, run, i);
    steps, s' := SendAgain(states[i], fd, p);
  }
}
