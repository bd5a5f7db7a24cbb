/** The order on the sending side: what is accepted first is sent first, and what becomes pending
    stays in line. */
module Ordering {
  import opened Wire
  import opened TimerList
  import opened Sender
  import opened Receiver
  import opened ServerTables
  import opened Conversation
  import opened Protocol
  import opened Reliability

  // ----- Numbers that have been sent ----------------------------------------------------------------

  ghost predicate Sent(net: seq<Package>, x: int, n: int) {
    exists j :: 0 <= j < |net| && net[j].session == x && net[j].seqNum == n
  }

  /** Whenever a number is sent, all lower ones of the session have been sent before. */
  ghost predicate LowerFirst(net: seq<Package>) {
    forall j, n :: 0 <= j < |net| && 0 <= n < net[j].seqNum ==> Sent(net[..j], net[j].session, n)
  }

  ghost predicate InLine(list: seq<Package>, i: nat, n: int)
    requires i <= |list|
  {
    exists j :: 0 <= j < i && list[j].seqNum == n
  }

  /** Every number below that of a pending package has been sent, or stands in line before it. */
  ghost predicate Line(x: int, list: seq<Package>, net: seq<Package>) {
    && (forall i :: 0 <= i < |list| ==> list[i].session == x)
    && forall i, n :: 0 <= i < |list| && 0 <= n < list[i].seqNum ==> Sent(net, x, n) || InLine(list, i, n)
  }

  /** Every number given out has been sent or stands in line. */
  ghost predicate Covered(x: int, base: nat, list: seq<Package>, net: seq<Package>) {
    forall n :: 0 <= n < base ==> Sent(net, x, n) || InLine(list, |list|, n)
  }

  ghost predicate SockOrder(k: Sock, net: seq<Package>) {
    Line(k.session, k.pending, net) && Covered(k.session, k.base, k.pending, net)
  }

  ghost predicate OrderInv(socks: map<int, Sock>, net: seq<Package>) {
    LowerFirst(net) && forall fd :: fd in socks ==> SockOrder(socks[fd], net)
  }

  lemma SentMore(net: seq<Package>, more: seq<Package>, x: int, n: int)
    ensures Sent(net + more, x, n) <==> Sent(net, x, n) || Sent(more, x, n)
  {
    var all := net + more;
    if j :| 0 <= j < |net| && net[j].session == x && net[j].seqNum == n {
      assert all[j] == net[j];
    }
    if j :| 0 <= j < |more| && more[j].session == x && more[j].seqNum == n {
      assert all[|net| + j] == more[j];
    }
    if j :| 0 <= j < |all| && all[j].session == x && all[j].seqNum == n {
      assert all[j] == if j < |net| then net[j] else more[j - |net|];
    }
  }

  lemma OrderMore(k: Sock, net: seq<Package>, more: seq<Package>)
    requires SockOrder(k, net)
    ensures SockOrder(k, net + more)
  {
    hide Sent, InLine;
    forall n: int
      ensures Sent(net, k.session, n) ==> Sent(net + more, k.session, n)
    {
      SentMore(net, more, k.session, n);
    }
  }

  lemma OneMoreSent(net: seq<Package>, p: Package)
    requires LowerFirst(net) && forall n :: 0 <= n < p.seqNum ==> Sent(net, p.session, n)
    ensures LowerFirst(net + [p])
  {
    hide Sent;
    var all := net + [p];
    forall j, n | 0 <= j < |all| && 0 <= n < all[j].seqNum
      ensures Sent(all[..j], all[j].session, n)
    {
      assert all[..j] == net[..j];
      assert net[..|net|] == net;
    }
  }

  lemma AppendInLine(list: seq<Package>, q: Package, n: int)
    ensures InLine(list + [q], |list| + 1, n) <==> InLine(list, |list|, n) || q.seqNum == n
    ensures forall i :: 0 <= i <= |list| && InLine(list, i, n) ==> InLine(list + [q], i, n)
  {
    var all := list + [q];
    if j :| 0 <= j < |list| && list[j].seqNum == n {
      assert all[j] == list[j];
    }
    assert all[|list|] == q;
    if j :| 0 <= j < |all| && all[j].seqNum == n {
      assert j < |list| ==> all[j] == list[j];
    }
    forall i | 0 <= i <= |list| && InLine(list, i, n)
      ensures InLine(all, i, n)
    {
      var j :| 0 <= j < i && list[j].seqNum == n;
      assert all[j] == list[j];
    }
  }

  /** A package joins the line behind numbers that have been sent or stand in it. */
  lemma Joins(x: int, base: nat, list: seq<Package>, q: Package, net: seq<Package>)
    requires Line(x, list, net) && Covered(x, base, list, net) && q.session == x
    requires forall n :: 0 <= n < q.seqNum ==> Sent(net, x, n) || InLine(list, |list|, n)
    ensures Line(x, list + [q], net) && Covered(x, base, list + [q], net)
    ensures q.seqNum == base ==> Covered(x, base + 1, list + [q], net)
  {
    hide Sent, InLine;
    var all := list + [q];
    forall n: int
      ensures InLine(all, |all|, n) <==> InLine(list, |list|, n) || q.seqNum == n
      ensures forall i :: 0 <= i <= |list| && InLine(list, i, n) ==> InLine(all, i, n)
    {
      AppendInLine(list, q, n);
    }
    forall i, n | 0 <= i < |all| && 0 <= n < all[i].seqNum
      ensures Sent(net, x, n) || InLine(all, i, n)
    {
      if i < |list| {
        assert all[i] == list[i];
      }
    }
  }

  // ----- A flush ------------------------------------------------------------------------------------

  lemma HeadLeaves(x: int, held: seq<Package>, p: Package, rest: seq<Package>, net: seq<Package>)
    requires Line(x, held + [p] + rest, net)
    ensures Line(x, held + rest, net + [p]) && p.session == x
    ensures forall n :: 0 <= n < p.seqNum ==> Sent(net, x, n) || InLine(held, |held|, n)
  {
    var all, left := held + [p] + rest, held + rest;
    var at := |held|;
    assert all[at] == p;
    forall n | 0 <= n < p.seqNum
      ensures Sent(net, x, n) || InLine(held, |held|, n)
    {
      if !Sent(net, x, n) {
        assert InLine(all, at, n);
        var j :| 0 <= j < at && all[j].seqNum == n;
        assert held[j] == all[j];
      }
    }
    forall i | 0 <= i < |left|
      ensures left[i] == all[if i < at then i else i + 1]
    {}
    forall i, n | 0 <= i < |left| && 0 <= n < left[i].seqNum
      ensures Sent(net + [p], x, n) || InLine(left, i, n)
    {
      SentMore(net, [p], x, n);
      var o := if i < at then i else i + 1;
      assert left[i] == all[o];
      if !Sent(net, x, n) {
        var j :| 0 <= j < o && all[j].seqNum == n;
        if j == at {
          assert [p][0].session == x && [p][0].seqNum == n;
        } else {
          assert left[if j < at then j else j - 1] == all[j];
        }
      }
    }
  }

  lemma PassedBelow(p: Package, rest: seq<Package>, limit: nat, net: seq<Package>)
    requires p.seqNum < limit
    ensures Below([p] + rest, limit) == [p] + Below(rest, limit)
    ensures AtLeast([p] + rest, limit) == AtLeast(rest, limit)
    ensures net + Below([p] + rest, limit) == net + [p] + Below(rest, limit)
  {
    assert ([p] + rest)[1..] == rest;
  }

  lemma PassedAtLeast(p: Package, rest: seq<Package>, limit: nat, held: seq<Package>)
    requires p.seqNum >= limit
    ensures Below([p] + rest, limit) == Below(rest, limit)
    ensures AtLeast([p] + rest, limit) == [p] + AtLeast(rest, limit)
    ensures held + AtLeast([p] + rest, limit) == held + [p] + AtLeast(rest, limit)
  {
    assert ([p] + rest)[1..] == rest;
  }

  lemma NotHeld(held: seq<Package>, limit: nat, n: int)
    requires (forall q :: q in held ==> q.seqNum >= limit) && n < limit
    ensures !InLine(held, |held|, n)
  {}

  /** The head is sent. */
  lemma HeadSent(x: int, held: seq<Package>, p: Package, rest: seq<Package>, limit: nat, net: seq<Package>)
    requires LowerFirst(net) && Line(x, held + ([p] + rest), net) && forall q :: q in held ==> q.seqNum >= limit
    requires p.seqNum < limit
    ensures LowerFirst(net + [p]) && Line(x, held + rest, net + [p])
  {
    hide LowerFirst, Line, Sent, InLine;
    assert held + ([p] + rest) == held + [p] + rest;
    HeadLeaves(x, held, p, rest, net);
    forall n | 0 <= n < p.seqNum
      ensures Sent(net, x, n)
    {
      NotHeld(held, limit, n);
    }
    OneMoreSent(net, p);
  }

  /** Walking the pending list: `held` has been passed over, `list` is still to come. */
  lemma {:induction false} FlushOrder(x: int, held: seq<Package>, list: seq<Package>, limit: nat, net: seq<Package>)
    requires LowerFirst(net) && Line(x, held + list, net) && forall q :: q in held ==> q.seqNum >= limit
    ensures LowerFirst(net + Below(list, limit))
    ensures Line(x, held + AtLeast(list, limit), net + Below(list, limit))
    decreases |list|
  {
    if list == [] {
      assert net + [] == net;
    } else {
      hide LowerFirst, Line, Below, AtLeast;
      var p, rest := list[0], list[1..];
      assert list == [p] + rest;
      if p.seqNum < limit {
        HeadSent(x, held, p, rest, limit, net);
        FlushOrder(x, held, rest, limit, net + [p]);
        PassedBelow(p, rest, limit, net);
      } else {
        assert held + list == held + [p] + rest;
        FlushOrder(x, held + [p], rest, limit, net);
        PassedAtLeast(p, rest, limit, held);
      }
    }
  }

  lemma FlushCovers(x: int, base: nat, list: seq<Package>, limit: nat, net: seq<Package>)
    requires Covered(x, base, list, net) && forall i :: 0 <= i < |list| ==> list[i].session == x
    ensures Covered(x, base, AtLeast(list, limit), net + Below(list, limit))
  {
    var left, sent := AtLeast(list, limit), Below(list, limit);
    forall n | 0 <= n < base
      ensures Sent(net + sent, x, n) || InLine(left, |left|, n)
    {
      SentMore(net, sent, x, n);
      if !Sent(net, x, n) {
        var j :| 0 <= j < |list| && list[j].seqNum == n;
        BelowMembers(list, limit, list[j]);
        if n < limit {
          var i :| 0 <= i < |sent| && sent[i] == list[j];
        } else {
          var i :| 0 <= i < |left| && left[i] == list[j];
        }
      }
    }
  }

  lemma FlushOne(c: Client, fd: int)
    requires fd in c.socks && OrderInv(c.socks, c.toTroll)
    ensures OrderInv(FlushAt(c, fd).socks, FlushAt(c, fd).toTroll)
  {
    hide LowerFirst, Line, Covered, Sent, Below, AtLeast, MinSeq, Starts, AfterSends;
    var k := c.socks[fd];
    assert [] + k.pending == k.pending;
    FlushOrder(k.session, [], k.pending, Limit(k), c.toTroll);
    assert [] + AtLeast(k.pending, Limit(k)) == AtLeast(k.pending, Limit(k));
    LineSessions(k.session, k.pending, c.toTroll);
    FlushCovers(k.session, k.base, k.pending, Limit(k), c.toTroll);
    var t := FlushAt(c, fd);
    forall f | f in t.socks
      ensures SockOrder(t.socks[f], t.toTroll)
    {
      if f != fd {
        OrderMore(c.socks[f], c.toTroll, ToSend(k));
      }
    }
  }

  lemma LineSessions(x: int, list: seq<Package>, net: seq<Package>)
    requires Line(x, list, net)
    ensures forall i :: 0 <= i < |list| ==> list[i].session == x
  {}

  lemma {:induction false} FlushesOrder(c: Client, order: seq<int>)
    requires OrderInv(c.socks, c.toTroll) && forall i :: 0 <= i < |order| ==> order[i] in c.socks
    ensures OrderInv(FlushInOrder(c, order).socks, FlushInOrder(c, order).toTroll)
  {
    hide OrderInv, FlushAt;
    if order == [] {
    } else {
      FlushesOrder(c, order[..|order| - 1]);
      FlushOne(FlushInOrder(c, order[..|order| - 1]), order[|order| - 1]);
    }
  }

  // ----- The other steps ----------------------------------------------------------------------------

  lemma AcceptOrder(k: Sock, body: Payload, net: seq<Package>)
    requires SockOrder(k, net) && k.base + 1 < WORD
    ensures SockOrder(Accept(k, body), net)
  {
    hide Line, Covered, Sent, InLine;
    CoveredIs(k.session, k.base, k.pending, net);
    Joins(k.session, k.base, k.pending, Package(k.session, k.base, body), net);
  }

  lemma CoveredIs(x: int, base: nat, list: seq<Package>, net: seq<Package>)
    requires Covered(x, base, list, net)
    ensures forall n :: 0 <= n < base ==> Sent(net, x, n) || InLine(list, |list|, n)
  {}

  lemma LowerSent(net: seq<Package>, p: Package, n: int)
    requires LowerFirst(net) && p in net && 0 <= n < p.seqNum
    ensures Sent(net, p.session, n)
  {
    var j :| 0 <= j < |net| && net[j] == p;
    assert Sent(net[..j], p.session, n);
    SentMore(net[..j], net[j..], p.session, n);
    assert net[..j] + net[j..] == net;
  }

  lemma ExpireOrder(k: Sock, id: Id, net: seq<Package>)
    requires SockOrder(k, net) && LowerFirst(net) && forall p :: p in k.packages ==> p in net && p.session == k.session
    ensures SockOrder(Expire(k, id), net)
  {
    hide Line, Covered, LowerFirst, Sent, InLine;
    var i := Position(k.packages, id.session, id.seqNum);
    if i < |k.packages| {
      var q := k.packages[i];
      forall n | 0 <= n < q.seqNum
        ensures Sent(net, k.session, n)
      {
        LowerSent(net, q, n);
      }
      Joins(k.session, k.base, k.pending, q, net);
    }
  }

  lemma FlyingSent(s: System, fd: int)
    requires Inv(s) && fd in s.client.socks
    ensures var k := s.client.socks[fd]; forall p :: p in k.packages ==> p in s.client.toTroll && p.session == k.session
  {
    InvSessions(s);
    hide Inv;
    assert SessionOk(fd, s.client.socks, s.client.toTroll, s.server, s.sent, s.split);
    var k := s.client.socks[fd];
    forall p | p in k.packages
      ensures p in s.client.toTroll && p.session == k.session
    {
      assert p in Buffered(k);
    }
  }

  lemma NoticeOrder(s: System)
    requires Inv(s) && s.notices != [] && OrderInv(s.client.socks, s.client.toTroll)
    ensures var c := ExpireAt(s.client, s.notices[0]); OrderInv(c.socks, c.toTroll)
  {
    hide Inv, LowerFirst, SockOrder, Expire;
    forall fd | fd in s.client.socks
      ensures SockOrder(ExpireAt(s.client, s.notices[0]).socks[fd], s.client.toTroll)
    {
      FlyingSent(s, fd);
      ExpireOrder(s.client.socks[fd], s.notices[0], s.client.toTroll);
    }
  }

  lemma StepOrder(s: System, step: Step)
    requires Inv(s) && Enabled(s, step) && OrderInv(s.client.socks, s.client.toTroll)
    ensures OrderInv(After(s, step).client.socks, After(s, step).client.toTroll)
  {
    hide Inv, LowerFirst, SockOrder, OpenAck, OpenData, FlushInOrder, ExpireAt, Accept, Acknowledge;
    match step {
      case ConnectStep(fd, session, to) => NewOrder(session, s.client.toTroll);
      case SendStep(fd, body) => AcceptOrder(s.client.socks[fd], body, s.client.toTroll);
      case AckStep(fd, datagram, sample) =>
        if OpenAck(datagram).Some? {
          AckOrder(s.client.socks[fd], OpenAck(datagram).value, s.client.toTroll);
        }
      case NoticeStep => NoticeOrder(s);
      case FlushStep(order) => FlushesOrder(s.client, order);
      case _ =>
    }
  }

  lemma NewOrder(x: nat, net: seq<Package>)
    ensures SockOrder(Connect(x), net)
  {}

  lemma AckOrder(k: Sock, a: Ack, net: seq<Package>)
    requires SockOrder(k, net)
    ensures SockOrder(Acknowledge(k, a), net)
  {
    hide Line, Covered, Position, Without;
  }

  lemma {:induction false} RunOrder(states: seq<System>, steps: seq<Step>, i: nat)
    requires IsRun(states, steps) && i < |states|
    ensures OrderInv(states[i].client.socks, states[i].client.toTroll)
  {
    hide Inv, Enabled, After, OrderInv;
    if i == 0 {
      NothingSent(states[0]);
    } else {
      RunOrder(states, steps, i - 1);
      RunInv(states, steps, i - 1);
      StepOrder(states[i - 1], steps[i - 1]);
    }
  }

  lemma NothingSent(s: System)
    requires Init(s)
    ensures OrderInv(s.client.socks, s.client.toTroll)
  {}

  /** In every run the packages of a session go out for the first time in the order in which they
      were accepted: whenever one is sent, each with a lower number has been sent before. */
  lemma FirstSentInOrder(states: seq<System>, steps: seq<Step>, i: nat, j: nat, n: nat)
    requires IsRun(states, steps) && i < |states| && j < |states[i].client.toTroll|
    requires n < states[i].client.toTroll[j].seqNum
    ensures var net := states[i].client.toTroll;
            exists k :: 0 <= k < j && net[k].session == net[j].session && net[k].seqNum == n
  {
    hide IsRun, SockOrder;
    RunOrder(states, steps, i);
    var net := states[i].client.toTroll;
    assert Sent(net[..j], net[j].session, n);
    var k :| 0 <= k < j && net[..j][k].session == net[j].session && net[..j][k].seqNum == n;
    assert net[k] == net[..j][k];
  }

  // ----- The line itself ------------------------------------------------------------------------------

  /** Package p becomes pending on fd: it has just been accepted, or its timer has expired. */
  ghost predicate Enters(s: System, step: Step, fd: int, p: Package) {
    && fd in s.client.socks
    && var k := s.client.socks[fd];
       || (step.SendStep? && step.fd == fd && p == Package(k.session, k.base, step.body))
       || (step.NoticeStep? && s.notices != [] && p in k.packages && IdOf(p) == s.notices[0])
  }

  /** The packages of the list became pending at these times, one after the other. */
  ghost predicate EnteredAt(states: seq<System>, steps: seq<Step>, fd: int, list: seq<Package>, times: seq<nat>, i: nat)
    requires i <= |steps| < |states|
  {
    && |times| == |list| && Increasing(times)
    && forall k :: 0 <= k < |times| ==> times[k] < i && Enters(states[times[k]], steps[times[k]], fd, list[k])
  }

  lemma RestEntered(states: seq<System>, steps: seq<Step>, fd: int, list: seq<Package>, times: seq<nat>, i: nat)
    requires i <= |steps| < |states| && list != [] && EnteredAt(states, steps, fd, list, times, i)
    ensures EnteredAt(states, steps, fd, list[1..], times[1..], i) && forall t :: t in times[1..] ==> times[0] < t
    ensures times[0] < i && Enters(states[times[0]], steps[times[0]], fd, list[0])
  {
    hide Enters;
  }

  lemma EnteredFirst(states: seq<System>, steps: seq<Step>, fd: int, p: Package, t: nat, list: seq<Package>,
                     times: seq<nat>, i: nat)
    requires i <= |steps| < |states| && EnteredAt(states, steps, fd, list, times, i)
    requires t < i && Enters(states[t], steps[t], fd, p) && forall u :: u in times ==> t < u
    ensures EnteredAt(states, steps, fd, [p] + list, [t] + times, i)
  {
    hide Enters;
    forall k | 0 < k < |[t] + times|
      ensures t < ([t] + times)[k]
    {
      assert ([t] + times)[k] in times;
    }
  }

  /** A flush leaves those that it does not send in the order they had, and those that it sends, too. */
  lemma {:induction false} FlushTimes(states: seq<System>, steps: seq<Step>, fd: int, list: seq<Package>, limit: nat,
                                      times: seq<nat>, i: nat) returns (sent: seq<nat>, left: seq<nat>)
    requires i <= |steps| < |states| && EnteredAt(states, steps, fd, list, times, i)
    ensures EnteredAt(states, steps, fd, Below(list, limit), sent, i) && forall t :: t in sent ==> t in times
    ensures EnteredAt(states, steps, fd, AtLeast(list, limit), left, i) && forall t :: t in left ==> t in times
    decreases |list|
  {
    if list == [] {
      sent, left := [], [];
    } else {
      RestEntered(states, steps, fd, list, times, i);
      assert times != [];
      hide EnteredAt, Enters;
      sent, left := FlushTimes(states, steps, fd, list[1..], limit, times[1..], i);
      if list[0].seqNum < limit {
        EnteredFirst(states, steps, fd, list[0], times[0], Below(list[1..], limit), sent, i);
        sent := [times[0]] + sent;
        assert AtLeast(list, limit) == AtLeast(list[1..], limit);
      } else {
        EnteredFirst(states, steps, fd, list[0], times[0], AtLeast(list[1..], limit), left, i);
        left := [times[0]] + left;
        assert Below(list, limit) == Below(list[1..], limit);
      }
    }
  }

  /** Every other step leaves the line alone or adds one package at its end. */
  lemma StepLine(s: System, step: Step, fd: int)
    requires Enabled(s, step) && !step.FlushStep? && fd in s.client.socks
    ensures fd in After(s, step).client.socks
    ensures var list, list' := s.client.socks[fd].pending, After(s, step).client.socks[fd].pending;
            list' == list || (|list'| == |list| + 1 && list'[..|list|] == list && Enters(s, step, fd, list'[|list|]))
  {
    hide OpenAck, OpenData, FlushInOrder, Without;
    match step {
      case NoticeStep => ExpireEnters(s.client.socks[fd], s.notices[0]);
      case _ =>
    }
  }

  lemma ExpireEnters(k: Sock, id: Id)
    ensures Expire(k, id).pending == k.pending ||
            exists p :: p in k.packages && IdOf(p) == id && Expire(k, id).pending == k.pending + [p]
  {
    var i := Position(k.packages, id.session, id.seqNum);
    if i < |k.packages| {
      assert k.packages[i] in k.packages && IdOf(k.packages[i]) == id;
    }
  }

  lemma NewLine(s: System, step: Step, fd: int)
    requires Enabled(s, step) && fd !in s.client.socks && fd in After(s, step).client.socks
    ensures After(s, step).client.socks[fd].pending == []
  {
    hide OpenAck, OpenData;
  }

  lemma FlushLine(s: System, order: seq<int>, fd: int)
    requires Enabled(s, FlushStep(order)) && fd in s.client.socks
    ensures fd in After(s, FlushStep(order)).client.socks
    ensures var k, k' := s.client.socks[fd], After(s, FlushStep(order)).client.socks[fd];
            k'.pending == AtLeast(k.pending, Limit(k))
  {
    hide ToSend, FlushInOrder, AtLeast, Limit;
    FlushInOrderFlushesEach(s.client, order, fd);
  }

  lemma StillEntered(states: seq<System>, steps: seq<Step>, fd: int, list: seq<Package>, times: seq<nat>, i: nat)
    requires i < |steps| < |states| && EnteredAt(states, steps, fd, list, times, i)
    ensures EnteredAt(states, steps, fd, list, times, i + 1)
  {
    hide Enters;
  }

  lemma EnteredLast(states: seq<System>, steps: seq<Step>, fd: int, list: seq<Package>, p: Package, times: seq<nat>,
                    i: nat)
    requires i < |steps| < |states| && EnteredAt(states, steps, fd, list, times, i)
    requires Enters(states[i], steps[i], fd, p)
    ensures EnteredAt(states, steps, fd, list + [p], times + [i], i + 1)
  {
    hide Enters;
  }

  lemma LineStep(states: seq<System>, steps: seq<Step>, i: nat, fd: int, before: seq<nat>) returns (times: seq<nat>)
    requires IsRun(states, steps) && i < |steps| && fd in states[i].client.socks
    requires EnteredAt(states, steps, fd, states[i].client.socks[fd].pending, before, i)
    ensures fd in states[i + 1].client.socks
    ensures EnteredAt(states, steps, fd, states[i + 1].client.socks[fd].pending, times, i + 1)
  {
    hide Enabled, After, Enters, EnteredAt, Init, Below, AtLeast, Limit;
    var s, step := states[i], steps[i];
    var list := s.client.socks[fd].pending;
    if step.FlushStep? {
      var sent, left := FlushTimes(states, steps, fd, list, Limit(s.client.socks[fd]), before, i);
      FlushLine(s, step.order, fd);
      StillEntered(states, steps, fd, AtLeast(list, Limit(s.client.socks[fd])), left, i);
      times := left;
    } else {
      StepLine(s, step, fd);
      var list' := states[i + 1].client.socks[fd].pending;
      if list' == list {
        StillEntered(states, steps, fd, list, before, i);
        times := before;
      } else {
        EnteredLast(states, steps, fd, list, list'[|list|], before, i);
        assert list' == list + [list'[|list|]];
        times := before + [i];
      }
    }
  }

  /** In every run the pending packages of a socket stand in the order in which they became pending,
      by being accepted or by their timers. */
  lemma {:induction false} LineInOrder(states: seq<System>, steps: seq<Step>, i: nat, fd: int) returns (times: seq<nat>)
    requires IsRun(states, steps) && i < |states| && fd in states[i].client.socks
    ensures EnteredAt(states, steps, fd, states[i].client.socks[fd].pending, times, i)
  {
    hide Enabled, After, Enters, Init;
    times := [];
    if i == 0 {
      NoSockets(states[0]);
    } else if fd !in states[i - 1].client.socks {
      NewLine(states[i - 1], steps[i - 1], fd);
    } else {
      hide EnteredAt;
      var before := LineInOrder(states, steps, i - 1, fd);
      times := LineStep(states, steps, i - 1, fd, before);
    }
  }

  lemma NoSockets(s: System)
    requires Init(s)
    ensures s.client.socks == map[]
  {}

  // ----- In flight --------------------------------------------------------------------------------

  /** The packages of the list are those that the network was handed at these places. */
  ghost predicate HandedAt(net: seq<Package>, list: seq<Package>, places: seq<nat>) {
    && |places| == |list| && Increasing(places)
    && forall k :: 0 <= k < |places| ==> places[k] < |net| && net[places[k]] == list[k]
  }

  lemma HandedMore(net: seq<Package>, more: seq<Package>, list: seq<Package>, places: seq<nat>)
    requires HandedAt(net, list, places)
    ensures HandedAt(net + more, list, places)
  {}

  /** What is sent now comes after all that was in flight. */
  lemma HandedNow(net: seq<Package>, list: seq<Package>, places: seq<nat>, sent: seq<Package>) returns (all: seq<nat>)
    requires HandedAt(net, list, places)
    ensures HandedAt(net + sent, list + sent, all)
  {
    var now := seq(|sent|, k requires 0 <= k < |sent| => |net| + k);
    all := places + now;
    forall j, k | 0 <= j < k < |all|
      ensures all[j] < all[k]
    {
      assert j < |places| ==> all[j] == places[j] < |net|;
    }
  }

  function Skip(k: nat, i: nat): nat {
    if k < i then k else k + 1
  }

  lemma HandedWithout(net: seq<Package>, list: seq<Package>, places: seq<nat>, i: nat) returns (left: seq<nat>)
    requires HandedAt(net, list, places)
    ensures HandedAt(net, Without(list, i), left)
  {
    if i >= |list| {
      left := places;
    } else {
      left := places[..i] + places[i + 1..];
      WithoutAt(list, i);
      hide Without;
      assert forall k :: 0 <= k < |left| ==> left[k] == places[Skip(k, i)];
      forall j, k | 0 <= j < k < |left|
        ensures left[j] < left[k]
      {
        assert places[Skip(j, i)] < places[Skip(k, i)];
      }
    }
  }

  lemma WithoutAt(list: seq<Package>, i: nat)
    requires i < |list|
    ensures |Without(list, i)| == |list| - 1
    ensures forall k :: 0 <= k < |list| - 1 ==> Without(list, i)[k] == list[Skip(k, i)]
  {}

  lemma {:induction false} FlushesHand(c: Client, order: seq<int>, fd: int, places: seq<nat>) returns (all: seq<nat>)
    requires (forall i :: 0 <= i < |order| ==> order[i] in c.socks) && fd in c.socks
    requires HandedAt(c.toTroll, c.socks[fd].packages, places)
    ensures var t := FlushInOrder(c, order); HandedAt(t.toTroll, t.socks[fd].packages, all)
  {
    hide HandedAt, ToSend, Starts, AfterSends, AtLeast, Limit;
    if order == [] {
      all := places;
    } else {
      var n := |order| - 1;
      var d := FlushInOrder(c, order[..n]);
      var before := FlushesHand(c, order[..n], fd, places);
      if order[n] == fd {
        all := HandedNow(d.toTroll, d.socks[fd].packages, before, ToSend(d.socks[fd]));
      } else {
        HandedMore(d.toTroll, ToSend(d.socks[order[n]]), d.socks[fd].packages, before);
        all := before;
      }
    }
  }

  lemma StepHands(s: System, step: Step, fd: int, places: seq<nat>) returns (all: seq<nat>)
    requires Enabled(s, step) && fd in s.client.socks
    requires HandedAt(s.client.toTroll, s.client.socks[fd].packages, places)
    ensures fd in After(s, step).client.socks
    ensures var t := After(s, step).client; HandedAt(t.toTroll, t.socks[fd].packages, all)
  {
    hide HandedAt, OpenAck, OpenData, FlushInOrder, Without, Position;
    var k := s.client.socks[fd];
    all := places;
    match step {
      case AckStep(f, datagram, sample) =>
        if f == fd && OpenAck(datagram).Some? {
          var a := OpenAck(datagram).value;
          all := HandedWithout(s.client.toTroll, k.packages, places, Position(k.packages, a.session, a.seqNum));
        }
      case NoticeStep =>
        var id := s.notices[0];
        var i := Position(k.packages, id.session, id.seqNum);
        if k.session == id.session && i < |k.packages| {
          all := HandedWithout(s.client.toTroll, k.packages, places, i);
        }
      case FlushStep(order) => all := FlushesHand(s.client, order, fd, places);
      case _ =>
    }
  }

  lemma NothingInFlight(s: System, step: Step, fd: int)
    requires Enabled(s, step) && fd !in s.client.socks && fd in After(s, step).client.socks
    ensures After(s, step).client.socks[fd].packages == []
  {
    hide OpenAck, OpenData;
  }

  /** In every run the packages in flight stand in the order in which they were sent. */
  lemma {:induction false} FlightInOrder(states: seq<System>, steps: seq<Step>, i: nat, fd: int)
    returns (places: seq<nat>)
    requires IsRun(states, steps) && i < |states| && fd in states[i].client.socks
    ensures HandedAt(states[i].client.toTroll, states[i].client.socks[fd].packages, places)
  {
    hide Enabled, After, Init;
    places := [];
    if i == 0 {
      NoSockets(states[0]);
    } else if fd !in states[i - 1].client.socks {
      NothingInFlight(states[i - 1], steps[i - 1], fd);
    } else {
      hide HandedAt;
      var before := FlightInOrder(states, steps, i - 1, fd);
      places := StepHands(states[i - 1], steps[i - 1], fd, before);
    }
  }

  // ----- Requests to the timer ------------------------------------------------------------------------

  function IdsOf(list: seq<Package>): seq<Id> {
    seq(|list|, i requires 0 <= i < |list| => IdOf(list[i]))
  }

  function StartIds(requests: seq<Request>): seq<Id> {
    if requests == [] then
      []
    else
      StartIds(requests[..|requests| - 1]) +
      match requests[|requests| - 1] case Start(id, _) => [id] case Cancel(_) => []
  }

  function CancelIds(requests: seq<Request>): seq<Id> {
    if requests == [] then
      []
    else
      CancelIds(requests[..|requests| - 1]) +
      match requests[|requests| - 1] case Start(_, _) => [] case Cancel(id) => [id]
  }

  /** The packages acknowledged by the intact acknowledgements that have arrived. */
  ghost function Acknowledged(states: seq<System>, steps: seq<Step>, i: nat): seq<Id>
    requires i <= |steps| < |states|
  {
    if i == 0 then
      []
    else
      Acknowledged(states, steps, i - 1) + AcknowledgedBy(steps[i - 1])
  }

  function AcknowledgedBy(step: Step): seq<Id> {
    match step
    case AckStep(_, datagram, _) =>
      (match OpenAck(datagram) case None => [] case Some(a) => [Id(a.session, a.seqNum)])
    case _ => []
  }

  lemma {:induction false} RequestsConcat(a: seq<Request>, b: seq<Request>)
    ensures StartIds(a + b) == StartIds(a) + StartIds(b) && CancelIds(a + b) == CancelIds(a) + CancelIds(b)
    decreases |b|
  {
    if b == [] {
      assert a + b == a;
    } else {
      var n := |b| - 1;
      assert (a + b)[..|a + b| - 1] == a + b[..n];
      RequestsConcat(a, b[..n]);
    }
  }

  lemma {:induction false} StartsNames(sent: seq<Package>, e: Estimator)
    ensures StartIds(Starts(sent, e)) == IdsOf(sent) && CancelIds(Starts(sent, e)) == []
    decreases |sent|
  {
    hide Rto, AfterSend;
    if sent == [] {
    } else {
      StartsNames(sent[1..], AfterSend(e));
      RequestsConcat([Start(IdOf(sent[0]), Rto(e))], Starts(sent[1..], AfterSend(e)));
      assert IdsOf(sent) == [IdOf(sent[0])] + IdsOf(sent[1..]);
    }
  }

  ghost predicate Agree(c: Client, acked: seq<Id>) {
    StartIds(c.toTimer) == IdsOf(c.toTroll) && CancelIds(c.toTimer) == acked
  }

  lemma FlushAgrees(c: Client, fd: int, acked: seq<Id>)
    requires fd in c.socks && Agree(c, acked)
    ensures Agree(FlushAt(c, fd), acked)
  {
    hide ToSend, Starts, AfterSends, Flush;
    var sent := ToSend(c.socks[fd]);
    StartsNames(sent, c.estimator);
    RequestsConcat(c.toTimer, Starts(sent, c.estimator));
    assert IdsOf(c.toTroll + sent) == IdsOf(c.toTroll) + IdsOf(sent);
  }

  lemma {:induction false} FlushesAgree(c: Client, order: seq<int>, acked: seq<Id>)
    requires Agree(c, acked) && forall i :: 0 <= i < |order| ==> order[i] in c.socks
    ensures Agree(FlushInOrder(c, order), acked)
  {
    hide Agree, FlushAt;
    if order == [] {
    } else {
      FlushesAgree(c, order[..|order| - 1], acked);
      FlushAgrees(FlushInOrder(c, order[..|order| - 1]), order[|order| - 1], acked);
    }
  }

  lemma StepAgrees(s: System, step: Step, acked: seq<Id>)
    requires Enabled(s, step) && Agree(s.client, acked)
    ensures Agree(After(s, step).client, acked + AcknowledgedBy(step))
  {
    hide OpenAck, OpenData, FlushInOrder, StartIds, CancelIds, IdsOf, Acknowledge, Sample;
    assert acked + [] == acked;
    match step {
      case AckStep(fd, datagram, sample) =>
        if OpenAck(datagram).Some? {
          var a := OpenAck(datagram).value;
          RequestsConcat(s.client.toTimer, [Cancel(Id(a.session, a.seqNum))]);
          OneCancel(Id(a.session, a.seqNum));
          assert IdsOf(s.client.toTroll) + [] == IdsOf(s.client.toTroll);
        }
      case FlushStep(order) => FlushesAgree(s.client, order, acked);
      case _ =>
    }
  }

  lemma OneCancel(id: Id)
    ensures StartIds([Cancel(id)]) == [] && CancelIds([Cancel(id)]) == [id]
  {
    assert [Cancel(id)][..0] == [];
  }

  /** In every run the timer is asked to start once for each transmission, in the order of the
      transmissions, and to cancel once for each intact acknowledgement, in their order. */
  lemma {:induction false} TimerIsTold(states: seq<System>, steps: seq<Step>, i: nat)
    requires IsRun(states, steps) && i < |states|
    ensures StartIds(states[i].client.toTimer) == IdsOf(states[i].client.toTroll)
    ensures CancelIds(states[i].client.toTimer) == Acknowledged(states, steps, i)
  {
    hide Enabled, After, AcknowledgedBy, StartIds, CancelIds, IdsOf;
    if i == 0 {
      NothingTold(states[0]);
    } else {
      TimerIsTold(states, steps, i - 1);
      StepAgrees(states[i - 1], steps[i - 1], Acknowledged(states, steps, i - 1));
    }
  }

  lemma NothingTold(s: System)
    requires Init(s)
    ensures Agree(s.client, [])
  {}

  // ----- Acknowledgements -----------------------------------------------------------------------------

  /** The packages of the intact datagrams that have arrived. */
  ghost function Arrived(steps: seq<Step>, i: nat): seq<Ack>
    requires i <= |steps|
  {
    if i == 0 then [] else Arrived(steps, i - 1) + ArrivedBy(steps[i - 1])
  }

  function ArrivedBy(step: Step): seq<Ack> {
    match step
    case DataStep(_, datagram) =>
      (match OpenData(datagram) case None => [] case Some(p) => [Ack(p.session, p.seqNum)])
    case _ => []
  }

  lemma StepAcks(s: System, step: Step)
    requires Enabled(s, step)
    ensures After(s, step).server.acks == s.server.acks + ArrivedBy(step)
  {
    hide OpenData, OpenAck, Place, FindWaiting, AcceptBack, Drain, Oversized, IsBound;
    match step {
      case AcceptStep => AcceptAcks(s.server, |s.server.bound|);
      case _ =>
    }
  }

  /** In every run each intact package that arrives is acknowledged, every time that it arrives. */
  lemma {:induction false} EveryArrivalAcknowledged(states: seq<System>, steps: seq<Step>, i: nat)
    requires IsRun(states, steps) && i < |states|
    ensures states[i].server.acks == Arrived(steps, i)
  {
    hide Enabled, After, ArrivedBy;
    if i == 0 {
      NothingArrived(states[0]);
    } else {
      EveryArrivalAcknowledged(states, steps, i - 1);
      StepAcks(states[i - 1], steps[i - 1]);
    }
  }

  lemma NothingArrived(s: System)
    requires Init(s)
    ensures s.server.acks == []
  {}
}
