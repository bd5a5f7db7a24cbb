/** Whatever the network has done so far, everything accepted can still arrive, if and only if no
    session has used up the numbers that can be sent. */
module Completion {
  import opened Crc32
  import opened CStrings
  import opened Wire
  import opened Sender
  import opened Receiver
  import opened ServerTables
  import opened Conversation
  import opened Protocol
  import opened Bindings
  import opened Buffering
  import opened Tokens
  import opened Reliability
  import opened Retransmission
  import opened Paths
  import opened Sentinel

  // ----- What quiet steps leave alone ------------------------------------------------------------

  /** The same sockets, with the same packages buffered, if not in the same lists. */
  ghost predicate SameBuffers(s: System, t: System) {
    && t.target == s.target
    && t.client.inBuffer == s.client.inBuffer
    && t.client.socks.Keys == s.client.socks.Keys
    && forall fd :: fd in s.client.socks ==>
         && t.client.socks[fd].session == s.client.socks[fd].session
         && t.client.socks[fd].base == s.client.socks[fd].base
         && Buffered(t.client.socks[fd]) == Buffered(s.client.socks[fd])
  }

  lemma NoticeBuffers(s: System)
    requires s.notices != []
    ensures SameBuffers(s, After(s, NoticeStep))
  {
    hide Expire, Buffered;
    var id := s.notices[0];
    forall fd | fd in s.client.socks
      ensures Buffered(Expire(s.client.socks[fd], id)) == Buffered(s.client.socks[fd])
      ensures Expire(s.client.socks[fd], id).base == s.client.socks[fd].base
      ensures Expire(s.client.socks[fd], id).session == s.client.socks[fd].session
    {
      ExpireBuffered(s.client.socks[fd], id);
      ExpireNames(s.client.socks[fd], id);
    }
  }

  lemma FlushBuffers(s: System, order: seq<int>)
    requires Enabled(s, FlushStep(order))
    ensures SameBuffers(s, After(s, FlushStep(order)))
  {
    hide Buffered, ToSend, Limit;
    forall fd | fd in s.client.socks
      ensures FlushInOrder(s.client, order).socks[fd] == Flush(s.client.socks[fd])
      ensures FlushInOrder(s.client, order).inBuffer == s.client.inBuffer
      ensures Buffered(Flush(s.client.socks[fd])) == Buffered(s.client.socks[fd])
    {
      FlushInOrderFlushesEach(s.client, order, fd);
      FlushBuffered(s.client.socks[fd]);
    }
    FlushKeepsCount(s.client, order);
  }

  lemma {:induction false} FlushKeepsCount(c: Client, order: seq<int>)
    requires forall i :: 0 <= i < |order| ==> order[i] in c.socks
    ensures FlushInOrder(c, order).inBuffer == c.inBuffer
  {
    if order == [] {
    } else {
      FlushKeepsCount(c, order[..|order| - 1]);
    }
  }

  lemma QuietBuffers(s: System, step: Step)
    requires Quiet(step) && Enabled(s, step)
    ensures SameBuffers(s, After(s, step))
  {
    if step.NoticeStep? {
      NoticeBuffers(s);
    } else if step.FlushStep? {
      FlushBuffers(s, step.order);
    }
  }

  lemma {:induction false} QuietPathBuffers(s: System, steps: seq<Step>, t: System)
    requires Path(s, steps, t, TimerOnly)
    ensures SameBuffers(s, t) && t.server == s.server
    decreases |steps|
  {
    hide Enabled, After, Buffered, Obeys;
    if steps == [] {
    } else {
      QuietBuffers(s, steps[0]);
      QuietServer(s, steps[0]);
      QuietPathBuffers(After(s, steps[0]), steps[1..], t);
    }
  }

  lemma QuietServer(s: System, step: Step)
    requires Quiet(step) && Enabled(s, step)
    ensures After(s, step).server == s.server
  {}

  lemma QuietGoes(s: System, steps: seq<Step>, t: System)
    requires Goes(s, steps, t, TimerOnly)
    ensures Goes(s, steps, t, NoCalls) && SameBuffers(s, t) && t.server == s.server
  {
    hide Path, Orderly, SameBuffers;
    PathRelaxed(s, steps, t, TimerOnly, NoCalls);
    QuietPathBuffers(s, steps, t);
  }

  // ----- One package less ------------------------------------------------------------------------

  lemma InFlightFits(s: System, fd: int, p: Package)
    requires Inv(s) && fd in s.client.socks && p in s.client.socks[fd].packages
    ensures p in s.client.toTroll && p.session == s.client.socks[fd].session && Fits32(p)
  {
    hide Counted, TokensInv, RecordsBound;
    assert SessionOk(fd, s.client.socks, s.client.toTroll, s.server, s.sent, s.split);
    assert p in Buffered(s.client.socks[fd]);
    NetworkFits(s, p);
  }

  /** The bytes of an intact copy of a package. */
  function Copy(p: Package): Datagram
    requires Fits32(p)
  {
    Seal(DataBytes(p, Zeros(4), Zeros(BUF_LEN - |p.body|)))
  }

  /** A copy is delivered, and the receiver ends its turn. */
  lemma Delivered(s: System, fd: int, p: Package) returns (steps: seq<Step>, t: System)
    requires Inv(s) && Alive(s.server) && IsBound(s.server, fd) && p in s.client.toTroll && Fits32(p)
    requires AddressedTo(s, p.session, fd)
    ensures Goes(s, steps, t, NoCalls) && Inv(t) && Alive(t.server) && SameTargets(s, t)
    ensures t.client == s.client && Ack(p.session, p.seqNum) in t.server.acks
  {
    hide Inv, Alive, Enabled, After, Obeys, Path, Copy, IsBound, SameTargets, RecordsBound;
    var a := DataStep(fd, Copy(p));
    CopyArrives(s, fd, p);
    OneStep(s, a, NoCalls);
    StepInv(s, a);
    InvBound(s);
    QuietAlive(s, a);
    StepTargets(s, a);
    var u := After(s, a);
    AcceptGoesOn(u);
    OneStep(u, AcceptStep, NoCalls);
    PathConcat(s, [a], u, [AcceptStep], After(u, AcceptStep), NoCalls);
    StepInv(u, AcceptStep);
    InvBound(u);
    QuietAlive(u, AcceptStep);
    StepTargets(u, AcceptStep);
    var v := After(u, AcceptStep);
    DrainGoesOn(v);
    PathThen(s, [a] + [AcceptStep], v, DrainStep, NoCalls);
    StepInv(v, DrainStep);
    InvBound(v);
    QuietAlive(v, DrainStep);
    StepTargets(v, DrainStep);
    SameTargetsThen(s, u, v);
    SameTargetsThen(s, v, After(v, DrainStep));
    steps, t := [a] + [AcceptStep] + [DrainStep], After(v, DrainStep);
    assert steps == [a, AcceptStep, DrainStep] && steps[3..] == [] && Orderly([]);
    assert ReceiverTurn(steps);
  }

  lemma InvBound(s: System)
    requires Inv(s)
    ensures RecordsBound(s.server)
  {}

  lemma CopyArrives(s: System, fd: int, p: Package)
    requires IsBound(s.server, fd) && AddressedTo(s, p.session, fd) && p in s.client.toTroll && Fits32(p)
    ensures var step := DataStep(fd, Copy(p));
            && Enabled(s, step)
            && After(s, step).client == s.client
            && Ack(p.session, p.seqNum) in After(s, step).server.acks
  {
    hide OpenData, DataBytes, Place, IsBound;
    DataRoundTrip(p, Zeros(4), Zeros(BUF_LEN - |p.body|));
  }

  lemma AcceptGoesOn(s: System)
    ensures Enabled(s, AcceptStep) && After(s, AcceptStep).client == s.client
    ensures After(s, AcceptStep).server.acks == s.server.acks
  {
    AcceptAcks(s.server, |s.server.bound|);
  }

  lemma DrainGoesOn(s: System)
    requires Alive(s.server)
    ensures Enabled(s, DrainStep) && After(s, DrainStep).client == s.client
    ensures After(s, DrainStep).server.acks == s.server.acks
  {
    hide Oversized;
  }

  lemma AckTakesOne(s: System, fd: int, p: Package)
    requires fd in s.client.socks && p in s.client.socks[fd].packages && p.session == s.client.socks[fd].session
    requires Fits32(p) && Ack(p.session, p.seqNum) in s.server.acks
    ensures var step := AckStep(fd, Seal(AckBytes(Ack(p.session, p.seqNum))), 0.0);
            && Enabled(s, step)
            && var t := After(s, step);
               && t.server == s.server
               && t.client.inBuffer < s.client.inBuffer
               && SameBases(s, t)
  {
    hide OpenAck, AckBytes, Sample, BitSerial;
    var a := Ack(p.session, p.seqNum);
    AckRoundTrip(a);
    var k := s.client.socks[fd];
    var j :| 0 <= j < |k.packages| && k.packages[j] == p;
    assert Matches(k.packages[j], a.session, a.seqNum);
    assert Position(k.packages, a.session, a.seqNum) < |k.packages|;
  }

  /** The same sockets, and nothing more accepted. */
  ghost predicate SameBases(s: System, t: System) {
    && SameTargets(s, t)
    && t.client.socks.Keys == s.client.socks.Keys
    && forall f :: f in s.client.socks ==>
         t.client.socks[f].base == s.client.socks[f].base && t.client.socks[f].session == s.client.socks[f].session
  }

  /** The acknowledgement gets back, and the sender ends its turn. */
  lemma Acknowledged(s: System, fd: int, p: Package) returns (steps: seq<Step>, t: System)
    requires Inv(s) && fd in s.client.socks && p in s.client.socks[fd].packages
    requires Ack(p.session, p.seqNum) in s.server.acks
    ensures Goes(s, steps, t, NoCalls) && Inv(t) && t.server == s.server
    ensures t.client.inBuffer < s.client.inBuffer && SameBases(s, t)
  {
    hide Inv, Enabled, After, Obeys, Path, SameBases, SameBuffers, AckBytes, IsOrder;
    InFlightFits(s, fd, p);
    AckTakesOne(s, fd, p);
    var ack := AckStep(fd, Seal(AckBytes(Ack(p.session, p.seqNum))), 0.0);
    OneStep(s, ack, NoCalls);
    StepInv(s, ack);
    var u := After(s, ack);
    var order := OrderExists(u.client.socks.Keys);
    FlushIs(u, order);
    FlushBuffers(u, order);
    QuietServer(u, FlushStep(order));
    PathThen(s, [ack], u, FlushStep(order), NoCalls);
    StepInv(u, FlushStep(order));
    steps, t := [ack] + [FlushStep(order)], After(u, FlushStep(order));
    SameBuffersBases(u, t);
    SameBasesThen(s, u, t);
    assert steps[2..] == [] && Orderly([]);
  }

  lemma SameBuffersBases(s: System, t: System)
    requires SameBuffers(s, t) && t.server == s.server
    ensures t.client.inBuffer == s.client.inBuffer && SameBases(s, t)
  {
    hide Buffered;
  }

  lemma SameBasesThen(s: System, t: System, u: System)
    requires SameBases(s, t) && SameBases(t, u)
    ensures SameBases(s, u)
  {
    hide SameTargets;
    SameTargetsThen(s, t, u);
  }

  /** A package in flight is delivered and acknowledged. */
  lemma DeliverOne(s: System, fd: int, p: Package) returns (steps: seq<Step>, t: System)
    requires Inv(s) && Alive(s.server) && Reachable(s) && fd in s.client.socks && p in s.client.socks[fd].packages
    ensures Goes(s, steps, t, NoCalls) && Inv(t) && Alive(t.server)
    ensures t.client.inBuffer < s.client.inBuffer && SameBases(s, t)
  {
    hide Inv, Goes, SameBases, SameTargets, IsBound, Oversized;
    InFlightFits(s, fd, p);
    assert Arrives(s, p.session);
    var a, u := Delivered(s, s.target[p.session], p);
    var b, v := Acknowledged(u, fd, p);
    GoesConcat(s, a, u, b, v, NoCalls);
    SameClientBases(s, u);
    SameBasesThen(s, u, v);
    steps, t := a + b, v;
  }

  lemma SameClientBases(s: System, t: System)
    requires t.client == s.client && SameTargets(s, t)
    ensures SameBases(s, t)
  {}

  // ----- All of them -----------------------------------------------------------------------------

  lemma {:induction false} LowestExists(s: Sock, list: multiset<Package>, p: Package) returns (m: Package)
    requires list <= Buffered(s) && p in Buffered(s)
    requires forall q :: q in Buffered(s) && q !in list ==> p.seqNum <= q.seqNum
    ensures Lowest(s, m)
    decreases |list|
  {
    if q :| q in list {
      var least := if q.seqNum < p.seqNum then q else p;
      m := LowestExists(s, list[q := 0], least);
    } else {
      m := p;
    }
  }

  lemma SomethingBuffered(c: Client) returns (fd: int, p: Package)
    requires Counted(c) && c.inBuffer > 0
    ensures fd in c.socks && Lowest(c.socks[fd], p)
  {
    fd := NonEmpty(c.socks);
    SizeIsCardinality(c.socks[fd]);
    var q :| q in Buffered(c.socks[fd]);
    p := LowestExists(c.socks[fd], Buffered(c.socks[fd]), q);
  }

  lemma {:induction false} NonEmpty(socks: map<int, Sock>) returns (fd: int)
    requires Sum(socks) > 0
    ensures fd in socks && Size(socks[fd]) > 0
    decreases |socks|
  {
    var f :| f in socks;
    SumTakes(socks, f);
    if Size(socks[f]) > 0 {
      fd := f;
    } else {
      fd := NonEmpty(socks - {f});
    }
  }

  /** No session has used up the numbers that can be sent. */
  ghost predicate BelowSentinel(s: System) {
    forall fd :: fd in s.client.socks ==> s.client.socks[fd].base <= LIMIT
  }

  lemma LowestBelow(s: System, fd: int, p: Package)
    requires Inv(s) && BelowSentinel(s) && fd in s.client.socks && Lowest(s.client.socks[fd], p)
    ensures p.seqNum < LIMIT
  {
    hide Counted, TokensInv, RecordsBound;
    assert SessionOk(fd, s.client.socks, s.client.toTroll, s.server, s.sent, s.split);
  }

  lemma InvCounted(s: System)
    requires Inv(s)
    ensures Counted(s.client)
  {}

  lemma BelowStays(s: System, t: System)
    requires BelowSentinel(s) && SameBases(s, t)
    ensures BelowSentinel(t)
  {
    hide SameTargets;
  }

  lemma ReachableStays(s: System, t: System)
    requires Reachable(s) && SameBases(s, t)
    ensures Reachable(t)
  {
    hide SameTargets, Reachable;
    StaysReachable(s, t);
  }

  lemma {:induction false} Finish(s: System) returns (steps: seq<Step>, t: System)
    requires Inv(s) && Alive(s.server) && Reachable(s) && BelowSentinel(s)
    ensures Goes(s, steps, t, NoCalls) && Inv(t) && Alive(t.server)
    ensures t.client.inBuffer == 0 && SameBases(s, t)
    decreases s.client.inBuffer
  {
    hide Inv, Counted, Goes, Lowest, SameBuffers, SameBases, Transmissions, Alive, BelowSentinel, Reachable;
    InvCounted(s);
    NothingBuffered(s.client);
    if s.client.inBuffer == 0 {
      GoesNowhere(s, NoCalls);
      SameAsItself(s);
      steps, t := [], s;
    } else {
      var fd, p := SomethingBuffered(s.client);
      LowestBelow(s, fd, p);
      var a, u := SendAgain(s, fd, p);
      QuietGoes(s, a, u);
      GoesInv(s, a, u, TimerOnly);
      SameBuffersBases(s, u);
      ReachableStays(s, u);
      var b, v := DeliverOne(u, fd, p);
      SameBasesThen(s, u, v);
      BelowStays(s, v);
      ReachableStays(s, v);
      var c, w := Finish(v);
      GoesConcat(u, b, v, c, w, NoCalls);
      GoesConcat(s, a, u, b + c, w, NoCalls);
      SameBasesThen(s, v, w);
      steps, t := a + (b + c), w;
    }
  }

  lemma SameAsItself(s: System)
    ensures SameBases(s, s)
  {}

  lemma NothingBuffered(c: Client)
    requires Counted(c)
    ensures c.inBuffer >= 0
    ensures c.inBuffer == 0 ==> forall fd :: fd in c.socks ==> Size(c.socks[fd]) == 0
  {
    if c.inBuffer == 0 {
      forall fd | fd in c.socks
        ensures Size(c.socks[fd]) == 0
      {
        SumTakes(c.socks, fd);
      }
    }
  }

  lemma EmptyMeansArrived(s: System, fd: int, n: nat)
    requires Inv(s) && s.client.inBuffer == 0 && fd in s.client.socks && n < s.client.socks[fd].base
    ensures GotIt(RecordOf(s, fd), n)
  {
    InvCounted(s);
    NothingBuffered(s.client);
    assert Size(s.client.socks[fd]) == 0;
    hide Counted, TokensInv, RecordsBound;
    assert SessionOk(fd, s.client.socks, s.client.toTroll, s.server, s.sent, s.split);
    assert Buffered(s.client.socks[fd]) == multiset{};
  }

  /** In t nothing is buffered, and the receiver has everything that had been accepted in s. */
  ghost predicate Completes(s: System, t: System) {
    && t.client.inBuffer == 0
    && forall fd, n: nat :: fd in s.client.socks && n < s.client.socks[fd].base ==>
         fd in t.client.socks && GotIt(RecordOf(t, fd), n)
  }

  lemma FinishCompletes(s: System) returns (steps: seq<Step>, t: System)
    requires Inv(s) && Alive(s.server) && Reachable(s) && BelowSentinel(s)
    ensures Goes(s, steps, t, NoCalls) && Completes(s, t)
  {
    hide Inv, Alive, BelowSentinel, Reachable, Goes, GotIt, RecordOf;
    steps, t := Finish(s);
    forall fd, n: nat | fd in s.client.socks && n < s.client.socks[fd].base
      ensures fd in t.client.socks && GotIt(RecordOf(t, fd), n)
    {
      EmptyMeansArrived(t, fd, n);
    }
  }

  /** Past the sentinel no continuation completes, whatever anybody does. */
  lemma NeverCompletes(states: seq<System>, run: seq<Step>, i: nat, steps: seq<Step>, t: System)
    requires IsRun(states, run) && i < |states| && !BelowSentinel(states[i]) && Path(states[i], steps, t, Anything)
    ensures !Completes(states[i], t)
  {
    hide IsRun, Path, GotIt, RecordOf;
    var fd :| fd in states[i].client.socks && states[i].client.socks[fd].base > LIMIT;
    PathGrows(states[i], steps, t, Anything);
    var states' := Extended(states, run, i, steps, t, Anything);
    assert |states'| == i + |steps| + 1;
    NeverReceived(states', run[..i] + steps, i + |steps|, fd);
  }

  /** In every run with a receiving daemon that reads, and on whose bound sockets every session
      arrives, some continuation ends with nothing buffered
      and everything received, if and only if no session has accepted more payloads than can be
      sent; such a continuation needs no call by any process and keeps to the main loops. */
  lemma EverythingCanArrive(states: seq<System>, run: seq<Step>, i: nat)
    requires IsRun(states, run) && i < |states| && Alive(states[i].server) && Reachable(states[i])
    ensures BelowSentinel(states[i]) <==>
              exists steps, t :: Goes(states[i], steps, t, NoCalls) && Completes(states[i], t)
    ensures BelowSentinel(states[i]) <==>
              exists steps, t :: Path(states[i], steps, t, Anything) && Completes(states[i], t)
  {
    hide IsRun, BelowSentinel, Path, Orderly, Inv, Alive, Reachable, Completes;
    var s := states[i];
    RunInv(states, run, i);
    if BelowSentinel(s) {
      var steps, t := FinishCompletes(s);
      PathRelaxed(s, steps, t, NoCalls, Anything);
      assert Goes(s, steps, t, NoCalls) && Completes(s, t);
      assert Path(s, steps, t, Anything) && Completes(s, t);
    } else {
      forall steps, t | Path(s, steps, t, Anything)
        ensures !Completes(s, t)
      {
        NeverCompletes(states, run, i, steps, t);
      }
      forall steps, t | Path(s, steps, t, NoCalls)
        ensures !Completes(s, t)
      {
        PathRelaxed(s, steps, t, NoCalls, Anything);
      }
    }
  }

  // ----- The beginning of a run ------------------------------------------------------------------

  lemma StartRuns()
    ensures IsRun([StartState()], [])
  {}

  /** The state after one socket has been bound. */
  ghost function BoundState(): System {
    StartState().(server := Server([Bound(3, false)], [], map[], []))
  }

  lemma TurnOfBound()
    ensures Enabled(StartState(), BindStep(3)) && After(StartState(), BindStep(3)) == BoundState()
    ensures Enabled(BoundState(), AcceptStep) && After(BoundState(), AcceptStep) == BoundState()
    ensures Enabled(BoundState(), DrainStep) && After(BoundState(), DrainStep) == BoundState()
  {
    var s := BoundState().server;
    assert AcceptBack(s, 0) == s;
    assert AcceptBack(s, 1) == s;
  }

  /** A socket is bound, and the receiving daemon ends its turn. */
  lemma BoundFirst(rules: Rules) returns (steps: seq<Step>, t: System)
    requires rules.Anything? || rules.Programs?
    ensures Goes(StartState(), steps, t, rules) && t == BoundState()
  {
    hide Path, Enabled, After, BoundState;
    var s := StartState();
    t := BoundState();
    TurnOfBound();
    OneStep(s, BindStep(3), rules);
    PathThen(s, [BindStep(3)], t, AcceptStep, rules);
    PathThen(s, [BindStep(3)] + [AcceptStep], t, DrainStep, rules);
    steps := [BindStep(3)] + [AcceptStep] + [DrainStep];
    assert steps == [BindStep(3), AcceptStep, DrainStep] && steps[3..] == [] && Orderly([]);
    assert ReceiverTurn(steps);
  }
}
