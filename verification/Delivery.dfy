/** A file transfer over infinite runs: when loops and network are fair and both programs keep
    calling, the server has the file in the end. */
module Delivery {
  import opened Options
  import opened Bytes
  import opened Wire
  import opened Sender
  import opened Receiver
  import opened ServerTables
  import opened Conversation
  import opened Protocol
  import opened Bindings
  import opened Buffering
  import opened Reliability
  import opened Retransmission
  import opened Framing
  import opened Paths
  import opened Sentinel
  import opened Completion
  import opened Alignment
  import opened FileTransfer
  import opened TransferRun
  import opened Progress
  import opened Liveness
  import opened Fairness

  // ----- What a step does to a session that waits ------------------------------------------------

  /** Session x has a record, and nobody has accepted it yet. */
  predicate Waiting(s: Server, x: int) {
    x !in s.accepted && Waits(s, x)
  }

  function PlaceOf(s: Server, x: int): nat {
    FindWaiting(s.waiting, x)
  }

  /** The socket it waits on. */
  function WaitsOn(s: Server, x: int): int
    requires Waits(s, x)
  {
    s.waiting[FindWaiting(s.waiting, x)].socketFd
  }

  ghost predicate Different(waiting: seq<Session>) {
    forall i, j :: 0 <= i < j < |waiting| ==> waiting[i].session != waiting[j].session
  }

  /** Whoever is taken out, a session that is left moves forward, and does so if its own socket
      has taken somebody. */
  lemma {:induction false} LeftPlace(waiting: seq<Session>, takers: multiset<int>, x: int)
    requires Different(waiting) && FindWaiting(waiting, x) < |waiting|
    requires FindWaiting(Left(waiting, takers), x) < |Left(waiting, takers)|
    ensures var i, j := FindWaiting(waiting, x), FindWaiting(Left(waiting, takers), x);
            && Left(waiting, takers)[j] == waiting[i]
            && j <= i && (waiting[i].socketFd in takers ==> j < i)
    decreases |waiting|
  {
    var rest := waiting[1..];
    assert forall i :: 0 <= i < |rest| ==> rest[i] == waiting[i + 1];
    if waiting[0].socketFd in takers {
      var left := Left(rest, takers - multiset{waiting[0].socketFd});
      var j := FindWaiting(left, x);
      assert left[j] in rest;
      assert waiting[0].session != x;
      LeftPlace(rest, takers - multiset{waiting[0].socketFd}, x);
    } else if waiting[0].session != x {
      var left := Left(rest, takers);
      assert Left(waiting, takers)[1..] == left;
      assert FindWaiting(Left(waiting, takers), x) == 1 + FindWaiting(left, x);
      LeftPlace(rest, takers, x);
    }
  }

  lemma TablesDifferent(s: Server)
    requires OneRecord(s)
    ensures Different(s.waiting)
  {}

  lemma {:induction false} CalledAccepts(bound: seq<Bound>, n: nat, fd: int)
    requires n == |bound| && exists k :: 0 <= k < |bound| && bound[k].fd == fd && bound[k].accepting
    ensures fd in Accepting(bound, n)
  {
    var k :| 0 <= k < |bound| && bound[k].fd == fd && bound[k].accepting;
    AcceptingHas(bound, n, k);
  }

  /** The turn's accepts bring a waiting session forward, at least if ACCEPT has been called on its
      socket. */
  lemma AcceptsAdvance(s: Server, x: int)
    requires OneRecord(s) && Waiting(s, x)
    ensures var s' := AcceptBack(s, |s.bound|);
            && (x in s'.accepted || Waiting(s', x))
            && (Waiting(s', x) ==> WaitsOn(s', x) == WaitsOn(s, x) && PlaceOf(s', x) <= PlaceOf(s, x))
            && (Waiting(s', x) && Called(s, WaitsOn(s, x)) ==> PlaceOf(s', x) < PlaceOf(s, x))
  {
    hide AcceptBack, Left;
    AcceptBackMoves(s, x);
    TablesDifferent(s);
    hide OneRecord;
    var s' := AcceptBack(s, |s.bound|);
    if Waits(s', x) {
      LeftPlace(s.waiting, Accepting(s.bound, |s.bound|), x);
    }
    if Called(s, WaitsOn(s, x)) {
      CalledAccepts(s.bound, |s.bound|, WaitsOn(s, x));
    }
  }

  lemma DataKeepsPlace(s: Server, fd: int, datagram: Datagram, x: int)
    requires OneRecord(s) && Waiting(s, x)
    ensures var s' := RecvDataAt(s, fd, datagram);
            Waiting(s', x) && WaitsOn(s', x) == WaitsOn(s, x) && PlaceOf(s', x) == PlaceOf(s, x) && s'.bound == s.bound
  {
    hide OpenData, Receiver.Place;
    if OpenData(datagram).Some? {
      var p := OpenData(datagram).value;
      var i := FindWaiting(s.waiting, p.session);
      if p.session !in s.accepted {
        if i < |s.waiting| {
          PlaceKeepsSession(s.waiting[i], p);
          PlaceFd(s.waiting[i], p);
          FindUpdated(s.waiting, i, Receiver.Place(s.waiting[i], p), x);
        } else {
          FindAppended(s.waiting, Receiver.Place(NewSession(fd, p.session), p), x);
        }
      }
    }
  }

  /** No step takes a waiting session back, or a call of ACCEPT, except the accepts themselves. */
  lemma StepWaits(s: System, step: Step, x: int)
    requires OneRecord(s.server) && Enabled(s, step) && Waiting(s.server, x)
    ensures var t := After(s, step).server;
            && (x in t.accepted || Waiting(t, x))
            && (Waiting(t, x) ==> WaitsOn(t, x) == WaitsOn(s.server, x) && PlaceOf(t, x) <= PlaceOf(s.server, x))
            && (!step.AcceptStep? && Called(s.server, WaitsOn(s.server, x)) ==> Called(t, WaitsOn(s.server, x)))
            && (step.AcceptStep? && Called(s.server, WaitsOn(s.server, x)) && Waiting(t, x) ==>
                  PlaceOf(t, x) < PlaceOf(s.server, x))
            && (step.AcceptCallStep? ==> Called(t, s.server.bound[step.bound].fd))
  {
    hide OpenData, OpenAck, OneRecord, RecvDataAt, AcceptBack, Oversized, IsBound;
    match step {
      case DataStep(fd, datagram) => DataKeepsPlace(s.server, fd, datagram, x);
      case AcceptStep => AcceptsAdvance(s.server, x);
      case AcceptCallStep(k) => CallKeeps(s.server, k, WaitsOn(s.server, x));
      case BindStep(fd) => BindKeeps(s.server, fd, WaitsOn(s.server, x));
      case _ =>
    }
  }

  lemma CallKeeps(s: Server, k: nat, fd: int)
    requires k < |s.bound|
    ensures var t := s.(bound := s.bound[k := s.bound[k].(accepting := true)]);
            (Called(s, fd) ==> Called(t, fd)) && Called(t, s.bound[k].fd)
  {
    var t := s.(bound := s.bound[k := s.bound[k].(accepting := true)]);
    assert t.bound[k].fd == s.bound[k].fd && t.bound[k].accepting;
    if j :| 0 <= j < |s.bound| && s.bound[j].fd == fd && s.bound[j].accepting {
      assert t.bound[j].fd == fd && t.bound[j].accepting;
    }
  }

  lemma BindKeeps(s: Server, f: int, fd: int)
    ensures Called(s, fd) ==> Called(Bind(s, f), fd)
  {
    if j :| 0 <= j < |s.bound| && s.bound[j].fd == fd && s.bound[j].accepting {
      assert Bind(s, f).bound[j] == s.bound[j];
    }
  }

  // ----- What a step does to a session that is accepted ------------------------------------------

  /** What has been consumed is never given back, and only the drain answers an open request. */
  lemma StepAccepted(s: System, step: Step, x: int)
    requires OneRecord(s.server) && Enabled(s, step) && x in s.server.accepted
    ensures x in After(s, step).server.accepted
    ensures var r, r' := s.server.accepted[x], After(s, step).server.accepted[x];
            && (step.DrainStep? ==> r' == Drain(r))
            && (!step.DrainStep? ==> r'.base == r.base && r'.out == r.out)
            && (!step.DrainStep? && r.receivingLength > 0 ==> r'.receivingLength == r.receivingLength)
            && (step.RecvStep? && step.session == x && step.length > 0 ==> r'.receivingLength > 0)
  {
    hide OpenData, OpenAck, AcceptBack, Oversized, IsBound, Drain, Receiver.Place;
    match step {
      case DataStep(fd, datagram) =>
        hide OneRecord;
        if OpenData(datagram).Some? && OpenData(datagram).value.session == x {
          PlaceLeaves(s.server.accepted[x], OpenData(datagram).value);
        }
      case AcceptStep =>
        AcceptBackMoves(s.server, x);
        hide OneRecord, Waits;
        RecordAccepted(s.server, AcceptBack(s.server, |s.server.bound|), x);
      case _ => hide OneRecord;
    }
  }

  lemma PlaceLeaves(r: Session, p: Package)
    ensures var r' := Receiver.Place(r, p);
            r'.base == r.base && r'.out == r.out && r'.receivingLength == r.receivingLength
  {}

  lemma RecordAccepted(s: Server, t: Server, x: int)
    requires Record(t, x) == Record(s, x) && x in s.accepted && x in t.accepted
    ensures t.accepted[x] == s.accepted[x]
  {}

  // ----- What is asked of the two programs and of the receiving daemon ---------------------------

  ghost predicate Obeyed(e: Execution, x: int, frames: seq<Payload>, i: nat) {
    Allowed(e.run(i), e.step(i), Programs(x, frames))
  }

  /** The client has something left to send. */
  ghost predicate HasMore(s: System, x: int, frames: seq<Payload>) {
    exists fd :: fd in s.client.socks && s.client.socks[fd].session == x && s.client.socks[fd].base < |frames|
  }

  /** The daemon reads calls of SEND. */
  predicate GateOpen(s: System) {
    s.client.inBuffer < MAX_BUFFER_PACKAGES
  }

  ghost predicate OpensFrom(e: Execution, i: nat) {
    exists j: nat :: j >= i && GateOpen(e.run(j))
  }

  ghost predicate SendsOn(s: System, step: Step, x: int) {
    step.SendStep? && step.fd in s.client.socks && s.client.socks[step.fd].session == x
  }

  ghost predicate ConnectsAt(e: Execution, x: int, i: nat) {
    KnownSession(e.run(i).client.socks, x)
  }

  ghost predicate SendsInTheEnd(e: Execution, x: int, i: nat) {
    exists k: nat :: k >= i && SendsOn(e.run(k), e.step(k), x)
  }

  ghost predicate MoreFrom(e: Execution, x: int, frames: seq<Payload>, i: nat) {
    forall j: nat :: j >= i ==> HasMore(e.run(j), x, frames)
  }

  /** The client connects, and a frame that it has left is sent when the daemon reads calls again
      and again. */
  ghost predicate ClientGoesOn(e: Execution, x: int, frames: seq<Payload>) {
    && (exists i: nat :: ConnectsAt(e, x, i))
    && forall i: nat :: MoreFrom(e, x, frames, i) && (forall j: nat :: OpensFrom(e, j)) ==> SendsInTheEnd(e, x, i)
  }

  ghost predicate WaitingFrom(e: Execution, x: int, i: nat) {
    forall j: nat :: j >= i ==> Waiting(e.run(j).server, x)
  }

  /** ACCEPT is called on the socket that the session waits on. */
  ghost predicate CallsAccept(s: System, step: Step, x: int) {
    && step.AcceptCallStep? && step.bound < |s.server.bound|
    && Waits(s.server, x) && s.server.bound[step.bound].fd == WaitsOn(s.server, x)
  }

  ghost predicate AcceptsInTheEnd(e: Execution, x: int, i: nat) {
    exists k: nat :: k >= i && CallsAccept(e.run(k), e.step(k), x)
  }

  /** Something more is to be asked for, and nothing has been. */
  ghost predicate Idle(s: Server, x: int) {
    x in s.accepted && s.accepted[x].receivingLength == 0 && NextRequest(s.accepted[x].out) > 0
  }

  ghost predicate IdleFrom(e: Execution, x: int, i: nat) {
    forall j: nat :: j >= i ==> Idle(e.run(j).server, x)
  }

  ghost predicate AsksInTheEnd(e: Execution, x: int, i: nat) {
    exists k: nat :: k >= i && e.step(k).RecvStep? && e.step(k).session == x
  }

  /** The server goes on calling ACCEPT while the session waits, and RECV while it has to. */
  ghost predicate ServerGoesOn(e: Execution, x: int) {
    && (forall i: nat :: WaitingFrom(e, x, i) ==> AcceptsInTheEnd(e, x, i))
    && (forall i: nat :: IdleFrom(e, x, i) ==> AsksInTheEnd(e, x, i))
  }

  /** Both programs keep to what they do, and go on doing it. */
  ghost predicate ProgramsGoOn(e: Execution, x: int, frames: seq<Payload>) {
    && (forall i: nat :: Obeyed(e, x, frames, i))
    && ClientGoesOn(e, x, frames) && ServerGoesOn(e, x)
  }

  ghost predicate NeverPast(e: Execution) {
    forall i: nat :: BelowSentinel(e.run(i))
  }

  // ----- All states are those of a transfer ------------------------------------------------------

  lemma AlwaysTransfers(e: Execution, x: int, name: seq<Byte>, file: seq<Byte>, n: nat)
    requires Runs(e) && |file| < WORD && forall i: nat :: Obeyed(e, x, Frames(name, file), i)
    ensures Transferring(e.run(n), x, name, file)
  {
    hide Runs, IsRun, Frames, Inv, Follows, Serves, Obeys, Enabled;
    PrefixIsRun(e, n);
    AlwaysInv(e, n);
    forall i | 0 <= i < n
      ensures Enabled(States(e, n)[i], Steps(e, n)[i])
      ensures Obeys(States(e, n)[i], Steps(e, n)[i], x, Frames(name, file))
    {
      assert Obeyed(e, x, Frames(name, file), i);
    }
    Transfers(States(e, n), Steps(e, n), x, name, file, n);
  }

  lemma MovedTables(e: Execution, n: nat)
    requires Runs(e)
    ensures Enabled(e.run(n), e.step(n)) && e.run(n + 1) == After(e.run(n), e.step(n)) && OneRecord(e.run(n).server)
  {
    hide Runs, Inv, Enabled, After, OneRecord;
    Moved(e, n);
    AlwaysInv(e, n);
    InvSessions(e.run(n));
    SessionsParts(e.run(n));
  }

  // ----- The gate opens again and again ----------------------------------------------------------

  /** A package leaves the buffers only through its acknowledgement, which opens the gate. */
  lemma StepRemoves(s: System, step: Step, fd: int, p: Package)
    requires Enabled(s, step) && fd in s.client.socks && p in Buffered(s.client.socks[fd])
    requires fd in After(s, step).client.socks && p !in Buffered(After(s, step).client.socks[fd])
    ensures After(s, step).client.inBuffer < s.client.inBuffer
  {
    hide OpenAck, OpenData, FlushInOrder, Position, Buffered, Expire;
    match step {
      case SendStep(f, body) => AcceptBuffered(s.client.socks[f], body);
      case AckStep(f, datagram, sample) =>
        if OpenAck(datagram).Some? {
          AckShortens(s.client.socks[f], OpenAck(datagram).value, p);
        }
      case NoticeStep => ExpireBuffered(s.client.socks[fd], s.notices[0]);
      case FlushStep(order) =>
        FlushInOrderFlushesEach(s.client, order, fd);
        FlushBuffered(s.client.socks[fd]);
      case _ =>
    }
  }

  lemma AckShortens(k: Sock, a: Ack, p: Package)
    ensures p in Buffered(k) && p !in Buffered(Acknowledge(k, a)) ==> |Acknowledge(k, a).packages| < |k.packages|
  {}

  lemma {:induction false} GateOpens(e: Execution, fd: int, p: Package, i: nat, j: nat) returns (m: nat)
    requires Runs(e) && i <= j && fd in e.run(i).client.socks && p in Buffered(e.run(i).client.socks[fd])
    requires fd in e.run(j).client.socks && p !in Buffered(e.run(j).client.socks[fd])
    ensures m > i && GateOpen(e.run(m))
    decreases j - i
  {
    hide Runs, Inv, Enabled, After, Buffered;
    Moved(e, i);
    StepOnlyNext(e.run(i), e.step(i), fd);
    if p in Buffered(e.run(i + 1).client.socks[fd]) {
      m := GateOpens(e, fd, p, i + 1, j);
    } else {
      StepRemoves(e.run(i), e.step(i), fd, p);
      AtMostFull(e, i);
      m := i + 1;
    }
  }

  lemma AtMostFull(e: Execution, i: nat)
    requires Runs(e)
    ensures e.run(i).client.inBuffer <= MAX_BUFFER_PACKAGES
  {
    hide Runs, IsRun;
    PrefixIsRun(e, i);
    BufferBound(States(e, i), Steps(e, i), i);
  }

  lemma AlwaysOpens(e: Execution, i: nat)
    requires Runs(e) && LoopsGoOn(e) && NetworkIsFair(e) && NeverPast(e)
    ensures OpensFrom(e, i)
  {
    hide Runs, LoopsGoOn, NetworkIsFair, Inv, BelowSentinel, Lowest, Buffered, Counted;
    if !GateOpen(e.run(i)) {
      AlwaysInv(e, i);
      InvCounted(e.run(i));
      var fd, p := SomethingBuffered(e.run(i).client);
      LowestBelow(e.run(i), fd, p);
      LowestBuffered(e.run(i).client.socks[fd], p);
      var j := LowestLeaves(e, fd, p, i);
      var m := GateOpens(e, fd, p, i, j);
    }
  }

  // ----- Everything is sent ----------------------------------------------------------------------

  lemma SendAdvances(e: Execution, fd: int, x: int, k: nat)
    requires Runs(e) && fd in e.run(k).client.socks && e.run(k).client.socks[fd].session == x
    requires SendsOn(e.run(k), e.step(k), x)
    ensures fd in e.run(k + 1).client.socks && e.run(k + 1).client.socks[fd].base > e.run(k).client.socks[fd].base
  {
    hide Runs, Inv;
    Moved(e, k);
    AlwaysInv(e, k);
    InvSessions(e.run(k));
    SessionsParts(e.run(k));
    hide Sessions, OneRecord, SessionOk;
    assert e.step(k).fd == fd;
  }

  ghost predicate Further(s: System, t: System, fd: int) {
    fd in s.client.socks && fd in t.client.socks && t.client.socks[fd].base > s.client.socks[fd].base
  }

  /** A client that goes on sending has sent everything in the end. */
  lemma {:induction false} AllSent(e: Execution, fd: int, x: int, name: seq<Byte>, file: seq<Byte>, i: nat)
    returns (j: nat)
    requires Runs(e) && LoopsGoOn(e) && NetworkIsFair(e) && NeverPast(e) && |file| < WORD
    requires ProgramsGoOn(e, x, Frames(name, file))
    requires fd in e.run(i).client.socks && e.run(i).client.socks[fd].session == x
    ensures j >= i && Socket(e.run(j), fd, x, |Frames(name, file)|)
    decreases |Frames(name, file)| - e.run(i).client.socks[fd].base
  {
    hide Runs, LoopsGoOn, NetworkIsFair, NeverPast, Inv, Frames, Obeyed, ServerGoesOn, Buffered;
    var frames := Frames(name, file);
    AlwaysTransfers(e, x, name, file, i);
    SocketSent(e.run(i), fd, x, name, file);
    if e.run(i).client.socks[fd].base == |frames| {
      j := i;
    } else if k: nat :| k >= i && Further(e.run(i), e.run(k), fd) {
      SocketStays(e, fd, i, k);
      j := AllSent(e, fd, x, name, file, k);
    } else {
      forall m: nat | m >= i
        ensures HasMore(e.run(m), x, frames)
      {
        SocketStays(e, fd, i, m);
      }
      forall m: nat
        ensures OpensFrom(e, m)
      {
        AlwaysOpens(e, m);
      }
      assert MoreFrom(e, x, frames, i);
      assert SendsInTheEnd(e, x, i);
      var m: nat :| m >= i && SendsOn(e.run(m), e.step(m), x);
      SocketStays(e, fd, i, m);
      SendAdvances(e, fd, x, m);
      j := i;
    }
  }

  // ----- Everything arrives ----------------------------------------------------------------------

  /** The first n frames have been received, and stay so. */
  ghost predicate GotFirst(e: Execution, fd: int, n: nat, j: nat) {
    forall m: nat, k: nat :: m >= j && k < n ==> fd in e.run(m).client.socks && GotIt(RecordOf(e.run(m), fd), k)
  }

  lemma {:induction false} AllArrived(e: Execution, fd: int, n: nat, i: nat) returns (j: nat)
    requires Runs(e) && LoopsGoOn(e) && NetworkIsFair(e)
    requires fd in e.run(i).client.socks && n <= e.run(i).client.socks[fd].base && n <= LIMIT
    ensures j >= i && GotFirst(e, fd, n, j)
    decreases n
  {
    hide Runs, LoopsGoOn, NetworkIsFair, GotIt, RecordOf, Buffered;
    if n == 0 {
      j := i;
    } else {
      var a := AllArrived(e, fd, n - 1, i);
      var b := EverythingArrives(e, fd, n - 1, i);
      j := if a < b then b else a;
    }
  }

  // ----- The session is accepted -----------------------------------------------------------------

  lemma {:induction false} WaitsOrAccepted(e: Execution, x: int, i: nat, m: nat)
    requires Runs(e) && i <= m && Waiting(e.run(i).server, x)
    requires forall k: nat :: i <= k <= m ==> x !in e.run(k).server.accepted
    ensures Waiting(e.run(m).server, x) && WaitsOn(e.run(m).server, x) == WaitsOn(e.run(i).server, x)
    decreases m
  {
    hide Runs, Enabled, After, OneRecord, Waits, WaitsOn;
    if m == i {
    } else {
      WaitsOrAccepted(e, x, i, m - 1);
      MovedTables(e, m - 1);
      StepWaits(e.run(m - 1), e.step(m - 1), x);
    }
  }

  /** The accepts find that ACCEPT has been called on the session's socket. */
  ghost predicate Advances(e: Execution, x: int, m: nat) {
    e.step(m).AcceptStep? && Waits(e.run(m).server, x) && Called(e.run(m).server, WaitsOn(e.run(m).server, x))
  }

  lemma {:induction false} NextAccepts(e: Execution, x: int, i: nat, j: nat) returns (m: nat)
    requires Runs(e) && WaitingFrom(e, x, i) && i <= j && e.step(j).AcceptStep?
    requires Called(e.run(i).server, WaitsOn(e.run(i).server, x))
    ensures m >= i && Advances(e, x, m)
    decreases j - i
  {
    hide Runs, Enabled, After, OneRecord, Waits, WaitsOn, Called;
    assert Waiting(e.run(i).server, x) && Waiting(e.run(i + 1).server, x);
    if e.step(i).AcceptStep? {
      m := i;
    } else {
      MovedTables(e, i);
      StepWaits(e.run(i), e.step(i), x);
      m := NextAccepts(e, x, i + 1, j);
    }
  }

  lemma AdvancesAgain(e: Execution, x: int, i: nat) returns (m: nat)
    requires Runs(e) && ReceiverGoesOn(e) && ServerGoesOn(e, x) && WaitingFrom(e, x, i)
    ensures m >= i && Advances(e, x, m)
  {
    hide Runs, Enabled, After, OneRecord, Waits, WaitsOn, Called, Advances;
    assert AcceptsInTheEnd(e, x, i);
    var k: nat :| k >= i && CallsAccept(e.run(k), e.step(k), x);
    assert Waiting(e.run(k).server, x) && Waiting(e.run(k + 1).server, x);
    MovedTables(e, k);
    StepWaits(e.run(k), e.step(k), x);
    assert AcceptsFrom(e, k + 1);
    var j: nat :| j >= k + 1 && e.step(j).AcceptStep?;
    m := NextAccepts(e, x, k + 1, j);
  }

  ghost predicate StillWaits(e: Execution, x: int, m: nat) {
    Waiting(e.run(m).server, x)
  }

  lemma NeverWaitsForEver(e: Execution, x: int, i: nat)
    requires Runs(e) && ReceiverGoesOn(e) && ServerGoesOn(e, x)
    ensures !WaitingFrom(e, x, i)
  {
    hide Runs, ReceiverGoesOn, ServerGoesOn, Enabled, After, OneRecord, Waits, Called;
    if WaitingFrom(e, x, i) {
      var alive, place, event := (m: nat) => StillWaits(e, x, m), (m: nat) => PlaceOf(e.run(m).server, x), (m: nat) =>
          Advances(e, x, m);
      forall m: nat | m >= i && alive(m + 1)
        ensures alive(m) && place(m + 1) <= place(m)
        ensures event(m) ==> place(m + 1) < place(m)
      {
        assert Waiting(e.run(m).server, x) && Waiting(e.run(m + 1).server, x);
        MovedTables(e, m);
        StepWaits(e.run(m), e.step(m), x);
      }
      forall m: nat | m >= i && alive(m)
        ensures exists k: nat :: k >= m && event(k)
      {
        var k := AdvancesAgain(e, x, m);
        assert event(k);
      }
      var j := RunsOut(alive, place, event, i);
    }
  }

  lemma AcceptedInTheEnd(e: Execution, x: int, i: nat) returns (j: nat)
    requires Runs(e) && ReceiverGoesOn(e) && ServerGoesOn(e, x) && Record(e.run(i).server, x).Some?
    ensures j >= i && x in e.run(j).server.accepted
  {
    hide Runs, ReceiverGoesOn, ServerGoesOn;
    if m: nat :| m >= i && x in e.run(m).server.accepted {
      j := m;
    } else {
      forall m: nat | m >= i
        ensures Waiting(e.run(m).server, x)
      {
        WaitsOrAccepted(e, x, i, m);
      }
      NeverWaitsForEver(e, x, i);
      j := i;
    }
  }

  // ----- And served ------------------------------------------------------------------------------

  lemma {:induction false} StaysAccepted(e: Execution, x: int, i: nat, j: nat)
    requires Runs(e) && i <= j && x in e.run(i).server.accepted
    ensures x in e.run(j).server.accepted
    decreases j
  {
    hide Runs, Enabled, After, OneRecord;
    if i == j {
    } else {
      StaysAccepted(e, x, i, j - 1);
      MovedTables(e, j - 1);
      StepAccepted(e.run(j - 1), e.step(j - 1), x);
    }
  }

  /** The state of a session of which everything has been received, in a transfer. */
  ghost predicate Arrived(s: System, fd: int, x: int, name: seq<Byte>, file: seq<Byte>) {
    && Transferring(s, x, name, file) && Socket(s, fd, x, |Frames(name, file)|) && x in s.server.accepted
    && forall k: nat :: k < |Frames(name, file)| ==> GotIt(RecordOf(s, fd), k)
  }

  /** Not yet served altogether: the record has base n. */
  ghost predicate At(s: System, x: int, n: nat) {
    x in s.server.accepted && s.server.accepted[x].base == n
  }

  /** One step of a session of which everything has been received. */
  lemma StepOfArrived(s: System, step: Step, fd: int, x: int, name: seq<Byte>, file: seq<Byte>)
    requires Arrived(s, fd, x, name, file) && Enabled(s, step) && OneRecord(s.server)
    requires s.server.accepted[x].base < |Frames(name, file)|
    ensures var r := s.server.accepted[x];
            && x in After(s, step).server.accepted
            && var r' := After(s, step).server.accepted[x];
               && (step.DrainStep? && r.receivingLength > 0 ==> r'.base == r.base + 1)
               && (step.DrainStep? && r.receivingLength == 0 ==> r' == r)
               && (!step.DrainStep? ==> r'.base == r.base && r'.out == r.out)
               && (!step.DrainStep? && r.receivingLength > 0 ==> r'.receivingLength > 0)
               && (step.RecvStep? && step.session == x && step.length > 0 ==> r'.receivingLength > 0)
  {
    hide Transferring, Frames, Enabled, After, OneRecord, GotIt, RecordOf, NextRequest, Drain;
    StepAccepted(s, step, x);
    var r, frames := s.server.accepted[x], Frames(name, file);
    NextIsHere(s, fd, x, name, file);
    NextDrained(r, frames);
    if r.receivingLength > 0 {
      assert r.(receivingLength := |frames[r.base]|) == r;
    } else {
      NoRequestNoDrain(r);
    }
  }

  lemma NoRequestNoDrain(r: Session)
    requires r.receivingLength == 0
    ensures Drain(r) == r
  {}

  ghost predicate ArrivedFrom(e: Execution, fd: int, x: int, name: seq<Byte>, file: seq<Byte>, i: nat) {
    forall m: nat :: m >= i ==> Arrived(e.run(m), fd, x, name, file)
  }

  predicate Open(s: System, x: int) {
    x in s.server.accepted && s.server.accepted[x].receivingLength > 0
  }

  /** An open request is answered by the next drain. */
  lemma {:induction false} NextDrains(e: Execution, fd: int, x: int, name: seq<Byte>, file: seq<Byte>, n: nat, i: nat,
                                      j: nat) returns (m: nat)
    requires Runs(e) && ArrivedFrom(e, fd, x, name, file, i) && i <= j && e.step(j).DrainStep?
    requires At(e.run(i), x, n) && n < |Frames(name, file)| && Open(e.run(i), x)
    ensures m > i && At(e.run(m), x, n + 1)
    decreases j - i
  {
    hide Runs, Arrived, Frames, Enabled, After, OneRecord;
    MovedTables(e, i);
    assert Arrived(e.run(i), fd, x, name, file);
    StepOfArrived(e.run(i), e.step(i), fd, x, name, file);
    if e.step(i).DrainStep? {
      m := i + 1;
    } else {
      m := NextDrains(e, fd, x, name, file, n, i + 1, j);
    }
  }

  lemma MoreToAsk(s: System, fd: int, x: int, name: seq<Byte>, file: seq<Byte>)
    requires Arrived(s, fd, x, name, file) && s.server.accepted[x].base < |Frames(name, file)| && !Open(s, x)
    ensures Idle(s.server, x)
  {
    hide Transferring, Frames, GotIt, RecordOf, NextRequest;
    NextIsHere(s, fd, x, name, file);
  }

  lemma AsksForMore(s: System, step: Step, x: int, frames: seq<Payload>)
    requires Allowed(s, step, Programs(x, frames)) && step.RecvStep? && step.session == x && Idle(s.server, x)
    ensures step.length > 0
  {
    hide NextRequest;
  }

  /** Until a request is open nothing more is consumed. */
  lemma {:induction false} StaysAt(e: Execution, fd: int, x: int, name: seq<Byte>, file: seq<Byte>, n: nat, i: nat,
                                   m: nat)
    requires Runs(e) && ArrivedFrom(e, fd, x, name, file, i) && i <= m
    requires At(e.run(i), x, n) && n < |Frames(name, file)|
    requires forall k: nat :: i <= k < m ==> !Open(e.run(k), x)
    ensures At(e.run(m), x, n)
    decreases m
  {
    hide Runs, Arrived, Frames, Enabled, After, OneRecord;
    if i == m {
    } else {
      StaysAt(e, fd, x, name, file, n, i, m - 1);
      MovedTables(e, m - 1);
      assert Arrived(e.run(m - 1), fd, x, name, file);
      StepOfArrived(e.run(m - 1), e.step(m - 1), fd, x, name, file);
    }
  }

  lemma {:induction false} FirstOpen(e: Execution, x: int, i: nat, k: nat) returns (m: nat)
    requires i <= k && Open(e.run(k), x)
    ensures i <= m <= k && Open(e.run(m), x) && forall l: nat :: i <= l < m ==> !Open(e.run(l), x)
    decreases k - i
  {
    hide Open;
    if Open(e.run(i), x) {
      m := i;
    } else {
      m := FirstOpen(e, x, i + 1, k);
    }
  }

  lemma NotClosedForEver(e: Execution, fd: int, x: int, name: seq<Byte>, file: seq<Byte>, n: nat, i: nat)
    requires Runs(e) && ArrivedFrom(e, fd, x, name, file, i) && ProgramsGoOn(e, x, Frames(name, file))
    requires At(e.run(i), x, n) && n < |Frames(name, file)|
    ensures exists k: nat :: k >= i && Open(e.run(k), x)
  {
    hide Runs, Arrived, Frames, Enabled, After, OneRecord, Allowed, Idle, ClientGoesOn;
    if forall k: nat :: k >= i ==> !Open(e.run(k), x) {
      forall k: nat | k >= i
        ensures At(e.run(k), x, n) && Idle(e.run(k).server, x)
      {
        StaysAt(e, fd, x, name, file, n, i, k);
        assert Arrived(e.run(k), fd, x, name, file);
        MoreToAsk(e.run(k), fd, x, name, file);
      }
      assert IdleFrom(e, x, i) && AsksInTheEnd(e, x, i);
      var k: nat :| k >= i && e.step(k).RecvStep? && e.step(k).session == x;
      assert Obeyed(e, x, Frames(name, file), k) && Arrived(e.run(k), fd, x, name, file);
      AsksForMore(e.run(k), e.step(k), x, Frames(name, file));
      MovedTables(e, k);
      StepOfArrived(e.run(k), e.step(k), fd, x, name, file);
    }
  }

  /** The next frame is asked for and handed over. */
  lemma OneServed(e: Execution, fd: int, x: int, name: seq<Byte>, file: seq<Byte>, n: nat, i: nat) returns (m: nat)
    requires Runs(e) && ReceiverGoesOn(e) && ProgramsGoOn(e, x, Frames(name, file))
    requires ArrivedFrom(e, fd, x, name, file, i) && At(e.run(i), x, n) && n < |Frames(name, file)|
    ensures m > i && At(e.run(m), x, n + 1)
  {
    hide Runs, Arrived, Frames, ProgramsGoOn, Open, At;
    NotClosedForEver(e, fd, x, name, file, n, i);
    var k: nat :| k >= i && Open(e.run(k), x);
    var l := FirstOpen(e, x, i, k);
    StaysAt(e, fd, x, name, file, n, i, l);
    assert DrainsFrom(e, l);
    var j: nat :| j >= l && e.step(j).DrainStep?;
    m := NextDrains(e, fd, x, name, file, n, l, j);
  }

  lemma {:induction false} AllServedInTheEnd(e: Execution, fd: int, x: int, name: seq<Byte>, file: seq<Byte>, n: nat,
                                             i: nat) returns (m: nat)
    requires Runs(e) && ReceiverGoesOn(e) && ProgramsGoOn(e, x, Frames(name, file))
    requires ArrivedFrom(e, fd, x, name, file, i) && At(e.run(i), x, n) && n <= |Frames(name, file)|
    ensures m >= i && At(e.run(m), x, |Frames(name, file)|)
    decreases |Frames(name, file)| - n
  {
    hide Runs, Arrived, Frames, ProgramsGoOn, ReceiverGoesOn, At;
    if n == |Frames(name, file)| {
      m := i;
    } else {
      var j := OneServed(e, fd, x, name, file, n, i);
      m := AllServedInTheEnd(e, fd, x, name, file, n + 1, j);
    }
  }

  // ----- The whole transfer ----------------------------------------------------------------------

  /** A session that has been served altogether is left alone. */
  lemma StepOfServed(s: System, step: Step, x: int, name: seq<Byte>, file: seq<Byte>)
    requires Transferring(s, x, name, file) && Enabled(s, step) && OneRecord(s.server)
    requires At(s, x, |Frames(name, file)|)
    ensures At(After(s, step), x, |Frames(name, file)|)
  {
    hide Inv, Follows, Enabled, After, OneRecord, NextRequest, Frames, Drain, Concat;
    StepAccepted(s, step, x);
    var r := s.server.accepted[x];
    assert Record(s.server, x) == Some(r);
    RequestIsNextFrame(name, file, r.base);
    assert r.receivingLength == 0;
    NoRequestNoDrain(r);
  }

  lemma {:induction false} StaysServed(e: Execution, x: int, name: seq<Byte>, file: seq<Byte>, i: nat, j: nat)
    requires Runs(e) && |file| < WORD && forall k: nat :: Obeyed(e, x, Frames(name, file), k)
    requires i <= j && At(e.run(i), x, |Frames(name, file)|)
    ensures At(e.run(j), x, |Frames(name, file)|)
    decreases j
  {
    hide Runs, Enabled, After, OneRecord, Obeyed, Frames, Transferring;
    if i == j {
    } else {
      StaysServed(e, x, name, file, i, j - 1);
      MovedTables(e, j - 1);
      AlwaysTransfers(e, x, name, file, j - 1);
      StepOfServed(e.run(j - 1), e.step(j - 1), x, name, file);
    }
  }

  lemma AllArrivedAt(e: Execution, fd: int, x: int, name: seq<Byte>, file: seq<Byte>, i: nat, j: nat)
    requires Runs(e) && |file| < WORD && forall k: nat :: Obeyed(e, x, Frames(name, file), k)
    requires i <= j && Socket(e.run(i), fd, x, |Frames(name, file)|) && GotFirst(e, fd, |Frames(name, file)|, i)
    requires x in e.run(j).server.accepted
    ensures ArrivedFrom(e, fd, x, name, file, j)
  {
    hide Runs, Obeyed, Frames, Transferring, GotIt, RecordOf, Buffered;
    forall m: nat | m >= j
      ensures Arrived(e.run(m), fd, x, name, file)
    {
      AlwaysTransfers(e, x, name, file, m);
      SocketStays(e, fd, i, m);
      SocketSent(e.run(m), fd, x, name, file);
      StaysAccepted(e, x, j, m);
    }
  }

  lemma FirstHasRecord(e: Execution, fd: int, x: int, n: nat, i: nat)
    requires GotFirst(e, fd, n, i) && n > 0 && fd in e.run(i).client.socks && e.run(i).client.socks[fd].session == x
    ensures Record(e.run(i).server, x).Some?
  {
    assert GotIt(RecordOf(e.run(i), fd), 0);
  }

  lemma FramesFew(name: seq<Byte>, file: seq<Byte>)
    requires |file| < WORD
    ensures 0 < |Frames(name, file)| <= LIMIT
  {
    FewFrames(name, file);
  }

  /** In every infinite run in which the loops go on, the network is fair, no session passes the
      sentinel, and client and server keep to their programs and go on with them, the server has the
      client's name and file in the end, and asks for no more. */
  lemma FileIsDelivered(e: Execution, x: int, name: seq<Byte>, file: seq<Byte>) returns (j: nat)
    requires Runs(e) && LoopsGoOn(e) && ReceiverGoesOn(e) && NetworkIsFair(e) && NeverPast(e)
    requires ProgramsGoOn(e, x, Frames(name, file))
    requires |name| <= NAME_LEN && 0 !in name && |file| < WORD
    ensures forall m: nat :: m >= j ==> HasFile(e.run(m).server, x, name, file)
  {
    hide Runs, LoopsGoOn, ReceiverGoesOn, NetworkIsFair, NeverPast, Obeyed, ServerGoesOn, Frames, HasFile, GotFirst,
        Transferring, Arrived, Record;
    FramesFew(name, file);
    var a: nat :| ConnectsAt(e, x, a);
    var fd :| fd in e.run(a).client.socks && e.run(a).client.socks[fd].session == x;
    var b := AllSent(e, fd, x, name, file, a);
    var c := AllArrived(e, fd, |Frames(name, file)|, b);
    SocketGoesOn(e, fd, x, name, file, b, c);
    FirstHasRecord(e, fd, x, |Frames(name, file)|, c);
    var d := AcceptedInTheEnd(e, x, c);
    AllArrivedAt(e, fd, x, name, file, c, d);
    RecordWithinAt(e, x, name, file, d);
    j := AllServedInTheEnd(e, fd, x, name, file, e.run(d).server.accepted[x].base, d);
    forall m: nat | m >= j
      ensures HasFile(e.run(m).server, x, name, file)
    {
      StaysServed(e, x, name, file, j, m);
      AlwaysTransfers(e, x, name, file, m);
      AllServed(e.run(m), x, name, file);
    }
  }

  lemma SocketGoesOn(e: Execution, fd: int, x: int, name: seq<Byte>, file: seq<Byte>, i: nat, j: nat)
    requires Runs(e) && |file| < WORD && forall k: nat :: Obeyed(e, x, Frames(name, file), k)
    requires i <= j && Socket(e.run(i), fd, x, |Frames(name, file)|)
    ensures Socket(e.run(j), fd, x, |Frames(name, file)|)
  {
    hide Runs, Obeyed, Frames, Transferring, Buffered;
    SocketStays(e, fd, i, j);
    AlwaysTransfers(e, x, name, file, j);
    SocketSent(e.run(j), fd, x, name, file);
  }

  lemma RecordWithinAt(e: Execution, x: int, name: seq<Byte>, file: seq<Byte>, i: nat)
    requires Runs(e) && |file| < WORD && forall k: nat :: Obeyed(e, x, Frames(name, file), k)
    requires x in e.run(i).server.accepted
    ensures e.run(i).server.accepted[x].base <= |Frames(name, file)|
  {
    hide Runs, Obeyed, Frames, Transferring;
    AlwaysTransfers(e, x, name, file, i);
    RecordWithin(e.run(i), x, name, file);
  }

  // ----- Such runs exist -------------------------------------------------------------------------

  lemma CallsKeepBases(s: System, step: Step)
    requires Enabled(s, step) && NoCall(step) && BelowSentinel(s)
    ensures BelowSentinel(After(s, step))
  {
    hide OpenAck, OpenData, FlushInOrder, Position, IsOrder;
    match step {
      case FlushStep(order) =>
        OrderIs(s, order);
        forall fd | fd in s.client.socks
          ensures FlushInOrder(s.client, order).socks[fd].base == s.client.socks[fd].base
        {
          FlushBases(s.client, order, fd);
        }
      case _ =>
    }
  }

  lemma {:induction false} StaysBelow(e: Execution, i: nat, j: nat)
    requires Runs(e) && BelowSentinel(e.run(i)) && i <= j && forall k: nat :: k >= i ==> NoCall(e.step(k))
    ensures BelowSentinel(e.run(j))
    decreases j
  {
    hide Runs, BelowSentinel, Enabled, After;
    if i == j {
    } else {
      StaysBelow(e, i, j - 1);
      Moved(e, j - 1);
      CallsKeepBases(e.run(j - 1), e.step(j - 1));
    }
  }

  lemma BelowBefore(e: Execution, i: nat, j: nat)
    requires Runs(e) && BelowSentinel(e.run(j)) && i <= j
    ensures BelowSentinel(e.run(i))
  {
    hide Runs, Buffered;
    forall fd | fd in e.run(i).client.socks
      ensures e.run(i).client.socks[fd].base <= LIMIT
    {
      SocketStays(e, fd, i, j);
    }
  }

  lemma NothingMore(e: Execution, x: int, name: seq<Byte>, file: seq<Byte>, i: nat, j: nat)
    requires Runs(e) && |file| < WORD && forall k: nat :: Obeyed(e, x, Frames(name, file), k)
    requires i <= j && Finished(e.run(i), x, name, file) && |name| <= NAME_LEN && 0 !in name
    ensures !HasMore(e.run(j), x, Frames(name, file)) && !Waiting(e.run(j).server, x) && !Idle(e.run(j).server, x)
  {
    hide Runs, Obeyed, Frames, Good, Buffered, Inv, NextRequest;
    var fd :| Socket(e.run(i), fd, x, |Frames(name, file)|);
    SocketGoesOn(e, fd, x, name, file, i, j);
    AlwaysInv(e, j);
    InvSessions(e.run(j));
    SessionsParts(e.run(j));
    hide Sessions, SessionOk, OneRecord;
    StaysServed(e, x, name, file, i, j);
    AlwaysTransfers(e, x, name, file, j);
    hide Transferring;
    AllServed(e.run(j), x, name, file);
    RecordOfAccepted(e.run(j).server, x);
  }

  lemma RecordOfAccepted(s: Server, x: int)
    requires x in s.accepted
    ensures Record(s, x) == Some(s.accepted[x])
  {}

  lemma ThenNothing(e: Execution, x: int, name: seq<Byte>, file: seq<Byte>, i: nat)
    requires Runs(e) && |file| < WORD && forall k: nat :: Obeyed(e, x, Frames(name, file), k)
    requires Finished(e.run(i), x, name, file) && |name| <= NAME_LEN && 0 !in name
    ensures ProgramsGoOn(e, x, Frames(name, file))
  {
    hide Runs, Obeyed, Frames, Good, HasMore, Waiting, Idle;
    var fd :| Socket(e.run(i), fd, x, |Frames(name, file)|);
    assert ConnectsAt(e, x, i);
    forall j: nat
      ensures !MoreFrom(e, x, Frames(name, file), j) && !WaitingFrom(e, x, j) && !IdleFrom(e, x, j)
    {
      var m := if i < j then j else i;
      NothingMore(e, x, name, file, i, m);
    }
  }

  lemma RunObeys(e: Execution, n: nat, x: int, frames: seq<Payload>)
    requires Runs(e) && forall i: nat :: i < n ==> Obeyed(e, x, frames, i)
    requires forall i: nat :: i >= n ==> NoCall(e.step(i))
    ensures forall i: nat :: Obeyed(e, x, frames, i)
  {
    hide Runs, Enabled, After, Obeys;
    forall i: nat | i >= n
      ensures Obeyed(e, x, frames, i)
    {
      Moved(e, i);
      QuietAllowed(e.run(i), e.step(i), x, frames);
    }
  }

  /** For every such name and file there is a run of the kind that the theorem is about. */
  lemma SomeTransferIsFair(name: seq<Byte>, file: seq<Byte>) returns (e: Execution)
    requires |name| <= NAME_LEN && 0 !in name && |file| < WORD
    ensures Runs(e) && LoopsGoOn(e) && ReceiverGoesOn(e) && NetworkIsFair(e) && NeverPast(e)
    ensures ProgramsGoOn(e, 1, Frames(name, file))
  {
    hide Orderly, IsRun, Enabled, Obeys, Alive, Reachable, BelowSentinel, HasFile, Frames, Runs, LoopsGoOn, NoCall,
        ReceiverGoesOn, NetworkIsFair, ProgramsGoOn, TurnsKept, MidTurn, Transferring;
    var states, steps := SomeRunDelivers(name, file);
    var n := |steps|;
    NoTurns();
    OrderlyTurns([], steps);
    assert [] + steps == steps;
    e := FairContinuation(states, steps);
    PrefixObeys(e, states, steps, 1, Frames(name, file));
    RunObeys(e, n, 1, Frames(name, file));
    ThenNothing(e, 1, name, file, n);
    AlwaysBelow(e, n);
  }

  lemma PrefixObeys(e: Execution, states: seq<System>, steps: seq<Step>, x: int, frames: seq<Payload>)
    requires IsTransfer(states, steps, x, frames)
    requires forall i :: 0 <= i <= |steps| ==> e.run(i) == states[i]
    requires forall i :: 0 <= i < |steps| ==> e.step(i) == steps[i]
    ensures forall i: nat :: i < |steps| ==> Obeyed(e, x, frames, i)
  {
    hide Enabled, After, Obeys, Init;
  }

  lemma AlwaysBelow(e: Execution, n: nat)
    requires Runs(e) && BelowSentinel(e.run(n)) && forall k: nat :: k >= n ==> NoCall(e.step(k))
    ensures NeverPast(e)
  {
    hide Runs, BelowSentinel, NoCall;
    forall i: nat
      ensures BelowSentinel(e.run(i))
    {
      if i <= n {
        BelowBefore(e, i, n);
      } else {
        StaysBelow(e, n, i);
      }
    }
  }

  lemma NoTurns()
    ensures TurnsKept([]) && !MidTurn([])
  {}
}
