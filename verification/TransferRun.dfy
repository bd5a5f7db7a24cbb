/** A transfer can always be completed: from every state of every transfer there is a
    continuation, by the two programs and the daemons' own loops, that delivers the file. */
module TransferRun {
  import opened Options
  import opened Bytes
  import opened Wire
  import opened Sender
  import opened Receiver
  import opened ServerTables
  import opened Conversation
  import opened Protocol
  import opened Bindings
  import opened Buffering
  import opened Tokens
  import opened Reliability
  import opened Retransmission
  import opened Framing
  import opened Paths
  import opened Completion
  import opened Alignment
  import opened FileTransfer

  /** A state of a transfer. */
  ghost predicate Transferring(s: System, x: int, name: seq<Byte>, file: seq<Byte>) {
    && Inv(s) && |file| < WORD
    && Follows(s.client.socks, s.sent, x, Frames(name, file))
    && Serves(s.server, s.split, x, Frames(name, file))
  }

  lemma {:induction false} PathTransfers(s: System, steps: seq<Step>, t: System, x: int, name: seq<Byte>,
                                         file: seq<Byte>)
    requires Transferring(s, x, name, file) && Path(s, steps, t, Programs(x, Frames(name, file)))
    ensures Transferring(t, x, name, file)
    decreases |steps|
  {
    hide Inv, Enabled, After, Follows, Serves, Frames, SendsNext, NextRequest;
    if steps == [] {
    } else {
      StepInv(s, steps[0]);
      StepFollows(s, steps[0], x, Frames(name, file));
      StepServes(s, steps[0], x, name, file);
      PathTransfers(After(s, steps[0]), steps[1..], t, x, name, file);
    }
  }

  /** And one from which it can go on. */
  ghost predicate Good(s: System, x: int, name: seq<Byte>, file: seq<Byte>) {
    Transferring(s, x, name, file) && Alive(s.server) && Reachable(s) && BelowSentinel(s)
  }

  // ----- Ends of turns ---------------------------------------------------------------------------

  /** The sending daemon flushes after a call that has led from s to t. */
  lemma ThenFlush(s: System, call: Step, t: System, x: int, frames: seq<Payload>) returns (steps: seq<Step>, u: System)
    requires Allowed(s, call, Programs(x, frames)) && t == After(s, call) && (call.ConnectStep? || call.SendStep?)
    ensures Goes(s, steps, u, Programs(x, frames)) && SameBuffers(t, u) && u.server == t.server
  {
    hide Enabled, After, Obeys, SameBuffers, IsOrder, Path;
    var order := OrderExists(t.client.socks.Keys);
    FlushIs(t, order);
    FlushBuffers(t, order);
    QuietServer(t, FlushStep(order));
    OneStep(s, call, Programs(x, frames));
    QuietAllowed(t, FlushStep(order), x, frames);
    PathThen(s, [call], t, FlushStep(order), Programs(x, frames));
    steps, u := [call] + [FlushStep(order)], After(t, FlushStep(order));
    assert steps[2..] == [] && Orderly([]);
  }

  lemma QuietAllowed(s: System, step: Step, x: int, frames: seq<Payload>)
    requires Enabled(s, step) && NoCall(step)
    ensures Allowed(s, step, Programs(x, frames))
  {}

  /** What accepting and draining make of the receiving daemon's tables. */
  function TurnEnd(s: Server): Server {
    RecvBack(AcceptBack(s, |s.bound|))
  }

  lemma EndOfTurn(s: System, x: int, frames: seq<Payload>) returns (t: System)
    requires RecordsBound(s.server) && Alive(s.server)
    ensures Path(s, [AcceptStep, DrainStep], t, Programs(x, frames))
    ensures t.client == s.client && t.server == TurnEnd(s.server) && Alive(t.server) && SameTargets(s, t)
  {
    hide RecordsBound, Alive, SameTargets, Enabled, Path, RecvBack, AcceptBack, Splitting;
    AcceptGoesOn(s);
    var u := After(s, AcceptStep);
    QuietAllowed(s, AcceptStep, x, frames);
    OneStep(s, AcceptStep, Programs(x, frames));
    AcceptAlive(s.server, |s.server.bound|);
    StepBindings(s, AcceptStep);
    StepTargets(s, AcceptStep);
    DrainGoesOn(u);
    DrainAlive(u.server);
    QuietAllowed(u, DrainStep, x, frames);
    PathThen(s, [AcceptStep], u, DrainStep, Programs(x, frames));
    StepTargets(u, DrainStep);
    t := After(u, DrainStep);
    SameTargetsThen(s, u, t);
    assert [AcceptStep] + [DrainStep] == [AcceptStep, DrainStep];
  }

  /** The receiving daemon ends its turn after a call that has led from s to t. */
  lemma ThenServe(s: System, call: Step, t: System, x: int, frames: seq<Payload>) returns (steps: seq<Step>, u: System)
    requires Allowed(s, call, Programs(x, frames)) && t == After(s, call)
    requires call.BindStep? || call.AcceptCallStep? || call.RecvStep?
    requires RecordsBound(s.server) && RecordsBound(t.server) && Alive(t.server)
    ensures Goes(s, steps, u, Programs(x, frames))
    ensures u.client == t.client && u.server == TurnEnd(t.server) && Alive(u.server) && SameTargets(s, u)
  {
    hide RecordsBound, Alive, SameTargets, Enabled, After, Obeys, Path, TurnEnd;
    u := EndOfTurn(t, x, frames);
    StepTargets(s, call);
    SameTargetsThen(s, t, u);
    OneStep(s, call, Programs(x, frames));
    PathConcat(s, [call], t, [AcceptStep, DrainStep], u, Programs(x, frames));
    steps := [call] + [AcceptStep, DrainStep];
    assert steps == [call, AcceptStep, DrainStep] && steps[3..] == [] && Orderly([]);
    assert ReceiverTurn(steps);
  }

  /** What a turn without a call makes of an accepted record. */
  lemma TurnDrains(s: Server, x: int)
    requires OneRecord(s) && x in s.accepted
    ensures x in TurnEnd(s).accepted && TurnEnd(s).accepted[x] == Drain(s.accepted[x])
  {
    hide OneRecord, Drain, AcceptBack, Waits;
    AcceptBackMoves(s, x);
  }

  // ----- Connecting and sending ------------------------------------------------------------------

  lemma {:induction false} FreshFd(fds: set<int>) returns (fd: int)
    ensures fd !in fds && forall f :: f in fds ==> f < fd
  {
    if f :| f in fds {
      var g := FreshFd(fds - {f});
      fd := if g <= f then f + 1 else g;
      forall h | h in fds
        ensures h < fd
      {
        assert h == f || h in fds - {f};
      }
    } else {
      fd := 0;
    }
  }

  lemma Connected(s: System, x: int, name: seq<Byte>, file: seq<Byte>) returns (fd: int, steps: seq<Step>, t: System)
    requires Good(s, x, name, file) && 0 <= x < WORD && s.server.bound != []
    ensures Goes(s, steps, t, Programs(x, Frames(name, file))) && Good(t, x, name, file)
    ensures fd in t.client.socks && t.client.socks[fd].session == x
  {
    hide Transferring, Alive, Reachable, Frames, SameBuffers, Goes;
    if KnownSession(s.client.socks, x) {
      fd :| fd in s.client.socks && s.client.socks[fd].session == x;
      GoesNowhere(s, Programs(x, Frames(name, file)));
      steps, t := [], s;
    } else {
      fd := FreshFd(s.client.socks.Keys);
      var connect := ConnectStep(fd, x, s.server.bound[0].fd);
      var u := After(s, connect);
      steps, t := ThenFlush(s, connect, u, x, Frames(name, file));
      GoesTransfers(s, steps, t, x, name, file);
      ConnectReaches(s, fd, x);
      SameBuffersBases(u, t);
      ReachableStays(u, t);
    }
  }

  lemma ConnectReaches(s: System, fd: int, x: int)
    requires Reachable(s) && s.server.bound != [] && 0 <= x
    requires Enabled(s, ConnectStep(fd, x, s.server.bound[0].fd))
    ensures Reachable(After(s, ConnectStep(fd, x, s.server.bound[0].fd)))
  {
    var t := After(s, ConnectStep(fd, x, s.server.bound[0].fd));
    forall f | f in t.client.socks
      ensures Arrives(t, t.client.socks[f].session)
    {
      if f != fd {
        assert Arrives(s, s.client.socks[f].session);
      }
    }
  }

  lemma GoesTransfers(s: System, steps: seq<Step>, t: System, x: int, name: seq<Byte>, file: seq<Byte>)
    requires Transferring(s, x, name, file) && Goes(s, steps, t, Programs(x, Frames(name, file)))
    ensures Transferring(t, x, name, file)
  {
    hide Path, Orderly, Transferring, Frames;
    PathTransfers(s, steps, t, x, name, file);
  }

  /** The socket of the session, with everything accepted on it so far. */
  ghost predicate Socket(s: System, fd: int, x: int, n: nat) {
    fd in s.client.socks && s.client.socks[fd].session == x && s.client.socks[fd].base == n
  }

  lemma SocketSent(s: System, fd: int, x: int, name: seq<Byte>, file: seq<Byte>)
    requires Transferring(s, x, name, file) && fd in s.client.socks && s.client.socks[fd].session == x
    ensures fd in s.sent && s.sent[fd] <= Frames(name, file) && |s.sent[fd]| == s.client.socks[fd].base
  {
    hide Serves, Frames;
    InvSessions(s);
    SentLength(s, fd);
  }

  /** Everything buffered is brought across, without any call. */
  lemma Flushed(s: System, fd: int, x: int, n: nat, name: seq<Byte>, file: seq<Byte>)
          returns (steps: seq<Step>, t: System)
    requires Good(s, x, name, file) && Socket(s, fd, x, n)
    ensures Goes(s, steps, t, Programs(x, Frames(name, file))) && Good(t, x, name, file)
    ensures Socket(t, fd, x, n) && t.client.inBuffer == 0
  {
    hide Alive, Reachable, Frames, Goes, BelowSentinel, Follows, Serves;
    steps, t := Finish(s);
    GoesRelaxed(s, steps, t, NoCalls, Programs(x, Frames(name, file)));
    GoesTransfers(s, steps, t, x, name, file);
    BelowStays(s, t);
    ReachableStays(s, t);
  }

  lemma FrameSends(s: System, fd: int, x: int, n: nat, name: seq<Byte>, file: seq<Byte>)
    requires Good(s, x, name, file) && Socket(s, fd, x, n) && n < |Frames(name, file)| && s.client.inBuffer == 0
    ensures var step := SendStep(fd, Frames(name, file)[n]);
            && Allowed(s, step, Programs(x, Frames(name, file)))
            && Socket(After(s, step), fd, x, n + 1)
            && BelowSentinel(After(s, step)) && Reachable(After(s, step)) && After(s, step).server == s.server
  {
    hide Transferring, Alive, Frames, NextRequest;
    FewFrames(name, file);
    FileShort(s, x, name, file);
    RequestIsNextFrame(name, file, n);
  }

  lemma FileShort(s: System, x: int, name: seq<Byte>, file: seq<Byte>)
    requires Transferring(s, x, name, file)
    ensures |file| < WORD
  {}

  /** No file that fits into the size field has too many frames. */
  lemma FewFrames(name: seq<Byte>, file: seq<Byte>)
    ensures |file| < WORD ==> |Frames(name, file)| < NO_MIN_SEQ
  {
    hide Chunks, SizeBytes, NameBytes;
    var n := |Chunks(file)|;
    if n > 0 {
      ChunksPrefix(file, n - 1);
    }
  }

  /** The rest of the file is handed over, and all of it brought across. */
  lemma {:induction false} SendRest(s: System, fd: int, x: int, n: nat, name: seq<Byte>, file: seq<Byte>)
    returns (steps: seq<Step>, t: System)
    requires Good(s, x, name, file) && Socket(s, fd, x, n) && n <= |Frames(name, file)|
    ensures Goes(s, steps, t, Programs(x, Frames(name, file))) && Good(t, x, name, file)
    ensures Socket(t, fd, x, |Frames(name, file)|) && t.client.inBuffer == 0
    decreases |Frames(name, file)| - n
  {
    hide Transferring, Alive, Reachable, Frames, Goes, Socket, BelowSentinel, SameBuffers, After, Enabled, Obeys;
    var frames := Frames(name, file);
    var a, u := Flushed(s, fd, x, n, name, file);
    if n == |frames| {
      steps, t := a, u;
    } else {
      FrameSends(u, fd, x, n, name, file);
      var v := After(u, SendStep(fd, frames[n]));
      var b, w := ThenFlush(u, SendStep(fd, frames[n]), v, x, frames);
      GoesTransfers(u, b, w, x, name, file);
      SocketKeeps(v, w, fd, x, n + 1);
      SameBuffersBases(v, w);
      ReachableStays(v, w);
      var c, z := SendRest(w, fd, x, n + 1, name, file);
      GoesConcat(u, b, w, c, z, Programs(x, frames));
      GoesConcat(s, a, u, b + c, z, Programs(x, frames));
      steps, t := a + (b + c), z;
    }
  }

  lemma SocketKeeps(s: System, t: System, fd: int, x: int, n: nat)
    requires SameBuffers(s, t) && Socket(s, fd, x, n) && BelowSentinel(s)
    ensures Socket(t, fd, x, n) && BelowSentinel(t)
  {
    hide Buffered;
  }

  // ----- Accepting and receiving -----------------------------------------------------------------

  /** ACCEPT on the socket that the session waits on makes the list of those waiting shorter. */
  lemma AcceptShortens(s: Server, x: int) returns (k: nat)
    requires OneRecord(s) && RecordsBound(s) && x !in s.accepted && Record(s, x).Some?
    ensures k < |s.bound|
    ensures var s' := s.(bound := s.bound[k := s.bound[k].(accepting := true)]);
            && |TurnEnd(s').waiting| < |s.waiting|
            && OneRecord(s') && (Record(TurnEnd(s'), x).Some? || x in TurnEnd(s').accepted)
  {
    hide AcceptBack, Left, Drain;
    var r := s.waiting[FindWaiting(s.waiting, x)];
    assert Unaccepted(s, r);
    k :| 0 <= k < |s.bound| && s.bound[k].fd == r.socketFd;
    var s' := s.(bound := s.bound[k := s.bound[k].(accepting := true)]);
    AcceptTakes(s', |s'.bound|);
    AcceptingHas(s'.bound, |s'.bound|, k);
    SomebodyTaken(s'.waiting, Accepting(s'.bound, |s'.bound|), r);
    SameTablesOneRecord(s, s');
    hide OneRecord;
    AcceptBackMoves(s', x);
  }

  lemma SameTablesOneRecord(s: Server, s': Server)
    requires OneRecord(s) && s'.waiting == s.waiting && s'.accepted == s.accepted
    ensures OneRecord(s')
  {}

  lemma {:induction false} AcceptingHas(bound: seq<Bound>, n: nat, k: nat)
    requires k < n <= |bound| && bound[k].accepting
    ensures bound[k].fd in Accepting(bound, n)
  {
    if k == n - 1 {
    } else {
      AcceptingHas(bound, n - 1, k);
    }
  }

  lemma {:induction false} AcceptSession(s: System, x: int, name: seq<Byte>, file: seq<Byte>)
    returns (steps: seq<Step>, t: System)
    requires Good(s, x, name, file) && Record(s.server, x).Some?
    ensures Goes(s, steps, t, Programs(x, Frames(name, file))) && Good(t, x, name, file)
    ensures x in t.server.accepted && t.client == s.client
    decreases |s.server.waiting|
  {
    hide Transferring, Alive, Reachable, Frames, Goes, Record, TurnEnd, OneRecord, RecordsBound, BelowSentinel;
    if x in s.server.accepted {
      GoesNowhere(s, Programs(x, Frames(name, file)));
      steps, t := [], s;
    } else {
      GoodTables(s, x, name, file);
      var k := AcceptShortens(s.server, x);
      AcceptCallKeeps(s, k);
      var a, u := ThenServe(s, AcceptCallStep(k), After(s, AcceptCallStep(k)), x, Frames(name, file));
      GoesTransfers(s, a, u, x, name, file);
      SameClientBases(s, u);
      BelowStays(s, u);
      ReachableStays(s, u);
      RecordOrAccepted(u.server, x);
      var b, v := AcceptSession(u, x, name, file);
      GoesConcat(s, a, u, b, v, Programs(x, Frames(name, file)));
      steps, t := a + b, v;
    }
  }

  lemma RecordOrAccepted(s: Server, x: int)
    requires Record(s, x).Some? || x in s.accepted
    ensures Record(s, x).Some?
  {}

  lemma GoodTables(s: System, x: int, name: seq<Byte>, file: seq<Byte>)
    requires Transferring(s, x, name, file)
    ensures OneRecord(s.server) && RecordsBound(s.server) && Inv(s)
  {
    hide Follows, Serves, RecordsBound, Counted, TokensInv, Frames;
    SessionsParts(s);
  }

  lemma AcceptCallKeeps(s: System, k: nat)
    requires RecordsBound(s.server) && Alive(s.server) && k < |s.server.bound|
    ensures var step := AcceptCallStep(k);
            && Enabled(s, step)
            && (forall x, frames :: Allowed(s, step, Programs(x, frames)))
            && After(s, step).client == s.client
            && After(s, step).server == s.server.(bound := s.server.bound[k := s.server.bound[k].(accepting := true)])
            && RecordsBound(After(s, step).server) && Alive(After(s, step).server)
  {
    hide RecordsBound;
    AcceptCallBindings(s.server, k);
  }

  /** The next frame has come across, and the record is waiting for it. */
  lemma NextIsHere(s: System, fd: int, x: int, name: seq<Byte>, file: seq<Byte>)
    requires Transferring(s, x, name, file) && Socket(s, fd, x, |Frames(name, file)|)
    requires x in s.server.accepted && s.server.accepted[x].base < |Frames(name, file)|
    requires GotIt(RecordOf(s, fd), s.server.accepted[x].base)
    ensures var r, frames := s.server.accepted[x], Frames(name, file);
            && r.packages != [] && r.packages[0].seqNum == r.base && r.packages[0].body == frames[r.base]
            && Served(r, frames) && r.base + 1 < WORD
            && NextRequest(r.out) == |frames[r.base]| && 0 < |frames[r.base]| <= BUF_LEN
  {
    hide Frames, NextRequest, Concat, Exact, Short;
    var r, frames := s.server.accepted[x], Frames(name, file);
    SocketSent(s, fd, x, name, file);
    RequestIsNextFrame(name, file, r.base);
    assert SessionOk(fd, s.client.socks, s.client.toTroll, s.server, s.sent, s.split);
    assert Record(s.server, x) == Some(r);
    HeadInOrder(r);
    assert Carries(r.packages[0], x, s.sent[fd]);
  }

  lemma FrameIsHere(s: System, fd: int, x: int, n: nat, name: seq<Byte>, file: seq<Byte>)
    requires Transferring(s, x, name, file) && Socket(s, fd, x, |Frames(name, file)|) && s.client.inBuffer == 0
    requires n < |Frames(name, file)|
    ensures GotIt(RecordOf(s, fd), n)
  {
    hide Inv, Frames, GotIt, RecordOf;
    EmptyMeansArrived(s, fd, n);
  }

  lemma HeadInOrder(r: Session)
    requires Sorted(r) && Holds(r.packages, r.base)
    ensures r.packages != [] && r.packages[0].seqNum == r.base
  {
    var i :| 0 <= i < |r.packages| && r.packages[i].seqNum == r.base;
    assert r.packages[0].seqNum <= r.packages[i].seqNum;
  }

  /** The frame is asked for, if it has not been, and handed over. */
  lemma OneMoreFrame(s: System, fd: int, x: int, name: seq<Byte>, file: seq<Byte>) returns (steps: seq<Step>, t: System)
    requires Good(s, x, name, file) && Socket(s, fd, x, |Frames(name, file)|) && s.client.inBuffer == 0
    requires x in s.server.accepted && s.server.accepted[x].base < |Frames(name, file)|
    ensures Goes(s, steps, t, Programs(x, Frames(name, file))) && Alive(t.server) && t.client == s.client
    ensures x in t.server.accepted && t.server.accepted[x].base == s.server.accepted[x].base + 1 && SameTargets(s, t)
  {
    hide Transferring, Alive, Reachable, SameTargets, Frames, NextRequest, Concat, Drain, TurnEnd, OneRecord,
        RecordsBound, Goes, Served, Socket;
    var r, frames := s.server.accepted[x], Frames(name, file);
    FrameIsHere(s, fd, x, r.base, name, file);
    NextIsHere(s, fd, x, name, file);
    GoodTables(s, x, name, file);
    NextDrained(r, frames);
    if r.receivingLength > 0 {
      TurnDrains(s.server, x);
      steps, t := PlainTurn(s, x, frames);
    } else {
      var ask := RecvStep(x, |frames[r.base]|);
      AskKeeps(s, x, |frames[r.base]|);
      Asked(s, x, |frames[r.base]|, frames);
      var u := After(s, ask);
      steps, t := ThenServe(s, ask, u, x, frames);
      TurnDrains(u.server, x);
    }
  }

  /** A record whose next frame is here hands it over, once it has been asked for. */
  lemma NextDrained(r: Session, frames: seq<Payload>)
    requires Served(r, frames) && r.base < |frames| && r.base + 1 < WORD
    requires r.packages != [] && r.packages[0].seqNum == r.base && r.packages[0].body == frames[r.base]
    requires NextRequest(r.out) == |frames[r.base]| && 0 < |frames[r.base]|
    ensures r.receivingLength == 0 || r.receivingLength == |frames[r.base]|
    ensures Drain(r.(receivingLength := |frames[r.base]|)).base == r.base + 1
  {
    hide NextRequest, Concat, Drain;
    TakesOne(r.(receivingLength := |frames[r.base]|));
  }

  lemma PlainTurn(s: System, x: int, frames: seq<Payload>) returns (steps: seq<Step>, t: System)
    requires RecordsBound(s.server) && Alive(s.server)
    ensures Goes(s, steps, t, Programs(x, frames))
    ensures t.client == s.client && t.server == TurnEnd(s.server) && Alive(t.server) && SameTargets(s, t)
  {
    hide RecordsBound, Alive, SameTargets, TurnEnd, Path;
    t := EndOfTurn(s, x, frames);
    steps := [AcceptStep, DrainStep];
    assert steps[2..] == [] && Orderly([]);
  }

  lemma Asked(s: System, x: int, length: nat, frames: seq<Payload>)
    requires x in s.server.accepted && s.server.accepted[x].receivingLength == 0
    requires length > 0 && length == NextRequest(s.server.accepted[x].out)
    ensures var ask := RecvStep(x, length);
            && Allowed(s, ask, Programs(x, frames))
            && After(s, ask) == s.(server := RecvCall(s.server, x, length))
            && x in RecvCall(s.server, x, length).accepted
            && RecvCall(s.server, x, length).accepted[x] == s.server.accepted[x].(receivingLength := length)
  {
    hide NextRequest;
  }

  lemma AskKeeps(s: System, x: int, length: nat)
    requires OneRecord(s.server) && RecordsBound(s.server) && Alive(s.server) && length <= BUF_LEN
    ensures var s' := RecvCall(s.server, x, length);
            OneRecord(s') && RecordsBound(s') && Alive(s')
  {
    RecvBindings(s.server, x, length);
    hide RecordsBound;
    if RecvReply(s.server, x, length) == None {
      AcceptedChange(s.server, RecvCall(s.server, x, length));
    }
  }

  lemma {:induction false} ServeRest(s: System, fd: int, x: int, name: seq<Byte>, file: seq<Byte>)
    returns (steps: seq<Step>, t: System)
    requires Good(s, x, name, file) && Socket(s, fd, x, |Frames(name, file)|) && s.client.inBuffer == 0
    requires x in s.server.accepted && s.server.accepted[x].base <= |Frames(name, file)|
    ensures Goes(s, steps, t, Programs(x, Frames(name, file))) && Good(t, x, name, file)
    ensures x in t.server.accepted && t.server.accepted[x].base == |Frames(name, file)| && t.client == s.client
    decreases |Frames(name, file)| - s.server.accepted[x].base
  {
    hide Transferring, Alive, Reachable, Frames, Goes, BelowSentinel;
    if s.server.accepted[x].base == |Frames(name, file)| {
      GoesNowhere(s, Programs(x, Frames(name, file)));
      steps, t := [], s;
    } else {
      var a, u := OneMoreFrame(s, fd, x, name, file);
      GoesTransfers(s, a, u, x, name, file);
      SameClientBases(s, u);
      BelowStays(s, u);
      ReachableStays(s, u);
      var b, v := ServeRest(u, fd, x, name, file);
      GoesConcat(s, a, u, b, v, Programs(x, Frames(name, file)));
      steps, t := a + b, v;
    }
  }

  // ----- The whole transfer ----------------------------------------------------------------------

  /** What the server's process has got makes up the client's name and file, and it asks for no more. */
  ghost predicate HasFile(server: Server, x: int, name: seq<Byte>, file: seq<Byte>) {
    && Record(server, x).Some?
    && var out := Record(server, x).value.out;
       NextRequest(out) == 0 && Parse(out) == Some(Received(name, file))
  }

  lemma AllServed(s: System, x: int, name: seq<Byte>, file: seq<Byte>)
    requires Transferring(s, x, name, file) && |name| <= NAME_LEN && 0 !in name
    requires x in s.server.accepted && s.server.accepted[x].base == |Frames(name, file)|
    ensures HasFile(s.server, x, name, file)
  {
    hide Inv, Frames, NextRequest, Parse, Concat, Follows;
    var frames := Frames(name, file);
    RequestIsNextFrame(name, file, |frames|);
    TransferRoundTrip(name, file);
    assert frames[..|frames|] == frames;
    assert Record(s.server, x) == Some(s.server.accepted[x]);
  }

  lemma FirstArrived(s: System, fd: int, x: int, name: seq<Byte>, file: seq<Byte>)
    requires Inv(s) && Socket(s, fd, x, |Frames(name, file)|) && s.client.inBuffer == 0
    ensures Record(s.server, x).Some?
  {
    hide Inv, Record;
    assert |Frames(name, file)| > 0;
    hide Frames;
    EmptyMeansArrived(s, fd, 0);
  }

  /** Everything has been sent, received and handed over, and the daemons could go on. */
  ghost predicate Finished(s: System, x: int, name: seq<Byte>, file: seq<Byte>) {
    && Good(s, x, name, file)
    && (exists fd :: Socket(s, fd, x, |Frames(name, file)|))
    && x in s.server.accepted && s.server.accepted[x].base == |Frames(name, file)|
  }

  lemma Deliver(s: System, x: int, name: seq<Byte>, file: seq<Byte>) returns (steps: seq<Step>, t: System)
    requires Good(s, x, name, file) && 0 <= x < WORD && |name| <= NAME_LEN && 0 !in name && s.server.bound != []
    ensures Goes(s, steps, t, Programs(x, Frames(name, file))) && HasFile(t.server, x, name, file)
    ensures Finished(t, x, name, file)
  {
    hide Transferring, Alive, Reachable, Frames, Goes, BelowSentinel, HasFile, Record;
    var frames := Frames(name, file);
    var fd, a, u := Connected(s, x, name, file);
    SocketSent(u, fd, x, name, file);
    var b, v := SendRest(u, fd, x, u.client.socks[fd].base, name, file);
    GoesConcat(s, a, u, b, v, Programs(x, frames));
    GoodTables(v, x, name, file);
    FirstArrived(v, fd, x, name, file);
    var c, w := AcceptSession(v, x, name, file);
    GoesConcat(s, a + b, v, c, w, Programs(x, frames));
    RecordWithin(w, x, name, file);
    var d, z := ServeRest(w, fd, x, name, file);
    GoesConcat(s, a + b + c, w, d, z, Programs(x, frames));
    AllServed(z, x, name, file);
    assert Socket(z, fd, x, |frames|);
    steps, t := a + b + c + d, z;
  }

  lemma RecordWithin(s: System, x: int, name: seq<Byte>, file: seq<Byte>)
    requires Transferring(s, x, name, file) && x in s.server.accepted
    ensures s.server.accepted[x].base <= |Frames(name, file)|
  {
    hide Inv, Frames, NextRequest, Concat, Follows;
    assert Record(s.server, x) == Some(s.server.accepted[x]);
  }

  /** From every state of every transfer some continuation, in which both processes keep to their
      programs and the daemons to their loops, gives the server the client's name and file. */
  lemma SomeContinuationDelivers(states: seq<System>, run: seq<Step>, i: nat, x: int, name: seq<Byte>, file: seq<Byte>)
    returns (steps: seq<Step>, t: System)
    requires IsTransfer(states, run, x, Frames(name, file)) && i < |states|
    requires |name| <= NAME_LEN && 0 !in name && |file| < WORD && 0 <= x < WORD
    requires Alive(states[i].server) && Reachable(states[i]) && states[i].server.bound != [] && BelowSentinel(states[i])
    ensures Goes(states[i], steps, t, Programs(x, Frames(name, file)))
    ensures HasFile(t.server, x, name, file) && Finished(t, x, name, file)
  {
    hide Path, Orderly, IsRun, Obeys, Alive, Reachable, BelowSentinel, Follows, Serves, HasFile, Frames, Inv;
    RunInv(states, run, i);
    Transfers(states, run, x, name, file, i);
    steps, t := Deliver(states[i], x, name, file);
  }

  // ----- From the start --------------------------------------------------------------------------

  lemma GoodStart(x: int, name: seq<Byte>, file: seq<Byte>)
    requires |file| < WORD
    ensures Transferring(StartState(), x, name, file)
    ensures var s := BoundState(); Alive(s.server) && Reachable(s) && BelowSentinel(s) && s.server.bound != []
  {
    hide Frames, Inv;
    InitInv(StartState());
    NothingYet(StartState(), x, Frames(name, file));
  }

  /** For every name of at most 20 bytes and every file of fewer than 2^32 there is a run in which
      both processes keep to their programs and the daemons to their loops, and the server ends up
      with the name and the file. */
  lemma SomeRunDelivers(name: seq<Byte>, file: seq<Byte>) returns (states: seq<System>, steps: seq<Step>)
    requires |name| <= NAME_LEN && 0 !in name && |file| < WORD
    ensures IsTransfer(states, steps, 1, Frames(name, file)) && Orderly(steps)
    ensures HasFile(states[|steps|].server, 1, name, file) && Finished(states[|steps|], 1, name, file)
  {
    hide Path, Orderly, Enabled, After, Init, Obeys, Transferring, Alive, Reachable, BelowSentinel, HasFile, Finished,
        Frames, BoundState;
    var rules := Programs(1, Frames(name, file));
    var a, s := BoundFirst(rules);
    GoodStart(1, name, file);
    GoesTransfers(StartState(), a, s, 1, name, file);
    var b, t := Deliver(s, 1, name, file);
    GoesConcat(StartState(), a, s, b, t, rules);
    steps := a + b;
    StartRuns();
    states := Extended([StartState()], [], 0, steps, t, rules);
    assert [][..0] + steps == steps;
    forall j | 0 <= j < |steps|
      ensures Obeys(states[j], steps[j], 1, Frames(name, file))
    {
      assert Allowed(states[0 + j], steps[j], rules);
    }
  }
}
