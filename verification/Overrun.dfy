/** The sentinel of final/tcpd.c can be passed: a run that accepts one payload too many, and what
    becomes of it. */
module Overrun {
  import opened Wire
  import opened Sender
  import opened ServerTables
  import opened Conversation
  import opened Protocol
  import opened Bindings
  import opened Reliability
  import opened Retransmission
  import opened Paths
  import opened Sentinel
  import opened Completion

  /** One session, connected to a bound socket, with n payloads accepted. */
  ghost predicate OneSession(s: System, fd: int, n: nat) {
    && Inv(s) && Alive(s.server) && Reachable(s)
    && s.client.socks.Keys == {fd} && s.client.socks[fd].base == n
  }

  lemma SameSession(s: System, t: System, fd: int, n: nat)
    requires OneSession(s, fd, n) && SameBases(s, t) && Inv(t) && Alive(t.server)
    ensures OneSession(t, fd, n)
  {
    hide Inv, Alive, Reachable;
    ReachableStays(s, t);
    hide SameTargets;
  }

  /** A call of SEND and the flush that ends its turn. */
  lemma SendOne(s: System, fd: int, n: nat) returns (steps: seq<Step>, t: System)
    requires OneSession(s, fd, n) && s.client.inBuffer == 0 && n + 1 < WORD
    ensures Goes(s, steps, t, Anything) && OneSession(t, fd, n + 1)
  {
    hide Inv, Alive, Reachable, Enabled, After, IsOrder, SameBuffers, Path, FlushInOrder;
    var send := SendStep(fd, []);
    Sends(s, fd, n);
    StepInv(s, send);
    var u := After(s, send);
    var order := OrderExists(u.client.socks.Keys);
    FlushIs(u, order);
    FlushBuffers(u, order);
    QuietServer(u, FlushStep(order));
    StepInv(u, FlushStep(order));
    OneStep(s, send, Anything);
    PathThen(s, [send], u, FlushStep(order), Anything);
    steps, t := [send] + [FlushStep(order)], After(u, FlushStep(order));
    assert steps[2..] == [] && Orderly([]);
    SameBuffersBases(u, t);
    SameSession(u, t, fd, n + 1);
  }

  lemma Sends(s: System, fd: int, n: nat)
    requires OneSession(s, fd, n) && s.client.inBuffer == 0 && n + 1 < WORD
    ensures var send := SendStep(fd, []);
      Enabled(s, send) && (Inv(After(s, send)) ==> OneSession(After(s, send), fd, n + 1))
  {
    hide Inv, Alive, IsBound;
  }

  /** Payload after payload, each time when everything before has come across. */
  lemma {:induction false} SendMany(s: System, fd: int, n: nat, m: nat) returns (steps: seq<Step>, t: System)
    requires OneSession(s, fd, n) && n <= m <= LIMIT + 1
    ensures Goes(s, steps, t, Anything) && OneSession(t, fd, m)
    decreases m - n
  {
    hide OneSession, Goes, BelowSentinel, SameBases;
    if n == m {
      GoesNowhere(s, Anything);
      steps, t := [], s;
    } else {
      var a, u := Emptied(s, fd, n);
      var b, v := SendOne(u, fd, n);
      var c, w := SendMany(v, fd, n + 1, m);
      GoesConcat(s, a, u, b, v, Anything);
      GoesConcat(s, a + b, v, c, w, Anything);
      steps, t := a + b + c, w;
    }
  }

  lemma Emptied(s: System, fd: int, n: nat) returns (steps: seq<Step>, t: System)
    requires OneSession(s, fd, n) && n <= LIMIT
    ensures Goes(s, steps, t, Anything) && OneSession(t, fd, n) && t.client.inBuffer == 0
  {
    hide Inv, Alive, Reachable, Goes, SameBases;
    steps, t := Finish(s);
    GoesRelaxed(s, steps, t, NoCalls, Anything);
    SameSession(s, t, fd, n);
  }

  // ----- The first session -----------------------------------------------------------------------

  /** A socket is bound, and a session is connected to it. */
  lemma FirstSession() returns (steps: seq<Step>, t: System)
    ensures Goes(StartState(), steps, t, Anything) && OneSession(t, 4, 0)
  {
    hide Path, Inv, IsOrder, FlushInOrder, SameBuffers;
    var a, s := BoundFirst(Anything);
    var connect := ConnectStep(4, 1, 3);
    var u := After(s, connect);
    InitInv(StartState());
    GoesInv(StartState(), a, s, Anything);
    StepInv(s, connect);
    assert IsBound(s.server, 3) by {
      assert s.server.bound[0].fd == 3;
    }
    assert OneSession(u, 4, 0);
    var order := OrderExists(u.client.socks.Keys);
    FlushIs(u, order);
    FlushBuffers(u, order);
    QuietServer(u, FlushStep(order));
    StepInv(u, FlushStep(order));
    OneStep(s, connect, Anything);
    PathThen(s, [connect], u, FlushStep(order), Anything);
    var b := [connect] + [FlushStep(order)];
    t := After(u, FlushStep(order));
    assert b[2..] == [] && Orderly([]);
    GoesConcat(StartState(), a, s, b, t, Anything);
    steps := a + b;
    SameBuffersBases(u, t);
    SameSession(u, t, 4, 0);
  }

  // ----- One payload too many --------------------------------------------------------------------

  /** Some run, in which every daemon keeps to its main loop and the receiving one goes on reading,
      passes the sentinel; from there on nothing that anybody does brings everything across. */
  lemma SentinelIsPassed() returns (states: seq<System>, steps: seq<Step>, fd: int)
    ensures IsRun(states, steps) && Orderly(steps)
    ensures var s := states[|steps|];
            && Alive(s.server) && Reachable(s)
            && fd in s.client.socks && s.client.socks[fd].base > LIMIT
            && !GotIt(RecordOf(s, fd), LIMIT)
            && forall more, t :: Path(s, more, t, Anything) ==> !Completes(s, t)
  {
    hide Path, Orderly, Inv, Alive, Reachable, GotIt, RecordOf, Completes, IsRun, Init;
    var a, s := FirstSession();
    fd := 4;
    var b, t := SendMany(s, fd, 0, LIMIT + 1);
    GoesConcat(StartState(), a, s, b, t, Anything);
    steps := a + b;
    StartRuns();
    states := Extended([StartState()], [], 0, steps, t, Anything);
    assert [][..0] + steps == steps;
    NeverReceived(states, steps, |steps|, fd);
    assert !BelowSentinel(t);
    forall more, u | Path(t, more, u, Anything)
      ensures !Completes(t, u)
    {
      NeverCompletes(states, steps, |steps|, more, u);
    }
  }
}
