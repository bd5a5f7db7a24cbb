/** Fairness asks for nothing impossible: every run of daemons that keep to their main loops is the
    beginning of a fair infinite one. */
module Fairness {
  import opened Wire
  import opened Receiver
  import opened ServerTables
  import opened TimerList
  import opened Sender
  import opened Conversation
  import opened Protocol
  import opened Bindings
  import opened Buffering
  import opened Reliability
  import opened Retransmission
  import opened Paths
  import opened Completion
  import opened Progress
  import opened Liveness

  // ----- A system in which nothing is left to do -------------------------------------------------

  ghost predicate Empty(c: Client) {
    forall fd :: fd in c.socks ==> c.socks[fd].packages == [] && c.socks[fd].pending == []
  }

  /** No package is buffered, no timer runs, and no message is on its way between daemon and timer. */
  ghost predicate AtRest(s: System) {
    && InTransit(s) == [] && s.timer == [] && s.notices == []
    && Empty(s.client)
    && forall fd :: fd in s.client.socks ==> s.client.socks[fd].minSeq == NO_MIN_SEQ
  }

  lemma {:induction false} EmptyFlush(c: Client, order: seq<int>)
    requires Empty(c) && forall i :: 0 <= i < |order| ==> order[i] in c.socks
    ensures var c' := FlushInOrder(c, order);
            && Empty(c') && c'.toTimer == c.toTimer && c'.toTroll == c.toTroll
            && c'.estimator == c.estimator && c'.inBuffer == c.inBuffer
            && forall fd :: fd in c.socks ==>
                 c'.socks[fd] == if fd in order then c.socks[fd].(minSeq := NO_MIN_SEQ) else c.socks[fd]
  {
    if order == [] {
    } else {
      EmptyFlush(c, order[..|order| - 1]);
      assert order == order[..|order| - 1] + [order[|order| - 1]];
    }
  }

  lemma EmptyExpire(c: Client, id: Id)
    requires Empty(c)
    ensures ExpireAt(c, id) == c
  {
    forall fd | fd in c.socks
      ensures ExpireAt(c, id).socks[fd] == c.socks[fd]
    {}
    assert ExpireAt(c, id).socks == c.socks;
  }

  /** A flush of an empty daemon, after which nothing is left to do when no message is on its way. */
  lemma FlushToRest(s: System, order: seq<int>)
    requires IsOrder(order, s.client.socks.Keys) && Empty(s.client) && InTransit(s) == [] && s.timer == []
    ensures Enabled(s, FlushStep(order))
    ensures var t := After(s, FlushStep(order));
            Empty(t.client) && InTransit(t) == [] && t.timer == [] && t.notices == s.notices
    ensures s.notices == [] ==> AtRest(After(s, FlushStep(order)))
  {
    EmptyFlush(s.client, order);
  }

  lemma FlushAtRest(s: System, order: seq<int>)
    requires AtRest(s) && IsOrder(order, s.client.socks.Keys)
    ensures Enabled(s, FlushStep(order)) && After(s, FlushStep(order)) == s
  {
    hide FlushInOrder, IsOrder, InTransit;
    OrderIs(s, order);
    EmptyFlush(s.client, order);
    var c := FlushInOrder(s.client, order);
    forall fd | fd in s.client.socks
      ensures c.socks[fd] == s.client.socks[fd]
    {}
    assert c.socks == s.client.socks;
  }

  lemma OrderIs(s: System, order: seq<int>)
    requires IsOrder(order, s.client.socks.Keys)
    ensures Enabled(s, FlushStep(order)) && forall i :: 0 <= i < |order| ==> order[i] in s.client.socks
  {}

  lemma WaitAtRest(s: System)
    requires AtRest(s)
    ensures Enabled(s, TimerStep(1.0, false)) && After(s, TimerStep(1.0, false)) == s
  {}

  // ----- A receiving daemon in which nothing is left to do ---------------------------------------

  /** Nobody waits on a socket that is accepting, and no drain changes anything. */
  ghost predicate Settled(s: Server) {
    && (forall k :: 0 <= k < |s.bound| && s.bound[k].accepting ==> Nobody(s.waiting, s.bound[k].fd))
    && forall x :: x in s.accepted ==> Drain(s.accepted[x]) == s.accepted[x] && !Splits(s.accepted[x])
  }

  ghost predicate Nobody(waiting: seq<Session>, fd: int) {
    FirstOn(waiting, fd) == |waiting|
  }

  lemma {:induction false} AcceptsNobody(s: Server, n: nat)
    requires n <= |s.bound|
    requires forall k :: 0 <= k < |s.bound| && s.bound[k].accepting ==> Nobody(s.waiting, s.bound[k].fd)
    ensures AcceptBack(s, n) == s
  {
    if n == 0 {
    } else {
      AcceptsNobody(s, n - 1);
    }
  }

  lemma StillNobody(waiting: seq<Session>, i: nat, fd: int)
    requires i < |waiting| && Nobody(waiting, fd)
    ensures Nobody(waiting[..i] + waiting[i + 1..], fd)
  {
    var w := waiting[..i] + waiting[i + 1..];
    assert forall j :: 0 <= j < |w| ==> w[j] == waiting[if j < i then j else j + 1];
    assert forall j :: 0 <= j < |waiting| ==> waiting[j].socketFd != fd;
  }

  /** The first n sockets have taken whom they could. */
  ghost predicate Taken(s: Server, n: nat) {
    forall k :: 0 <= k < n && k < |s.bound| && s.bound[k].accepting ==> Nobody(s.waiting, s.bound[k].fd)
  }

  lemma OneTaken(s: Server, n: nat)
    requires n < |s.bound| && Taken(s, n)
    ensures Taken(AcceptOne(s, n), n + 1)
  {
    hide Nobody;
    var i := FirstOn(s.waiting, s.bound[n].fd);
    if s.bound[n].accepting && i < |s.waiting| {
      forall k | 0 <= k < n && s.bound[k].accepting
        ensures Nobody(s.waiting[..i] + s.waiting[i + 1..], s.bound[k].fd)
      {
        StillNobody(s.waiting, i, s.bound[k].fd);
      }
    } else if s.bound[n].accepting {
      NobodyThere(s.waiting, s.bound[n].fd);
    }
  }

  lemma NobodyThere(waiting: seq<Session>, fd: int)
    requires FirstOn(waiting, fd) == |waiting|
    ensures Nobody(waiting, fd)
  {}

  lemma {:induction false} AllTaken(s: Server, n: nat)
    requires n <= |s.bound|
    ensures Taken(AcceptBack(s, n), n)
  {
    hide Taken, AcceptOne;
    if n == 0 {
      NoneTaken(AcceptBack(s, 0));
    } else {
      AllTaken(s, n - 1);
      OneTaken(AcceptBack(s, n - 1), n - 1);
    }
  }

  lemma NoneTaken(s: Server)
    ensures Taken(s, 0)
  {}

  lemma DrainSettles(r: Session)
    ensures Drain(Drain(r)) == Drain(r) && !Splits(Drain(r))
  {
    if r.receivingLength > 0 {
      DrainLoopLeaves(r);
      var q := DrainLoop(r);
      assert DrainLoop(q) == q;
      if |q.buffer| != q.receivingLength {
        assert Drain(r) == q;
        NothingReady(q);
      }
    }
  }

  lemma NothingReady(q: Session)
    requires !Draining(q)
    ensures !Splits(q)
  {
    if q.receivingLength > |q.buffer| {
      assert Ready(q.packages, q.base) == 0;
    }
  }

  /** So does the end of every turn. */
  lemma TurnSettles(s: Server)
    ensures Settled(RecvBack(AcceptBack(s, |s.bound|)))
  {
    hide AcceptBack, Drain, Splits, FirstOn;
    var t := AcceptBack(s, |s.bound|);
    AllTaken(s, |s.bound|);
    forall x | x in t.accepted
      ensures Drain(Drain(t.accepted[x])) == Drain(t.accepted[x]) && !Splits(Drain(t.accepted[x]))
    {
      DrainSettles(t.accepted[x]);
    }
  }

  lemma TurnWhenSettled(s: System)
    requires Settled(s.server) && Alive(s.server)
    ensures Enabled(s, AcceptStep) && After(s, AcceptStep) == s
    ensures Enabled(s, DrainStep) && After(s, DrainStep) == s
  {
    hide AcceptBack, Drain, Splits, FirstOn, Oversized;
    AcceptsNobody(s.server, |s.server.bound|);
    var accepted := s.server.accepted;
    forall x | x in accepted
      ensures RecvBack(s.server).accepted[x] == accepted[x] && !Splits(accepted[x])
    {
      assert Drain(accepted[x]) == accepted[x];
    }
    assert RecvBack(s.server).accepted == accepted;
    assert Splitting(s.server) == {};
  }

  // ----- Getting there ---------------------------------------------------------------------------

  /** The notices that are left are read, each followed by a flush. */
  lemma {:induction false} ReadOff(s: System) returns (steps: seq<Step>, t: System)
    requires Empty(s.client) && InTransit(s) == [] && s.timer == []
    ensures Goes(s, steps, t, TimerOnly) && AtRest(t)
    decreases |s.notices|
  {
    hide Goes, FlushInOrder, ExpireAt, IsOrder, AtRest, Empty;
    if s.notices == [] {
      var order := OrderExists(s.client.socks.Keys);
      FlushToRest(s, order);
      OneTurn(s, FlushStep(order));
      steps, t := [FlushStep(order)], After(s, FlushStep(order));
    } else {
      NoticeIs(s);
      EmptyExpire(s.client, s.notices[0]);
      var u := s.(notices := s.notices[1..]);
      var order := OrderExists(u.client.socks.Keys);
      FlushToRest(u, order);
      TwoSteps(s, NoticeStep, FlushStep(order));
      var v := After(u, FlushStep(order));
      var more, w := ReadOff(v);
      GoesConcat(s, [NoticeStep, FlushStep(order)], v, more, w, TimerOnly);
      steps, t := [NoticeStep, FlushStep(order)] + more, w;
    }
  }

  lemma CountedEmpty(s: System)
    requires Inv(s) && s.client.inBuffer == 0
    ensures Empty(s.client)
  {
    InvCounted(s);
    NothingBuffered(s.client);
    forall fd | fd in s.client.socks
      ensures s.client.socks[fd].packages == [] && s.client.socks[fd].pending == []
    {
      assert Size(s.client.socks[fd]) == 0;
    }
  }

  lemma ToRest(s: System) returns (steps: seq<Step>, t: System)
    requires Inv(s) && Alive(s.server) && Reachable(s) && BelowSentinel(s)
    ensures Goes(s, steps, t, NoCalls) && AtRest(t) && Inv(t) && Alive(t.server)
  {
    hide Inv, Alive, Reachable, BelowSentinel, Goes, AtRest, Empty, SameBuffers;
    var a, u := Finish(s);
    GoesInv(s, a, u, NoCalls);
    CountedEmpty(u);
    var b, v := ToNotices(u);
    var c, w := ReadOff(v);
    GoesConcat(u, b, v, c, w, TimerOnly);
    QuietGoes(u, b + c, w);
    GoesConcat(s, a, u, b + c, w, NoCalls);
    GoesInv(u, b + c, w, TimerOnly);
    steps, t := a + (b + c), w;
  }

  // ----- For ever after --------------------------------------------------------------------------

  /** One step more in a run whose turns are kept. */
  lemma TurnStep(a: seq<Step>, step: Step)
    requires TurnsKept(a) && (MidTurn(a) && OfSender(step) ==> step.FlushStep?)
    ensures TurnsKept(a + [step])
    ensures MidTurn(a + [step]) <==> step.NoticeStep? || (!OfSender(step) && MidTurn(a))
  {
    hide MidTurn;
    var b := a + [step];
    assert b[..|b| - 1] == a;
    MidTurnUnfolds(b);
    forall i | 0 <= i < |b| && OfSender(b[i]) && MidTurn(b[..i])
      ensures b[i].FlushStep?
    {
      if i < |a| {
        assert b[..i] == a[..i];
      }
    }
  }

  lemma MidTurnUnfolds(b: seq<Step>)
    requires b != []
    ensures MidTurn(b) <==>
              b[|b| - 1].NoticeStep? || (!OfSender(b[|b| - 1]) && MidTurn(b[..|b| - 1]))
  {}

  /** Whole turns after whole turns. */
  lemma {:induction false} OrderlyTurns(a: seq<Step>, b: seq<Step>)
    requires TurnsKept(a) && !MidTurn(a) && Orderly(b)
    ensures TurnsKept(a + b) && !MidTurn(a + b)
    decreases |b|
  {
    hide TurnsKept, MidTurn;
    if b == [] {
      assert a + b == a;
    } else {
      TurnStep(a, b[0]);
      if b[0].TimerStep? || b[0].FlushStep? {
        OrderlyTurns(a + [b[0]], b[1..]);
        assert a + b == a + [b[0]] + b[1..];
      } else {
        TurnStep(a + [b[0]], b[1]);
        if b[1].FlushStep? || b[1].DrainStep? {
          OrderlyTurns(a + [b[0]] + [b[1]], b[2..]);
          assert a + b == a + [b[0]] + [b[1]] + b[2..];
        } else {
          TurnStep(a + [b[0]] + [b[1]], b[2]);
          OrderlyTurns(a + [b[0]] + [b[1]] + [b[2]], b[3..]);
          assert a + b == a + [b[0]] + [b[1]] + [b[2]] + b[3..];
        }
      }
    }
  }

  /** A finite run, and then nothing but time, flushes and turns of the receiving daemon. */
  ghost function Forever(states: seq<System>, steps: seq<Step>, order: seq<int>): Execution
    requires |states| == |steps| + 1
  {
    Execution((n: nat) => if n < |states| then states[n] else states[|states| - 1],
              (n: nat) => if n < |steps| then steps[n]
                          else match (n - |steps|) % 4
                               case 0 => TimerStep(1.0, false)
                               case 1 => FlushStep(order)
                               case 2 => AcceptStep
                               case _ => DrainStep)
  }

  ghost predicate Rests(states: seq<System>, steps: seq<Step>, order: seq<int>) {
    && IsRun(states, steps) && TurnsKept(steps) && !MidTurn(steps)
    && AtRest(states[|steps|]) && Settled(states[|steps|].server) && Alive(states[|steps|].server)
    && IsOrder(order, states[|steps|].client.socks.Keys)
  }

  lemma ForeverRuns(states: seq<System>, steps: seq<Step>, order: seq<int>)
    requires Rests(states, steps, order)
    ensures Runs(Forever(states, steps, order))
  {
    hide AtRest, Settled, Alive, Enabled, After, Init, TurnsKept, MidTurn;
    var e := Forever(states, steps, order);
    var last := states[|steps|];
    FlushAtRest(last, order);
    WaitAtRest(last);
    TurnWhenSettled(last);
    forall n: nat
      ensures Moves(e, n)
    {
      if n < |steps| {
        assert e.run(n + 1) == states[n + 1];
      }
    }
  }

  /** A notice that is gone has been read. */
  lemma {:induction false} NoticesRead(states: seq<System>, steps: seq<Step>, i: nat) returns (j: nat)
    requires IsRun(states, steps) && i < |steps| && states[i].notices != [] && states[|steps|].notices == []
    ensures i <= j < |steps| && steps[j].NoticeStep?
    decreases |steps| - i
  {
    if steps[i].NoticeStep? {
      j := i;
    } else {
      hide Enabled;
      assert states[i + 1] == After(states[i], steps[i]);
      assert states[i + 1].notices != [];
      j := NoticesRead(states, steps, i + 1);
    }
  }

  lemma TransitStays(s: System, step: Step)
    requires Inv(s) && Enabled(s, step) && InTransit(s) != [] && !Takes(step)
    ensures InTransit(After(s, step)) != []
  {
    hide Inv, OneRound, OpenAck, OpenData;
    match step {
      case FlushStep(order) => FlushWrites(s.client, order);
      case _ =>
    }
  }

  /** So has a request to the timer. */
  lemma {:induction false} RequestsRead(states: seq<System>, steps: seq<Step>, i: nat) returns (j: nat)
    requires IsRun(states, steps) && i < |steps|
    requires InTransit(states[i]) != [] && InTransit(states[|steps|]) == []
    ensures i <= j < |steps| && Takes(steps[j])
    decreases |steps| - i
  {
    hide Inv, Enabled, After, InTransit;
    if Takes(steps[i]) {
      j := i;
    } else {
      RunInv(states, steps, i);
      TransitStays(states[i], steps[i]);
      j := RequestsRead(states, steps, i + 1);
    }
  }

  lemma {:induction false} TimePasses(states: seq<System>, steps: seq<Step>, order: seq<int>, k: nat)
    requires IsRun(states, steps)
    ensures Elapsed(Forever(states, steps, order), |steps| + 4 * k) >= k as real
    decreases k
  {
    hide IsRun, Elapsed;
    RunLength(states, steps);
    var e := Forever(states, steps, order);
    if k == 0 {
      NeverBack(states, steps, order, |steps|);
    } else {
      TimePasses(states, steps, order, k - 1);
      var n := |steps| + 4 * (k - 1);
      Cycle(states, steps, order, k - 1);
      OneMore(e, n);
      OneMore(e, n + 1);
      OneMore(e, n + 2);
      OneMore(e, n + 3);
    }
  }

  lemma Cycle(states: seq<System>, steps: seq<Step>, order: seq<int>, k: nat)
    requires |states| == |steps| + 1
    ensures var e, n := Forever(states, steps, order), |steps| + 4 * k;
            && e.step(n) == TimerStep(1.0, false) && e.step(n + 1) == FlushStep(order)
            && e.step(n + 2) == AcceptStep && e.step(n + 3) == DrainStep
  {}

  lemma CycleFrom(states: seq<System>, steps: seq<Step>, order: seq<int>, i: nat)
    requires |states| == |steps| + 1
    ensures var e := Forever(states, steps, order); FlushesFrom(e, i) && AcceptsFrom(e, i) && DrainsFrom(e, i)
  {
    Cycle(states, steps, order, i);
    var e, j := Forever(states, steps, order), |steps| + 4 * i;
    assert e.step(j + 1).FlushStep? && e.step(j + 2).AcceptStep? && e.step(j + 3).DrainStep?;
  }

  lemma OneMore(e: Execution, n: nat)
    ensures Elapsed(e, n + 1) == Elapsed(e, n) + match e.step(n) case TimerStep(elapsed, _) => elapsed case _ => 0.0
  {}

  lemma {:induction false} NeverBack(states: seq<System>, steps: seq<Step>, order: seq<int>, n: nat)
    requires IsRun(states, steps) && n <= |steps|
    ensures Elapsed(Forever(states, steps, order), n) >= 0.0
  {
    hide After, Init;
    if n == 0 {
    } else {
      NeverBack(states, steps, order, n - 1);
      assert Enabled(states[n - 1], steps[n - 1]);
      assert Forever(states, steps, order).step(n - 1) == steps[n - 1];
    }
  }

  lemma ForeverGoesOn(states: seq<System>, steps: seq<Step>, order: seq<int>)
    requires Rests(states, steps, order)
    ensures LoopsGoOn(Forever(states, steps, order)) && ReceiverGoesOn(Forever(states, steps, order))
  {
    hide IsRun, Elapsed, Empty, IsOrder, InTransit, MidTurn;
    RunLength(states, steps);
    var e := Forever(states, steps, order);
    var n := |steps|;
    forall i: nat | Reading(e, i) && OfSender(e.step(i))
      ensures e.step(i).FlushStep?
    {
      if i < n {
        assert Steps(e, i) == steps[..i];
      } else {
        NotReading(states, steps, order, i);
      }
    }
    forall i: nat
      ensures FlushesFrom(e, i) && AcceptsFrom(e, i) && DrainsFrom(e, i)
    {
      CycleFrom(states, steps, order, i);
    }
    forall i: nat | e.run(i).notices != []
      ensures ReadsNotice(e, i)
    {
      var j := NoticesRead(states, steps, i);
      assert e.step(j) == steps[j];
    }
    forall i: nat | InTransit(e.run(i)) != []
      ensures ReadsRequest(e, i)
    {
      var j := RequestsRead(states, steps, i);
      assert e.step(j) == steps[j];
    }
    forall time: real
      ensures Passes(e, time)
    {
      var k: nat := if time < 0.0 then 0 else time.Floor + 1;
      TimePasses(states, steps, order, k);
      assert k as real > time;
    }
  }

  lemma {:induction false} NotReading(states: seq<System>, steps: seq<Step>, order: seq<int>, i: nat)
    requires |states| == |steps| + 1 && !MidTurn(steps) && i >= |steps|
    ensures !Reading(Forever(states, steps, order), i)
    decreases i
  {
    var e := Forever(states, steps, order);
    if i == |steps| {
      assert Steps(e, i) == steps;
    } else {
      hide Reading, MidTurn;
      NotReading(states, steps, order, i - 1);
      ReadingOn(e, i - 1);
    }
  }

  lemma RunLength(states: seq<System>, steps: seq<Step>)
    requires IsRun(states, steps)
    ensures |states| == |steps| + 1
  {}

  lemma ForeverFair(states: seq<System>, steps: seq<Step>, order: seq<int>)
    requires |states| == |steps| + 1
    ensures NetworkIsFair(Forever(states, steps, order))
  {
    var e := Forever(states, steps, order);
    var n := |steps|;
    forall p
      ensures !SentForever(e, p) && !DeliveredForever(e, p)
    {
      assert !SendsFrom(e, p, n);
      assert !DeliversFrom(e, p, n);
    }
    forall a
      ensures !AnsweredForever(e, a)
    {
      assert !AnswersFrom(e, a, n);
    }
  }

  // ----- The theorem -----------------------------------------------------------------------------

  /** A run in which the sending daemon has flushed next after each notice, with a receiving daemon
      that reads all sessions and no session past the sentinel, can go on to a fair infinite run. */
  lemma FairContinuation(states: seq<System>, steps: seq<Step>) returns (e: Execution)
    requires IsRun(states, steps) && TurnsKept(steps)
    requires Alive(states[|steps|].server) && Reachable(states[|steps|]) && BelowSentinel(states[|steps|])
    ensures Runs(e) && LoopsGoOn(e) && ReceiverGoesOn(e) && NetworkIsFair(e)
    ensures forall i :: 0 <= i <= |steps| ==> e.run(i) == states[i]
    ensures forall i :: 0 <= i < |steps| ==> e.step(i) == steps[i]
    ensures forall i: nat :: i >= |steps| ==> NoCall(e.step(i))
  {
    hide Inv, IsRun, Alive, Reachable, BelowSentinel, Path, Orderly, AtRest, Settled, IsOrder, Runs, LoopsGoOn,
        NetworkIsFair, Enabled, TurnsKept, MidTurn, ReceiverGoesOn;
    RunLength(states, steps);
    RunInv(states, steps, |steps|);
    var rest, t := FlushToEnd(states[|steps|]);
    var all := Extended(states, steps, |steps|, rest, t, NoCalls);
    assert steps[..|steps|] == steps;
    TurnsEnd(steps, rest);
    var order := OrderExists(t.client.socks.Keys);
    e := Forever(all, steps + rest, order);
    ForeverRuns(all, steps + rest, order);
    ForeverGoesOn(all, steps + rest, order);
    ForeverFair(all, steps + rest, order);
  }

  lemma TurnsEnd(a: seq<Step>, b: seq<Step>)
    requires TurnsKept(a) && b != [] && b[0].FlushStep? && Orderly(b)
    ensures TurnsKept(a + b) && !MidTurn(a + b)
  {
    hide TurnsKept, MidTurn;
    TurnStep(a, b[0]);
    OrderlyTurns(a + [b[0]], b[1..]);
    assert a + b == a + [b[0]] + b[1..];
  }

  /** The open turn is ended, and then everything else. */
  lemma FlushToEnd(s: System) returns (steps: seq<Step>, t: System)
    requires Inv(s) && Alive(s.server) && Reachable(s) && BelowSentinel(s)
    ensures Goes(s, steps, t, NoCalls) && AtRest(t) && Settled(t.server) && Alive(t.server)
    ensures steps != [] && steps[0].FlushStep?
  {
    hide Inv, Alive, Reachable, BelowSentinel, Goes, AtRest, Settled, FlushInOrder, IsOrder, SameBuffers;
    var order := OrderExists(s.client.socks.Keys);
    FlushIs(s, order);
    FlushBuffers(s, order);
    var u := After(s, FlushStep(order));
    StepInv(s, FlushStep(order));
    OneTurn(s, FlushStep(order));
    QuietGoes(s, [FlushStep(order)], u);
    SameBuffersBases(s, u);
    BelowStays(s, u);
    ReachableStays(s, u);
    var rest, v := ToRest(u);
    GoesConcat(s, [FlushStep(order)], u, rest, v, NoCalls);
    var turn, w := LastTurn(v);
    GoesConcat(s, [FlushStep(order)] + rest, v, turn, w, NoCalls);
    steps, t := [FlushStep(order)] + rest + turn, w;
  }

  /** The receiving daemon ends its turn once more. */
  lemma LastTurn(s: System) returns (steps: seq<Step>, t: System)
    requires Inv(s) && AtRest(s) && Alive(s.server)
    ensures Goes(s, steps, t, NoCalls) && AtRest(t) && Settled(t.server) && Alive(t.server)
  {
    hide Inv, Alive, Settled, Path, RecvBack, AcceptBack, Splitting, RecordsBound;
    InvBound(s);
    AcceptGoesOn(s);
    var u := After(s, AcceptStep);
    AcceptAlive(s.server, |s.server.bound|);
    DrainGoesOn(u);
    DrainAlive(u.server);
    TurnSettles(s.server);
    OneStep(s, AcceptStep, NoCalls);
    PathThen(s, [AcceptStep], u, DrainStep, NoCalls);
    steps, t := [AcceptStep] + [DrainStep], After(u, DrainStep);
    assert steps[2..] == [] && Orderly([]);
  }
}
