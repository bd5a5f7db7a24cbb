/** Infinite runs: under fair timers and a network that does not lose everything, every package
    below the sentinel is received and acknowledged in the end. */
module Liveness {
  import opened Options
  import opened Wire
  import opened TimerList
  import TimerRun
  import opened Sender
  import opened Conversation
  import opened Protocol
  import opened Tokens
  import opened TimedRun
  import opened Reliability
  import opened Retransmission
  import opened Ordering
  import opened Sentinel
  import opened Paths
  import opened Completion
  import opened Progress

  // ----- Infinite runs and what is asked of them -------------------------------------------------

  datatype Execution = Execution(run: nat -> System, step: nat -> Step)

  ghost predicate Moves(e: Execution, i: nat) {
    Enabled(e.run(i), e.step(i)) && e.run(i + 1) == After(e.run(i), e.step(i))
  }

  ghost predicate Runs(e: Execution) {
    Init(e.run(0)) && forall i: nat :: Moves(e, i)
  }

  /** The next step of the sending daemon after it has read a notice is the flush that ends its turn. */
  ghost predicate FlushesAfterNotice(e: Execution) {
    forall i: nat :: Reading(e, i) && OfSender(e.step(i)) ==> e.step(i).FlushStep?
  }

  /** After i steps the sending daemon has read a notice, and has not taken a step since. */
  ghost predicate Reading(e: Execution, i: nat) {
    MidTurn(Steps(e, i))
  }

  lemma ReadingOn(e: Execution, i: nat)
    ensures Reading(e, i + 1) <==> e.step(i).NoticeStep? || (!OfSender(e.step(i)) && Reading(e, i))
  {
    assert Steps(e, i + 1)[..i] == Steps(e, i);
  }

  ghost predicate FlushesFrom(e: Execution, i: nat) {
    exists j: nat :: j >= i && e.step(j).FlushStep?
  }

  ghost predicate ReadsNotice(e: Execution, i: nat) {
    exists j: nat :: j >= i && e.step(j).NoticeStep?
  }

  ghost predicate Takes(step: Step) {
    step.TimerStep? && step.take
  }

  ghost predicate ReadsRequest(e: Execution, i: nat) {
    exists j: nat :: j >= i && Takes(e.step(j))
  }

  /** The time that has passed in the first n steps. */
  function Elapsed(e: Execution, n: nat): real {
    if n == 0 then
      0.0
    else
      Elapsed(e, n - 1) + match e.step(n - 1) case TimerStep(elapsed, _) => elapsed case _ => 0.0
  }

  ghost predicate Passes(e: Execution, time: real) {
    exists n: nat :: Elapsed(e, n) > time
  }

  /** The daemon goes on flushing, notices and requests that are on their way are read, and time
      does not stand still. */
  ghost predicate LoopsGoOn(e: Execution) {
    && FlushesAfterNotice(e)
    && (forall i: nat :: FlushesFrom(e, i))
    && (forall i: nat :: e.run(i).notices != [] ==> ReadsNotice(e, i))
    && (forall i: nat :: InTransit(e.run(i)) != [] ==> ReadsRequest(e, i))
    && (forall time: real :: Passes(e, time))
  }

  ghost predicate AcceptsFrom(e: Execution, i: nat) {
    exists j: nat :: j >= i && e.step(j).AcceptStep?
  }

  ghost predicate DrainsFrom(e: Execution, i: nat) {
    exists j: nat :: j >= i && e.step(j).DrainStep?
  }

  /** The receiving daemon goes on ending its turns. */
  ghost predicate ReceiverGoesOn(e: Execution) {
    forall i: nat :: AcceptsFrom(e, i) && DrainsFrom(e, i)
  }

  ghost predicate SendsAt(e: Execution, p: Package, i: nat) {
    e.step(i).FlushStep? && Transmissions(e.run(i), p) < Transmissions(e.run(i + 1), p)
  }

  ghost predicate DeliversAt(e: Execution, p: Package, i: nat) {
    e.step(i).DataStep? && OpenData(e.step(i).datagram) == Some(p)
  }

  ghost predicate AcksAt(e: Execution, a: Ack, i: nat) {
    e.step(i).AckStep? && OpenAck(e.step(i).datagram) == Some(a)
  }

  ghost predicate SendsFrom(e: Execution, p: Package, i: nat) {
    exists j: nat :: j >= i && SendsAt(e, p, j)
  }

  ghost predicate DeliversFrom(e: Execution, p: Package, i: nat) {
    exists j: nat :: j >= i && DeliversAt(e, p, j)
  }

  ghost predicate AcksFrom(e: Execution, a: Ack, i: nat) {
    exists j: nat :: j >= i && AcksAt(e, a, j)
  }

  ghost predicate SentForever(e: Execution, p: Package) {
    forall i: nat :: SendsFrom(e, p, i)
  }

  ghost predicate DeliveredForever(e: Execution, p: Package) {
    forall i: nat :: DeliversFrom(e, p, i)
  }

  ghost predicate AckedForever(e: Execution, a: Ack) {
    forall i: nat :: AcksFrom(e, a, i)
  }

  /** The receiving daemon hands the network one more copy of an acknowledgement. */
  ghost predicate AnswersAt(e: Execution, a: Ack, i: nat) {
    multiset(e.run(i).server.acks)[a] < multiset(e.run(i + 1).server.acks)[a]
  }

  ghost predicate AnswersFrom(e: Execution, a: Ack, i: nat) {
    exists j: nat :: j >= i && AnswersAt(e, a, j)
  }

  ghost predicate AnsweredForever(e: Execution, a: Ack) {
    forall i: nat :: AnswersFrom(e, a, i)
  }

  /** What is sent again and again gets through again and again, packages and acknowledgements. */
  ghost predicate NetworkIsFair(e: Execution) {
    && (forall p :: SentForever(e, p) ==> DeliveredForever(e, p))
    && (forall a :: AnsweredForever(e, a) ==> AckedForever(e, a))
  }

  // ----- Prefixes are runs -----------------------------------------------------------------------

  ghost function States(e: Execution, n: nat): (states: seq<System>)
    ensures |states| == n + 1 && forall i :: 0 <= i <= n ==> states[i] == e.run(i)
  {
    seq(n + 1, i requires 0 <= i => e.run(i))
  }

  ghost function Steps(e: Execution, n: nat): (steps: seq<Step>)
    ensures |steps| == n && forall i :: 0 <= i < n ==> steps[i] == e.step(i)
  {
    seq(n, i requires 0 <= i => e.step(i))
  }

  lemma PrefixIsRun(e: Execution, n: nat)
    requires Runs(e)
    ensures IsRun(States(e, n), Steps(e, n))
  {
    hide Enabled, After, Init;
    var states, steps := States(e, n), Steps(e, n);
    forall i | 0 <= i < n
      ensures Enabled(states[i], steps[i]) && states[i + 1] == After(states[i], steps[i])
    {
      assert Moves(e, i);
    }
  }

  lemma AlwaysInv(e: Execution, n: nat)
    requires Runs(e)
    ensures Inv(e.run(n)) && Moves(e, n)
  {
    hide Inv, IsRun, Moves;
    PrefixIsRun(e, n);
    RunInv(States(e, n), Steps(e, n), n);
  }

  /** A measure that never grows, and shrinks at events that keep coming, runs out. */
  lemma {:induction false} RunsOut(alive: nat -> bool, measure: nat -> nat, event: nat -> bool, i: nat) returns (j: nat)
    requires forall m: nat :: m >= i && alive(m + 1) ==> alive(m) && measure(m + 1) <= measure(m)
    requires forall m: nat :: m >= i && alive(m + 1) && event(m) ==> measure(m + 1) < measure(m)
    requires forall m: nat :: m >= i && alive(m) ==> exists k: nat :: k >= m && event(k)
    ensures j >= i && !alive(j)
    decreases measure(i)
  {
    if !alive(i) {
      j := i;
    } else {
      var k: nat :| k >= i && event(k);
      if !alive(k + 1) {
        j := k + 1;
      } else {
        NeverGrows(alive, measure, i, k + 1);
        NeverGrows(alive, measure, i, k);
        j := RunsOut(alive, measure, event, k + 1);
      }
    }
  }

  lemma {:induction false} NeverGrows(alive: nat -> bool, measure: nat -> nat, i: nat, j: nat)
    requires forall m: nat :: m >= i && alive(m + 1) ==> alive(m) && measure(m + 1) <= measure(m)
    requires i <= j && alive(j)
    ensures measure(j) <= measure(i)
    decreases j
  {
    if i == j {
    } else {
      NeverGrows(alive, measure, i, j - 1);
    }
  }

  // ----- A package that stays --------------------------------------------------------------------

  /** Package p is buffered on fd at every moment from i on, and is the lowest there. */
  ghost predicate Stays(e: Execution, fd: int, p: Package, i: nat) {
    && p.seqNum < LIMIT
    && forall j: nat :: j >= i ==> IsLowest(e.run(j), fd, p)
  }

  ghost predicate IsLowest(s: System, fd: int, p: Package) {
    fd in s.client.socks && Lowest(s.client.socks[fd], p)
  }

  ghost predicate InFlight(s: System, fd: int, p: Package) {
    fd in s.client.socks && p in s.client.socks[fd].packages
  }

  ghost predicate ReadsOwn(e: Execution, p: Package, i: nat) {
    e.step(i).NoticeStep? && e.run(i).notices != [] && e.run(i).notices[0] == IdOf(p)
  }

  lemma Moved(e: Execution, i: nat)
    requires Runs(e)
    ensures Enabled(e.run(i), e.step(i)) && e.run(i + 1) == After(e.run(i), e.step(i))
  {
    hide Enabled, After;
    assert Moves(e, i);
  }

  /** One step of a package that stays. */
  lemma StepOfStaying(e: Execution, fd: int, p: Package, i: nat, j: nat)
    requires Runs(e) && Stays(e, fd, p, i) && j >= i && InFlight(e.run(j), fd, p)
    ensures ReadsOwn(e, p, j) || InFlight(e.run(j + 1), fd, p)
    ensures ReadsOwn(e, p, j) ==> fd in e.run(j + 1).client.socks && p in e.run(j + 1).client.socks[fd].pending
  {
    hide Inv, Lowest, Runs, Moves, After;
    Moved(e, j);
    AlwaysInv(e, j);
    assert IsLowest(e.run(j), fd, p) && IsLowest(e.run(j + 1), fd, p);
    LowestBuffered(e.run(j + 1).client.socks[fd], p);
    NoticesThere(e.run(j), e.step(j));
    hide Enabled;
    StepInFlight(e.run(j), e.step(j), fd, p);
  }

  lemma LowestBuffered(k: Sock, p: Package)
    requires Lowest(k, p)
    ensures p in Buffered(k)
  {}

  lemma NoticesThere(s: System, step: Step)
    requires Enabled(s, step)
    ensures step.NoticeStep? ==> s.notices != []
  {}

  /** A flush puts it in flight. */
  lemma FlushOfStaying(e: Execution, fd: int, p: Package, i: nat, j: nat)
    requires Runs(e) && Stays(e, fd, p, i) && j >= i && e.step(j).FlushStep?
    ensures InFlight(e.run(j + 1), fd, p)
    ensures p in e.run(j).client.socks[fd].pending ==> SendsAt(e, p, j)
  {
    hide Inv, Lowest, Runs, Moves, After, Transmissions;
    Moved(e, j);
    assert IsLowest(e.run(j), fd, p);
    FlushedLowest(e.run(j), e.step(j).order, fd, p);
  }

  /** From some moment on it is in flight, except between its notice and the flush after that. */
  ghost predicate Flies(e: Execution, fd: int, p: Package, k: nat) {
    forall j: nat :: j >= k ==> InFlight(e.run(j), fd, p) || Reading(e, j)
  }

  lemma {:induction false} FliesAt(e: Execution, fd: int, p: Package, i: nat, k: nat, j: nat)
    requires Runs(e) && FlushesAfterNotice(e) && Stays(e, fd, p, i) && i <= k <= j && InFlight(e.run(k), fd, p)
    ensures InFlight(e.run(j), fd, p) || Reading(e, j)
    decreases j
  {
    hide Runs, Stays, InFlight, Reading;
    if j == k {
    } else {
      FliesAt(e, fd, p, i, k, j - 1);
      ReadingOn(e, j - 1);
      if InFlight(e.run(j - 1), fd, p) {
        StepOfStaying(e, fd, p, i, j - 1);
      } else if OfSender(e.step(j - 1)) {
        FlushOfStaying(e, fd, p, i, j - 1);
      }
    }
  }

  lemma InFlightSoon(e: Execution, fd: int, p: Package, i: nat) returns (k: nat)
    requires Runs(e) && LoopsGoOn(e) && Stays(e, fd, p, i)
    ensures k > i && InFlight(e.run(k), fd, p) && Flies(e, fd, p, k)
  {
    hide Runs, Stays, InFlight, Inv, Reading;
    assert FlushesFrom(e, i);
    var j: nat :| j >= i && e.step(j).FlushStep?;
    FlushOfStaying(e, fd, p, i, j);
    k := j + 1;
    forall m: nat | m >= k
      ensures InFlight(e.run(m), fd, p) || Reading(e, m)
    {
      FliesAt(e, fd, p, i, k, m);
    }
  }

  // ----- Its timer comes due ---------------------------------------------------------------------

  /** It is in flight from k on, and its notice is never read. */
  ghost predicate Calm(e: Execution, fd: int, p: Package, k: nat) {
    forall j: nat :: j >= k ==> InFlight(e.run(j), fd, p) && !ReadsOwn(e, p, j)
  }

  lemma CalmAt(e: Execution, fd: int, p: Package, k: nat, j: nat)
    requires Runs(e) && Calm(e, fd, p, k) && j >= k
    ensures InFlight(e.run(j), fd, p) && InFlight(e.run(j + 1), fd, p) && !ReadsOwn(e, p, j)
    ensures Enabled(e.run(j), e.step(j)) && e.run(j + 1) == After(e.run(j), e.step(j)) && Inv(e.run(j))
  {
    hide Inv, Runs, InFlight, Enabled, After, ReadsOwn;
    Moved(e, j);
    AlwaysInv(e, j);
  }

  ghost predicate StartOnItsWay(e: Execution, id: Id, j: nat) {
    Starting(InTransit(e.run(j)), id)
  }

  ghost function StartPlace(e: Execution, id: Id, j: nat): nat {
    StartAt(InTransit(e.run(j)), id)
  }

  lemma StartNearer(e: Execution, fd: int, p: Package, k: nat, j: nat)
    requires Runs(e) && Calm(e, fd, p, k) && j >= k && StartOnItsWay(e, IdOf(p), j + 1)
    ensures StartOnItsWay(e, IdOf(p), j)
    ensures StartPlace(e, IdOf(p), j + 1) <= StartPlace(e, IdOf(p), j)
    ensures Takes(e.step(j)) ==> StartPlace(e, IdOf(p), j + 1) < StartPlace(e, IdOf(p), j)
  {
    hide Inv, Runs, Enabled, After, Calm, Starting;
    CalmAt(e, fd, p, k, j);
    StepStarting(e.run(j), e.step(j), fd, p);
  }

  /** The request for its timer is read in the end, and no other follows. */
  lemma StartRead(e: Execution, fd: int, p: Package, k: nat) returns (j: nat)
    requires Runs(e) && LoopsGoOn(e) && Calm(e, fd, p, k)
    ensures j >= k && forall m: nat :: m >= j ==> !StartOnItsWay(e, IdOf(p), m)
  {
    hide Runs, Calm, StartOnItsWay, StartPlace, Takes;
    var id := IdOf(p);
    var alive, place, event := (m: nat) => StartOnItsWay(e, id, m), (m: nat) => StartPlace(e, id, m), (m: nat) =>
        Takes(e.step(m));
    forall m: nat | m >= k && alive(m + 1)
      ensures alive(m) && place(m + 1) <= place(m)
      ensures event(m) ==> place(m + 1) < place(m)
    {
      StartNearer(e, fd, p, k, m);
    }
    forall m: nat | m >= k && alive(m)
      ensures exists n: nat :: n >= m && event(n)
    {
      SomethingOnItsWay(e, id, m);
      assert ReadsRequest(e, m);
      var n: nat :| n >= m && Takes(e.step(n));
      assert event(n);
    }
    j := RunsOut(alive, place, event, k);
    forall m: nat | m >= j
      ensures !StartOnItsWay(e, id, m)
    {
      NeverAgain(e, fd, p, k, j, m);
    }
  }

  lemma SomethingOnItsWay(e: Execution, id: Id, m: nat)
    requires StartOnItsWay(e, id, m)
    ensures InTransit(e.run(m)) != []
  {}

  lemma {:induction false} NeverAgain(e: Execution, fd: int, p: Package, k: nat, j: nat, m: nat)
    requires Runs(e) && Calm(e, fd, p, k) && k <= j <= m && !StartOnItsWay(e, IdOf(p), j)
    ensures !StartOnItsWay(e, IdOf(p), m)
    decreases m
  {
    hide Runs, Calm, StartOnItsWay, StartPlace;
    if m == j {
    } else {
      NeverAgain(e, fd, p, k, j, m - 1);
      if StartOnItsWay(e, IdOf(p), m) {
        StartNearer(e, fd, p, k, m - 1);
      }
    }
  }

  // ----- Time ------------------------------------------------------------------------------------

  ghost function RoundsOf(e: Execution, n: nat): seq<TimerRun.Round> {
    Rounds(States(e, n), Steps(e, n), n)
  }

  lemma {:induction false} SameRounds(e: Execution, n: nat, m: nat, i: nat)
    requires i <= n && i <= m
    ensures Rounds(States(e, n), Steps(e, n), i) == Rounds(States(e, m), Steps(e, m), i)
  {
    hide TimerRequest;
    if i == 0 {
    } else {
      SameRounds(e, n, m, i - 1);
    }
  }

  lemma NextRound(e: Execution, n: nat)
    ensures RoundsOf(e, n + 1) ==
              match e.step(n)
              case TimerStep(elapsed, take) =>
                RoundsOf(e, n) +
                  [TimerRun.Round(TimerRun.Clock(0.0, RoundsOf(e, n)) + elapsed, TimerRequest(e.run(n), take))]
              case _ => RoundsOf(e, n)
  {
    hide TimerRequest;
    SameRounds(e, n + 1, n, n);
  }

  lemma {:induction false} ClockIsElapsed(e: Execution, n: nat)
    ensures TimerRun.Clock(0.0, RoundsOf(e, n)) == Elapsed(e, n)
  {
    hide TimerRequest, RoundsOf;
    if n == 0 {
      NoRoundsYet(e);
    } else {
      ClockIsElapsed(e, n - 1);
      NextRound(e, n - 1);
    }
  }

  lemma NoRoundsYet(e: Execution)
    ensures RoundsOf(e, 0) == []
  {}

  lemma TimerAt(e: Execution, n: nat)
    requires Runs(e)
    ensures TimerRun.WellTimed(0.0, RoundsOf(e, n)) && TimerRun.ListAfter(0.0, RoundsOf(e, n)) == e.run(n).timer
  {
    hide IsRun, Runs, TimerRun.WellTimed, TimerRun.ListAfter, TimerRun.Fired;
    PrefixIsRun(e, n);
    TimerRunsItsLoop(States(e, n), Steps(e, n), n);
  }

  /** An entry keeps waiting, with its deadline, while its id is in the list. */
  lemma {:induction false} KeepsWaiting(e: Execution, x: TimerRun.Entry, j: nat, m: nat)
    requires Runs(e) && j <= m && x in TimerRun.Waiting(0.0, RoundsOf(e, j))
    requires forall n: nat :: n >= j ==> Has(e.run(n).timer, x.id)
    ensures x in TimerRun.Waiting(0.0, RoundsOf(e, m))
    decreases m
  {
    hide Runs, Has, RoundsOf, TimerRun.Waiting, TimerRun.WellTimed, TimerRun.ListAfter, TimerRequest;
    if m == j {
    } else {
      KeepsWaiting(e, x, j, m - 1);
      NextRound(e, m - 1);
      TimerAt(e, m);
      if e.step(m - 1).TimerStep? {
        var before, rounds := RoundsOf(e, m - 1), RoundsOf(e, m);
        assert rounds[..|rounds| - 1] == before;
        TimerRun.StillListed(0.0, rounds, x);
      }
    }
  }

  /** A clock that passes every deadline empties the list of any one timer. */
  lemma TimerLeaves(e: Execution, id: Id, j: nat) returns (m: nat)
    requires Runs(e) && LoopsGoOn(e)
    ensures m >= j && !Has(e.run(m).timer, id)
  {
    hide Runs, Has, RoundsOf, TimerRun.Waiting, TimerRun.WellTimed, TimerRun.ListAfter, Elapsed;
    if n: nat :| n >= j && !Has(e.run(n).timer, id) {
      m := n;
    } else {
      TimerAt(e, j);
      TimerRun.SameIds(0.0, RoundsOf(e, j), id);
      var x := TimerRun.EntryFor(0.0, RoundsOf(e, j), id);
      assert Passes(e, x.deadline);
      var n: nat :| Elapsed(e, n) > x.deadline;
      m := if n < j then j else n;
      ElapsedGrows(e, n, m);
      KeepsWaiting(e, x, j, m);
      ClockIsElapsed(e, m);
      TimerAt(e, m);
      TimerRun.NotYetDue(0.0, RoundsOf(e, m), x);
      assert false;
    }
  }

  lemma {:induction false} ElapsedGrows(e: Execution, n: nat, m: nat)
    requires Runs(e) && n <= m
    ensures Elapsed(e, n) <= Elapsed(e, m)
    decreases m
  {
    hide Runs, After;
    if n == m {
    } else {
      ElapsedGrows(e, n, m - 1);
      Moved(e, m - 1);
    }
  }

  // ----- Its notice is read ----------------------------------------------------------------------

  ghost predicate Noticed(e: Execution, id: Id, n: nat) {
    id in e.run(n).notices
  }

  ghost function NoticePlace(e: Execution, id: Id, n: nat): nat {
    NoticeAt(e.run(n).notices, id)
  }

  ghost predicate ReadsId(e: Execution, id: Id, n: nat) {
    e.step(n).NoticeStep? && e.run(n).notices != [] && e.run(n).notices[0] == id
  }

  lemma NoticeNearer(e: Execution, id: Id, n: nat)
    requires Runs(e) && Noticed(e, id, n) && !ReadsId(e, id, n)
    ensures Noticed(e, id, n + 1)
    ensures NoticePlace(e, id, n + 1) <= NoticePlace(e, id, n)
    ensures e.step(n).NoticeStep? ==> NoticePlace(e, id, n + 1) < NoticePlace(e, id, n)
  {
    hide Inv, Runs, Enabled, After;
    Moved(e, n);
    AlwaysInv(e, n);
    InvTokens(e.run(n));
    hide TokensInv;
    StepNotices(e.run(n), e.step(n), id);
  }

  ghost predicate Unread(e: Execution, id: Id, m: nat, n: nat) {
    forall r: nat :: m <= r < n ==> !ReadsId(e, id, r)
  }

  lemma {:induction false} NoticeStays(e: Execution, id: Id, m: nat, n: nat)
    requires Runs(e) && Noticed(e, id, m) && m <= n && Unread(e, id, m, n)
    ensures Noticed(e, id, n)
    decreases n
  {
    hide Runs, Noticed, NoticePlace, ReadsId;
    if n == m {
    } else {
      NoticeStays(e, id, m, n - 1);
      NoticeNearer(e, id, n - 1);
    }
  }

  /** A notice that is on its way is read in the end. */
  lemma NoticeIsRead(e: Execution, id: Id, m: nat) returns (r: nat)
    requires Runs(e) && LoopsGoOn(e) && Noticed(e, id, m)
    ensures r >= m && ReadsId(e, id, r)
  {
    hide Runs, NoticePlace, Noticed, ReadsId;
    var alive: nat -> bool := (n: nat) => Unread(e, id, m, n);
    var place: nat -> nat := (n: nat) => NoticePlace(e, id, n);
    var event: nat -> bool := (n: nat) => e.step(n).NoticeStep?;
    forall n: nat | n >= m && alive(n + 1)
      ensures alive(n) && place(n + 1) <= place(n)
      ensures event(n) ==> place(n + 1) < place(n)
    {
      assert !ReadsId(e, id, n);
      NoticeStays(e, id, m, n);
      NoticeNearer(e, id, n);
    }
    forall n: nat | n >= m && alive(n)
      ensures exists i: nat :: i >= n && event(i)
    {
      NoticeStays(e, id, m, n);
      SomethingNoticed(e, id, n);
      assert ReadsNotice(e, n);
      var i: nat :| i >= n && e.step(i).NoticeStep?;
      assert event(i);
    }
    var j := RunsOut(alive, place, event, m);
    r :| m <= r < j && ReadsId(e, id, r);
  }

  lemma SomethingNoticed(e: Execution, id: Id, n: nat)
    requires Noticed(e, id, n)
    ensures e.run(n).notices != []
  {}

  lemma NoticeComes(e: Execution, fd: int, p: Package, k: nat) returns (m: nat)
    requires Runs(e) && LoopsGoOn(e) && Calm(e, fd, p, k)
    ensures m >= k && Noticed(e, IdOf(p), m)
  {
    hide Runs, LoopsGoOn, Inv, Has, Calm, Starting;
    var j := StartRead(e, fd, p, k);
    m := TimerLeaves(e, IdOf(p), j);
    CalmAt(e, fd, p, k, m);
    OneToken(e.run(m), fd, p);
    assert !StartOnItsWay(e, IdOf(p), m);
  }

  lemma NeverCalm(e: Execution, fd: int, p: Package, k: nat)
    requires Runs(e) && LoopsGoOn(e)
    ensures !Calm(e, fd, p, k)
  {
    hide Runs, LoopsGoOn, Noticed, InFlight;
    if Calm(e, fd, p, k) {
      var m := NoticeComes(e, fd, p, k);
      var r := NoticeIsRead(e, IdOf(p), m);
      OwnIsId(e, p, r);
    }
  }

  lemma OwnIsId(e: Execution, p: Package, r: nat)
    ensures ReadsOwn(e, p, r) <==> ReadsId(e, IdOf(p), r)
  {}

  lemma OwnNoticeRead(e: Execution, fd: int, p: Package, i: nat, k: nat) returns (m: nat)
    requires Runs(e) && LoopsGoOn(e) && Stays(e, fd, p, i) && k >= i && InFlight(e.run(k), fd, p)
    ensures m >= k && InFlight(e.run(m), fd, p) && ReadsOwn(e, p, m)
  {
    hide Runs, LoopsGoOn, Stays, InFlight, ReadsOwn;
    if n: nat :| n >= k && InFlight(e.run(n), fd, p) && ReadsOwn(e, p, n) {
      m := n;
    } else {
      forall n: nat | n >= k
        ensures InFlight(e.run(n), fd, p) && !ReadsOwn(e, p, n)
      {
        FliesOn(e, fd, p, i, k, n);
      }
      NeverCalm(e, fd, p, k);
    }
  }

  lemma {:induction false} FliesOn(e: Execution, fd: int, p: Package, i: nat, k: nat, n: nat)
    requires Runs(e) && Stays(e, fd, p, i) && i <= k <= n && InFlight(e.run(k), fd, p)
    requires forall m: nat :: m >= k && InFlight(e.run(m), fd, p) ==> !ReadsOwn(e, p, m)
    ensures InFlight(e.run(n), fd, p)
    decreases n
  {
    hide Runs, Stays, InFlight, ReadsOwn;
    if n == k {
    } else {
      FliesOn(e, fd, p, i, k, n - 1);
      StepOfStaying(e, fd, p, i, n - 1);
    }
  }

  // ----- It is sent again and again, and gets through --------------------------------------------

  lemma SentAgain(e: Execution, fd: int, p: Package, i: nat, k: nat) returns (m: nat)
    requires Runs(e) && LoopsGoOn(e) && Stays(e, fd, p, i) && k >= i && InFlight(e.run(k), fd, p)
    ensures m >= k && SendsAt(e, p, m)
  {
    hide Runs, Stays, InFlight, SendsAt, Reading;
    var n := OwnNoticeRead(e, fd, p, i, k);
    StepOfStaying(e, fd, p, i, n);
    ReadingOn(e, n);
    m := FlushAfter(e, n + 1);
    SameClient(e, n + 1, m);
    FlushOfStaying(e, fd, p, i, m);
  }

  /** Nothing but the flush ends a turn in which a notice has been read. */
  lemma FlushAfter(e: Execution, n: nat) returns (m: nat)
    requires LoopsGoOn(e) && Reading(e, n)
    ensures m >= n && e.step(m).FlushStep? && forall j: nat :: n <= j < m ==> !OfSender(e.step(j))
  {
    hide Reading;
    assert FlushesFrom(e, n);
    var k: nat :| k >= n && e.step(k).FlushStep?;
    m := FirstOfSender(e, n, k);
  }

  lemma {:induction false} FirstOfSender(e: Execution, n: nat, k: nat) returns (m: nat)
    requires FlushesAfterNotice(e) && Reading(e, n) && n <= k && e.step(k).FlushStep?
    ensures n <= m <= k && e.step(m).FlushStep? && forall j: nat :: n <= j < m ==> !OfSender(e.step(j))
    decreases k - n
  {
    hide Reading;
    if OfSender(e.step(n)) {
      m := n;
    } else {
      ReadingOn(e, n);
      m := FirstOfSender(e, n + 1, k);
    }
  }

  lemma {:induction false} SameClient(e: Execution, n: nat, m: nat)
    requires Runs(e) && n <= m && forall j: nat :: n <= j < m ==> !OfSender(e.step(j))
    ensures e.run(m).client == e.run(n).client
    decreases m
  {
    hide Runs;
    if m == n {
    } else {
      SameClient(e, n, m - 1);
      Moved(e, m - 1);
      OthersLeaveIt(e.run(m - 1), e.step(m - 1));
    }
  }

  lemma OthersLeaveIt(s: System, step: Step)
    requires Enabled(s, step) && !OfSender(step)
    ensures After(s, step).client == s.client
  {
    hide OpenData, OneRound;
  }

  lemma SentOverAndOver(e: Execution, fd: int, p: Package, i: nat, k: nat)
    requires Runs(e) && LoopsGoOn(e) && Stays(e, fd, p, i) && k >= i && Flies(e, fd, p, k)
    ensures SentForever(e, p)
  {
    hide Runs, Stays, InFlight, SendsAt, Reading;
    forall n: nat
      ensures SendsFrom(e, p, n)
    {
      var j := if n < k then k else n;
      if !InFlight(e.run(j), fd, p) {
        var l := FlushAfter(e, j);
        FlushOfStaying(e, fd, p, i, l);
        var m := SentAgain(e, fd, p, i, l + 1);
      } else {
        var m := SentAgain(e, fd, p, i, j);
      }
    }
  }

  lemma NothingStays(e: Execution, fd: int, p: Package, i: nat)
    requires Runs(e) && LoopsGoOn(e) && NetworkIsFair(e)
    ensures !Stays(e, fd, p, i)
  {
    hide Runs, LoopsGoOn, NetworkIsFair, Stays;
    if Stays(e, fd, p, i) {
      var m := AckGetsThrough(e, fd, p, i);
      StillLowest(e, fd, p, i, m);
    }
  }

  lemma StillLowest(e: Execution, fd: int, p: Package, i: nat, m: nat)
    requires Stays(e, fd, p, i) && m >= i
    ensures fd in e.run(m).client.socks && p in Buffered(e.run(m).client.socks[fd])
  {
    assert IsLowest(e.run(m), fd, p);
  }

  lemma AckGetsThrough(e: Execution, fd: int, p: Package, i: nat) returns (n: nat)
    requires Runs(e) && LoopsGoOn(e) && NetworkIsFair(e) && Stays(e, fd, p, i)
    ensures n >= i && (fd in e.run(n).client.socks ==> p !in Buffered(e.run(n).client.socks[fd]))
  {
    hide Runs, InFlight, LoopsGoOn, Stays, Flies, AcksAt;
    var k := InFlightSoon(e, fd, p, i);
    SentOverAndOver(e, fd, p, i, k);
    var m := AckedLater(e, p, k + 1);
    FliesAtAck(e, fd, p, k, m);
    AckRemoves(e, fd, p, m);
    n := m + 1;
  }

  lemma ArrivalAnswered(e: Execution, p: Package, i: nat)
    requires Runs(e) && DeliversAt(e, p, i)
    ensures AnswersAt(e, Ack(p.session, p.seqNum), i)
  {
    hide Runs, Enabled, After, OpenData;
    Moved(e, i);
    StepAcks(e.run(i), e.step(i));
  }

  /** What arrives again and again is acknowledged again and again. */
  lemma ArrivalsAnswered(e: Execution, p: Package)
    requires Runs(e) && DeliveredForever(e, p)
    ensures AnsweredForever(e, Ack(p.session, p.seqNum))
  {
    hide Runs, DeliversAt, AnswersAt;
    forall i: nat
      ensures AnswersFrom(e, Ack(p.session, p.seqNum), i)
    {
      assert DeliversFrom(e, p, i);
      var j: nat :| j >= i && DeliversAt(e, p, j);
      ArrivalAnswered(e, p, j);
    }
  }

  lemma AckedLater(e: Execution, p: Package, i: nat) returns (m: nat)
    requires Runs(e) && NetworkIsFair(e) && SentForever(e, p)
    ensures m >= i && AcksAt(e, Ack(p.session, p.seqNum), m)
  {
    hide Runs, SentForever, DeliveredForever, AnsweredForever, AcksAt;
    ArrivalsAnswered(e, p);
    assert AcksFrom(e, Ack(p.session, p.seqNum), i);
    m :| m >= i && AcksAt(e, Ack(p.session, p.seqNum), m);
  }

  lemma FliesAtAck(e: Execution, fd: int, p: Package, k: nat, m: nat)
    requires LoopsGoOn(e) && Flies(e, fd, p, k) && m > k && AcksAt(e, Ack(p.session, p.seqNum), m)
    ensures InFlight(e.run(m), fd, p)
  {
    hide InFlight, OpenAck, Reading;
    assert OfSender(e.step(m));
  }

  lemma AckRemoves(e: Execution, fd: int, p: Package, m: nat)
    requires Runs(e) && InFlight(e.run(m), fd, p) && AcksAt(e, Ack(p.session, p.seqNum), m)
    ensures fd in e.run(m + 1).client.socks ==> p !in Buffered(e.run(m + 1).client.socks[fd])
  {
    hide Runs, Inv, OpenAck, Enabled, After, Buffered;
    Moved(e, m);
    AlwaysInv(e, m);
    var step := e.step(m);
    AckTakes(e.run(m), fd, p, step.fd, step.datagram, step.sample);
  }

  // ----- Everything below the sentinel -----------------------------------------------------------

  lemma {:induction false} SocketStays(e: Execution, fd: int, i: nat, j: nat)
    requires Runs(e) && fd in e.run(i).client.socks && i <= j
    ensures fd in e.run(j).client.socks && OnlyNext(e.run(i).client.socks[fd], e.run(j).client.socks[fd])
    decreases j
  {
    hide Runs, Enabled, After, Buffered;
    if i == j {
    } else {
      SocketStays(e, fd, i, j - 1);
      Moved(e, j - 1);
      StepOnlyNext(e.run(j - 1), e.step(j - 1), fd);
    }
  }

  lemma {:induction false} LowestUntilGone(e: Execution, fd: int, p: Package, i: nat, j: nat)
    requires Runs(e) && IsLowest(e.run(i), fd, p) && i <= j
    requires forall m: nat :: m >= i && fd in e.run(m).client.socks ==> p in Buffered(e.run(m).client.socks[fd])
    ensures IsLowest(e.run(j), fd, p)
    decreases j
  {
    hide Runs, Enabled, After, Buffered, Lowest, Inv;
    if i == j {
    } else {
      LowestUntilGone(e, fd, p, i, j - 1);
      Moved(e, j - 1);
      AlwaysInv(e, j - 1);
      StepOnlyNext(e.run(j - 1), e.step(j - 1), fd);
      StepLowest(e.run(j - 1), e.step(j - 1), fd, p);
    }
  }

  /** The lowest buffered package leaves in the end. */
  lemma LowestLeaves(e: Execution, fd: int, p: Package, i: nat) returns (j: nat)
    requires Runs(e) && LoopsGoOn(e) && NetworkIsFair(e) && IsLowest(e.run(i), fd, p) && p.seqNum < LIMIT
    ensures j >= i && fd in e.run(j).client.socks && p !in Buffered(e.run(j).client.socks[fd])
  {
    hide Runs, LoopsGoOn, NetworkIsFair, IsLowest, Buffered;
    if m: nat :| m >= i && fd in e.run(m).client.socks && p !in Buffered(e.run(m).client.socks[fd]) {
      j := m;
    } else {
      forall n: nat | n >= i
        ensures IsLowest(e.run(n), fd, p)
      {
        LowestUntilGone(e, fd, p, i, n);
      }
      NothingStays(e, fd, p, i);
    }
  }

  ghost predicate Keeping(k: Sock, n: nat) {
    exists p :: p in Buffered(k) && p.seqNum == n
  }

  /** The numbers up to n that are still buffered. */
  ghost function Kept(k: Sock, n: nat): set<nat> {
    set m: nat | 0 <= m <= n && Keeping(k, m)
  }

  lemma FewerKept(e: Execution, fd: int, p: Package, n: nat, i: nat, j: nat)
    requires Runs(e) && i <= j && fd in e.run(i).client.socks && fd in e.run(j).client.socks
    requires n < e.run(i).client.socks[fd].base && p in Buffered(e.run(i).client.socks[fd]) && p.seqNum <= n
    requires p !in Buffered(e.run(j).client.socks[fd])
    ensures |Kept(e.run(j).client.socks[fd], n)| < |Kept(e.run(i).client.socks[fd], n)|
  {
    hide Runs, Inv, Buffered;
    SocketStays(e, fd, i, j);
    var k, k' := e.run(i).client.socks[fd], e.run(j).client.socks[fd];
    AlwaysInv(e, i);
    OneEach(e.run(i), fd);
    assert Keeping(k, p.seqNum);
    forall m: nat | m <= n && Keeping(k', m)
      ensures Keeping(k, m) && m != p.seqNum
    {
      var q :| q in Buffered(k') && q.seqNum == m;
      assert q in Buffered(k);
    }
    SmallerSet(Kept(k', n), Kept(k, n), p.seqNum);
  }

  lemma SmallerSet(a: set<nat>, b: set<nat>, x: nat)
    requires a <= b && x in b && x !in a
    ensures |a| < |b|
  {
    assert |b - a| > 0;
    assert |b| == |a| + |b - a| by {
      assert b == a + (b - a);
    }
  }

  lemma OneEach(s: System, fd: int)
    requires Inv(s) && fd in s.client.socks
    ensures var k := s.client.socks[fd];
      forall p, q :: p in Buffered(k) && q in Buffered(k) && p.seqNum == q.seqNum ==> p == q
  {
    InvSessions(s);
    SocksOwn(s, fd);
    var k := s.client.socks[fd];
    assert forall p :: p in Buffered(k) ==> Keeps(k, p);
  }

  lemma NotKeptIsReceived(e: Execution, fd: int, n: nat, i: nat)
    requires Runs(e) && fd in e.run(i).client.socks && n < e.run(i).client.socks[fd].base
    requires !Keeping(e.run(i).client.socks[fd], n)
    ensures GotIt(RecordOf(e.run(i), fd), n)
  {
    hide Runs, IsRun, GotIt, RecordOf;
    PrefixIsRun(e, i);
    NothingLost(States(e, i), Steps(e, i), i, fd, n);
  }

  lemma {:induction false} KeptNoLonger(e: Execution, fd: int, n: nat, i: nat) returns (j: nat)
    requires Runs(e) && LoopsGoOn(e) && NetworkIsFair(e)
    requires fd in e.run(i).client.socks && n < e.run(i).client.socks[fd].base && n < LIMIT
    ensures j >= i && fd in e.run(j).client.socks && !Keeping(e.run(j).client.socks[fd], n)
    decreases |Kept(e.run(i).client.socks[fd], n)|
  {
    hide Runs, LoopsGoOn, NetworkIsFair, Buffered, Kept;
    var k := e.run(i).client.socks[fd];
    if !Keeping(k, n) {
      j := i;
    } else {
      var p :| p in Buffered(k) && p.seqNum == n;
      var q := LowestExists(k, Buffered(k), p);
      assert q in Buffered(k) && q.seqNum <= n;
      var m := LowestLeaves(e, fd, q, i);
      FewerKept(e, fd, q, n, i, m);
      SocketStays(e, fd, i, m);
      j := KeptNoLonger(e, fd, n, m);
    }
  }

  lemma StillNotKept(e: Execution, fd: int, n: nat, i: nat, j: nat, m: nat)
    requires Runs(e) && fd in e.run(i).client.socks && n < e.run(i).client.socks[fd].base && i <= j <= m
    requires fd in e.run(j).client.socks && !Keeping(e.run(j).client.socks[fd], n)
    ensures fd in e.run(m).client.socks && !Keeping(e.run(m).client.socks[fd], n)
    ensures n < e.run(m).client.socks[fd].base
  {
    hide Runs, Buffered;
    SocketStays(e, fd, i, j);
    SocketStays(e, fd, j, m);
  }

  /** In every infinite run in which the loops go on and the network is fair, each number below the
      sentinel that has been accepted is received and acknowledged in the end, for good. */
  lemma EverythingArrives(e: Execution, fd: int, n: nat, i: nat) returns (j: nat)
    requires Runs(e) && LoopsGoOn(e) && NetworkIsFair(e)
    requires fd in e.run(i).client.socks && n < e.run(i).client.socks[fd].base && n < LIMIT
    ensures j >= i
    ensures forall m: nat :: m >= j ==>
              && fd in e.run(m).client.socks
              && GotIt(RecordOf(e.run(m), fd), n)
              && forall p :: p in Buffered(e.run(m).client.socks[fd]) ==> p.seqNum != n
  {
    hide Runs, LoopsGoOn, NetworkIsFair, GotIt, RecordOf, Buffered;
    j := KeptNoLonger(e, fd, n, i);
    forall m: nat | m >= j
      ensures fd in e.run(m).client.socks && GotIt(RecordOf(e.run(m), fd), n)
      ensures forall p :: p in Buffered(e.run(m).client.socks[fd]) ==> p.seqNum != n
    {
      StillNotKept(e, fd, n, i, j, m);
      NotKeptIsReceived(e, fd, n, m);
    }
  }
}
