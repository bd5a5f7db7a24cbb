/** Which sessions get into the receiving daemon, and when: each on the socket it was connected to,
    one for each call of ACCEPT, and in the order in which they came. */
module Admissions {
  import opened Options
  import opened Wire
  import opened Receiver
  import opened ServerTables
  import opened Protocol
  import opened Bindings
  import opened Reliability

  // ----- One session for each call ----------------------------------------------------------------

  /** The sessions that have been accepted on a socket. */
  function AcceptedOn(s: Server, fd: int): set<int> {
    set x | x in s.accepted && s.accepted[x].socketFd == fd
  }

  /** With the call of ACCEPT that is still open, if there is one. */
  ghost function Admitted(s: Server, fd: int): nat {
    |AcceptedOn(s, fd)| + (if Called(s, fd) then 1 else 0)
  }

  /** ACCEPT is called on a socket on which no call is open. */
  ghost predicate Opens(s: System, step: Step, fd: int) {
    && step.AcceptCallStep? && step.bound < |s.server.bound|
    && s.server.bound[step.bound].fd == fd && !Called(s.server, fd)
  }

  ghost function Calls(states: seq<System>, steps: seq<Step>, fd: int, i: nat): nat
    requires i <= |steps| < |states|
  {
    if i == 0 then 0 else Calls(states, steps, fd, i - 1) + (if Opens(states[i - 1], steps[i - 1], fd) then 1 else 0)
  }

  lemma FlagsCalled(bound: seq<Bound>, bound': seq<Bound>, k: nat, s: Server, t: Server, fd: int)
    requires DistinctFds(bound) && k < |bound| && bound' == bound[k := bound[k].(accepting := false)]
    requires s.bound == bound && t.bound == bound' && bound[k].accepting
    ensures Called(s, bound[k].fd) && !Called(t, bound[k].fd)
    ensures fd != bound[k].fd ==> (Called(t, fd) <==> Called(s, fd))
  {
    if j :| 0 <= j < |bound| && bound[j].fd == fd && bound[j].accepting {
      assert j != k ==> bound'[j] == bound[j];
    }
    if j :| 0 <= j < |bound'| && bound'[j].fd == fd && bound'[j].accepting {
      assert bound[j] == bound'[j];
    }
  }

  lemma OneMore(s: Server, t: Server, r: Session, fd: int)
    requires r.session !in s.accepted && t.accepted == s.accepted[r.session := r]
    ensures |AcceptedOn(t, fd)| == |AcceptedOn(s, fd)| + (if r.socketFd == fd then 1 else 0)
  {
    if r.socketFd == fd {
      assert AcceptedOn(t, fd) == AcceptedOn(s, fd) + {r.session};
    } else {
      assert AcceptedOn(t, fd) == AcceptedOn(s, fd);
    }
  }

  lemma AcceptOneAdmits(s: Server, k: nat, fd: int)
    requires OneRecord(s) && DistinctFds(s.bound) && k < |s.bound|
    ensures Admitted(AcceptOne(s, k), fd) == Admitted(s, fd)
  {
    hide AcceptedOn, FirstOn, Called;
    var t, i := AcceptOne(s, k), FirstOn(s.waiting, s.bound[k].fd);
    FirstIsOn(s.waiting, s.bound[k].fd);
    if s.bound[k].accepting && i < |s.waiting| {
      FlagsCalled(s.bound, t.bound, k, s, t, fd);
      OneMore(s, t, s.waiting[i], fd);
    }
  }

  lemma FirstIsOn(waiting: seq<Session>, fd: int)
    ensures var i := FirstOn(waiting, fd);
            i <= |waiting| && (i < |waiting| ==> waiting[i].socketFd == fd)
  {}

  lemma {:induction false} AcceptsAdmit(s: Server, n: nat, fd: int)
    requires OneRecord(s) && DistinctFds(s.bound) && n <= |s.bound|
    ensures Admitted(AcceptBack(s, n), fd) == Admitted(s, fd)
  {
    hide Admitted, OneRecord, AcceptOne;
    if n == 0 {
    } else {
      AcceptsAdmit(s, n - 1, fd);
      AcceptFlags(s, n - 1);
      AcceptBackRecord(s, n - 1, fd);
      AcceptOneAdmits(AcceptBack(s, n - 1), n - 1, fd);
    }
  }

  /** Tables with the same sessions accepted on the same sockets, and the same calls open. */
  lemma SameAdmitted(s: Server, t: Server, fd: int)
    requires t.bound == s.bound && t.accepted.Keys == s.accepted.Keys
    requires forall x :: x in s.accepted ==> t.accepted[x].socketFd == s.accepted[x].socketFd
    ensures Admitted(t, fd) == Admitted(s, fd)
  {
    forall x
      ensures x in AcceptedOn(t, fd) <==> x in AcceptedOn(s, fd)
    {
      assert x in t.accepted.Keys <==> x in s.accepted.Keys;
    }
    assert AcceptedOn(t, fd) == AcceptedOn(s, fd);
  }

  lemma DataAdmits(s: Server, f: int, datagram: Datagram, fd: int)
    ensures Admitted(RecvDataAt(s, f, datagram), fd) == Admitted(s, fd)
  {
    hide OpenData, Place, Admitted;
    if OpenData(datagram).Some? && OpenData(datagram).value.session in s.accepted {
      var p := OpenData(datagram).value;
      PlaceFd(s.accepted[p.session], p);
    }
    SameAdmitted(s, RecvDataAt(s, f, datagram), fd);
  }

  lemma DrainAdmits(s: Server, fd: int)
    ensures Admitted(RecvBack(s), fd) == Admitted(s, fd)
  {
    hide DrainLoop, Admitted;
    forall x | x in s.accepted
      ensures Drain(s.accepted[x]).socketFd == s.accepted[x].socketFd
    {
      DrainLoopLeaves(s.accepted[x]);
    }
    SameAdmitted(s, RecvBack(s), fd);
  }

  lemma BindAdmits(s: Server, f: int, fd: int)
    ensures Admitted(Bind(s, f), fd) == Admitted(s, fd)
  {
    var t := Bind(s, f);
    assert AcceptedOn(t, fd) == AcceptedOn(s, fd);
    if j :| 0 <= j < |s.bound| && s.bound[j].fd == fd && s.bound[j].accepting {
      assert t.bound[j] == s.bound[j];
    }
    if j :| 0 <= j < |t.bound| && t.bound[j].fd == fd && t.bound[j].accepting {
      assert t.bound[j] == s.bound[j];
    }
  }

  lemma CallAdmits(s: Server, k: nat, fd: int)
    requires k < |s.bound|
    ensures var t := s.(bound := s.bound[k := s.bound[k].(accepting := true)]);
            Admitted(t, fd) == Admitted(s, fd) + (if s.bound[k].fd == fd && !Called(s, fd) then 1 else 0)
  {
    var t := s.(bound := s.bound[k := s.bound[k].(accepting := true)]);
    assert AcceptedOn(t, fd) == AcceptedOn(s, fd);
    assert t.bound[k].fd == s.bound[k].fd && t.bound[k].accepting;
    if j :| 0 <= j < |s.bound| && s.bound[j].fd == fd && s.bound[j].accepting {
      assert t.bound[j].fd == fd && t.bound[j].accepting;
    }
    if s.bound[k].fd != fd {
      if j :| 0 <= j < |t.bound| && t.bound[j].fd == fd && t.bound[j].accepting {
        assert t.bound[j] == s.bound[j];
      }
    }
  }

  lemma InvTables(s: System)
    requires Inv(s)
    ensures OneRecord(s.server) && DistinctFds(s.server.bound) && RecordsBound(s.server)
  {
    InvSessions(s);
    SessionsParts(s);
  }

  lemma StepAdmits(s: System, step: Step, fd: int)
    requires Inv(s) && Enabled(s, step)
    ensures Admitted(After(s, step).server, fd) == Admitted(s.server, fd) + (if Opens(s, step, fd) then 1 else 0)
  {
    InvTables(s);
    hide Inv, Admitted, Called, RecvDataAt, AcceptBack, RecvBack, RecvCall, OpenData, OpenAck, IsBound, Bind, OneRecord,
        DistinctFds, RecordsBound;
    match step {
      case DataStep(f, datagram) => DataAdmits(s.server, f, datagram, fd);
      case BindStep(f) => BindAdmits(s.server, f, fd);
      case AcceptCallStep(k) => CallAdmits(s.server, k, fd);
      case AcceptStep => AcceptsAdmit(s.server, |s.server.bound|, fd);
      case RecvStep(session, length) => RecvAdmits(s.server, session, length, fd);
      case DrainStep => DrainAdmits(s.server, fd);
      case _ =>
    }
  }

  lemma RecvAdmits(s: Server, session: int, length: nat, fd: int)
    ensures Admitted(RecvCall(s, session, length), fd) == Admitted(s, fd)
  {
    hide Admitted;
    SameAdmitted(s, RecvCall(s, session, length), fd);
  }

  /** In every run, the sessions accepted on a socket, with the call of ACCEPT that is still open,
      are exactly as many as the calls made there while none was open. */
  lemma {:induction false} OneForEachCall(states: seq<System>, steps: seq<Step>, fd: int, i: nat)
    requires IsRun(states, steps) && i < |states|
    ensures |AcceptedOn(states[i].server, fd)| + (if Called(states[i].server, fd) then 1 else 0) ==
            Calls(states, steps, fd, i)
  {
    hide Inv, Enabled, After, Init, Called, Opens;
    if i == 0 {
      NobodyYet(states[0], fd);
    } else {
      OneForEachCall(states, steps, fd, i - 1);
      RunInv(states, steps, i - 1);
      StepAdmits(states[i - 1], steps[i - 1], fd);
    }
  }

  lemma NobodyYet(s: System, fd: int)
    requires Init(s)
    ensures Admitted(s.server, fd) == 0
  {
    assert AcceptedOn(s.server, fd) == {};
  }

  // ----- On the socket it was connected to --------------------------------------------------------

  /** The record of session x, if there is one, belongs to the socket that x was connected to. */
  predicate AtTarget(s: System, x: int) {
    Record(s.server, x).Some? ==> AddressedTo(s, x, Record(s.server, x).value.socketFd)
  }

  lemma DataAtTarget(s: Server, fd: int, datagram: Datagram, x: int)
    requires OneRecord(s)
    ensures var before, after := Record(s, x), Record(RecvDataAt(s, fd, datagram), x);
            if before.Some? then
              after.Some? && after.value.socketFd == before.value.socketFd
            else
              after.Some? ==>
                OpenData(datagram).Some? && OpenData(datagram).value.session == x && after.value.socketFd == fd
  {
    hide OneRecord, Record, Place, OpenData, RecvDataAt;
    if OpenData(datagram).Some? {
      var p := OpenData(datagram).value;
      RecvDataRecord(s, fd, datagram, x);
      PlaceFd(if Record(s, x).Some? then Record(s, x).value else NewSession(fd, p.session), p);
    } else {
      GarbledChangesNothing(s, fd, datagram);
    }
  }

  lemma GarbledChangesNothing(s: Server, fd: int, datagram: Datagram)
    requires OpenData(datagram) == None
    ensures RecvDataAt(s, fd, datagram) == s
  {}

  ghost predicate SameSocket(before: Option<Session>, after: Option<Session>) {
    before.Some? == after.Some? && (before.Some? ==> after.value.socketFd == before.value.socketFd)
  }

  /** The other steps of the receiving daemon leave sockets and records together. */
  lemma RecordsStay(s: System, step: Step, x: int)
    requires OneRecord(s.server) && Enabled(s, step) && !step.DataStep?
    ensures SameSocket(Record(s.server, x), Record(After(s, step).server, x))
  {
    hide OpenAck, AcceptBack, RecvBack, RecvCall, Oversized, IsBound, Record, OneRecord;
    match step {
      case AcceptStep => AcceptBackRecord(s.server, |s.server.bound|, x);
      case DrainStep => DrainStays(s.server, x);
      case RecvStep(session, length) => AskStays(s.server, session, length, x);
      case BindStep(fd) => BoundStays(s.server, After(s, step).server.bound, x);
      case AcceptCallStep(k) => BoundStays(s.server, After(s, step).server.bound, x);
      case _ =>
    }
  }

  lemma BoundStays(s: Server, bound: seq<Bound>, x: int)
    ensures Record(s.(bound := bound), x) == Record(s, x)
  {}

  lemma AskStays(s: Server, session: int, length: nat, x: int)
    requires OneRecord(s)
    ensures SameSocket(Record(s, x), Record(RecvCall(s, session, length), x))
  {
    if RecvReply(s, session, length) == None {
      AcceptedChange(s, RecvCall(s, session, length));
    }
    hide OneRecord;
  }

  lemma DrainStays(s: Server, x: int)
    requires OneRecord(s)
    ensures SameSocket(Record(s, x), Record(RecvBack(s), x))
  {
    if x in s.accepted {
      DrainLoopLeaves(s.accepted[x]);
    }
    hide DrainLoop;
  }

  lemma DataStepAtTarget(s: System, fd: int, datagram: Datagram, x: int)
    requires OneRecord(s.server) && Enabled(s, DataStep(fd, datagram)) && AtTarget(s, x)
    ensures AtTarget(After(s, DataStep(fd, datagram)), x)
  {
    hide OneRecord, Record, OpenData, RecvDataAt, IsBound;
    DataAtTarget(s.server, fd, datagram, x);
  }

  lemma OtherStepAtTarget(s: System, step: Step, x: int)
    requires Sessions(s) && Enabled(s, step) && !step.DataStep? && AtTarget(s, x)
    requires SameSocket(Record(s.server, x), Record(After(s, step).server, x))
    ensures AtTarget(After(s, step), x)
  {
    hide Record;
    if Record(s.server, x).Some? {
      TargetStays(s, step, x);
    }
    hide Sessions, Enabled, After;
  }

  lemma TargetStays(s: System, step: Step, x: int)
    requires Sessions(s) && Enabled(s, step) && Record(s.server, x).Some?
    ensures forall fd :: AddressedTo(s, x, fd) ==> AddressedTo(After(s, step), x, fd)
  {
    hide Record;
    assert KnownSession(s.client.socks, x);
  }

  lemma StepAtTarget(s: System, step: Step, x: int)
    requires Inv(s) && Enabled(s, step) && AtTarget(s, x)
    ensures AtTarget(After(s, step), x)
  {
    InvTables(s);
    InvSessions(s);
    hide Inv, Sessions, OneRecord, Record, Enabled, After;
    if step.DataStep? {
      DataStepAtTarget(s, step.fd, step.datagram, x);
    } else {
      RecordsStay(s, step, x);
      OtherStepAtTarget(s, step, x);
    }
  }

  /** In every run, each session gets in on the socket it was connected to. */
  lemma {:induction false} ArrivedWhereConnected(states: seq<System>, steps: seq<Step>, i: nat, x: int)
    requires IsRun(states, steps) && i < |states|
    ensures Record(states[i].server, x).Some? ==> AddressedTo(states[i], x, Record(states[i].server, x).value.socketFd)
  {
    hide Inv, Enabled, After, Record;
    if i == 0 {
      NoRecord(states[0], x);
    } else {
      ArrivedWhereConnected(states, steps, i - 1, x);
      RunInv(states, steps, i - 1);
      StepAtTarget(states[i - 1], steps[i - 1], x);
    }
  }

  lemma NoRecord(s: System, x: int)
    requires Init(s)
    ensures Record(s.server, x) == None
  {}

  // ----- In the order in which they came ------------------------------------------------------------

  /** The first package of session x arrives. */
  ghost predicate Comes(s: System, step: Step, x: int) {
    && step.DataStep? && OpenData(step.datagram).Some? && OpenData(step.datagram).value.session == x
    && Record(s.server, x) == None
  }

  /** The sessions that wait came at these times, one after the other. */
  ghost predicate CameAt(states: seq<System>, steps: seq<Step>, waiting: seq<Session>, times: seq<nat>, i: nat)
    requires i <= |steps| < |states|
  {
    && |times| == |waiting| && Increasing(times)
    && forall k :: 0 <= k < |times| ==>
         times[k] < i && Comes(states[times[k]], steps[times[k]], waiting[k].session)
  }

  lemma RestCame(states: seq<System>, steps: seq<Step>, waiting: seq<Session>, times: seq<nat>, i: nat)
    requires i <= |steps| < |states| && waiting != [] && CameAt(states, steps, waiting, times, i)
    ensures CameAt(states, steps, waiting[1..], times[1..], i) && forall t :: t in times[1..] ==> times[0] < t
    ensures times[0] < i && Comes(states[times[0]], steps[times[0]], waiting[0].session)
  {
    hide Comes;
  }

  lemma CameFirst(states: seq<System>, steps: seq<Step>, r: Session, t: nat, waiting: seq<Session>, times: seq<nat>,
                  i: nat)
    requires i <= |steps| < |states| && CameAt(states, steps, waiting, times, i)
    requires t < i && Comes(states[t], steps[t], r.session) && forall u :: u in times ==> t < u
    ensures CameAt(states, steps, [r] + waiting, [t] + times, i)
  {
    hide Comes;
    forall k | 0 < k < |[t] + times|
      ensures t < ([t] + times)[k]
    {
      assert ([t] + times)[k] in times;
    }
  }

  /** Those who are left keep their order. */
  lemma {:induction false} LeftTimes(states: seq<System>, steps: seq<Step>, waiting: seq<Session>,
                                     takers: multiset<int>, times: seq<nat>, i: nat) returns (left: seq<nat>)
    requires i <= |steps| < |states| && CameAt(states, steps, waiting, times, i)
    ensures CameAt(states, steps, Left(waiting, takers), left, i)
    ensures forall t :: t in left ==> t in times
    decreases |waiting|
  {
    if waiting == [] {
      left := [];
    } else {
      RestCame(states, steps, waiting, times, i);
      assert times != [];
      hide CameAt, Comes;
      var f := waiting[0].socketFd;
      if f in takers {
        left := LeftTimes(states, steps, waiting[1..], takers - multiset{f}, times[1..], i);
      } else {
        var rest := LeftTimes(states, steps, waiting[1..], takers, times[1..], i);
        CameFirst(states, steps, waiting[0], times[0], Left(waiting[1..], takers), rest, i);
        left := [times[0]] + rest;
      }
    }
  }

  lemma NamesOfWaiting(s: System, step: Step)
    requires Inv(s) && Enabled(s, step) && !step.AcceptStep?
    ensures var w, w' := s.server.waiting, After(s, step).server.waiting;
            && |w| <= |w'| <= |w| + 1
            && (forall k :: 0 <= k < |w| ==> w'[k].session == w[k].session)
            && (|w'| > |w| ==> Comes(s, step, w'[|w|].session))
  {
    hide Inv, OpenData, OpenAck, Place, IsBound, Oversized, Drain;
    match step {
      case DataStep(fd, datagram) =>
        if OpenData(datagram).Some? {
          var p := OpenData(datagram).value;
          var i := FindWaiting(s.server.waiting, p.session);
          if i < |s.server.waiting| {
            PlaceKeepsSession(s.server.waiting[i], p);
          } else {
            PlaceKeepsSession(NewSession(fd, p.session), p);
          }
        }
      case _ =>
    }
  }

  lemma CameBefore(states: seq<System>, steps: seq<Step>, waiting: seq<Session>, waiting': seq<Session>,
                   times: seq<nat>, i: nat) returns (times': seq<nat>)
    requires i < |steps| < |states| && CameAt(states, steps, waiting, times, i)
    requires |waiting| <= |waiting'| <= |waiting| + 1
    requires forall k :: 0 <= k < |waiting| ==> waiting'[k].session == waiting[k].session
    requires |waiting'| > |waiting| ==> Comes(states[i], steps[i], waiting'[|waiting|].session)
    ensures CameAt(states, steps, waiting', times', i + 1)
  {
    hide Comes;
    times' := if |waiting'| > |waiting| then times + [i] else times;
  }

  lemma StillCame(states: seq<System>, steps: seq<Step>, waiting: seq<Session>, times: seq<nat>, i: nat)
    requires i < |steps| < |states| && CameAt(states, steps, waiting, times, i)
    ensures CameAt(states, steps, waiting, times, i + 1)
  {
    hide Comes;
  }

  lemma WaitingStep(states: seq<System>, steps: seq<Step>, i: nat, before: seq<nat>) returns (times: seq<nat>)
    requires IsRun(states, steps) && i < |steps| && CameAt(states, steps, states[i].server.waiting, before, i)
    ensures CameAt(states, steps, states[i + 1].server.waiting, times, i + 1)
  {
    RunInv(states, steps, i);
    hide Inv, Enabled, After, Comes, CameAt, Left, Accepting;
    var s := states[i];
    if steps[i].AcceptStep? {
      TakenOut(s);
      var takers := Accepting(s.server.bound, |s.server.bound|);
      times := LeftTimes(states, steps, s.server.waiting, takers, before, i);
      StillCame(states, steps, Left(s.server.waiting, takers), times, i);
    } else {
      NamesOfWaiting(s, steps[i]);
      times := CameBefore(states, steps, s.server.waiting, states[i + 1].server.waiting, before, i);
    }
  }

  /** In every run the sessions that wait stand in the order in which their first packages came; and
      it is the first on its socket that an accept takes. */
  lemma {:induction false} WaitingInOrder(states: seq<System>, steps: seq<Step>, i: nat) returns (times: seq<nat>)
    requires IsRun(states, steps) && i < |states|
    ensures CameAt(states, steps, states[i].server.waiting, times, i)
  {
    if i == 0 {
      NobodyWaits(states[0]);
      times := [];
    } else {
      hide CameAt, IsRun;
      var before := WaitingInOrder(states, steps, i - 1);
      times := WaitingStep(states, steps, i - 1, before);
    }
  }

  lemma TakenOut(s: System)
    ensures After(s, AcceptStep).server.waiting == Left(s.server.waiting, Accepting(s.server.bound, |s.server.bound|))
  {
    AcceptTakes(s.server, |s.server.bound|);
  }

  lemma NobodyWaits(s: System)
    requires Init(s)
    ensures s.server.waiting == []
  {}
}
