/** The bound sockets of the receiving daemon, and the records that came in on them. */
module Bindings {
  import opened Wire
  import opened Receiver
  import opened ServerTables
  import opened Protocol

  /** No socket is bound twice; every record names a bound one, so that ACCEPT can find it; and no
      request is open on a record that has not been accepted. */
  ghost predicate RecordsBound(s: Server) {
    && (forall j, k :: 0 <= j < k < |s.bound| ==> s.bound[j].fd != s.bound[k].fd)
    && (forall i :: 0 <= i < |s.waiting| ==> Unaccepted(s, s.waiting[i]))
    && (forall x :: x in s.accepted ==> IsBound(s, s.accepted[x].socketFd))
  }

  ghost predicate Unaccepted(s: Server, r: Session) {
    IsBound(s, r.socketFd) && r.receivingLength == 0
  }

  /** The same descriptors in the same places. */
  ghost predicate SameFds(s: Server, s': Server) {
    |s'.bound| == |s.bound| && forall k :: 0 <= k < |s.bound| ==> s'.bound[k].fd == s.bound[k].fd
  }

  lemma SameFdsBound(s: Server, s': Server, fd: int)
    requires SameFds(s, s')
    ensures IsBound(s', fd) <==> IsBound(s, fd)
  {
    if IsBound(s, fd) {
      var k :| 0 <= k < |s.bound| && s.bound[k].fd == fd;
      assert s'.bound[k].fd == fd;
    }
    if IsBound(s', fd) {
      var k :| 0 <= k < |s'.bound| && s'.bound[k].fd == fd;
      assert s.bound[k].fd == fd;
    }
  }

  /** A step that binds nothing and makes records on bound sockets only. */
  lemma BindingsKept(s: Server, s': Server)
    requires RecordsBound(s) && SameFds(s, s')
    requires forall r :: r in s'.waiting ==> Unaccepted(s, r)
    requires forall x :: x in s'.accepted ==> IsBound(s, s'.accepted[x].socketFd)
    ensures RecordsBound(s')
  {
    forall fd: int
      ensures IsBound(s', fd) <==> IsBound(s, fd)
    {
      SameFdsBound(s, s', fd);
    }
    hide IsBound;
    forall i | 0 <= i < |s'.waiting|
      ensures Unaccepted(s', s'.waiting[i])
    {
      assert s'.waiting[i] in s'.waiting;
    }
  }

  lemma WaitingBound(s: Server, r: Session)
    requires RecordsBound(s) && r in s.waiting
    ensures Unaccepted(s, r)
  {}

  lemma PlaceFd(r: Session, p: Package)
    ensures Place(r, p).socketFd == r.socketFd && Place(r, p).receivingLength == r.receivingLength
  {}

  lemma DataBindings(s: Server, fd: int, datagram: Datagram)
    requires RecordsBound(s) && IsBound(s, fd)
    ensures RecordsBound(RecvDataAt(s, fd, datagram)) && SameFds(s, RecvDataAt(s, fd, datagram))
  {
    hide IsBound, Place, OpenData;
    var s' := RecvDataAt(s, fd, datagram);
    if OpenData(datagram).Some? {
      var p := OpenData(datagram).value;
      PlaceFd(NewSession(fd, p.session), p);
      forall r: Session
        ensures Place(r, p).socketFd == r.socketFd && Place(r, p).receivingLength == r.receivingLength
      {
        PlaceFd(r, p);
      }
      forall r | r in s'.waiting
        ensures Unaccepted(s, r)
      {
        if r in s.waiting {
          WaitingBound(s, r);
        }
      }
    }
    BindingsKept(s, s');
  }

  lemma AcceptOneBindings(s: Server, k: nat)
    requires RecordsBound(s) && k < |s.bound|
    ensures RecordsBound(AcceptOne(s, k)) && SameFds(s, AcceptOne(s, k))
  {
    hide IsBound;
    var s' := AcceptOne(s, k);
    forall r | r in s'.waiting
      ensures Unaccepted(s, r)
    {
      assert r in s.waiting;
      WaitingBound(s, r);
    }
    BindingsKept(s, s');
  }

  lemma {:induction false} AcceptBindings(s: Server, n: nat)
    requires RecordsBound(s) && n <= |s.bound|
    ensures RecordsBound(AcceptBack(s, n)) && SameFds(s, AcceptBack(s, n))
  {
    hide RecordsBound, AcceptOne;
    if n == 0 {
    } else {
      AcceptBindings(s, n - 1);
      AcceptOneBindings(AcceptBack(s, n - 1), n - 1);
    }
  }

  lemma DrainBindings(s: Server)
    requires RecordsBound(s)
    ensures RecordsBound(RecvBack(s)) && SameFds(s, RecvBack(s))
  {
    hide IsBound, DrainLoop;
    forall x | x in s.accepted
      ensures Drain(s.accepted[x]).socketFd == s.accepted[x].socketFd
    {
      DrainLoopLeaves(s.accepted[x]);
    }
    forall r | r in s.waiting
      ensures Unaccepted(s, r)
    {
      WaitingBound(s, r);
    }
    BindingsKept(s, RecvBack(s));
  }

  lemma RecvBindings(s: Server, session: int, length: nat)
    requires RecordsBound(s)
    ensures RecordsBound(RecvCall(s, session, length)) && SameFds(s, RecvCall(s, session, length))
  {
    hide IsBound;
    forall r | r in s.waiting
      ensures Unaccepted(s, r)
    {
      WaitingBound(s, r);
    }
    BindingsKept(s, RecvCall(s, session, length));
  }

  lemma AcceptCallBindings(s: Server, k: nat)
    requires RecordsBound(s) && k < |s.bound|
    ensures var s' := s.(bound := s.bound[k := s.bound[k].(accepting := true)]);
            RecordsBound(s') && SameFds(s, s')
  {
    hide IsBound;
    var s' := s.(bound := s.bound[k := s.bound[k].(accepting := true)]);
    forall r | r in s.waiting
      ensures Unaccepted(s, r)
    {
      WaitingBound(s, r);
    }
    BindingsKept(s, s');
  }

  lemma BindBindings(s: Server, fd: int)
    requires RecordsBound(s) && !IsBound(s, fd)
    ensures RecordsBound(Bind(s, fd))
    ensures forall f :: IsBound(s, f) ==> IsBound(Bind(s, fd), f)
  {
    var s' := Bind(s, fd);
    forall f | IsBound(s, f)
      ensures IsBound(s', f)
    {
      var k :| 0 <= k < |s.bound| && s.bound[k].fd == f;
      assert s'.bound[k].fd == f;
    }
  }

  /** No step unbinds a socket or makes a record that no socket could accept. */
  lemma StepBindings(s: System, step: Step)
    requires RecordsBound(s.server) && Enabled(s, step)
    ensures RecordsBound(After(s, step).server)
    ensures forall fd :: IsBound(s.server, fd) ==> IsBound(After(s, step).server, fd)
  {
    hide RecordsBound, IsBound, RecvDataAt, AcceptBack, RecvBack, RecvCall, Bind, OpenData, OpenAck;
    var server, server' := s.server, After(s, step).server;
    match step {
      case BindStep(fd) => BindBindings(server, fd);
      case DataStep(fd, datagram) => DataBindings(server, fd, datagram);
      case AcceptCallStep(k) => AcceptCallBindings(server, k);
      case AcceptStep => AcceptBindings(server, |server.bound|);
      case RecvStep(session, length) => RecvBindings(server, session, length);
      case DrainStep => DrainBindings(server);
      case _ =>
    }
    if !step.BindStep? {
      forall fd | IsBound(server, fd)
        ensures IsBound(server', fd)
      {
        SameFdsBound(server, server', fd);
      }
    }
  }

  // ----- A receiving daemon that reads -----------------------------------------------------------

  /** No request is open that would end the daemon. */
  ghost predicate Alive(s: Server) {
    !Oversized(s)
  }

  /** Every session has been connected to a bound socket, so that what it sends can arrive. */
  ghost predicate Reachable(s: System) {
    forall fd :: fd in s.client.socks ==> Arrives(s, s.client.socks[fd].session)
  }

  ghost predicate Arrives(s: System, x: int) {
    x in s.target && IsBound(s.server, s.target[x])
  }

  /** Nothing that is bound in s is unbound in t, and sessions keep the sockets they were connected to. */
  ghost predicate SameTargets(s: System, t: System) {
    && t.target == s.target
    && forall fd :: IsBound(s.server, fd) ==> IsBound(t.server, fd)
  }

  lemma SameTargetsThen(s: System, t: System, u: System)
    requires SameTargets(s, t) && SameTargets(t, u)
    ensures SameTargets(s, u)
  {
    hide IsBound;
  }

  lemma StaysReachable(s: System, t: System)
    requires Reachable(s) && SameTargets(s, t) && SameNames(s.client.socks, t.client.socks)
    ensures Reachable(t)
  {
    hide IsBound;
  }

  lemma StepTargets(s: System, step: Step)
    requires RecordsBound(s.server) && Enabled(s, step) && !step.ConnectStep?
    ensures SameTargets(s, After(s, step))
  {
    hide RecordsBound, IsBound, RecvDataAt, AcceptBack, RecvBack, RecvCall, Bind, OpenData, OpenAck;
    StepBindings(s, step);
  }

  lemma DataAlive(s: Server, fd: int, datagram: Datagram)
    requires Alive(s)
    ensures Alive(RecvDataAt(s, fd, datagram))
  {
    hide Place, OpenData;
    if OpenData(datagram).Some? {
      var p := OpenData(datagram).value;
      if p.session in s.accepted {
        PlaceFd(s.accepted[p.session], p);
      }
    }
  }

  lemma AcceptOneAlive(s: Server, k: nat)
    requires RecordsBound(s) && Alive(s) && k < |s.bound|
    ensures Alive(AcceptOne(s, k))
  {
    hide IsBound;
  }

  lemma {:induction false} AcceptAlive(s: Server, n: nat)
    requires RecordsBound(s) && Alive(s) && n <= |s.bound|
    ensures Alive(AcceptBack(s, n))
  {
    hide RecordsBound, Alive, AcceptOne;
    if n == 0 {
    } else {
      AcceptAlive(s, n - 1);
      AcceptBindings(s, n - 1);
      AcceptOneAlive(AcceptBack(s, n - 1), n - 1);
    }
  }

  lemma DrainAlive(s: Server)
    requires Alive(s)
    ensures Alive(RecvBack(s))
  {
    hide DrainLoop;
    forall x | x in s.accepted
      ensures Drain(s.accepted[x]).receivingLength <= s.accepted[x].receivingLength
    {
      DrainLoopLeaves(s.accepted[x]);
    }
  }

  /** Without calls from the processes the receiving daemon goes on reading. */
  lemma QuietAlive(s: System, step: Step)
    requires RecordsBound(s.server) && Alive(s.server) && Enabled(s, step)
    requires !step.RecvStep? && !step.AcceptCallStep? && !step.BindStep?
    ensures Alive(After(s, step).server)
  {
    hide RecordsBound, Alive, RecvDataAt, AcceptBack, RecvBack, OpenData, OpenAck;
    match step {
      case DataStep(fd, datagram) => DataAlive(s.server, fd, datagram);
      case AcceptStep => AcceptAlive(s.server, |s.server.bound|);
      case DrainStep => DrainAlive(s.server);
      case _ =>
    }
  }
}
