/** The receiving side of the tcpd process: the handlers of final/tcpd.c that look sessions up,
    accept them, and serve the receiving process. */
module ServerDaemon {
  import opened Options
  import opened Bytes
  import opened Wire
  import opened Receiver
  import opened ServerTables
  import opened ReceivingSock

  class Daemon {
    var boundSockets: seq<Bound>
    var waitingAckSockets: seq<AckedSock>
    var ackedSockets: map<int, AckedSock>
    /** Every acknowledgement written to the troll so far. */
    var toTroll: seq<Ack>

    ghost function Socks(): set<AckedSock>
      reads this
    {
      (set s | s in waitingAckSockets) + (set x | x in ackedSockets :: ackedSockets[x])
    }

    ghost function Buffers(): set<array<Byte>>
      reads this
    {
      set s | s in Socks() :: s.recvBuffer
    }

    /** Every session has its own record, and every record its own buffer. */
    ghost predicate Valid()
      reads this, Socks()
    {
      && (forall s :: s in Socks() ==> s.Valid())
      && (forall s, t :: s in Socks() && t in Socks() && s != t ==>
            s.recvBuffer != t.recvBuffer && s.session != t.session)
      && (forall i, j :: 0 <= i < j < |waitingAckSockets| ==> waitingAckSockets[i] != waitingAckSockets[j])
      && (forall x :: x in ackedSockets ==> ackedSockets[x].session == x && ackedSockets[x] !in waitingAckSockets)
    }

    ghost function State(): Server
      requires Valid()
      reads this, Socks(), Buffers()
    {
      Server(
        boundSockets,
        seq(|waitingAckSockets|, i requires 0 <= i < |waitingAckSockets| reads this, Socks(), Buffers()
            requires Valid() =>
          waitingAckSockets[i].View()),
        map x | x in ackedSockets :: ackedSockets[x].View(),
        toTroll)
    }

    method FindWaiting(session: int) returns (l: nat)
      requires Valid()
      ensures l == ServerTables.FindWaiting(State().waiting, session)
    {
      l := 0;
      ghost var w := State().waiting;
      assert w[0..] == w;
      while l < |waitingAckSockets| && waitingAckSockets[l].session != session
        invariant l <= |waitingAckSockets|
        invariant ServerTables.FindWaiting(w, session) == l + ServerTables.FindWaiting(w[l..], session)
      {
        assert w[l..][1..] == w[l + 1..];
        l := l + 1;
      }
    }

    /** Only the record of one accepted session has changed. */
    twostate lemma AcceptedChanged(x: int)
      requires old(Valid()) && x in ackedSockets && ackedSockets[x].Valid()
      requires waitingAckSockets == old(waitingAckSockets) && ackedSockets == old(ackedSockets)
      requires boundSockets == old(boundSockets) && toTroll == old(toTroll)
      requires forall t :: t in old(Socks()) && t != ackedSockets[x] ==> unchanged(t) && unchanged(t.recvBuffer)
      ensures Valid()
      ensures State() == old(State()).(accepted := old(State()).accepted[x := ackedSockets[x].View()])
    {
      assert Socks() == old(Socks());
      forall y | y in ackedSockets && y != x
        ensures ackedSockets[y] in Socks() && ackedSockets[y] != ackedSockets[x]
      {}
      forall t | t in Socks() && t != ackedSockets[x]
        ensures t.View() == old(t.View())
      {}
      assert State().waiting == old(State()).waiting;
      assert State().accepted == old(State()).accepted[x := ackedSockets[x].View()];
    }

    lemma ViewOf(x: int)
      requires Valid() && x in ackedSockets
      ensures x in State().accepted && State().accepted[x] == ackedSockets[x].View()
      ensures ackedSockets[x] in Socks() && ackedSockets[x].Valid()
      ensures State().accepted.Keys == ackedSockets.Keys
    {}

    method InsertAccepted(p: Package)
      requires Valid() && p.session in ackedSockets
      modifies Socks()
      ensures Valid()
      ensures State() == old(State()).(
        accepted := old(State()).accepted[p.session := Place(old(State()).accepted[p.session], p)])
    {
      hide State, Place;
      var sock := ackedSockets[p.session];
      ViewOf(p.session);
      sock.Insert(p);
      AcceptedChanged(p.session);
    }

    method InsertWaiting(l: nat, p: Package)
      requires Valid() && l < |waitingAckSockets|
      modifies Socks()
      ensures Valid()
      ensures State() == old(State()).(waiting := old(State()).waiting[l := Place(old(State()).waiting[l], p)])
    {
      hide State, Place;
      var sock := waitingAckSockets[l];
      WaitingView(l);
      sock.Insert(p);
      WaitingChanged(l);
    }

    lemma WaitingView(l: nat)
      requires Valid() && l < |waitingAckSockets|
      ensures l < |State().waiting| && State().waiting[l] == waitingAckSockets[l].View()
      ensures waitingAckSockets[l] in Socks()
    {}

    /** Only the record of one waiting session has changed. */
    twostate lemma WaitingChanged(l: nat)
      requires old(Valid()) && l < |waitingAckSockets| && waitingAckSockets[l].Valid()
      requires waitingAckSockets == old(waitingAckSockets) && ackedSockets == old(ackedSockets)
      requires boundSockets == old(boundSockets) && toTroll == old(toTroll)
      requires forall t :: t in old(Socks()) && t != waitingAckSockets[l] ==> unchanged(t) && unchanged(t.recvBuffer)
      ensures Valid() && l < |old(State()).waiting|
      ensures State() == old(State()).(waiting := old(State()).waiting[l := waitingAckSockets[l].View()])
    {
      assert Socks() == old(Socks());
      assert waitingAckSockets[l] in Socks();
      forall t | t in Socks() && t != waitingAckSockets[l]
        ensures t.View() == old(t.View())
      {}
      forall y | y in ackedSockets
        ensures ackedSockets[y] in Socks() && ackedSockets[y] != waitingAckSockets[l]
      {}
      forall i | 0 <= i < |waitingAckSockets| && i != l
        ensures waitingAckSockets[i] in Socks() && waitingAckSockets[i] != waitingAckSockets[l]
      {}
      assert State().accepted == old(State()).accepted;
      assert State().waiting == old(State()).waiting[l := waitingAckSockets[l].View()];
    }

    method InsertNew(fd: int, p: Package)
      requires Valid()
      requires p.session !in ackedSockets && forall i :: 0 <= i < |waitingAckSockets| ==>
          waitingAckSockets[i].session != p.session
      modifies this`waitingAckSockets
      ensures Valid()
      ensures State() == old(State()).(waiting := old(State()).waiting + [Place(NewSession(fd, p.session), p)])
    {
      forall t | t in Socks()
        ensures t.session != p.session && allocated(t.recvBuffer)
      {
        if t in waitingAckSockets {
          var i :| 0 <= i < |waitingAckSockets| && waitingAckSockets[i] == t;
        } else {
          var x :| x in ackedSockets && ackedSockets[x] == t;
        }
      }
      var sock := new AckedSock(fd, p.session);
      sock.Insert(p);
      waitingAckSockets := waitingAckSockets + [sock];
      assert Socks() == old(Socks()) + {sock};
      NewIsValid(sock);
      assert State().waiting == old(State()).waiting + [sock.View()];
      assert State().accepted == old(State()).accepted;
    }

    /** Adding a valid socket with a session and a buffer of its own. */
    twostate lemma NewIsValid(new sock: AckedSock)
      requires old(Valid()) && waitingAckSockets == old(waitingAckSockets) + [sock] && ackedSockets == old(ackedSockets)
      requires Socks() == old(Socks()) + {sock} && sock !in old(Socks()) && sock.Valid()
      requires forall t :: t in old(Socks()) ==> unchanged(t)
      requires forall t :: t in old(Socks()) ==> t.session != sock.session && t.recvBuffer != sock.recvBuffer
      ensures Valid()
    {}

    method SendAck(a: Ack)
      requires Valid()
      modifies this`toTroll
      ensures Valid() && State() == old(State()).(acks := old(State()).acks + [a])
    {
      toTroll := toTroll + [a];
      assert State().waiting == old(State()).waiting && State().accepted == old(State()).accepted;
    }

    /** A data datagram arrives on a bound socket. */
    method RecvData(fd: int, datagram: Datagram) returns (err: int)
      requires Valid()
      modifies this`waitingAckSockets, this`toTroll, Socks()
      ensures Valid() && State() == RecvDataAt(old(State()), fd, datagram)
      ensures err == if OpenData(datagram) == None then -2 else 0
    {
      hide Place, OpenData;
      ghost var s0 := State();
      var read := OpenData(datagram);
      if read == None {
        return -2;
      }
      var p := read.value;
      var l := FindWaiting(p.session);
      SameSessions();
      assert State() == s0;
      hide Valid, State;
      if p.session in ackedSockets {
        InsertAccepted(p);
      } else if l < |waitingAckSockets| {
        InsertWaiting(l, p);
      } else {
        InsertNew(fd, p);
      }
      ghost var s1 := State();
      assert s1.(acks := s0.acks + [Ack(p.session, p.seqNum)]) == RecvDataAt(s0, fd, datagram) && s1.acks == s0.acks;
      SendAck(Ack(p.session, p.seqNum));
      return 0;
    }

    lemma SameSessions()
      requires Valid()
      ensures |State().waiting| == |waitingAckSockets| && State().accepted.Keys == ackedSockets.Keys
      ensures forall i :: 0 <= i < |waitingAckSockets| ==> State().waiting[i].session == waitingAckSockets[i].session
    {}

    /** RECV from the receiving process. */
    method TcpdRecv(session: int, length: nat) returns (reply: Option<int>)
      requires Valid()
      modifies Socks()
      ensures Valid()
      ensures reply == Some(0) <==> length == 0
      ensures reply == Some(-2) <==> length > 0 && session !in old(ackedSockets)
      ensures reply == Some(-3) <==>
                length > 0 && session in old(ackedSockets) && old(ackedSockets[session].receivingLength) > 0
      ensures reply == None <==>
                length > 0 && session in old(ackedSockets) && old(ackedSockets[session].receivingLength) == 0
      ensures reply == None ==>
                State() == old(State()).(accepted := old(State()).accepted[
                  session := old(State()).accepted[session].(receivingLength := length)])
      ensures reply != None ==> State() == old(State())
      ensures State() == RecvCall(old(State()), session, length)
    {
      assert State().accepted.Keys == ackedSockets.Keys;
      if length == 0 {
        return Some(0);
      }
      if session !in ackedSockets {
        return Some(-2);
      }
      hide State;
      var sock := ackedSockets[session];
      ViewOf(session);
      if sock.receivingLength != 0 {
        return Some(-3);
      }
      sock.receivingLength := length;
      AcceptedChanged(session);
      return None;
    }

    method DrainOne(x: int)
      requires Valid() && x in ackedSockets && ackedSockets[x].receivingLength <= BUF_LEN
      modifies Socks(), Buffers()
      ensures Valid()
      ensures State() == old(State()).(accepted := old(State()).accepted[x := Drain(old(State()).accepted[x])])
    {
      hide Drain, State;
      var sock := ackedSockets[x];
      ViewOf(x);
      sock.HandleRecv();
      AcceptedChanged(x);
    }

    /** Serves every accepted session; a request longer than the buffer ends the process. */
    method HandleRecvBack() returns (running: bool)
      requires Valid()
      modifies Socks(), Buffers()
      ensures Valid() && running == !Oversized(old(State()))
      ensures running <==>
                forall x :: x in old(State()).accepted ==> old(State()).accepted[x].receivingLength <= 1000
      ensures running ==> State() == RecvBack(old(State()))
    {
      ghost var s := State();
      var todo := ackedSockets.Keys;
      DrainNone(s);
      AcceptedKeys();
      hide State, Valid, Drain, DrainAllBut;
      while exists x :: x in todo
        invariant Valid() && todo <= ackedSockets.Keys == s.accepted.Keys
        invariant State() == DrainAllBut(s, todo)
        invariant forall x :: x in s.accepted.Keys - todo ==> s.accepted[x].receivingLength <= BUF_LEN
        decreases |todo|
      {
        var x :| x in todo;
        ViewOf(x);
        DrainOneMore(s, todo, x);
        if ackedSockets[x].receivingLength > BUF_LEN {
          assert s.accepted[x].receivingLength > BUF_LEN;
          return false;
        }
        DrainOne(x);
        todo := todo - {x};
      }
      assert todo == {};
      DrainAll(s, todo);
      return true;
    }

    lemma AcceptedKeys()
      requires Valid()
      ensures State().accepted.Keys == ackedSockets.Keys
    {}

    static lemma DrainNone(s: Server)
      ensures DrainAllBut(s, s.accepted.Keys) == s
    {
      assert DrainAllBut(s, s.accepted.Keys).accepted == s.accepted;
    }

    static lemma DrainOneMore(s: Server, todo: set<int>, x: int)
      requires x in todo && x in s.accepted
      ensures var d := DrainAllBut(s, todo);
              && x in d.accepted && d.accepted[x] == s.accepted[x]
              && DrainAllBut(s, todo - {x}) == d.(accepted := d.accepted[x := Drain(s.accepted[x])])
    {
      var d := DrainAllBut(s, todo);
      assert DrainAllBut(s, todo - {x}).accepted == d.accepted[x := Drain(s.accepted[x])];
    }

    static lemma DrainAll(s: Server, todo: set<int>)
      requires todo == {}
      ensures DrainAllBut(s, todo) == RecvBack(s)
    {
      assert DrainAllBut(s, todo).accepted == RecvBack(s).accepted;
    }

    static ghost function DrainAllBut(s: Server, todo: set<int>): Server {
      s.(accepted := map x | x in s.accepted :: if x in todo then s.accepted[x] else Drain(s.accepted[x]))
    }

    method FindOn(fd: int) returns (l: nat)
      requires Valid()
      ensures l == FirstOn(State().waiting, fd)
    {
      l := 0;
      ghost var w := State().waiting;
      assert w[0..] == w;
      while l < |waitingAckSockets| && waitingAckSockets[l].socketFd != fd
        invariant l <= |waitingAckSockets|
        invariant FirstOn(w, fd) == l + FirstOn(w[l..], fd)
      {
        assert w[l..][1..] == w[l + 1..];
        l := l + 1;
      }
    }

    method AcceptOn(k: nat)
      requires Valid() && k < |boundSockets|
      modifies this`boundSockets, this`waitingAckSockets, this`ackedSockets
      ensures Valid() && State() == AcceptOne(old(State()), k)
      ensures |boundSockets| == |old(boundSockets)|
    {
      RestIs();
      ghost var s := State();
      AcceptOneIs(s, k);
      hide AcceptOne;
      if boundSockets[k].accepting {
        var l := FindOn(boundSockets[k].fd);
        assert State() == s;
        WaitingCount();
        hide Valid, State, FirstOn, Moving;
        if l < |waitingAckSockets| {
          MoveOne(k, l);
        }
      }
    }

    static lemma AcceptOneIs(s: Server, k: nat)
      requires k < |s.bound|
      ensures var l := FirstOn(s.waiting, s.bound[k].fd);
              AcceptOne(s, k) == if s.bound[k].accepting && l < |s.waiting| then Moving(s, k, l) else s
    {}

    static function Moving(s: Server, k: nat, l: nat): Server
      requires k < |s.bound| && l < |s.waiting|
    {
      s.(bound := s.bound[k := s.bound[k].(accepting := false)],
         waiting := s.waiting[..l] + s.waiting[l + 1..],
         accepted := s.accepted[s.waiting[l].session := s.waiting[l]])
    }

    method MoveOne(k: nat, l: nat)
      requires Valid() && k < |boundSockets| && l < |waitingAckSockets|
      modifies this`boundSockets, this`waitingAckSockets, this`ackedSockets
      ensures Valid() && |boundSockets| == |old(boundSockets)|
      ensures l < |old(State()).waiting| && k < |old(State()).bound| && State() == Moving(old(State()), k, l)
    {
      RestIs();
      WaitingCount();
      var sock := waitingAckSockets[l];
      ackedSockets := ackedSockets[sock.session := sock];
      waitingAckSockets := waitingAckSockets[..l] + waitingAckSockets[l + 1..];
      boundSockets := boundSockets[k := boundSockets[k].(accepting := false)];
      MovedIsValid(l);
      hide Valid, State, Socks;
      MovedState(l);
      RestIs();
    }

    /** The l-th waiting socket has become an accepted one. */
    twostate predicate Moved(l: nat)
      reads this
    {
      && l < |old(waitingAckSockets)|
      && waitingAckSockets == old(waitingAckSockets)[..l] + old(waitingAckSockets)[l + 1..]
      && ackedSockets == old(ackedSockets)[old(waitingAckSockets)[l].session := old(waitingAckSockets)[l]]
    }

    twostate lemma MovedSocks(l: nat)
      requires old(Valid()) && Moved(l)
      ensures Socks() == old(Socks())
      ensures forall i :: 0 <= i < |waitingAckSockets| ==>
        waitingAckSockets[i] == old(waitingAckSockets)[if i < l then i else i + 1]
    {
      var w, w' := old(waitingAckSockets), waitingAckSockets;
      assert w[l].session !in old(ackedSockets);
      forall t | t in old(Socks())
        ensures t in Socks()
      {
        if t in w && t != w[l] {
          var i :| 0 <= i < |w| && w[i] == t;
          assert w'[if i < l then i else i - 1] == t;
        } else if t == w[l] {
          assert ackedSockets[w[l].session] == t;
        } else {
          var x :| x in old(ackedSockets) && old(ackedSockets)[x] == t;
          assert ackedSockets[x] == t;
        }
      }
      forall t | t in Socks()
        ensures t in old(Socks())
      {
        if t in w' {
          var i :| 0 <= i < |w'| && w'[i] == t;
          assert w[if i < l then i else i + 1] == t;
        }
      }
    }

    twostate lemma MovedIsValid(l: nat)
      requires old(Valid()) && Moved(l) && forall t :: t in old(Socks()) ==> unchanged(t)
      ensures Valid()
    {
      MovedSocks(l);
      var w, w' := old(waitingAckSockets), waitingAckSockets;
      forall x | x in ackedSockets
        ensures ackedSockets[x].session == x && ackedSockets[x] !in w'
      {}
      forall t | t in Socks()
        ensures t.Valid()
      {}
    }

    twostate lemma MovedState(l: nat)
      requires old(Valid()) && Valid() && Moved(l)
      requires forall t :: t in old(Socks()) ==> unchanged(t) && unchanged(t.recvBuffer)
      ensures var s := old(State());
              && State().waiting == s.waiting[..l] + s.waiting[l + 1..]
              && State().accepted == s.accepted[s.waiting[l].session := s.waiting[l]]
    {
      MovedSocks(l);
      var s, w := old(State()), old(waitingAckSockets);
      forall t | t in Socks()
        ensures t.View() == old(t.View())
      {}
      assert s.waiting[l] == old(w[l].View()) && s.waiting[l].session == w[l].session;
      assert State().waiting == s.waiting[..l] + s.waiting[l + 1..];
      var m := s.accepted[s.waiting[l].session := s.waiting[l]];
      assert State().accepted.Keys == m.Keys;
      forall x | x in m
        ensures State().accepted[x] == m[x]
      {
        assert State().accepted[x] == ackedSockets[x].View();
      }
      assert State().accepted == m;
    }

    /** Every accepting socket takes the first session that waits on it. */
    method HandleAckBack()
      requires Valid()
      modifies this`boundSockets, this`waitingAckSockets, this`ackedSockets
      ensures Valid() && State() == AcceptBack(old(State()), |old(State()).bound|)
    {
      hide Valid, State, AcceptOne;
      RestIs();
      ghost var s := State();
      var i := 0;
      while i < |boundSockets|
        invariant Valid() && i <= |boundSockets| == |s.bound| && State() == AcceptBack(s, i)
      {
        RestIs();
        AcceptOn(i);
        i := i + 1;
      }
    }

    lemma WaitingCount()
      requires Valid()
      ensures |State().waiting| == |waitingAckSockets|
    {}

    lemma RestIs()
      requires Valid()
      ensures State().bound == boundSockets && State().acks == toTroll
    {}
  }
}
