/** The tables of the receiving daemon in final/tcpd.c: bound sockets, sessions waiting to be
    accepted and accepted sessions. */
module ServerTables {
  import opened Options
  import opened Wire
  import opened Receiver

  datatype Bound = Bound(fd: int, accepting: bool)

  datatype Server = Server(bound: seq<Bound>, waiting: seq<Session>, accepted: map<int, Session>, acks: seq<Ack>)

  /** Datagrams are read, and sessions accepted, on bound sockets only. */
  predicate IsBound(s: Server, fd: int) {
    exists k :: 0 <= k < |s.bound| && s.bound[k].fd == fd
  }

  /** BIND: one more socket, not accepting yet. */
  function Bind(s: Server, fd: int): Server {
    s.(bound := s.bound + [Bound(fd, false)])
  }

  /** Position of the waiting record of a session, or the length of the list. */
  function FindWaiting(waiting: seq<Session>, session: int): (i: nat)
    ensures i <= |waiting|
    ensures i < |waiting| ==> waiting[i].session == session
    ensures forall j :: 0 <= j < i ==> waiting[j].session != session
  {
    if waiting == [] || waiting[0].session == session then 0 else 1 + FindWaiting(waiting[1..], session)
  }

  /** A data datagram arrives on a bound socket: looked up among the accepted sessions first,
      then among the waiting ones, and a new record is made when neither knows the session. */
  function RecvDataAt(s: Server, fd: int, datagram: Datagram): Server {
    match OpenData(datagram)
    case None => s
    case Some(p) =>
      var s' := s.(acks := s.acks + [Ack(p.session, p.seqNum)]);
      var i := FindWaiting(s.waiting, p.session);
      if p.session in s.accepted then
        s'.(accepted := s.accepted[p.session := Place(s.accepted[p.session], p)])
      else if i < |s.waiting| then
        s'.(waiting := s.waiting[i := Place(s.waiting[i], p)])
      else
        s'.(waiting := s.waiting + [Place(NewSession(fd, p.session), p)])
  }

  /** Position of the first waiting record on a socket, or the length of the list. */
  function FirstOn(waiting: seq<Session>, fd: int): (i: nat)
    ensures i <= |waiting|
    ensures i < |waiting| ==> waiting[i].socketFd == fd
    ensures forall j :: 0 <= j < i ==> waiting[j].socketFd != fd
  {
    if waiting == [] || waiting[0].socketFd == fd then 0 else 1 + FirstOn(waiting[1..], fd)
  }

  /** Bound socket k takes the first session waiting on it, if it is accepting. */
  function AcceptOne(s: Server, k: nat): (s': Server)
    requires k < |s.bound|
    ensures |s'.bound| == |s.bound|
  {
    var i := FirstOn(s.waiting, s.bound[k].fd);
    if s.bound[k].accepting && i < |s.waiting| then
      s.(bound := s.bound[k := s.bound[k].(accepting := false)],
         waiting := s.waiting[..i] + s.waiting[i + 1..],
         accepted := s.accepted[s.waiting[i].session := s.waiting[i]])
    else
      s
  }

  /** ACCEPT has been called on this descriptor, and nobody has been accepted since. */
  predicate Called(s: Server, fd: int) {
    exists k :: 0 <= k < |s.bound| && s.bound[k].fd == fd && s.bound[k].accepting
  }

  function AcceptBack(s: Server, n: nat): (s': Server)
    requires n <= |s.bound|
    ensures |s'.bound| == |s.bound|
  {
    if n == 0 then s else AcceptOne(AcceptBack(s, n - 1), n - 1)
  }

  /** RECV: the reply that is sent at once, or none when the request is registered. */
  function RecvReply(s: Server, session: int, length: nat): Option<int> {
    if length == 0 then
      Some(0)
    else if session !in s.accepted then
      Some(-2)
    else if s.accepted[session].receivingLength != 0 then
      Some(-3)
    else
      None
  }

  function RecvCall(s: Server, session: int, length: nat): Server {
    if RecvReply(s, session, length) == None then
      s.(accepted := s.accepted[session := s.accepted[session].(receivingLength := length)])
    else
      s
  }

  /** A request longer than the buffer ends the daemon. */
  predicate Oversized(s: Server) {
    exists x :: x in s.accepted && s.accepted[x].receivingLength > BUF_LEN
  }

  function RecvBack(s: Server): Server {
    s.(accepted := map x | x in s.accepted :: Drain(s.accepted[x]))
  }

  // ----- Every session has one record ------------------------------------------------------------

  ghost predicate OneRecord(s: Server) {
    && (forall x :: x in s.accepted ==> s.accepted[x].session == x)
    && (forall i :: 0 <= i < |s.waiting| ==> s.waiting[i].session !in s.accepted)
    && (forall i, j :: 0 <= i < j < |s.waiting| ==> s.waiting[i].session != s.waiting[j].session)
  }

  function Record(s: Server, x: int): Option<Session> {
    var i := FindWaiting(s.waiting, x);
    if x in s.accepted then Some(s.accepted[x]) else if i < |s.waiting| then Some(s.waiting[i]) else None
  }

  lemma PlaceKeepsSession(r: Session, p: Package)
    ensures Place(r, p).session == r.session
  {}

  lemma FindUpdated(waiting: seq<Session>, i: nat, r: Session, x: int)
    requires i < |waiting| && r.session == waiting[i].session
    ensures FindWaiting(waiting[i := r], x) == FindWaiting(waiting, x)
  {
    var a, b := FindWaiting(waiting[i := r], x), FindWaiting(waiting, x);
    assert a < |waiting| ==> waiting[a].session == x;
    assert b < |waiting| ==> waiting[i := r][b].session == x;
  }

  lemma FindAppended(waiting: seq<Session>, r: Session, x: int)
    ensures FindWaiting(waiting + [r], x) ==
              if FindWaiting(waiting, x) < |waiting| then FindWaiting(waiting, x)
              else if r.session == x then |waiting| else |waiting| + 1
  {
    var a, b := FindWaiting(waiting + [r], x), FindWaiting(waiting, x);
    assert a < |waiting| ==> waiting[a].session == x;
    assert b < |waiting| ==> (waiting + [r])[b].session == x;
    assert (waiting + [r])[|waiting|] == r;
  }

  ghost predicate DistinctSessions(w: seq<Session>) {
    forall i, j :: 0 <= i < j < |w| ==> w[i].session != w[j].session
  }

  lemma FindRemoved(w: seq<Session>, i: nat, x: int)
    requires i < |w| && DistinctSessions(w)
    ensures var w' := w[..i] + w[i + 1..]; var a, b := FindWaiting(w, x), FindWaiting(w', x);
            && DistinctSessions(w')
            && (b < |w'| <==> a < |w| && a != i)
            && (b < |w'| ==> w'[b] == w[a])
  {
    hide FindWaiting;
    var w' := w[..i] + w[i + 1..];
    var a, b := FindWaiting(w, x), FindWaiting(w', x);
    FindIs(w, x);
    FindIs(w', x);
    assert forall j :: 0 <= j < |w'| ==> w'[j] == w[if j < i then j else j + 1];
    if a < |w| && a != i {
      var c := if a < i then a else a - 1;
      assert w'[c] == w[a];
      assert b <= c;
      assert w'[b].session == x;
    }
  }

  lemma FindIs(waiting: seq<Session>, x: int)
    ensures var i := FindWaiting(waiting, x);
            && i <= |waiting| && (i < |waiting| ==> waiting[i].session == x)
            && forall j :: 0 <= j < i ==> waiting[j].session != x
  {}

  lemma RecvDataOneRecord(s: Server, fd: int, datagram: Datagram)
    requires OneRecord(s)
    ensures OneRecord(RecvDataAt(s, fd, datagram))
  {
    if OpenData(datagram).Some? {
      var p := OpenData(datagram).value;
      hide OpenData, Place;
      var i := FindWaiting(s.waiting, p.session);
      if p.session in s.accepted {
        PlaceKeepsSession(s.accepted[p.session], p);
      } else if i < |s.waiting| {
        PlaceKeepsSession(s.waiting[i], p);
      } else {
        PlaceKeepsSession(NewSession(fd, p.session), p);
      }
    }
  }

  /** Whatever the tables hold, an intact package reaches the one record of its session,
      no other record changes, and the package is acknowledged. */
  lemma RecvDataRecord(s: Server, fd: int, datagram: Datagram, x: int)
    requires OneRecord(s) && OpenData(datagram).Some?
    ensures var p := OpenData(datagram).value;
            var s' := RecvDataAt(s, fd, datagram);
            && s'.acks == s.acks + [Ack(p.session, p.seqNum)]
            && Record(s', x) ==
                 if x != p.session then Record(s, x)
                 else match Record(s, x)
                      case None => Some(Place(NewSession(fd, p.session), p))
                      case Some(r) => Some(Place(r, p))
  {
    var p := OpenData(datagram).value;
    hide OpenData, Place;
    var i := FindWaiting(s.waiting, p.session);
    if p.session in s.accepted {
    } else if i < |s.waiting| {
      PlaceKeepsSession(s.waiting[i], p);
      FindUpdated(s.waiting, i, Place(s.waiting[i], p), x);
    } else {
      PlaceKeepsSession(NewSession(fd, p.session), p);
      FindAppended(s.waiting, Place(NewSession(fd, p.session), p), x);
    }
  }

  lemma AcceptOneOneRecord(s: Server, k: nat)
    requires OneRecord(s) && k < |s.bound|
    ensures OneRecord(AcceptOne(s, k))
  {
    var i := FirstOn(s.waiting, s.bound[k].fd);
    if s.bound[k].accepting && i < |s.waiting| {
      var w, w' := s.waiting, AcceptOne(s, k).waiting;
      assert forall j :: 0 <= j < |w'| ==> w'[j] == w[if j < i then j else j + 1];
    }
  }

  /** Accepting moves records between the tables and changes none of them. */
  lemma AcceptOneRecord(s: Server, k: nat, x: int)
    requires OneRecord(s) && k < |s.bound|
    ensures Record(AcceptOne(s, k), x) == Record(s, x)
    ensures AcceptOne(s, k).acks == s.acks
  {
    var i := FirstOn(s.waiting, s.bound[k].fd);
    if s.bound[k].accepting && i < |s.waiting| {
      FindRemoved(s.waiting, i, x);
    }
  }

  lemma {:induction false} AcceptBackRecord(s: Server, n: nat, x: int)
    requires OneRecord(s) && n <= |s.bound|
    ensures OneRecord(AcceptBack(s, n)) && Record(AcceptBack(s, n), x) == Record(s, x)
    ensures AcceptBack(s, n).acks == s.acks
  {
    hide AcceptOne, Record, OneRecord;
    if n == 0 {
    } else {
      AcceptBackRecord(s, n - 1, x);
      assert |AcceptBack(s, n - 1).bound| == |s.bound|;
      AcceptOneOneRecord(AcceptBack(s, n - 1), n - 1);
      AcceptOneRecord(AcceptBack(s, n - 1), n - 1, x);
    }
  }

  lemma {:induction false} AcceptAcks(s: Server, n: nat)
    requires n <= |s.bound|
    ensures AcceptBack(s, n).acks == s.acks
  {
    if n == 0 {
    } else {
      AcceptAcks(s, n - 1);
    }
  }

  // ----- Which sessions are accepted -------------------------------------------------------------

  /** The descriptors of the first n bound sockets that are accepting. */
  function Accepting(bound: seq<Bound>, n: nat): multiset<int>
    requires n <= |bound|
  {
    if n == 0 then
      multiset{}
    else
      Accepting(bound, n - 1) + (if bound[n - 1].accepting then multiset{bound[n - 1].fd} else multiset{})
  }

  /** What stays in the list when each of `takers` takes the first session that waits on it. */
  function Left(waiting: seq<Session>, takers: multiset<int>): (left: seq<Session>)
    ensures |left| <= |waiting|
    ensures forall r :: r in left ==> r in waiting
  {
    if waiting == [] then
      []
    else if waiting[0].socketFd in takers then
      Left(waiting[1..], takers - multiset{waiting[0].socketFd})
    else
      [waiting[0]] + Left(waiting[1..], takers)
  }

  /** The first session waiting on a socket is taken out. */
  function WithoutFirst(left: seq<Session>, fd: int): seq<Session> {
    var i := FirstOn(left, fd);
    if i < |left| then left[..i] + left[i + 1..] else left
  }

  lemma WithoutFirstCons(r: Session, left: seq<Session>, fd: int)
    ensures WithoutFirst([r] + left, fd) == if r.socketFd == fd then left else [r] + WithoutFirst(left, fd)
  {
    var all := [r] + left;
    assert all[1..] == left;
    if r.socketFd == fd {
      assert all[..0] == [];
    } else {
      var i := FirstOn(left, fd);
      assert FirstOn(all, fd) == i + 1;
      if i < |left| {
        assert all[..i + 1] + all[i + 2..] == [r] + (left[..i] + left[i + 1..]);
      }
    }
  }

  /** One more taker takes the first of those left on its socket, if there is one. */
  lemma {:induction false} LeftTaken(waiting: seq<Session>, takers: multiset<int>, fd: int)
    ensures Left(waiting, takers + multiset{fd}) == WithoutFirst(Left(waiting, takers), fd)
    decreases |waiting|
  {
    if waiting == [] {
    } else {
      hide WithoutFirst;
      var f, rest := waiting[0].socketFd, waiting[1..];
      if f in takers {
        LeftTaken(rest, takers - multiset{f}, fd);
        assert takers + multiset{fd} - multiset{f} == takers - multiset{f} + multiset{fd};
      } else {
        LeftTaken(rest, takers, fd);
        WithoutFirstCons(waiting[0], Left(rest, takers), fd);
        assert takers + multiset{f} - multiset{f} == takers;
      }
    }
  }

  lemma {:induction false} NoTakers(waiting: seq<Session>)
    ensures Left(waiting, multiset{}) == waiting
  {
    if waiting == [] {
    } else {
      NoTakers(waiting[1..]);
    }
  }

  /** A taker with somebody waiting on its socket takes somebody. */
  lemma {:induction false} SomebodyTaken(waiting: seq<Session>, takers: multiset<int>, r: Session)
    requires r in waiting && r.socketFd in takers
    ensures |Left(waiting, takers)| < |waiting|
    decreases |waiting|
  {
    if waiting[0].socketFd in takers {
    } else {
      SomebodyTaken(waiting[1..], takers, r);
    }
  }

  /** Accepting on the first n sockets keeps all descriptors, and the later sockets altogether. */
  ghost predicate SameFlags(bound: seq<Bound>, bound': seq<Bound>, n: nat) {
    && |bound'| == |bound|
    && (forall k :: 0 <= k < |bound| ==> bound'[k].fd == bound[k].fd)
    && (forall k :: n <= k < |bound| ==> bound'[k] == bound[k])
  }

  lemma {:induction false} AcceptFlags(s: Server, n: nat)
    requires n <= |s.bound|
    ensures SameFlags(s.bound, AcceptBack(s, n).bound, n)
  {
    if n == 0 {
    } else {
      hide FirstOn;
      AcceptFlags(s, n - 1);
    }
  }

  lemma AcceptOneWaiting(s: Server, k: nat)
    requires k < |s.bound|
    ensures AcceptOne(s, k).waiting ==
              if s.bound[k].accepting then WithoutFirst(s.waiting, s.bound[k].fd) else s.waiting
  {}

  lemma {:induction false} AcceptTakes(s: Server, n: nat)
    requires n <= |s.bound|
    ensures AcceptBack(s, n).waiting == Left(s.waiting, Accepting(s.bound, n))
  {
    if n == 0 {
      NoTakers(s.waiting);
    } else {
      hide Left, WithoutFirst, AcceptOne, Accepting;
      AcceptTakes(s, n - 1);
      AcceptFlags(s, n - 1);
      var t := AcceptBack(s, n - 1);
      AcceptOneWaiting(t, n - 1);
      assert t.bound[n - 1] == s.bound[n - 1];
      NextTakes(s.waiting, s.bound, n);
    }
  }

  lemma NextTakes(waiting: seq<Session>, bound: seq<Bound>, n: nat)
    requires 0 < n <= |bound|
    ensures Left(waiting, Accepting(bound, n)) ==
              if bound[n - 1].accepting then WithoutFirst(Left(waiting, Accepting(bound, n - 1)), bound[n - 1].fd)
              else Left(waiting, Accepting(bound, n - 1))
  {
    hide Left, WithoutFirst;
    LeftTaken(waiting, Accepting(bound, n - 1), bound[n - 1].fd);
    assert Accepting(bound, n - 1) + multiset{} == Accepting(bound, n - 1);
  }

  lemma AcceptOneKeys(s: Server, k: nat, x: int)
    requires OneRecord(s) && k < |s.bound|
    ensures var s' := AcceptOne(s, k);
            x in s'.accepted <==> x in s.accepted || (Waits(s, x) && !Waits(s', x))
  {
    var i := FirstOn(s.waiting, s.bound[k].fd);
    if s.bound[k].accepting && i < |s.waiting| {
      FindRemoved(s.waiting, i, x);
    }
  }

  predicate Waits(s: Server, x: int) {
    FindWaiting(s.waiting, x) < |s.waiting|
  }

  lemma {:induction false} AcceptKeys(s: Server, n: nat, x: int)
    requires OneRecord(s) && n <= |s.bound|
    ensures var s' := AcceptBack(s, n);
            x in s'.accepted <==> x in s.accepted || (Waits(s, x) && !Waits(s', x))
  {
    hide AcceptOne, Waits, OneRecord, Record;
    if n == 0 {
    } else {
      var s1 := AcceptBack(s, n - 1);
      AcceptKeys(s, n - 1, x);
      AcceptBackRecord(s, n - 1, x);
      AcceptOneOneRecord(s1, n - 1);
      AcceptOneKeys(s1, n - 1, x);
      NeverBack(s, n - 1, x);
    }
  }

  lemma NeverBack(s: Server, n: nat, x: int)
    requires OneRecord(s) && n < |s.bound|
    ensures var s1 := AcceptBack(s, n); OneRecord(s1) && (Waits(AcceptOne(s1, n), x) ==> Waits(s1, x))
    ensures Waits(AcceptBack(s, n), x) ==> Waits(s, x)
  {
    hide AcceptBack;
    AcceptBackRecord(s, n, x);
    var s1 := AcceptBack(s, n);
    var i := FirstOn(s1.waiting, s1.bound[n].fd);
    if i < |s1.waiting| {
      FindRemoved(s1.waiting, i, x);
    }
    AcceptTakes(s, n);
    if Waits(s1, x) {
      assert s1.waiting[FindWaiting(s1.waiting, x)] in s.waiting;
    }
  }

  /** Each accepting socket takes the first session waiting on it, so that exactly these become
      accepted; their records, and all others, stay as they are. */
  lemma AcceptBackMoves(s: Server, x: int)
    requires OneRecord(s)
    ensures var s' := AcceptBack(s, |s.bound|);
            && s'.waiting == Left(s.waiting, Accepting(s.bound, |s.bound|))
            && (x in s'.accepted <==> x in s.accepted || (Waits(s, x) && !Waits(s', x)))
            && Record(s', x) == Record(s, x)
  {
    hide AcceptBack, Waits, Record, OneRecord;
    AcceptTakes(s, |s.bound|);
    AcceptKeys(s, |s.bound|, x);
    AcceptBackRecord(s, |s.bound|, x);
  }

  // ----- Which calls of ACCEPT stay open ------------------------------------------------------------

  ghost predicate DistinctFds(bound: seq<Bound>) {
    forall j, k :: 0 <= j < k < |bound| ==> bound[j].fd != bound[k].fd
  }

  ghost predicate SomebodyOn(waiting: seq<Session>, fd: int) {
    exists i :: 0 <= i < |waiting| && waiting[i].socketFd == fd
  }

  lemma OthersWait(waiting: seq<Session>, i: nat, fd: int)
    requires i < |waiting| && waiting[i].socketFd != fd
    ensures SomebodyOn(waiting[..i] + waiting[i + 1..], fd) <==> SomebodyOn(waiting, fd)
  {
    var w := waiting[..i] + waiting[i + 1..];
    if j :| 0 <= j < |waiting| && waiting[j].socketFd == fd {
      assert w[if j < i then j else j - 1] == waiting[j];
    }
    if j :| 0 <= j < |w| && w[j].socketFd == fd {
      assert w[j] == waiting[if j < i then j else j + 1];
    }
  }

  lemma FirstIsSomebody(waiting: seq<Session>, fd: int)
    ensures SomebodyOn(waiting, fd) <==> FirstOn(waiting, fd) < |waiting|
  {
    var i := FirstOn(waiting, fd);
    if i < |waiting| {
      assert waiting[i].socketFd == fd;
    }
  }

  /** Before its turn, a socket and those who wait on it are left alone. */
  lemma {:induction false} BeforeTurn(s: Server, n: nat, k: nat)
    requires n <= k < |s.bound| && DistinctFds(s.bound)
    ensures var t := AcceptBack(s, n);
            t.bound[k] == s.bound[k] && (SomebodyOn(t.waiting, s.bound[k].fd) <==> SomebodyOn(s.waiting, s.bound[k].fd))
  {
    hide SomebodyOn;
    if n == 0 {
    } else {
      BeforeTurn(s, n - 1, k);
      AcceptFlags(s, n - 1);
      var u := AcceptBack(s, n - 1);
      var i := FirstOn(u.waiting, u.bound[n - 1].fd);
      if u.bound[n - 1].accepting && i < |u.waiting| {
        OthersWait(u.waiting, i, s.bound[k].fd);
      }
    }
  }

  lemma {:induction false} AfterTurn(s: Server, n: nat, k: nat)
    requires k < n <= |s.bound|
    ensures AcceptBack(s, n).bound[k] == AcceptBack(s, k + 1).bound[k]
  {
    if n == k + 1 {
    } else {
      AfterTurn(s, n - 1, k);
    }
  }

  /** One call of ACCEPT accepts one session: a socket on which somebody was waiting is no longer
      accepting, and every other socket is as before. */
  lemma AcceptBackFlags(s: Server, k: nat)
    requires k < |s.bound| && DistinctFds(s.bound)
    ensures var t := AcceptBack(s, |s.bound|);
            && t.bound[k].fd == s.bound[k].fd
            && (t.bound[k].accepting <==> s.bound[k].accepting && !SomebodyOn(s.waiting, s.bound[k].fd))
  {
    hide SomebodyOn;
    BeforeTurn(s, k, k);
    AfterTurn(s, |s.bound|, k);
    FirstIsSomebody(AcceptBack(s, k).waiting, s.bound[k].fd);
  }
}
