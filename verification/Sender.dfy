/** The sending half of final/tcpd.c: connected sockets, their two package lists, and
    the handlers that SEND, acknowledge, time out and retransmit packages. */
module Sender {
  import opened Options
  import opened Bytes
  import opened Wire
  import opened TimerList

  const MAX_BUFFER_PACKAGES := 64

  /** Larger than any sequence number in use: MinSeq of a socket with nothing in flight. */
  const NO_MIN_SEQ := 100000000

  // ----- What the handlers do to one connected socket --------------------------------------------

  datatype Sock = Sock(session: nat, base: nat, minSeq: nat, packages: seq<Package>, pending: seq<Package>)

  predicate Matches(p: Package, session: int, seqNum: int) {
    p.session == session && p.seqNum == seqNum
  }

  /** Position of the first package with these numbers, or the length of the list. */
  function Position(list: seq<Package>, session: int, seqNum: int): (i: nat)
    ensures i <= |list|
    ensures i < |list| ==> Matches(list[i], session, seqNum)
    ensures forall j :: 0 <= j < i ==> !Matches(list[j], session, seqNum)
  {
    if list == [] || Matches(list[0], session, seqNum) then 0 else 1 + Position(list[1..], session, seqNum)
  }

  function Without(list: seq<Package>, i: nat): seq<Package> {
    if i < |list| then list[..i] + list[i + 1..] else list
  }

  function Connect(session: nat): Sock {
    Sock(session, 0, 0, [], [])
  }

  function Accept(s: Sock, body: seq<Byte>): Sock {
    s.(base := (s.base + 1) % WORD, pending := s.pending + [Package(s.session, s.base, body)])
  }

  function Acknowledge(s: Sock, a: Ack): Sock {
    s.(packages := Without(s.packages, Position(s.packages, a.session, a.seqNum)))
  }

  function Expire(s: Sock, id: Id): Sock {
    var i := Position(s.packages, id.session, id.seqNum);
    if i < |s.packages| then
      s.(packages := Without(s.packages, i), pending := s.pending + [s.packages[i]])
    else
      s
  }

  function MinSeq(list: seq<Package>): nat {
    if list == [] then
      NO_MIN_SEQ
    else
      var m := MinSeq(list[..|list| - 1]);
      if list[|list| - 1].seqNum < m then list[|list| - 1].seqNum else m
  }

  function Below(list: seq<Package>, limit: nat): seq<Package> {
    if list == [] then
      []
    else
      (if list[0].seqNum < limit then [list[0]] else []) + Below(list[1..], limit)
  }

  function AtLeast(list: seq<Package>, limit: nat): seq<Package> {
    if list == [] then
      []
    else
      (if list[0].seqNum < limit then [] else [list[0]]) + AtLeast(list[1..], limit)
  }

  function Limit(s: Sock): nat {
    MinSeq(s.packages) + MAX_BUFFER_PACKAGES
  }

  /** The pending packages that a flush hands to the network. */
  function ToSend(s: Sock): seq<Package> {
    Below(s.pending, Limit(s))
  }

  function Flush(s: Sock): Sock {
    s.(minSeq := MinSeq(s.packages), packages := s.packages + ToSend(s), pending := AtLeast(s.pending, Limit(s)))
  }

  // ----- Jacobson's estimator, with the integer `abs` of the source ------------------------------

  datatype Estimator = Estimator(elapsed: real, rttPrev: real, devPrev: real)

  const INITIAL_ESTIMATOR := Estimator(0.0, 0.01, 0.01)

  function AbsInt(x: real): real {
    (if x < 0.0 then (-x).Floor else x.Floor) as real
  }

  function Sample(e: Estimator, sample: real): Estimator {
    e.(elapsed := if sample < 0.0 then -1.0 * sample else sample)
  }

  function Rto(e: Estimator): real {
    e.rttPrev + 4.0 * e.devPrev
  }

  function AfterSend(e: Estimator): Estimator {
    var elapsed := if e.elapsed <= 0.0 then 0.01 else e.elapsed;
    Estimator(elapsed,
              0.875 * e.rttPrev + 0.125 * elapsed,
              0.75 * e.devPrev + 0.25 * AbsInt(elapsed - e.rttPrev))
  }

  lemma AbsIsFloor(x: real)
    ensures var a := if x < 0.0 then -x else x; AbsInt(x) <= a < AbsInt(x) + 1.0
  {}

  function Power(x: real, n: nat): real {
    if n == 0 then 1.0 else x * Power(x, n - 1)
  }

  lemma {:induction false} EstimateSettles(n: nat, e: Estimator)
    requires e.elapsed > 0.0 && -1.0 < e.rttPrev - e.elapsed < 1.0
    ensures var f := AfterSends(n, e);
            && f.elapsed == e.elapsed
            && f.rttPrev == e.elapsed + Power(0.875, n) * (e.rttPrev - e.elapsed)
            && f.devPrev == Power(0.75, n) * e.devPrev
    decreases n
  {
    if n == 0 {
    } else {
      var e1 := AfterSend(e);
      AbsIsFloor(e.elapsed - e.rttPrev);
      assert e1 == Estimator(e.elapsed, e.elapsed + 0.875 * (e.rttPrev - e.elapsed), 0.75 * e.devPrev);
      EstimateSettles(n - 1, e1);
      hide AfterSend;
      Reassociate(Power(0.875, n - 1), 0.875, e.rttPrev - e.elapsed);
      Reassociate(Power(0.75, n - 1), 0.75, e.devPrev);
    }
  }

  lemma Reassociate(x: real, y: real, z: real)
    ensures x * (y * z) == (y * x) * z
  {}

  /** Only the size of a sample counts, and before the first one the round trip is taken to be 0.01
      seconds. */
  lemma SampleCounts(e: Estimator, sample: real)
    ensures Sample(e, sample) == Sample(e, -sample)
    ensures sample != 0.0 ==> Sample(e, sample).elapsed > 0.0
    ensures e.elapsed <= 0.0 ==> AfterSend(e) == AfterSend(e.(elapsed := 0.01))
  {
    hide AbsInt;
  }

  /** An error of k whole seconds and a fraction adds k quarters to the deviation: the fraction is
      lost. */
  lemma WholeSecondsCount(e: Estimator, k: nat)
    requires var error := if e.elapsed < e.rttPrev then e.rttPrev - e.elapsed else e.elapsed - e.rttPrev;
             e.elapsed > 0.0 && k as real <= error < k as real + 1.0
    ensures AfterSend(e).devPrev == 0.75 * e.devPrev + 0.25 * k as real
  {
    FloorIs(e.elapsed - e.rttPrev, k);
    hide AbsInt;
  }

  lemma FloorIs(x: real, k: nat)
    requires k as real <= (if x < 0.0 then -x else x) < k as real + 1.0
    ensures AbsInt(x) == k as real
  {
    FloorOf(if x < 0.0 then -x else x, k);
  }

  lemma FloorOf(y: real, k: nat)
    requires k as real <= y < k as real + 1.0
    ensures y.Floor == k
  {
    Later(y.Floor + 1, k);
    Later(k + 1, y.Floor);
  }

  lemma Later(a: int, b: int)
    ensures a <= b ==> a as real <= b as real
  {}

  function IdOf(p: Package): Id {
    Id(p.session, p.seqNum)
  }

  /** The start requests that go to the timer for packages sent in this order. */
  function Starts(sent: seq<Package>, e: Estimator): seq<Request> {
    if sent == [] then [] else [Start(IdOf(sent[0]), Rto(e))] + Starts(sent[1..], AfterSend(e))
  }

  function AfterSends(n: nat, e: Estimator): Estimator {
    if n == 0 then e else AfterSends(n - 1, AfterSend(e))
  }

  lemma {:induction false} StartsAppend(sent: seq<Package>, p: Package, e: Estimator)
    ensures Starts(sent + [p], e) == Starts(sent, e) + [Start(IdOf(p), Rto(AfterSends(|sent|, e)))]
    ensures AfterSends(|sent| + 1, e) == AfterSend(AfterSends(|sent|, e))
    decreases |sent|
  {
    if sent == [] {
      assert Starts([p][1..], AfterSend(e)) == [];
    } else {
      assert (sent + [p])[1..] == sent[1..] + [p];
      StartsAppend(sent[1..], p, AfterSend(e));
    }
  }

  lemma {:induction false} StartsAt(sent: seq<Package>, e: Estimator, k: nat)
    requires k < |sent|
    ensures |Starts(sent, e)| == |sent|
    ensures Starts(sent, e)[k] == Start(IdOf(sent[k]), Rto(AfterSends(k, e)))
    decreases |sent|
  {
    hide Rto, AfterSend;
    if |sent| > 1 {
      StartsAt(sent[1..], AfterSend(e), if k > 0 then k - 1 else 0);
    }
  }

  /** While the round trip keeps taking m seconds, and the estimate is less than a second off, the
      timer of the k-th package sent runs for m, with what is left of the error shrinking by 1/8
      and four times what is left of the deviation shrinking by 1/4 with each package. */
  lemma TimeoutsSettle(sent: seq<Package>, e: Estimator, k: nat)
    requires k < |sent| && e.elapsed > 0.0 && -1.0 < e.rttPrev - e.elapsed < 1.0
    ensures |Starts(sent, e)| == |sent|
    ensures Starts(sent, e)[k] ==
              Start(IdOf(sent[k]),
                    e.elapsed + Power(0.875, k) * (e.rttPrev - e.elapsed) + 4.0 * (Power(0.75, k) * e.devPrev))
  {
    hide AfterSends, Starts, Power;
    StartsAt(sent, e, k);
    EstimateSettles(k, e);
  }

  /** The first timer of the daemon runs for 0.05 seconds, whatever has been measured before. */
  lemma FirstTimeout(sent: seq<Package>, sample: real)
    requires sent != []
    ensures Starts(sent, Sample(INITIAL_ESTIMATOR, sample)) != []
    ensures Starts(sent, Sample(INITIAL_ESTIMATOR, sample))[0] == Start(IdOf(sent[0]), 0.05)
    ensures Starts(sent, INITIAL_ESTIMATOR) != [] && Starts(sent, INITIAL_ESTIMATOR)[0] == Start(IdOf(sent[0]), 0.05)
  {
    hide AfterSend;
  }

  lemma {:induction false} StartsConcat(a: seq<Package>, b: seq<Package>, e: Estimator)
    ensures Starts(a + b, e) == Starts(a, e) + Starts(b, AfterSends(|a|, e))
    ensures AfterSends(|a + b|, e) == AfterSends(|b|, AfterSends(|a|, e))
    decreases |a|
  {
    hide Rto, AfterSend;
    if a == [] {
      assert a + b == b;
    } else {
      assert (a + b)[1..] == a[1..] + b;
      StartsConcat(a[1..], b, AfterSend(e));
    }
  }

  // ----- What they do to the daemon --------------------------------------------------------------

  /** The daemon's globals, its sockets by descriptor, and what it has written so far. */
  datatype Client = Client(
    inBuffer: int,
    estimator: Estimator,
    socks: map<int, Sock>,
    toTroll: seq<Package>,
    toTimer: seq<Request>)

  function AcceptAt(c: Client, fd: int, body: seq<Byte>): Client
    requires fd in c.socks
  {
    c.(inBuffer := c.inBuffer + 1, socks := c.socks[fd := Accept(c.socks[fd], body)])
  }

  /** The round-trip sample is taken before the checksum is looked at. */
  function AcknowledgeAt(c: Client, fd: int, datagram: Datagram, sample: real): Client
    requires fd in c.socks
  {
    var c' := c.(estimator := Sample(c.estimator, sample));
    match OpenAck(datagram)
    case None => c'
    case Some(a) =>
      var s := Acknowledge(c.socks[fd], a);
      c'.(inBuffer := c.inBuffer - (|c.socks[fd].packages| - |s.packages|),
          socks := c.socks[fd := s],
          toTimer := c.toTimer + [Cancel(Id(a.session, a.seqNum))])
  }

  function ExpireAt(c: Client, id: Id): Client {
    c.(socks := map fd | fd in c.socks :: if c.socks[fd].session == id.session then
        Expire(c.socks[fd], id) else c.socks[fd])
  }

  /** No session number has been drawn twice. */
  ghost predicate DistinctSocks(socks: map<int, Sock>) {
    forall a, b :: a in socks && b in socks && a != b ==> socks[a].session != socks[b].session
  }

  /** The notice is taken to one socket. */
  function ExpireIn(c: Client, fd: int, id: Id): Client
    requires fd in c.socks
  {
    c.(socks := c.socks[fd := Expire(c.socks[fd], id)])
  }

  lemma ExpireNobody(c: Client, id: Id)
    requires forall fd :: fd in c.socks ==> c.socks[fd].session != id.session
    ensures ExpireAt(c, id) == c
  {
    forall fd | fd in c.socks
      ensures ExpireAt(c, id).socks[fd] == c.socks[fd]
    {
      assert c.socks[fd].session != id.session;
    }
    assert ExpireAt(c, id).socks.Keys == c.socks.Keys;
  }

  lemma ExpireOne(c: Client, fd: int, id: Id)
    requires fd in c.socks && c.socks[fd].session == id.session && DistinctSocks(c.socks)
    ensures ExpireAt(c, id) == ExpireIn(c, fd, id)
  {
    forall f | f in c.socks && f != fd
      ensures c.socks[f].session != id.session
    {}
    assert ExpireAt(c, id).socks == c.socks[fd := Expire(c.socks[fd], id)];
  }

  function FlushAt(c: Client, fd: int): Client
    requires fd in c.socks
  {
    var sent := ToSend(c.socks[fd]);
    c.(estimator := AfterSends(|sent|, c.estimator),
       socks := c.socks[fd := Flush(c.socks[fd])],
       toTroll := c.toTroll + sent,
       toTimer := c.toTimer + Starts(sent, c.estimator))
  }

  function FlushInOrder(c: Client, order: seq<int>): (c': Client)
    requires forall i :: 0 <= i < |order| ==> order[i] in c.socks
    ensures c'.socks.Keys == c.socks.Keys
  {
    if order == [] then c else FlushAt(FlushInOrder(c, order[..|order| - 1]), order[|order| - 1])
  }

  ghost predicate IsOrder(order: seq<int>, fds: set<int>) {
    && (forall i :: 0 <= i < |order| ==> order[i] in fds)
    && (forall fd :: fd in fds ==> fd in order)
    && (forall i, j :: 0 <= i < j < |order| ==> order[i] != order[j])
  }

  /** What the flushes hand to the network, socket by socket. */
  function SentInOrder(c: Client, order: seq<int>): seq<Package>
    requires forall i :: 0 <= i < |order| ==> order[i] in c.socks
  {
    if order == [] then
      []
    else
      SentInOrder(c, order[..|order| - 1]) + ToSend(c.socks[order[|order| - 1]])
  }

  lemma {:induction false} InOrderHas(c: Client, order: seq<int>, fd: int)
    requires (forall i :: 0 <= i < |order| ==> order[i] in c.socks) && fd in order
    ensures forall p :: p in ToSend(c.socks[fd]) ==> p in SentInOrder(c, order)
  {
    var n := |order| - 1;
    assert order == order[..n] + [order[n]];
    if fd == order[n] {
    } else {
      InOrderHas(c, order[..n], fd);
    }
  }

  /** Whatever the order, flushing all sockets flushes each one once, and the network is handed
      exactly what each had to send, and nothing else. */
  lemma {:induction false} FlushInOrderFlushesEach(c: Client, order: seq<int>, fd: int)
    requires forall i :: 0 <= i < |order| ==> order[i] in c.socks
    requires forall i, j :: 0 <= i < j < |order| ==> order[i] != order[j]
    requires fd in c.socks
    ensures var c' := FlushInOrder(c, order);
            && c'.socks[fd] == (if fd in order then Flush(c.socks[fd]) else c.socks[fd])
            && c'.inBuffer == c.inBuffer
            && c'.toTroll == c.toTroll + SentInOrder(c, order)
  {
    if order == [] {
    } else {
      hide ToSend, Flush;
      var n := |order| - 1;
      FlushInOrderFlushesEach(c, order[..n], fd);
      FlushInOrderFlushesEach(c, order[..n], order[n]);
      assert order == order[..n] + [order[n]] && order[n] !in order[..n];
    }
  }

  lemma {:induction false} OthersWait(c: Client, order: seq<int>, fd: int)
    requires (forall i :: 0 <= i < |order| ==> order[i] in c.socks) && fd in c.socks && fd !in order
    ensures FlushInOrder(c, order).socks[fd] == c.socks[fd]
  {
    hide ToSend, Flush, Starts, AfterSends;
    if order == [] {
    } else {
      OthersWait(c, order[..|order| - 1], fd);
    }
  }

  /** The timers that a flush of all sockets starts are those of the packages it sends, in the order
      in which it sends them, each with the estimate that the ones before have left. */
  lemma {:induction false} FlushInOrderStarts(c: Client, order: seq<int>)
    requires forall i :: 0 <= i < |order| ==> order[i] in c.socks
    requires forall i, j :: 0 <= i < j < |order| ==> order[i] != order[j]
    ensures var t, sent := FlushInOrder(c, order), SentInOrder(c, order);
            t.toTimer == c.toTimer + Starts(sent, c.estimator) && t.estimator == AfterSends(|sent|, c.estimator)
  {
    if order == [] {
      assert c.toTimer + [] == c.toTimer;
    } else {
      hide ToSend, Flush, Starts, AfterSends;
      var n := |order| - 1;
      FlushInOrderStarts(c, order[..n]);
      assert order[n] !in order[..n];
      OthersWait(c, order[..n], order[n]);
      StartsConcat(SentInOrder(c, order[..n]), ToSend(c.socks[order[n]]), c.estimator);
    }
  }

  /** The walk over the pending list `all`: `sent` is taken out, `rest` is what the list has
      become, and the walk has reached position l of it. */
  ghost predicate Walked(all: seq<Package>, limit: nat, sent: seq<Package>, rest: seq<Package>, l: nat) {
    && l <= |rest|
    && Below(all, limit) == sent + Below(rest[l..], limit)
    && AtLeast(all, limit) == rest[..l] + AtLeast(rest[l..], limit)
  }

  lemma WalkStart(all: seq<Package>, limit: nat)
    ensures Walked(all, limit, [], all, 0)
  {
    assert all[0..] == all;
  }

  lemma WalkStep(rest: seq<Package>, limit: nat, l: nat)
    requires l < |rest|
    ensures Below(rest[l..], limit) == (if rest[l].seqNum < limit then [rest[l]] else []) + Below(rest[l + 1..], limit)
    ensures AtLeast(rest[l..], limit) == (if rest[l].seqNum < limit then [] else [rest[l]]) +
        AtLeast(rest[l + 1..], limit)
  {
    assert rest[l..][1..] == rest[l + 1..];
  }

  lemma WalkPast(all: seq<Package>, limit: nat, sent: seq<Package>, rest: seq<Package>, l: nat)
    requires Walked(all, limit, sent, rest, l) && l < |rest| && rest[l].seqNum >= limit
    ensures Walked(all, limit, sent, rest, l + 1)
  {
    WalkStep(rest, limit, l);
    hide Below, AtLeast;
    assert rest[..l + 1] == rest[..l] + [rest[l]];
  }

  lemma WalkTake(all: seq<Package>, limit: nat, sent: seq<Package>, rest: seq<Package>, l: nat)
    requires Walked(all, limit, sent, rest, l) && l < |rest| && rest[l].seqNum < limit
    ensures Walked(all, limit, sent + [rest[l]], rest[..l] + rest[l + 1..], l)
  {
    WalkStep(rest, limit, l);
    hide Below, AtLeast;
    var r := rest[..l] + rest[l + 1..];
    assert r[l..] == rest[l + 1..] && r[..l] == rest[..l];
  }

  lemma WalkDone(all: seq<Package>, limit: nat, sent: seq<Package>, rest: seq<Package>)
    requires Walked(all, limit, sent, rest, |rest|)
    ensures Below(all, limit) == sent && AtLeast(all, limit) == rest
  {}

  // ----- The handlers ----------------------------------------------------------------------------

  /** What a call reports to the process that made it, or the end of the daemon. */
  datatype Reply = Reply(value: int) | Exit(code: int)

  class ConnectedSock {
    const session: nat
    var base: nat
    var minSeq: nat
    var packages: seq<Package>
    var pendingPackages: seq<Package>

    constructor (session: nat)
      ensures View() == Connect(session)
    {
      this.session := session;
      base, minSeq := 0, 0;
      packages, pendingPackages := [], [];
    }

    function View(): Sock
      reads this
    {
      Sock(session, base, minSeq, packages, pendingPackages)
    }
  }

  class ClientDaemon {
    var inBufferPackages: int
    var estimator: Estimator
    var connectedSockets: map<int, ConnectedSock>
    /** Everything written to the troll and to the timer process so far. */
    var toTroll: seq<Package>
    var toTimer: seq<Request>

    constructor ()
      ensures Valid() && State() == Client(0, INITIAL_ESTIMATOR, map[], [], [])
    {
      inBufferPackages := 0;
      estimator := INITIAL_ESTIMATOR;
      connectedSockets := map[];
      toTroll, toTimer := [], [];
    }

    /** Different descriptors, different socket objects. */
    ghost predicate Valid()
      reads this
    {
      forall a, b :: a in connectedSockets && b in connectedSockets && a != b ==>
        connectedSockets[a] != connectedSockets[b]
    }

    ghost function View(): (v: map<int, Sock>)
      reads this, connectedSockets.Values
    {
      map fd | fd in connectedSockets :: connectedSockets[fd].View()
    }

    ghost function State(): Client
      reads this, connectedSockets.Values
    {
      Client(inBufferPackages, estimator, View(), toTroll, toTimer)
    }

    /** Changing one socket object changes one entry of the view. */
    twostate lemma OneChanged(fd: int)
      requires old(Valid()) && connectedSockets == old(connectedSockets) && fd in connectedSockets
      requires forall sock :: sock in connectedSockets.Values && sock != connectedSockets[fd] ==> unchanged(sock)
      ensures View() == old(View())[fd := connectedSockets[fd].View()]
      ensures Valid()
    {
      forall f | f in connectedSockets && f != fd
        ensures View()[f] == old(View())[f]
      {
        assert connectedSockets[f] in connectedSockets.Values && unchanged(connectedSockets[f]);
      }
      assert View().Keys == old(View()).Keys;
    }

    /** CONNECT draws a session number; a socket that the descriptor had before is forgotten. */
    method TcpdConnect(fd: int, session: nat) returns (reply: Reply)
      requires Valid()
      modifies this`connectedSockets
      ensures Valid() && reply == Reply(0)
      ensures State() == old(State()).(socks := old(View())[fd := Connect(session)])
      ensures fresh(connectedSockets.Values - old(connectedSockets.Values))
    {
      var sock := new ConnectedSock(session);
      connectedSockets := connectedSockets[fd := sock];
      return Reply(0);
    }

    /** SEND on a descriptor; the gate in re_register_fd lets it in only below 64 buffered packages. */
    method TcpdSend(fd: int, body: seq<Byte>) returns (reply: Reply)
      requires Valid()
      modifies this`inBufferPackages, connectedSockets.Values
      ensures Valid()
      ensures reply ==
        if |body| > BUF_LEN then Exit(5) else if fd !in connectedSockets then Exit(1) else Reply(|body|)
      ensures State() == if reply.Exit? then old(State()) else AcceptAt(old(State()), fd, body)
    {
      if BUF_LEN < |body| {
        return Exit(5);
      }
      if fd !in connectedSockets {
        return Exit(1);
      }
      var sock := connectedSockets[fd];
      var message := Package(sock.session, sock.base, body);
      sock.base := (sock.base + 1) % WORD;
      sock.pendingPackages := sock.pendingPackages + [message];
      inBufferPackages := inBufferPackages + 1;
      OneChanged(fd);
      return Reply(|body|);
    }

    /** Walks a package list. */
    static method Find(list: seq<Package>, session: int, seqNum: int) returns (l: nat)
      ensures l == Position(list, session, seqNum)
    {
      l := 0;
      assert list[0..] == list;
      while l < |list| && !(list[l].session == session && list[l].seqNum == seqNum)
        invariant l <= |list|
        invariant Position(list, session, seqNum) == l + Position(list[l..], session, seqNum)
      {
        assert list[l..][1..] == list[l + 1..];
        l := l + 1;
      }
    }

    /** An acknowledgement datagram arrives on a connected socket. */
    method RecvAck(fd: int, datagram: Datagram, sample: real) returns (err: int)
      requires Valid() && fd in connectedSockets
      modifies this`inBufferPackages, this`estimator, this`toTimer, connectedSockets.Values
      ensures Valid()
      ensures err == if OpenAck(datagram) == None then -2 else 0
      ensures State() == AcknowledgeAt(old(State()), fd, datagram, sample)
    {
      hide Sample, OpenAck, Position;
      estimator := Sample(estimator, sample);
      var read := OpenAck(datagram);
      if read == None {
        return -2;
      }
      var a := read.value;
      var sock := connectedSockets[fd];
      var l := Find(sock.packages, a.session, a.seqNum);
      if l < |sock.packages| {
        sock.packages := sock.packages[..l] + sock.packages[l + 1..];
        inBufferPackages := inBufferPackages - 1;
      }
      toTimer := toTimer + [Cancel(Id(a.session, a.seqNum))];
      assert sock.View() == Acknowledge(old(sock.View()), a);
      OneChanged(fd);
      return 0;
    }

    /** An expiry notice arrives from the timer process: it goes to some socket of its session, the
        only one if no session number has been drawn twice. */
    method RecvTimer(id: Id) returns (reply: Reply)
      requires Valid()
      modifies connectedSockets.Values
      ensures Valid()
      ensures reply == if exists fd :: fd in connectedSockets && connectedSockets[fd].session == id.session
                       then Reply(0) else Exit(5)
      ensures reply == Exit(5) ==> State() == old(State())
      ensures reply == Reply(0) ==>
                exists fd :: fd in old(View()) && old(View())[fd].session == id.session
                             && State() == ExpireIn(old(State()), fd, id)
      ensures DistinctSocks(old(View())) ==> State() == ExpireAt(old(State()), id)
    {
      hide ExpireAt, Position;
      var todo := connectedSockets.Keys;
      while exists fd :: fd in todo
        invariant todo <= connectedSockets.Keys
        invariant forall fd :: fd in connectedSockets.Keys - todo ==> connectedSockets[fd].session != id.session
        invariant State() == old(State()) && Valid()
        decreases |todo|
      {
        var fd :| fd in todo;
        todo := todo - {fd};
        var sock := connectedSockets[fd];
        if sock.session == id.session {
          assert old(View())[fd].session == id.session;
          ghost var before := sock.View();
          var l := Find(sock.packages, id.session, id.seqNum);
          if l < |sock.packages| {
            var message := sock.packages[l];
            sock.packages := sock.packages[..l] + sock.packages[l + 1..];
            sock.pendingPackages := sock.pendingPackages + [message];
          }
          assert sock.View() == Expire(before, id) && before == old(View())[fd];
          OneChanged(fd);
          assert State() == ExpireIn(old(State()), fd, id);
          if DistinctSocks(old(View())) {
            ExpireOne(old(State()), fd, id);
          }
          return Reply(0);
        }
      }
      assert forall fd :: fd in connectedSockets ==> State().socks[fd].session != id.session;
      ExpireNobody(State(), id);
      return Exit(5);
    }

    /** Retransmission and first transmission of one socket's pending packages. */
    method FlushSocket(fd: int)
      requires Valid() && fd in connectedSockets
      modifies this`estimator, this`toTroll, this`toTimer, connectedSockets.Values
      ensures Valid() && State() == FlushAt(old(State()), fd)
    {
      hide Starts, AfterSends, MinSeq, Below, AtLeast;
      var sock := connectedSockets[fd];
      assert sock.View() == View()[fd];
      UpdateMinSeq(sock);
      SendPending(sock, sock.minSeq + MAX_BUFFER_PACKAGES);
      OneChanged(fd);
    }

    method UpdateMinSeq(sock: ConnectedSock)
      modifies sock`minSeq
      ensures sock.minSeq == MinSeq(sock.packages)
    {
      sock.minSeq := NO_MIN_SEQ;
      var l := 0;
      while l < |sock.packages|
        invariant l <= |sock.packages|
        invariant sock.minSeq == MinSeq(sock.packages[..l])
      {
        var seqNum := sock.packages[l].seqNum;
        assert sock.packages[..l + 1][..l] == sock.packages[..l];
        sock.minSeq := if seqNum < sock.minSeq then seqNum else sock.minSeq;
        l := l + 1;
      }
      assert sock.packages[..l] == sock.packages;
    }

    method SendPending(sock: ConnectedSock, limit: nat)
      modifies this`estimator, this`toTroll, this`toTimer, sock`packages, sock`pendingPackages
      ensures var sent := Below(old(sock.pendingPackages), limit);
              && sock.packages == old(sock.packages) + sent
              && sock.pendingPackages == AtLeast(old(sock.pendingPackages), limit)
              && toTroll == old(toTroll) + sent
              && toTimer == old(toTimer) + Starts(sent, old(estimator))
              && estimator == AfterSends(|sent|, old(estimator))
    {
      assert Starts([], estimator) == [];
      hide Walked, Below, AtLeast, Starts, AfterSend, Rto;
      ghost var all, sent: seq<Package> := sock.pendingPackages, [];
      WalkStart(all, limit);
      var l := 0;
      while l < |sock.pendingPackages|
        invariant l <= |sock.pendingPackages|
        invariant Walked(all, limit, sent, sock.pendingPackages, l)
        invariant sock.packages == old(sock.packages) + sent
        invariant toTroll == old(toTroll) + sent
        invariant toTimer == old(toTimer) + Starts(sent, old(estimator))
        invariant estimator == AfterSends(|sent|, old(estimator))
        decreases |sock.pendingPackages| - l
      {
        var message := sock.pendingPackages[l];
        if message.seqNum >= limit {
          WalkPast(all, limit, sent, sock.pendingPackages, l);
          l := l + 1;
        } else {
          WalkTake(all, limit, sent, sock.pendingPackages, l);
          StartsAppend(sent, message, old(estimator));
          sent := sent + [message];
          toTroll := toTroll + [message];
          sock.packages := sock.packages + [message];
          sock.pendingPackages := sock.pendingPackages[..l] + sock.pendingPackages[l + 1..];
          toTimer := toTimer + [Start(IdOf(message), Rto(estimator))];
          estimator := AfterSend(estimator);
        }
      }
      WalkDone(all, limit, sent, sock.pendingPackages);
    }

    /** The end of every turn of the main loop: all sockets, in whatever order the table yields. */
    method HandleSendAllBack() returns (ghost order: seq<int>)
      requires Valid()
      modifies this`estimator, this`toTroll, this`toTimer, connectedSockets.Values
      ensures Valid() && IsOrder(order, old(View()).Keys)
      ensures State() == FlushInOrder(old(State()), order)
    {
      hide FlushAt;
      order := [];
      var todo := connectedSockets.Keys;
      assert connectedSockets.Keys - todo == {};
      while exists fd :: fd in todo
        invariant todo <= connectedSockets.Keys && Valid()
        invariant IsOrder(order, connectedSockets.Keys - todo)
        invariant State() == FlushInOrder(old(State()), order)
        decreases |todo|
      {
        var fd :| fd in todo;
        FlushSocket(fd);
        todo := todo - {fd};
        assert (order + [fd])[..|order|] == order;
        order := order + [fd];
      }
    }
  }
}
