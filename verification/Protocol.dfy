/** The whole of final/: a sending daemon, its timer process, the network in between and a
    receiving daemon, as one step system. */
module Protocol {
  import opened Options
  import opened Wire
  import opened TimerList
  import opened Sender
  import opened Receiver
  import opened ServerTables
  import opened Conversation

  /** The network holds everything ever written to it: `client.toTroll` and `server.acks`.
      Requests to the timer are read in order; `consumed` counts those read so far.
      `target` holds the socket of the receiving daemon that each session was connected to, by the
      descriptor bound to its address.  The last two fields are history: the payloads accepted on
      each descriptor, and the sessions in which a drain has split a package. */
  datatype System = System(
    client: Client,
    consumed: nat,
    timer: seq<Node>,
    notices: seq<Id>,
    server: Server,
    target: map<int, int>,
    sent: map<int, seq<Payload>>,
    split: set<int>)

  datatype Step =
    | ConnectStep(fd: int, name: nat, to: int)
    | SendStep(fd: int, body: Payload)
    | AckStep(fd: int, datagram: Datagram, sample: real)
    | NoticeStep
    | FlushStep(order: seq<int>)
    | TimerStep(elapsed: real, take: bool)
    | BindStep(fd: int)
    | DataStep(fd: int, datagram: Datagram)
    | AcceptCallStep(bound: nat)
    | AcceptStep
    | RecvStep(session: int, length: nat)
    | DrainStep

  predicate KnownSession(socks: map<int, Sock>, x: int) {
    exists fd :: fd in socks && socks[fd].session == x
  }

  /** What session x sends arrives on this descriptor of the receiving daemon. */
  predicate AddressedTo(s: System, x: int, fd: int) {
    x in s.target && s.target[x] == fd
  }

  function InTransit(s: System): seq<Request> {
    if s.consumed <= |s.client.toTimer| then s.client.toTimer[s.consumed..] else []
  }

  /** When a step can happen.  The network delivers copies of what was written to it, or
      datagrams whose checksum gives them away; losing a datagram is not delivering it. */
  ghost predicate Enabled(s: System, step: Step) {
    match step
    case ConnectStep(fd, session, to) =>
      fd !in s.client.socks && !KnownSession(s.client.socks, session) && session < WORD
    case SendStep(fd, body) =>
      && s.client.inBuffer < MAX_BUFFER_PACKAGES
      && |body| <= BUF_LEN
      && fd in s.client.socks
      && s.client.socks[fd].base + 1 < WORD
    case AckStep(fd, datagram, sample) =>
      && fd in s.client.socks
      && (OpenAck(datagram).Some? ==>
            OpenAck(datagram).value in s.server.acks && OpenAck(datagram).value.session == s.client.socks[fd].session)
    case NoticeStep => s.notices != []
    case FlushStep(order) => IsOrder(order, s.client.socks.Keys)
    case TimerStep(elapsed, take) => elapsed >= 0.0 && (take ==> InTransit(s) != [])
    case BindStep(fd) => !IsBound(s.server, fd)
    case DataStep(fd, datagram) =>
      && IsBound(s.server, fd)
      && (OpenData(datagram).Some? ==>
            OpenData(datagram).value in s.client.toTroll && AddressedTo(s, OpenData(datagram).value.session, fd))
    case AcceptCallStep(bound) => bound < |s.server.bound|
    case AcceptStep => true
    case RecvStep(session, length) => true
    case DrainStep => !Oversized(s.server)
  }

  function TimerRequest(s: System, take: bool): Option<Request> {
    if take && InTransit(s) != [] then Some(InTransit(s)[0]) else None
  }

  /** Sessions whose next drain splits a package. */
  ghost function Splitting(server: Server): set<int> {
    set x | x in server.accepted && Splits(server.accepted[x])
  }

  ghost function After(s: System, step: Step): System
    requires Enabled(s, step)
  {
    match step
    case ConnectStep(fd, session, to) =>
      s.(client := s.client.(socks := s.client.socks[fd := Connect(session)]),
         target := s.target[session := to],
         sent := s.sent[fd := []])
    case SendStep(fd, body) =>
      s.(client := AcceptAt(s.client, fd, body),
         sent := s.sent[fd := (if fd in s.sent then s.sent[fd] else []) + [body]])
    case AckStep(fd, datagram, sample) => s.(client := AcknowledgeAt(s.client, fd, datagram, sample))
    case NoticeStep => s.(client := ExpireAt(s.client, s.notices[0]), notices := s.notices[1..])
    case FlushStep(order) => s.(client := FlushInOrder(s.client, order))
    case TimerStep(elapsed, take) =>
      var (timer, fired) := OneRound(s.timer, elapsed, TimerRequest(s, take));
      s.(timer := timer, notices := s.notices + fired, consumed := if take then s.consumed + 1 else s.consumed)
    case BindStep(fd) => s.(server := Bind(s.server, fd))
    case DataStep(fd, datagram) => s.(server := RecvDataAt(s.server, fd, datagram))
    case AcceptCallStep(k) =>
      s.(server := s.server.(bound := s.server.bound[k := s.server.bound[k].(accepting := true)]))
    case AcceptStep => s.(server := AcceptBack(s.server, |s.server.bound|))
    case RecvStep(session, length) => s.(server := RecvCall(s.server, session, length))
    case DrainStep => s.(server := RecvBack(s.server), split := s.split + Splitting(s.server))
  }

  ghost predicate Init(s: System) {
    && s.client == Client(0, INITIAL_ESTIMATOR, map[], [], [])
    && s.consumed == 0 && s.timer == [] && s.notices == []
    && s.server == Server([], [], map[], [])
    && s.target == map[]
    && s.sent == map[] && s.split == {}
  }

  ghost predicate IsRun(states: seq<System>, steps: seq<Step>) {
    && |states| == |steps| + 1
    && Init(states[0])
    && forall i :: 0 <= i < |steps| ==> Enabled(states[i], steps[i]) && states[i + 1] == After(states[i], steps[i])
  }

  // ----- The sessions ----------------------------------------------------------------------------

  /** Nothing on the network and no record belongs to a session nobody opened. */
  ghost predicate OnlyKnown(socks: map<int, Sock>, net: seq<Package>, server: Server, split: set<int>) {
    && (forall p :: p in net ==> KnownSession(socks, p.session))
    && (forall a :: a in server.acks ==> KnownSession(socks, a.session))
    && (forall x :: Record(server, x).Some? ==> KnownSession(socks, x))
    && (forall x :: x in split ==> Record(server, x).Some?)
  }

  ghost predicate SessionOk(fd: int, socks: map<int, Sock>, net: seq<Package>, server: Server,
                            sent: map<int, seq<Payload>>, split: set<int>)
    requires fd in socks && fd in sent
  {
    var x := socks[fd].session;
    && x < WORD
    && (forall i :: 0 <= i < |sent[fd]| ==> |sent[fd][i]| <= BUF_LEN)
    && SessionInv(socks[fd], net, server.acks, Record(server, x), sent[fd], x in split)
  }

  ghost predicate SessionsInv(socks: map<int, Sock>, net: seq<Package>, server: Server, sent: map<int, seq<Payload>>,
                              split: set<int>) {
    && DistinctSocks(socks)
    && OneRecord(server)
    && sent.Keys == socks.Keys
    && OnlyKnown(socks, net, server, split)
    && forall fd :: fd in socks ==> SessionOk(fd, socks, net, server, sent, split)
  }

  ghost predicate Sessions(s: System) {
    SessionsInv(s.client.socks, s.client.toTroll, s.server, s.sent, s.split)
  }

  lemma ConnectSessions(s: System, fd: int, session: nat, to: int)
    requires Sessions(s) && Enabled(s, ConnectStep(fd, session, to))
    ensures Sessions(After(s, ConnectStep(fd, session, to)))
  {
    hide SessionInv;
    var s' := After(s, ConnectStep(fd, session, to));
    forall x | KnownSession(s.client.socks, x)
      ensures KnownSession(s'.client.socks, x)
    {
      var f :| f in s.client.socks && s.client.socks[f].session == x;
      assert f in s'.client.socks && s'.client.socks[f].session == x;
    }
    FreshSession(s.client.toTroll, s.server, session);
    forall f | f in s'.client.socks
      ensures SessionOk(f, s'.client.socks, s'.client.toTroll, s'.server, s'.sent, s'.split)
    {
      if f != fd {
        assert SessionOk(f, s.client.socks, s.client.toTroll, s.server, s.sent, s.split);
      } else {
        assert Record(s.server, session) == None;
      }
    }
  }

  lemma FreshSession(net: seq<Package>, server: Server, x: nat)
    requires forall p :: p in net ==> p.session != x
    requires forall a :: a in server.acks ==> a.session != x
    ensures SessionInv(Connect(x), net, server.acks, None, [], false)
  {}

  ghost predicate SameNames(socks: map<int, Sock>, socks': map<int, Sock>) {
    socks'.Keys == socks.Keys && forall fd :: fd in socks ==> socks'[fd].session == socks[fd].session
  }

  lemma SameNamesKnown(socks: map<int, Sock>, socks': map<int, Sock>, x: int)
    requires SameNames(socks, socks')
    ensures KnownSession(socks', x) <==> KnownSession(socks, x)
  {
    if KnownSession(socks, x) {
      var f :| f in socks && socks[f].session == x;
      assert socks'[f].session == x;
    }
    if KnownSession(socks', x) {
      var f :| f in socks' && socks'[f].session == x;
      assert socks[f].session == x;
    }
  }

  lemma NamesKept(s: System, step: Step)
    requires Enabled(s, step) && !step.SendStep? && !step.ConnectStep?
    ensures SameNames(s.client.socks, After(s, step).client.socks) && After(s, step).sent == s.sent
  {
    match step
    case AckStep(fd, datagram, sample) =>
      hide OpenAck, Sample, AfterSends;
    case FlushStep(order) =>
      FlushNames(s.client, order);
    case _ =>
  }

  lemma {:induction false} FlushNames(c: Client, order: seq<int>)
    requires forall i :: 0 <= i < |order| ==> order[i] in c.socks
    ensures SameNames(c.socks, FlushInOrder(c, order).socks)
  {
    if order == [] {
    } else {
      FlushNames(c, order[..|order| - 1]);
    }
  }

  /** A step of the sending daemon that keeps every session keeps them all together. */
  lemma ClientChange(
    socks: map<int, Sock>, net: seq<Package>, server: Server, sent: map<int, seq<Payload>>, split: set<int>,
    socks': map<int, Sock>, net': seq<Package>, sent': map<int, seq<Payload>>)
    requires SessionsInv(socks, net, server, sent, split)
    requires SameNames(socks, socks') && sent'.Keys == sent.Keys
    requires forall p :: p in net' ==> p in net || KnownSession(socks, p.session)
    requires forall fd :: fd in socks' ==> SessionOk(fd, socks', net', server, sent', split)
    ensures SessionsInv(socks', net', server, sent', split)
  {
    hide SessionOk;
    forall x
      ensures KnownSession(socks', x) <==> KnownSession(socks, x)
    {
      SameNamesKnown(socks, socks', x);
    }
  }

  lemma SendSessions(s: System, fd: int, body: Payload)
    requires Sessions(s) && Enabled(s, SendStep(fd, body))
    ensures Sessions(After(s, SendStep(fd, body)))
  {
    hide SessionInv, SessionsInv, Accept;
    var s' := After(s, SendStep(fd, body));
    assert SessionsInv(s.client.socks, s.client.toTroll, s.server, s.sent, s.split);
    SessionsParts(s);
    AcceptNames(s.client.socks[fd], body);
    forall f | f in s'.client.socks
      ensures SessionOk(f, s'.client.socks, s'.client.toTroll, s.server, s'.sent, s.split)
    {
      assert SessionOk(f, s.client.socks, s.client.toTroll, s.server, s.sent, s.split);
      if f == fd {
        var x := s.client.socks[fd].session;
        AcceptKeeps(s.client.socks[fd], s.client.toTroll, s.server.acks, Record(s.server, x), s.sent[fd],
            x in s.split, body);
      }
    }
    ClientChange(s.client.socks, s.client.toTroll, s.server, s.sent, s.split, s'.client.socks, s'.client.toTroll,
        s'.sent);
  }

  lemma SessionsParts(s: System)
    requires Sessions(s)
    ensures s.sent.Keys == s.client.socks.Keys
    ensures DistinctSocks(s.client.socks)
    ensures OneRecord(s.server)
    ensures forall fd :: fd in s.client.socks ==>
      SessionOk(fd, s.client.socks, s.client.toTroll, s.server, s.sent, s.split)
  {}

  lemma AcceptNames(sock: Sock, body: Payload)
    ensures Accept(sock, body).session == sock.session
  {}

  lemma AckSessions(s: System, fd: int, datagram: Datagram, sample: real)
    requires Sessions(s) && Enabled(s, AckStep(fd, datagram, sample))
    ensures Sessions(After(s, AckStep(fd, datagram, sample)))
  {
    hide SessionInv, SessionsInv, Position, OpenAck, Sample;
    SessionsParts(s);
    if OpenAck(datagram).Some? {
      var a := OpenAck(datagram).value;
      var socks, net := s.client.socks, s.client.toTroll;
      var socks' := socks[fd := Acknowledge(socks[fd], a)];
      forall f | f in socks'
        ensures SessionOk(f, socks', net, s.server, s.sent, s.split)
      {
        assert SessionOk(f, socks, net, s.server, s.sent, s.split);
        if f == fd {
          var x := socks[fd].session;
          AcknowledgeKeeps(socks[fd], net, s.server.acks, Record(s.server, x), s.sent[fd], x in s.split, a);
        }
      }
      ClientChange(socks, net, s.server, s.sent, s.split, socks', net, s.sent);
    }
  }

  lemma NoticeSessions(s: System)
    requires Sessions(s) && Enabled(s, NoticeStep)
    ensures Sessions(After(s, NoticeStep))
  {
    hide SessionInv, SessionsInv, Expire;
    SessionsParts(s);
    var id := s.notices[0];
    var socks, net := s.client.socks, s.client.toTroll;
    var socks' := ExpireAt(s.client, id).socks;
    forall f | f in socks'
      ensures SessionOk(f, socks', net, s.server, s.sent, s.split) && socks'[f].session == socks[f].session
    {
      assert SessionOk(f, socks, net, s.server, s.sent, s.split);
      ExpireNames(socks[f], id);
      if socks[f].session == id.session {
        var x := socks[f].session;
        ExpireKeeps(socks[f], net, s.server.acks, Record(s.server, x), s.sent[f], x in s.split, id);
      }
    }
    ClientChange(socks, net, s.server, s.sent, s.split, socks', net, s.sent);
  }

  function FlushOne(s: System, fd: int): System
    requires fd in s.client.socks
  {
    s.(client := FlushAt(s.client, fd))
  }

  lemma FlushOneSessions(s: System, fd: int)
    requires Sessions(s) && fd in s.client.socks
    ensures Sessions(FlushOne(s, fd))
  {
    hide SessionInv, SessionsInv, ToSend, AfterSends, Starts, SenderInv;
    SessionsParts(s);
    var socks, net := s.client.socks, s.client.toTroll;
    var more := ToSend(socks[fd]);
    var socks' := socks[fd := Flush(socks[fd])];
    assert forall p :: p in more ==> p.session == socks[fd].session by {
      assert SessionOk(fd, socks, net, s.server, s.sent, s.split);
      ToSendNames(socks[fd], net, s.server.acks, Record(s.server, socks[fd].session), s.sent[fd],
          socks[fd].session in s.split);
    }
    forall f | f in socks'
      ensures SessionOk(f, socks', net + more, s.server, s.sent, s.split)
    {
      assert SessionOk(f, socks, net, s.server, s.sent, s.split);
      var x := socks[f].session;
      if f == fd {
        FlushKeeps(socks[f], net, s.server.acks, Record(s.server, x), s.sent[f], x in s.split);
      } else {
        OthersKeep(socks[f], net, s.server.acks, Record(s.server, x), s.sent[f], x in s.split, more);
      }
    }
    assert forall p :: p in net + more ==> p in net || KnownSession(socks, p.session);
    ClientChange(socks, net, s.server, s.sent, s.split, socks', net + more, s.sent);
  }

  lemma ToSendNames(s: Sock, net: seq<Package>, acks: seq<Ack>, record: Option<Session>, sent: seq<Payload>,
                    split: bool)
    requires SessionInv(s, net, acks, record, sent, split)
    ensures forall p :: p in ToSend(s) ==> p.session == s.session && p in s.pending
  {
    forall p | p in ToSend(s)
      ensures p.session == s.session && p in s.pending
    {
      BelowMembers(s.pending, Limit(s), p);
      assert p in Buffered(s);
    }
  }

  /** Flushing the first n sockets of an order, one after the other. */
  function FlushSome(s: System, order: seq<int>): (s': System)
    requires forall i :: 0 <= i < |order| ==> order[i] in s.client.socks
    ensures s' == s.(client := FlushInOrder(s.client, order))
  {
    if order == [] then s else FlushOne(FlushSome(s, order[..|order| - 1]), order[|order| - 1])
  }

  lemma {:induction false} FlushSessions(s: System, order: seq<int>)
    requires Sessions(s) && forall i :: 0 <= i < |order| ==> order[i] in s.client.socks
    ensures Sessions(FlushSome(s, order))
  {
    hide Sessions, FlushAt, FlushOne;
    if order == [] {
    } else {
      var n := |order| - 1;
      FlushSessions(s, order[..n]);
      assert FlushSome(s, order[..n]).client.socks.Keys == s.client.socks.Keys;
      FlushOneSessions(FlushSome(s, order[..n]), order[n]);
    }
  }

  lemma KnownChange(socks: map<int, Sock>, net: seq<Package>, server: Server, split: set<int>, server': Server,
                    split': set<int>)
    requires OnlyKnown(socks, net, server, split)
    requires forall a :: a in server'.acks ==> a in server.acks || KnownSession(socks, a.session)
    requires forall x: int :: Record(server', x).Some? ==> Record(server, x).Some? || KnownSession(socks, x)
    requires forall x: int :: Record(server, x).Some? ==> Record(server', x).Some?
    requires forall x :: x in split' ==> x in split || Record(server', x).Some?
    ensures OnlyKnown(socks, net, server', split')
  {
    hide Record, KnownSession;
  }

  lemma DataSessions(s: System, fd: int, datagram: Datagram)
    requires Sessions(s) && Enabled(s, DataStep(fd, datagram))
    ensures Sessions(After(s, DataStep(fd, datagram)))
  {
    hide SessionInv, RecvDataAt, OpenData, OneRecord, Record, Place;
    if OpenData(datagram).Some? {
      var p := OpenData(datagram).value;
      var socks, net := s.client.socks, s.client.toTroll;
      var server' := RecvDataAt(s.server, fd, datagram);
      RecvDataOneRecord(s.server, fd, datagram);
      forall x: int
        ensures Record(server', x).Some? ==> Record(s.server, x).Some? || x == p.session
        ensures Record(s.server, x).Some? ==> Record(server', x).Some?
      {
        RecvDataRecord(s.server, fd, datagram, x);
      }
      RecvDataRecord(s.server, fd, datagram, p.session);
      forall f | f in socks
        ensures SessionOk(f, socks, net, server', s.sent, s.split)
      {
        DataSession(s, fd, datagram, f);
      }
      hide SessionOk, KnownSession;
      KnownChange(socks, net, s.server, s.split, server', s.split);
      hide OnlyKnown;
    } else {
      GarbledIgnored(s.server, fd, datagram);
    }
  }

  lemma GarbledIgnored(server: Server, fd: int, datagram: Datagram)
    requires OpenData(datagram) == None
    ensures RecvDataAt(server, fd, datagram) == server
  {}

  lemma DataSession(s: System, fd: int, datagram: Datagram, f: int)
    requires Sessions(s) && Enabled(s, DataStep(fd, datagram)) && OpenData(datagram).Some? && f in s.client.socks
    ensures SessionOk(f, s.client.socks, s.client.toTroll, RecvDataAt(s.server, fd, datagram), s.sent, s.split)
  {
    hide SessionInv, RecvDataAt, OpenData, OneRecord, Record, Place;
    var p := OpenData(datagram).value;
    var socks, net := s.client.socks, s.client.toTroll;
    var x := socks[f].session;
    assert SessionOk(f, socks, net, s.server, s.sent, s.split);
    RecvDataRecord(s.server, fd, datagram, x);
    if x == p.session {
      DataKeeps(socks[f], net, s.server.acks, Record(s.server, x), s.sent[f], x in s.split, fd, p);
    } else {
      OtherAck(socks[f], net, s.server.acks, Record(s.server, x), s.sent[f], x in s.split, Ack(p.session, p.seqNum));
    }
  }

  lemma OtherAck(s: Sock, net: seq<Package>, acks: seq<Ack>, record: Option<Session>, sent: seq<Payload>,
                 split: bool, a: Ack)
    requires SessionInv(s, net, acks, record, sent, split) && a.session != s.session
    ensures SessionInv(s, net, acks + [a], record, sent, split)
  {
    hide ReceiverInv, SenderInv;
  }

  lemma AcceptSessions(s: System)
    requires Sessions(s)
    ensures Sessions(After(s, AcceptStep))
  {
    hide SessionInv, AcceptBack, Record, OneRecord;
    var server' := AcceptBack(s.server, |s.server.bound|);
    forall x: int
      ensures Record(server', x) == Record(s.server, x)
    {
      AcceptBackRecord(s.server, |s.server.bound|, x);
    }
    AcceptBackRecord(s.server, |s.server.bound|, 0);
    SameRecords(s.client.socks, s.client.toTroll, s.server, s.sent, s.split, server');
  }

  lemma SameRecords(socks: map<int, Sock>, net: seq<Package>, server: Server, sent: map<int, seq<Payload>>,
                    split: set<int>, server': Server)
    requires SessionsInv(socks, net, server, sent, split)
    requires OneRecord(server') && server'.acks == server.acks
    requires forall x: int :: Record(server', x) == Record(server, x)
    ensures SessionsInv(socks, net, server', sent, split)
  {
    hide SessionInv, Record, OneRecord;
    forall fd | fd in socks
      ensures SessionOk(fd, socks, net, server', sent, split)
    {
      assert SessionOk(fd, socks, net, server, sent, split);
    }
  }

  lemma AcceptCallSessions(s: System, k: nat)
    requires Sessions(s) && k < |s.server.bound|
    ensures Sessions(After(s, AcceptCallStep(k)))
  {
    hide SessionInv;
    var server' := s.server.(bound := s.server.bound[k := s.server.bound[k].(accepting := true)]);
    SameRecords(s.client.socks, s.client.toTroll, s.server, s.sent, s.split, server');
  }

  lemma BindSessions(s: System, fd: int)
    requires Sessions(s) && Enabled(s, BindStep(fd))
    ensures Sessions(After(s, BindStep(fd)))
  {
    hide SessionInv;
    SameRecords(s.client.socks, s.client.toTroll, s.server, s.sent, s.split, Bind(s.server, fd));
  }

  /** Requests and drains change accepted records in place. */
  lemma RecordsChange(s: System, server': Server, split': set<int>)
    requires Sessions(s) && s.split <= split'
    requires server'.waiting == s.server.waiting && server'.acks == s.server.acks
    requires server'.accepted.Keys == s.server.accepted.Keys
    requires forall x :: x in s.server.accepted ==> server'.accepted[x].session == s.server.accepted[x].session
    requires forall x :: x in split' ==> x in s.split || x in s.server.accepted
    requires forall fd :: fd in s.client.socks ==>
      var x := s.client.socks[fd].session;
      if x in s.server.accepted then
        SessionInv(s.client.socks[fd], s.client.toTroll, s.server.acks, Some(server'.accepted[x]), s.sent[fd],
            x in split')
      else
        x in split' <==> x in s.split
    ensures Sessions(s.(server := server', split := split'))
  {
    hide SessionInv;
    var socks, net := s.client.socks, s.client.toTroll;
    SessionsParts(s);
    AcceptedChange(s.server, server');
    hide Record, OneRecord;
    forall fd | fd in socks
      ensures SessionOk(fd, socks, net, server', s.sent, split')
    {
      assert SessionOk(fd, socks, net, s.server, s.sent, s.split);
    }
    hide SessionOk, KnownSession;
    KnownChange(socks, net, s.server, s.split, server', split');
    hide OnlyKnown;
  }

  lemma AcceptedChange(server: Server, server': Server)
    requires OneRecord(server)
    requires server'.waiting == server.waiting
    requires server'.accepted.Keys == server.accepted.Keys
    requires forall x :: x in server.accepted ==> server'.accepted[x].session == server.accepted[x].session
    ensures OneRecord(server')
    ensures forall x: int :: Record(server', x) == if x in server.accepted then
        Some(server'.accepted[x]) else Record(server, x)
    ensures forall x: int :: x in server.accepted ==> Record(server, x) == Some(server.accepted[x])
  {}

  lemma RecvSessions(s: System, session: int, length: nat)
    requires Sessions(s)
    ensures Sessions(After(s, RecvStep(session, length)))
  {
    if RecvReply(s.server, session, length) == None {
      var server' := RecvCall(s.server, session, length);
      var r := s.server.accepted[session];
      forall fd | fd in s.client.socks
        ensures var x := s.client.socks[fd].session;
                x in s.server.accepted ==>
                SessionInv(s.client.socks[fd], s.client.toTroll, s.server.acks, Some(server'.accepted[x]),
                    s.sent[fd], x in s.split)
      {
        var x := s.client.socks[fd].session;
        assert SessionOk(fd, s.client.socks, s.client.toTroll, s.server, s.sent, s.split);
        if x == session {
          hide SenderInv, ReceiverInv, Got;
          RequestKeeps(x, r, s.sent[fd], x in s.split, length);
        }
      }
      hide SessionInv;
      RecordsChange(s, server', s.split);
    }
  }

  lemma DrainSessions(s: System)
    requires Sessions(s)
    ensures Sessions(s.(server := RecvBack(s.server), split := s.split + Splitting(s.server)))
  {
    hide Drain, Splits, ReceiverInv, SenderInv, Got;
    var server', split' := RecvBack(s.server), s.split + Splitting(s.server);
    forall x | x in s.server.accepted
      ensures server'.accepted[x].session == s.server.accepted[x].session
    {
      DrainNames(s.server.accepted[x]);
    }
    forall fd | fd in s.client.socks
      ensures var x := s.client.socks[fd].session;
              x in s.server.accepted ==>
              SessionInv(s.client.socks[fd], s.client.toTroll, s.server.acks, Some(server'.accepted[x]), s.sent[fd],
                  x in split')
    {
      var x := s.client.socks[fd].session;
      assert SessionOk(fd, s.client.socks, s.client.toTroll, s.server, s.sent, s.split);
      if x in s.server.accepted {
        SentInRange(s.client.socks[fd], s.client.toTroll, s.sent[fd]);
        DrainKeeps(x, s.server.accepted[x], s.sent[fd], x in s.split);
      }
    }
    hide SessionInv;
    RecordsChange(s, server', split');
  }

  lemma SentInRange(s: Sock, net: seq<Package>, sent: seq<Payload>)
    requires SenderInv(s, net, sent)
    ensures |sent| < WORD
  {}

  lemma DrainNames(r: Session)
    ensures Drain(r).session == r.session
  {
    DrainLoopLeaves(r);
  }

  /** Every step keeps every session. */
  lemma StepSessions(s: System, step: Step)
    requires Sessions(s) && Enabled(s, step)
    ensures Sessions(After(s, step))
  {
    hide Sessions;
    match step
    case ConnectStep(fd, session, to) => ConnectSessions(s, fd, session, to);
    case SendStep(fd, body) => SendSessions(s, fd, body);
    case AckStep(fd, datagram, sample) => AckSessions(s, fd, datagram, sample);
    case NoticeStep => NoticeSessions(s);
    case FlushStep(order) => FlushSessions(s, order);
    case TimerStep(elapsed, take) => TimerSessions(s, elapsed, take);
    case BindStep(fd) => BindSessions(s, fd);
    case DataStep(fd, datagram) => DataSessions(s, fd, datagram);
    case AcceptCallStep(k) => AcceptCallSessions(s, k);
    case AcceptStep => AcceptSessions(s);
    case RecvStep(session, length) => RecvSessions(s, session, length);
    case DrainStep => DrainSessions(s);
  }

  lemma TimerSessions(s: System, elapsed: real, take: bool)
    requires Sessions(s) && Enabled(s, TimerStep(elapsed, take))
    ensures Sessions(After(s, TimerStep(elapsed, take)))
  {}
}
