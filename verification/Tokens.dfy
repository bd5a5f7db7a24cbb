/** Retransmission never stops: every package in flight has exactly one live timer token, a
    start request on its way, a node in the timer list, or an expiry notice on its way back. */
module Tokens {
  import opened Options
  import opened Wire
  import opened TimerList
  import opened Sender
  import opened Conversation
  import opened Protocol

  // ----- Tokens in the request queue, the timer list and the notices -----------------------------

  function StartBag(requests: seq<Request>): multiset<Id> {
    if requests == [] then
      multiset{}
    else
      StartBag(requests[..|requests| - 1]) +
      match requests[|requests| - 1]
      case Start(id, _) => multiset{id}
      case Cancel(_) => multiset{}
  }

  lemma {:induction false} StartBagConcat(a: seq<Request>, b: seq<Request>)
    ensures StartBag(a + b) == StartBag(a) + StartBag(b)
  {
    if b == [] {
      assert a + b == a;
    } else {
      assert (a + b)[..|a + b| - 1] == a + b[..|b| - 1];
      StartBagConcat(a, b[..|b| - 1]);
    }
  }

  lemma StartBagFirst(r: Request, rest: seq<Request>)
    ensures StartBag([r] + rest) == (match r case Start(id, _) => multiset{id} case Cancel(_) => multiset{}) +
        StartBag(rest)
  {
    StartBagConcat([r], rest);
    assert [r][..0] == [];
  }

  lemma {:induction false} StartBagHas(requests: seq<Request>, j: nat, id: Id)
    requires j < |requests| && requests[j].Start? && requests[j].id == id
    ensures id in StartBag(requests)
  {
    if j == |requests| - 1 {
    } else {
      StartBagHas(requests[..|requests| - 1], j, id);
    }
  }

  function IdBag(list: seq<Node>): multiset<Id> {
    multiset(Ids(list))
  }

  lemma IdBagCons(n: Node, list: seq<Node>)
    ensures IdBag([n] + list) == multiset{n.id} + IdBag(list)
  {
    assert Ids([n] + list) == [n.id] + Ids(list);
  }

  lemma IdBagHas(list: seq<Node>, id: Id)
    ensures Has(list, id) <==> id in IdBag(list)
  {
    if Has(list, id) {
      var i :| 0 <= i < |list| && list[i].id == id;
      assert Ids(list)[i] == id;
    }
    if id in IdBag(list) {
      var i :| 0 <= i < |list| && Ids(list)[i] == id;
    }
  }

  lemma CarryIds(list: seq<Node>, r: real)
    ensures Ids(Carry(list, r)) == Ids(list)
  {}

  lemma {:induction false} SettleIds(list: seq<Node>)
    ensures Ids(Settle(list)) == Ids(list)
    decreases |list|
  {
    if list == [] || list[0].remain > 0.0 {
    } else {
      var rest := Carry(list[1..], list[0].remain);
      SettleIds(rest);
      CarryIds(list[1..], list[0].remain);
      assert Ids(Settle(list)) == [list[0].id] + Ids(Settle(rest));
      assert Ids(list) == [list[0].id] + Ids(list[1..]);
    }
  }

  lemma {:induction false} InsertIds(list: seq<Node>, id: Id, seconds: real)
    ensures IdBag(InsertNode(list, id, seconds)) == IdBag(list) + multiset{id}
  {
    if list == [] {
      assert Ids([Node(id, seconds)]) == [id];
    } else {
      assert list == [list[0]] + list[1..];
      IdBagCons(list[0], list[1..]);
      if seconds < list[0].remain {
        var n := list[0].(remain := list[0].remain - seconds);
        assert InsertNode(list, id, seconds) == [Node(id, seconds)] + ([n] + list[1..]);
        IdBagCons(Node(id, seconds), [n] + list[1..]);
        IdBagCons(n, list[1..]);
      } else {
        InsertIds(list[1..], id, seconds - list[0].remain);
        IdBagCons(list[0], InsertNode(list[1..], id, seconds - list[0].remain));
      }
    }
  }

  lemma {:induction false} RemoveIds(list: seq<Node>, id: Id)
    ensures IdBag(Remove(list, id)) == IdBag(list) - multiset{id}
  {
    if list == [] {
    } else {
      assert list == [list[0]] + list[1..];
      IdBagCons(list[0], list[1..]);
      if list[0].id == id {
        CarryIds(list[1..], list[0].remain);
      } else {
        RemoveIds(list[1..], id);
        IdBagCons(list[0], Remove(list[1..], id));
      }
    }
  }

  lemma UpdateIds(list: seq<Node>, elapsed: real)
    ensures Ids(Update(list, elapsed)) == Ids(list)
  {
    CarryIds(list, -elapsed);
    SettleIds(Carry(list, -elapsed));
  }

  /** The tokens after a request has been served. */
  function Requested(bag: multiset<Id>, request: Option<Request>): multiset<Id> {
    match request
    case None => bag
    case Some(Start(id, _)) => if id in bag then bag else bag + multiset{id}
    case Some(Cancel(id)) => bag - multiset{id}
  }

  lemma ApplyIds(list: seq<Node>, request: Option<Request>)
    ensures IdBag(Apply(list, request)) == Requested(IdBag(list), request)
  {
    match request
    case None =>
    case Some(Start(id, seconds)) =>
      IdBagHas(list, id);
      InsertIds(list, id, seconds);
    case Some(Cancel(id)) =>
      RemoveIds(list, id);
  }

  lemma CallbackIds(l: seq<Node>, n: nat)
    requires n <= |l|
    ensures IdBag(l[n..]) + multiset(Ids(l[..n])) == IdBag(l)
  {
    assert Ids(l) == Ids(l[..n]) + Ids(l[n..]);
  }

  /** What a round of the timer does to the tokens: only a request changes their number. */
  lemma RoundIds(list: seq<Node>, elapsed: real, request: Option<Request>)
    ensures var (list', fired) := OneRound(list, elapsed, request);
            IdBag(list') + multiset(fired) == Requested(IdBag(list), request)
  {
    hide Update, Apply, Requested;
    var u := Update(list, elapsed);
    UpdateIds(list, elapsed);
    assert IdBag(u) == IdBag(list);
    ApplyIds(u, request);
    CallbackIds(Apply(u, request), Expired(Apply(u, request)));
  }

  /** No cancel request on its way can reach the token of this id: a start request follows it. */
  ghost predicate NoKill(requests: seq<Request>, id: Id) {
    forall j :: 0 <= j < |requests| && requests[j] == Cancel(id) ==>
      exists k :: j < k < |requests| && StartsId(requests[k], id)
  }

  ghost predicate StartsId(r: Request, id: Id) {
    r.Start? && r.id == id
  }

  lemma NoKillMore(requests: seq<Request>, more: seq<Request>, id: Id)
    requires NoKill(requests, id) && forall i :: 0 <= i < |more| ==> more[i] != Cancel(id)
    ensures NoKill(requests + more, id)
  {
    var all := requests + more;
    forall j | 0 <= j < |all| && all[j] == Cancel(id)
      ensures exists k :: j < k < |all| && StartsId(all[k], id)
    {
      var k :| j < k < |requests| && StartsId(requests[k], id);
      assert StartsId(all[k], id);
    }
  }

  lemma NoKillStart(requests: seq<Request>, more: seq<Request>, k: nat, id: Id)
    requires k < |more| && StartsId(more[k], id) && forall i :: 0 <= i < |more| ==> more[i].Start?
    ensures NoKill(requests + more, id)
  {
    var all := requests + more;
    assert StartsId(all[|requests| + k], id);
    forall j | 0 <= j < |all| && all[j] == Cancel(id)
      ensures exists k :: j < k < |all| && StartsId(all[k], id)
    {
      assert j < |requests|;
    }
  }

  lemma NoKillRest(requests: seq<Request>, id: Id)
    requires requests != [] && NoKill(requests, id)
    ensures NoKill(requests[1..], id)
  {
    var rest := requests[1..];
    forall j | 0 <= j < |rest| && rest[j] == Cancel(id)
      ensures exists k :: j < k < |rest| && StartsId(rest[k], id)
    {
      assert requests[j + 1] == Cancel(id);
      var k :| j + 1 < k < |requests| && StartsId(requests[k], id);
      assert StartsId(rest[k - 1], id);
    }
  }

  // ----- The invariant ---------------------------------------------------------------------------

  function TokenBag(s: System): multiset<Id> {
    StartBag(InTransit(s)) + IdBag(s.timer) + multiset(s.notices)
  }

  /** In flight: exactly one token, safe from cancels.  Pending: none. */
  ghost predicate SockTokens(s: Sock, requests: seq<Request>, bag: multiset<Id>) {
    && (forall p :: p in s.packages ==> bag[IdOf(p)] == 1 && NoKill(requests, IdOf(p)))
    && (forall p :: p in s.pending ==> bag[IdOf(p)] == 0)
  }

  ghost predicate Issued(s: Sock, id: Id) {
    s.session == id.session && 0 <= id.seqNum < s.base
  }

  ghost predicate IssuedBy(socks: map<int, Sock>, id: Id) {
    exists fd :: fd in socks && Issued(socks[fd], id)
  }

  ghost predicate AllTokens(socks: map<int, Sock>, requests: seq<Request>, bag: multiset<Id>) {
    && (forall id :: bag[id] <= 1)
    && (forall id :: id in bag ==> IssuedBy(socks, id))
    && (forall fd :: fd in socks ==> SockTokens(socks[fd], requests, bag))
  }

  ghost predicate TokensInv(s: System) {
    && s.consumed <= |s.client.toTimer|
    && AllTokens(s.client.socks, InTransit(s), TokenBag(s))
  }

  ghost predicate Keeps(s: Sock, p: Package) {
    p in s.packages || p in s.pending
  }

  /** What the session invariant says about a socket's own packages. */
  ghost predicate OwnPackages(s: Sock) {
    && (forall p :: Keeps(s, p) ==> p.session == s.session && p.seqNum < s.base && Buffered(s)[p] == 1)
    && (forall p, q :: Keeps(s, p) && Keeps(s, q) && p.seqNum == q.seqNum ==> p == q)
  }

  lemma SocksOwn(s: System, fd: int)
    requires Sessions(s) && fd in s.client.socks
    ensures OwnPackages(s.client.socks[fd])
  {
    assert SessionOk(fd, s.client.socks, s.client.toTroll, s.server, s.sent, s.split);
    var k := s.client.socks[fd];
    forall p | Keeps(k, p)
      ensures Carries(p, k.session, s.sent[fd]) && Buffered(k)[p] == 1
    {
      assert p in Buffered(k);
    }
  }

  /** Sockets stay, and sequence numbers only grow. */
  ghost predicate Grows(socks: map<int, Sock>, socks': map<int, Sock>) {
    forall f :: f in socks ==> f in socks' && socks'[f].session == socks[f].session && socks'[f].base >= socks[f].base
  }

  lemma StillIssued(socks: map<int, Sock>, socks': map<int, Sock>, id: Id)
    requires Grows(socks, socks') && IssuedBy(socks, id)
    ensures IssuedBy(socks', id)
  {
    var f :| f in socks && Issued(socks[f], id);
    assert Issued(socks'[f], id);
  }

  lemma TokensGrow(socks: map<int, Sock>, requests: seq<Request>, bag: multiset<Id>, socks': map<int, Sock>,
                   requests': seq<Request>, bag': multiset<Id>)
    requires AllTokens(socks, requests, bag) && Grows(socks, socks')
    requires forall id :: bag'[id] <= 1
    requires forall id :: id in bag' ==> id in bag || IssuedBy(socks', id)
    requires forall fd :: fd in socks' ==> SockTokens(socks'[fd], requests', bag')
    ensures AllTokens(socks', requests', bag')
  {
    forall id | id in bag'
      ensures IssuedBy(socks', id)
    {
      if id in bag {
        StillIssued(socks, socks', id);
      }
    }
  }

  /** A number not yet given out has no token. */
  lemma FreshIsFree(socks: map<int, Sock>, requests: seq<Request>, bag: multiset<Id>, fd: int)
    requires AllTokens(socks, requests, bag) && DistinctSocks(socks) && fd in socks
    ensures bag[Id(socks[fd].session, socks[fd].base)] == 0
  {}

  lemma SendTokens(s: System, fd: int, body: Payload)
    requires Sessions(s) && TokensInv(s) && Enabled(s, SendStep(fd, body))
    ensures TokensInv(After(s, SendStep(fd, body)))
  {
    hide Sessions, TokenBag, NoKill, InTransit;
    var bag, requests := TokenBag(s), InTransit(s);
    var s' := After(s, SendStep(fd, body));
    var socks, socks' := s.client.socks, s'.client.socks;
    SessionsParts(s);
    FreshIsFree(socks, requests, bag, fd);
    SameTransit(s, s');
    SendSock(socks[fd], body, requests, bag);
    TokensGrow(socks, requests, bag, socks', requests, bag);
  }

  lemma SendSock(s: Sock, body: Payload, requests: seq<Request>, bag: multiset<Id>)
    requires SockTokens(s, requests, bag) && bag[Id(s.session, s.base)] == 0
    ensures SockTokens(Accept(s, body), requests, bag)
  {
    hide NoKill;
  }

  lemma SameTransit(s: System, s': System)
    requires s'.client.toTimer == s.client.toTimer && s'.consumed == s.consumed
    requires s'.timer == s.timer && s'.notices == s.notices
    ensures InTransit(s') == InTransit(s) && TokenBag(s') == TokenBag(s)
  {}

  lemma MoreTransit(s: System, s': System, more: seq<Request>)
    requires s.consumed <= |s.client.toTimer|
    requires s'.client.toTimer == s.client.toTimer + more && s'.consumed == s.consumed
    requires s'.timer == s.timer && s'.notices == s.notices
    ensures InTransit(s') == InTransit(s) + more
    ensures TokenBag(s') == TokenBag(s) + StartBag(more)
  {
    assert (s.client.toTimer + more)[s.consumed..] == s.client.toTimer[s.consumed..] + more;
    StartBagConcat(InTransit(s), more);
  }

  lemma CancelBag(id: Id)
    ensures StartBag([Cancel(id)]) == multiset{}
  {
    assert [Cancel(id)][..0] == [];
  }

  lemma AllOwn(s: System)
    requires Sessions(s)
    ensures DistinctSocks(s.client.socks) && forall f :: f in s.client.socks ==> OwnPackages(s.client.socks[f])
  {
    hide OwnPackages;
    forall f | f in s.client.socks
      ensures OwnPackages(s.client.socks[f])
    {
      SocksOwn(s, f);
    }
  }

  lemma AckTokens(s: System, fd: int, datagram: Datagram, sample: real)
    requires Sessions(s) && TokensInv(s) && Enabled(s, AckStep(fd, datagram, sample))
    ensures TokensInv(After(s, AckStep(fd, datagram, sample)))
  {
    hide OpenAck, Sample, Sessions, AllTokens, TokenBag, InTransit, OwnPackages, Acknowledge, DistinctSocks;
    var s' := After(s, AckStep(fd, datagram, sample));
    if OpenAck(datagram) == None {
      SameTransit(s, s');
    } else {
      var a := OpenAck(datagram).value;
      MoreTransit(s, s', [Cancel(Id(a.session, a.seqNum))]);
      CancelBag(Id(a.session, a.seqNum));
      AllOwn(s);
      AckSocks(s, fd, a, s'.client.socks);
      assert TokenBag(s') == TokenBag(s);
    }
  }

  lemma AckSocks(s: System, fd: int, a: Ack, socks': map<int, Sock>)
    requires TokensInv(s) && fd in s.client.socks && a.session == s.client.socks[fd].session
    requires DistinctSocks(s.client.socks) && forall f :: f in s.client.socks ==> OwnPackages(s.client.socks[f])
    requires socks' == s.client.socks[fd := Acknowledge(s.client.socks[fd], a)]
    ensures AllTokens(socks', InTransit(s) + [Cancel(Id(a.session, a.seqNum))], TokenBag(s))
  {
    hide Position, NoKill, InTransit, TokenBag;
    var socks, requests, bag := s.client.socks, InTransit(s), TokenBag(s);
    var more := [Cancel(Id(a.session, a.seqNum))];
    forall f | f in socks'
      ensures SockTokens(socks'[f], requests + more, bag)
    {
      assert SockTokens(socks[f], requests, bag);
      forall p | p in socks'[f].packages
        ensures bag[IdOf(p)] == 1 && NoKill(requests + more, IdOf(p))
      {
        if f == fd {
          AcknowledgedIsGone(socks[f], a, p);
        } else {
          assert Keeps(socks[f], p);
        }
        NoKillMore(requests, more, IdOf(p));
      }
    }
    TokensGrow(socks, requests, bag, socks', requests + more, bag);
  }

  /** After an acknowledgement no package with its number is in flight. */
  lemma AcknowledgedIsGone(s: Sock, a: Ack, p: Package)
    requires OwnPackages(s) && p in Acknowledge(s, a).packages
    ensures p in s.packages && (a.session == s.session ==> p.seqNum != a.seqNum)
  {
    var list := s.packages;
    var i := Position(list, a.session, a.seqNum);
    var k :| 0 <= k < |Without(list, i)| && Without(list, i)[k] == p;
    var j := if i < |list| && k >= i then k + 1 else k;
    assert list[j] == p;
    assert Keeps(s, p);
    if p.seqNum == a.seqNum && a.session == s.session {
      assert i < |list| && i != j;
      assert Keeps(s, list[i]);
      TwicePresent(list, i, j);
    }
  }

  lemma TwicePresent(list: seq<Package>, i: nat, j: nat)
    requires i < |list| && j < |list| && i != j && list[i] == list[j]
    ensures multiset(list)[list[i]] >= 2
  {
    var a, b := if i < j then i else j, if i < j then j else i;
    assert list == list[..a] + [list[a]] + list[a + 1..b] + [list[b]] + list[b + 1..];
  }

  /** An expiry notice uses up its token and makes the package pending. */
  lemma NoticeTokens(s: System)
    requires Sessions(s) && TokensInv(s) && Enabled(s, NoticeStep)
    ensures TokensInv(After(s, NoticeStep))
  {
    var s' := After(s, NoticeStep);
    var id := s.notices[0];
    NoticeBag(s, s');
    AllOwn(s);
    hide Sessions, TokenBag, InTransit, Expire, OwnPackages, SockTokens;
    var socks, socks' := s.client.socks, s'.client.socks;
    var requests, bag := InTransit(s), TokenBag(s);
    forall f | f in socks'
      ensures SockTokens(socks'[f], requests, bag - multiset{id})
      ensures socks'[f].session == socks[f].session && socks'[f].base == socks[f].base
    {
      ExpireNames(socks[f], id);
      assert SockTokens(socks[f], requests, bag);
      if socks[f].session == id.session {
        ExpiredSock(socks[f], id, requests, bag);
      } else {
        OtherSock(socks[f], id, requests, bag);
      }
    }
    TokensGrow(socks, requests, bag, socks', requests, bag - multiset{id});
  }

  lemma NoticeBag(s: System, s': System)
    requires s.notices != [] && s'.notices == s.notices[1..] && s'.timer == s.timer
    requires s'.client.toTimer == s.client.toTimer && s'.consumed == s.consumed
    ensures InTransit(s') == InTransit(s)
    ensures TokenBag(s') == TokenBag(s) - multiset{s.notices[0]} && s.notices[0] in TokenBag(s)
  {
    hide IdBag, StartBag;
    assert s.notices == [s.notices[0]] + s.notices[1..];
  }

  lemma OtherSock(s: Sock, id: Id, requests: seq<Request>, bag: multiset<Id>)
    requires OwnPackages(s) && SockTokens(s, requests, bag) && s.session != id.session
    ensures SockTokens(s, requests, bag - multiset{id})
  {
    hide NoKill;
    forall p | p in s.packages || p in s.pending
      ensures IdOf(p) != id
    {
      assert Keeps(s, p);
    }
  }

  lemma ExpiredSock(s: Sock, id: Id, requests: seq<Request>, bag: multiset<Id>)
    requires OwnPackages(s) && SockTokens(s, requests, bag) && s.session == id.session && bag[id] == 1
    ensures SockTokens(Expire(s, id), requests, bag - multiset{id})
  {
    hide NoKill;
    var s' := Expire(s, id);
    var i := Position(s.packages, id.session, id.seqNum);
    forall p | p in s'.packages
      ensures p in s.packages && IdOf(p) != id
    {
      ExpiredIsGone(s, id, p);
    }
    if i < |s.packages| {
      assert IdOf(s.packages[i]) == id;
    }
  }

  lemma ExpiredIsGone(s: Sock, id: Id, p: Package)
    requires OwnPackages(s) && p in Expire(s, id).packages
    ensures p in s.packages && IdOf(p) != id
  {
    if 0 <= id.session && 0 <= id.seqNum {
      AcknowledgedIsGone(s, Ack(id.session, id.seqNum), p);
      assert Keeps(s, p);
    } else {
      assert Position(s.packages, id.session, id.seqNum) == |s.packages|;
    }
  }

  function SentIds(sent: seq<Package>): multiset<Id> {
    if sent == [] then multiset{} else multiset{IdOf(sent[0])} + SentIds(sent[1..])
  }

  lemma {:induction false} StartsBag(sent: seq<Package>, e: Estimator)
    ensures StartBag(Starts(sent, e)) == SentIds(sent)
    decreases |sent|
  {
    if sent == [] {
    } else {
      hide AfterSend, Rto;
      StartsBag(sent[1..], AfterSend(e));
      StartBagFirst(Start(IdOf(sent[0]), Rto(e)), Starts(sent[1..], AfterSend(e)));
    }
  }

  lemma {:induction false} StartsList(sent: seq<Package>, e: Estimator)
    ensures |Starts(sent, e)| == |sent|
    ensures forall i :: 0 <= i < |sent| ==> StartsId(Starts(sent, e)[i], IdOf(sent[i]))
    decreases |sent|
  {
    if sent == [] {
    } else {
      hide AfterSend, Rto;
      StartsList(sent[1..], AfterSend(e));
    }
  }

  lemma {:induction false} SentIdsCount(sent: seq<Package>, id: Id)
    ensures id in SentIds(sent) ==> exists p :: p in sent && IdOf(p) == id
    ensures forall p :: p in sent && IdOf(p) == id && (forall q :: q in sent && IdOf(q) == id ==> q == p) ==>
      SentIds(sent)[id] == multiset(sent)[p]
  {
    if sent == [] {
    } else {
      assert sent == [sent[0]] + sent[1..];
      SentIdsCount(sent[1..], id);
      forall p | p in sent && IdOf(p) == id && (forall q :: q in sent && IdOf(q) == id ==> q == p)
        ensures SentIds(sent)[id] == multiset(sent)[p]
      {
        if p !in sent[1..] {
          assert id !in SentIds(sent[1..]);
          assert p == sent[0];
        }
      }
    }
  }

  /** What a flush sends has had no token, and gets one. */
  lemma SentOnce(s: Sock)
    requires OwnPackages(s)
    ensures forall p :: p in ToSend(s) ==> p in s.pending && SentIds(ToSend(s))[IdOf(p)] == 1
    ensures forall id :: id in SentIds(ToSend(s)) ==> exists p :: p in ToSend(s) && IdOf(p) == id
    ensures forall p :: p in AtLeast(s.pending, Limit(s)) ==> p in s.pending && IdOf(p) !in SentIds(ToSend(s))
  {
    var sent := ToSend(s);
    Partition(s.pending, Limit(s));
    forall p | p in sent
      ensures p in s.pending && SentIds(sent)[IdOf(p)] == 1
    {
      SentOnceAt(s, p);
    }
    forall id | id in SentIds(sent)
      ensures exists p :: p in sent && IdOf(p) == id
    {
      SentIdsCount(sent, id);
    }
    forall p | p in AtLeast(s.pending, Limit(s))
      ensures p in s.pending && IdOf(p) !in SentIds(sent)
    {
      BelowMembers(s.pending, Limit(s), p);
      forall q | q in sent
        ensures IdOf(q) != IdOf(p)
      {
        BelowMembers(s.pending, Limit(s), q);
      }
      SentIdsCount(sent, IdOf(p));
    }
  }

  lemma SentOnceAt(s: Sock, p: Package)
    requires OwnPackages(s) && p in ToSend(s)
    ensures p in s.pending && SentIds(ToSend(s))[IdOf(p)] == 1
  {
    var sent := ToSend(s);
    Partition(s.pending, Limit(s));
    BelowMembers(s.pending, Limit(s), p);
    assert Keeps(s, p);
    forall q | q in sent && IdOf(q) == IdOf(p)
      ensures q == p
    {
      BelowMembers(s.pending, Limit(s), q);
      assert Keeps(s, q);
    }
    SentIdsCount(sent, IdOf(p));
    assert multiset(sent)[p] <= Buffered(s)[p];
  }

  lemma FlushOneTokens(s: System, fd: int)
    requires Sessions(s) && TokensInv(s) && fd in s.client.socks
    ensures TokensInv(FlushOne(s, fd))
  {
    var s' := FlushOne(s, fd);
    var socks, socks' := s.client.socks, s'.client.socks;
    var sent, more := ToSend(socks[fd]), Starts(ToSend(socks[fd]), s.client.estimator);
    MoreTransit(s, s', more);
    StartsBag(sent, s.client.estimator);
    AllOwn(s);
    hide Sessions, TokenBag, InTransit, OwnPackages, SockTokens, Starts, ToSend, AfterSends;
    var requests, bag := InTransit(s), TokenBag(s);
    var bag' := bag + SentIds(sent);
    SentTokens(socks, requests, bag, fd);
    forall f | f in socks'
      ensures SockTokens(socks'[f], requests + more, bag')
      ensures socks'[f].session == socks[f].session && socks'[f].base == socks[f].base
    {
      assert SockTokens(socks[f], requests, bag);
      if f == fd {
        FlushedSock(socks[f], s.client.estimator, requests, bag);
      } else {
        UnflushedSock(socks[f], socks[fd], s.client.estimator, requests, bag);
      }
    }
    TokensGrow(socks, requests, bag, socks', requests + more, bag');
  }

  lemma SentTokens(socks: map<int, Sock>, requests: seq<Request>, bag: multiset<Id>, fd: int)
    requires AllTokens(socks, requests, bag) && fd in socks && OwnPackages(socks[fd])
    ensures forall id :: (bag + SentIds(ToSend(socks[fd])))[id] <= 1
    ensures forall id :: id in SentIds(ToSend(socks[fd])) ==> Issued(socks[fd], id)
  {
    hide ToSend, NoKill, OwnPackages;
    SentOnce(socks[fd]);
    assert SockTokens(socks[fd], requests, bag);
    forall id | id in SentIds(ToSend(socks[fd]))
      ensures bag[id] == 0 && SentIds(ToSend(socks[fd]))[id] == 1 && Issued(socks[fd], id)
    {
      var p :| p in ToSend(socks[fd]) && IdOf(p) == id;
      OwnKeeps(socks[fd], p);
    }
  }

  lemma OwnKeeps(s: Sock, p: Package)
    requires OwnPackages(s) && Keeps(s, p)
    ensures Issued(s, IdOf(p))
  {}

  lemma FlushedSafe(s: Sock, e: Estimator, requests: seq<Request>, bag: multiset<Id>, p: Package)
    requires SockTokens(s, requests, bag) && (p in s.packages || p in ToSend(s))
    ensures NoKill(requests + Starts(ToSend(s), e), IdOf(p))
  {
    var sent, more := ToSend(s), Starts(ToSend(s), e);
    StartsList(sent, e);
    hide ToSend, NoKill, Starts, Limit;
    if p in s.packages {
      NoKillMore(requests, more, IdOf(p));
    } else {
      var k :| 0 <= k < |sent| && sent[k] == p;
      NoKillStart(requests, more, k, IdOf(p));
    }
  }

  lemma FlushedOnce(s: Sock, requests: seq<Request>, bag: multiset<Id>, p: Package)
    requires OwnPackages(s) && SockTokens(s, requests, bag) && (p in s.packages || p in ToSend(s))
    ensures (bag + SentIds(ToSend(s)))[IdOf(p)] == 1
  {
    hide ToSend, NoKill, Limit, OwnPackages;
    SentOnce(s);
  }

  lemma FlushedSock(s: Sock, e: Estimator, requests: seq<Request>, bag: multiset<Id>)
    requires OwnPackages(s) && SockTokens(s, requests, bag)
    ensures SockTokens(Flush(s), requests + Starts(ToSend(s), e), bag + SentIds(ToSend(s)))
  {
    SentOnce(s);
    hide ToSend, NoKill, Starts, Limit, OwnPackages;
    forall p | p in Flush(s).packages
      ensures NoKill(requests + Starts(ToSend(s), e), IdOf(p))
      ensures (bag + SentIds(ToSend(s)))[IdOf(p)] == 1
    {
      FlushedSafe(s, e, requests, bag, p);
      FlushedOnce(s, requests, bag, p);
    }
  }

  lemma UnflushedSock(s: Sock, t: Sock, e: Estimator, requests: seq<Request>, bag: multiset<Id>)
    requires OwnPackages(s) && OwnPackages(t) && s.session != t.session && SockTokens(s, requests, bag)
    ensures SockTokens(s, requests + Starts(ToSend(t), e), bag + SentIds(ToSend(t)))
  {
    hide ToSend, NoKill, Starts, Limit, Buffered;
    var sent, more := ToSend(t), Starts(ToSend(t), e);
    SentOnce(t);
    StartsList(sent, e);
    forall q | q in sent
      ensures q.session == t.session
    {
      assert Keeps(t, q);
    }
    forall p | p in s.packages || p in s.pending
      ensures p.session == s.session
    {
      assert Keeps(s, p);
    }
    forall p | p in s.packages
      ensures NoKill(requests + more, IdOf(p))
    {
      NoKillMore(requests, more, IdOf(p));
    }
  }

  lemma {:induction false} FlushTokens(s: System, order: seq<int>)
    requires Sessions(s) && TokensInv(s) && forall i :: 0 <= i < |order| ==> order[i] in s.client.socks
    ensures TokensInv(FlushSome(s, order))
  {
    hide Sessions, TokensInv, FlushAt, FlushOne;
    if order == [] {
    } else {
      var n := |order| - 1;
      FlushSessions(s, order[..n]);
      FlushTokens(s, order[..n]);
      assert FlushSome(s, order[..n]).client.socks.Keys == s.client.socks.Keys;
      FlushOneTokens(FlushSome(s, order[..n]), order[n]);
    }
  }

  // ----- The timer's turn ------------------------------------------------------------------------

  /** Reading a request moves its token along, or takes the token a cancel finds. */
  function Read(bag: multiset<Id>, list: seq<Node>, requests: seq<Request>): multiset<Id> {
    if requests == [] then
      bag
    else
      match requests[0]
      case Start(id, _) => if Has(list, id) then bag - multiset{id} else bag
      case Cancel(id) => if Has(list, id) then bag - multiset{id} else bag
  }

  lemma ReadBag(r: Request, rest: multiset<Id>, list: seq<Node>, notices: multiset<Id>)
    ensures rest + Requested(IdBag(list), Some(r)) + notices
         == Read((match r case Start(id, _) => multiset{id} case Cancel(_) => multiset{})
                 + rest + IdBag(list) + notices, list, [r])
  {
    IdBagHas(list, r.id);
  }

  lemma Shuffle(a: multiset<Id>, b: multiset<Id>, c: multiset<Id>, d: multiset<Id>)
    ensures a + b + (c + d) == a + (b + d) + c
  {}

  lemma NoticesBag(notices: seq<Id>, fired: seq<Id>)
    ensures multiset(notices + fired) == multiset(notices) + multiset(fired)
  {}

  lemma FirstReadBag(bag: multiset<Id>, list: seq<Node>, requests: seq<Request>)
    requires requests != []
    ensures Read(bag, list, [requests[0]]) == Read(bag, list, requests)
  {}

  lemma RoundTokens(requests: seq<Request>, list: seq<Node>, notices: seq<Id>, elapsed: real, take: bool)
    requires take ==> requests != []
    ensures var (list', fired) := OneRound(list, elapsed, if take then Some(requests[0]) else None);
            var rest := if take then requests[1..] else requests;
            var bag := StartBag(requests) + IdBag(list) + multiset(notices);
            StartBag(rest) + IdBag(list') + multiset(notices + fired) == if take then Read(bag, list, requests) else bag
  {
    hide OneRound, IdBag, StartBag, Read;
    var request := if take then Some(requests[0]) else None;
    var rest := if take then requests[1..] else requests;
    RoundIds(list, elapsed, request);
    var (list', fired) := OneRound(list, elapsed, request);
    NoticesBag(notices, fired);
    Shuffle(StartBag(rest), IdBag(list'), multiset(notices), multiset(fired));
    assert StartBag(rest) + IdBag(list') + multiset(notices + fired)
        == StartBag(rest) + Requested(IdBag(list), request) + multiset(notices);
    if take {
      assert requests == [requests[0]] + requests[1..];
      StartBagFirst(requests[0], rest);
      hide Requested;
      ReadBag(requests[0], StartBag(rest), list, multiset(notices));
      FirstReadBag(StartBag(requests) + IdBag(list) + multiset(notices), list, requests);
    }
  }

  /** The request that is read takes no live token away. */
  lemma ReadKeeps(bag: multiset<Id>, requests: seq<Request>, list: seq<Node>, notices: seq<Id>, id: Id)
    requires bag == StartBag(requests) + IdBag(list) + multiset(notices)
    requires forall i :: bag[i] <= 1
    requires requests != [] && NoKill(requests, id) && bag[id] == 1
    ensures Read(bag, list, requests)[id] == 1
  {
    if requests[0].id == id && Has(list, id) {
      IdBagHas(list, id);
      if requests[0].Start? {
        StartBagHas(requests, 0, id);
      } else {
        assert requests[0] == Cancel(id);
        var k :| 0 < k < |requests| && StartsId(requests[k], id);
        StartBagHas(requests, k, id);
      }
    }
  }

  lemma TimerParts(s: System, elapsed: real, take: bool)
    requires TokensInv(s) && Enabled(s, TimerStep(elapsed, take))
    ensures var s' := After(s, TimerStep(elapsed, take));
            && s'.client == s.client
            && s'.consumed <= |s'.client.toTimer|
            && InTransit(s') == (if take then InTransit(s)[1..] else InTransit(s))
            && TokenBag(s') == if take then Read(TokenBag(s), s.timer, InTransit(s)) else TokenBag(s)
  {
    hide OneRound, IdBag, StartBag, Read, AllTokens;
    RoundTokens(InTransit(s), s.timer, s.notices, elapsed, take);
  }

  lemma SockRead(s: Sock, requests: seq<Request>, bag: multiset<Id>, requests': seq<Request>, bag': multiset<Id>)
    requires SockTokens(s, requests, bag) && bag' <= bag
    requires forall id :: bag[id] == 1 && NoKill(requests, id) ==> bag'[id] == 1 && NoKill(requests', id)
    ensures SockTokens(s, requests', bag')
  {}

  lemma TransitRead(s: System)
    ensures TokenBag(s) == StartBag(InTransit(s)) + IdBag(s.timer) + multiset(s.notices)
  {}

  lemma ReadSocks(s: System)
    requires TokensInv(s) && InTransit(s) != []
    ensures AllTokens(s.client.socks, InTransit(s)[1..], Read(TokenBag(s), s.timer, InTransit(s)))
  {
    hide NoKill, InTransit, TokenBag, Read, StartBag, IdBag, SockTokens;
    var requests, bag := InTransit(s), TokenBag(s);
    TransitRead(s);
    forall id | bag[id] == 1 && NoKill(requests, id)
      ensures Read(bag, s.timer, requests)[id] == 1 && NoKill(requests[1..], id)
    {
      ReadKeeps(bag, requests, s.timer, s.notices, id);
      NoKillRest(requests, id);
    }
    ReadLess(bag, s.timer, requests);
    forall f | f in s.client.socks
      ensures SockTokens(s.client.socks[f], requests[1..], Read(bag, s.timer, requests))
    {
      SockRead(s.client.socks[f], requests, bag, requests[1..], Read(bag, s.timer, requests));
    }
    TokensGrow(s.client.socks, requests, bag, s.client.socks, requests[1..], Read(bag, s.timer, requests));
  }

  lemma TimerTokens(s: System, elapsed: real, take: bool)
    requires TokensInv(s) && Enabled(s, TimerStep(elapsed, take))
    ensures TokensInv(After(s, TimerStep(elapsed, take)))
  {
    hide After, TokenBag, InTransit, AllTokens, Read;
    TimerParts(s, elapsed, take);
    if take {
      ReadSocks(s);
    }
  }

  lemma ReadLess(bag: multiset<Id>, list: seq<Node>, requests: seq<Request>)
    ensures Read(bag, list, requests) <= bag
  {}

  lemma ConnectTokens(s: System, fd: int, name: nat, to: int)
    requires TokensInv(s) && Enabled(s, ConnectStep(fd, name, to))
    ensures TokensInv(After(s, ConnectStep(fd, name, to)))
  {
    hide TokenBag, NoKill, InTransit;
    var s' := After(s, ConnectStep(fd, name, to));
    SameTransit(s, s');
    forall f | f in s'.client.socks
      ensures SockTokens(s'.client.socks[f], InTransit(s), TokenBag(s))
    {
      if f != fd {
        assert SockTokens(s.client.socks[f], InTransit(s), TokenBag(s));
      }
    }
    TokensGrow(s.client.socks, InTransit(s), TokenBag(s), s'.client.socks, InTransit(s), TokenBag(s));
  }

  /** Every step keeps every live token live. */
  lemma StepTokens(s: System, step: Step)
    requires Sessions(s) && TokensInv(s) && Enabled(s, step)
    ensures TokensInv(After(s, step))
  {
    hide Sessions, AllTokens, TokenBag, InTransit;
    match step
    case ConnectStep(fd, name, to) => ConnectTokens(s, fd, name, to);
    case SendStep(fd, body) => SendTokens(s, fd, body);
    case AckStep(fd, datagram, sample) => AckTokens(s, fd, datagram, sample);
    case NoticeStep => NoticeTokens(s);
    case FlushStep(order) => FlushTokens(s, order);
    case TimerStep(elapsed, take) => TimerTokens(s, elapsed, take);
    case BindStep(fd) => SameTransit(s, After(s, step));
    case DataStep(fd, datagram) => SameTransit(s, After(s, step));
    case AcceptCallStep(k) => SameTransit(s, After(s, step));
    case AcceptStep => SameTransit(s, After(s, step));
    case RecvStep(session, length) => SameTransit(s, After(s, step));
    case DrainStep => SameTransit(s, After(s, step));
  }
}
