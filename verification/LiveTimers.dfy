/** No timer runs for nothing: each is that of a package in flight, or about to be cancelled. */
module LiveTimers {
  import opened Options
  import opened Wire
  import opened TimerList
  import opened Sender
  import opened Protocol
  import opened Tokens
  import opened Reliability
  import opened Progress

  ghost predicate InAir(k: Sock, id: Id) {
    exists p :: p in k.packages && IdOf(p) == id
  }

  /** A package with this id is in flight. */
  ghost predicate Flying(socks: map<int, Sock>, id: Id) {
    exists fd :: fd in socks && InAir(socks[fd], id)
  }

  /** A request to cancel it comes at place j or later. */
  ghost predicate CancelFrom(requests: seq<Request>, j: int, id: Id) {
    exists k :: 0 <= j <= k < |requests| && requests[k] == Cancel(id)
  }

  ghost predicate Live(socks: map<int, Sock>, requests: seq<Request>, j: int, id: Id) {
    Flying(socks, id) || CancelFrom(requests, j, id)
  }

  /** Every timer in the list, and every one that is still to be started. */
  ghost predicate AllLive(socks: map<int, Sock>, requests: seq<Request>, list: seq<Node>) {
    && (forall id :: Has(list, id) ==> Live(socks, requests, 0, id))
    && forall j :: 0 <= j < |requests| && requests[j].Start? ==> Live(socks, requests, j, requests[j].id)
  }

  // ----- What the sending daemon does ---------------------------------------------------------------

  /** More requests, and nothing lands but what they cancel. */
  lemma MoreRequests(socks: map<int, Sock>, socks': map<int, Sock>, requests: seq<Request>, more: seq<Request>,
                     list: seq<Node>)
    requires AllLive(socks, requests, list)
    requires forall id :: Flying(socks, id) ==> Flying(socks', id) || CancelFrom(more, 0, id)
    requires forall j :: 0 <= j < |more| && more[j].Start? ==> Flying(socks', more[j].id)
    ensures AllLive(socks', requests + more, list)
  {
    hide Flying;
    var all := requests + more;
    forall id, j | 0 <= j <= |requests| && Live(socks, requests, j, id)
      ensures Live(socks', all, j, id)
    {
      if CancelFrom(requests, j, id) {
        var k :| j <= k < |requests| && requests[k] == Cancel(id);
        assert all[k] == requests[k];
      } else if CancelFrom(more, 0, id) {
        var k :| 0 <= k < |more| && more[k] == Cancel(id);
        assert all[|requests| + k] == more[k];
      }
    }
    forall j | 0 <= j < |all| && all[j].Start?
      ensures Live(socks', all, j, all[j].id)
    {
      if j < |requests| {
        assert Live(socks, requests, j, requests[j].id);
      } else {
        assert all[j] == more[j - |requests|];
      }
    }
  }

  /** All but this one stay in the air. */
  lemma OthersFly(packages: seq<Package>, i: nat, p: Package)
    requires i < |packages| && p in packages && p != packages[i]
    ensures p in Without(packages, i)
  {
    var j :| 0 <= j < |packages| && packages[j] == p;
    assert Without(packages, i)[if j < i then j else j - 1] == p;
  }

  lemma AckLands(k: Sock, a: Ack, id: Id)
    requires InAir(k, id) && id != Id(a.session, a.seqNum)
    ensures InAir(Acknowledge(k, a), id)
  {
    var p :| p in k.packages && IdOf(p) == id;
    var i := Position(k.packages, a.session, a.seqNum);
    if i < |k.packages| {
      OthersFly(k.packages, i, p);
    }
  }

  lemma ExpireLands(k: Sock, i: Id, id: Id)
    requires InAir(k, id) && id != i
    ensures InAir(Expire(k, i), id)
  {
    var p :| p in k.packages && IdOf(p) == id;
    var n := Position(k.packages, i.session, i.seqNum);
    if n < |k.packages| {
      OthersFly(k.packages, n, p);
    }
  }

  lemma AckLive(s: System, fd: int, a: Ack, requests: seq<Request>, list: seq<Node>)
    requires fd in s.client.socks && AllLive(s.client.socks, requests, list)
    ensures var socks := s.client.socks[fd := Acknowledge(s.client.socks[fd], a)];
            AllLive(socks, requests + [Cancel(Id(a.session, a.seqNum))], list)
  {
    hide InAir, Acknowledge, AllLive;
    var socks, more := s.client.socks[fd := Acknowledge(s.client.socks[fd], a)], [Cancel(Id(a.session, a.seqNum))];
    forall id | Flying(s.client.socks, id)
      ensures Flying(socks, id) || CancelFrom(more, 0, id)
    {
      if id == Id(a.session, a.seqNum) {
        assert more[0] == Cancel(id);
      } else {
        var f :| f in s.client.socks && InAir(s.client.socks[f], id);
        if f == fd {
          AckLands(s.client.socks[fd], a, id);
        }
        assert InAir(socks[f], id);
      }
    }
    MoreRequests(s.client.socks, socks, requests, more, list);
  }

  lemma FlushLive(c: Client, fd: int, requests: seq<Request>, list: seq<Node>)
    requires fd in c.socks && AllLive(c.socks, requests, list)
    ensures AllLive(FlushAt(c, fd).socks, requests + Starts(ToSend(c.socks[fd]), c.estimator), list)
  {
    hide AllLive, ToSend, Starts, AfterSends, Live, CancelFrom;
    var sent, socks := ToSend(c.socks[fd]), FlushAt(c, fd).socks;
    StartsOnly(sent, c.estimator);
    forall id | Flying(c.socks, id)
      ensures Flying(socks, id)
    {
      var f :| f in c.socks && InAir(c.socks[f], id);
      assert InAir(socks[f], id);
    }
    forall p | p in sent
      ensures Flying(socks, IdOf(p))
    {
      assert p in socks[fd].packages;
      assert InAir(socks[fd], IdOf(p));
    }
    MoreRequests(c.socks, socks, requests, Starts(sent, c.estimator), list);
  }

  lemma {:induction false} StartsOnly(sent: seq<Package>, e: Estimator)
    ensures |Starts(sent, e)| == |sent|
    ensures forall j :: 0 <= j < |sent| ==> Starts(sent, e)[j].Start? && Starts(sent, e)[j].id == IdOf(sent[j])
    decreases |sent|
  {
    hide Rto, AfterSend;
    if sent == [] {
    } else {
      StartsOnly(sent[1..], AfterSend(e));
    }
  }

  lemma {:induction false} FlushesLive(c: Client, order: seq<int>, consumed: nat, list: seq<Node>)
    requires forall i :: 0 <= i < |order| ==> order[i] in c.socks
    requires consumed <= |c.toTimer| && AllLive(c.socks, c.toTimer[consumed..], list)
    ensures var c' := FlushInOrder(c, order);
            consumed <= |c'.toTimer| && AllLive(c'.socks, c'.toTimer[consumed..], list)
  {
    hide AllLive, ToSend, Starts, AfterSends, Flush;
    if order == [] {
    } else {
      var n := |order| - 1;
      FlushesLive(c, order[..n], consumed, list);
      var d := FlushInOrder(c, order[..n]);
      var more := Starts(ToSend(d.socks[order[n]]), d.estimator);
      FlushLive(d, order[n], d.toTimer[consumed..], list);
      assert (d.toTimer + more)[consumed..] == d.toTimer[consumed..] + more;
    }
  }

  // ----- What the timer does --------------------------------------------------------------------------

  /** The first request has been read. */
  lemma RestLive(socks: map<int, Sock>, requests: seq<Request>, j: nat, id: Id)
    requires requests != [] && Live(socks, requests, j, id) && (j == 0 ==> requests[0] != Cancel(id))
    ensures Live(socks, requests[1..], if j == 0 then 0 else j - 1, id)
  {
    hide Flying;
    if CancelFrom(requests, j, id) {
      var k :| j <= k < |requests| && requests[k] == Cancel(id);
      assert requests[1..][k - 1] == Cancel(id);
    }
  }

  lemma ListAfterRound(list: seq<Node>, elapsed: real, request: Option<Request>, id: Id)
    requires Has(OneRound(list, elapsed, request).0, id)
    ensures id in Requested(IdBag(list), request)
  {
    hide OneRound, Requested;
    RoundIds(list, elapsed, request);
    IdBagHas(OneRound(list, elapsed, request).0, id);
  }

  /** A timer that runs after a request has run before and was not cancelled, or has been started. */
  lemma WhoRuns(list: seq<Node>, elapsed: real, r: Request, id: Id)
    requires Has(OneRound(list, elapsed, Some(r)).0, id) && IdBag(list)[id] <= 1
    ensures (Has(list, id) && r != Cancel(id)) || (r.Start? && r.id == id)
  {
    hide OneRound;
    ListAfterRound(list, elapsed, Some(r), id);
    IdBagHas(list, id);
    hide Has, IdBag;
  }

  lemma AtMostOnce(s: System, id: Id)
    requires Inv(s)
    ensures IdBag(s.timer)[id] <= 1
  {
    InvTokens(s);
    hide Inv;
    assert TokenBag(s)[id] <= 1;
  }

  lemma TakenLive(s: System, elapsed: real)
    requires Inv(s) && InTransit(s) != [] && AllLive(s.client.socks, InTransit(s), s.timer)
    ensures var requests := InTransit(s);
            AllLive(s.client.socks, requests[1..], OneRound(s.timer, elapsed, Some(requests[0])).0)
  {
    hide Inv, Live, OneRound, InTransit, Has, IdBag;
    var requests, socks := InTransit(s), s.client.socks;
    var list := OneRound(s.timer, elapsed, Some(requests[0])).0;
    forall id | Has(list, id)
      ensures Live(socks, requests[1..], 0, id)
    {
      AtMostOnce(s, id);
      WhoRuns(s.timer, elapsed, requests[0], id);
      RestLive(socks, requests, 0, id);
    }
    forall j | 0 <= j < |requests| - 1 && requests[1..][j].Start?
      ensures Live(socks, requests[1..], j, requests[1..][j].id)
    {
      assert requests[1..][j] == requests[j + 1];
      RestLive(socks, requests, j + 1, requests[j + 1].id);
    }
  }

  lemma UntakenLive(s: System, elapsed: real)
    requires AllLive(s.client.socks, InTransit(s), s.timer)
    ensures AllLive(s.client.socks, InTransit(s), OneRound(s.timer, elapsed, None).0)
  {
    hide Live, OneRound, InTransit;
    forall id | Has(OneRound(s.timer, elapsed, None).0, id)
      ensures Has(s.timer, id)
    {
      ListAfterRound(s.timer, elapsed, None, id);
      IdBagHas(s.timer, id);
    }
  }

  /** The timer of a package whose notice is read is neither running nor to be started. */
  lemma NoticeLive(s: System)
    requires Inv(s) && s.notices != [] && AllLive(s.client.socks, InTransit(s), s.timer)
    ensures AllLive(ExpireAt(s.client, s.notices[0]).socks, InTransit(s), s.timer)
  {
    InvTokens(s);
    hide Inv, InTransit, InAir, Expire, CancelFrom;
    var i, socks, socks' := s.notices[0], s.client.socks, ExpireAt(s.client, s.notices[0]).socks;
    assert TokenBag(s)[i] <= 1 && multiset(s.notices)[i] > 0;
    forall id | id != i && Flying(socks, id)
      ensures Flying(socks', id)
    {
      var f :| f in socks && InAir(socks[f], id);
      ExpireLands(socks[f], i, id);
      assert InAir(socks'[f], id);
    }
    hide Flying;
    forall id | Has(s.timer, id)
      ensures Live(socks', InTransit(s), 0, id)
    {
      IdBagHas(s.timer, id);
    }
    forall j | 0 <= j < |InTransit(s)| && InTransit(s)[j].Start?
      ensures Live(socks', InTransit(s), j, InTransit(s)[j].id)
    {
      StartBagHas(InTransit(s), j, InTransit(s)[j].id);
    }
  }

  // ----- Runs -------------------------------------------------------------------------------------------

  lemma SameAir(socks: map<int, Sock>, socks': map<int, Sock>, requests: seq<Request>, list: seq<Node>)
    requires AllLive(socks, requests, list)
    requires forall fd :: fd in socks ==> fd in socks' && socks'[fd].packages == socks[fd].packages
    ensures AllLive(socks', requests, list)
  {
    hide CancelFrom;
    forall id | Flying(socks, id)
      ensures Flying(socks', id)
    {
      var fd :| fd in socks && InAir(socks[fd], id);
      assert InAir(socks'[fd], id);
    }
    hide Flying;
  }

  lemma AckStepLive(s: System, fd: int, datagram: Datagram, sample: real)
    requires Inv(s) && Enabled(s, AckStep(fd, datagram, sample)) && AllLive(s.client.socks, InTransit(s), s.timer)
    ensures var t := After(s, AckStep(fd, datagram, sample)); AllLive(t.client.socks, InTransit(t), t.timer)
  {
    InvTokens(s);
    hide Inv, AllLive, OpenAck, Acknowledge, Sample, AllTokens, InTransit;
    if OpenAck(datagram).Some? {
      var a := OpenAck(datagram).value;
      AckLive(s, fd, a, InTransit(s), s.timer);
      AckTransit(s, fd, datagram, sample);
    }
  }

  lemma AckTransit(s: System, fd: int, datagram: Datagram, sample: real)
    requires Enabled(s, AckStep(fd, datagram, sample)) && OpenAck(datagram).Some? && s.consumed <= |s.client.toTimer|
    ensures var a := OpenAck(datagram).value;
            InTransit(After(s, AckStep(fd, datagram, sample))) == InTransit(s) + [Cancel(Id(a.session, a.seqNum))]
  {
    hide OpenAck, Acknowledge, Sample;
  }

  lemma FlushStepLive(s: System, order: seq<int>)
    requires Inv(s) && Enabled(s, FlushStep(order)) && AllLive(s.client.socks, InTransit(s), s.timer)
    ensures var t := After(s, FlushStep(order)); AllLive(t.client.socks, InTransit(t), t.timer)
  {
    InvTokens(s);
    hide Inv, AllLive, FlushInOrder, AllTokens;
    FlushesLive(s.client, order, s.consumed, s.timer);
  }

  lemma TimerStepLive(s: System, elapsed: real, take: bool)
    requires Inv(s) && Enabled(s, TimerStep(elapsed, take)) && AllLive(s.client.socks, InTransit(s), s.timer)
    ensures var t := After(s, TimerStep(elapsed, take)); AllLive(t.client.socks, InTransit(t), t.timer)
  {
    InvTokens(s);
    hide Inv, AllLive, OneRound, AllTokens;
    if take {
      TakenLive(s, elapsed);
      assert s.client.toTimer[s.consumed..][1..] == s.client.toTimer[s.consumed + 1..];
    } else {
      UntakenLive(s, elapsed);
    }
  }

  lemma StepLive(s: System, step: Step)
    requires Inv(s) && Enabled(s, step) && AllLive(s.client.socks, InTransit(s), s.timer)
    ensures var t := After(s, step); AllLive(t.client.socks, InTransit(t), t.timer)
  {
    hide Inv, AllLive, OpenAck, OpenData, FlushInOrder, ExpireAt;
    match step {
      case ConnectStep(fd, session, to) =>
        SameAir(s.client.socks, After(s, step).client.socks, InTransit(s), s.timer);
      case SendStep(fd, body) => SameAir(s.client.socks, After(s, step).client.socks, InTransit(s), s.timer);
      case AckStep(fd, datagram, sample) => AckStepLive(s, fd, datagram, sample);
      case NoticeStep => NoticeTransit(s); NoticeLive(s);
      case FlushStep(order) => FlushStepLive(s, order);
      case TimerStep(elapsed, take) => TimerStepLive(s, elapsed, take);
      case _ =>
    }
  }

  lemma NoticeTransit(s: System)
    requires s.notices != []
    ensures InTransit(After(s, NoticeStep)) == InTransit(s)
  {}

  lemma {:induction false} RunLive(states: seq<System>, steps: seq<Step>, i: nat)
    requires IsRun(states, steps) && i < |states|
    ensures AllLive(states[i].client.socks, InTransit(states[i]), states[i].timer)
  {
    hide Inv, Enabled, After, AllLive, InTransit;
    if i == 0 {
      NoTimers(states[0]);
    } else {
      RunLive(states, steps, i - 1);
      RunInv(states, steps, i - 1);
      StepLive(states[i - 1], steps[i - 1]);
    }
  }

  lemma NoTimers(s: System)
    requires Init(s)
    ensures AllLive(s.client.socks, InTransit(s), s.timer)
  {}

  /** In every run each timer that is running belongs to a package in flight, or the request that
      cancels it is on its way. */
  lemma TimersAreLive(states: seq<System>, steps: seq<Step>, i: nat, id: Id)
    requires IsRun(states, steps) && i < |states| && Has(states[i].timer, id)
    ensures
      || (exists fd, p :: fd in states[i].client.socks && p in states[i].client.socks[fd].packages && IdOf(p) == id)
      || Cancel(id) in InTransit(states[i])
  {
    hide IsRun;
    RunLive(states, steps, i);
    if Flying(states[i].client.socks, id) {
      var fd :| fd in states[i].client.socks && InAir(states[i].client.socks[fd], id);
      var p :| p in states[i].client.socks[fd].packages && IdOf(p) == id;
    }
  }
}
