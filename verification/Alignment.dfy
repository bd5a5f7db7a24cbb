/** Requests that end where a payload ends: what keeps the splitting branch from being reached. */
module Alignment {
  import opened Options
  import opened Wire
  import opened Sender
  import opened Receiver
  import opened ServerTables
  import opened Conversation
  import opened Protocol
  import opened Bindings
  import opened Buffering
  import opened Tokens
  import opened Reliability
  import opened Paths

  // ----- The sending process ---------------------------------------------------------------------

  /** Only the first frames have been accepted in session x. */
  ghost predicate Follows(socks: map<int, Sock>, sent: map<int, seq<Payload>>, x: int, frames: seq<Payload>) {
    forall fd :: fd in socks && fd in sent && socks[fd].session == x ==> sent[fd] <= frames
  }

  lemma FollowsSend(s: System, fd: int, body: Payload, x: int, frames: seq<Payload>)
    requires Inv(s) && Enabled(s, SendStep(fd, body)) && Follows(s.client.socks, s.sent, x, frames)
    requires SendsNext(s, SendStep(fd, body), x, frames)
    ensures Follows(After(s, SendStep(fd, body)).client.socks, After(s, SendStep(fd, body)).sent, x, frames)
  {
    hide Inv, Accept;
    InvSessions(s);
    SentLength(s, fd);
    AcceptNames(s.client.socks[fd], body);
  }

  lemma SentLength(s: System, fd: int)
    requires Sessions(s) && fd in s.client.socks
    ensures fd in s.sent && |s.sent[fd]| == s.client.socks[fd].base
  {
    assert SessionOk(fd, s.client.socks, s.client.toTroll, s.server, s.sent, s.split);
  }

  lemma StepFollows(s: System, step: Step, x: int, frames: seq<Payload>)
    requires Inv(s) && Enabled(s, step) && SendsNext(s, step, x, frames) && Follows(s.client.socks, s.sent, x, frames)
    ensures Follows(After(s, step).client.socks, After(s, step).sent, x, frames)
  {
    if step.SendStep? {
      FollowsSend(s, step.fd, step.body, x, frames);
    } else if step.ConnectStep? {
    } else {
      hide Inv;
      NamesKept(s, step);
    }
  }

  // ----- The receiving process -------------------------------------------------------------------

  /** A position in the stream at which a payload ends. */
  ghost predicate Aligned(frames: seq<Payload>, n: nat) {
    exists m :: 0 <= m <= |frames| && n == |Concat(frames[..m])|
  }

  /** A request that RECV registers ends where a payload ends. */
  ghost predicate AsksAligned(s: System, step: Step, x: int, frames: seq<Payload>) {
    step.RecvStep? && step.session == x && RecvReply(s.server, x, step.length) == None ==>
      Aligned(frames, |s.server.accepted[x].out| + step.length)
  }

  ghost predicate IsAligned(states: seq<System>, steps: seq<Step>, x: int, frames: seq<Payload>) {
    && IsRun(states, steps)
    && forall i :: 0 <= i < |steps| ==>
         SendsNext(states[i], steps[i], x, frames) && AsksAligned(states[i], steps[i], x, frames)
  }

  /** The open request, if there is one, ends where a payload ends. */
  ghost predicate Open(r: Session, frames: seq<Payload>) {
    r.receivingLength == 0 || Aligned(frames, |r.out| + r.receivingLength)
  }

  ghost predicate Unsplit(server: Server, split: set<int>, x: int, frames: seq<Payload>) {
    x !in split && (Record(server, x).Some? ==> Open(Record(server, x).value, frames))
  }

  lemma {:induction false} ReadyNumbers(list: seq<Package>, base: nat, k: nat)
    requires k <= Ready(list, base)
    ensures forall i :: 0 <= i < k ==> list[i].seqNum == base + i
  {
    if k == 0 {
    } else {
      ReadyNumbers(list[1..], base + 1, k - 1);
      forall i | 0 <= i < k
        ensures list[i].seqNum == base + i
      {
        assert i > 0 ==> list[i] == list[1..][i - 1];
      }
    }
  }

  lemma {:induction false} FlatLength(list: seq<Package>, k: nat)
    requires k <= |list|
    ensures |Flat(list[..k])| == Total(list, k)
  {
    if k == 0 {
      assert list[..0] == [];
    } else {
      FlatLength(list[1..], k - 1);
      assert list[..k][1..] == list[1..][..k - 1];
    }
  }

  /** The ready packages end where the next payloads end. */
  lemma ReadyEnds(x: nat, r: Session, sent: seq<Payload>, split: bool, k: nat)
    requires ReceiverInv(x, r, sent, split) && k <= Ready(r.packages, r.base)
    ensures r.base + k <= |sent|
    ensures |Concat(sent[..r.base + k])| == |Concat(sent[..r.base])| + Total(r.packages, k)
  {
    ReadyNumbers(r.packages, r.base, k);
    FlatLength(r.packages, k);
    if k > 0 {
      assert Carries(r.packages[k - 1], x, sent);
    }
    ConsumedStream(r.packages, x, sent, r.base, k);
  }

  lemma {:induction false} LongerStream(frames: seq<Payload>, a: nat, b: nat)
    requires a <= b <= |frames|
    ensures |Concat(frames[..a])| <= |Concat(frames[..b])|
    decreases b
  {
    if a == b {
    } else {
      LongerStream(frames, a, b - 1);
      assert frames[..b][..b - 1] == frames[..b - 1];
    }
  }

  /** An aligned request falls on a boundary of the packages that are ready. */
  lemma AlignedOnBoundary(x: nat, r: Session, sent: seq<Payload>, frames: seq<Payload>)
    requires ReceiverInv(x, r, sent, false) && sent <= frames && Open(r, frames)
    ensures !Splits(r)
  {
    if r.receivingLength > 0 {
      var m :| 0 <= m <= |frames| && |r.out| + r.receivingLength == |Concat(frames[..m])|;
      assert |r.out| + |r.buffer| == |r.out + r.buffer| == |Concat(sent[..r.base])|;
      forall k | 0 <= k < Ready(r.packages, r.base)
        ensures !(Total(r.packages, k) < Want(r) < Total(r.packages, k + 1))
      {
        ReadyEnds(x, r, sent, false, k);
        ReadyEnds(x, r, sent, false, k + 1);
        assert sent[..r.base + k] == frames[..r.base + k] && sent[..r.base + k + 1] == frames[..r.base + k + 1];
        if m <= r.base + k {
          LongerStream(frames, m, r.base + k);
        } else {
          LongerStream(frames, r.base + k + 1, m);
        }
      }
    }
  }

  lemma DrainOpen(r: Session, frames: seq<Payload>)
    requires Open(r, frames)
    ensures Open(Drain(r), frames)
  {
    hide DrainLoop, Concat;
    DrainLoopLeaves(r);
  }

  lemma UnsplitDrain(s: System, x: int, frames: seq<Payload>)
    requires Inv(s) && Follows(s.client.socks, s.sent, x, frames) && Unsplit(s.server, s.split, x, frames)
    ensures Unsplit(RecvBack(s.server), s.split + Splitting(s.server), x, frames)
  {
    hide Counted, TokensInv, RecordsBound, Drain, Splits, Open;
    var server' := RecvBack(s.server);
    SessionsParts(s);
    forall y | y in s.server.accepted
      ensures server'.accepted[y].session == s.server.accepted[y].session
    {
      DrainNames(s.server.accepted[y]);
    }
    AcceptedChange(s.server, server');
    if x in s.server.accepted {
      assert Record(s.server, x) == Some(s.server.accepted[x]);
      assert KnownSession(s.client.socks, x);
      var fd :| fd in s.client.socks && s.client.socks[fd].session == x;
      assert SessionOk(fd, s.client.socks, s.client.toTroll, s.server, s.sent, s.split);
      AlignedOnBoundary(x, s.server.accepted[x], s.sent[fd], frames);
      DrainOpen(s.server.accepted[x], frames);
    }
  }

  lemma PlaceOpen(r: Session, p: Package, frames: seq<Payload>)
    requires Open(r, frames)
    ensures Open(Place(r, p), frames)
  {
    hide Concat;
  }

  lemma UnsplitData(server: Server, split: set<int>, fd: int, datagram: Datagram, x: int, frames: seq<Payload>)
    requires OneRecord(server) && Unsplit(server, split, x, frames)
    ensures Unsplit(RecvDataAt(server, fd, datagram), split, x, frames)
  {
    hide OneRecord, Record, Open, Place;
    if OpenData(datagram).Some? {
      RecvDataRecord(server, fd, datagram, x);
      hide RecvDataAt, OpenData;
      var p := OpenData(datagram).value;
      if p.session == x {
        NewOpen(NewSession(fd, p.session), frames);
        PlaceOpen(if Record(server, x).Some? then Record(server, x).value else NewSession(fd, x), p, frames);
      }
    }
  }

  lemma NewOpen(r: Session, frames: seq<Payload>)
    requires r.receivingLength == 0
    ensures Open(r, frames)
  {}

  lemma UnsplitRecv(s: System, step: Step, x: int, frames: seq<Payload>)
    requires OneRecord(s.server) && Unsplit(s.server, s.split, x, frames) && step.RecvStep?
    requires AsksAligned(s, step, x, frames)
    ensures Unsplit(RecvCall(s.server, step.session, step.length), s.split, x, frames)
  {
    hide Aligned;
    if RecvReply(s.server, step.session, step.length) == None {
      AcceptedChange(s.server, RecvCall(s.server, step.session, step.length));
      hide OneRecord, Record;
    }
  }

  lemma UnsplitAccept(server: Server, split: set<int>, x: int, frames: seq<Payload>)
    requires OneRecord(server) && Unsplit(server, split, x, frames)
    ensures Unsplit(AcceptBack(server, |server.bound|), split, x, frames)
  {
    hide OneRecord, Record, Open;
    AcceptBackRecord(server, |server.bound|, x);
  }

  lemma StepUnsplit(s: System, step: Step, x: int, frames: seq<Payload>)
    requires Inv(s) && Enabled(s, step) && AsksAligned(s, step, x, frames)
    requires Follows(s.client.socks, s.sent, x, frames) && Unsplit(s.server, s.split, x, frames)
    ensures Unsplit(After(s, step).server, After(s, step).split, x, frames)
  {
    hide Inv, Unsplit, Follows, AsksAligned, OpenData, OpenAck, FlushInOrder;
    InvSessions(s);
    SessionsParts(s);
    hide Sessions, SessionOk, DistinctSocks, OneRecord;
    match step {
      case DataStep(fd, datagram) => UnsplitData(s.server, s.split, fd, datagram, x, frames);
      case DrainStep => UnsplitDrain(s, x, frames);
      case AcceptStep => UnsplitAccept(s.server, s.split, x, frames);
      case RecvStep(_, _) => UnsplitRecv(s, step, x, frames);
      case BindStep(fd) => UnsplitSame(s.server, Bind(s.server, fd), s.split, x, frames);
      case AcceptCallStep(k) => UnsplitSame(s.server, After(s, step).server, s.split, x, frames);
      case _ =>
    }
  }

  lemma UnsplitSame(server: Server, server': Server, split: set<int>, x: int, frames: seq<Payload>)
    requires server'.waiting == server.waiting && server'.accepted == server.accepted
    requires Unsplit(server, split, x, frames)
    ensures Unsplit(server', split, x, frames)
  {}

  lemma {:induction false} NeverSplit(states: seq<System>, steps: seq<Step>, x: int, frames: seq<Payload>, i: nat)
    requires IsAligned(states, steps, x, frames) && i < |states|
    ensures Follows(states[i].client.socks, states[i].sent, x, frames)
    ensures Unsplit(states[i].server, states[i].split, x, frames)
  {
    hide Inv, Enabled, After, SendsNext, AsksAligned, Follows, Unsplit, Init;
    if i == 0 {
      NothingSplit(states[0], x, frames);
    } else {
      NeverSplit(states, steps, x, frames, i - 1);
      RunInv(states, steps, i - 1);
      StepFollows(states[i - 1], steps[i - 1], x, frames);
      StepUnsplit(states[i - 1], steps[i - 1], x, frames);
    }
  }

  lemma NothingSplit(s: System, x: int, frames: seq<Payload>)
    requires Init(s)
    ensures Follows(s.client.socks, s.sent, x, frames) && Unsplit(s.server, s.split, x, frames)
  {}

  /** Whatever two processes use a session: if every request that is registered ends where one of
      the payloads ends, no drain ever splits a package of it, and the received stream is exact. */
  lemma AlignedIsExact(states: seq<System>, steps: seq<Step>, fd: int, frames: seq<Payload>, i: nat)
    requires i < |states| && fd in states[i].client.socks
    requires IsAligned(states, steps, states[i].client.socks[fd].session, frames)
    ensures forall j :: 0 <= j < i ==> !SplitsAt(states[j], steps[j], states[i].client.socks[fd].session)
    ensures RecordOf(states[i], fd).Some? ==>
              var r := RecordOf(states[i], fd).value;
              r.base <= |frames| && r.out + r.buffer == Concat(frames[..r.base])
  {
    hide IsRun, SplitsAt, SendsNext, AsksAligned, Concat, Record, Open, Inv;
    var x := states[i].client.socks[fd].session;
    NeverSplit(states, steps, x, frames, i);
    SplitHistory(states, steps, i, x);
    if RecordOf(states[i], fd).Some? {
      ExactPrefix(states, steps, i, fd);
      RunInv(states, steps, i);
      InvSessions(states[i]);
      SessionsParts(states[i]);
      var base := RecordOf(states[i], fd).value.base;
      assert states[i].sent[fd][..base] == frames[..base];
    }
  }
}
