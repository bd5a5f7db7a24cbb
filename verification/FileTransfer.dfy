/** A whole file transfer: final/ftpc.c and final/ftps.c on top of two daemons and a network that
    loses, repeats, reorders and garbles. */
module FileTransfer {
  import opened Options
  import opened Bytes
  import opened Wire
  import opened Receiver
  import opened ServerTables
  import opened Conversation
  import opened Protocol
  import opened Reliability
  import opened Framing
  import opened Paths
  import opened Alignment

  ghost predicate IsTransfer(states: seq<System>, steps: seq<Step>, x: int, frames: seq<Payload>) {
    IsRun(states, steps) && forall i :: 0 <= i < |steps| ==> Obeys(states[i], steps[i], x, frames)
  }

  // ----- The server's side -----------------------------------------------------------------------

  /** The frames consumed so far, whole, and nothing else; the open request, if there is one, is
      for the next frame. */
  ghost predicate Served(r: Session, frames: seq<Payload>) {
    && r.base <= |frames|
    && r.buffer == []
    && r.out == Concat(frames[..r.base])
    && (r.receivingLength == 0 || r.receivingLength == NextRequest(r.out))
  }

  lemma FirstFits(list: seq<Package>, base: nat, want: int)
    requires list != [] && |list[0].body| == want
    ensures OnBoundary(list, base, want)
  {
    forall k | 0 <= k < Ready(list, base)
      ensures !(Total(list, k) < want < Total(list, k + 1))
    {
      if k > 0 {
        assert Total(list, k) >= want;
      } else {
        assert Total(list, 1) == want + Total(list[1..], 0);
      }
    }
  }

  /** A request for exactly the next package is answered with that package. */
  lemma TakesOne(r: Session)
    requires Draining(r) && r.buffer == [] && |r.packages[0].body| == r.receivingLength && r.base + 1 < WORD
    ensures Drain(r) == r.(packages := r.packages[1..], base := r.base + 1,
                           out := r.out + r.packages[0].body, receivingLength := 0)
    ensures !Splits(r)
  {
    FirstFits(r.packages, r.base, Want(r));
    assert Take(r).buffer == r.packages[0].body;
    assert DrainLoop(r) == Take(r);
  }

  lemma TakesNone(r: Session)
    requires !Draining(r) && r.buffer == []
    ensures Drain(r) == r && !Splits(r)
  {
    if r.receivingLength > 0 {
      assert Ready(r.packages, r.base) == 0;
    }
  }

  lemma AddsFrame(frames: seq<Payload>, k: nat)
    requires k < |frames|
    ensures Concat(frames[..k + 1]) == Concat(frames[..k]) + frames[k]
  {
    assert frames[..k + 1][..k] == frames[..k];
  }

  lemma DrainServes(x: int, r: Session, sent: seq<Payload>, name: seq<Byte>, file: seq<Byte>)
    requires x >= 0 && ReceiverInv(x, r, sent, false) && |sent| < WORD && sent <= Frames(name, file) && |file| < WORD
    requires Served(r, Frames(name, file))
    ensures Served(Drain(r), Frames(name, file)) && !Splits(r)
  {
    var frames := Frames(name, file);
    RequestIsNextFrame(name, file, r.base);
    hide Frames, NextRequest, Drain, Splits, Concat;
    if Draining(r) {
      ReceiverInRange(x, r, sent, false);
      assert Carries(r.packages[0], x, sent);
      TakesOne(r);
      AddsFrame(frames, r.base);
    } else {
      TakesNone(r);
    }
  }

  /** What a state of a transfer in session x satisfies. */
  ghost predicate Serves(server: Server, split: set<int>, x: int, frames: seq<Payload>) {
    x !in split && (Record(server, x).Some? ==> Served(Record(server, x).value, frames))
  }

  lemma ServesData(server: Server, split: set<int>, fd: int, datagram: Datagram, x: int, frames: seq<Payload>)
    requires OneRecord(server) && Serves(server, split, x, frames)
    ensures Serves(RecvDataAt(server, fd, datagram), split, x, frames)
  {
    hide OneRecord, Record, Served, Place;
    if OpenData(datagram).Some? {
      RecvDataRecord(server, fd, datagram, x);
      hide RecvDataAt, OpenData;
      var p := OpenData(datagram).value;
      if p.session == x {
        NewServed(NewSession(fd, p.session), frames);
        PlaceServes(if Record(server, x).Some? then Record(server, x).value else NewSession(fd, x), p, frames);
      }
    }
  }

  lemma NewServed(r: Session, frames: seq<Payload>)
    requires r == NewSession(r.socketFd, r.session)
    ensures Served(r, frames)
  {
    assert frames[..0] == [];
  }

  lemma PlaceServes(r: Session, p: Package, frames: seq<Payload>)
    requires Served(r, frames)
    ensures Served(Place(r, p), frames)
  {
    hide NextRequest, Concat;
  }

  lemma ServesDrain(s: System, x: int, name: seq<Byte>, file: seq<Byte>)
    requires Inv(s) && |file| < WORD
    requires Follows(s.client.socks, s.sent, x, Frames(name, file)) && Serves(s.server, s.split, x, Frames(name, file))
    ensures Serves(RecvBack(s.server), s.split + Splitting(s.server), x, Frames(name, file))
  {
    var server' := RecvBack(s.server);
    SessionsParts(s);
    forall y | y in s.server.accepted
      ensures server'.accepted[y].session == s.server.accepted[y].session
    {
      DrainNames(s.server.accepted[y]);
    }
    AcceptedChange(s.server, server');
    if x in s.server.accepted {
      assert Record(s.server, x) == Some(s.server.accepted[x]);
      assert KnownSession(s.client.socks, x);
      var fd :| fd in s.client.socks && s.client.socks[fd].session == x;
      assert SessionOk(fd, s.client.socks, s.client.toTroll, s.server, s.sent, s.split);
      hide Inv, Drain, Splits, Frames, Served;
      SentInRange(s.client.socks[fd], s.client.toTroll, s.sent[fd]);
      DrainServes(x, s.server.accepted[x], s.sent[fd], name, file);
    }
  }

  lemma ServesRecv(server: Server, split: set<int>, session: int, length: nat, x: int, frames: seq<Payload>)
    requires OneRecord(server) && Serves(server, split, x, frames)
    requires session == x && x in server.accepted ==> length == NextRequest(server.accepted[x].out)
    ensures Serves(RecvCall(server, session, length), split, x, frames)
  {
    hide NextRequest, Concat;
    if RecvReply(server, session, length) == None {
      AcceptedChange(server, RecvCall(server, session, length));
      hide OneRecord, Record;
    }
  }

  lemma ServesAccept(server: Server, split: set<int>, x: int, frames: seq<Payload>)
    requires OneRecord(server) && Serves(server, split, x, frames)
    ensures Serves(AcceptBack(server, |server.bound|), split, x, frames)
  {
    AcceptBackRecord(server, |server.bound|, x);
    hide OneRecord, Record;
  }

  lemma StepServes(s: System, step: Step, x: int, name: seq<Byte>, file: seq<Byte>)
    requires Inv(s) && Enabled(s, step) && |file| < WORD && Obeys(s, step, x, Frames(name, file))
    requires Follows(s.client.socks, s.sent, x, Frames(name, file)) && Serves(s.server, s.split, x, Frames(name, file))
    ensures Serves(After(s, step).server, After(s, step).split, x, Frames(name, file))
  {
    hide Frames, NextRequest;
    match step
    case DataStep(fd, datagram) =>
      SessionsParts(s);
      hide Inv, Sessions, Serves;
      ServesData(s.server, s.split, fd, datagram, x, Frames(name, file));
    case DrainStep =>
      ServesDrain(s, x, name, file);
    case AcceptStep =>
      SessionsParts(s);
      hide Inv, Sessions, Serves;
      ServesAccept(s.server, s.split, x, Frames(name, file));
    case RecvStep(session, length) =>
      SessionsParts(s);
      hide Inv, Sessions, Serves;
      ServesRecv(s.server, s.split, session, length, x, Frames(name, file));
    case _ =>
      hide Inv;
  }

  /** In every run in which the two processes work as ftpc and ftps do, the splitting branch is
      never reached in their session, and the server has got exactly the first frames. */
  lemma {:induction false} Transfers(states: seq<System>, steps: seq<Step>, x: int, name: seq<Byte>, file: seq<Byte>,
                                     i: nat)
    requires IsTransfer(states, steps, x, Frames(name, file)) && i < |states| && |file| < WORD
    ensures Follows(states[i].client.socks, states[i].sent, x, Frames(name, file))
    ensures Serves(states[i].server, states[i].split, x, Frames(name, file))
  {
    hide Inv, Enabled, After, SendsNext, NextRequest, Frames, Follows, Serves, Init;
    if i == 0 {
      NothingYet(states[0], x, Frames(name, file));
    } else {
      Transfers(states, steps, x, name, file, i - 1);
      RunInv(states, steps, i - 1);
      StepFollows(states[i - 1], steps[i - 1], x, Frames(name, file));
      StepServes(states[i - 1], steps[i - 1], x, name, file);
    }
  }

  lemma NothingYet(s: System, x: int, frames: seq<Payload>)
    requires Init(s)
    ensures Follows(s.client.socks, s.sent, x, frames) && Serves(s.server, s.split, x, frames)
  {}

  /** What the server has received is at all times a prefix of what the client has to send, and
      once the server stops asking it has the client's name and file. */
  lemma FileArrives(states: seq<System>, steps: seq<Step>, x: int, name: seq<Byte>, file: seq<Byte>, i: nat)
    requires IsTransfer(states, steps, x, Frames(name, file)) && i < |states| && Record(states[i].server, x).Some?
    requires |name| <= NAME_LEN && 0 !in name && |file| < WORD
    ensures x !in states[i].split
    ensures var out := Record(states[i].server, x).value.out;
            && out <= Concat(Frames(name, file))
            && (NextRequest(out) == 0 ==> Parse(out) == Some(Received(name, file)))
  {
    hide Frames, NextRequest, Parse, IsTransfer, Record, Follows, Concat, Served;
    Transfers(states, steps, x, name, file, i);
    ServedIsPrefix(Record(states[i].server, x).value, name, file);
  }

  lemma ServedIsPrefix(r: Session, name: seq<Byte>, file: seq<Byte>)
    requires Served(r, Frames(name, file)) && |name| <= NAME_LEN && 0 !in name && |file| < WORD
    ensures r.out <= Concat(Frames(name, file))
    ensures NextRequest(r.out) == 0 ==> Parse(r.out) == Some(Received(name, file))
  {
    hide Frames, NextRequest, Parse, Concat;
    RequestIsNextFrame(name, file, r.base);
    TransferRoundTrip(name, file);
    ConcatPrefix(Frames(name, file), r.base);
    assert Frames(name, file)[..|Frames(name, file)|] == Frames(name, file);
  }

  lemma {:induction false} ConcatPrefix(frames: seq<Payload>, k: nat)
    requires k <= |frames|
    ensures Concat(frames[..k]) <= Concat(frames)
    decreases |frames|
  {
    if k < |frames| {
      var n := |frames| - 1;
      assert frames[..n][..k] == frames[..k];
      ConcatPrefix(frames[..n], k);
    } else {
      assert frames[..k] == frames;
    }
  }
}
