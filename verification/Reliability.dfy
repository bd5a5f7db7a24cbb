/** What holds in every state of every run of the protocol. */
module Reliability {
  import opened Options
  import opened Bytes
  import opened Crc32
  import opened Wire
  import opened Straddle
  import opened TimerList
  import opened Sender
  import opened Receiver
  import opened ServerTables
  import opened Conversation
  import opened Protocol
  import opened Bindings
  import opened Buffering
  import opened Tokens

  ghost predicate Inv(s: System) {
    Sessions(s) && Counted(s.client) && TokensInv(s) && RecordsBound(s.server)
  }

  lemma InitInv(s: System)
    requires Init(s)
    ensures Inv(s)
  {
    assert Sum(s.client.socks) == 0;
  }

  lemma StepInv(s: System, step: Step)
    requires Inv(s) && Enabled(s, step)
    ensures Inv(After(s, step))
  {
    hide Sessions, Counted, TokensInv, RecordsBound;
    StepSessions(s, step);
    StepCounted(s, step);
    StepTokens(s, step);
    StepBindings(s, step);
  }

  lemma {:induction false} RunInv(states: seq<System>, steps: seq<Step>, i: nat)
    requires IsRun(states, steps) && i < |states|
    ensures Inv(states[i])
  {
    hide Inv, Enabled, After, Init;
    if i == 0 {
      InitInv(states[0]);
    } else {
      RunInv(states, steps, i - 1);
      StepInv(states[i - 1], steps[i - 1]);
    }
  }

  /** The record of the session opened on a descriptor. */
  function RecordOf(s: System, fd: int): Option<Session>
    requires fd in s.client.socks
  {
    Record(s.server, s.client.socks[fd].session)
  }

  /** The step is a drain, and meets a request of session x that ends inside a ready package. */
  ghost predicate Increasing(times: seq<nat>) {
    forall j, k :: 0 <= j < k < |times| ==> times[j] < times[k]
  }

  ghost predicate SplitsAt(s: System, step: Step, x: int) {
    step == DrainStep && x in s.server.accepted && Splits(s.server.accepted[x])
  }

  lemma StepSplits(s: System, step: Step, x: int)
    requires Enabled(s, step)
    ensures x in After(s, step).split <==> x in s.split || SplitsAt(s, step, x)
  {}

  lemma {:induction false} SplitHistory(states: seq<System>, steps: seq<Step>, i: nat, x: int)
    requires IsRun(states, steps) && i < |states|
    ensures x in states[i].split <==> exists j :: 0 <= j < i && SplitsAt(states[j], steps[j], x)
  {
    hide SplitsAt, Enabled, After;
    if i == 0 {
    } else {
      SplitHistory(states, steps, i - 1, x);
      StepSplits(states[i - 1], steps[i - 1], x);
    }
  }

  /** What the receiving process has been given, and what is waiting in the buffer for it, is
      exactly the first Base payloads the sender accepted, if and only if no drain so far met a
      request of the session that ended inside a ready package; otherwise bytes are missing. */
  lemma ExactPrefix(states: seq<System>, steps: seq<Step>, i: nat, fd: int)
    requires IsRun(states, steps) && i < |states|
    requires fd in states[i].client.socks && RecordOf(states[i], fd).Some?
    ensures var r := RecordOf(states[i], fd).value;
            var sent := if fd in states[i].sent then states[i].sent[fd] else [];
            var x := states[i].client.socks[fd].session;
            && r.base <= |sent|
            && (r.out + r.buffer == Concat(sent[..r.base]) <==>
                  forall j :: 0 <= j < i ==> !SplitsAt(states[j], steps[j], x))
            && |r.out| + |r.buffer| <= |Concat(sent[..r.base])|
  {
    hide SplitsAt;
    var s := states[i];
    RunInv(states, steps, i);
    SplitHistory(states, steps, i, s.client.socks[fd].session);
    hide RecordsBound, Counted, TokensInv;
    assert SessionOk(fd, s.client.socks, s.client.toTroll, s.server, s.sent, s.split);
  }

  /** No accepted package is lost: the sender keeps it, or the receiver has it. */
  lemma NothingLost(states: seq<System>, steps: seq<Step>, i: nat, fd: int, n: nat)
    requires IsRun(states, steps) && i < |states|
    requires fd in states[i].client.socks && n < states[i].client.socks[fd].base
    ensures
      || (exists p :: p in Buffered(states[i].client.socks[fd]) && p.seqNum == n)
      || GotIt(RecordOf(states[i], fd), n)
  {
    var s := states[i];
    RunInv(states, steps, i);
    assert SessionOk(fd, s.client.socks, s.client.toTroll, s.server, s.sent, s.split);
    assert Nth(s.client.socks[fd].session, s.sent[fd], n).seqNum == n;
  }

  /** An acknowledgement on the network means that the receiver has the package, and it has
      exactly the packages it has acknowledged. */
  lemma AcknowledgedIsReceived(states: seq<System>, steps: seq<Step>, i: nat, fd: int, n: nat)
    requires IsRun(states, steps) && i < |states| && fd in states[i].client.socks
    ensures Ack(states[i].client.socks[fd].session, n) in states[i].server.acks <==> GotIt(RecordOf(states[i], fd), n)
  {
    var s := states[i];
    RunInv(states, steps, i);
    assert SessionOk(fd, s.client.socks, s.client.toTroll, s.server, s.sent, s.split);
  }

  /** Reassembly: one record per session, strictly ascending, at or above Base, with the
      payloads that were accepted under those numbers. */
  lemma ReassemblyIsOrdered(states: seq<System>, steps: seq<Step>, i: nat, fd: int)
    requires IsRun(states, steps) && i < |states|
    requires fd in states[i].client.socks && RecordOf(states[i], fd).Some?
    ensures OneRecord(states[i].server)
    ensures Sorted(RecordOf(states[i], fd).value)
    ensures forall p :: p in RecordOf(states[i], fd).value.packages ==>
      fd in states[i].sent && Carries(p, states[i].client.socks[fd].session, states[i].sent[fd])
  {
    var s := states[i];
    RunInv(states, steps, i);
    assert SessionOk(fd, s.client.socks, s.client.toTroll, s.server, s.sent, s.split);
  }

  /** in_buffer_packages counts what all lists hold, and the gate keeps it at 64 or below. */
  lemma BufferBound(states: seq<System>, steps: seq<Step>, i: nat)
    requires IsRun(states, steps) && i < |states|
    ensures states[i].client.inBuffer == Sum(states[i].client.socks) <= 64
  {
    RunInv(states, steps, i);
  }

  /** Every package in flight has exactly one timer token, and no cancel under way can take it. */
  lemma InFlightIsTimed(states: seq<System>, steps: seq<Step>, i: nat, fd: int, p: Package)
    requires IsRun(states, steps) && i < |states|
    requires fd in states[i].client.socks && p in states[i].client.socks[fd].packages
    ensures TokenBag(states[i])[IdOf(p)] == 1 && NoKill(InTransit(states[i]), IdOf(p))
  {
    RunInv(states, steps, i);
    assert SockTokens(states[i].client.socks[fd], InTransit(states[i]), TokenBag(states[i]));
  }

  /** An expiry notice always names an open session, so the daemon never stops over one, and a
      start request is never refused as a duplicate. */
  lemma TimerAgrees(states: seq<System>, steps: seq<Step>, i: nat)
    requires IsRun(states, steps) && i < |states|
    ensures forall id :: id in states[i].notices ==> KnownSession(states[i].client.socks, id.session)
    ensures InTransit(states[i]) != [] && InTransit(states[i])[0].Start? ==>
        !Has(states[i].timer, InTransit(states[i])[0].id)
  {
    var s := states[i];
    RunInv(states, steps, i);
    forall id | id in s.notices
      ensures KnownSession(s.client.socks, id.session)
    {
      assert id in TokenBag(s);
      var f :| f in s.client.socks && Issued(s.client.socks[f], id);
    }
    if InTransit(s) != [] && InTransit(s)[0].Start? {
      var id := InTransit(s)[0].id;
      StartBagHas(InTransit(s), 0, id);
      IdBagHas(s.timer, id);
      assert TokenBag(s)[id] <= 1;
    }
  }

  // ----- What the network may deliver ------------------------------------------------------------

  lemma NetworkFits(s: System, p: Package)
    requires Sessions(s) && p in s.client.toTroll
    ensures Fits32(p)
  {
    var fd :| fd in s.client.socks && s.client.socks[fd].session == p.session;
    assert SessionOk(fd, s.client.socks, s.client.toTroll, s.server, s.sent, s.split);
    assert Carries(p, p.session, s.sent[fd]);
    assert |s.sent[fd][p.seqNum]| <= BUF_LEN;
  }

  /** A datagram that was sealed around these bytes and may have been garbled on the way: in at
      most 32 consecutive covered bits, in the checksum, or in n consecutive bits of both together. */
  ghost predicate CameFrom(d: Datagram, covered: seq<Byte>, k: nat, n: nat) {
    || (BurstAt(covered, d.covered, k) && d.checkSum == Seal(covered).checkSum)
    || d.covered == covered
    || BurstIn(Seal(covered), d, k, n)
  }

  lemma NotIntact(d: Datagram)
    requires !Intact(d)
    ensures OpenData(d) == None && OpenAck(d) == None
  {}

  lemma DataSize(p: Package, padding: seq<Byte>, tail: seq<Byte>)
    requires Fills(p, padding, tail)
    ensures |DataBytes(p, padding, tail)| == 20 + BUF_LEN
  {}

  lemma AckSize(a: Ack)
    ensures |AckBytes(a)| == 8
  {}

  lemma ReadBack(d: Datagram, p: Package, padding: seq<Byte>, tail: seq<Byte>, k: nat)
    requires Fits32(p) && Fills(p, padding, tail) && CameFrom(d, DataBytes(p, padding, tail), k, DATA_BURST)
    ensures OpenData(d) == if d == Seal(DataBytes(p, padding, tail)) then Some(p) else None
  {
    hide OpenData, DataBytes, BurstAt, BurstIn, BitSerial, Intact;
    var c := DataBytes(p, padding, tail);
    if d == Seal(c) {
      DataRoundTrip(p, padding, tail);
    } else if BurstIn(Seal(c), d, k, DATA_BURST) {
      DataSize(p, padding, tail);
      DataBurstNoticed(c, d, k);
      NotIntact(d);
    } else {
      GarblingIsNoticed(c, d, k);
    }
  }

  lemma InvSessions(s: System)
    requires Inv(s)
    ensures Sessions(s)
  {}

  /** In every run the network may deliver copies of what it was handed, on the bound socket that
      the session is connected to, intact or garbled in a burst: the receiver reads an intact one as
      what was sent, and a garbled one changes nothing. */
  lemma CopiesAndBursts(states: seq<System>, steps: seq<Step>, i: nat, p: Package, padding: seq<Byte>, tail: seq<Byte>,
                        d: Datagram, fd: int, k: nat)
    requires IsRun(states, steps) && i < |states| && p in states[i].client.toTroll
    requires IsBound(states[i].server, fd) && AddressedTo(states[i], p.session, fd)
    requires Fills(p, padding, tail) && CameFrom(d, DataBytes(p, padding, tail), k, DATA_BURST)
    ensures Enabled(states[i], DataStep(fd, d))
    ensures OpenData(d) == if d == Seal(DataBytes(p, padding, tail)) then Some(p) else None
    ensures d != Seal(DataBytes(p, padding, tail)) ==> After(states[i], DataStep(fd, d)) == states[i]
  {
    hide OpenData, CameFrom, IsRun, Inv, DataBytes, Fits32, Sessions, IsBound;
    RunInv(states, steps, i);
    InvSessions(states[i]);
    NetworkFits(states[i], p);
    ReadBack(d, p, padding, tail, k);
  }

  lemma AckFits(s: System, a: Ack)
    requires Sessions(s) && a in s.server.acks
    ensures KnownSession(s.client.socks, a.session) && a.session < WORD && a.seqNum < WORD
  {
    var fd :| fd in s.client.socks && s.client.socks[fd].session == a.session;
    assert SessionOk(fd, s.client.socks, s.client.toTroll, s.server, s.sent, s.split);
    assert a == Ack(s.client.socks[fd].session, a.seqNum);
    assert GotIt(Record(s.server, a.session), a.seqNum);
  }

  lemma AckReadBack(d: Datagram, a: Ack, k: nat)
    requires a.session < WORD && a.seqNum < WORD && CameFrom(d, AckBytes(a), k, ACK_BURST)
    ensures OpenAck(d) == if d == Seal(AckBytes(a)) then Some(a) else None
  {
    hide OpenAck, AckBytes, BurstAt, BurstIn, BitSerial, Intact;
    if d == Seal(AckBytes(a)) {
      AckRoundTrip(a);
    } else if BurstIn(Seal(AckBytes(a)), d, k, ACK_BURST) {
      AckSize(a);
      AckBurstNoticed(AckBytes(a), d, k);
      NotIntact(d);
    } else {
      GarblingIsNoticed(AckBytes(a), d, k);
    }
  }

  /** The same for acknowledgements; a garbled one is counted in the estimate of the round-trip
      time, and does nothing else. */
  lemma AckCopiesAndBursts(states: seq<System>, steps: seq<Step>, i: nat, a: Ack, d: Datagram, fd: int, sample: real,
                           k: nat)
    requires IsRun(states, steps) && i < |states| && a in states[i].server.acks
    requires CameFrom(d, AckBytes(a), k, ACK_BURST)
    requires fd in states[i].client.socks && states[i].client.socks[fd].session == a.session
    ensures Enabled(states[i], AckStep(fd, d, sample))
    ensures OpenAck(d) == if d == Seal(AckBytes(a)) then Some(a) else None
    ensures d != Seal(AckBytes(a)) ==>
              After(states[i], AckStep(fd, d, sample)) ==
              states[i].(client := states[i].client.(estimator := Sample(states[i].client.estimator, sample)))
  {
    hide OpenAck, CameFrom, IsRun, Inv, AckBytes, Sessions, Sample;
    RunInv(states, steps, i);
    InvSessions(states[i]);
    AckFits(states[i], a);
    AckReadBack(d, a, k);
  }
}
