/** The answers to RECV: in every run each registered request is answered once, whole and in turn. */
module Answers {
  import opened Options
  import opened Bytes
  import opened Wire
  import opened Receiver
  import opened ServerTables
  import opened Conversation
  import opened Protocol
  import opened Reliability

  /** A call of RECV that has to wait for its answer. */
  ghost predicate Registers(s: System, step: Step, x: int) {
    && step.RecvStep? && step.session == x && step.length > 0
    && x in s.server.accepted && s.server.accepted[x].receivingLength == 0
  }

  /** All that session x has been handed up. */
  function Out(s: System, x: int): seq<Byte> {
    OutOf(Record(s.server, x))
  }

  function OutOf(record: Option<Session>): seq<Byte> {
    match record case None => [] case Some(r) => r.out
  }

  /** The request that is waiting, if there is one. */
  function Open(s: System, x: int): seq<nat> {
    OpenOf(Record(s.server, x))
  }

  function OpenOf(record: Option<Session>): seq<nat> {
    match record
    case None => []
    case Some(r) => if r.receivingLength > 0 then [r.receivingLength] else []
  }

  /** The lengths asked for in session x during the first i steps. */
  ghost function Asked(states: seq<System>, steps: seq<Step>, x: int, i: nat): seq<nat>
    requires i <= |steps| < |states|
  {
    if i == 0 then
      []
    else
      Asked(states, steps, x, i - 1) + (if Registers(states[i - 1], steps[i - 1], x) then [steps[i - 1].length] else [])
  }

  /** The lengths of what has been handed up, each time that something was. */
  ghost function Answered(states: seq<System>, steps: seq<Step>, x: int, i: nat): seq<int>
    requires i <= |steps| < |states|
  {
    if i == 0 then
      []
    else
      Answered(states, steps, x, i - 1) +
      (if Out(states[i], x) != Out(states[i - 1], x) then [|Out(states[i], x)| - |Out(states[i - 1], x)|] else [])
  }

  // ----- One step ---------------------------------------------------------------------------------

  lemma RecordInRange(s: System, x: int)
    requires Inv(s) && x in s.server.accepted
    ensures InRange(s.server.accepted[x])
  {
    InvSessions(s);
    hide Inv;
    var r := s.server.accepted[x];
    SessionsParts(s);
    assert Record(s.server, x) == Some(r);
    assert KnownSession(s.client.socks, x);
    var fd :| fd in s.client.socks && s.client.socks[fd].session == x;
    assert SessionOk(fd, s.client.socks, s.client.toTroll, s.server, s.sent, s.split);
    ReceiverInRange(x, r, s.sent[fd], x in s.split);
  }

  ghost predicate Same(s: System, t: System, x: int) {
    Out(t, x) == Out(s, x) && Open(t, x) == Open(s, x)
  }

  lemma InvOneRecord(s: System)
    requires Inv(s)
    ensures OneRecord(s.server)
  {
    InvSessions(s);
    SessionsParts(s);
  }

  lemma DataSame(s: Server, fd: int, datagram: Datagram, x: int)
    requires OneRecord(s)
    ensures var before, after := Record(s, x), Record(RecvDataAt(s, fd, datagram), x);
            OutOf(after) == OutOf(before) && OpenOf(after) == OpenOf(before)
  {
    hide OneRecord, Record, Place, OpenData, RecvDataAt;
    if OpenData(datagram).Some? {
      RecvDataRecord(s, fd, datagram, x);
      var p := OpenData(datagram).value;
      PlaceLeavesOpen(if Record(s, x).Some? then Record(s, x).value else NewSession(fd, p.session), p);
    } else {
      GarbledLeaves(s, fd, datagram);
    }
  }

  lemma GarbledLeaves(s: Server, fd: int, datagram: Datagram)
    requires OpenData(datagram) == None
    ensures RecvDataAt(s, fd, datagram) == s
  {}

  lemma PlaceLeavesOpen(r: Session, p: Package)
    ensures Place(r, p).out == r.out && Place(r, p).receivingLength == r.receivingLength
  {}

  lemma AcceptSame(s: System, x: int)
    requires Inv(s)
    ensures Same(s, After(s, AcceptStep), x)
  {
    InvOneRecord(s);
    hide Inv, OneRecord, Record, AcceptBack, Left, Waits, Accepting;
    AcceptBackMoves(s.server, x);
  }

  /** A drain hands up what was asked for, or nothing. */
  lemma DrainServes(s: System, x: int)
    requires Inv(s) && Enabled(s, DrainStep)
    ensures var t := After(s, DrainStep);
            || Same(s, t, x)
            || (Open(s, x) != [] && Open(t, x) == [] && Out(s, x) < Out(t, x)
                && |Out(t, x)| == |Out(s, x)| + Open(s, x)[0])
  {
    hide Inv, OneRecord, Record, Drain, Splits, RecvBack, InRange;
    DrainRecord(s.server, x);
    if x in s.server.accepted {
      RecordInRange(s, x);
      AnswersOrNot(s.server.accepted[x]);
    }
  }

  lemma DrainRecord(s: Server, x: int)
    ensures x !in s.accepted ==> Record(RecvBack(s), x) == Record(s, x)
    ensures x in s.accepted ==>
              Record(s, x) == Some(s.accepted[x]) && Record(RecvBack(s), x) == Some(Drain(s.accepted[x]))
  {
    hide Drain;
  }

  lemma AnswersOrNot(r: Session)
    requires InRange(r)
    ensures var before, after := Some(r), Some(Drain(r));
            || (OutOf(after) == OutOf(before) && OpenOf(after) == OpenOf(before))
            || (OpenOf(before) != [] && OpenOf(after) == [] && OutOf(before) < OutOf(after)
                && |OutOf(after)| == |OutOf(before)| + OpenOf(before)[0])
  {
    hide Drain;
    if r.receivingLength > 0 {
      DrainAnswers(r);
    } else {
      NoRequest(r);
    }
  }

  lemma NoRequest(r: Session)
    requires r.receivingLength == 0
    ensures Drain(r) == r
  {}

  lemma AskOpens(s: System, session: int, length: nat, x: int)
    requires Inv(s)
    ensures var step := RecvStep(session, length); var t := After(s, step);
            && Out(t, x) == Out(s, x)
            && (if Registers(s, step, x) then Open(s, x) == [] && Open(t, x) == [length] else Open(t, x) == Open(s, x))
  {
    InvOneRecord(s);
    hide Inv, OneRecord;
    AskRecord(s.server, session, length, x);
    hide Record, RecvCall;
  }

  lemma AskRecord(s: Server, session: int, length: nat, x: int)
    requires OneRecord(s)
    ensures Record(RecvCall(s, session, length), x) ==
              if session == x && length > 0 && x in s.accepted && s.accepted[x].receivingLength == 0 then
                Some(s.accepted[x].(receivingLength := length))
              else
                Record(s, x)
    ensures x in s.accepted ==> Record(s, x) == Some(s.accepted[x])
  {
    if RecvReply(s, session, length) == None {
      AcceptedChange(s, RecvCall(s, session, length));
    }
  }

  lemma BoundSame(s: Server, bound: seq<Bound>, x: int)
    ensures Record(s.(bound := bound), x) == Record(s, x)
  {}

  lemma StepAnswers(s: System, step: Step, x: int)
    requires Inv(s) && Enabled(s, step)
    ensures var t := After(s, step);
            if Registers(s, step, x) then
              Open(s, x) == [] && Open(t, x) == [step.length] && Out(t, x) == Out(s, x)
            else
              || Same(s, t, x)
              || (step == DrainStep && Open(s, x) != [] && Open(t, x) == [] && Out(s, x) < Out(t, x)
                  && |Out(t, x)| == |Out(s, x)| + Open(s, x)[0])
  {
    hide Inv, OneRecord, Record, RecvDataAt, OpenData, OpenAck, IsBound;
    match step {
      case DataStep(fd, datagram) =>
        InvOneRecord(s);
        DataSame(s.server, fd, datagram, x);
      case AcceptStep => AcceptSame(s, x);
      case DrainStep => DrainServes(s, x);
      case RecvStep(session, length) => AskOpens(s, session, length, x);
      case BindStep(fd) => BoundSame(s.server, After(s, step).server.bound, x);
      case AcceptCallStep(k) => BoundSame(s.server, After(s, step).server.bound, x);
      case _ =>
    }
  }

  // ----- Runs -------------------------------------------------------------------------------------

  /** What has been handed up never changes, and grows by exactly the lengths that were asked for,
      one request after the other; the last one asked for may still be waiting. */
  lemma {:induction false} AnswersAreWhole(states: seq<System>, steps: seq<Step>, x: int, i: nat)
    requires IsRun(states, steps) && i < |states|
    ensures Asked(states, steps, x, i) == Answered(states, steps, x, i) + Open(states[i], x)
    ensures i > 0 ==> Out(states[i - 1], x) <= Out(states[i], x)
  {
    hide Inv, Enabled, After, Init, Out, Open, Registers;
    if i == 0 {
      NothingAsked(states[0], x);
    } else {
      AnswersAreWhole(states, steps, x, i - 1);
      RunInv(states, steps, i - 1);
      StepAnswers(states[i - 1], steps[i - 1], x);
      AtMostOne(states[i - 1], x);
      var answered, open := Answered(states, steps, x, i - 1), Open(states[i - 1], x);
      if Registers(states[i - 1], steps[i - 1], x) {
        assert answered + open == answered;
      } else if open != [] {
        assert open == [open[0]];
        assert answered + [open[0]] + [] == answered + open;
      }
    }
  }

  lemma AtMostOne(s: System, x: int)
    ensures |Open(s, x)| <= 1 && forall n :: n in Open(s, x) ==> n > 0
  {}

  lemma NothingAsked(s: System, x: int)
    requires Init(s)
    ensures Open(s, x) == [] && Out(s, x) == []
  {}

  /** The bytes of the stream that can be handed up without a gap. */
  function AtHand(r: Session): nat {
    |r.buffer| + Total(r.packages, Ready(r.packages, r.base))
  }

  /** A drain that does not split answers a request if and only if enough is at hand, and then with
      the next bytes of the stream. */
  lemma AnsweredWhenReady(states: seq<System>, steps: seq<Step>, x: int, i: nat)
    requires IsRun(states, steps) && i < |steps| && steps[i] == DrainStep && x in states[i].server.accepted
    requires Open(states[i], x) != [] && !SplitsAt(states[i], DrainStep, x)
    ensures var r, length := states[i].server.accepted[x], states[i].server.accepted[x].receivingLength;
            var stream := r.buffer + Flat(r.packages);
            if AtHand(r) >= length then
              && |stream| >= length && Open(states[i + 1], x) == []
              && Out(states[i + 1], x) == Out(states[i], x) + stream[..length]
            else
              Open(states[i + 1], x) == Open(states[i], x) && Out(states[i + 1], x) == Out(states[i], x)
  {
    hide Inv, Drain, OnBoundary, Total, Ready, Flat;
    RunInv(states, steps, i);
    RecordInRange(states[i], x);
    var r := states[i].server.accepted[x];
    assert After(states[i], DrainStep).server.accepted[x] == Drain(r);
    DrainAnswers(r);
    DrainAnswersIff(r);
  }
}
