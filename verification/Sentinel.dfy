/** What the sentinel of final/tcpd.c costs: numbers that are never sent. */
module Sentinel {
  import opened Wire
  import opened Sender
  import opened Receiver
  import opened ServerTables
  import opened Conversation
  import opened Protocol
  import opened Buffering
  import opened Reliability
  import opened Retransmission
  import opened Paths

  /** The first number that no flush can send: the cut-off never lies above it. */
  const LIMIT := NO_MIN_SEQ + MAX_BUFFER_PACKAGES

  /** Only numbers below the limit have ever been sent or acknowledged. */
  ghost predicate Within(toTroll: seq<Package>, acks: seq<Ack>) {
    && (forall p :: p in toTroll ==> p.seqNum < LIMIT)
    && (forall a :: a in acks ==> a.seqNum < LIMIT)
  }

  lemma {:induction false} FlushWithin(c: Client, order: seq<int>, acks: seq<Ack>)
    requires Within(c.toTroll, acks) && forall i :: 0 <= i < |order| ==> order[i] in c.socks
    ensures Within(FlushInOrder(c, order).toTroll, acks)
  {
    hide ToSend, Starts, AfterSends, Flush;
    if order == [] {
    } else {
      var n := |order| - 1;
      var c1 := FlushInOrder(c, order[..n]);
      FlushWithin(c, order[..n], acks);
      SentWithin(c1.socks[order[n]]);
    }
  }

  lemma SentWithin(s: Sock)
    ensures forall p :: p in ToSend(s) ==> p.seqNum < LIMIT
  {
    MinSeqBounds(s.packages);
    forall p | p in ToSend(s)
      ensures p.seqNum < LIMIT
    {
      BelowMembers(s.pending, Limit(s), p);
    }
  }

  lemma StepWithin(s: System, step: Step)
    requires Within(s.client.toTroll, s.server.acks) && Enabled(s, step)
    ensures Within(After(s, step).client.toTroll, After(s, step).server.acks)
  {
    hide OpenData, OpenAck, FlushInOrder, AcceptBack, IsBound, FindWaiting, Place;
    match step {
      case FlushStep(order) => FlushWithin(s.client, order, s.server.acks);
      case AcceptStep => AcceptAcks(s.server, |s.server.bound|);
      case _ =>
    }
  }

  lemma {:induction false} RunWithin(states: seq<System>, steps: seq<Step>, i: nat)
    requires IsRun(states, steps) && i < |states|
    ensures Within(states[i].client.toTroll, states[i].server.acks)
  {
    hide Enabled, After, Within;
    if i == 0 {
      NothingWithin();
    } else {
      RunWithin(states, steps, i - 1);
      StepWithin(states[i - 1], steps[i - 1]);
    }
  }

  lemma NothingWithin()
    ensures Within([], [])
  {}

  /** Once more than LIMIT payloads have been accepted in a session, the one numbered LIMIT is
      never received, and stays buffered for ever. */
  lemma NeverReceived(states: seq<System>, steps: seq<Step>, i: nat, fd: int)
    requires IsRun(states, steps) && i < |states|
    requires fd in states[i].client.socks && states[i].client.socks[fd].base > LIMIT
    ensures !GotIt(RecordOf(states[i], fd), 100000064) && states[i].client.inBuffer > 0
  {
    hide IsRun, GotIt, RecordOf;
    var s := states[i];
    RunWithin(states, steps, i);
    AcknowledgedIsReceived(states, steps, i, fd, LIMIT);
    NothingLost(states, steps, i, fd, LIMIT);
    BufferBound(states, steps, i);
    SumTakes(s.client.socks, fd);
    SizeIsCardinality(s.client.socks[fd]);
  }

  // ----- Continuations keep what was accepted ----------------------------------------------------

  /** The sockets of s, with at least as much accepted. */
  ghost predicate Grown(s: System, t: System) {
    forall fd :: fd in s.client.socks ==>
      && fd in t.client.socks
      && t.client.socks[fd].session == s.client.socks[fd].session
      && s.client.socks[fd].base <= t.client.socks[fd].base
  }

  lemma {:induction false} FlushBases(c: Client, order: seq<int>, fd: int)
    requires (forall i :: 0 <= i < |order| ==> order[i] in c.socks) && fd in c.socks
    ensures FlushInOrder(c, order).socks[fd].base == c.socks[fd].base
    ensures FlushInOrder(c, order).socks[fd].session == c.socks[fd].session
  {
    if order == [] {
    } else {
      FlushBases(c, order[..|order| - 1], fd);
    }
  }

  lemma StepGrows(s: System, step: Step)
    requires Enabled(s, step)
    ensures Grown(s, After(s, step))
  {
    hide OpenData, OpenAck, FlushInOrder, Position;
    match step {
      case FlushStep(order) =>
        forall fd | fd in s.client.socks
          ensures FlushInOrder(s.client, order).socks[fd].base == s.client.socks[fd].base
          ensures FlushInOrder(s.client, order).socks[fd].session == s.client.socks[fd].session
        {
          FlushBases(s.client, order, fd);
        }
      case _ =>
    }
  }

  lemma {:induction false} PathGrows(s: System, steps: seq<Step>, t: System, rules: Rules)
    requires Path(s, steps, t, rules)
    ensures Grown(s, t)
    decreases |steps|
  {
    hide Enabled, After, Obeys;
    if steps == [] {
    } else {
      StepGrows(s, steps[0]);
      PathGrows(After(s, steps[0]), steps[1..], t, rules);
    }
  }
}
