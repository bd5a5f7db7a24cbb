/** The sender's window of proj1/tcpd.c: a ring of ten slots with an acknowledgement bit each. */
module Window {
  const WINDOW_SIZE := 10

  // ----- The window as a queue -------------------------------------------------------------------

  datatype Entry = Entry(seqNum: nat, acked: bool)

  /** The first entry with this number, or the length of the queue. */
  function Find(q: seq<Entry>, seqNum: nat): (i: nat)
    ensures i <= |q|
    ensures i < |q| ==> q[i].seqNum == seqNum
    ensures forall j :: 0 <= j < i ==> q[j].seqNum != seqNum
  {
    if q == [] || q[0].seqNum == seqNum then 0 else 1 + Find(q[1..], seqNum)
  }

  /** The marking loop: from a full window it runs zero times. */
  function Mark(q: seq<Entry>, seqNum: nat): (q': seq<Entry>)
    ensures |q'| == |q|
  {
    var i := Find(q, seqNum);
    if i < |q| < WINDOW_SIZE then q[i := q[i].(acked := true)] else q
  }

  /** How many entries the sliding loop lets go: all up to the first that is not acknowledged. */
  function Prefix(q: seq<Entry>): (n: nat)
    ensures n <= |q|
    ensures forall j :: 0 <= j < n ==> q[j].acked
    ensures n < |q| ==> !q[n].acked
  {
    if q == [] || !q[0].acked then 0 else 1 + Prefix(q[1..])
  }

  function Acknowledged(q: seq<Entry>, seqNum: nat): (q': seq<Entry>)
    ensures |q'| <= |q|
  {
    var marked := Mark(q, seqNum);
    marked[Prefix(marked)..]
  }

  // ----- The ring --------------------------------------------------------------------------------

  function Inc(i: nat): (j: nat)
    ensures j < WINDOW_SIZE
  {
    (i + 1) % WINDOW_SIZE
  }

  /** The last of `count` slots behind `lastAck`. */
  function Last(lastAck: nat, count: nat): (i: nat)
    ensures i < WINDOW_SIZE
  {
    (lastAck + count) % WINDOW_SIZE
  }

  /** Slot k of the window whose last acknowledged slot is `lastAck`. */
  function Slot(lastAck: nat, k: nat): (i: nat)
    ensures i < WINDOW_SIZE
  {
    (lastAck + 1 + k) % WINDOW_SIZE
  }

  function Entries(numbers: seq<nat>, bits: seq<int>, lastAck: nat, count: nat): (q: seq<Entry>)
    requires |numbers| == |bits| == WINDOW_SIZE
    ensures |q| == count
    ensures forall k :: 0 <= k < count ==> q[k] == Entry(numbers[Slot(lastAck, k)], bits[Slot(lastAck, k)] == 1)
  {
    seq(count, k requires 0 <= k => Entry(numbers[Slot(lastAck, k)], bits[Slot(lastAck, k)] == 1))
  }

  lemma SlotsDiffer(lastAck: nat, j: nat, k: nat)
    requires j < k < WINDOW_SIZE
    ensures Slot(lastAck, j) != Slot(lastAck, k)
  {}

  lemma SlotMoves(lastAck: nat, j: nat, k: nat)
    ensures Slot(Slot(lastAck, j), k) == Slot(lastAck, j + 1 + k)
    ensures Inc(Slot(lastAck, j)) == Slot(lastAck, j + 1) < WINDOW_SIZE
    ensures Inc(lastAck) == Slot(lastAck, 0) < WINDOW_SIZE
  {}

  lemma Wrapped(n: nat)
    requires n < 2 * WINDOW_SIZE + 2
    ensures n < WINDOW_SIZE ==> n % WINDOW_SIZE == n
    ensures WINDOW_SIZE <= n < 2 * WINDOW_SIZE ==> n % WINDOW_SIZE == n - WINDOW_SIZE
    ensures 2 * WINDOW_SIZE <= n ==> n % WINDOW_SIZE == n - 2 * WINDOW_SIZE
  {}

  lemma LastMoves(lastAck: nat, count: nat)
    requires lastAck < WINDOW_SIZE && count <= WINDOW_SIZE
    ensures Inc(Last(lastAck, count)) == Last(lastAck, count + 1) == Slot(lastAck, count) < WINDOW_SIZE
    ensures count > 0 ==> Last(Inc(lastAck), count - 1) == Last(lastAck, count)
  {
    Wrapped(lastAck + count);
    Wrapped(lastAck + count + 1);
    Wrapped(lastAck + 1);
    Wrapped(Last(lastAck, count) + 1);
    Wrapped(count);
    assert lastAck + 1 + count == lastAck + count + 1;
  }

  /** Setting the bit of slot k marks entry k. */
  lemma EntryMarked(numbers: seq<nat>, bits: seq<int>, lastAck: nat, count: nat, k: nat)
    requires |numbers| == |bits| == WINDOW_SIZE && k < count <= WINDOW_SIZE
    ensures var q := Entries(numbers, bits, lastAck, count);
            Entries(numbers, bits[Slot(lastAck, k) := 1], lastAck, count) == q[k := q[k].(acked := true)]
  {
    forall j | 0 <= j < count && j != k
      ensures Slot(lastAck, j) != Slot(lastAck, k)
    {
      SlotsDiffer(lastAck, if j < k then j else k, if j < k then k else j);
    }
    hide Slot;
  }

  /** Filling the slot behind the last one appends an entry. */
  lemma EntryAdded(numbers: seq<nat>, bits: seq<int>, lastAck: nat, count: nat, seqNum: nat)
    requires |numbers| == |bits| == WINDOW_SIZE && count < WINDOW_SIZE
    ensures var i := Slot(lastAck, count);
            Entries(numbers[i := seqNum], bits[i := 0], lastAck, count + 1) ==
              Entries(numbers, bits, lastAck, count) + [Entry(seqNum, false)]
  {
    forall k | 0 <= k < count
      ensures Slot(lastAck, k) != Slot(lastAck, count)
    {
      SlotsDiffer(lastAck, k, count);
    }
    hide Slot;
  }

  /** Moving last_ack on by one slot lets the first entry go. */
  lemma EntryGone(numbers: seq<nat>, bits: seq<int>, lastAck: nat, count: nat)
    requires |numbers| == |bits| == WINDOW_SIZE && 0 < count
    ensures Entries(numbers, bits, Slot(lastAck, 0), count - 1) == Entries(numbers, bits, lastAck, count)[1..]
  {
    forall k: nat
      ensures Slot(Slot(lastAck, 0), k) == Slot(lastAck, 1 + k)
    {
      SlotMoves(lastAck, 0, k);
    }
    hide Slot;
  }

  /** The marking loop stops at the slot after last_send: at once if the window is full. */
  lemma SlotAfterLast(lastAck: nat, count: nat, k: nat)
    requires lastAck < WINDOW_SIZE && k <= count <= WINDOW_SIZE
    ensures Slot(lastAck, k) == Inc(Last(lastAck, count)) <==> k == count || (k == 0 && count == WINDOW_SIZE)
  {}

  lemma EntryAt(numbers: seq<nat>, bits: seq<int>, lastAck: nat, count: nat, k: nat)
    requires |numbers| == |bits| == WINDOW_SIZE && k < count
    ensures Entries(numbers, bits, lastAck, count)[k] == Entry(numbers[Slot(lastAck, k)], bits[Slot(lastAck, k)] == 1)
    ensures |Entries(numbers, bits, lastAck, count)| == count && Slot(lastAck, k) < WINDOW_SIZE
  {}

  lemma FindIs(q: seq<Entry>, seqNum: nat, k: nat)
    requires k <= |q| && (forall j :: 0 <= j < k ==> q[j].seqNum != seqNum)
    requires k < |q| ==> q[k].seqNum == seqNum
    ensures Find(q, seqNum) == k
  {}

  class MyWindow {
    var lastAck: nat
    var lastSend: nat
    var numEmpty: nat
    const trollHeaders: array<nat>
    const ackBitmap: array<int>

    ghost predicate Valid()
      reads this
    {
      && trollHeaders.Length == ackBitmap.Length == WINDOW_SIZE
      && lastAck < WINDOW_SIZE && numEmpty <= WINDOW_SIZE
      && lastSend == Last(lastAck, WINDOW_SIZE - numEmpty)
    }

    /** Only the slots between last_ack and last_send count; the others are never read. */
    ghost function Contents(): (q: seq<Entry>)
      requires Valid()
      reads this, trollHeaders, ackBitmap
      ensures |q| == WINDOW_SIZE - numEmpty
    {
      Entries(trollHeaders[..], ackBitmap[..], lastAck, WINDOW_SIZE - numEmpty)
    }

    /** window_init leaves the slots as they are, whatever they hold. */
    constructor (numbers: array<nat>, bits: array<int>)
      requires numbers.Length == bits.Length == WINDOW_SIZE
      ensures Valid() && Contents() == []
      ensures trollHeaders == numbers && ackBitmap == bits
    {
      trollHeaders, ackBitmap := numbers, bits;
      lastAck := 0;
      lastSend := 0;
      numEmpty := WINDOW_SIZE;
    }

    method WindowFull() returns (full: bool)
      requires Valid()
      ensures full <==> |Contents()| == WINDOW_SIZE
    {
      full := numEmpty == 0;
    }

    method SavePacket(seqNum: nat)
      requires Valid() && |Contents()| < WINDOW_SIZE
      modifies this, trollHeaders, ackBitmap
      ensures Valid() && Contents() == old(Contents()) + [Entry(seqNum, false)]
    {
      hide Inc, Last, Slot, Entries;
      ghost var count := WINDOW_SIZE - numEmpty;
      LastMoves(lastAck, count);
      var nextIndex := Inc(lastSend);
      EntryAdded(trollHeaders[..], ackBitmap[..], lastAck, count, seqNum);
      ackBitmap[nextIndex] := 0;
      trollHeaders[nextIndex] := seqNum;
      lastSend := nextIndex;
      numEmpty := numEmpty - 1;
      assert ackBitmap[..] == old(ackBitmap[..])[nextIndex := 0];
      assert trollHeaders[..] == old(trollHeaders[..])[nextIndex := seqNum];
    }

    /** A packet from the local process: let in, or turned away when the window is full. */
    method LocalPacket(seqNum: nat) returns (sent: bool)
      requires Valid()
      modifies this, trollHeaders, ackBitmap
      ensures Valid() && (sent <==> |old(Contents())| < WINDOW_SIZE)
      ensures Contents() == if sent then old(Contents()) + [Entry(seqNum, false)] else old(Contents())
    {
      var full := WindowFull();
      if full {
        return false;
      }
      SavePacket(seqNum);
      return true;
    }

    /** The two loops that handle an acknowledgement. */
    method ReceiveAck(seqNum: nat)
      requires Valid()
      modifies this, ackBitmap
      ensures Valid() && Contents() == Acknowledged(old(Contents()), seqNum)
    {
      MarkAck(seqNum);
      SlideAcked();
    }

    method MarkAck(seqNum: nat)
      requires Valid()
      modifies ackBitmap
      ensures Valid() && Contents() == Mark(old(Contents()), seqNum)
    {
      hide Inc, Last, Slot, Find, Entries;
      ghost var q, count := Contents(), WINDOW_SIZE - numEmpty;
      var i := Inc(lastAck);
      ghost var k := 0;
      SlotMoves(lastAck, 0, 0);
      SlotAfterLast(lastAck, count, 0);
      while i != Inc(lastSend)
        invariant k <= count && i == Slot(lastAck, k)
        invariant k > 0 ==> count < WINDOW_SIZE
        invariant forall j :: 0 <= j < k ==> q[j].seqNum != seqNum
        invariant ackBitmap[..] == old(ackBitmap[..])
        decreases count - k
      {
        SlotAfterLast(lastAck, count, k);
        EntryAt(trollHeaders[..], ackBitmap[..], lastAck, count, k);
        if seqNum == trollHeaders[i] {
          EntryMarked(trollHeaders[..], ackBitmap[..], lastAck, count, k);
          FindIs(q, seqNum, k);
          ackBitmap[i] := 1;
          assert ackBitmap[..] == old(ackBitmap[..])[i := 1];
          return;
        }
        SlotMoves(lastAck, k, 0);
        i := Inc(i);
        k := k + 1;
      }
      SlotAfterLast(lastAck, count, k);
      if count < WINDOW_SIZE {
        FindIs(q, seqNum, count);
      }
    }

    method SlideAcked()
      requires Valid()
      modifies this
      ensures Valid() && Contents() == old(Contents())[Prefix(old(Contents()))..]
    {
      hide Inc, Last, Slot, Entries;
      ghost var q := Contents();
      var cnt := WINDOW_SIZE - numEmpty;
      var i := Inc(lastAck);
      SlotMoves(lastAck, 0, 0);
      while cnt > 0
        invariant Valid()
        invariant 0 <= cnt == WINDOW_SIZE - numEmpty && i == Slot(lastAck, 0)
        invariant Contents()[Prefix(Contents())..] == q[Prefix(q)..]
      {
        ghost var first := Contents();
        EntryAt(trollHeaders[..], ackBitmap[..], lastAck, cnt, 0);
        if ackBitmap[i] == 1 {
          EntryGone(trollHeaders[..], ackBitmap[..], lastAck, cnt);
          SlotMoves(lastAck, 0, 0);
          LastMoves(lastAck, cnt);
          lastAck := Inc(lastAck);
          numEmpty := numEmpty + 1;
          assert Contents() == first[1..];
          assert first[Prefix(first)..] == first[1..][Prefix(first[1..])..];
        } else {
          return;
        }
        SlotMoves(lastAck, 0, 0);
        i := Inc(i);
        cnt := cnt - 1;
      }
    }
  }

  // ----- What the window keeps -------------------------------------------------------------------

  /** In a window that is not full, an acknowledgement is recorded on the first entry with its
      number and nowhere else; in a full window it is recorded nowhere. */
  lemma MarkedExactly(q: seq<Entry>, seqNum: nat, k: nat)
    requires k < |q| <= WINDOW_SIZE
    ensures Mark(q, seqNum)[k] ==
              if |q| < WINDOW_SIZE && q[k].seqNum == seqNum && (forall j :: 0 <= j < k ==> q[j].seqNum != seqNum)
              then Entry(seqNum, true)
              else q[k]
  {}

  datatype Event = Send(seqNum: nat) | AckArrives(seqNum: nat)

  /** `sent` holds the numbers of all packets let in so far; a packet that finds the window full
      is turned away. */
  datatype State = State(q: seq<Entry>, sent: seq<nat>)

  function After(s: State, e: Event): State {
    match e
    case Send(n) => if |s.q| < WINDOW_SIZE then State(s.q + [Entry(n, false)], s.sent + [n]) else s
    case AckArrives(n) => s.(q := Acknowledged(s.q, n))
  }

  function Run(events: seq<Event>): State {
    if events == [] then State([], []) else After(Run(events[..|events| - 1]), events[|events| - 1])
  }

  /** The first entry is never acknowledged, and the window holds the last packets sent, in order. */
  ghost predicate Inv(s: State) {
    && |s.q| <= WINDOW_SIZE && |s.q| <= |s.sent|
    && (s.q != [] ==> !s.q[0].acked)
    && forall k :: 0 <= k < |s.q| ==> s.q[k].seqNum == s.sent[|s.sent| - |s.q| + k]
  }

  lemma MarkNames(q: seq<Entry>, seqNum: nat, k: nat)
    requires k < |q|
    ensures |Mark(q, seqNum)| == |q| && Mark(q, seqNum)[k].seqNum == q[k].seqNum
    ensures Mark(q, seqNum)[k].acked ==> q[k].acked || q[k].seqNum == seqNum
  {}

  /** Handling an acknowledgement leaves an end of the queue that starts with an unacknowledged
      entry, and changes no number. */
  lemma AckKeepsEnd(q: seq<Entry>, seqNum: nat)
    ensures var q' := Acknowledged(q, seqNum);
            && |q'| <= |q|
            && (q' != [] ==> !q'[0].acked)
            && forall k :: 0 <= k < |q'| ==> q'[k].seqNum == q[|q| - |q'| + k].seqNum
  {
    hide Mark, Prefix;
    var marked := Mark(q, seqNum);
    PrefixEnds(marked);
    forall k | 0 <= k < |q|
      ensures |marked| == |q| && marked[k].seqNum == q[k].seqNum
    {
      MarkNames(q, seqNum, k);
    }
    if q == [] {
      MarkNothing(seqNum);
    }
  }

  lemma MarkNothing(seqNum: nat)
    ensures Mark([], seqNum) == []
  {}

  lemma AfterInv(s: State, e: Event)
    requires Inv(s)
    ensures Inv(After(s, e))
  {
    hide Acknowledged;
    if e.AckArrives? {
      AckKeepsEnd(s.q, e.seqNum);
    }
  }

  lemma PrefixEnds(q: seq<Entry>)
    ensures Prefix(q) <= |q| && (Prefix(q) < |q| ==> !q[Prefix(q)].acked)
    ensures forall j :: 0 <= j < Prefix(q) ==> q[j].acked
  {}

  lemma {:induction false} RunInv(events: seq<Event>)
    ensures Inv(Run(events))
  {
    hide Inv, After;
    if events == [] {
      StartInv();
    } else {
      RunInv(events[..|events| - 1]);
      AfterInv(Run(events[..|events| - 1]), events[|events| - 1]);
    }
  }

  lemma StartInv()
    ensures Inv(State([], []))
  {}

  /** Packet k of all those let in has left the window, or is marked in it. */
  ghost predicate Confirmed(s: State, k: nat) {
    && k < |s.sent|
    && |s.q| <= |s.sent|
    && (k < |s.sent| - |s.q| || s.q[k - (|s.sent| - |s.q|)].acked)
  }

  lemma ConfirmedBy(s: State, e: Event, k: nat)
    requires Inv(s) && Confirmed(After(s, e), k)
    ensures Confirmed(s, k) || (e.AckArrives? && k < |s.sent| && s.sent[k] == e.seqNum)
    ensures Confirmed(s, k) ==> k < |s.sent|
    ensures k < |s.sent| ==> After(s, e).sent[k] == s.sent[k]
  {
    if e.AckArrives? && !Confirmed(s, k) {
      var marked := Mark(s.q, e.seqNum);
      var gone := |s.sent| - |s.q|;
      PrefixEnds(marked);
      assert marked[k - gone].acked;
    }
  }

  /** A packet leaves the window, or is marked in it, only when an acknowledgement with its number
      has arrived. */
  lemma {:induction false} OnlyAckedLeave(events: seq<Event>, k: nat)
    requires Confirmed(Run(events), k)
    ensures AckArrives(Run(events).sent[k]) in events
  {
    hide Inv, After, Confirmed;
    if events == [] {
      NothingConfirmed(k);
    } else {
      var n := |events| - 1;
      var s := Run(events[..n]);
      RunInv(events[..n]);
      ConfirmedBy(s, events[n], k);
      if Confirmed(s, k) {
        OnlyAckedLeave(events[..n], k);
      }
    }
  }

  lemma NothingConfirmed(k: nat)
    ensures !Confirmed(State([], []), k)
  {}

  function Sends(numbers: seq<nat>): (events: seq<Event>)
    ensures |events| == |numbers|
  {
    seq(|numbers|, i requires 0 <= i < |numbers| => Send(numbers[i]))
  }

  lemma {:induction false} SendsFill(numbers: seq<nat>)
    requires |numbers| <= WINDOW_SIZE
    ensures |Run(Sends(numbers)).q| == |numbers|
  {
    if numbers == [] {
    } else {
      var n := |numbers| - 1;
      SendsFill(numbers[..n]);
      assert Sends(numbers)[..n] == Sends(numbers[..n]);
    }
  }

  /** Once ten packets are outstanding the window never moves again, whatever arrives. */
  lemma {:induction false} FullForever(events: seq<Event>, more: seq<Event>)
    requires |Run(events).q| == WINDOW_SIZE
    ensures Run(events + more) == Run(events)
  {
    if more == [] {
      assert events + more == events;
    } else {
      var n := |more| - 1;
      FullForever(events, more[..n]);
      assert (events + more)[..|events + more| - 1] == events + more[..n];
      RunInv(events);
    }
  }

  /** Ten packets in a row fill the window, whatever their numbers, and then none of them ever
      leaves it, whatever is acknowledged. */
  lemma TenSendsStick(numbers: seq<nat>, more: seq<Event>)
    requires |numbers| == 10
    ensures |Run(Sends(numbers) + more).q| == 10 && Run(Sends(numbers) + more) == Run(Sends(numbers))
  {
    SendsFill(numbers);
    FullForever(Sends(numbers), more);
  }

  // ----- A window that is not full ---------------------------------------------------------------

  ghost predicate Distinct(q: seq<Entry>) {
    forall i, j :: 0 <= i < j < |q| ==> q[i].seqNum != q[j].seqNum
  }

  function AfterAcks(q: seq<Entry>, acks: seq<nat>): seq<Entry> {
    if acks == [] then q else Acknowledged(AfterAcks(q, acks[..|acks| - 1]), acks[|acks| - 1])
  }

  /** Every entry whose number is among the acknowledgements is marked. */
  ghost function MarkAll(q: seq<Entry>, acks: seq<nat>): (m: seq<Entry>)
    ensures |m| == |q|
    ensures forall k :: 0 <= k < |q| ==> m[k] == Entry(q[k].seqNum, q[k].acked || q[k].seqNum in acks)
  {
    seq(|q|, k requires 0 <= k < |q| => Entry(q[k].seqNum, q[k].acked || q[k].seqNum in acks))
  }

  lemma {:induction false} PrefixSkips(q: seq<Entry>, n: nat)
    requires n <= |q| && forall j :: 0 <= j < n ==> q[j].acked
    ensures Prefix(q) == n + Prefix(q[n..])
    decreases n
  {
    if n == 0 {
      assert q[0..] == q;
    } else {
      PrefixSkips(q[1..], n - 1);
      assert q[1..][n - 1..] == q[n..];
    }
  }

  lemma MarkOneMore(q: seq<Entry>, acks: seq<nat>, seqNum: nat, n: nat)
    requires Distinct(q) && |q| < WINDOW_SIZE && n <= |q|
    ensures Mark(MarkAll(q, acks)[n..], seqNum) == MarkAll(q, acks + [seqNum])[n..]
  {
    var r := MarkAll(q, acks)[n..];
    var i := Find(r, seqNum);
    assert i < |r| ==> r[i] == MarkAll(q, acks)[n + i];
    assert i == |r| ==> forall j :: 0 <= j < |r| ==> q[n + j].seqNum == r[j].seqNum != seqNum;
  }

  /** While the window is not full, neither the order of acknowledgements nor repeated ones
      matter: the window lets go exactly the longest run of acknowledged entries at its front. */
  lemma {:induction false} AcksApplied(q: seq<Entry>, acks: seq<nat>)
    requires Distinct(q) && |q| < WINDOW_SIZE && (q != [] ==> !q[0].acked)
    ensures AfterAcks(q, acks) == MarkAll(q, acks)[Prefix(MarkAll(q, acks))..]
  {
    hide Mark, Prefix, MarkAll, Distinct;
    if acks == [] {
      NothingMarked(q);
    } else {
      var before, n := acks[..|acks| - 1], acks[|acks| - 1];
      AcksApplied(q, before);
      assert acks == before + [n];
      var m, m' := MarkAll(q, before), MarkAll(q, acks);
      var p := Prefix(m);
      PrefixEnds(m);
      PrefixEnds(m'[p..]);
      MarkOneMore(q, before, n, p);
      MarkedStay(q, before, n, p);
      PrefixSkips(m', p);
      assert m'[p..][Prefix(m'[p..])..] == m'[Prefix(m')..];
    }
  }

  lemma NothingMarked(q: seq<Entry>)
    requires q != [] ==> !q[0].acked
    ensures MarkAll(q, []) == q && Prefix(q) == 0
  {}

  lemma MarkedStay(q: seq<Entry>, acks: seq<nat>, seqNum: nat, n: nat)
    requires n <= |q| && forall j :: 0 <= j < n ==> MarkAll(q, acks)[j].acked
    ensures |MarkAll(q, acks)| == |MarkAll(q, acks + [seqNum])| == |q|
    ensures forall j :: 0 <= j < n ==> MarkAll(q, acks + [seqNum])[j].acked
  {}

  /** When every outstanding packet has been acknowledged, the window is empty if and only if it
      was not full. */
  lemma EmptiesIffNotFull(q: seq<Entry>, acks: seq<nat>)
    requires Distinct(q) && |q| <= WINDOW_SIZE && (q != [] ==> !q[0].acked)
    requires forall k :: 0 <= k < |q| ==> q[k].seqNum in acks
    ensures AfterAcks(q, acks) == [] <==> |q| < WINDOW_SIZE
  {
    if |q| < WINDOW_SIZE {
      AcksApplied(q, acks);
      PrefixEnds(MarkAll(q, acks));
    } else {
      FullIgnores(q, acks);
    }
  }

  lemma {:induction false} FullIgnores(q: seq<Entry>, acks: seq<nat>)
    requires |q| == WINDOW_SIZE && !q[0].acked
    ensures AfterAcks(q, acks) == q
  {
    if acks == [] {
    } else {
      FullIgnores(q, acks[..|acks| - 1]);
    }
  }
}
