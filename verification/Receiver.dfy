/** The receiving half of final/tcpd.c: one session's reassembly list and receive buffer. */
module Receiver {
  import opened Bytes
  import opened Wire

  // ----- What the handlers do to one session -----------------------------------------------------

  /** `buffer` is the filled part of RecvBuffer, `out` all that was handed to the receiving process. */
  datatype Session = Session(
    socketFd: int,
    session: nat,
    base: nat,
    packages: seq<Package>,
    receivingLength: nat,
    buffer: seq<Byte>,
    out: seq<Byte>)

  function NewSession(socketFd: int, session: nat): Session {
    Session(socketFd, session, 0, [], 0, [], [])
  }

  /** Where the walk over the list stops: the first package numbered `seqNum` or higher. */
  function Slot(list: seq<Package>, seqNum: nat): (l: nat)
    ensures l <= |list|
    ensures forall i :: 0 <= i < l ==> list[i].seqNum < seqNum
    ensures l < |list| ==> list[l].seqNum >= seqNum
  {
    if list == [] || list[0].seqNum >= seqNum then 0 else 1 + Slot(list[1..], seqNum)
  }

  function Place(r: Session, p: Package): Session {
    var l := Slot(r.packages, p.seqNum);
    if r.base > p.seqNum || (l < |r.packages| && r.packages[l].seqNum == p.seqNum) then
      r
    else
      r.(packages := InsertAt(r.packages, l, p))
  }

  /** The loop of the drain goes on: room left, and the next package in order is here. */
  predicate Draining(r: Session) {
    |r.buffer| < r.receivingLength && r.packages != [] && r.packages[0].seqNum == r.base
  }

  /** The first package fits into what is left of the request. */
  predicate Whole(r: Session)
    requires Draining(r)
  {
    |r.buffer| + |r.packages[0].body| <= r.receivingLength
  }

  /** One turn of the loop.  A package that does not fit loses its first bytes: they are
      copied behind the filled part of the buffer, but the fill count stays as it is. */
  function Take(r: Session): Session
    requires Draining(r)
  {
    var head := r.packages[0];
    if Whole(r) then
      r.(buffer := r.buffer + head.body, packages := r.packages[1..], base := (r.base + 1) % WORD)
    else
      var remain := r.receivingLength - |r.buffer|;
      r.(packages := [head.(body := head.body[remain..])] + r.packages[1..])
  }

  function HeadLength(list: seq<Package>): nat {
    if list == [] then 0 else |list[0].body|
  }

  function DrainLoop(r: Session): Session
    decreases |r.packages|, HeadLength(r.packages)
  {
    if Draining(r) then DrainLoop(Take(r)) else r
  }

  /** A request that is filled is answered with the buffer. */
  function Answer(r: Session): Session {
    if |r.buffer| == r.receivingLength then
      r.(out := r.out + r.buffer, buffer := [], receivingLength := 0)
    else
      r
  }

  function Drain(r: Session): Session {
    if r.receivingLength == 0 then r else Answer(DrainLoop(r))
  }

  /** The loop stops when nothing more can be taken, and leaves alone what is not its own. */
  lemma {:induction false} DrainLoopLeaves(r: Session)
    ensures var r' := DrainLoop(r);
            && r'.session == r.session && r'.socketFd == r.socketFd
            && r'.receivingLength == r.receivingLength && r'.out == r.out
            && !Draining(r')
    decreases |r.packages|, HeadLength(r.packages)
  {
    if !Draining(r) {
    } else {
      DrainLoopLeaves(Take(r));
    }
  }

  // ----- Reassembly ------------------------------------------------------------------------------

  ghost predicate Ascending(list: seq<Package>) {
    forall i, j :: 0 <= i < j < |list| ==> list[i].seqNum < list[j].seqNum
  }

  /** The list is strictly ascending and starts at or above Base. */
  ghost predicate Sorted(r: Session) {
    && Ascending(r.packages)
    && forall i :: 0 <= i < |r.packages| ==> r.base <= r.packages[i].seqNum
  }

  /** The session has consumed or holds the package with this number. */
  ghost predicate Got(r: Session, n: nat) {
    n < r.base || Holds(r.packages, n)
  }

  ghost predicate Holds(list: seq<Package>, n: nat) {
    exists i :: 0 <= i < |list| && list[i].seqNum == n
  }

  function InsertAt(list: seq<Package>, l: nat, p: Package): (list': seq<Package>)
    requires l <= |list|
    ensures |list'| == |list| + 1
    ensures forall i :: 0 <= i < |list'| ==> list'[i] == if i < l then list[i] else if i == l then p else list[i - 1]
  {
    list[..l] + [p] + list[l..]
  }

  lemma InsertAscending(list: seq<Package>, l: nat, p: Package)
    requires Ascending(list) && l <= |list|
    requires forall i :: 0 <= i < l ==> list[i].seqNum < p.seqNum
    requires l < |list| ==> p.seqNum < list[l].seqNum
    ensures Ascending(InsertAt(list, l, p))
  {
    var list' := InsertAt(list, l, p);
    forall i, j | 0 <= i < j < |list'|
      ensures list'[i].seqNum < list'[j].seqNum
    {
      if i == l && j > l + 1 {
        assert list[l].seqNum < list[j - 1].seqNum;
      }
    }
  }

  lemma InsertHolds(list: seq<Package>, l: nat, p: Package, n: nat)
    requires l <= |list|
    ensures Holds(InsertAt(list, l, p), n) <==> Holds(list, n) || n == p.seqNum
  {
    var list' := InsertAt(list, l, p);
    assert list'[l] == p;
    if Holds(list, n) {
      var i :| 0 <= i < |list| && list[i].seqNum == n;
      assert list'[if i < l then i else i + 1] == list[i];
    }
    if Holds(list', n) && n != p.seqNum {
      var i :| 0 <= i < |list'| && list'[i].seqNum == n;
      assert list'[i] == list[if i < l then i else i - 1];
    }
  }

  /** Order and duplicates do not matter: exactly one number is added to what was received. */
  lemma PlaceAddsOne(r: Session, p: Package)
    requires Sorted(r)
    ensures Sorted(Place(r, p))
    ensures forall n: nat :: Got(Place(r, p), n) <==> Got(r, n) || n == p.seqNum
    ensures forall q :: q in Place(r, p).packages ==> q == p || q in r.packages
    ensures forall q :: q in r.packages ==> q in Place(r, p).packages
  {
    var l := Slot(r.packages, p.seqNum);
    if r.base > p.seqNum {
    } else if l < |r.packages| && r.packages[l].seqNum == p.seqNum {
      assert Holds(r.packages, p.seqNum);
    } else {
      hide InsertAt;
      InsertAscending(r.packages, l, p);
      forall n: nat
        ensures Holds(InsertAt(r.packages, l, p), n) <==> Holds(r.packages, n) || n == p.seqNum
      {
        InsertHolds(r.packages, l, p, n);
      }
    }
  }

  // ----- What a drain delivers -------------------------------------------------------------------

  function Flat(list: seq<Package>): seq<Byte> {
    if list == [] then [] else list[0].body + Flat(list[1..])
  }

  function Total(list: seq<Package>, k: nat): nat
    requires k <= |list|
  {
    if k == 0 then 0 else |list[0].body| + Total(list[1..], k - 1)
  }

  /** How many packages can be consumed one after the other, starting from number `base`. */
  function Ready(list: seq<Package>, base: nat): (n: nat)
    ensures n <= |list|
  {
    if list == [] || list[0].seqNum != base then 0 else 1 + Ready(list[1..], base + 1)
  }

  /** No ready package straddles the end of the request: the request ends where a package ends,
      or reaches beyond what is ready. */
  ghost predicate OnBoundary(list: seq<Package>, base: nat, want: int) {
    forall k :: 0 <= k < Ready(list, base) ==> !(Total(list, k) < want < Total(list, k + 1))
  }

  function Want(r: Session): int {
    r.receivingLength - |r.buffer|
  }

  ghost predicate InRange(r: Session) {
    |r.buffer| <= r.receivingLength && r.base + |r.packages| < WORD
  }

  /** The first `c` packages have been consumed, in order, and nothing else happened to the list. */
  ghost predicate Consumed(r: Session, r': Session, c: nat) {
    && c <= |r.packages|
    && r'.packages == r.packages[c..]
    && r'.base == r.base + c
    && (forall i :: 0 <= i < c ==> r.packages[i].seqNum == r.base + i)
    && (r'.session, r'.receivingLength, r'.out) == (r.session, r.receivingLength, r.out)
    && |r'.buffer| <= r.receivingLength
  }

  lemma BoundaryStep(list: seq<Package>, base: nat, want: int)
    requires list != [] && list[0].seqNum == base && |list[0].body| <= want
    ensures OnBoundary(list, base, want) <==> OnBoundary(list[1..], base + 1, want - |list[0].body|)
  {
    var rest, d := list[1..], |list[0].body|;
    if OnBoundary(list, base, want) {
      forall k | 0 <= k < Ready(rest, base + 1)
        ensures !(Total(rest, k) < want - d < Total(rest, k + 1))
      {
        assert !(Total(list, k + 1) < want < Total(list, k + 2));
      }
    }
    if OnBoundary(rest, base + 1, want - d) {
      forall k | 0 <= k < Ready(list, base)
        ensures !(Total(list, k) < want < Total(list, k + 1))
      {
        if k > 0 {
          assert !(Total(rest, k - 1) < want - d < Total(rest, k));
        } else {
          assert Total(list, 1) == d + Total(rest, 0);
        }
      }
    }
  }

  /** The drain loop ends, consumes ready packages in order, and keeps every byte exactly when
      the request falls on a package boundary; otherwise it loses at least one. */
  lemma {:induction false} DrainLoopExact(r: Session) returns (c: nat)
    requires InRange(r)
    ensures Consumed(r, DrainLoop(r), c) && !Draining(DrainLoop(r))
    ensures Draining(r) ==> c >= 1
    ensures OnBoundary(r.packages, r.base, Want(r)) ==> DrainLoop(r).buffer == r.buffer + Flat(r.packages[..c])
    ensures !OnBoundary(r.packages, r.base, Want(r)) ==> |DrainLoop(r).buffer| < |r.buffer| + |Flat(r.packages[..c])|
    decreases |r.packages|, HeadLength(r.packages)
  {
    if !Draining(r) {
      c := 0;
      assert r.packages[..0] == [];
    } else if Whole(r) {
      c := DrainWhole(r);
    } else {
      c := DrainSplit(r);
    }
  }

  lemma {:induction false} DrainWhole(r: Session) returns (c: nat)
    requires InRange(r) && Draining(r) && Whole(r)
    ensures Consumed(r, DrainLoop(r), c) && !Draining(DrainLoop(r)) && c >= 1
    ensures OnBoundary(r.packages, r.base, Want(r)) ==> DrainLoop(r).buffer == r.buffer + Flat(r.packages[..c])
    ensures !OnBoundary(r.packages, r.base, Want(r)) ==> |DrainLoop(r).buffer| < |r.buffer| + |Flat(r.packages[..c])|
    decreases |r.packages|, HeadLength(r.packages), 0
  {
    hide OnBoundary, Consumed, Flat, DrainLoop;
    var r1 := Take(r);
    TakesHead(r);
    var m := DrainLoopExact(r1);
    c := m + 1;
    LoopTakes(r);
    BoundaryStep(r.packages, r.base, Want(r));
    ConsumedMore(r, DrainLoop(r), m);
    assert r.buffer + r.packages[0].body + Flat(r1.packages[..m]) ==
      r.buffer + (r.packages[0].body + Flat(r1.packages[..m]));
  }

  lemma TakesHead(r: Session)
    requires InRange(r) && Draining(r) && Whole(r)
    ensures var r1 := Take(r);
            && InRange(r1) && |r1.packages| < |r.packages|
            && r1.packages == r.packages[1..] && r1.base == r.base + 1
            && r1.buffer == r.buffer + r.packages[0].body && Want(r1) == Want(r) - |r.packages[0].body|
  {}

  lemma LoopTakes(r: Session)
    requires Draining(r)
    ensures DrainLoop(r) == DrainLoop(Take(r))
  {}

  lemma ConsumedMore(r: Session, r': Session, m: nat)
    requires InRange(r) && Draining(r) && Whole(r) && Consumed(Take(r), r', m)
    ensures Consumed(r, r', m + 1)
    ensures Flat(r.packages[..m + 1]) == r.packages[0].body + Flat(Take(r).packages[..m])
  {
    var r1 := Take(r);
    assert r.packages[..m + 1][1..] == r1.packages[..m];
    assert r1.packages[m..] == r.packages[m + 1..];
    forall i | 0 <= i < m + 1
      ensures r.packages[i].seqNum == r.base + i
    {
      if i > 0 {
        assert r.packages[i] == r1.packages[i - 1];
      }
    }
  }

  lemma {:induction false} DrainSplit(r: Session) returns (c: nat)
    requires InRange(r) && Draining(r) && !Whole(r)
    ensures Consumed(r, DrainLoop(r), c) && !Draining(DrainLoop(r)) && c >= 1
    ensures !OnBoundary(r.packages, r.base, Want(r))
    ensures |DrainLoop(r).buffer| < |r.buffer| + |Flat(r.packages[..c])|
    decreases |r.packages|, HeadLength(r.packages), 0
  {
    var head, r1 := r.packages[0], Take(r);
    c := DrainLoopExact(r1);
    assert r1.packages[1..] == r.packages[1..];
    assert r1.packages[..c][1..] == r.packages[..c][1..];
    assert r1.packages[c..] == r.packages[c..];
    assert Total(r.packages, 1) == |head.body| + Total(r.packages[1..], 0);
    assert Total(r.packages, 0) < Want(r) < Total(r.packages, 1);
    forall i | 0 <= i < c
      ensures r.packages[i].seqNum == r.base + i
    {
      assert r1.packages[i].seqNum == r.packages[i].seqNum;
    }
  }

  // ----- What a drain answers ----------------------------------------------------------------------

  lemma {:induction false} FlatPrefix(list: seq<Package>, c: nat)
    requires c <= |list|
    ensures Flat(list[..c]) <= Flat(list)
    decreases c
  {
    if c == 0 {
    } else {
      assert list[..c][1..] == list[1..][..c - 1];
      FlatPrefix(list[1..], c - 1);
    }
  }

  /** When the request ends where a package ends, the loop fills it if and only if so much is ready. */
  lemma {:induction false} LoopFills(r: Session)
    requires InRange(r) && OnBoundary(r.packages, r.base, Want(r))
    ensures |DrainLoop(r).buffer| == r.receivingLength <==>
              |r.buffer| + Total(r.packages, Ready(r.packages, r.base)) >= r.receivingLength
    decreases |r.packages|
  {
    if !Draining(r) {
    } else {
      HeadIsWhole(r);
      BoundaryStep(r.packages, r.base, Want(r));
      LoopFills(Take(r));
    }
  }

  lemma HeadIsWhole(r: Session)
    requires Draining(r) && OnBoundary(r.packages, r.base, Want(r))
    ensures Whole(r)
  {
    assert Total(r.packages, 1) == |r.packages[0].body| + Total(r.packages[1..], 0);
    assert !(Total(r.packages, 0) < Want(r) < Total(r.packages, 1));
  }

  /** A drain hands up exactly as much as was asked for, or nothing. */
  lemma DrainAnswers(r: Session)
    requires InRange(r) && r.receivingLength > 0
    ensures var r' := Drain(r);
            || (r'.out == r.out && r'.receivingLength == r.receivingLength && |r'.buffer| < r.receivingLength)
            || (r.out <= r'.out && |r'.out| == |r.out| + r.receivingLength
                && r'.receivingLength == 0 && r'.buffer == [])
  {
    var c := DrainLoopExact(r);
  }

  /** When the request ends where a package ends, it is answered as soon as what is ready reaches
      its end, with the bytes that are next in the stream. */
  lemma DrainAnswersIff(r: Session)
    requires InRange(r) && r.receivingLength > 0 && OnBoundary(r.packages, r.base, Want(r))
    ensures var r', stream := Drain(r), r.buffer + Flat(r.packages);
            && (r'.receivingLength == 0 <==>
                  |r.buffer| + Total(r.packages, Ready(r.packages, r.base)) >= r.receivingLength)
            && (r'.receivingLength == 0 ==>
                  |stream| >= r.receivingLength && r'.out == r.out + stream[..r.receivingLength])
  {
    LoopFills(r);
    var c := DrainLoopExact(r);
    FlatPrefix(r.packages, c);
    hide OnBoundary, DrainLoop, Flat, Total, Ready;
    var filled, stream := r.buffer + Flat(r.packages[..c]), r.buffer + Flat(r.packages);
    assert filled <= stream;
    if |filled| == r.receivingLength {
      assert stream[..r.receivingLength] == filled;
    }
  }

  /** What is left of a package that does not fit into the room a request has: the room is filled
      in vain as often as it can be, and only what remains then is kept. */
  lemma {:induction false} SplitKeepsTail(r: Session) returns (times: nat, kept: nat)
    requires Draining(r) && !Whole(r)
    ensures var head := r.packages[0];
            && times > 0 && 0 < kept <= Want(r) && |head.body| == times * Want(r) + kept
            && var tail := head.(body := head.body[|head.body| - kept..]);
               DrainLoop(r) == DrainLoop(r.(packages := [tail] + r.packages[1..]))
    decreases |r.packages[0].body|
  {
    var head, r1 := r.packages[0], Take(r);
    assert DrainLoop(r) == DrainLoop(r1);
    hide DrainLoop;
    assert r1.packages[1..] == r.packages[1..];
    if Whole(r1) {
      times, kept := 1, |head.body| - Want(r);
    } else {
      times, kept := SplitKeepsTail(r1);
      assert head.body[Want(r)..][|head.body| - Want(r) - kept..] == head.body[|head.body| - kept..];
      OnceMore(times, Want(r));
      times := times + 1;
    }
  }

  lemma OnceMore(n: nat, m: nat)
    ensures (n + 1) * m == n * m + m
  {}

  /** Asking for one byte of a package of two hands over the second one; the first is lost. */
  lemma SplitLosesFirstByte()
    ensures var r := Session(3, 1, 0, [Package(1, 0, [7, 8])], 1, [], []);
            Drain(r) == r.(base := 1, packages := [], receivingLength := 0, out := [8])
  {
    var r := Session(3, 1, 0, [Package(1, 0, [7, 8])], 1, [], []);
    var r1 := r.(packages := [Package(1, 0, [8])]);
    assert [7 as Byte, 8][1..] == [8];
    assert Take(r) == r1;
    var r2 := r1.(buffer := [8], packages := [], base := 1);
    assert r1.buffer + [8 as Byte] == [8];
    assert Take(r1) == r2;
    assert DrainLoop(r) == DrainLoop(r1) == DrainLoop(r2) == r2;
  }
}
