/** The delta list of final/timer.c.  Every node stores its remaining time
    relative to its predecessor; `double` is modelled as `real`. */
module TimerList {
  import opened Options

  datatype Id = Id(session: int, seqNum: int)

  datatype Node = Node(id: Id, remain: real)

  datatype Request = Start(id: Id, seconds: real) | Cancel(id: Id)

  predicate Has(list: seq<Node>, id: Id) {
    exists i :: 0 <= i < |list| && list[i].id == id
  }

  function Ids(list: seq<Node>): seq<Id> {
    seq(|list|, i requires 0 <= i < |list| => list[i].id)
  }

  // ----- What each routine does to the list ------------------------------------------------------

  function InsertNode(list: seq<Node>, id: Id, seconds: real): seq<Node> {
    if list == [] then
      [Node(id, seconds)]
    else if seconds < list[0].remain then
      [Node(id, seconds), list[0].(remain := list[0].remain - seconds)] + list[1..]
    else
      [list[0]] + InsertNode(list[1..], id, seconds - list[0].remain)
  }

  /** A start request for an id that is already in the list is refused. */
  function Insert(list: seq<Node>, id: Id, seconds: real): seq<Node> {
    if Has(list, id) then list else InsertNode(list, id, seconds)
  }

  /** Passes remaining time on to the first node. */
  function Carry(list: seq<Node>, r: real): seq<Node> {
    if list == [] then [] else [list[0].(remain := list[0].remain + r)] + list[1..]
  }

  function Remove(list: seq<Node>, id: Id): seq<Node> {
    if list == [] then
      []
    else if list[0].id == id then
      Carry(list[1..], list[0].remain)
    else
      [list[0]] + Remove(list[1..], id)
  }

  function Settle(list: seq<Node>): seq<Node>
    decreases |list|
  {
    if list == [] || list[0].remain > 0.0 then
      list
    else
      [list[0].(remain := 0.0)] + Settle(Carry(list[1..], list[0].remain))
  }

  function Update(list: seq<Node>, elapsed: real): seq<Node> {
    Settle(Carry(list, -elapsed))
  }

  /** How many nodes SendCallbacks takes off the front. */
  function Expired(list: seq<Node>): (n: nat)
    ensures n <= |list|
  {
    if list == [] || list[0].remain > 0.0 then 0 else 1 + Expired(list[1..])
  }

  function Apply(list: seq<Node>, request: Option<Request>): seq<Node> {
    match request
    case None => list
    case Some(Start(id, seconds)) => Insert(list, id, seconds)
    case Some(Cancel(id)) => Remove(list, id)
  }

  lemma Assoc(a: seq<Node>, b: seq<Node>, c: seq<Node>)
    ensures (a + b) + c == a + (b + c)
  {}

  lemma Peel(list: seq<Node>, l: nat)
    requires l < |list|
    ensures list[l..] == [list[l]] + list[l + 1..] && list[l..][1..] == list[l + 1..]
    ensures list[..l + 1] == list[..l] + [list[l]]
  {}

  lemma InsertStep(list: seq<Node>, id: Id, seconds: real, l: nat, remain: real)
    requires l < |list| && remain >= list[l].remain
    requires InsertNode(list, id, seconds) == list[..l] + InsertNode(list[l..], id, remain)
    ensures InsertNode(list, id, seconds) == list[..l + 1] + InsertNode(list[l + 1..], id, remain - list[l].remain)
  {
    Peel(list, l);
    var after := InsertNode(list[l + 1..], id, remain - list[l].remain);
    assert InsertNode(list[l..], id, remain) == [list[l]] + after;
    hide InsertNode;
    Assoc(list[..l], [list[l]], after);
  }

  lemma InsertStop(list: seq<Node>, id: Id, seconds: real, l: nat, remain: real)
    requires l <= |list| && (l < |list| ==> remain < list[l].remain)
    requires InsertNode(list, id, seconds) == list[..l] + InsertNode(list[l..], id, remain)
    ensures InsertNode(list, id, seconds) == list[..l] + [Node(id, remain)] + Carry(list[l..], -remain)
  {
    InsertFirst(list[l..], id, remain);
    hide InsertNode, Carry;
    Assoc(list[..l], [Node(id, remain)], Carry(list[l..], -remain));
  }

  lemma InsertFirst(list: seq<Node>, id: Id, remain: real)
    requires list != [] ==> remain < list[0].remain
    ensures InsertNode(list, id, remain) == [Node(id, remain)] + Carry(list, -remain)
  {}

  /** One turn of the loop that settles expired nodes: the remaining time of node l
      moves on to its successor. */
  function Shifted(list: seq<Node>, l: nat): (r: seq<Node>)
    requires l < |list|
    ensures |r| == |list|
  {
    var c :=
      if l + 1 < |list| then list[l + 1 := list[l + 1].(remain := list[l + 1].remain + list[l].remain)] else list;
    c[l := c[l].(remain := 0.0)]
  }

  lemma ShiftedParts(list: seq<Node>, l: nat)
    requires l < |list|
    ensures Shifted(list, l)[..l + 1] == list[..l] + [list[l].(remain := 0.0)]
    ensures Shifted(list, l)[l + 1..] == Carry(list[l + 1..], list[l].remain)
  {}

  lemma SettleStep(list: seq<Node>, l: nat)
    requires l < |list| && list[l].remain <= 0.0
    ensures list[..l] + Settle(list[l..]) == Shifted(list, l)[..l + 1] + Settle(Shifted(list, l)[l + 1..])
  {
    Peel(list, l);
    var zero, rest := list[l].(remain := 0.0), Carry(list[l + 1..], list[l].remain);
    assert Settle(list[l..]) == [zero] + Settle(rest);
    hide Settle, Carry, Shifted;
    ShiftedParts(list, l);
    Assoc(list[..l], [zero], Settle(rest));
  }

  lemma SettleDone(list: seq<Node>, l: nat)
    requires l <= |list| && (l < |list| ==> list[l].remain > 0.0)
    ensures list[..l] + Settle(list[l..]) == list
  {
    assert list[..l] + list[l..] == list;
  }

  lemma CarryFirst(list: seq<Node>, r: real)
    ensures Carry(list, r) == if list == [] then list else list[0 := list[0].(remain := list[0].remain + r)]
  {}

  /** Unlinking node l, its remaining time passed on to its successor. */
  function Unlinked(list: seq<Node>, l: nat): seq<Node>
    requires l < |list|
  {
    list[..l] + Carry(list[l + 1..], list[l].remain)
  }

  lemma {:induction false} RemoveAt(list: seq<Node>, id: Id, l: nat)
    requires l < |list| && list[l].id == id
    requires forall i :: 0 <= i < l ==> list[i].id != id
    ensures Remove(list, id) == Unlinked(list, l)
  {
    if l == 0 {
    } else {
      assert list[1..][l - 1] == list[l];
      assert forall i :: 0 <= i < l - 1 ==> list[1..][i] == list[i + 1];
      RemoveAt(list[1..], id, l - 1);
      assert list[1..][l..] == list[l + 1..];
      assert [list[0]] + list[1..][..l - 1] == list[..l];
      hide Remove, Carry;
      Assoc([list[0]], list[1..][..l - 1], Carry(list[l + 1..], list[l].remain));
    }
  }

  lemma {:induction false} RemoveAbsent(list: seq<Node>, id: Id)
    requires !Has(list, id)
    ensures Remove(list, id) == list
  {
    if list == [] {
    } else {
      assert list[0].id != id;
      assert forall i :: 0 <= i < |list[1..]| ==> list[1..][i] == list[i + 1];
      RemoveAbsent(list[1..], id);
    }
  }

  // ----- The routines ----------------------------------------------------------------------------

  class TimerProcess {
    var timerList: seq<Node>
    var lastSystemTime: real

    constructor (now: real)
      ensures timerList == [] && lastSystemTime == now
    {
      timerList := [];
      lastSystemTime := now;
    }

    method FindNode(id: Id) returns (l: nat)
      ensures l <= |timerList|
      ensures forall i :: 0 <= i < l ==> timerList[i].id != id
      ensures if Has(timerList, id) then l < |timerList| && timerList[l].id == id else l == |timerList|
    {
      l := 0;
      while l < |timerList| && timerList[l].id != id
        invariant l <= |timerList|
        invariant forall i :: 0 <= i < l ==> timerList[i].id != id
      {
        l := l + 1;
      }
    }

    method InsertRequest(id: Id, seconds: real) returns (err: int)
      modifies this`timerList
      ensures timerList == Insert(old(timerList), id, seconds)
      ensures err == if Has(old(timerList), id) then 1 else 0
      ensures Has(old(timerList), id) ==> timerList == old(timerList)
    {
      var l := FindNode(id);
      if l < |timerList| {
        return 1;
      }
      var remain := seconds;
      l := 0;
      while l < |timerList| && remain >= timerList[l].remain
        invariant l <= |timerList| && timerList == old(timerList)
        invariant InsertNode(timerList, id, seconds) == timerList[..l] + InsertNode(timerList[l..], id, remain)
      {
        InsertStep(timerList, id, seconds, l, remain);
        remain := remain - timerList[l].remain;
        l := l + 1;
      }
      InsertStop(timerList, id, seconds, l, remain);
      timerList := timerList[..l] + [Node(id, remain)] + Carry(timerList[l..], -remain);
      return 0;
    }

    method CancelRequest(id: Id) returns (err: int)
      modifies this`timerList
      ensures timerList == Remove(old(timerList), id)
      ensures err == if Has(old(timerList), id) then 0 else 1
      ensures !Has(old(timerList), id) ==> timerList == old(timerList)
    {
      var l := FindNode(id);
      if l == |timerList| {
        RemoveAbsent(timerList, id);
        return 1;
      }
      RemoveAt(timerList, id, l);
      hide Remove;
      if l + 1 < |timerList| {
        timerList := timerList[l + 1 := timerList[l + 1].(remain := timerList[l + 1].remain + timerList[l].remain)];
      }
      timerList := timerList[..l] + timerList[l + 1..];
      return 0;
    }

    method UpdateTimerList(now: real)
      modifies this
      ensures timerList == Update(old(timerList), now - old(lastSystemTime))
      ensures lastSystemTime == now
    {
      hide Settle, Shifted, Carry;
      var elapsed := now - lastSystemTime;
      lastSystemTime := now;
      CarryFirst(timerList, -elapsed);
      if timerList != [] {
        timerList := timerList[0 := timerList[0].(remain := timerList[0].remain - elapsed)];
      }
      ghost var carried := timerList;
      assert timerList[..0] == [] && timerList[0..] == timerList;
      var l := 0;
      while l < |timerList| && timerList[l].remain <= 0.0
        invariant l <= |timerList|
        invariant Settle(carried) == timerList[..l] + Settle(timerList[l..])
        invariant lastSystemTime == now
      {
        SettleStep(timerList, l);
        timerList := Shifted(timerList, l);
        l := l + 1;
      }
      SettleDone(timerList, l);
    }

    method SendCallbacks() returns (fired: seq<Id>)
      modifies this`timerList
      ensures var n := Expired(old(timerList));
              timerList == old(timerList)[n..] && fired == Ids(old(timerList)[..n])
    {
      fired := [];
      ghost var n := 0;
      while timerList != []
        invariant n <= |old(timerList)| && timerList == old(timerList)[n..]
        invariant fired == Ids(old(timerList)[..n])
        invariant Expired(old(timerList)) == n + Expired(timerList)
        decreases |timerList|
      {
        if timerList[0].remain > 0.0 {
          break;
        }
        fired := fired + [timerList[0].id];
        timerList := timerList[1..];
        n := n + 1;
      }
    }

    /** One round of the main loop, woken at `now` with or without a request. */
    method Round(now: real, request: Option<Request>) returns (fired: seq<Id>)
      modifies this
      ensures var (list, f) := OneRound(old(timerList), now - old(lastSystemTime), request);
              timerList == list && fired == f
      ensures lastSystemTime == now
    {
      UpdateTimerList(now);
      match request {
        case None =>
        case Some(Start(id, seconds)) => var _ := InsertRequest(id, seconds);
        case Some(Cancel(id)) => var _ := CancelRequest(id);
      }
      fired := SendCallbacks();
    }
  }

  /** Update, then the request, then the callbacks. */
  function OneRound(list: seq<Node>, elapsed: real, request: Option<Request>): (seq<Node>, seq<Id>) {
    var l := Apply(Update(list, elapsed), request);
    (l[Expired(l)..], Ids(l[..Expired(l)]))
  }
}
