/** What the delta list of final/timer.c means: a queue of absolute deadlines, and
    what every run of the main loop does with a started timer. */
module TimerRun {
  import opened Options
  import opened TimerList

  // ----- The absolute form -----------------------------------------------------------------------

  /** A timer due at an absolute time; the stamp is the round that started it. */
  datatype Entry = Entry(id: Id, deadline: real, stamp: nat)

  ghost predicate Ordered(e: seq<Entry>) {
    forall i, j :: 0 <= i < j < |e| ==> e[i].deadline <= e[j].deadline
  }

  ghost predicate AllAfter(e: seq<Entry>, t: real) {
    forall i :: 0 <= i < |e| ==> t < e[i].deadline
  }

  predicate HasEntry(e: seq<Entry>, id: Id) {
    exists i :: 0 <= i < |e| && e[i].id == id
  }

  /** Behind every entry that is due no later. */
  function Enqueue(e: seq<Entry>, x: Entry): seq<Entry> {
    if e == [] || x.deadline < e[0].deadline then [x] + e else [e[0]] + Enqueue(e[1..], x)
  }

  function Drop(e: seq<Entry>, id: Id): seq<Entry> {
    if e == [] then [] else if e[0].id == id then e[1..] else [e[0]] + Drop(e[1..], id)
  }

  function Serve(e: seq<Entry>, request: Option<Request>, now: real, stamp: nat): seq<Entry> {
    match request
    case None => e
    case Some(Start(id, seconds)) => if HasEntry(e, id) then e else Enqueue(e, Entry(id, now + seconds, stamp))
    case Some(Cancel(id)) => Drop(e, id)
  }

  /** How many entries at the front are due. */
  function Due(e: seq<Entry>, now: real): (n: nat)
    ensures n <= |e|
  {
    if e == [] || e[0].deadline > now then 0 else 1 + Due(e[1..], now)
  }

  /** Late deadlines count as due now. */
  function Clip(e: seq<Entry>, now: real): (c: seq<Entry>)
    ensures |c| == |e|
  {
    seq(|e|, i requires 0 <= i < |e| => if e[i].deadline < now then e[i].(deadline := now) else e[i])
  }

  // ----- The delta list represents it ------------------------------------------------------------

  /** Summing remaining times from the front, starting at `t`, gives the deadlines. */
  ghost predicate Rep(list: seq<Node>, t: real, e: seq<Entry>) {
    if list == [] then
      e == []
    else
      && e != []
      && e[0].id == list[0].id
      && e[0].deadline == t + list[0].remain
      && Rep(list[1..], e[0].deadline, e[1..])
  }

  function PrefixSum(list: seq<Node>, n: nat): real
    requires n <= |list|
  {
    if n == 0 then 0.0 else list[0].remain + PrefixSum(list[1..], n - 1)
  }

  lemma {:induction false} RepIsPrefixSum(list: seq<Node>, t: real, e: seq<Entry>)
    requires |list| == |e|
    ensures Rep(list, t, e) <==>
            forall i :: 0 <= i < |e| ==> e[i].id == list[i].id && e[i].deadline == t + PrefixSum(list, i + 1)
  {
    if list == [] {
    } else {
      var d := t + list[0].remain;
      RepIsPrefixSum(list[1..], d, e[1..]);
      assert PrefixSum(list, 1) == list[0].remain + PrefixSum(list[1..], 0);
      if Rep(list, t, e) {
        forall i | 0 <= i < |e|
          ensures e[i].id == list[i].id && e[i].deadline == t + PrefixSum(list, i + 1)
        {
          if i > 0 {
            assert e[1..][i - 1] == e[i] && list[1..][i - 1] == list[i];
          }
        }
      }
      if forall i :: 0 <= i < |e| ==> e[i].id == list[i].id && e[i].deadline == t + PrefixSum(list, i + 1) {
        assert e[0].deadline == d;
        forall i | 0 <= i < |e[1..]|
          ensures e[1..][i].id == list[1..][i].id && e[1..][i].deadline == d + PrefixSum(list[1..], i + 1)
        {
          assert e[1..][i] == e[i + 1] && list[1..][i] == list[i + 1];
        }
      }
    }
  }

  lemma {:induction false} RepIds(list: seq<Node>, t: real, e: seq<Entry>)
    requires Rep(list, t, e)
    ensures |list| == |e|
    ensures forall i :: 0 <= i < |e| ==> e[i].id == list[i].id
    ensures forall id :: Has(list, id) == HasEntry(e, id)
  {
    if list == [] {
    } else {
      RepIds(list[1..], e[0].deadline, e[1..]);
      forall i | 0 <= i < |e|
        ensures e[i].id == list[i].id
      {
        if i > 0 {
          assert e[1..][i - 1].id == list[1..][i - 1].id;
        }
      }
    }
  }

  /** Insertion gives the new node its duration as prefix sum and moves no other deadline. */
  lemma {:induction false} InsertRep(list: seq<Node>, t: real, e: seq<Entry>, id: Id, seconds: real, stamp: nat)
    requires Rep(list, t, e)
    ensures Rep(InsertNode(list, id, seconds), t, Enqueue(e, Entry(id, t + seconds, stamp)))
  {
    if list == [] {
    } else {
      if seconds < list[0].remain {
        var l := InsertNode(list, id, seconds);
        assert l[1..] == [list[0].(remain := list[0].remain - seconds)] + list[1..];
        assert l[1..][1..] == list[1..];
      } else {
        InsertRep(list[1..], e[0].deadline, e[1..], id, seconds - list[0].remain, stamp);
      }
    }
  }

  lemma CarryRep(list: seq<Node>, t: real, r: real, e: seq<Entry>)
    requires Rep(list, t, e)
    ensures Rep(Carry(list, r), t - r, e)
  {
    if list != [] {
      assert Carry(list, r)[1..] == list[1..];
    }
  }

  /** Cancelling takes out one timer and moves no other deadline. */
  lemma {:induction false} RemoveRep(list: seq<Node>, t: real, e: seq<Entry>, id: Id)
    requires Rep(list, t, e)
    ensures Rep(Remove(list, id), t, Drop(e, id))
  {
    if list == [] {
    } else {
      if list[0].id == id {
        CarryRep(list[1..], e[0].deadline, list[0].remain, e[1..]);
      } else {
        RemoveRep(list[1..], e[0].deadline, e[1..], id);
      }
    }
  }

  lemma {:induction false} ClipNothing(e: seq<Entry>, now: real)
    requires Ordered(e) && (e != [] ==> e[0].deadline >= now)
    ensures Clip(e, now) == e
  {}

  /** Settling turns every late deadline into one that is due now. */
  lemma {:induction false} SettleRep(list: seq<Node>, now: real, e: seq<Entry>)
    requires Rep(list, now, e) && Ordered(e)
    ensures Rep(Settle(list), now, Clip(e, now))
    decreases |list|
  {
    if list == [] || list[0].remain > 0.0 {
      ClipNothing(e, now);
    } else {
      CarryRep(list[1..], e[0].deadline, list[0].remain, e[1..]);
      SettleRep(Carry(list[1..], list[0].remain), now, e[1..]);
      assert Clip(e, now)[1..] == Clip(e[1..], now);
      assert Settle(list)[1..] == Settle(Carry(list[1..], list[0].remain));
    }
  }

  /** Time passing maps every prefix sum P to the larger of 0 and P minus the elapsed time. */
  lemma UpdateRep(list: seq<Node>, t: real, e: seq<Entry>, elapsed: real)
    requires Rep(list, t, e) && Ordered(e)
    ensures Rep(Update(list, elapsed), t + elapsed, Clip(e, t + elapsed))
  {
    CarryRep(list, t, -elapsed, e);
    SettleRep(Carry(list, -elapsed), t + elapsed, e);
  }

  /** The callbacks go to exactly the timers that are due. */
  lemma {:induction false} ExpiredRep(list: seq<Node>, now: real, e: seq<Entry>)
    requires Rep(list, now, e) && (forall i :: 0 <= i < |e| ==> now <= e[i].deadline)
    ensures Expired(list) == Due(e, now)
    ensures Rep(list[Expired(list)..], now, e[Due(e, now)..])
  {
    if list == [] || list[0].remain > 0.0 {
    } else {
      ExpiredRep(list[1..], now, e[1..]);
      assert list[Expired(list)..] == list[1..][Expired(list[1..])..];
      assert e[Due(e, now)..] == e[1..][Due(e[1..], now)..];
    }
  }

  // ----- One round -------------------------------------------------------------------------------

  /** Deadline order, ties in the order they were started. */
  ghost predicate Before(x: Entry, y: Entry) {
    x.deadline < y.deadline || (x.deadline == y.deadline && x.stamp < y.stamp)
  }

  ghost predicate Queued(e: seq<Entry>) {
    forall i, j :: 0 <= i < j < |e| ==> Before(e[i], e[j])
  }

  ghost predicate Distinct(e: seq<Entry>) {
    forall i, j :: 0 <= i < j < |e| ==> e[i].id != e[j].id
  }

  ghost predicate Older(e: seq<Entry>, stamp: nat) {
    forall i :: 0 <= i < |e| ==> e[i].stamp < stamp
  }

  lemma {:induction false} EnqueueSplits(e: seq<Entry>, x: Entry) returns (k: nat)
    requires Ordered(e)
    ensures k <= |e| && Enqueue(e, x) == e[..k] + [x] + e[k..]
    ensures forall i :: 0 <= i < k ==> e[i].deadline <= x.deadline
    ensures forall i :: k <= i < |e| ==> x.deadline < e[i].deadline
  {
    if e == [] || x.deadline < e[0].deadline {
      k := 0;
    } else {
      var m := EnqueueSplits(e[1..], x);
      k := m + 1;
      assert e == [e[0]] + e[1..];
      assert e[1..][m..] == e[k..] && [e[0]] + e[1..][..m] == e[..k];
      forall i | k <= i < |e|
        ensures x.deadline < e[i].deadline
      {
        assert e[i] == e[1..][i - 1];
      }
    }
  }

  lemma {:induction false} DropSplits(e: seq<Entry>, id: Id) returns (k: nat)
    requires HasEntry(e, id)
    ensures k < |e| && e[k].id == id && Drop(e, id) == e[..k] + e[k + 1..]
  {
    if e[0].id == id {
      k := 0;
    } else {
      assert HasEntry(e[1..], id) by {
        var i :| 0 <= i < |e| && e[i].id == id;
        assert e[1..][i - 1] == e[i];
      }
      var m := DropSplits(e[1..], id);
      k := m + 1;
      assert e[1..][m + 1..] == e[k + 1..] && [e[0]] + e[1..][..m] == e[..k];
    }
  }

  lemma {:induction false} DropAbsent(e: seq<Entry>, id: Id)
    requires !HasEntry(e, id)
    ensures Drop(e, id) == e
  {
    if e == [] {
    } else {
      assert e[0].id != id;
      assert !HasEntry(e[1..], id) by {
        forall i | 0 <= i < |e[1..]|
          ensures e[1..][i].id != id
        {
          assert e[1..][i] == e[i + 1];
        }
      }
      DropAbsent(e[1..], id);
    }
  }

  lemma InsertQueued(a: seq<Entry>, x: Entry, b: seq<Entry>)
    requires Queued(a + b)
    requires forall i :: 0 <= i < |a| ==> Before(a[i], x)
    requires forall i :: 0 <= i < |b| ==> Before(x, b[i])
    ensures Queued(a + [x] + b)
  {
    var q, r := a + b, a + [x] + b;
    forall i, j | 0 <= i < j < |r|
      ensures Before(r[i], r[j])
    {
      var i', j' := if i < |a| then i else i - 1, if j < |a| then j else j - 1;
      if i != |a| && j != |a| {
        assert r[i] == q[i'] && r[j] == q[j'];
      }
    }
  }

  lemma RemoveQueued(q: seq<Entry>, k: nat)
    requires Queued(q) && k < |q|
    ensures Queued(q[..k] + q[k + 1..])
  {
    var r := q[..k] + q[k + 1..];
    forall i, j | 0 <= i < j < |r|
      ensures Before(r[i], r[j])
    {
      var i', j' := if i < k then i else i + 1, if j < k then j else j + 1;
      assert r[i] == q[i'] && r[j] == q[j'];
    }
  }

  /** Everything that holds of the firings so far, `log`, and the timers still waiting. */
  ghost predicate InOrder(log: seq<Entry>, e: seq<Entry>, stamp: nat) {
    Queued(log + e) && Distinct(e) && Older(log + e, stamp)
  }

  lemma QueueOrdered(log: seq<Entry>, e: seq<Entry>)
    requires Queued(log + e)
    ensures Ordered(e)
  {
    forall i, j | 0 <= i < j < |e|
      ensures e[i].deadline <= e[j].deadline
    {
      assert Before((log + e)[|log| + i], (log + e)[|log| + j]);
    }
  }

  lemma EnqueueInOrder(log: seq<Entry>, e: seq<Entry>, x: Entry)
    requires InOrder(log, e, x.stamp) && !HasEntry(e, x.id)
    requires forall i :: 0 <= i < |log| ==> log[i].deadline <= x.deadline
    ensures InOrder(log, Enqueue(e, x), x.stamp + 1)
  {
    QueueOrdered(log, e);
    var k := EnqueueSplits(e, x);
    var a, b := log + e[..k], e[k..];
    assert a + b == log + e && log + Enqueue(e, x) == a + [x] + b;
    forall i | 0 <= i < |a|
      ensures Before(a[i], x)
    {
      assert a[i] == (log + e)[i];
    }
    InsertQueued(a, x, b);
    assert Older(a + [x] + b, x.stamp + 1) by {
      forall i | 0 <= i < |a + [x] + b|
        ensures (a + [x] + b)[i].stamp < x.stamp + 1
      {
        if i != |a| {
          assert (a + [x] + b)[i] == (log + e)[if i < |a| then i else i - 1];
        }
      }
    }
  }

  lemma DropInOrder(log: seq<Entry>, e: seq<Entry>, id: Id, stamp: nat)
    requires InOrder(log, e, stamp)
    ensures InOrder(log, Drop(e, id), stamp)
    ensures !HasEntry(Drop(e, id), id)
    ensures forall x :: x in e && x.id != id ==> x in Drop(e, id)
  {
    if HasEntry(e, id) {
      var k := DropSplits(e, id);
      var q := log + e;
      assert log + Drop(e, id) == q[..|log| + k] + q[|log| + k + 1..];
      RemoveQueued(q, |log| + k);
      forall i | 0 <= i < |log + Drop(e, id)|
        ensures (log + Drop(e, id))[i].stamp < stamp
      {
        assert (log + Drop(e, id))[i] == q[if i < |log| + k then i else i + 1];
      }
    } else {
      DropAbsent(e, id);
    }
  }

  ghost predicate NonNegative(request: Option<Request>) {
    request.Some? && request.value.Start? ==> request.value.seconds >= 0.0
  }

  /** Serving a request keeps firings and waiting timers in order. */
  lemma ServeInOrder(log: seq<Entry>, e: seq<Entry>, request: Option<Request>, now: real, stamp: nat)
    requires InOrder(log, e, stamp) && NonNegative(request)
    requires forall i :: 0 <= i < |log| ==> log[i].deadline <= now
    ensures InOrder(log, Serve(e, request, now, stamp), stamp + 1)
  {
    match request
    case None =>
    case Some(Start(id, seconds)) =>
      if !HasEntry(e, id) {
        EnqueueInOrder(log, e, Entry(id, now + seconds, stamp));
      }
    case Some(Cancel(id)) =>
      DropInOrder(log, e, id, stamp);
  }

  // ----- Clipping late deadlines changes nothing that a round does -------------------------------

  lemma {:induction false} ClipEnqueue(e: seq<Entry>, x: Entry, now: real)
    requires now <= x.deadline
    ensures Clip(Enqueue(e, x), now) == Enqueue(Clip(e, now), x)
  {
    if e != [] && x.deadline >= e[0].deadline {
      ClipEnqueue(e[1..], x, now);
      assert Clip(e, now)[1..] == Clip(e[1..], now);
      assert Clip(Enqueue(e, x), now) == [Clip(e, now)[0]] + Clip(Enqueue(e[1..], x), now);
    } else {
      assert Clip([x] + e, now) == [x] + Clip(e, now);
    }
  }

  lemma {:induction false} ClipDrop(e: seq<Entry>, id: Id, now: real)
    ensures Clip(Drop(e, id), now) == Drop(Clip(e, now), id)
  {
    if e == [] {
    } else {
      assert Clip(e, now)[1..] == Clip(e[1..], now);
      if e[0].id != id {
        ClipDrop(e[1..], id, now);
        assert Clip(Drop(e, id), now) == [Clip(e, now)[0]] + Clip(Drop(e[1..], id), now);
      }
    }
  }

  lemma ClipServe(e: seq<Entry>, request: Option<Request>, now: real, stamp: nat)
    requires NonNegative(request)
    ensures Clip(Serve(e, request, now, stamp), now) == Serve(Clip(e, now), request, now, stamp)
  {
    match request
    case None =>
    case Some(Start(id, seconds)) =>
      assert HasEntry(e, id) == HasEntry(Clip(e, now), id) by {
        forall i | 0 <= i < |e|
          ensures Clip(e, now)[i].id == e[i].id
        {}
        if HasEntry(e, id) {
          var i :| 0 <= i < |e| && e[i].id == id;
          assert Clip(e, now)[i].id == id;
        }
      }
      ClipEnqueue(e, Entry(id, now + seconds, stamp), now);
    case Some(Cancel(id)) =>
      ClipDrop(e, id, now);
  }

  lemma {:induction false} DueSplits(e: seq<Entry>, now: real)
    requires Ordered(e)
    ensures forall i :: 0 <= i < Due(e, now) ==> e[i].deadline <= now
    ensures AllAfter(e[Due(e, now)..], now)
    ensures Due(Clip(e, now), now) == Due(e, now)
    ensures Clip(e, now)[Due(e, now)..] == e[Due(e, now)..]
  {
    hide Clip, AllAfter, Ordered;
    if e == [] || e[0].deadline > now {
      NoneDue(e, now);
    } else {
      var rest, d := e[1..], Due(e[1..], now);
      OrderedTail(e);
      DueSplits(rest, now);
      assert e == [e[0]] + rest && e[d + 1..] == rest[d..];
      ClipCons(e[0], rest, now);
      var c := Clip(e, now);
      assert c[1..] == Clip(rest, now) && c[d + 1..] == Clip(rest, now)[d..];
      forall i | 0 <= i < d + 1
        ensures e[i].deadline <= now
      {
        assert i > 0 ==> e[i] == rest[i - 1];
      }
    }
  }

  lemma NoneDue(e: seq<Entry>, now: real)
    requires Ordered(e) && (e == [] || e[0].deadline > now)
    ensures AllAfter(e, now) && Clip(e, now) == e && e[0..] == e
  {}

  lemma OrderedTail(e: seq<Entry>)
    requires Ordered(e) && e != []
    ensures Ordered(e[1..])
  {}

  lemma ClipCons(x: Entry, rest: seq<Entry>, now: real)
    ensures Clip([x] + rest, now) == [if x.deadline < now then x.(deadline := now) else x] + Clip(rest, now)
  {}

  function EntryIds(e: seq<Entry>): seq<Id> {
    seq(|e|, i requires 0 <= i < |e| => e[i].id)
  }

  lemma ServeRep(list: seq<Node>, now: real, e: seq<Entry>, request: Option<Request>, stamp: nat)
    requires Rep(list, now, e)
    ensures Rep(Apply(list, request), now, Serve(e, request, now, stamp))
  {
    RepIds(list, now, e);
    match request
    case None =>
    case Some(Start(id, seconds)) => InsertRep(list, now, e, id, seconds, stamp);
    case Some(Cancel(id)) => RemoveRep(list, now, e, id);
  }

  lemma CallbacksRep(l: seq<Node>, now: real, s: seq<Entry>)
    requires Rep(l, now, Clip(s, now)) && Ordered(s)
    ensures Expired(l) == Due(s, now)
    ensures Rep(l[Expired(l)..], now, s[Due(s, now)..])
    ensures Ids(l[..Expired(l)]) == EntryIds(s[..Due(s, now)])
  {
    DueSplits(s, now);
    ExpiredRep(l, now, Clip(s, now));
    RepIds(l, now, Clip(s, now));
  }

  /** One round of the delta list is one round of the absolute queue: the same timers
      fire, in the same order, and the lists still correspond. */
  lemma RoundRep(list: seq<Node>, t: real, log: seq<Entry>, e: seq<Entry>, now: real, request: Option<Request>,
                 stamp: nat)
    requires Rep(list, t, e) && InOrder(log, e, stamp) && t <= now && NonNegative(request)
    requires forall i :: 0 <= i < |log| ==> log[i].deadline <= t
    ensures var (list', fired) := OneRound(list, now - t, request);
            var s := Serve(e, request, now, stamp);
            var n := Due(s, now);
            && Rep(list', now, s[n..])
            && fired == EntryIds(s[..n])
            && AllAfter(s[n..], now)
            && forall i :: 0 <= i < n ==> s[i].deadline <= now
  {
    var s, l := Serve(e, request, now, stamp), Apply(Update(list, now - t), request);
    assert Rep(l, now, Clip(s, now)) by {
      QueueOrdered(log, e);
      UpdateRep(list, t, e, now - t);
      ServeRep(Update(list, now - t), now, Clip(e, now), request, stamp);
      ClipServe(e, request, now, stamp);
    }
    assert Ordered(s) by {
      ServeInOrder(log, e, request, now, stamp);
      QueueOrdered(log, s);
    }
    CallbacksRep(l, now, s);
    DueSplits(s, now);
  }

  // ----- Whole runs of the main loop -------------------------------------------------------------

  /** The clock read by UpdateTimerList, and the request received, if any. */
  datatype Round = Round(clock: real, request: Option<Request>)

  function Clock(start: real, rounds: seq<Round>): real {
    if rounds == [] then start else rounds[|rounds| - 1].clock
  }

  /** The timer list after a run. */
  function ListAfter(start: real, rounds: seq<Round>): seq<Node> {
    if rounds == [] then
      []
    else
      var before, last := rounds[..|rounds| - 1], rounds[|rounds| - 1];
      OneRound(ListAfter(start, before), last.clock - Clock(start, before), last.request).0
  }

  /** The expiry notices sent in the last round. */
  function Fired(start: real, rounds: seq<Round>): seq<Id>
    requires rounds != []
  {
    var before, last := rounds[..|rounds| - 1], rounds[|rounds| - 1];
    OneRound(ListAfter(start, before), last.clock - Clock(start, before), last.request).1
  }

  ghost predicate WellTimed(start: real, rounds: seq<Round>) {
    forall k :: 0 <= k < |rounds| ==> Clock(start, rounds[..k]) <= rounds[k].clock && NonNegative(rounds[k].request)
  }

  /** The waiting timers after the last round's request, before its callbacks. */
  function Served(start: real, rounds: seq<Round>): seq<Entry>
    requires rounds != []
    decreases rounds, 0
  {
    var last := rounds[|rounds| - 1];
    Serve(Waiting(start, rounds[..|rounds| - 1]), last.request, last.clock, |rounds| - 1)
  }

  function Waiting(start: real, rounds: seq<Round>): seq<Entry>
    decreases rounds, 1
  {
    if rounds == [] then
      []
    else
      var s := Served(start, rounds);
      s[Due(s, Clock(start, rounds))..]
  }

  /** Everything that fired, in order. */
  function Firings(start: real, rounds: seq<Round>): seq<Entry> {
    if rounds == [] then
      []
    else
      Firings(start, rounds[..|rounds| - 1]) + LastFirings(start, rounds)
  }

  function LastFirings(start: real, rounds: seq<Round>): seq<Entry>
    requires rounds != []
  {
    var s := Served(start, rounds);
    s[..Due(s, Clock(start, rounds))]
  }

  ghost predicate RunInv(start: real, rounds: seq<Round>) {
    && Rep(ListAfter(start, rounds), Clock(start, rounds), Waiting(start, rounds))
    && InOrder(Firings(start, rounds), Waiting(start, rounds), |rounds|)
    && AllAfter(Waiting(start, rounds), Clock(start, rounds))
    && forall i :: 0 <= i < |Firings(start, rounds)| ==> Firings(start, rounds)[i].deadline <= Clock(start, rounds)
  }

  lemma WellTimedPrefix(start: real, rounds: seq<Round>, k: nat)
    requires WellTimed(start, rounds) && k <= |rounds|
    ensures WellTimed(start, rounds[..k])
  {
    forall i | 0 <= i < k
      ensures Clock(start, rounds[..k][..i]) <= rounds[..k][i].clock && NonNegative(rounds[..k][i].request)
    {
      assert rounds[..k][..i] == rounds[..i];
    }
  }

  lemma DistinctSuffix(log: seq<Entry>, s: seq<Entry>, n: nat, stamp: nat)
    requires InOrder(log, s, stamp) && n <= |s|
    ensures InOrder(log + s[..n], s[n..], stamp)
  {
    assert (log + s[..n]) + s[n..] == log + s;
  }

  lemma RunUnfolds(start: real, rounds: seq<Round>)
    requires rounds != []
    ensures var n := |rounds| - 1; var before, last := rounds[..n], rounds[n];
            var s := Serve(Waiting(start, before), last.request, last.clock, n);
            var d := Due(s, last.clock);
            && OneRound(ListAfter(start, before), last.clock - Clock(start, before), last.request)
               == (ListAfter(start, rounds), Fired(start, rounds))
            && Clock(start, rounds) == last.clock
            && s == Served(start, rounds)
            && Waiting(start, rounds) == s[d..]
            && LastFirings(start, rounds) == s[..d]
            && Firings(start, rounds) == Firings(start, before) + s[..d]
  {
    hide OneRound, Serve, Due;
  }

  lemma LogInThePast(log: seq<Entry>, s: seq<Entry>, d: nat, t: real, now: real)
    requires d <= |s| && t <= now
    requires forall i :: 0 <= i < |log| ==> log[i].deadline <= t
    requires forall i :: 0 <= i < d ==> s[i].deadline <= now
    ensures forall i :: 0 <= i < |log + s[..d]| ==> (log + s[..d])[i].deadline <= now
  {}

  lemma RunInvStarts(start: real)
    ensures RunInv(start, [])
  {}

  /** The invariant of every run: the list represents the waiting deadlines, all of them in
      the future, and what fired followed by what waits is in deadline order. */
  lemma {:induction false} RunKeepsInv(start: real, rounds: seq<Round>)
    requires WellTimed(start, rounds)
    ensures RunInv(start, rounds)
    ensures rounds != [] ==> Fired(start, rounds) == EntryIds(LastFirings(start, rounds))
  {
    hide OneRound, Serve, Due, Rep, InOrder, NonNegative, ListAfter, Waiting, Firings, Fired, Served, LastFirings,
        AllAfter, EntryIds;
    if rounds == [] {
      RunInvStarts(start);
    } else {
      var n := |rounds| - 1;
      var before, last := rounds[..n], rounds[n];
      WellTimedPrefix(start, rounds, n);
      RunKeepsInv(start, before);
      assert Clock(start, before) <= last.clock && NonNegative(last.request);
      var log, e := Firings(start, before), Waiting(start, before);
      RoundRep(ListAfter(start, before), Clock(start, before), log, e, last.clock, last.request, n);
      ServeInOrder(log, e, last.request, last.clock, n);
      RunUnfolds(start, rounds);
      var s := Served(start, rounds);
      var d := Due(s, last.clock);
      DistinctSuffix(log, s, d, n + 1);
      LogInThePast(log, s, d, Clock(start, before), last.clock);
    }
  }

  lemma {:induction false} EnqueueMembers(e: seq<Entry>, x: Entry, y: Entry)
    ensures y in Enqueue(e, x) <==> y == x || y in e
  {
    if e == [] || x.deadline < e[0].deadline {
    } else {
      EnqueueMembers(e[1..], x, y);
    }
  }

  lemma {:induction false} DropMembers(e: seq<Entry>, id: Id, y: Entry)
    ensures y in Drop(e, id) ==> y in e
    ensures y in e && y.id != id ==> y in Drop(e, id)
  {
    if e == [] || e[0].id == id {
    } else {
      DropMembers(e[1..], id, y);
    }
  }

  /** Where the entries of a round come from. */
  lemma ServedMembers(start: real, rounds: seq<Round>, x: Entry)
    requires rounds != []
    ensures var n := |rounds| - 1; var last := rounds[n]; var before := Waiting(start, rounds[..n]);
            && (x in Served(start, rounds) ==>
                  x in before || (x.stamp == n && last.request == Some(Start(x.id, x.deadline - last.clock))))
            && (x in before && last.request != Some(Cancel(x.id)) ==> x in Served(start, rounds))
  {
    var n := |rounds| - 1;
    var last, before := rounds[n], Waiting(start, rounds[..n]);
    match last.request
    case None =>
    case Some(Start(id, seconds)) => EnqueueMembers(before, Entry(id, last.clock + seconds, n), x);
    case Some(Cancel(id)) => DropMembers(before, id, x);
  }

  ghost predicate StartedBy(rounds: seq<Round>, x: Entry) {
    && x.stamp < |rounds|
    && rounds[x.stamp].request == Some(Start(x.id, x.deadline - rounds[x.stamp].clock))
  }

  lemma {:induction false} ServedWereStarted(start: real, rounds: seq<Round>, x: Entry)
    requires rounds != [] && x in Served(start, rounds)
    ensures StartedBy(rounds, x)
  {
    ServedMembers(start, rounds, x);
    var n := |rounds| - 1;
    if x in Waiting(start, rounds[..n]) {
      ServedWereStarted(start, rounds[..n], x);
    }
  }

  /** No timer fires early or late: one that fires was started with exactly that deadline,
      the clock has reached it, and in no round since its start had the clock reached it before. */
  lemma FiresInFirstDueRound(start: real, rounds: seq<Round>, x: Entry)
    requires WellTimed(start, rounds) && rounds != [] && x in LastFirings(start, rounds)
    ensures StartedBy(rounds, x)
    ensures x.deadline <= Clock(start, rounds)
    ensures x.stamp < |rounds| - 1 ==> Clock(start, rounds[..|rounds| - 1]) < x.deadline
  {
    var n := |rounds| - 1;
    RunKeepsInv(start, rounds);
    WellTimedPrefix(start, rounds, n);
    RunKeepsInv(start, rounds[..n]);
    ServedWereStarted(start, rounds, x);
    ServedMembers(start, rounds, x);
    assert x in Firings(start, rounds);
  }

  /** Over a whole run, timers fire in deadline order, ties in the order they were started. */
  lemma FiringOrder(start: real, rounds: seq<Round>, i: nat, j: nat)
    requires WellTimed(start, rounds) && i < j < |Firings(start, rounds)|
    ensures Before(Firings(start, rounds)[i], Firings(start, rounds)[j])
  {
    RunKeepsInv(start, rounds);
    var f, w := Firings(start, rounds), Waiting(start, rounds);
    assert (f + w)[i] == f[i] && (f + w)[j] == f[j];
  }

  ghost predicate NotCancelled(rounds: seq<Round>, k: nat, id: Id) {
    forall i :: k < i < |rounds| ==> rounds[i].request != Some(Cancel(id))
  }

  /** Round k starts a timer that is not in the list. */
  ghost predicate Starts(start: real, rounds: seq<Round>, k: nat, id: Id, seconds: real) {
    && k < |rounds|
    && rounds[k].request == Some(Start(id, seconds))
    && !Has(ListAfter(start, rounds[..k]), id)
  }

  lemma NotDueWaits(start: real, rounds: seq<Round>, x: Entry)
    requires WellTimed(start, rounds) && rounds != []
    requires x in Served(start, rounds) && Clock(start, rounds) < x.deadline
    ensures x in Waiting(start, rounds)
  {
    hide Served;
    var s, d := Served(start, rounds), Due(Served(start, rounds), Clock(start, rounds));
    if x in s[..d] {
      FiresInFirstDueRound(start, rounds, x);
    }
    assert s == s[..d] + s[d..];
  }

  lemma SameIds(start: real, rounds: seq<Round>, id: Id)
    requires WellTimed(start, rounds)
    ensures Has(ListAfter(start, rounds), id) == HasEntry(Waiting(start, rounds), id)
  {
    RunKeepsInv(start, rounds);
    RepIds(ListAfter(start, rounds), Clock(start, rounds), Waiting(start, rounds));
  }

  lemma ServedUnfolds(start: real, rounds: seq<Round>)
    requires rounds != []
    ensures var n := |rounds| - 1;
            && Served(start, rounds) == Serve(Waiting(start, rounds[..n]), rounds[n].request, rounds[n].clock, n)
            && Clock(start, rounds) == rounds[n].clock
  {
    hide Serve, Waiting;
  }

  lemma JustStarted(start: real, rounds: seq<Round>, id: Id, seconds: real)
    requires rounds != [] && WellTimed(start, rounds) && Starts(start, rounds, |rounds| - 1, id, seconds)
    ensures Entry(id, Clock(start, rounds) + seconds, |rounds| - 1) in Served(start, rounds)
  {
    hide ListAfter, Served, Waiting, WellTimed;
    var n := |rounds| - 1;
    var before := rounds[..n];
    var x := Entry(id, Clock(start, rounds) + seconds, n);
    WellTimedPrefix(start, rounds, n);
    SameIds(start, before, id);
    ServedUnfolds(start, rounds);
    EnqueueMembers(Waiting(start, before), x, x);
  }

  lemma {:induction false} StillWaiting(start: real, rounds: seq<Round>, k: nat, id: Id, seconds: real)
    requires WellTimed(start, rounds) && Starts(start, rounds, k, id, seconds) && NotCancelled(rounds, k, id)
    requires |rounds| == k + 1 || Clock(start, rounds[..|rounds| - 1]) < rounds[k].clock + seconds
    ensures Entry(id, rounds[k].clock + seconds, k) in Served(start, rounds)
  {
    hide Served, Waiting, ListAfter;
    var n := |rounds| - 1;
    var before := rounds[..n];
    var x := Entry(id, rounds[k].clock + seconds, k);
    if n == k {
      JustStarted(start, rounds, id, seconds);
    } else {
      WellTimedPrefix(start, rounds, n);
      assert before[..k] == rounds[..k];
      assert before[..n - 1] == rounds[..n - 1];
      assert n > k + 1 ==> Clock(start, rounds[..n - 1]) <= rounds[n - 1].clock == Clock(start, before);
      StillWaiting(start, before, k, id, seconds);
      NotDueWaits(start, before, x);
      ServedMembers(start, rounds, x);
    }
  }

  ghost predicate NoRepeats(ids: seq<Id>) {
    forall i, j :: 0 <= i < j < |ids| ==> ids[i] != ids[j]
  }

  /** A timer started with duration `seconds` at clock t and not cancelled fires, exactly once,
      in the first round whose clock is at least t + seconds, and in no round before that. */
  lemma StartedTimerFires(start: real, rounds: seq<Round>, k: nat, id: Id, seconds: real)
    requires WellTimed(start, rounds) && Starts(start, rounds, k, id, seconds) && NotCancelled(rounds, k, id)
    requires |rounds| == k + 1 || Clock(start, rounds[..|rounds| - 1]) < rounds[k].clock + seconds
    ensures var fired := Fired(start, rounds);
            && NoRepeats(fired)
            && (id in fired <==> rounds[k].clock + seconds <= Clock(start, rounds))
            && (id !in fired ==> Has(ListAfter(start, rounds), id))
  {
    hide ListAfter, Served, Waiting, Fired, LastFirings, Due;
    RunKeepsInv(start, rounds);
    StillWaiting(start, rounds, k, id, seconds);
    ServedDistinct(start, rounds);
    RunUnfolds(start, rounds);
    var s, d := Served(start, rounds), Due(Served(start, rounds), Clock(start, rounds));
    var x := Entry(id, rounds[k].clock + seconds, k);
    SplitAt(s, d, x);
    if Clock(start, rounds) < x.deadline {
      NotDueWaits(start, rounds, x);
      SameIds(start, rounds, id);
    } else {
      assert x !in s[d..];
    }
  }

  /** Entry x, the only one with its id, lies on one side of a cut. */
  lemma SplitAt(s: seq<Entry>, d: nat, x: Entry)
    requires d <= |s| && x in s && Distinct(s)
    ensures NoRepeats(EntryIds(s[..d]))
    ensures x in s[d..] <==> x.id !in EntryIds(s[..d])
    ensures x in s[d..] <==> x !in s[..d]
  {
    var i :| 0 <= i < |s| && s[i] == x;
    var ids := EntryIds(s[..d]);
    assert forall j :: 0 <= j < d ==> ids[j] == s[j].id;
    if i < d {
      assert s[..d][i] == x && ids[i] == x.id;
      assert forall j :: 0 <= j < |s[d..]| ==> s[d..][j] == s[d + j];
    } else {
      assert s[d..][i - d] == x;
    }
  }

  lemma ServedDistinct(start: real, rounds: seq<Round>)
    requires WellTimed(start, rounds) && rounds != []
    ensures Distinct(Served(start, rounds))
  {
    var n := |rounds| - 1;
    var before, last := rounds[..n], rounds[n];
    WellTimedPrefix(start, rounds, n);
    RunKeepsInv(start, before);
    assert Clock(start, rounds[..n]) <= rounds[n].clock;
    ServeInOrder(Firings(start, before), Waiting(start, before), last.request, last.clock, n);
  }

  /** A timer that is not in the list does not fire until it is started again. */
  lemma SilentUntilStarted(start: real, rounds: seq<Round>, id: Id)
    requires WellTimed(start, rounds) && rounds != []
    requires !Has(ListAfter(start, rounds[..|rounds| - 1]), id)
    requires forall seconds :: rounds[|rounds| - 1].request != Some(Start(id, seconds))
    ensures id !in Fired(start, rounds) && !Has(ListAfter(start, rounds), id)
  {
    NotServed(start, rounds, id);
  }

  /** A cancelled timer does not fire, not even in the round in which it came due. */
  lemma CancelSilences(start: real, rounds: seq<Round>, id: Id)
    requires WellTimed(start, rounds) && rounds != []
    requires rounds[|rounds| - 1].request == Some(Cancel(id))
    ensures id !in Fired(start, rounds) && !Has(ListAfter(start, rounds), id)
  {
    NotServed(start, rounds, id);
  }

  /** A timer that fired has left the list. */
  lemma FiredIsGone(start: real, rounds: seq<Round>, id: Id)
    requires WellTimed(start, rounds) && rounds != []
    requires id in Fired(start, rounds)
    ensures !Has(ListAfter(start, rounds), id)
  {
    RunKeepsInv(start, rounds);
    ServedDistinct(start, rounds);
    var s, d := Served(start, rounds), Due(Served(start, rounds), Clock(start, rounds));
    var i :| 0 <= i < d && EntryIds(s[..d])[i] == id;
    assert s[i].id == id;
    RepIds(ListAfter(start, rounds), Clock(start, rounds), s[d..]);
    forall j | 0 <= j < |s[d..]|
      ensures s[d..][j].id != id
    {
      assert s[d..][j] == s[d + j];
    }
  }

  lemma NotServed(start: real, rounds: seq<Round>, id: Id)
    requires WellTimed(start, rounds) && rounds != []
    requires
      || rounds[|rounds| - 1].request == Some(Cancel(id))
      || (!Has(ListAfter(start, rounds[..|rounds| - 1]), id)
          && forall seconds :: rounds[|rounds| - 1].request != Some(Start(id, seconds)))
    ensures id !in Fired(start, rounds) && !Has(ListAfter(start, rounds), id)
  {
    hide ListAfter, Fired, Served, Waiting, Rep, InOrder, AllAfter, WellTimed, Firings;
    NothingToServe(start, rounds, id);
    RunKeepsInv(start, rounds);
    var s, d := Served(start, rounds), Due(Served(start, rounds), Clock(start, rounds));
    RunUnfolds(start, rounds);
    NoEntry(s, d, id);
    RepIds(ListAfter(start, rounds), Clock(start, rounds), s[d..]);
  }

  lemma NoEntry(s: seq<Entry>, d: nat, id: Id)
    requires !HasEntry(s, id) && d <= |s|
    ensures id !in EntryIds(s[..d]) && !HasEntry(s[d..], id)
  {
    assert forall i :: 0 <= i < d ==> EntryIds(s[..d])[i] == s[i].id;
    assert forall i :: 0 <= i < |s[d..]| ==> s[d..][i] == s[d + i];
  }

  lemma NothingToServe(start: real, rounds: seq<Round>, id: Id)
    requires WellTimed(start, rounds) && rounds != []
    requires
      || rounds[|rounds| - 1].request == Some(Cancel(id))
      || (!Has(ListAfter(start, rounds[..|rounds| - 1]), id)
          && forall seconds :: rounds[|rounds| - 1].request != Some(Start(id, seconds)))
    ensures !HasEntry(Served(start, rounds), id)
  {
    hide ListAfter;
    var n := |rounds| - 1;
    var before, last := rounds[..n], rounds[n];
    WellTimedPrefix(start, rounds, n);
    RunKeepsInv(start, before);
    SameIds(start, before, id);
    if last.request == Some(Cancel(id)) {
      DropInOrder(Firings(start, before), Waiting(start, before), id, n);
    } else if HasEntry(Served(start, rounds), id) {
      var i :| 0 <= i < |Served(start, rounds)| && Served(start, rounds)[i].id == id;
      ServedMembers(start, rounds, Served(start, rounds)[i]);
    }
  }

  // ----- Exactly once ----------------------------------------------------------------------------

  /** After round k the timer is not started again, and not cancelled before or in the round in which
      it comes due. */
  ghost predicate LeftAlone(rounds: seq<Round>, k: nat, id: Id, due: real) {
    forall i :: k < i < |rounds| && rounds[i].request.Some? && rounds[i].request.value.id == id ==>
      rounds[i].request.value.Cancel? && due <= rounds[i - 1].clock
  }

  lemma {:induction false} ClockGrows(start: real, rounds: seq<Round>, i: nat, j: nat)
    requires WellTimed(start, rounds) && i <= j < |rounds|
    ensures rounds[i].clock <= rounds[j].clock
    decreases j
  {
    if i == j {
    } else {
      ClockGrows(start, rounds, i, j - 1);
      assert Clock(start, rounds[..j]) == rounds[j - 1].clock;
    }
  }

  lemma StartsPrefix(start: real, rounds: seq<Round>, k: nat, id: Id, seconds: real, n: nat)
    requires Starts(start, rounds, k, id, seconds) && k < n <= |rounds|
    ensures Starts(start, rounds[..n], k, id, seconds)
  {
    hide ListAfter;
    assert rounds[..n][..k] == rounds[..k];
  }

  /** In a round before which the timer was not due, it fires if it is due now. */
  lemma FirstDue(start: real, rounds: seq<Round>, k: nat, id: Id, seconds: real, j: nat)
    requires WellTimed(start, rounds) && Starts(start, rounds, k, id, seconds) && k <= j < |rounds|
    requires LeftAlone(rounds, k, id, rounds[k].clock + seconds)
    requires j == k || rounds[j - 1].clock < rounds[k].clock + seconds
    ensures id in Fired(start, rounds[..j + 1]) <==> rounds[k].clock + seconds <= rounds[j].clock
    ensures NoRepeats(Fired(start, rounds[..j + 1]))
  {
    hide ListAfter, Fired;
    var now := rounds[..j + 1];
    WellTimedPrefix(start, rounds, j + 1);
    StartsPrefix(start, rounds, k, id, seconds, j + 1);
    forall i | k < i < |now|
      ensures now[i].request != Some(Cancel(id))
    {
      if now[i].request == Some(Cancel(id)) {
        ClockGrows(start, rounds, i - 1, j - 1);
      }
    }
    assert now[..j] == rounds[..j];
    StartedTimerFires(start, now, k, id, seconds);
  }

  /** Once it has been due, the timer is gone. */
  lemma {:induction false} GoneOnceDue(start: real, rounds: seq<Round>, k: nat, id: Id, seconds: real, j: nat)
    requires WellTimed(start, rounds) && Starts(start, rounds, k, id, seconds) && k < j <= |rounds|
    requires LeftAlone(rounds, k, id, rounds[k].clock + seconds)
    requires rounds[k].clock + seconds <= rounds[j - 1].clock
    ensures !Has(ListAfter(start, rounds[..j]), id)
    decreases j
  {
    hide ListAfter, Fired, Starts, NoRepeats, Has, LeftAlone, WellTimed;
    WellTimedPrefix(start, rounds, j);
    StartsIn(start, rounds, k, id, seconds);
    if j - 1 == k || rounds[j - 2].clock < rounds[k].clock + seconds {
      FirstDue(start, rounds, k, id, seconds, j - 1);
      FiredIsGone(start, rounds[..j], id);
    } else {
      GoneOnceDue(start, rounds, k, id, seconds, j - 1);
      StaysSilent(start, rounds, k, id, j - 1, rounds[k].clock + seconds);
    }
  }

  lemma StartsIn(start: real, rounds: seq<Round>, k: nat, id: Id, seconds: real)
    requires Starts(start, rounds, k, id, seconds)
    ensures k < |rounds|
  {}

  /** A timer that is gone and not started again does not fire. */
  lemma StaysSilent(start: real, rounds: seq<Round>, k: nat, id: Id, j: nat, due: real)
    requires WellTimed(start, rounds) && k < j < |rounds| && LeftAlone(rounds, k, id, due)
    requires !Has(ListAfter(start, rounds[..j]), id)
    ensures id !in Fired(start, rounds[..j + 1]) && !Has(ListAfter(start, rounds[..j + 1]), id)
  {
    hide ListAfter, Fired, Has, WellTimed;
    WellTimedPrefix(start, rounds, j + 1);
    assert rounds[..j + 1][..j] == rounds[..j];
    SilentUntilStarted(start, rounds[..j + 1], id);
  }

  /** Over a whole run a timer that is left alone fires in exactly one round after its start, and
      once in that: the first whose clock is at least the clock at its start plus its duration. */
  lemma FiresExactlyOnce(start: real, rounds: seq<Round>, k: nat, id: Id, seconds: real, j: nat)
    requires WellTimed(start, rounds) && Starts(start, rounds, k, id, seconds) && k <= j < |rounds|
    requires LeftAlone(rounds, k, id, rounds[k].clock + seconds)
    ensures var due := rounds[k].clock + seconds;
            id in Fired(start, rounds[..j + 1]) <==> due <= rounds[j].clock && (j == k || rounds[j - 1].clock < due)
    ensures id in Fired(start, rounds[..j + 1]) ==> NoRepeats(Fired(start, rounds[..j + 1]))
  {
    hide ListAfter, Fired, NoRepeats, Has;
    if j == k || rounds[j - 1].clock < rounds[k].clock + seconds {
      FirstDue(start, rounds, k, id, seconds, j);
    } else {
      GoneOnceDue(start, rounds, k, id, seconds, j);
      StaysSilent(start, rounds, k, id, j, rounds[k].clock + seconds);
    }
  }

  // ----- One waiting timer -----------------------------------------------------------------------

  lemma EntryFor(start: real, rounds: seq<Round>, id: Id) returns (x: Entry)
    requires HasEntry(Waiting(start, rounds), id)
    ensures x in Waiting(start, rounds) && x.id == id
  {
    var w := Waiting(start, rounds);
    var i :| 0 <= i < |w| && w[i].id == id;
    x := w[i];
  }

  lemma NotYetDue(start: real, rounds: seq<Round>, x: Entry)
    requires WellTimed(start, rounds) && x in Waiting(start, rounds)
    ensures Clock(start, rounds) < x.deadline
  {
    hide ListAfter, Waiting, Rep, InOrder, Firings, WellTimed;
    RunKeepsInv(start, rounds);
  }

  /** While an id stays in the list, its entry stays the same. */
  lemma StillListed(start: real, rounds: seq<Round>, x: Entry)
    requires WellTimed(start, rounds) && rounds != [] && x in Waiting(start, rounds[..|rounds| - 1])
    requires Has(ListAfter(start, rounds), x.id)
    ensures x in Waiting(start, rounds)
  {
    hide ListAfter, Waiting, Rep, Firings, WellTimed, Has, AllAfter, OneRound, LastFirings;
    var n := |rounds| - 1;
    WellTimedPrefix(start, rounds, n);
    RunKeepsInv(start, rounds[..n]);
    SameIds(start, rounds, x.id);
    var y := EntryFor(start, rounds, x.id);
    WaitingServed(start, rounds, y);
    ServedUnfolds(start, rounds);
    ServeSame(Waiting(start, rounds[..n]), rounds[n].request, rounds[n].clock, n, x, y);
  }

  lemma WaitingServed(start: real, rounds: seq<Round>, y: Entry)
    requires rounds != [] && y in Waiting(start, rounds)
    ensures y in Served(start, rounds)
  {
    hide Served;
  }

  lemma ServeSame(w: seq<Entry>, request: Option<Request>, now: real, stamp: nat, x: Entry, y: Entry)
    requires Distinct(w) && x in w && y in Serve(w, request, now, stamp) && x.id == y.id
    ensures x == y
  {
    hide Enqueue, Drop;
    assert HasEntry(w, x.id);
    match request {
      case None =>
      case Some(Start(id, seconds)) =>
        if !HasEntry(w, id) {
          EnqueueMembers(w, Entry(id, now + seconds, stamp), y);
        }
      case Some(Cancel(id)) => DropMembers(w, id, y);
    }
    assert y in w;
  }
}
