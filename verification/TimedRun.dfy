/** The timer process inside the protocol: its steps are a run of the timer's main loop, with a
    clock that never goes back and durations that are never negative. */
module TimedRun {
  import opened Wire
  import opened TimerList
  import TimerRun
  import opened Sender
  import opened Protocol

  // ----- Every duration is positive --------------------------------------------------------------

  ghost predicate Positive(e: Estimator) {
    e.rttPrev > 0.0 && e.devPrev >= 0.0
  }

  ghost predicate AllPositive(requests: seq<Request>) {
    forall i :: 0 <= i < |requests| && requests[i].Start? ==> requests[i].seconds > 0.0
  }

  ghost predicate Timed(c: Client) {
    Positive(c.estimator) && AllPositive(c.toTimer)
  }

  lemma {:induction false} StartsPositive(sent: seq<Package>, e: Estimator)
    requires Positive(e)
    ensures AllPositive(Starts(sent, e)) && Positive(AfterSends(|sent|, e))
    decreases |sent|
  {
    if sent == [] {
    } else {
      StartsPositive(sent[1..], AfterSend(e));
      assert |sent[1..]| == |sent| - 1;
    }
  }

  lemma {:induction false} FlushTimed(c: Client, order: seq<int>)
    requires Timed(c) && forall i :: 0 <= i < |order| ==> order[i] in c.socks
    ensures Timed(FlushInOrder(c, order))
  {
    if order == [] {
    } else {
      var n := |order| - 1;
      var c1 := FlushInOrder(c, order[..n]);
      FlushTimed(c, order[..n]);
      hide ToSend, Starts, AfterSends;
      StartsPositive(ToSend(c1.socks[order[n]]), c1.estimator);
    }
  }

  lemma StepTimed(s: System, step: Step)
    requires Timed(s.client) && Enabled(s, step)
    ensures Timed(After(s, step).client)
  {
    hide OpenAck, OpenData, Accept, Acknowledge;
    if step.FlushStep? {
      FlushTimed(s.client, step.order);
    }
  }

  lemma {:induction false} RunTimed(states: seq<System>, steps: seq<Step>, i: nat)
    requires IsRun(states, steps) && i < |states|
    ensures Timed(states[i].client)
  {
    hide Timed, Enabled, After;
    if i == 0 {
      StartTimed();
    } else {
      RunTimed(states, steps, i - 1);
      StepTimed(states[i - 1], steps[i - 1]);
    }
  }

  lemma StartTimed()
    ensures Timed(Client(0, INITIAL_ESTIMATOR, map[], [], []))
  {}

  // ----- The rounds of the timer process ---------------------------------------------------------

  /** The rounds of the timer's main loop in the first i steps of a run; the clock starts at 0. */
  ghost function Rounds(states: seq<System>, steps: seq<Step>, i: nat): seq<TimerRun.Round>
    requires i <= |steps| < |states|
  {
    if i == 0 then
      []
    else
      var before := Rounds(states, steps, i - 1);
      match steps[i - 1]
      case TimerStep(elapsed, take) =>
        before + [TimerRun.Round(TimerRun.Clock(0.0, before) + elapsed, TimerRequest(states[i - 1], take))]
      case _ => before
  }

  lemma WellTimedMore(rounds: seq<TimerRun.Round>, r: TimerRun.Round)
    requires TimerRun.WellTimed(0.0, rounds)
    requires TimerRun.Clock(0.0, rounds) <= r.clock && TimerRun.NonNegative(r.request)
    ensures TimerRun.WellTimed(0.0, rounds + [r])
  {
    hide TimerRun.NonNegative, TimerRun.Clock;
    var all := rounds + [r];
    assert all[..|rounds|] == rounds;
    forall k | 0 <= k < |all|
      ensures TimerRun.Clock(0.0, all[..k]) <= all[k].clock && TimerRun.NonNegative(all[k].request)
    {
      if k < |rounds| {
        assert all[..k] == rounds[..k] && all[k] == rounds[k];
      }
    }
  }

  lemma OneMoreRound(rounds: seq<TimerRun.Round>, r: TimerRun.Round)
    ensures var round := OneRound(TimerRun.ListAfter(0.0, rounds), r.clock - TimerRun.Clock(0.0, rounds), r.request);
            && TimerRun.ListAfter(0.0, rounds + [r]) == round.0
            && TimerRun.Fired(0.0, rounds + [r]) == round.1
  {
    hide OneRound, TimerRun.Clock;
    var all := rounds + [r];
    assert all[..|all| - 1] == rounds && all[|all| - 1] == r;
  }

  lemma RequestNonNegative(s: System, take: bool)
    requires Timed(s.client)
    ensures TimerRun.NonNegative(TimerRequest(s, take))
  {}

  /** In every run the timer list is what the timer's own loop makes of its rounds, so that what
      holds of all its runs holds here; and the notices are what each round fires. */
  lemma {:induction false} TimerRunsItsLoop(states: seq<System>, steps: seq<Step>, i: nat)
    requires IsRun(states, steps) && i < |states|
    ensures TimerRun.WellTimed(0.0, Rounds(states, steps, i))
    ensures TimerRun.ListAfter(0.0, Rounds(states, steps, i)) == states[i].timer
    ensures i > 0 && steps[i - 1].TimerStep? ==>
              && Rounds(states, steps, i) != []
              && states[i].notices == states[i - 1].notices + TimerRun.Fired(0.0, Rounds(states, steps, i))
  {
    hide Timed, OneRound, TimerRun.WellTimed, TimerRun.ListAfter, TimerRun.Fired, TimerRequest, TimerRun.NonNegative;
    if i == 0 {
      NoRounds();
    } else {
      TimerRunsItsLoop(states, steps, i - 1);
      RunTimed(states, steps, i - 1);
      var s, step, before := states[i - 1], steps[i - 1], Rounds(states, steps, i - 1);
      assert Enabled(s, step) && states[i] == After(s, step);
      if step.TimerStep? {
        RequestNonNegative(s, step.take);
        var round := TimerRun.Round(TimerRun.Clock(0.0, before) + step.elapsed, TimerRequest(s, step.take));
        WellTimedMore(before, round);
        OneMoreRound(before, round);
      } else {
        TimerUntouched(s, step);
      }
    }
  }

  lemma TimerUntouched(s: System, step: Step)
    requires Enabled(s, step) && !step.TimerStep?
    ensures After(s, step).timer == s.timer
  {
    hide OpenAck, OpenData;
  }

  lemma NoRounds()
    ensures TimerRun.WellTimed(0.0, []) && TimerRun.ListAfter(0.0, []) == []
  {}
}
