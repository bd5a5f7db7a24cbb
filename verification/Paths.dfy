/** Continuations of a run, under different rules for who may do what. */
module Paths {
  import opened Sender
  import opened ServerTables
  import opened Conversation
  import opened Protocol
  import opened Reliability
  import opened Framing

  // ----- Rules -----------------------------------------------------------------------------------

  predicate NextFrame(frames: seq<Payload>, n: nat, body: Payload) {
    n < |frames| && body == frames[n]
  }

  /** The sending process of session x hands over the frames one after the other. */
  ghost predicate SendsNext(s: System, step: Step, x: int, frames: seq<Payload>)
    requires Enabled(s, step)
  {
    step.SendStep? && s.client.socks[step.fd].session == x ==>
      NextFrame(frames, s.client.socks[step.fd].base, step.body)
  }

  /** And the receiving process asks for what final/ftps.c would ask for next. */
  ghost predicate Obeys(s: System, step: Step, x: int, frames: seq<Payload>)
    requires Enabled(s, step)
  {
    && SendsNext(s, step, x, frames)
    && (step.RecvStep? && step.session == x && x in s.server.accepted ==>
          step.length == NextRequest(s.server.accepted[x].out))
  }

  /** The timer, its notices, and flushes: nothing is delivered and nothing accepted. */
  predicate Quiet(step: Step) {
    step.TimerStep? || step.NoticeStep? || step.FlushStep?
  }

  /** No process makes a call. */
  predicate NoCall(step: Step) {
    Quiet(step) || step.AckStep? || step.DataStep? || step.AcceptStep? || step.DrainStep?
  }

  datatype Rules = Anything | NoCalls | TimerOnly | Programs(x: int, frames: seq<Payload>)

  ghost predicate Allowed(s: System, step: Step, rules: Rules) {
    Enabled(s, step) &&
    match rules
    case Anything => true
    case NoCalls => NoCall(step)
    case TimerOnly => Quiet(step)
    case Programs(x, frames) => Obeys(s, step, x, frames)
  }

  // ----- Paths -----------------------------------------------------------------------------------

  ghost predicate Path(s: System, steps: seq<Step>, t: System, rules: Rules)
    decreases |steps|
  {
    if steps == [] then t == s else Allowed(s, steps[0], rules) && Path(After(s, steps[0]), steps[1..], t, rules)
  }

  lemma {:induction false} PathConcat(s: System, a: seq<Step>, t: System, b: seq<Step>, u: System, rules: Rules)
    requires Path(s, a, t, rules) && Path(t, b, u, rules)
    ensures Path(s, a + b, u, rules)
    decreases |a|
  {
    hide Enabled, Obeys, After;
    if a == [] {
      assert a + b == b;
    } else {
      assert (a + b)[1..] == a[1..] + b && (a + b)[0] == a[0];
      PathConcat(After(s, a[0]), a[1..], t, b, u, rules);
    }
  }

  lemma NoSteps(s: System, rules: Rules)
    ensures Path(s, [], s, rules)
  {}

  lemma OneStep(s: System, step: Step, rules: Rules)
    requires Allowed(s, step, rules)
    ensures Path(s, [step], After(s, step), rules)
  {
    hide Enabled, Obeys, After;
    assert [step][1..] == [];
    NoSteps(After(s, step), rules);
  }

  lemma PathThen(s: System, steps: seq<Step>, t: System, step: Step, rules: Rules)
    requires Path(s, steps, t, rules) && Allowed(t, step, rules)
    ensures Path(s, steps + [step], After(t, step), rules)
  {
    hide Path, Enabled, Obeys, After;
    OneStep(t, step, rules);
    PathConcat(s, steps, t, [step], After(t, step), rules);
  }

  lemma {:induction false} PathInv(s: System, steps: seq<Step>, t: System, rules: Rules)
    requires Inv(s) && Path(s, steps, t, rules)
    ensures Inv(t)
    decreases |steps|
  {
    hide Inv, Enabled, After;
    if steps == [] {
    } else {
      StepInv(s, steps[0]);
      PathInv(After(s, steps[0]), steps[1..], t, rules);
    }
  }

  /** Rules that ask for less. */
  predicate Relaxes(rules: Rules, rules': Rules) {
    || rules'.Anything?
    || rules == rules'
    || (rules.TimerOnly? && (rules'.NoCalls? || rules'.Programs?))
    || (rules.NoCalls? && rules'.Programs?)
  }

  lemma {:induction false} PathRelaxed(s: System, steps: seq<Step>, t: System, rules: Rules, rules': Rules)
    requires Path(s, steps, t, rules) && Relaxes(rules, rules')
    ensures Path(s, steps, t, rules')
    decreases |steps|
  {
    hide Enabled, After, NextFrame, NextRequest;
    if steps == [] {
    } else {
      PathRelaxed(After(s, steps[0]), steps[1..], t, rules, rules');
    }
  }

  /** Where every run starts. */
  ghost function StartState(): (s: System)
    ensures Init(s)
  {
    System(Client(0, INITIAL_ESTIMATOR, map[], [], []), 0, [], [], Server([], [], map[], []), map[], map[], {})
  }

  ghost predicate Leads(s: System, step: Step, t: System) {
    Enabled(s, step) && t == After(s, step)
  }

  lemma RunLeads(states: seq<System>, steps: seq<Step>)
    requires IsRun(states, steps)
    ensures |states| == |steps| + 1 && Init(states[0])
    ensures forall j :: 0 <= j < |steps| ==> Leads(states[j], steps[j], states[j + 1])
  {
    hide Enabled, After, Init;
  }

  lemma LeadsRun(states: seq<System>, steps: seq<Step>)
    requires |states| == |steps| + 1 && Init(states[0])
    requires forall j :: 0 <= j < |steps| ==> Leads(states[j], steps[j], states[j + 1])
    ensures IsRun(states, steps)
  {
    hide Enabled, After, Init;
    forall j | 0 <= j < |steps|
      ensures Enabled(states[j], steps[j]) && states[j + 1] == After(states[j], steps[j])
    {
      assert Leads(states[j], steps[j], states[j + 1]);
    }
  }

  /** The states a path passes through. */
  lemma {:induction false} Trace(s: System, steps: seq<Step>, t: System, rules: Rules) returns (states: seq<System>)
    requires Path(s, steps, t, rules)
    ensures |states| == |steps| + 1 && states[0] == s && states[|steps|] == t
    ensures forall j :: 0 <= j < |steps| ==>
      Allowed(states[j], steps[j], rules) && Leads(states[j], steps[j], states[j + 1])
    decreases |steps|
  {
    hide Enabled, After, Obeys;
    if steps == [] {
      states := [s];
    } else {
      var rest := Trace(After(s, steps[0]), steps[1..], t, rules);
      states := [s] + rest;
    }
  }

  /** A path from a state of a run makes another run. */
  lemma Extended(states: seq<System>, steps: seq<Step>, i: nat, more: seq<Step>, t: System, rules: Rules)
    returns (states': seq<System>)
    requires IsRun(states, steps) && i < |states| && Path(states[i], more, t, rules)
    ensures i <= |steps| && |states'| == i + |more| + 1
    ensures IsRun(states', steps[..i] + more) && states'[i + |more|] == t
    ensures forall j :: 0 <= j <= i ==> states'[j] == states[j]
    ensures forall j :: 0 <= j < |more| ==> Allowed(states'[i + j], more[j], rules)
  {
    hide Leads, IsRun, Init, Path, Allowed;
    RunLeads(states, steps);
    var trace := Trace(states[i], more, t, rules);
    states' := states[..i] + trace;
    var steps' := steps[..i] + more;
    forall j | 0 <= j < |steps'|
      ensures Leads(states'[j], steps'[j], states'[j + 1])
    {
      if j < i {
        assert states'[j] == states[j] && states'[j + 1] == states[j + 1] && steps'[j] == steps[j];
      } else {
        assert states'[j] == trace[j - i] && states'[j + 1] == trace[j - i + 1] && steps'[j] == more[j - i];
      }
    }
    LeadsRun(states', steps');
  }

  // ----- The order of the main loops -------------------------------------------------------------

  /** What a daemon does at the end of each turn of its main loop follows each event: the sender
      flushes, the receiver accepts and drains.  The timer takes its own turns. */
  predicate Orderly(steps: seq<Step>)
    decreases |steps|
  {
    steps == [] ||
    match steps[0]
    case TimerStep(_, _) => Orderly(steps[1..])
    case FlushStep(_) => Orderly(steps[1..])
    case ConnectStep(_, _, _) => |steps| > 1 && steps[1].FlushStep? && Orderly(steps[2..])
    case SendStep(_, _) => |steps| > 1 && steps[1].FlushStep? && Orderly(steps[2..])
    case AckStep(_, _, _) => |steps| > 1 && steps[1].FlushStep? && Orderly(steps[2..])
    case NoticeStep => |steps| > 1 && steps[1].FlushStep? && Orderly(steps[2..])
    case BindStep(_) => ReceiverTurn(steps)
    case DataStep(_, _) => ReceiverTurn(steps)
    case AcceptCallStep(_) => ReceiverTurn(steps)
    case RecvStep(_, _) => ReceiverTurn(steps)
    case AcceptStep => |steps| > 1 && steps[1].DrainStep? && Orderly(steps[2..])
    case DrainStep => false
  }

  predicate ReceiverTurn(steps: seq<Step>)
    decreases |steps|, 0
  {
    |steps| > 2 && steps[1].AcceptStep? && steps[2].DrainStep? && Orderly(steps[3..])
  }

  predicate OfSender(step: Step) {
    step.ConnectStep? || step.SendStep? || step.AckStep? || step.NoticeStep? || step.FlushStep?
  }

  /** The sending daemon has read a notice, and has not taken a step since. */
  predicate MidTurn(steps: seq<Step>)
    decreases |steps|
  {
    && steps != []
    && var last := steps[|steps| - 1];
       last.NoticeStep? || (!OfSender(last) && MidTurn(steps[..|steps| - 1]))
  }

  /** The next step of the sending daemon after a notice is a flush, whatever the timer and the
      receiving daemon do in between. */
  predicate TurnsKept(steps: seq<Step>) {
    forall i :: 0 <= i < |steps| && OfSender(steps[i]) && MidTurn(steps[..i]) ==> steps[i].FlushStep?
  }

  /** Whole turns of the main loops can follow one another. */
  lemma {:induction false} OrderlyConcat(a: seq<Step>, b: seq<Step>)
    requires Orderly(a) && Orderly(b)
    ensures Orderly(a + b)
    decreases |a|
  {
    if a == [] {
      assert a + b == b;
    } else {
      var n := if a[0].TimerStep? || a[0].FlushStep? then 1
               else if a[0].ConnectStep? || a[0].SendStep? || a[0].AckStep? || a[0].NoticeStep? ||
                   a[0].AcceptStep? then 2
               else 3;
      OrderlyConcat(a[n..], b);
      assert (a + b)[n..] == a[n..] + b;
      assert forall k :: 0 <= k < n ==> (a + b)[k] == a[k];
    }
  }

  /** A path that keeps to the order of the main loops. */
  ghost predicate Goes(s: System, steps: seq<Step>, t: System, rules: Rules) {
    Path(s, steps, t, rules) && Orderly(steps)
  }

  lemma GoesConcat(s: System, a: seq<Step>, t: System, b: seq<Step>, u: System, rules: Rules)
    requires Goes(s, a, t, rules) && Goes(t, b, u, rules)
    ensures Goes(s, a + b, u, rules)
  {
    hide Path, Orderly;
    PathConcat(s, a, t, b, u, rules);
    OrderlyConcat(a, b);
  }

  lemma GoesNowhere(s: System, rules: Rules)
    ensures Goes(s, [], s, rules)
  {}

  lemma GoesRelaxed(s: System, steps: seq<Step>, t: System, rules: Rules, rules': Rules)
    requires Goes(s, steps, t, rules) && Relaxes(rules, rules')
    ensures Goes(s, steps, t, rules')
  {
    hide Path, Orderly;
    PathRelaxed(s, steps, t, rules, rules');
  }

  lemma GoesInv(s: System, steps: seq<Step>, t: System, rules: Rules)
    requires Inv(s) && Goes(s, steps, t, rules)
    ensures Inv(t)
  {
    hide Inv, Path;
    PathInv(s, steps, t, rules);
  }
}
