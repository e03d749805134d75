/**
 Whole histories of the policy engine. The process holds one state for its
 lifetime, and each engine operation runs atomically under the state's lock.
 Four kinds of event reach it: a door report from the sensor, a tick of the
 staleness loop, and the two halves of an alert-loop tick. The alert loop
 takes the lock to decide whether an alert is due and releases it while the
 alert is delivered to the chat channel. It then takes the lock again to
 commit the alert on whatever the state is by then, whether or not delivery
 succeeded. Other events may run between the two halves.
 */
module Lifecycle {
  import opened DoorState
  import opened Ingress

  datatype Step =
    | Report(transition: Transition, at: Time)
    | TimeoutTick(at: Time)
    | AlertCheck(at: Time)   // decide under the lock; the state is only read
    | PingCommit             // after delivery: commit on the then-current state

  function Exec(s: State, step: Step): State {
    match step
    case Report(t, now) => Apply(s, t, now)
    case TimeoutTick(now) => CheckTimeout(s, now)
    case AlertCheck(_) => s
    case PingCommit => PingSent(s)
  }

  /** The state after the steps, in order. */
  function Run(s: State, steps: seq<Step>): State
    decreases |steps|
  {
    if steps == [] then s else Exec(Run(s, steps[..|steps| - 1]), steps[|steps| - 1])
  }

  /** The alert, if any, that a step hands to the chat channel. */
  function Fired(s: State, step: Step): Option<Alert> {
    if step.AlertCheck? then CheckSendPing(s, step.at) else None
  }

  /** The alerts handed to the chat channel along the steps, in order. */
  function Alerts(s: State, steps: seq<Step>): seq<Alert>
    decreases |steps|
  {
    if steps == [] then []
    else
      var fired := Fired(Run(s, steps[..|steps| - 1]), steps[|steps| - 1]);
      Alerts(s, steps[..|steps| - 1]) + (if fired.Some? then [fired.value] else [])
  }

  /** The number of alert commits along the steps. */
  function Commits(steps: seq<Step>): nat
    decreases |steps|
  {
    if steps == [] then 0
    else Commits(steps[..|steps| - 1]) + (if steps[|steps| - 1].PingCommit? then 1 else 0)
  }

  predicate IsClose(step: Step) {
    step.Report? && step.transition == ToClosed
  }

  predicate IsOpenOrClose(step: Step) {
    step.Report? && step.transition != ToMissing
  }

  /** Every state reachable from a valid one is valid; in particular every state of the process. */
  lemma {:induction false} RunPreservesValid(s: State, steps: seq<Step>)
    requires Valid(s)
    ensures Valid(Run(s, steps))
    decreases |steps|
  {
    if steps != [] {
      RunPreservesValid(s, steps[..|steps| - 1]);
    }
  }

  /** The invariant holds in every state of the process, so the interval is base times 2^pings and never below base. */
  lemma ReachableStatesValid(steps: seq<Step>)
    ensures Valid(Run(InitialState(), steps))
    ensures Run(InitialState(), steps).currentPingInterval
              == BasePingInterval * Pow2(Run(InitialState(), steps).pingsSent)
    ensures Run(InitialState(), steps).currentPingInterval >= BasePingInterval
  {
    RunPreservesValid(InitialState(), steps);
    IntervalAtLeastBase(Run(InitialState(), steps));
  }

  /**
   Reports are last-write-wins: after the most recent report, as long as only
   alert checks and commits follow, the door is where that report put it.
   */
  lemma {:induction false} LastReportWins(s: State, steps: seq<Step>, i: nat)
    requires i < |steps| && steps[i].Report?
    requires forall j :: i < j < |steps| ==> steps[j].AlertCheck? || steps[j].PingCommit?
    ensures Run(s, steps).status == Target(steps[i].transition)
    decreases |steps|
  {
    if i < |steps| - 1 {
      LastReportWins(s, steps[..|steps| - 1], i);
    }
  }

  /** Without a close, the open time, once set, survives every report, timeout and alert. */
  lemma {:induction false} OpenTimeSurvivesUntilClose(s: State, steps: seq<Step>)
    requires s.openTime.Some?
    requires forall i :: 0 <= i < |steps| ==> !IsClose(steps[i])
    ensures Run(s, steps).openTime == s.openTime
    decreases |steps|
  {
    if steps != [] {
      OpenTimeSurvivesUntilClose(s, steps[..|steps| - 1]);
    }
  }

  /** Only open and close reports move the last update; timeouts, alerts and unrecognised reports do not. */
  lemma {:induction false} LastUpdateOnlyByReports(s: State, steps: seq<Step>)
    requires forall i :: 0 <= i < |steps| ==> !IsOpenOrClose(steps[i])
    ensures Run(s, steps).lastUpdate == s.lastUpdate
    decreases |steps|
  {
    if steps != [] {
      LastUpdateOnlyByReports(s, steps[..|steps| - 1]);
    }
  }

  /**
   The decision half of an alert-loop tick only reads the state: it leaves
   the state as it was and hands out exactly what `CheckSendPing` decides.
   */
  lemma AlertCheckOnlyReads(s: State, steps: seq<Step>, now: Time)
    ensures Run(s, steps + [AlertCheck(now)]) == Run(s, steps)
    ensures var due := CheckSendPing(Run(s, steps), now);
      Alerts(s, steps + [AlertCheck(now)]) == Alerts(s, steps) + (if due.Some? then [due.value] else [])
  {
  }

  /** Running one more step is executing it on the state the earlier steps reached. */
  lemma RunSnoc(s: State, steps: seq<Step>, step: Step)
    ensures Run(s, steps + [step]) == Exec(Run(s, steps), step)
    ensures Alerts(s, steps + [step])
              == Alerts(s, steps) + (if Fired(Run(s, steps), step).Some? then [Fired(Run(s, steps), step).value] else [])
    ensures Commits(steps + [step]) == Commits(steps) + (if step.PingCommit? then 1 else 0)
  {
    assert (steps + [step])[..|steps|] == steps;
  }

  /** The effect of one step on the alert counter and the interval, when it is not a close. */
  lemma StepCountsCommit(s: State, step: Step)
    requires !IsClose(step)
    ensures Exec(s, step).pingsSent == s.pingsSent + (if step.PingCommit? then 1 else 0)
    ensures Exec(s, step).currentPingInterval
              == (if step.PingCommit? then 2 * s.currentPingInterval else s.currentPingInterval)
  {
  }

  /**
   Between closes the alert counter grows by exactly the number of commits,
   and the interval doubles once for each of them.
   */
  lemma {:induction false} PingsCountCommitsUntilClose(s: State, steps: seq<Step>)
    requires forall i :: 0 <= i < |steps| ==> !IsClose(steps[i])
    ensures Run(s, steps).pingsSent == s.pingsSent + Commits(steps)
    ensures Run(s, steps).currentPingInterval == s.currentPingInterval * Pow2(Commits(steps))
    decreases |steps|
  {
    if steps != [] {
      var init, last := steps[..|steps| - 1], steps[|steps| - 1];
      assert steps == init + [last];
      PingsCountCommitsUntilClose(s, init);
      RunSnoc(s, init, last);
      assert !IsClose(last);
      StepCountsCommit(Run(s, init), last);
      if last.PingCommit? {
        DoublePow2(s.currentPingInterval, Commits(init));
      }
    }
  }

  /** Between closes the back-off interval never shrinks. */
  lemma IntervalNonDecreasingUntilClose(s: State, steps: seq<Step>)
    requires s.currentPingInterval >= 0
    requires forall i :: 0 <= i < |steps| ==> !IsClose(steps[i])
    ensures Run(s, steps).currentPingInterval >= s.currentPingInterval
  {
    PingsCountCommitsUntilClose(s, steps);
  }

  /**
   A close that arrives while an alert is being delivered does not stop the
   commit: the door ends closed with one alert counted and the interval at 20.
   Reopened at 13, it is then quiet at 24, where without the late commit an
   alert would be due.
   */
  lemma CommitAfterClose()
    ensures Alerts(InitialState(), [Report(ToOpen, 0), AlertCheck(11), Report(ToClosed, 12), PingCommit])
              == [OpenFor(10)]
    ensures Run(InitialState(), [Report(ToOpen, 0), AlertCheck(11), Report(ToClosed, 12), PingCommit])
              == State(Closed, Some(12), None, 1, 20)
    ensures CheckSendPing(Run(InitialState(),
              [Report(ToOpen, 0), AlertCheck(11), Report(ToClosed, 12), PingCommit, Report(ToOpen, 13)]), 24)
              == None
    ensures CheckSendPing(Run(InitialState(),
              [Report(ToOpen, 0), AlertCheck(11), Report(ToClosed, 12), Report(ToOpen, 13)]), 24)
              == Some(OpenFor(10))
  {
    var s0 := InitialState();
    var h1 := [Report(ToOpen, 0)];
    var h2 := [Report(ToOpen, 0), AlertCheck(11)];
    var h3 := [Report(ToOpen, 0), AlertCheck(11), Report(ToClosed, 12)];
    var h4 := [Report(ToOpen, 0), AlertCheck(11), Report(ToClosed, 12), PingCommit];
    var h5 := [Report(ToOpen, 0), AlertCheck(11), Report(ToClosed, 12), PingCommit, Report(ToOpen, 13)];
    var g4 := [Report(ToOpen, 0), AlertCheck(11), Report(ToClosed, 12), Report(ToOpen, 13)];
    assert h1 == [] + [Report(ToOpen, 0)];
    RunSnoc(s0, [], Report(ToOpen, 0));
    assert Run(s0, h1) == State(Open, Some(0), Some(0), 0, 10);
    assert h2 == h1 + [AlertCheck(11)];
    RunSnoc(s0, h1, AlertCheck(11));
    assert Run(s0, h2) == State(Open, Some(0), Some(0), 0, 10);
    assert Alerts(s0, h2) == [OpenFor(10)];
    assert h3 == h2 + [Report(ToClosed, 12)];
    RunSnoc(s0, h2, Report(ToClosed, 12));
    assert Run(s0, h3) == State(Closed, Some(12), None, 0, 10);
    assert Alerts(s0, h3) == [OpenFor(10)];
    assert h4 == h3 + [PingCommit];
    RunSnoc(s0, h3, PingCommit);
    assert Run(s0, h4) == State(Closed, Some(12), None, 1, 20);
    assert h5 == h4 + [Report(ToOpen, 13)];
    RunSnoc(s0, h4, Report(ToOpen, 13));
    assert Run(s0, h5) == State(Open, Some(13), Some(13), 1, 20);
    assert g4 == h3 + [Report(ToOpen, 13)];
    RunSnoc(s0, h3, Report(ToOpen, 13));
    assert Run(s0, g4) == State(Open, Some(13), Some(13), 0, 10);
  }

  /**
   A concrete history: open at 0; nothing due at 5; an open alert at 11 whose
   commit doubles the interval to 20; another open alert at 25, measured from
   the open time at 0 and not from the previous alert; a close at 40 resets
   the back-off.
   */
  lemma Scenario()
    ensures Run(InitialState(), [Report(ToOpen, 0)]).openTime == Some(0)
    ensures Alerts(InitialState(), [Report(ToOpen, 0), AlertCheck(5)]) == []
    ensures Alerts(InitialState(), [Report(ToOpen, 0), AlertCheck(5), AlertCheck(11)]) == [OpenFor(10)]
    ensures Run(InitialState(), [Report(ToOpen, 0), AlertCheck(5), AlertCheck(11), PingCommit]).currentPingInterval
              == 20
    ensures Alerts(InitialState(), [Report(ToOpen, 0), AlertCheck(5), AlertCheck(11), PingCommit, AlertCheck(25)])
              == [OpenFor(10), OpenFor(20)]
    ensures Run(InitialState(), [Report(ToOpen, 0), AlertCheck(5), AlertCheck(11), PingCommit, AlertCheck(25),
                                 PingCommit, Report(ToClosed, 40)])
              == State(Closed, Some(40), None, 0, BasePingInterval)
  {
    var s0 := InitialState();
    var h1 := [Report(ToOpen, 0)];
    var h2 := [Report(ToOpen, 0), AlertCheck(5)];
    var h3 := [Report(ToOpen, 0), AlertCheck(5), AlertCheck(11)];
    var h4 := [Report(ToOpen, 0), AlertCheck(5), AlertCheck(11), PingCommit];
    var h5 := [Report(ToOpen, 0), AlertCheck(5), AlertCheck(11), PingCommit, AlertCheck(25)];
    var h6 := [Report(ToOpen, 0), AlertCheck(5), AlertCheck(11), PingCommit, AlertCheck(25), PingCommit];
    var h7 := [Report(ToOpen, 0), AlertCheck(5), AlertCheck(11), PingCommit, AlertCheck(25), PingCommit,
               Report(ToClosed, 40)];
    assert h1 == [] + [Report(ToOpen, 0)];
    RunSnoc(s0, [], Report(ToOpen, 0));
    assert Run(s0, h1) == State(Open, Some(0), Some(0), 0, 10);
    assert Alerts(s0, h1) == [];
    assert h2 == h1 + [AlertCheck(5)];
    RunSnoc(s0, h1, AlertCheck(5));
    assert Run(s0, h2) == State(Open, Some(0), Some(0), 0, 10);
    assert Alerts(s0, h2) == [];
    assert h3 == h2 + [AlertCheck(11)];
    RunSnoc(s0, h2, AlertCheck(11));
    assert Run(s0, h3) == State(Open, Some(0), Some(0), 0, 10);
    assert Alerts(s0, h3) == [OpenFor(10)];
    assert h4 == h3 + [PingCommit];
    RunSnoc(s0, h3, PingCommit);
    assert Run(s0, h4) == State(Open, Some(0), Some(0), 1, 20);
    assert Alerts(s0, h4) == [OpenFor(10)];
    assert h5 == h4 + [AlertCheck(25)];
    RunSnoc(s0, h4, AlertCheck(25));
    assert Run(s0, h5) == State(Open, Some(0), Some(0), 1, 20);
    assert Alerts(s0, h5) == [OpenFor(10), OpenFor(20)];
    assert h6 == h5 + [PingCommit];
    RunSnoc(s0, h5, PingCommit);
    assert Run(s0, h6) == State(Open, Some(0), Some(0), 2, 40);
    assert h7 == h6 + [Report(ToClosed, 40)];
    RunSnoc(s0, h6, Report(ToClosed, 40));
    assert Run(s0, h7) == State(Closed, Some(40), None, 0, 10);
  }
}
