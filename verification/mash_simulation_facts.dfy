/** Properties of the mash simulation: the run invariant, the end dialog's
    timing, "each iodine test at most once per run", and what a restart
    does to the acknowledged tests. */
module MashSimulationFacts {
  import opened Wrappers
  import opened RealMath
  import opened MashPlan
  import MashPlanFacts
  import opened MashSimulation

  // ----- the invariant -----------------------------------------------------

  lemma LoadSatisfiesInv(steps: seq<MashStep>)
    requires WellFormed(steps)
    ensures Inv(steps, Load(steps))
  {
  }

  lemma TickPreservesInv(steps: seq<MashStep>, run: MashRun, r1: Draw, r2: Draw)
    requires WellFormed(steps) && Inv(steps, run)
    requires run.isRunning && !run.isPaused
    ensures Inv(steps, Tick(steps, run, r1, r2))
  {
    var next := Tick(steps, run, r1, r2);
    if run.time + 1 <= TotalTime(steps) {
      forall p | p in next.donePauses
        ensures Reached(steps, next.time, p)
      {
        var k: nat :| k <= run.time && StepIndex(steps, k) == p;
      }
    }
  }

  lemma TogglePreservesInv(steps: seq<MashStep>, run: MashRun)
    requires WellFormed(steps) && Inv(steps, run)
    ensures Inv(steps, Toggle(steps, run))
  {
  }

  lemma ContinuePreservesInv(steps: seq<MashStep>, run: MashRun)
    requires Inv(steps, run)
    ensures Inv(steps, ContinueAfterPause(steps, run))
  {
    var next := ContinueAfterPause(steps, run);
    assert Reached(steps, run.time, StepIndex(steps, run.time));
  }

  /** Within the plan every tick lands a measurement on the chart. */
  lemma TickRecordsMeasurement(steps: seq<MashStep>, run: MashRun, r1: Draw, r2: Draw)
    requires WellFormed(steps) && Inv(steps, run)
    requires run.isRunning && !run.isPaused && run.time + 1 <= TotalTime(steps)
    ensures var next := Tick(steps, run, r1, r2);
      next.time < |next.graphData| && next.graphData[next.time].actualTemp == Some(next.currentTemp)
  {
    MashPlanFacts.CurveCoversTotalTime(steps);
  }

  /** The end step is reached only at the last planned minute. */
  lemma EndOnlyAtLastMinute(steps: seq<MashStep>, run: MashRun, r1: Draw, r2: Draw)
    requires WellFormed(steps) && run.isRunning && !run.isPaused
    requires run.time + 1 <= TotalTime(steps)
    requires GateAt(steps, run.donePauses, StepIndex(steps, run.time + 1)) == EndReached
    ensures Tick(steps, run, r1, r2).time == TotalTime(steps)
  {
    if run.time + 1 < TotalTime(steps) {
      MashPlanFacts.StepIndexBeforeTotal(steps, run.time + 1);
      assert false;
    }
  }

  // ----- traces ------------------------------------------------------------

  /** What can happen to a mounted mash simulation: a tick of the interval,
      the start/pause button, "continue" on the iodine-test dialog. */
  datatype Action = TickAction(r1: Draw, r2: Draw) | ToggleAction | ContinueAction

  /** The tick only fires while running and not paused; "continue" exists
      only while the iodine-test dialog is shown. */
  function Apply(steps: seq<MashStep>, run: MashRun, a: Action): MashRun {
    match a
    case TickAction(r1, r2) => if run.isRunning && !run.isPaused then Tick(steps, run, r1, r2) else run
    case ToggleAction => Toggle(steps, run)
    case ContinueAction => if run.showPauseDialog then ContinueAfterPause(steps, run) else run
  }

  /** The start button pressed after the planned duration starts a new run. */
  predicate IsRestart(steps: seq<MashStep>, run: MashRun, a: Action) {
    a.ToggleAction? && !run.isRunning && run.time >= TotalTime(steps)
  }

  predicate NoRestart(steps: seq<MashStep>, run: MashRun, actions: seq<Action>)
    decreases |actions|
  {
    |actions| == 0 || (!IsRestart(steps, run, actions[0]) && NoRestart(steps, Apply(steps, run, actions[0]), actions[1..]))
  }

  /** This action is a tick that stops the run for an iodine test. */
  predicate RaisesIodineTest(steps: seq<MashStep>, run: MashRun, a: Action) {
    && a.TickAction? && run.isRunning && !run.isPaused && run.time + 1 <= TotalTime(steps)
    && GateAt(steps, run.donePauses, StepIndex(steps, run.time + 1)) == IodineTest
  }

  /** The steps whose iodine test is raised along a trace, in order. */
  function RaisedTests(steps: seq<MashStep>, run: MashRun, actions: seq<Action>): seq<int>
    decreases |actions|
  {
    if |actions| == 0 then []
    else
      (if RaisesIodineTest(steps, run, actions[0]) then [StepIndex(steps, run.time + 1)] else [])
      + RaisedTests(steps, Apply(steps, run, actions[0]), actions[1..])
  }

  lemma ApplyKeepsAcknowledged(steps: seq<MashStep>, run: MashRun, a: Action, p: int)
    requires p in run.donePauses && !IsRestart(steps, run, a)
    ensures p in Apply(steps, run, a).donePauses
  {
  }

  /** An acknowledged iodine test is never raised again until the next
      restart. */
  lemma {:induction false} AcknowledgedTestNotRaised(steps: seq<MashStep>, run: MashRun, actions: seq<Action>, p: int)
    requires p in run.donePauses && NoRestart(steps, run, actions)
    ensures p !in RaisedTests(steps, run, actions)
    decreases |actions|
  {
    if |actions| > 0 {
      ApplyKeepsAcknowledged(steps, run, actions[0], p);
      AcknowledgedTestNotRaised(steps, Apply(steps, run, actions[0]), actions[1..], p);
    }
  }

  /** "Continue" acknowledges exactly the step whose test the tick raised,
      so that test is not raised again in this run. */
  lemma IodineTestOncePerRun(steps: seq<MashStep>, run: MashRun, r1: Draw, r2: Draw, actions: seq<Action>)
    requires RaisesIodineTest(steps, run, TickAction(r1, r2))
    requires NoRestart(steps, ContinueAfterPause(steps, Tick(steps, run, r1, r2)), actions)
    ensures StepIndex(steps, run.time + 1) !in RaisedTests(steps, ContinueAfterPause(steps, Tick(steps, run, r1, r2)), actions)
  {
    var after := ContinueAfterPause(steps, Tick(steps, run, r1, r2));
    assert StepIndex(steps, run.time + 1) in after.donePauses;
    AcknowledgedTestNotRaised(steps, after, actions, StepIndex(steps, run.time + 1));
  }

  // ----- restarting --------------------------------------------------------

  /** As written, a restart keeps the acknowledged tests: a recipe whose
      first minute belongs to a manual-pause step runs through it
      without the iodine test on the second run. */
  lemma AsWrittenRestartSkipsIodineTest(steps: seq<MashStep>, run: MashRun, r1: Draw, r2: Draw)
    requires !run.isRunning && !run.isPaused && run.time >= TotalTime(steps) >= 1
    requires StepIndex(steps, 1) in run.donePauses
    ensures !RaisesIodineTest(steps, ToggleAsWritten(steps, run), TickAction(r1, r2))
  {
  }

  /** The corrected restart raises every manual-pause step's iodine test
      again, the first one at the first tick. */
  lemma RestartRaisesIodineTestAgain(steps: seq<MashStep>, run: MashRun, r1: Draw, r2: Draw)
    requires !run.isRunning && !run.isPaused && run.time >= TotalTime(steps) >= 1
    requires 0 <= StepIndex(steps, 1) < |steps|
    requires steps[StepIndex(steps, 1)].manualPause && !steps[StepIndex(steps, 1)].isEndStep
    ensures RaisesIodineTest(steps, Toggle(steps, run), TickAction(r1, r2))
  {
  }

  /** A recipe without an end step: a 30-minute ramp to 50 °C with an
      iodine test, held 5 minutes. */
  function NoEndRecipe(): seq<MashStep> {
    [MashStep(50.0, 1.0, 5.0, true, false, false)]
  }

  /** The finished first run of `NoEndRecipe` with its test acknowledged is
      a state of the invariant; as written the second run skips the test,
      while the corrected button raises it. */
  lemma SecondRunSkipsIodineTest(r1: Draw, r2: Draw)
    ensures var steps := NoEndRecipe();
      var finished := MashRun(35, 50.0, PlannedCurve(steps), false, false, false, false, false, [0]);
      && Inv(steps, finished)
      && !RaisesIodineTest(steps, ToggleAsWritten(steps, finished), TickAction(r1, r2))
      && RaisesIodineTest(steps, Toggle(steps, finished), TickAction(r1, r2))
  {
    var steps := NoEndRecipe();
    assert PlanLength(steps, StartTemp) == 35.0;
    assert TotalTime(steps) == 35;
    assert StepIndex(steps, 1) == 0;
    var finished := MashRun(35, 50.0, PlannedCurve(steps), false, false, false, false, false, [0]);
    assert Reached(steps, 35, 0);
    RestartRaisesIodineTestAgain(steps, finished, r1, r2);
  }

  /** A 50 °C rest with an iodine test followed by the pump-out end step:
      the test is raised at the first minute of the 30-minute ramp, and the
      end dialog appears at minute 35. */
  lemma IodineThenEndScenario(r1: Draw, r2: Draw)
    ensures var steps := [MashStep(50.0, 1.0, 5.0, true, false, false), MashStep(0.0, 0.0, 0.0, false, false, true)];
      && TotalTime(steps) == 35
      && RaisesIodineTest(steps, Toggle(steps, Load(steps)), TickAction(r1, r2))
      && GateAt(steps, [0], StepIndex(steps, 34)) == KeepRunning
      && GateAt(steps, [0], StepIndex(steps, 35)) == EndReached
  {
    var steps := [MashStep(50.0, 1.0, 5.0, true, false, false), MashStep(0.0, 0.0, 0.0, false, false, true)];
    assert PlanLength(steps, StartTemp) == 35.0;
    assert StepIndex(steps, 1) == 0;
    assert StepIndex(steps, 34) == 0;
    assert StepIndex(steps, 35) == 1;
  }
}
