/** Properties of the boil simulation: the run invariant, the last minute,
    when the hop dialog is due, "each hop addition at most once per run",
    and what a restart does to the chart and the hop additions done. */
module BoilSimulationFacts {
  import opened Wrappers
  import opened RealMath
  import opened BoilPlan
  import opened BoilSimulation

  // ----- the invariant -----------------------------------------------------

  lemma LoadSatisfiesInv(steps: seq<BoilStep>)
    ensures Inv(steps, Load(steps))
  {
    SkeletonSpec(steps);
  }

  lemma TickPreservesInv(steps: seq<BoilStep>, run: BoilRun, r: Draw)
    requires Inv(steps, run) && run.isRunning && !run.isPaused
    ensures Inv(steps, Tick(steps, run, r))
  {
    var next := Tick(steps, run, r);
    if run.time + 1 <= TotalTime(steps) {
      forall p | p in next.doneHop
        ensures Reached(steps, next.time, p)
      {
        if p in run.doneHop {
          var k: nat :| k <= run.time && Locate(steps, k).index == p;
        } else {
          assert Locate(steps, next.time).index == p;
        }
      }
    }
  }

  lemma TogglePreservesInv(steps: seq<BoilStep>, run: BoilRun)
    requires Inv(steps, run)
    ensures Inv(steps, Toggle(steps, run))
  {
    if !run.isRunning && run.time >= TotalTime(steps) {
      SkeletonSpec(steps);
    }
  }

  lemma ContinuePreservesInv(steps: seq<BoilStep>, run: BoilRun)
    requires Inv(steps, run)
    ensures Inv(steps, ContinueAfterHop(run))
  {
  }

  /** Every tick before the last planned minute lands a measurement on the
      chart; the tick reaching the last minute aims at 0 °C and writes
      nothing. */
  lemma TickRecordsMeasurement(steps: seq<BoilStep>, run: BoilRun, r: Draw)
    requires Inv(steps, run) && run.isRunning && !run.isPaused
    requires run.time + 1 <= TotalTime(steps)
    ensures var next := Tick(steps, run, r);
      && (next.time < TotalTime(steps) ==>
            next.time < |next.graphData| && next.graphData[next.time].actualTemp == Some(next.currentTemp))
      && (next.time == TotalTime(steps) ==>
            next.graphData == run.graphData && TargetAt(steps, next.time) == 0.0)
  {
    SkeletonSpec(steps);
    var next := Tick(steps, run, r);
    LocateSpec(steps, next.time);
    if next.time == TotalTime(steps) {
      assert |run.graphData| == next.time;
    }
  }

  // ----- when the hop dialog is due ----------------------------------------

  /** A one-minute hop step never shows the hop dialog. */
  lemma NoHopDialogForOneMinuteStep(steps: seq<BoilStep>, doneHop: seq<int>, t: int)
    requires t >= 0 && HopDue(steps, doneHop, t)
    ensures steps[Locate(steps, t).index].duration >= 2
  {
    LocateSpec(steps, t);
  }

  // ----- traces ------------------------------------------------------------

  /** What can happen to a mounted boil simulation: a tick of the interval,
      the start/pause button, "continue" on the hop dialog. */
  datatype Action = TickAction(r: Draw) | ToggleAction | ContinueAction

  /** The tick only fires while running and not paused; "continue" exists
      only while the hop dialog is shown. */
  function Apply(steps: seq<BoilStep>, run: BoilRun, a: Action): BoilRun {
    match a
    case TickAction(r) => if run.isRunning && !run.isPaused then Tick(steps, run, r) else run
    case ToggleAction => Toggle(steps, run)
    case ContinueAction => if run.showAddHopDialog then ContinueAfterHop(run) else run
  }

  /** The start button pressed after the planned duration starts a new run. */
  predicate IsRestart(steps: seq<BoilStep>, run: BoilRun, a: Action) {
    a.ToggleAction? && !run.isRunning && run.time >= TotalTime(steps)
  }

  predicate NoRestart(steps: seq<BoilStep>, run: BoilRun, actions: seq<Action>)
    decreases |actions|
  {
    |actions| == 0 || (!IsRestart(steps, run, actions[0]) && NoRestart(steps, Apply(steps, run, actions[0]), actions[1..]))
  }

  /** This action is a tick that stops the run for a hop addition. */
  predicate RaisesHopDialog(steps: seq<BoilStep>, run: BoilRun, a: Action) {
    a.TickAction? && run.isRunning && !run.isPaused && run.time + 1 <= TotalTime(steps)
    && HopDue(steps, run.doneHop, run.time + 1)
  }

  /** The steps whose hop dialog is shown along a trace, in order. */
  function RaisedHops(steps: seq<BoilStep>, run: BoilRun, actions: seq<Action>): seq<int>
    decreases |actions|
  {
    if |actions| == 0 then []
    else
      (if RaisesHopDialog(steps, run, actions[0]) then [Locate(steps, run.time + 1).index] else [])
      + RaisedHops(steps, Apply(steps, run, actions[0]), actions[1..])
  }

  lemma ApplyKeepsDone(steps: seq<BoilStep>, run: BoilRun, a: Action, p: int)
    requires p in run.doneHop && !IsRestart(steps, run, a)
    ensures p in Apply(steps, run, a).doneHop
  {
  }

  /** A hop addition already done is not asked for again until the next
      restart. */
  lemma {:induction false} DoneHopNotRaised(steps: seq<BoilStep>, run: BoilRun, actions: seq<Action>, p: int)
    requires p in run.doneHop && NoRestart(steps, run, actions)
    ensures p !in RaisedHops(steps, run, actions)
    decreases |actions|
  {
    if |actions| > 0 {
      ApplyKeepsDone(steps, run, actions[0], p);
      DoneHopNotRaised(steps, Apply(steps, run, actions[0]), actions[1..], p);
    }
  }

  /** The tick that shows a hop dialog records the step at once, so no
      later action of the run shows it again. */
  lemma HopDialogOncePerRun(steps: seq<BoilStep>, run: BoilRun, r: Draw, actions: seq<Action>)
    requires RaisesHopDialog(steps, run, TickAction(r))
    requires NoRestart(steps, Tick(steps, run, r), actions)
    ensures Locate(steps, run.time + 1).index !in RaisedHops(steps, Tick(steps, run, r), actions)
  {
    var next := Tick(steps, run, r);
    assert Locate(steps, run.time + 1).index in next.doneHop;
    DoneHopNotRaised(steps, next, actions, Locate(steps, run.time + 1).index);
  }

  // ----- restarting --------------------------------------------------------

  /** A single two-minute step. */
  function TwoMinuteRecipe(): seq<BoilStep> {
    [BoilStep(2, 4.0, false)]
  }

  /** As written, restarting the finished run of `TwoMinuteRecipe` keeps
      the first run's measurement in the chart at minute 1 while the clock
      is back at 0, which no state of a run has; the corrected restart
      keeps the invariant. */
  lemma AsWrittenRestartKeepsStaleChart()
    ensures var steps := TwoMinuteRecipe();
      var chart := Skeleton(steps)[1 := Skeleton(steps)[1].(actualTemp := Some(65.0))];
      var finished := BoilRun(2, 65.0, chart, false, false, false, false, []);
      && Inv(steps, finished)
      && ToggleAsWritten(steps, finished).graphData[1].actualTemp == Some(65.0)
      && !Inv(steps, ToggleAsWritten(steps, finished))
      && Inv(steps, Toggle(steps, finished))
  {
    var steps := TwoMinuteRecipe();
    SkeletonSpec(steps);
    var chart := Skeleton(steps)[1 := Skeleton(steps)[1].(actualTemp := Some(65.0))];
    var finished := BoilRun(2, 65.0, chart, false, false, false, false, []);
    TogglePreservesInv(steps, finished);
  }

  /** A three-minute hop step. */
  function HopRecipe(): seq<BoilStep> {
    [BoilStep(3, 4.0, true)]
  }

  /** As written, the second run of `HopRecipe` skips the hop dialog the
      first run showed; the corrected restart shows it again at minute 1. */
  lemma SecondRunSkipsHopDialog(r: Draw)
    ensures var steps := HopRecipe();
      var finished := BoilRun(3, 65.0, Skeleton(steps), false, false, false, false, [0]);
      && Inv(steps, finished)
      && !RaisesHopDialog(steps, ToggleAsWritten(steps, finished), TickAction(r))
      && RaisesHopDialog(steps, Toggle(steps, finished), TickAction(r))
  {
    var steps := HopRecipe();
    SkeletonSpec(steps);
    assert TotalTime(steps) == 3;
    assert Locate(steps, 1) == Location(0, 0);
    var finished := BoilRun(3, 65.0, Skeleton(steps), false, false, false, false, [0]);
    assert Reached(steps, 3, 0);
  }

}
