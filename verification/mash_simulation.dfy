/** The mash simulation's run state and its transitions: the once-a-minute
    tick that moves the simulated temperature toward the plan and stops at
    iodine tests and at the end step, the start/pause button, the iodine
    test's "continue" and the back button. */
module MashSimulation {
  import opened Wrappers
  import opened RealMath
  import opened MashPlan
  import MashPlanFacts

  /** A draw of `Math.random()`. */
  type Draw = r: real | 0.0 <= r < 1.0

  /** The component state of the mash simulation view. */
  datatype MashRun = MashRun(
    time: nat,
    currentTemp: real,
    graphData: seq<CurvePoint>,
    isRunning: bool,
    isPaused: bool,
    showExitDialog: bool,
    showPauseDialog: bool,
    showEndStepDialog: bool,
    donePauses: seq<int>)

  /** Largest temperature move per tick before noise (°C). */
  const MaxChange: real := 2.0

  /** Largest change of the simulated temperature in one tick: the clamped
      move times the largest random factor, plus the largest jitter. */
  const MaxTickChange: real := MaxChange * 1.15 + 0.25

  /** The state on entering the view or switching recipes: plan drawn,
      clock at 0, 20 °C, stopped, no dialog, no iodine test acknowledged. */
  function Load(steps: seq<MashStep>): (run: MashRun)
    ensures WellFormed(steps) ==> Inv(steps, run)
  {
    MashRun(0, StartTemp, PlannedCurve(steps), false, false, false, false, false, [])
  }

  // ----- the run invariant -----------------------------------------------

  /** Step `p` was active at some minute of the current run so far. */
  ghost predicate Reached(steps: seq<MashStep>, time: nat, p: int) {
    exists k: nat :: k <= time && StepIndex(steps, k) == p
  }

  /** The chart has the plan's points, with times and planned temperatures
      untouched. */
  predicate SameSkeleton(graph: seq<CurvePoint>, plan: seq<CurvePoint>) {
    |graph| == |plan|
    && forall k :: 0 <= k < |graph| ==> graph[k].time == plan[k].time && graph[k].plannedTemp == plan[k].plannedTemp
  }

  /** What holds of every state of a run: the clock stays within the
      planned duration, the chart is the plan with measurements only at the
      minutes this run has simulated, and every acknowledged iodine test
      belongs to a step this run has reached. */
  ghost predicate Inv(steps: seq<MashStep>, run: MashRun) {
    && run.time <= TotalTime(steps)
    && SameSkeleton(run.graphData, PlannedCurve(steps))
    && (forall k :: 0 <= k < |run.graphData| && run.graphData[k].actualTemp.Some? ==> 1 <= k <= run.time)
    && (forall p :: p in run.donePauses ==> Reached(steps, run.time, p))
  }

  // ----- one tick ----------------------------------------------------------

  /** The temperature after one tick: the gap to the plan clamped to ±2 °C,
      scaled by a factor in [0.85, 1.15), plus a jitter in [-0.25, 0.25). */
  function NextTemp(prev: real, planned: real, r1: Draw, r2: Draw): (t: real)
    ensures Abs(t - prev) <= MaxTickChange
    ensures planned - prev > MaxChange ==> t - prev >= MaxChange * 0.85 - 0.25
    ensures prev - planned > MaxChange ==> prev - t >= MaxChange * 0.85 - 0.25
  {
    var used := Clamp(planned - prev, MaxChange);
    var randomFactor := 0.85 + r1 * 0.3;
    ScaledBound(used, MaxChange, randomFactor, 0.85, 1.15);
    prev + used * randomFactor + (r2 - 0.5) * 0.5
  }

  /** Store a measured temperature in the chart at minute `t`, if the chart
      has that minute; every other point and field stays as it was. */
  function RecordSample(graph: seq<CurvePoint>, t: nat, value: real): (g: seq<CurvePoint>)
    ensures |g| == |graph|
    ensures forall k :: 0 <= k < |g| && k != t ==> g[k] == graph[k]
    ensures t < |graph| ==> g[t] == graph[t].(actualTemp := Some(value))
  {
    if t < |graph| then graph[t := graph[t].(actualTemp := Some(value))] else graph
  }

  /** What the tick does after moving the temperature, given the step that
      is active at the new minute. */
  datatype Gate = KeepRunning | EndReached | IodineTest

  /** The pump-out end step stops the run; a manual-pause step stops it for
      an iodine test unless that test was already acknowledged. */
  function GateAt(steps: seq<MashStep>, donePauses: seq<int>, idx: int): (g: Gate)
    ensures g == EndReached <==> 0 <= idx < |steps| && steps[idx].isEndStep
    ensures g == IodineTest <==> 0 <= idx < |steps| && !steps[idx].isEndStep && steps[idx].manualPause && idx !in donePauses
  {
    if 0 <= idx < |steps| then
      if steps[idx].isEndStep then EndReached
      else if steps[idx].manualPause && idx !in donePauses then IodineTest
      else KeepRunning
    else KeepRunning
  }

  /** One tick of the interval, which runs only while the simulation is
      running and not paused. Past the planned duration the clock stays put
      and the run stops, raising the end dialog when the recipe has an end
      step. Otherwise the clock advances one minute, the temperature moves
      by at most `MaxTickChange`, only that minute's measurement in the
      chart changes, and the active step decides whether the run goes on. */
  function Tick(steps: seq<MashStep>, run: MashRun, r1: Draw, r2: Draw): (next: MashRun)
    requires run.isRunning && !run.isPaused
    ensures next.donePauses == run.donePauses
    ensures next.isPaused == run.isPaused && next.showExitDialog == run.showExitDialog
    ensures run.time + 1 > TotalTime(steps) ==>
      && next.time == run.time && !next.isRunning
      && next.currentTemp == run.currentTemp && next.graphData == run.graphData
      && next.showPauseDialog == run.showPauseDialog
      && next.showEndStepDialog == (run.showEndStepDialog || HasEnd(steps))
    ensures run.time + 1 <= TotalTime(steps) ==>
      && next.time == run.time + 1
      && next.currentTemp == NextTemp(run.currentTemp, PlannedTemp(steps, next.time), r1, r2)
      && Abs(next.currentTemp - run.currentTemp) <= MaxTickChange
      && |next.graphData| == |run.graphData|
      && (forall k :: 0 <= k < |next.graphData| && k != next.time ==> next.graphData[k] == run.graphData[k])
      && (next.time < |run.graphData| ==>
            next.graphData[next.time] == run.graphData[next.time].(actualTemp := Some(next.currentTemp)))
      && var gate := GateAt(steps, run.donePauses, StepIndex(steps, next.time));
      && (next.isRunning <==> gate == KeepRunning)
      && next.showEndStepDialog == (run.showEndStepDialog || gate == EndReached)
      && next.showPauseDialog == (run.showPauseDialog || gate == IodineTest)
  {
    var newT := run.time + 1;
    if newT > TotalTime(steps) then
      run.(isRunning := false, showEndStepDialog := run.showEndStepDialog || FindEnd(steps) >= 0)
    else
      var planned := PlannedTemp(steps, newT);
      var newVal := NextTemp(run.currentTemp, planned, r1, r2);
      var graph := RecordSample(run.graphData, newT, newVal);
      var moved := run.(time := newT, currentTemp := newVal, graphData := graph);
      match GateAt(steps, run.donePauses, StepIndex(steps, newT))
      case EndReached => moved.(isRunning := false, showEndStepDialog := true)
      case IodineTest => moved.(isRunning := false, showPauseDialog := true)
      case KeepRunning => moved
  }

  // ----- buttons -----------------------------------------------------------

  /** The start/pause button as the source writes it. While running it only
      flips the pause flag. When stopped it starts the run, first resetting
      clock, temperature and chart if the previous run reached the planned
      duration; the list of acknowledged iodine tests is kept. */
  function ToggleAsWritten(steps: seq<MashStep>, run: MashRun): (next: MashRun)
    ensures run.isRunning ==> next == run.(isPaused := !run.isPaused)
    ensures !run.isRunning ==> next.isRunning && next.isPaused == run.isPaused
    ensures !run.isRunning && run.time >= TotalTime(steps) ==>
      next.time == 0 && next.currentTemp == StartTemp && next.graphData == PlannedCurve(steps)
      && next.donePauses == run.donePauses
  {
    if !run.isRunning then
      var r := if run.time >= TotalTime(steps) then
        run.(time := 0, currentTemp := StartTemp, graphData := PlannedCurve(steps))
      else run;
      r.(isRunning := true)
    else run.(isPaused := !run.isPaused)
  }

  /** The start/pause button with the restart starting a fresh run: as
      written, and the acknowledged iodine tests are cleared as well. */
  function Toggle(steps: seq<MashStep>, run: MashRun): (next: MashRun)
    ensures run.isRunning ==> next == run.(isPaused := !run.isPaused)
    ensures !run.isRunning ==> next.isRunning && next.isPaused == run.isPaused
    ensures !run.isRunning && run.time < TotalTime(steps) ==> next == run.(isRunning := true)
    ensures !run.isRunning && run.time >= TotalTime(steps) ==>
      next.time == 0 && next.currentTemp == StartTemp && next.graphData == PlannedCurve(steps)
      && next.donePauses == []
  {
    var r := ToggleAsWritten(steps, run);
    if !run.isRunning && run.time >= TotalTime(steps) then r.(donePauses := []) else r
  }

  /** "Continue" on the iodine-test dialog: acknowledge the step active at
      the current minute, close the dialog and resume. */
  function ContinueAfterPause(steps: seq<MashStep>, run: MashRun): (next: MashRun)
    ensures next.donePauses == run.donePauses + [StepIndex(steps, run.time)]
    ensures next.isRunning && !next.showPauseDialog
    ensures next.time == run.time && next.currentTemp == run.currentTemp && next.graphData == run.graphData
  {
    run.(donePauses := run.donePauses + [StepIndex(steps, run.time)], showPauseDialog := false, isRunning := true)
  }

  /** The back button either asks for confirmation or leaves the view. */
  datatype BackOutcome = AskToConfirm(run: MashRun) | Leave

  /** A running simulation (paused or not) asks before it is discarded; a
      stopped one is left at once. */
  function PressBack(run: MashRun): (out: BackOutcome)
    ensures out.Leave? <==> !run.isRunning
    ensures out.AskToConfirm? ==> out.run.showExitDialog && out.run == run.(showExitDialog := true)
  {
    if run.isRunning then AskToConfirm(run.(showExitDialog := true)) else Leave
  }

  /** "Storno" on the exit dialog only closes the dialog: the run goes on
      as it was. */
  function CancelExit(run: MashRun): (next: MashRun)
    ensures !next.showExitDialog
    ensures next.(showExitDialog := run.showExitDialog) == run
  {
    run.(showExitDialog := false)
  }

  /** Pressing back on a running simulation and then "Storno" returns to
      the state before the back button. */
  lemma CancelUndoesBack(run: MashRun)
    requires run.isRunning && !run.showExitDialog
    ensures PressBack(run).AskToConfirm? && CancelExit(PressBack(run).run) == run
  {
  }
}
