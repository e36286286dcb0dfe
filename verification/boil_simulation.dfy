/** The boil simulation's run state and its transitions: the once-a-minute
    tick that moves the temperature toward the active step's boiling
    temperature and stops for hop additions, the start/pause button, the
    hop dialog's "continue" and the back button. */
module BoilSimulation {
  import opened Wrappers
  import opened RealMath
  import opened BoilPlan

  /** A draw of `Math.random()`. */
  type Draw = r: real | 0.0 <= r < 1.0

  /** The component state of the boil simulation view. */
  datatype BoilRun = BoilRun(
    time: nat,
    currentTemp: real,
    graphData: seq<BoilPoint>,
    isRunning: bool,
    isPaused: bool,
    showExitDialog: bool,
    showAddHopDialog: bool,
    doneHop: seq<int>)

  /** Largest temperature move per tick before the random factor (°C). */
  const MaxChange: real := 2.0

  /** The boil starts from 0 °C. */
  const BoilStartTemp: real := 0.0

  /** A recipe as handed to the view: its steps may be missing or not a
      list, which is represented by `None`. */
  datatype BoilRecipeInput = BoilRecipeInput(name: string, steps: Option<seq<BoilStep>>)

  /** What the view shows: the error screen with a back button, or the
      simulation. */
  datatype BoilScreen = InvalidRecipe | Simulating(steps: seq<BoilStep>, run: BoilRun)

  /** The state on loading a recipe: the skeleton chart, clock at 0, 0 °C,
      stopped, no hop addition done. */
  function Load(steps: seq<BoilStep>): (run: BoilRun)
    ensures Inv(steps, run)
  {
    SkeletonSpec(steps);
    BoilRun(0, BoilStartTemp, Skeleton(steps), false, false, false, false, [])
  }

  /** A missing recipe, or one without a list of steps, never reaches the
      simulation; any other recipe is loaded. */
  function Enter(recipe: Option<BoilRecipeInput>): (screen: BoilScreen)
    ensures screen.Simulating? <==> recipe.Some? && recipe.value.steps.Some?
    ensures screen.Simulating? ==> screen.steps == recipe.value.steps.value && screen.run == Load(screen.steps)
  {
    match recipe
    case None => InvalidRecipe
    case Some(r) =>
      match r.steps
      case None => InvalidRecipe
      case Some(steps) => Simulating(steps, Load(steps))
  }

  // ----- the run invariant -----------------------------------------------

  /** Step `p` was active at some minute of the current run so far. */
  ghost predicate Reached(steps: seq<BoilStep>, time: nat, p: int) {
    exists k: nat :: k <= time && Locate(steps, k).index == p
  }

  /** The chart has the skeleton's points, with minutes and hop markers
      untouched. */
  predicate SameSkeleton(graph: seq<BoilPoint>, plan: seq<BoilPoint>) {
    |graph| == |plan|
    && forall k :: 0 <= k < |graph| ==> graph[k].time == plan[k].time && graph[k].hopEvent == plan[k].hopEvent
  }

  /** What holds of every state of a run: the clock stays within the
      planned duration, the chart is the skeleton with measurements only at
      the minutes this run has simulated, and every hop addition done
      belongs to a step this run has reached. */
  ghost predicate Inv(steps: seq<BoilStep>, run: BoilRun) {
    && run.time <= TotalTime(steps)
    && SameSkeleton(run.graphData, Skeleton(steps))
    && (forall k :: 0 <= k < |run.graphData| && run.graphData[k].actualTemp.Some? ==> 1 <= k <= run.time)
    && (forall p :: p in run.doneHop ==> Reached(steps, run.time, p))
  }

  // ----- one tick ----------------------------------------------------------

  /** The temperature aimed at in minute `t`: the located step's boiling
      temperature, 0 °C when no step covers the minute. */
  function TargetAt(steps: seq<BoilStep>, t: int): (target: real)
    ensures Locate(steps, t).index == -1 ==> target == 0.0
  {
    var loc := Locate(steps, t);
    if 0 <= loc.index < |steps| then StepTarget(steps[loc.index]) else 0.0
  }

  /** The temperature after one tick: the gap to the target clamped to
      ±2 °C and scaled by a factor in [0.9, 1.1). It moves toward the
      target, by at most 2.2 °C, overshooting the gap by less than 10 %. */
  function NextTemp(prev: real, target: real, r: Draw): (t: real)
    ensures Abs(t - prev) <= MaxChange * 1.1
    ensures target > prev ==> t > prev
    ensures target < prev ==> t < prev
    ensures target == prev ==> t == prev
    ensures Abs(t - prev) <= Abs(target - prev) * 1.1
  {
    var used := Clamp(target - prev, MaxChange);
    var factor := 0.9 + r * 0.2;
    ScaledBound(used, MaxChange, factor, 0.9, 1.1);
    ScaledBound(used, Abs(target - prev), factor, 0.9, 1.1);
    assert used < 0.0 ==> used * factor < 0.0;
    assert used > 0.0 ==> used * factor > 0.0;
    prev + used * factor
  }

  /** Store a measured temperature in the chart at minute `t`, if the chart
      has that minute; every other point and field stays as it was. */
  function RecordSample(graph: seq<BoilPoint>, t: nat, value: real): (g: seq<BoilPoint>)
    ensures |g| == |graph|
    ensures forall k :: 0 <= k < |g| && k != t ==> g[k] == graph[k]
    ensures t < |graph| ==> g[t] == graph[t].(actualTemp := Some(value))
  {
    if t < |graph| then graph[t := graph[t].(actualTemp := Some(value))] else graph
  }

  /** The hop dialog is due in minute `t`: the located step adds hops, its
      addition is not yet done, and `t` is the step's second minute. So it
      is due exactly at the second minute of a hop step lasting two minutes
      or more whose addition is not done. */
  function HopDue(steps: seq<BoilStep>, doneHop: seq<int>, t: int): (due: bool)
    ensures t >= 0 ==> (due <==>
      exists j :: 0 <= j < |steps| && steps[j].addHop && j !in doneHop
        && steps[j].duration >= 2 && t == StartOf(steps, j) + 1)
  {
    var loc := Locate(steps, t);
    var due :=
      && 0 <= loc.index < |steps|
      && steps[loc.index].addHop
      && loc.index !in doneHop
      && t - loc.stepStart == 1;
    if t < 0 then due
    else
      LocateSpec(steps, t);
      assert forall j :: 0 <= j < |steps| && steps[j].duration >= 2 && t == StartOf(steps, j) + 1 ==> Covers(steps, j, t);
      due
  }

  /** One tick of the interval, which runs only while the simulation is
      running and not paused. Past the planned duration the clock stays put
      and the run stops without a dialog. Otherwise the clock advances one
      minute, the temperature moves toward the minute's target, only that
      minute's measurement in the chart changes, and a due hop addition
      stops the run, shows its dialog and is recorded as done. */
  function Tick(steps: seq<BoilStep>, run: BoilRun, r: Draw): (next: BoilRun)
    requires run.isRunning && !run.isPaused
    ensures next.isPaused == run.isPaused && next.showExitDialog == run.showExitDialog
    ensures run.time + 1 > TotalTime(steps) ==> next == run.(isRunning := false)
    ensures run.time + 1 <= TotalTime(steps) ==>
      && next.time == run.time + 1
      && next.currentTemp == NextTemp(run.currentTemp, TargetAt(steps, next.time), r)
      && Abs(next.currentTemp - run.currentTemp) <= MaxChange * 1.1
      && |next.graphData| == |run.graphData|
      && (forall k :: 0 <= k < |next.graphData| && k != next.time ==> next.graphData[k] == run.graphData[k])
      && (next.time < |run.graphData| ==>
            next.graphData[next.time] == run.graphData[next.time].(actualTemp := Some(next.currentTemp)))
      && (next.isRunning <==> !HopDue(steps, run.doneHop, next.time))
      && next.showAddHopDialog == (run.showAddHopDialog || HopDue(steps, run.doneHop, next.time))
      && next.doneHop == run.doneHop + (if HopDue(steps, run.doneHop, next.time) then [Locate(steps, next.time).index] else [])
  {
    var newT := run.time + 1;
    if newT > TotalTime(steps) then run.(isRunning := false)
    else
      var newVal := NextTemp(run.currentTemp, TargetAt(steps, newT), r);
      var moved := run.(time := newT, currentTemp := newVal, graphData := RecordSample(run.graphData, newT, newVal));
      if HopDue(steps, run.doneHop, newT) then
        moved.(isRunning := false, showAddHopDialog := true, doneHop := run.doneHop + [Locate(steps, newT).index])
      else moved
  }

  // ----- buttons -----------------------------------------------------------

  /** The start/pause button as the source writes it. While running it only
      flips the pause flag. When stopped it starts the run, first resetting
      clock and temperature if the previous run reached the planned
      duration; the chart and the hop additions done are kept. */
  function ToggleAsWritten(steps: seq<BoilStep>, run: BoilRun): (next: BoilRun)
    ensures run.isRunning ==> next == run.(isPaused := !run.isPaused)
    ensures !run.isRunning ==> next.isRunning && next.isPaused == run.isPaused
    ensures !run.isRunning && run.time >= TotalTime(steps) ==>
      next.time == 0 && next.currentTemp == BoilStartTemp
      && next.graphData == run.graphData && next.doneHop == run.doneHop
  {
    if !run.isRunning then
      var r := if run.time >= TotalTime(steps) then run.(time := 0, currentTemp := BoilStartTemp) else run;
      r.(isRunning := true)
    else run.(isPaused := !run.isPaused)
  }

  /** The start/pause button with the restart starting a fresh run: as
      written, and the chart is redrawn and the hop additions cleared. */
  function Toggle(steps: seq<BoilStep>, run: BoilRun): (next: BoilRun)
    ensures run.isRunning ==> next == run.(isPaused := !run.isPaused)
    ensures !run.isRunning ==> next.isRunning && next.isPaused == run.isPaused
    ensures !run.isRunning && run.time < TotalTime(steps) ==> next == run.(isRunning := true)
    ensures !run.isRunning && run.time >= TotalTime(steps) ==>
      next.time == 0 && next.currentTemp == BoilStartTemp
      && next.graphData == Skeleton(steps) && next.doneHop == []
  {
    var r := ToggleAsWritten(steps, run);
    if !run.isRunning && run.time >= TotalTime(steps) then r.(graphData := Skeleton(steps), doneHop := []) else r
  }

  /** "Continue" on the hop dialog closes it and resumes; the addition was
      recorded when the dialog opened. */
  function ContinueAfterHop(run: BoilRun): (next: BoilRun)
    ensures next.isRunning && !next.showAddHopDialog
    ensures next.doneHop == run.doneHop && next.time == run.time && next.graphData == run.graphData
  {
    run.(showAddHopDialog := false, isRunning := true)
  }

  /** The back button either asks for confirmation or leaves the view. */
  datatype BackOutcome = AskToConfirm(run: BoilRun) | Leave

  /** A running simulation (paused or not) asks before it is discarded; a
      stopped one is left at once. */
  function PressBack(run: BoilRun): (out: BackOutcome)
    ensures out.Leave? <==> !run.isRunning
    ensures out.AskToConfirm? ==> out.run == run.(showExitDialog := true)
  {
    if run.isRunning then AskToConfirm(run.(showExitDialog := true)) else Leave
  }

  /** "Storno" on the exit dialog only closes the dialog: the run goes on
      as it was. */
  function CancelExit(run: BoilRun): (next: BoilRun)
    ensures !next.showExitDialog
    ensures next.(showExitDialog := run.showExitDialog) == run
  {
    run.(showExitDialog := false)
  }

  /** Pressing back on a running simulation and then "Storno" returns to
      the state before the back button. */
  lemma CancelUndoesBack(run: BoilRun)
    requires run.isRunning && !run.showExitDialog
    ensures PressBack(run).AskToConfirm? && CancelExit(PressBack(run).run) == run
  {
  }
}
