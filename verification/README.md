# ebrew brewing simulations in Dafny

A model of the core of ebrew, a home-brewing controller front end, and proofs about it:

- **Mash ("rmutování") plan.** The recipe steps ramp to a target temperature at a rate and hold it; an optional manual pause asks for an iodine test; a final pump-out end step ends the mash. From the steps, the model derives:
  - the planned temperature curve, starting at 20 °C;
  - the planned temperature at any minute;
  - the step active at a minute;
  - the planned duration.
- **Mash simulation.** A once-a-minute tick moves a simulated temperature toward the plan. It stops for iodine tests and at the end step. The start/pause button, the iodine-test "continue" and the back button complete the run.
- **Boil ("chmelovar") plan.** Timed steps boil at a temperature derived from their evaporation rate, and some ask for a hop addition. The model covers the chart skeleton with hop markers and the locator that finds the step covering a minute.
- **Boil simulation.** A tick moves the temperature toward the located step's temperature and stops once for each hop addition. The model also covers the start/pause button, the hop-dialog "continue", the back button and the check that turns away recipes without steps.
- **Recipe editors.**
  - The mash editor keeps an undeletable end step and inserts new steps before it.
  - The boil editor appends, removes and edits steps freely.
  - Both editors validate on save.
- **Recipe lists and application shell.**
  - Copying a recipe under a fresh name strips a trailing `copyN` and takes the next number.
  - Deleting by position, and saving as replace-or-append.
  - The screens the application moves between.

The two `Math.random()` draws of a tick are parameters in [0, 1) (the `Draw` subset type). Temperatures, rates and times are `real`s. JavaScript's `for (i = 0; i < x; i++)` runs `RealMath.LoopCount(x)` times, that is ⌈x⌉ times for positive x. `Math.floor` is `RealMath.Floor`.

Where the described behaviour and the code disagree, the model follows the code:

- **Timing of the iodine test.** A 50 °C rest with an iodine test, followed by the end step, is meant to ask for the test at minute 30, once the rest is over. In the code the test fires on the first tick that lands in the step, which is minute 1. `MashSimulationFacts.IodineThenEndScenario` proves minute 1, and the end dialog at minute 35.
- **Boil heat-up window.** The boil is meant to interpolate the temperature during a 15-minute heat-up window. `ChmelovarSimulation.js` has no such window: every tick clamps to ±2 °C.
- **Restarting a finished run.** A restart is meant to begin a fresh run. The code does not clear the acknowledged iodine tests (mash), or the hop additions done and the chart (boil). See Findings.
- **Steps after the end step.** The planned duration and the planned temperature stop at the first end step (`BrewingSimulation.js:57`, `:117`), but the planned curve only skips the end step and keeps plotting the steps after it (`:28`). `MashPlanFacts.EndStepStopsPlanButNotCurve` shows a 10-minute plan drawn over 21 minutes.

The modules are:

| module | what it models |
|---|---|
| `RealMath` | floor, loop counts, clamping |
| `Lists` | filter by index and splice |
| `Decimal` | digit strings and `parseInt` |
| `CopyNames` | the copy-name regular expressions |
| `Recipes` | recipe-list operations |
| `MashPlan`, `MashPlanFacts` | the mash plan |
| `MashSimulation`, `MashSimulationFacts` | the mash run |
| `BoilPlan` | the boil plan |
| `BoilSimulation`, `BoilSimulationFacts` | the boil run |
| `MashEditor`, `BoilEditor` | the editors |
| `BrewingSystem` | the application shell |

## Model

| member | source | states |
|---|---|---|
| RealMath.LoopCount | frontend/src/BrewingSimulation.js:33-43 | the number of iterations of a `< x` counting loop is the least natural ≥ x, 0 when x ≤ 0 |
| RealMath.Clamp | frontend/src/BrewingSimulation.js:160-165 | a change is capped at ±limit keeping its sign, and left alone when already within the limit |
| MashPlan.EffectiveRate | frontend/src/BrewingSimulation.js:30 | a zero ramp rate is read as 1, so a ramp never divides by zero |
| MashPlan.RampTime | frontend/src/BrewingSimulation.js:29-30 | a ramp takes non-negative time, zero exactly when the step's target equals the current temperature |
| MashPlan.FindEnd | frontend/src/BrewingSimulation.js:94-95 | the index of the first end step, -1 exactly when there is none |
| MashPlan.TotalTime | frontend/src/BrewingSimulation.js:113-124 | the planned duration (ramps and holds up to the first end step, floored) is never negative |
| MashPlan.PlanLengthNonNegative | frontend/src/BrewingSimulation.js:113-122 | the exact planned length of the steps before the first end step is non-negative |
| MashPlan.GetTotalTime | frontend/src/BrewingSimulation.js:113-124 | the loop that stops at the first end step computes the floored planned length |
| MashPlan.RampPoints | frontend/src/BrewingSimulation.js:33-37 | a ramp contributes ⌈rampTime⌉ points, one per loop iteration |
| MashPlanFacts.RampPointValue | frontend/src/BrewingSimulation.js:33-37 | ramp point j lies j + 1 per-minute increments of diff/rampTime above the starting temperature |
| MashPlan.HoldPoints | frontend/src/BrewingSimulation.js:40-43 | a hold contributes ⌈holdTime⌉ points, one per loop iteration, each at the next minute and at the step's target |
| MashPlan.CurveAfter | frontend/src/BrewingSimulation.js:27-45 | after the start there are ⌈ramp⌉ + ⌈hold⌉ points for every non-end step; an end step adds none, but the steps after it still add theirs |
| MashPlan.CurveAfterTimes | frontend/src/BrewingSimulation.js:27-45 | the points after the start come at consecutive minutes, none of them measured |
| MashPlan.PlannedCurve | frontend/src/BrewingSimulation.js:21-47 | the curve starts at (0, 20 °C), point k is at minute k, nothing is measured yet |
| MashPlan.CalculatePlannedCurve | frontend/src/BrewingSimulation.js:21-47 | the loop builds exactly the planned curve |
| MashPlan.AppendRamp | frontend/src/BrewingSimulation.js:33-37 | the ramp loop appends exactly the ramp points and advances the clock by their number |
| MashPlan.AppendHold | frontend/src/BrewingSimulation.js:40-43 | the hold loop appends exactly the hold points and advances the clock by their number |
| MashPlan.AppendStep | frontend/src/BrewingSimulation.js:31-44 | one non-end step's two loops append its ramp points then its hold points and advance the clock by all of them |
| MashPlan.PlannedTempFrom | frontend/src/BrewingSimulation.js:53-76 | the planned temperature lies between the lowest and highest of 20 °C and the targets before the first end step |
| MashPlan.PlannedTemp | frontend/src/BrewingSimulation.js:53-76 | the planned temperature at any minute lies between the lowest and highest of 20 °C and the targets before the first end step |
| MashPlan.StepIndexFrom | frontend/src/BrewingSimulation.js:78-96 | the active-step search returns -1 or a valid index, and -1 only when the recipe has no end step |
| MashPlan.StepIndex | frontend/src/BrewingSimulation.js:78-96 | the active step is -1 or a valid index, and a recipe with an end step always has an active step |
| MashPlanFacts.WellFormedTail | frontend/src/BrewingSimulation.js:27-45 | non-negative ramp rates and hold times carry over to every suffix of the steps |
| MashPlanFacts.CurveSlotsCoverPlanLength | frontend/src/BrewingSimulation.js:33-43 | the curve's ⌈ramp⌉ + ⌈hold⌉ points per step cover the exact planned length |
| MashPlanFacts.CurveCoversTotalTime | frontend/src/BrewingSimulation.js:113-124 | the planned curve has at least totalTime + 1 points, so every tick within the plan finds its slot |
| MashPlanFacts.PlannedTempAtStart | frontend/src/BrewingSimulation.js:59-64 | at the moment a step begins its planned temperature is the temperature it starts from |
| MashPlanFacts.PlannedTempAfterPlan | frontend/src/BrewingSimulation.js:75 | past the last hold the planned temperature is the last target |
| MashPlanFacts.PlannedTempRange | frontend/src/BrewingSimulation.js:53-76 | for t ≥ 0 the plan stays between the lowest and highest target, and equals the last target after the plan |
| MashPlanFacts.StepIndexWithinPlanFrom | frontend/src/BrewingSimulation.js:81-92 | within the plan the search returns a step no end step precedes |
| MashPlanFacts.StepIndexPastPlanFrom | frontend/src/BrewingSimulation.js:81-95 | past the plan the search returns the first end step (or -1) |
| MashPlanFacts.StepIndexSpec | frontend/src/BrewingSimulation.js:78-96 | the active step is in [-1, len): a non-end step within the plan, the first end step after it, -1 exactly when there is no end step and the plan is over |
| MashPlanFacts.StepIndexBeforeTotal | frontend/src/BrewingSimulation.js:78-96 | at every whole minute before totalTime the active step is a valid non-end step |
| MashPlanFacts.LoopCountWhole | frontend/src/BrewingSimulation.js:33-43 | a loop up to a whole number x runs exactly x times |
| MashPlanFacts.RampMinuteMatches | frontend/src/BrewingSimulation.js:33-37 | with a whole-minute ramp the curve's ramp points equal the interpolated planned temperature |
| MashPlanFacts.HoldMinuteMatches | frontend/src/BrewingSimulation.js:40-43 | with whole-minute ramps and holds the curve's hold points equal the planned temperature |
| MashPlanFacts.PlannedTempSkipsStep | frontend/src/BrewingSimulation.js:65-73 | after a step's ramp and hold, the planned temperature is that of the remaining steps starting from the step's target |
| MashPlanFacts.CurveAfterMatchesPlan | frontend/src/BrewingSimulation.js:21-76 | with whole-minute ramps and holds, every curve point after the start equals the planned temperature at its minute |
| MashPlanFacts.CurveMatchesPlannedTemp | frontend/src/BrewingSimulation.js:21-76 | with whole-minute ramps and holds, the curve and the planned temperature agree at every minute up to totalTime |
| MashPlanFacts.EndStepStopsPlanButNotCurve | frontend/src/BrewingSimulation.js:21-124 | with a step after the end step, the plan lasts 10 minutes and ends at 30 °C while the curve has 21 points and climbs to 40 °C |
| MashPlanFacts.FractionalRampDisagrees | frontend/src/BrewingSimulation.js:29-64 | with a half-minute ramp, the curve's point at minute 1 lies above the planned temperature there |
| MashSimulation.Load | frontend/src/BrewingSimulation.js:128-139 | the state on loading a recipe with non-negative rates and holds satisfies the run invariant |
| MashSimulation.NextTemp | frontend/src/BrewingSimulation.js:160-167 | one tick changes the temperature by at most 2·1.15 + 0.25 and, when the plan is more than 2 °C away, moves toward it |
| MashSimulation.RecordSample | frontend/src/BrewingSimulation.js:170-179 | the sample lands only at an existing minute, and only that point's measurement changes |
| MashSimulation.GateAt | frontend/src/BrewingSimulation.js:185-197 | the end step stops the run; a manual-pause step stops it exactly when its test is not yet acknowledged |
| MashSimulation.Tick | frontend/src/BrewingSimulation.js:145-201 | past totalTime the clock stays, the run stops and the end dialog rises exactly when there is an end step; otherwise the clock advances one minute, the temperature takes one `NextTemp` step toward the planned temperature of the new minute (so it moves by a bounded amount), only that minute's sample changes, and the gate decides whether to stop |
| MashSimulation.ToggleAsWritten | frontend/src/BrewingSimulation.js:206-219 | while running the button only flips pause; when stopped it starts, resetting clock, temperature and curve after a finished run but keeping the acknowledged tests |
| MashSimulation.Toggle | frontend/src/BrewingSimulation.js:206-219 | the restart as intended: as written, and a finished run's acknowledged tests are cleared |
| MashSimulation.ContinueAfterPause | frontend/src/BrewingSimulation.js:221-226 | "continue" acknowledges the step active now, closes the dialog and resumes |
| MashSimulation.PressBack | frontend/src/BrewingSimulation.js:300-303 | a running simulation asks for confirmation; a stopped one is left |
| MashSimulation.CancelExit | frontend/src/BrewingSimulation.js:245-247 | "Storno" closes the exit dialog and changes nothing else |
| MashSimulation.CancelUndoesBack | frontend/src/BrewingSimulation.js:235-247 | back on a running simulation followed by "Storno" returns to the state before |
| MashSimulationFacts.LoadSatisfiesInv | frontend/src/BrewingSimulation.js:128-139 | the state on loading a recipe satisfies the run invariant |
| MashSimulationFacts.TickPreservesInv | frontend/src/BrewingSimulation.js:145-201 | a tick keeps the clock within the plan, the curve's skeleton, measurements only at simulated minutes, and acknowledged tests at reached steps |
| MashSimulationFacts.TogglePreservesInv | frontend/src/BrewingSimulation.js:206-219 | the corrected start/pause button keeps the run invariant |
| MashSimulationFacts.ContinuePreservesInv | frontend/src/BrewingSimulation.js:221-226 | "continue" keeps the run invariant |
| MashSimulationFacts.TickRecordsMeasurement | frontend/src/BrewingSimulation.js:170-180 | every tick within the plan stores the new temperature at its minute |
| MashSimulationFacts.EndOnlyAtLastMinute | frontend/src/BrewingSimulation.js:185-191 | a tick reaches the end step only at minute totalTime |
| MashSimulationFacts.ApplyKeepsAcknowledged | frontend/src/BrewingSimulation.js:206-226 | apart from a restart, no action forgets an acknowledged test |
| MashSimulationFacts.AcknowledgedTestNotRaised | frontend/src/BrewingSimulation.js:192-196 | along any sequence of ticks and button presses without a restart, an acknowledged test is never raised again |
| MashSimulationFacts.IodineTestOncePerRun | frontend/src/BrewingSimulation.js:192-226 | once raised and continued, a step's iodine test is not raised again in that run |
| MashSimulationFacts.AsWrittenRestartSkipsIodineTest | frontend/src/BrewingSimulation.js:206-214 | as written, after a restart the first tick skips an iodine test acknowledged in the previous run |
| MashSimulationFacts.RestartRaisesIodineTestAgain | frontend/src/BrewingSimulation.js:206-214 | with the corrected restart, the first tick raises the first step's iodine test again |
| MashSimulationFacts.SecondRunSkipsIodineTest | frontend/src/BrewingSimulation.js:148-214 | for a concrete recipe without an end step, a finished run satisfying the invariant restarts, as written, without its iodine test, and with it once corrected |
| MashSimulationFacts.IodineThenEndScenario | frontend/src/BrewingSimulation.js:185-196 | a 50 °C iodine rest before the end step: 35 planned minutes, the test at minute 1, the end at minute 35 |
| BoilPlan.TotalTimeBounds | frontend/src/ChmelovarSimulation.js:80 | no step outlasts the boil, and the boil takes no time exactly when every step lasts zero minutes |
| BoilPlan.TotalTimeAppend | frontend/src/ChmelovarSimulation.js:80 | the boil's duration is additive over concatenated step lists |
| BoilPlan.StartOfNext | frontend/src/ChmelovarSimulation.js:141-146 | each step begins where the previous one ended |
| BoilPlan.StartOfAll | frontend/src/ChmelovarSimulation.js:80 | after all steps the accumulated minutes are the total duration |
| BoilPlan.StartOfOrdered | frontend/src/ChmelovarSimulation.js:141-146 | a step ends no later than any later step begins |
| BoilPlan.StartOfWithinTotal | frontend/src/ChmelovarSimulation.js:80 | every step ends within the total duration |
| BoilPlan.EffectiveEvaporation | frontend/src/ChmelovarSimulation.js:153 | a zero evaporation rate is read as 4 %, any other is kept |
| BoilPlan.FinalTemp | frontend/src/ChmelovarSimulation.js:87-90 | 4 % maps to 65 °C and 10 % to 95 °C, and rates from 4 to 10 % aim between 65 and 95 °C |
| BoilPlan.FinalTempStrictlyIncreasing | frontend/src/ChmelovarSimulation.js:87-90 | a higher evaporation rate aims at a strictly higher temperature, and conversely |
| BoilPlan.FinalTempRoundTrip | frontend/src/ChmelovarSimulation.js:87-90 | the evaporation-to-temperature map is inverted by its linear inverse, both ways |
| BoilPlan.LocateFrom | frontend/src/ChmelovarSimulation.js:138-147 | scanning from a step, the locator returns -1 exactly when the minute is past the remaining steps, otherwise a later step whose end lies after the minute |
| BoilPlan.Locate | frontend/src/ChmelovarSimulation.js:138-147 | for a minute ≥ 0 the locator returns -1 exactly from the total duration on; a located step ends after the minute |
| BoilPlan.LocateFromSpec | frontend/src/ChmelovarSimulation.js:138-147 | scanning from a step, the locator returns -1 exactly from the total on, otherwise a step covering the minute, with its start |
| BoilPlan.CoverUnique | frontend/src/ChmelovarSimulation.js:138-147 | no minute belongs to two steps |
| BoilPlan.LocateSpec | frontend/src/ChmelovarSimulation.js:138-147 | the locator finds the one step covering the minute and when it began, never a zero-duration step, and -1 exactly from the total duration on |
| BoilPlan.LocateStep | frontend/src/ChmelovarSimulation.js:138-147 | the loop with its early exit computes the locator |
| BoilPlan.StepPoints | frontend/src/ChmelovarSimulation.js:101-111 | each step adds one chart point per minute of its duration |
| BoilPlan.SkeletonFrom | frontend/src/ChmelovarSimulation.js:97-112 | the skeleton's points from a step on account for exactly the remaining minutes |
| BoilPlan.SkeletonFromPoint | frontend/src/ChmelovarSimulation.js:100-111 | each skeleton point is at its minute, unmeasured, with a hop marker exactly where a hop step begins |
| BoilPlan.Skeleton | frontend/src/ChmelovarSimulation.js:97-112 | the chart drawn on loading has one point per planned minute, point k at minute k, none measured |
| BoilPlan.SkeletonSpec | frontend/src/ChmelovarSimulation.js:97-112 | the skeleton has exactly totalTime points, point k at minute k, unmeasured, the hop marker exactly at the first minute of each hop step with a positive duration |
| BoilSimulation.Load | frontend/src/ChmelovarSimulation.js:97-120 | the state on loading a recipe satisfies the run invariant |
| BoilSimulation.Enter | frontend/src/ChmelovarSimulation.js:50-62 | a missing recipe or one without a step list shows the error screen; any other is loaded |
| BoilSimulation.TargetAt | frontend/src/ChmelovarSimulation.js:149-154 | when no step covers the minute the target is 0 °C |
| BoilSimulation.NextTemp | frontend/src/ChmelovarSimulation.js:157-162 | one tick moves toward the target, by at most 2.2 °C and at most 1.1 times the gap |
| BoilSimulation.RecordSample | frontend/src/ChmelovarSimulation.js:164-174 | the sample lands only at an existing minute, and only that point's measurement changes |
| BoilSimulation.Tick | frontend/src/ChmelovarSimulation.js:129-196 | past totalTime the run stops and nothing else changes; otherwise the clock advances, the temperature takes one `NextTemp` step toward the target of the new minute (so it moves a bounded amount), only that minute's sample changes, and a due hop addition stops the run, shows its dialog and is recorded at once |
| BoilSimulation.ToggleAsWritten | frontend/src/ChmelovarSimulation.js:202-217 | while running the button only flips pause; when stopped it starts, resetting clock and temperature after a finished run but keeping the chart and the hop additions done |
| BoilSimulation.Toggle | frontend/src/ChmelovarSimulation.js:202-217 | the restart as intended: as written, and a finished run's chart is redrawn and its hop additions cleared |
| BoilSimulation.ContinueAfterHop | frontend/src/ChmelovarSimulation.js:220-223 | "continue" closes the dialog and resumes, recording nothing more |
| BoilSimulation.HopDue | frontend/src/ChmelovarSimulation.js:178-192 | the hop dialog is due exactly at the second minute of a hop step lasting two minutes or more whose addition is not done |
| BoilSimulation.PressBack | frontend/src/ChmelovarSimulation.js:229-236 | a running simulation asks for confirmation; a stopped one is left |
| BoilSimulation.CancelExit | frontend/src/ChmelovarSimulation.js:256-258 | "Storno" closes the exit dialog and changes nothing else |
| BoilSimulation.CancelUndoesBack | frontend/src/ChmelovarSimulation.js:247-258 | back on a running simulation followed by "Storno" returns to the state before |
| BoilSimulationFacts.LoadSatisfiesInv | frontend/src/ChmelovarSimulation.js:97-120 | the state on loading a recipe satisfies the run invariant |
| BoilSimulationFacts.TickPreservesInv | frontend/src/ChmelovarSimulation.js:129-196 | a tick keeps the clock within the plan, the skeleton, measurements only at simulated minutes, and hop additions at reached steps |
| BoilSimulationFacts.TogglePreservesInv | frontend/src/ChmelovarSimulation.js:202-217 | the corrected start/pause button keeps the run invariant |
| BoilSimulationFacts.ContinuePreservesInv | frontend/src/ChmelovarSimulation.js:220-223 | "continue" keeps the run invariant |
| BoilSimulationFacts.TickRecordsMeasurement | frontend/src/ChmelovarSimulation.js:149-174 | ticks before the last minute store their temperature; the tick reaching the last minute aims at 0 °C and writes nothing |
| BoilSimulationFacts.NoHopDialogForOneMinuteStep | frontend/src/ChmelovarSimulation.js:184-185 | a step shows the hop dialog only if it lasts at least two minutes |
| BoilSimulationFacts.ApplyKeepsDone | frontend/src/ChmelovarSimulation.js:189-223 | apart from a restart, no action forgets a hop addition done |
| BoilSimulationFacts.DoneHopNotRaised | frontend/src/ChmelovarSimulation.js:183 | along any sequence of actions without a restart, a hop addition done is never asked for again |
| BoilSimulationFacts.HopDialogOncePerRun | frontend/src/ChmelovarSimulation.js:183-190 | the tick showing a hop dialog records it, so the run never shows it again |
| BoilSimulationFacts.AsWrittenRestartKeepsStaleChart | frontend/src/ChmelovarSimulation.js:205-211 | as written, a restart keeps the previous run's measurement at minute 1 with the clock at 0, breaking the run invariant; the corrected restart keeps it |
| BoilSimulationFacts.SecondRunSkipsHopDialog | frontend/src/ChmelovarSimulation.js:205-211 | as written, the second run of a hop recipe skips the hop dialog; the corrected restart shows it at minute 1 |
| MashEditor.CountEndsAppend | frontend/src/RecipeEditor.js:42-68 | end steps of concatenated lists add up |
| MashEditor.CountEndsPositive | frontend/src/RecipeEditor.js:18 | a list has an end step exactly when its end-step count is positive |
| MashEditor.CountEndsInsert | frontend/src/RecipeEditor.js:57-58 | splicing a step in adds one end step exactly when it is one |
| MashEditor.Load | frontend/src/RecipeEditor.js:14-29 | the draft always has an end step: a new one is [end step], an existing one is copied, with one end step appended when it had none |
| MashEditor.AddStep | frontend/src/RecipeEditor.js:42-60 | the default step goes just before the first end step, the rest in order; without an end step one is appended |
| MashEditor.RemoveStep | frontend/src/RecipeEditor.js:62-68 | removing an end step does nothing; any other step is removed, the rest in order |
| MashEditor.Restore | frontend/src/RecipeEditor.js:70-74 | the restoring edit holds the step's old value |
| MashEditor.UpdateStepField | frontend/src/RecipeEditor.js:70-74 | exactly one field of one step changes, to the new value |
| MashEditor.HandleSave | frontend/src/RecipeEditor.js:76-82 | nothing is saved without a name; otherwise the draft and its position pass through unchanged |
| MashEditor.AddStepEnds | frontend/src/RecipeEditor.js:42-60 | adding a step never loses an end step and adds one exactly when there was none |
| MashEditor.RemoveStepEnds | frontend/src/RecipeEditor.js:62-68 | removing a step never changes the number of end steps |
| MashEditor.EndStaysLast | frontend/src/RecipeEditor.js:42-68 | an end step in last place stays last under adding and removing |
| MashEditor.RemoveUndoesAdd | frontend/src/RecipeEditor.js:42-68 | removing the step just added restores the list |
| MashEditor.RestoreUndoesEdit | frontend/src/RecipeEditor.js:70-74 | putting the old value back undoes an edit |
| MashEditor.EditKeepsEnds | frontend/src/RecipeEditor.js:70-74 | editing a field moves no end step |
| MashEditor.LoadIdempotent | frontend/src/RecipeEditor.js:14-29 | reopening a draft changes nothing |
| MashEditor.SaveAfterLoad | frontend/src/RecipeEditor.js:14-82 | opening a named recipe with an end step and saving it hands back the same recipe and position |
| BoilEditor.Load | frontend/src/ChmelovarEditor.js:25-33 | the draft is the recipe being edited, or unnamed with no steps |
| BoilEditor.AddStep | frontend/src/ChmelovarEditor.js:36-41 | the default step is appended, the prefix unchanged |
| BoilEditor.RemoveStep | frontend/src/ChmelovarEditor.js:44-46 | the step at the index is removed, the rest in order; an index outside the list removes nothing |
| BoilEditor.Restore | frontend/src/ChmelovarEditor.js:49-53 | the restoring edit holds the step's old value |
| BoilEditor.UpdateStep | frontend/src/ChmelovarEditor.js:49-53 | exactly one field of one step changes, to the new value |
| BoilEditor.HandleSave | frontend/src/ChmelovarEditor.js:56-70 | a missing name is refused first, then an empty step list; otherwise the draft and its position pass through |
| BoilEditor.RemoveUndoesAdd | frontend/src/ChmelovarEditor.js:36-46 | removing the step just added restores the list |
| BoilEditor.AddStepTotalTime | frontend/src/ChmelovarEditor.js:36-41 | adding a step lengthens the boil by ten minutes |
| BoilEditor.RemoveStepTotalTime | frontend/src/ChmelovarEditor.js:44-46 | removing a step shortens the boil by its duration |
| BoilEditor.RestoreUndoesEdit | frontend/src/ChmelovarEditor.js:49-53 | putting the old value back undoes an edit |
| BoilEditor.SaveAfterLoad | frontend/src/ChmelovarEditor.js:25-70 | opening a valid recipe and saving it hands back the same recipe and position |
| BoilEditor.NewDraftNeedsStep | frontend/src/ChmelovarEditor.js:61-64 | a named new draft is refused until a step is added |
| Lists.WithoutIndex | frontend/src/BrewingSystem.js:77 | filtering out one index removes exactly that element, keeping order; an index outside the list changes nothing |
| Lists.InsertAt | frontend/src/RecipeEditor.js:57-58 | splicing in an element shifts the later elements by one |
| Lists.RemoveInserted | frontend/src/RecipeEditor.js:57-67 | removing the spliced-in element restores the list |
| Decimal.Show | frontend/src/BrewingSystem.js:100 | a number is written as a non-empty digit string without leading zeros |
| Decimal.ParseShow | frontend/src/BrewingSystem.js:92-100 | parsing the written copy number gives the number back |
| Decimal.ShowParse | frontend/src/BrewingSystem.js:92-100 | writing a parsed digit string without leading zeros gives the string back |
| Decimal.ParseZero | frontend/src/BrewingSystem.js:92 | a digit string parses to 0 exactly when every digit is 0 |
| Decimal.ParsePositive | frontend/src/BrewingSystem.js:92 | a digit string parses to a positive number when it has a non-zero digit |
| CopyNames.TrailingDigits | frontend/src/BrewingSystem.js:86-91 | the longest run of digits at the end of a name |
| CopyNames.TrailingSpaces | frontend/src/BrewingSystem.js:86 | the longest run of whitespace at the end of a string |
| CopyNames.CopyWordStart | frontend/src/BrewingSystem.js:86-91 | where the name ends in "copy" and digits, that "copy" is found |
| CopyNames.BaseName | frontend/src/BrewingSystem.js:86 | the base name is the name with the leftmost match of whitespace, "copy" and digits at the end removed; a name without a match is returned unchanged |
| CopyNames.MarkerPosition | frontend/src/BrewingSystem.js:86 | every match of the marker starts at whitespace running up to the one "copy" before the trailing digits |
| CopyNames.CopyNumberOf | frontend/src/BrewingSystem.js:91-92 | a name ending in "copy" and digits has those digits, read in decimal, as its number |
| CopyNames.CopyNumberOfSpec | frontend/src/BrewingSystem.js:87 | a name has a copy number exactly when it ends in "copy" followed by one or more digits |
| CopyNames.CopyNumbers | frontend/src/BrewingSystem.js:87-93 | the copy numbers are exactly those of the names that start with the base and end in "copy" and digits |
| CopyNames.MaxOrZero | frontend/src/BrewingSystem.js:94-96 | the maximum of the numbers, 0 for none |
| CopyNames.NextCopyNumber | frontend/src/BrewingSystem.js:88-97 | the copy number is 1 without copies, otherwise one more than the largest copy number |
| CopyNames.CopyNameReadsBack | frontend/src/BrewingSystem.js:87-100 | a name written as base + " copyK" is read back as a copy of base numbered K |
| CopyNames.NumberedNameIsFresh | frontend/src/BrewingSystem.js:87-100 | the base name numbered one past its highest listed copy is not listed yet |
| CopyNames.CopyName | frontend/src/BrewingSystem.js:86-101 | the copy's name differs from every existing name |
| Recipes.Names | frontend/src/BrewingSystem.js:87 | the names of the recipes, in order |
| Recipes.Delete | frontend/src/BrewingSystem.js:77 | deleting removes exactly the recipe at the index and keeps the others' order |
| Recipes.Copy | frontend/src/BrewingSystem.js:98-102 | the copy is appended with the same steps and a fresh name that reads back as the next copy of the base name |
| Recipes.Save | frontend/src/BrewingSystem.js:109-119 | with a position the recipe replaces that entry and the length stays; without one it is appended |
| Recipes.DeleteUndoesCopy | frontend/src/BrewingSystem.js:77-102 | deleting the copy just made restores the list |
| Recipes.DeleteUndoesSaveNew | frontend/src/BrewingSystem.js:77-117 | deleting a recipe just saved as new restores the list |
| Recipes.SaveOriginalUndoesEdit | frontend/src/BrewingSystem.js:109-113 | saving the original back over an edit restores the list |
| Recipes.SaveEditIdempotent | frontend/src/BrewingSystem.js:109-113 | saving the same edit twice equals saving it once |
| Recipes.CopyTwiceDistinct | frontend/src/BrewingSystem.js:83-105 | two successive copies get different names, neither taken before |
| BrewingSystem.EditAt | frontend/src/BrewingSystem.js:67-71 | opening the editor records the recipe and its valid position |
| BrewingSystem.SaveDraft | frontend/src/BrewingSystem.js:108-121 | the draft replaces its entry or is appended, and becomes the chosen recipe |
| BrewingSystem.HandleSelectRecipe | frontend/src/BrewingSystem.js:58-61 | choosing a mash recipe selects it and shows its simulation |
| BrewingSystem.HandleCreateNew | frontend/src/BrewingSystem.js:62-66 | a new mash recipe opens the editor with nothing to edit |
| BrewingSystem.HandleEditRecipe | frontend/src/BrewingSystem.js:67-71 | editing opens the mash editor on the recipe at the position |
| BrewingSystem.HandleDeleteRecipe | frontend/src/BrewingSystem.js:74-81 | deleting changes only the mash list |
| BrewingSystem.HandleCopyRecipe | frontend/src/BrewingSystem.js:83-105 | copying appends to the mash list only |
| BrewingSystem.HandleSaveRecipe | frontend/src/BrewingSystem.js:108-122 | saving stores the mash draft, selects it and shows its simulation |
| BrewingSystem.HandleCancelEdit | frontend/src/BrewingSystem.js:123-127 | cancelling clears the edit and returns to the mash list |
| BrewingSystem.HandleFinishSimulation | frontend/src/BrewingSystem.js:130-133 | finishing returns to the mash list and clears the selection |
| BrewingSystem.HandleSelectChmelovar | frontend/src/BrewingSystem.js:137-140 | choosing a boil recipe selects it and shows its simulation |
| BrewingSystem.HandleCreateChmelovar | frontend/src/BrewingSystem.js:141-145 | a new boil recipe opens the editor with nothing to edit |
| BrewingSystem.HandleEditChmelovar | frontend/src/BrewingSystem.js:146-150 | editing opens the boil editor on the recipe at the position |
| BrewingSystem.HandleDeleteChmelovar | frontend/src/BrewingSystem.js:151-155 | deleting changes only the boil list |
| BrewingSystem.HandleCopyChmelovar | frontend/src/BrewingSystem.js:156-175 | copying appends to the boil list only |
| BrewingSystem.HandleSaveChmelovar | frontend/src/BrewingSystem.js:178-188 | saving stores the boil draft, selects it and shows its simulation |
| BrewingSystem.HandleCancelChmelovar | frontend/src/BrewingSystem.js:189-193 | cancelling clears the edit and returns to the boil list |
| BrewingSystem.HandleFinishChmelovarSim | frontend/src/BrewingSystem.js:196-199 | finishing returns to the boil list and clears the selection |
| BrewingSystem.Render | frontend/src/BrewingSystem.js:203-282 | a simulation screen shows exactly when its view has a chosen recipe; otherwise the unknown-view placeholder |
| BrewingSystem.Handle | frontend/src/BrewingSystem.js:204-282 | an event offered on another screen changes nothing; a recipe list changes only by a delete or copy on its list screen or a save in its editor; a simulation screen is entered only with a recipe chosen |
| BrewingSystem.HandlePreservesConsistent | frontend/src/BrewingSystem.js:58-199 | every handler keeps simulation views with a chosen recipe and editor positions valid |
| BrewingSystem.ReplayPreservesConsistent | frontend/src/BrewingSystem.js:58-199 | any sequence of user actions keeps that consistency |
| BrewingSystem.NeverUnknownView | frontend/src/BrewingSystem.js:239-282 | from the start, no sequence of user actions reaches the unknown-view placeholder |
| BrewingSystem.SaveThenFinish | frontend/src/BrewingSystem.js:108-133 | saving shows the saved mash recipe's simulation; finishing returns to the updated list with nothing chosen |
| BrewingSystem.SaveThenFinishBoil | frontend/src/BrewingSystem.js:178-199 | the same for the boil screens |
| BrewingSystem.EditUnchangedMashRecipe | frontend/src/BrewingSystem.js:67-122 | editing a mash recipe and saving it unchanged keeps the list and simulates that recipe |
| BrewingSystem.EditUnchangedBoilRecipe | frontend/src/BrewingSystem.js:146-188 | editing a boil recipe and saving it unchanged keeps the list and simulates that recipe |
| BrewingSystem.CopyThenDelete | frontend/src/BrewingSystem.js:74-105 | copying a recipe and deleting the copy leaves the mash section as it was |

## Left out

- The backend (backend/app.py) is HTTP plumbing over in-memory lists. The initial `fetch` of the recipe lists is modelled as the lists `BrewingSystem.Start` receives; a fetch arriving mid-edit is not modelled.
- Manual control, login, import, the menus, the list screens, the dialog component and the charts are I/O or presentation only.
- The interval cadence (500/400 ms), effect dependencies and the ordering of nested React state updaters are not modelled: one tick is one pure function.
- JavaScript doubles are modelled as exact reals: no rounding and no NaN.
- Falsy coercions are modelled only for the zero or absent case: `|| 1`, `|| 0`, `|| 4` on undefined or NaN values are not.
- Mash ramp rates and hold times must be non-negative (`MashPlan.WellFormed`) wherever a property needs it. A negative rate yields a negative ramp time, which the source does not guard against.
- Boil durations are whole minutes (`nat`). Fractional, negative or non-numeric values typed into the number field are not modelled.
- Step updates in both editors mutate step objects shared with the stored recipe, through a shallow copy. The model uses value semantics, so an edit followed by cancel leaves the stored recipe untouched here.
- `parseInt` of a copy number too large for a double is read exactly.
- Recipes.Save: requires the edit position to lie within the list. JavaScript would pad the array with holes, but positions only ever come from the list being shown; `BrewingSystem.NeverUnknownView` shows the editor's position stays valid.
- `handleEndOk` and the exit dialog's "Ukončit" button call the finish handler, which `BrewingSystem.HandleFinishSimulation` and `HandleFinishChmelovarSim` model. The exit dialog's "Storno" button only closes the dialog (`MashSimulation.CancelExit`, `BoilSimulation.CancelExit`). The dialogs close only through their buttons, because the dialog component ignores `onOpenChange`.
- The run traces of `MashSimulationFacts` and `BoilSimulationFacts` contain ticks and the dialog buttons of the run but not the exit dialog, which leaves the run as it was.
- MashPlanFacts.CurveMatchesPlannedTemp: agreement of the curve and the planned temperature is proved only for whole-minute ramps and holds. With fractional ones they differ, as `MashPlanFacts.FractionalRampDisagrees` shows.

## Findings

| source | as written | input that shows it | evidently intended | confidence | as-written member | corrected member |
|---|---|---|---|---|---|---|
| frontend/src/BrewingSimulation.js:206-219 | restarting a finished mash run resets clock, temperature and curve but keeps the acknowledged iodine tests | recipe `[50 °C, rate 1, hold 5, iodine test]` with no end step: the first run ends at minute 35 without a dialog, so "start" is pressable; on the second run the test at minute 1 is skipped | a restart begins a fresh run in which every iodine test is raised again | not executed | MashSimulationFacts.SecondRunSkipsIodineTest | MashSimulation.Toggle |
| frontend/src/ChmelovarSimulation.js:202-217 | restarting a finished boil run resets clock and temperature but keeps the old chart measurements and the hop additions done | `[3 min, 4 %, hops]` finished with its hop added: restarted, the first tick skips the hop dialog; `[2 min, 4 %]` finished: minute 1 still shows the old measurement with the clock at 0 | a restart redraws the chart and asks for every hop addition again | not executed | BoilSimulationFacts.SecondRunSkipsHopDialog | BoilSimulation.Toggle |
