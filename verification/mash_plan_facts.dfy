/** Properties of the mash plan: the curve covers the planned duration, the
    planned temperature stays within the targets and settles on the last
    one, and the step locator agrees with the duration accounting. */
module MashPlanFacts {
  import opened Wrappers
  import opened RealMath
  import opened MashPlan

  lemma WellFormedTail(steps: seq<MashStep>, i: nat)
    requires i <= |steps| && WellFormed(steps)
    ensures WellFormed(steps[i..])
  {
    assert forall j :: 0 <= j < |steps[i..]| ==> steps[i..][j] == steps[i + j];
  }

  // ----- the curve is long enough for every tick ----------------------

  /** Each non-end step contributes at least its exact duration to the
      curve, since a loop over a fractional bound runs up to the next
      whole minute. */
  lemma {:induction false} CurveSlotsCoverPlanLength(steps: seq<MashStep>, temp: real)
    requires WellFormed(steps)
    ensures CurveSlots(steps, temp) as real >= PlanLength(steps, temp)
    decreases |steps|
  {
    if |steps| > 0 {
      WellFormedTail(steps, 1);
      if steps[0].isEndStep {
        assert PlanLength(steps, temp) == 0.0;
      } else {
        CurveSlotsCoverPlanLength(steps[1..], steps[0].targetTemp);
      }
    }
  }

  /** The planned curve has a point for every minute 0..totalTime, so each
      tick up to the total time finds its slot. */
  lemma CurveCoversTotalTime(steps: seq<MashStep>)
    requires WellFormed(steps)
    ensures |PlannedCurve(steps)| >= TotalTime(steps) + 1
  {
    CurveSlotsCoverPlanLength(steps, StartTemp);
  }

  // ----- planned temperature ------------------------------------------

  /** At the very start of the remaining steps the plan is still at the
      running temperature. */
  lemma {:induction false} PlannedTempAtStart(steps: seq<MashStep>, acc: real, temp: real)
    requires WellFormed(steps)
    ensures PlannedTempFrom(steps, acc, acc, temp) == temp
    decreases |steps|
  {
    if |steps| > 0 && !steps[0].isEndStep {
      var s := steps[0];
      if RampTime(temp, s) == 0.0 && s.holdTime == 0.0 {
        WellFormedTail(steps, 1);
        PlannedTempAtStart(steps[1..], acc, s.targetTemp);
      }
    }
  }

  /** Once the steps before the first end step are over, the plan holds the
      last target (or the starting temperature if there was no step). */
  lemma {:induction false} PlannedTempAfterPlan(steps: seq<MashStep>, t: real, acc: real, temp: real)
    requires WellFormed(steps)
    requires acc + PlanLength(steps, temp) <= t
    ensures acc <= t
    ensures PlannedTempFrom(steps, t, acc, temp) == FinalTarget(steps, temp)
    decreases |steps|
  {
    PlanLengthNonNegative(steps, temp);
    if |steps| > 0 && !steps[0].isEndStep {
      WellFormedTail(steps, 1);
      var s := steps[0];
      PlanLengthNonNegative(steps[1..], s.targetTemp);
      PlannedTempAfterPlan(steps[1..], t, acc + RampTime(temp, s) + s.holdTime, s.targetTemp);
    }
  }

  /** For every elapsed minute the planned temperature lies between the
      lowest and highest of 20 °C and the targets before the first end step,
      and from the planned total on it is the last such target. */
  lemma PlannedTempRange(steps: seq<MashStep>, t: int)
    requires WellFormed(steps) && t >= 0
    ensures LowestTarget(steps, StartTemp) <= PlannedTemp(steps, t) <= HighestTarget(steps, StartTemp)
    ensures t as real >= PlanLength(steps, StartTemp) ==> PlannedTemp(steps, t) == FinalTarget(steps, StartTemp)
  {
    if t as real >= PlanLength(steps, StartTemp) {
      PlannedTempAfterPlan(steps, t as real, 0.0, StartTemp);
    }
  }

  // ----- step locator ---------------------------------------------------

  /** A minute inside the planned duration falls on a step that is not an
      end step and comes before every end step. */
  lemma {:induction false} StepIndexWithinPlanFrom(steps: seq<MashStep>, t: real, i: nat, acc: real, last: real)
    requires i <= |steps|
    requires acc <= t < acc + PlanLength(steps[i..], last)
    ensures i <= StepIndexFrom(steps, t, i, acc, last) < |steps|
    ensures forall j :: i <= j <= StepIndexFrom(steps, t, i, acc, last) ==> !steps[j].isEndStep
    decreases |steps| - i
  {
    if i < |steps| && !steps[i].isEndStep {
      assert steps[i..][1..] == steps[i + 1..];
      var dur := RampTime(last, steps[i]) + steps[i].holdTime;
      if acc + dur <= t {
        StepIndexWithinPlanFrom(steps, t, i + 1, acc + dur, steps[i].targetTemp);
      }
    }
  }

  /** A minute at or past the planned duration falls on the first end step,
      or on no step (-1) when there is none. */
  lemma {:induction false} StepIndexPastPlanFrom(steps: seq<MashStep>, t: real, i: nat, acc: real, last: real)
    requires i <= |steps| && WellFormed(steps)
    requires forall j :: 0 <= j < i ==> !steps[j].isEndStep
    requires acc + PlanLength(steps[i..], last) <= t
    ensures StepIndexFrom(steps, t, i, acc, last) == FindEnd(steps)
    decreases |steps| - i
  {
    if i < |steps| && !steps[i].isEndStep {
      assert steps[i..][1..] == steps[i + 1..];
      WellFormedTail(steps, i + 1);
      PlanLengthNonNegative(steps[i + 1..], steps[i].targetTemp);
      var dur := RampTime(last, steps[i]) + steps[i].holdTime;
      StepIndexPastPlanFrom(steps, t, i + 1, acc + dur, steps[i].targetTemp);
    } else if i < |steps| {
      assert FindEnd(steps) == i;
    }
  }

  /** `getCurrentStepIndex` returns a step index or -1; it returns a
      non-end step lying before every end step while `t` is inside the
      planned duration, the first end step from then on, and -1 exactly
      when there is no end step and the plan is over. */
  lemma StepIndexSpec(steps: seq<MashStep>, t: int)
    requires WellFormed(steps) && t >= 0
    ensures -1 <= StepIndex(steps, t) < |steps|
    ensures (t as real) < PlanLength(steps, StartTemp) ==>
      0 <= StepIndex(steps, t) && forall j :: 0 <= j <= StepIndex(steps, t) ==> !steps[j].isEndStep
    ensures (t as real) >= PlanLength(steps, StartTemp) ==> StepIndex(steps, t) == FindEnd(steps)
    ensures StepIndex(steps, t) == -1 <==> !HasEnd(steps) && (t as real) >= PlanLength(steps, StartTemp)
  {
    assert steps[0..] == steps;
    if (t as real) < PlanLength(steps, StartTemp) {
      StepIndexWithinPlanFrom(steps, t as real, 0, 0.0, StartTemp);
    } else {
      StepIndexPastPlanFrom(steps, t as real, 0, 0.0, StartTemp);
    }
  }

  /** Every whole minute before `totalTime` is spent on a non-end step. */
  lemma StepIndexBeforeTotal(steps: seq<MashStep>, t: int)
    requires WellFormed(steps) && 0 <= t < TotalTime(steps)
    ensures 0 <= StepIndex(steps, t) < |steps|
    ensures !steps[StepIndex(steps, t)].isEndStep
  {
    StepIndexSpec(steps, t);
  }

  // ----- the curve and the planned temperature --------------------------

  predicate IsWhole(x: real) {
    x == x.Floor as real
  }

  /** Every ramp and hold before the first end step lasts a whole number of
      minutes. */
  predicate WholeMinutePlan(steps: seq<MashStep>, temp: real)
    decreases |steps|
  {
    |steps| == 0 || steps[0].isEndStep ||
    (IsWhole(RampTime(temp, steps[0])) && IsWhole(steps[0].holdTime)
     && WholeMinutePlan(steps[1..], steps[0].targetTemp))
  }

  lemma LoopCountWhole(x: real)
    requires x >= 0.0 && IsWhole(x)
    ensures LoopCount(x) as real == x
  {
    var n := x.Floor;
    assert -x == (-n) as real;
    assert (-x).Floor == -n;
  }

  /** A ramp minute of the curve carries the planned temperature of its
      minute. The last ramp minute lands exactly on the target because the
      ramp lasts whole minutes. */
  lemma RampMinuteMatches(steps: seq<MashStep>, t0: int, temp: real, j: nat)
    requires WellFormed(steps) && |steps| > 0 && !steps[0].isEndStep
    requires IsWhole(RampTime(temp, steps[0]))
    requires j < LoopCount(RampTime(temp, steps[0]))
    ensures RampPoints(t0, temp, steps[0])[j].plannedTemp == PlannedTempFrom(steps, (t0 + j + 1) as real, t0 as real, temp)
  {
    LoopCountWhole(RampTime(temp, steps[0]));
    if ((j + 1) as real) < RampTime(temp, steps[0]) {
      RampInteriorMatches(steps, t0, temp, j);
    } else {
      RampEndMatches(steps, t0, temp, j);
    }
  }

  lemma RampInteriorMatches(steps: seq<MashStep>, t0: int, temp: real, j: nat)
    requires |steps| > 0 && !steps[0].isEndStep
    requires j < LoopCount(RampTime(temp, steps[0])) && ((j + 1) as real) < RampTime(temp, steps[0])
    ensures RampPoints(t0, temp, steps[0])[j].plannedTemp == PlannedTempFrom(steps, (t0 + j + 1) as real, t0 as real, temp)
  {
    RampPointValue(t0, temp, steps[0], j);
    PlannedTempInRamp(steps, (t0 + j + 1) as real, t0 as real, temp, (j + 1) as real);
  }

  lemma RampEndMatches(steps: seq<MashStep>, t0: int, temp: real, j: nat)
    requires WellFormed(steps) && |steps| > 0 && !steps[0].isEndStep
    requires j < LoopCount(RampTime(temp, steps[0])) && ((j + 1) as real) == RampTime(temp, steps[0])
    ensures RampPoints(t0, temp, steps[0])[j].plannedTemp == PlannedTempFrom(steps, (t0 + j + 1) as real, t0 as real, temp)
  {
    RampPointValue(t0, temp, steps[0], j);
    DivCancel((j + 1) as real, steps[0].targetTemp - temp, RampTime(temp, steps[0]));
    PlannedTempAtRampEnd(steps, (t0 + j + 1) as real, t0 as real, temp);
  }

  /** Ramp point `j` is `j + 1` per-minute increments above the start. */
  lemma RampPointValue(t0: int, temp: real, s: MashStep, j: nat)
    requires j < LoopCount(RampTime(temp, s))
    ensures RampPoints(t0, temp, s)[j].plannedTemp
      == temp + (j + 1) as real * ((s.targetTemp - temp) / RampTime(temp, s))
  {
  }

  /** During the first ramp the plan interpolates linearly. */
  lemma PlannedTempInRamp(steps: seq<MashStep>, t: real, acc: real, temp: real, x: real)
    requires |steps| > 0 && !steps[0].isEndStep
    requires acc <= t < acc + RampTime(temp, steps[0]) && x == t - acc
    ensures PlannedTempFrom(steps, t, acc, temp)
      == temp + x * ((steps[0].targetTemp - temp) / RampTime(temp, steps[0]))
  {
    MulDivSwap(x, steps[0].targetTemp - temp, RampTime(temp, steps[0]));
  }

  /** From the end of the first ramp until the first step's plan is over,
      the plan is at the step's target. */
  lemma PlannedTempAtRampEnd(steps: seq<MashStep>, t: real, acc: real, temp: real)
    requires WellFormed(steps) && |steps| > 0 && !steps[0].isEndStep
    requires t == acc + RampTime(temp, steps[0])
    ensures PlannedTempFrom(steps, t, acc, temp) == steps[0].targetTemp
  {
    assert steps[0].holdTime >= 0.0 && RampTime(temp, steps[0]) >= 0.0;
    if steps[0].holdTime == 0.0 {
      WellFormedTail(steps, 1);
      PlannedTempAtStart(steps[1..], t, steps[0].targetTemp);
    }
  }

  /** A hold minute of the curve carries the planned temperature of its
      minute, the step's target. */
  lemma HoldMinuteMatches(steps: seq<MashStep>, t0: int, temp: real, j: nat)
    requires WellFormed(steps) && |steps| > 0 && !steps[0].isEndStep
    requires IsWhole(RampTime(temp, steps[0])) && IsWhole(steps[0].holdTime)
    requires LoopCount(RampTime(temp, steps[0])) <= j < LoopCount(RampTime(temp, steps[0])) + LoopCount(steps[0].holdTime)
    ensures steps[0].targetTemp == PlannedTempFrom(steps, (t0 + j + 1) as real, t0 as real, temp)
  {
    var s := steps[0];
    LoopCountWhole(RampTime(temp, s));
    LoopCountWhole(s.holdTime);
    var t := (t0 + j + 1) as real;
    if t >= t0 as real + RampTime(temp, s) + s.holdTime {
      WellFormedTail(steps, 1);
      PlannedTempAtStart(steps[1..], t, s.targetTemp);
    }
  }

  /** A minute after step 0 is planned as the same minute of the steps
      that follow it. */
  lemma PlannedTempSkipsStep(steps: seq<MashStep>, t: real, acc: real, temp: real)
    requires |steps| > 0 && !steps[0].isEndStep
    requires steps[0].rampRate >= 0.0 && steps[0].holdTime >= 0.0
    requires acc + RampTime(temp, steps[0]) + steps[0].holdTime <= t
    ensures acc <= t
    ensures PlannedTempFrom(steps, t, acc, temp)
      == PlannedTempFrom(steps[1..], t, acc + RampTime(temp, steps[0]) + steps[0].holdTime, steps[0].targetTemp)
  {
  }

  /** Past a step's ramp and hold minutes, the curve continues with the
      curve of the remaining steps. */
  lemma CurveAfterTailPoint(steps: seq<MashStep>, t0: int, temp: real, j: nat)
    requires |steps| > 0 && !steps[0].isEndStep
    requires var s := steps[0];
      LoopCount(RampTime(temp, s)) + LoopCount(s.holdTime) <= j < |CurveAfter(steps, t0, temp)|
    ensures var s := steps[0];
      var n, m := LoopCount(RampTime(temp, s)), LoopCount(s.holdTime);
      && j - n - m < |CurveAfter(steps[1..], t0 + n + m, s.targetTemp)|
      && CurveAfter(steps, t0, temp)[j] == CurveAfter(steps[1..], t0 + n + m, s.targetTemp)[j - n - m]
  {
    CurveAfterUnfold(steps, t0, temp);
  }

  /** Within a step's ramp and hold minutes, the curve holds that step's
      points. */
  lemma CurveAfterHeadPoint(steps: seq<MashStep>, t0: int, temp: real, j: nat)
    requires |steps| > 0 && !steps[0].isEndStep
    requires j < LoopCount(RampTime(temp, steps[0])) + LoopCount(steps[0].holdTime)
    ensures var n := LoopCount(RampTime(temp, steps[0]));
      && j < |CurveAfter(steps, t0, temp)|
      && (j < n ==> CurveAfter(steps, t0, temp)[j] == RampPoints(t0, temp, steps[0])[j])
      && (n <= j ==> CurveAfter(steps, t0, temp)[j] == HoldPoints(t0 + n, steps[0])[j - n])
  {
    CurveAfterUnfold(steps, t0, temp);
    var s := steps[0];
    var ramp := RampPoints(t0, temp, s);
    assert StepPoints(t0, temp, s) == ramp + HoldPoints(t0 + |ramp|, s);
  }

  /** A point within the first step's ramp or hold minutes carries the
      planned temperature of its minute. */
  lemma CurveHeadMatchesPlan(steps: seq<MashStep>, t0: int, temp: real, j: nat)
    requires WellFormed(steps) && |steps| > 0 && !steps[0].isEndStep
    requires IsWhole(RampTime(temp, steps[0])) && IsWhole(steps[0].holdTime)
    requires j < LoopCount(RampTime(temp, steps[0])) + LoopCount(steps[0].holdTime)
    ensures j < |CurveAfter(steps, t0, temp)|
    ensures CurveAfter(steps, t0, temp)[j].plannedTemp == PlannedTempFrom(steps, (t0 + j + 1) as real, t0 as real, temp)
  {
    CurveAfterHeadPoint(steps, t0, temp, j);
    if j < LoopCount(RampTime(temp, steps[0])) {
      RampMinuteMatches(steps, t0, temp, j);
    } else {
      HoldMinuteMatches(steps, t0, temp, j);
    }
  }

  /** A point past the first step's minutes carries the planned temperature
      of its minute when the corresponding point of the remaining steps'
      curve does. */
  lemma CurveTailMatchesPlan(steps: seq<MashStep>, t0: int, temp: real, j: nat)
    requires WellFormed(steps) && |steps| > 0 && !steps[0].isEndStep
    requires IsWhole(RampTime(temp, steps[0])) && IsWhole(steps[0].holdTime)
    requires var n, m := LoopCount(RampTime(temp, steps[0])), LoopCount(steps[0].holdTime);
      && n + m <= j
      && j - n - m < |CurveAfter(steps[1..], t0 + n + m, steps[0].targetTemp)|
      && CurveAfter(steps[1..], t0 + n + m, steps[0].targetTemp)[j - n - m].plannedTemp
         == PlannedTempFrom(steps[1..], (t0 + j + 1) as real, (t0 + n + m) as real, steps[0].targetTemp)
    ensures j < |CurveAfter(steps, t0, temp)|
    ensures CurveAfter(steps, t0, temp)[j].plannedTemp == PlannedTempFrom(steps, (t0 + j + 1) as real, t0 as real, temp)
  {
    var s := steps[0];
    var rt := RampTime(temp, s);
    LoopCountWhole(rt);
    LoopCountWhole(s.holdTime);
    var n, m := LoopCount(rt), LoopCount(s.holdTime);
    assert (t0 + n + m) as real == t0 as real + rt + s.holdTime;
    CurveAfterUnfold(steps, t0, temp);
    CurveAfterTailPoint(steps, t0, temp, j);
    PlannedTempSkipsStep(steps, (t0 + j + 1) as real, t0 as real, temp);
  }

  /** Point `j` after minute `t0` of the curve carries the planned
      temperature of minute `t0 + j + 1`, as long as the plan consists of
      whole minutes and `j` is inside it. */
  lemma {:induction false} CurveAfterMatchesPlan(steps: seq<MashStep>, t0: int, temp: real, j: nat)
    requires WellFormed(steps) && WholeMinutePlan(steps, temp)
    requires (j as real) < PlanLength(steps, temp)
    ensures j < |CurveAfter(steps, t0, temp)|
    ensures CurveAfter(steps, t0, temp)[j].plannedTemp == PlannedTempFrom(steps, (t0 + j + 1) as real, t0 as real, temp)
    decreases |steps|
  {
    if |steps| > 0 && !steps[0].isEndStep {
      var s := steps[0];
      var rt := RampTime(temp, s);
      var n, m := LoopCount(rt), LoopCount(s.holdTime);
      if j < n + m {
        CurveHeadMatchesPlan(steps, t0, temp, j);
      } else {
        LoopCountWhole(rt);
        LoopCountWhole(s.holdTime);
        WellFormedTail(steps, 1);
        assert PlanLength(steps, temp) == rt + s.holdTime + PlanLength(steps[1..], s.targetTemp);
        CurveAfterMatchesPlan(steps[1..], t0 + n + m, s.targetTemp, j - n - m);
        CurveTailMatchesPlan(steps, t0, temp, j);
      }
    }
  }

  /** When every ramp and hold lasts whole minutes, the stored curve and the
      direct evaluation agree at every minute the simulation visits. */
  lemma CurveMatchesPlannedTemp(steps: seq<MashStep>, k: int)
    requires WellFormed(steps) && WholeMinutePlan(steps, StartTemp)
    requires 0 <= k <= TotalTime(steps)
    ensures k < |PlannedCurve(steps)|
    ensures PlannedCurve(steps)[k].plannedTemp == PlannedTemp(steps, k)
  {
    if k == 0 {
      PlannedTempAtStart(steps, 0.0, StartTemp);
    } else {
      CurveAfterMatchesPlan(steps, 0, StartTemp, k - 1);
    }
  }

  /** With a fractional ramp the two disagree: a 1 °C ramp at 2 °C/min lasts
      half a minute, the curve's single ramp minute adds the whole per-minute
      increment of 2 °C and plots 22 °C, while the direct evaluation is
      already in the hold at 21 °C. */
  lemma FractionalRampDisagrees()
    ensures var steps := [MashStep(21.0, 2.0, 1.0, false, false, false)];
      TotalTime(steps) == 1
      && PlannedCurve(steps)[1].plannedTemp == 22.0
      && PlannedTemp(steps, 1) == 21.0
  {
    var steps := [MashStep(21.0, 2.0, 1.0, false, false, false)];
    assert RampTime(StartTemp, steps[0]) == 0.5;
    assert LoopCount(0.5) == 1;
    assert PlanLength(steps[1..], 21.0) == 0.0;
    assert PlanLength(steps, StartTemp) == 1.5;
  }

  /** The chart skips an end step but keeps plotting the steps after it,
      while the planned duration stops at the first end step: a 10-minute
      ramp to 30 °C, the end step and a 10-minute ramp to 40 °C last 10
      minutes, yet the chart holds 21 minutes and climbs to 40 °C. */
  lemma EndStepStopsPlanButNotCurve()
    ensures var steps := [MashStep(30.0, 1.0, 0.0, false, false, false),
                          MashStep(30.0, 1.0, 0.0, false, false, true),
                          MashStep(40.0, 1.0, 0.0, false, false, false)];
      TotalTime(steps) == 10
      && PlannedTemp(steps, 10) == 30.0
      && |PlannedCurve(steps)| == 21
      && PlannedCurve(steps)[20].plannedTemp == 40.0
  {
    var steps := [MashStep(30.0, 1.0, 0.0, false, false, false),
                  MashStep(30.0, 1.0, 0.0, false, false, true),
                  MashStep(40.0, 1.0, 0.0, false, false, false)];
    assert RampTime(StartTemp, steps[0]) == 10.0;
    assert LoopCount(10.0) == 10;
    assert LoopCount(0.0) == 0;
    assert PlanLength(steps[1..], 30.0) == 0.0;
    assert PlanLength(steps, StartTemp) == 10.0;
  }
}
