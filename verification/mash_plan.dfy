/** The mash ("rmutování") plan: the planned temperature curve, the planned
    temperature at a given minute, the step that is active at a minute and
    the planned duration, all derived from the recipe's step list. */
module MashPlan {
  import opened Wrappers
  import opened RealMath

  /** One mash step as the recipe editor stores it. An end step (pump-out)
      carries no ramp or hold of its own. */
  datatype MashStep = MashStep(
    targetTemp: real,
    rampRate: real,
    holdTime: real,
    manualPause: bool,
    mixing: bool,
    isEndStep: bool)

  /** One minute of the chart: its time, the planned temperature and the
      measured one (`null` until the simulation reaches it). */
  datatype CurvePoint = CurvePoint(time: int, plannedTemp: real, actualTemp: Option<real>)

  /** The mash starts at 20 °C. */
  const StartTemp: real := 20.0

  /** Ramp rates and hold times are never negative. */
  predicate WellFormed(steps: seq<MashStep>) {
    forall i :: 0 <= i < |steps| ==> steps[i].rampRate >= 0.0 && steps[i].holdTime >= 0.0
  }

  /** `step.rampRate || 1`: a zero rate is read as 1 °C per minute. */
  function EffectiveRate(s: MashStep): (r: real)
    ensures r != 0.0
    ensures s.rampRate >= 0.0 ==> r > 0.0
  {
    if s.rampRate == 0.0 then 1.0 else s.rampRate
  }

  /** Minutes the ramp from `from` to the step's target takes. */
  function RampTime(from: real, s: MashStep): (t: real)
    ensures s.rampRate >= 0.0 ==> t >= 0.0
    ensures s.rampRate >= 0.0 ==> (t == 0.0 <==> s.targetTemp == from)
  {
    Abs(s.targetTemp - from) / EffectiveRate(s)
  }

  /** True when some step is an end step. */
  predicate HasEnd(steps: seq<MashStep>) {
    exists i :: 0 <= i < |steps| && steps[i].isEndStep
  }

  /** `steps.findIndex(s => s.isEndStep)`. */
  function FindEnd(steps: seq<MashStep>): (r: int)
    ensures -1 <= r < |steps|
    ensures r >= 0 ==> steps[r].isEndStep
    ensures r >= 0 ==> forall j :: 0 <= j < r ==> !steps[j].isEndStep
    ensures r == -1 <==> !HasEnd(steps)
    decreases |steps|
  {
    if |steps| == 0 then -1
    else if steps[0].isEndStep then 0
    else
      var r := FindEnd(steps[1..]);
      assert forall j :: 0 < j < |steps| ==> steps[j] == steps[1..][j - 1];
      if r < 0 then -1 else r + 1
  }

  // ---------------------------------------------------------------------
  // Planned duration (the accounting of getTotalTime, getPlannedTempAtTime
  // and getCurrentStepIndex: ramp + hold per step, up to the first end step)
  // ---------------------------------------------------------------------

  /** Exact planned length in minutes of the steps before the first end
      step, the first ramp starting at `temp`. */
  function PlanLength(steps: seq<MashStep>, temp: real): real
    decreases |steps|
  {
    if |steps| == 0 || steps[0].isEndStep then 0.0
    else RampTime(temp, steps[0]) + steps[0].holdTime + PlanLength(steps[1..], steps[0].targetTemp)
  }

  /** The planned duration in whole minutes, `Math.floor` of the exact one. */
  function TotalTime(steps: seq<MashStep>): (t: int)
    ensures WellFormed(steps) ==> t >= 0
  {
    PlanLengthNonNegative(steps, StartTemp);
    Floor(PlanLength(steps, StartTemp))
  }

  lemma {:induction false} PlanLengthNonNegative(steps: seq<MashStep>, temp: real)
    ensures WellFormed(steps) ==> PlanLength(steps, temp) >= 0.0
    decreases |steps|
  {
    if |steps| > 0 && !steps[0].isEndStep {
      PlanLengthNonNegative(steps[1..], steps[0].targetTemp);
      assert WellFormed(steps) ==> WellFormed(steps[1..]);
    }
  }

  /** `getTotalTime`, loop for loop: add ramp and hold per step, stop at the
      first end step, floor the sum. */
  method GetTotalTime(steps: seq<MashStep>) returns (total: int)
    ensures total == TotalTime(steps)
  {
    var sum := 0.0;
    var last := StartTemp;
    var i := 0;
    while i < |steps|
      invariant 0 <= i <= |steps|
      invariant sum + PlanLength(steps[i..], last) == PlanLength(steps, StartTemp)
    {
      var step := steps[i];
      if step.isEndStep {
        break;
      }
      assert steps[i..][1..] == steps[i + 1..];
      var ramp := RampTime(last, step);
      sum := sum + ramp + step.holdTime;
      last := step.targetTemp;
      i := i + 1;
    }
    total := Floor(sum);
  }

  // ---------------------------------------------------------------------
  // Planned curve (calculatePlannedCurve)
  // ---------------------------------------------------------------------

  /** The ramp minutes of step `s` starting at minute `t0` from temperature
      `from`: one point per loop iteration, the k-th at `from` plus k times
      the per-minute increment `diff / rampTime`. */
  function RampPoints(t0: int, from: real, s: MashStep): (ps: seq<CurvePoint>)
    ensures |ps| == LoopCount(RampTime(from, s))
  {
    var rt := RampTime(from, s);
    var n := LoopCount(rt);
    seq(n, k requires 0 <= k < n => CurvePoint(t0 + k + 1, from + (k + 1) as real * ((s.targetTemp - from) / rt), None))
  }

  /** The hold minutes of step `s` after minute `t0`, all at the target. */
  function HoldPoints(t0: int, s: MashStep): (ps: seq<CurvePoint>)
    ensures |ps| == LoopCount(s.holdTime)
    ensures forall k :: 0 <= k < |ps| ==> ps[k] == CurvePoint(t0 + k + 1, s.targetTemp, None)
  {
    seq(LoopCount(s.holdTime), k => CurvePoint(t0 + k + 1, s.targetTemp, None))
  }

  /** Minutes the curve spends on the non-end steps, end steps skipped but
      the steps after them counted. */
  function CurveSlots(steps: seq<MashStep>, temp: real): nat
    decreases |steps|
  {
    if |steps| == 0 then 0
    else if steps[0].isEndStep then CurveSlots(steps[1..], temp)
    else LoopCount(RampTime(temp, steps[0])) + LoopCount(steps[0].holdTime) + CurveSlots(steps[1..], steps[0].targetTemp)
  }

  /** The points after minute `t0`: each non-end step contributes its ramp
      and hold minutes; after a step the running temperature is its target,
      whatever the last ramp minute reached. */
  function CurveAfter(steps: seq<MashStep>, t0: int, temp: real): (c: seq<CurvePoint>)
    ensures |c| == CurveSlots(steps, temp)
    decreases |steps|
  {
    if |steps| == 0 then []
    else if steps[0].isEndStep then CurveAfter(steps[1..], t0, temp)
    else
      var s := steps[0];
      var ramp := RampPoints(t0, temp, s);
      var hold := HoldPoints(t0 + |ramp|, s);
      ramp + hold + CurveAfter(steps[1..], t0 + |ramp| + |hold|, s.targetTemp)
  }

  /** The points after minute `t0` come at consecutive minutes, none of them
      measured. */
  lemma {:induction false} CurveAfterTimes(steps: seq<MashStep>, t0: int, temp: real)
    ensures forall k :: 0 <= k < |CurveAfter(steps, t0, temp)| ==>
      CurveAfter(steps, t0, temp)[k].time == t0 + k + 1 && CurveAfter(steps, t0, temp)[k].actualTemp.None?
    decreases |steps|
  {
    if |steps| > 0 {
      if steps[0].isEndStep {
        CurveAfterTimes(steps[1..], t0, temp);
      } else {
        var s := steps[0];
        var ramp := RampPoints(t0, temp, s);
        var hold := HoldPoints(t0 + |ramp|, s);
        var tail := CurveAfter(steps[1..], t0 + |ramp| + |hold|, s.targetTemp);
        CurveAfterTimes(steps[1..], t0 + |ramp| + |hold|, s.targetTemp);
        var c := CurveAfter(steps, t0, temp);
        assert c == ramp + hold + tail;
        forall k | 0 <= k < |c|
          ensures c[k].time == t0 + k + 1 && c[k].actualTemp.None?
        {
          if k < |ramp| {
            assert c[k] == ramp[k];
          } else if k < |ramp| + |hold| {
            assert c[k] == hold[k - |ramp|];
          } else {
            var j := k - |ramp| - |hold|;
            assert c[k] == tail[j];
            assert tail[j].time == t0 + |ramp| + |hold| + j + 1;
          }
        }
      }
    }
  }

  /** The planned curve: minute 0 at 20 °C followed by the steps' minutes. */
  function PlannedCurve(steps: seq<MashStep>): (c: seq<CurvePoint>)
    ensures |c| == 1 + CurveSlots(steps, StartTemp)
    ensures c[0] == CurvePoint(0, StartTemp, None)
    ensures forall k :: 0 <= k < |c| ==> c[k].time == k && c[k].actualTemp.None?
  {
    var rest := CurveAfter(steps, 0, StartTemp);
    var c := [CurvePoint(0, StartTemp, None)] + rest;
    CurveAfterTimes(steps, 0, StartTemp);
    assert forall k :: 0 < k < |c| ==> c[k] == rest[k - 1];
    c
  }

  /** `calculatePlannedCurve`, loop for loop: the ramp loop adds
      `diff / rampTime` to a running temperature each minute, the hold loop
      repeats the target, and the running temperature is reset to the
      target after each non-end step. */
  method CalculatePlannedCurve(steps: seq<MashStep>) returns (data: seq<CurvePoint>)
    ensures data == PlannedCurve(steps)
  {
    data := [CurvePoint(0, StartTemp, None)];
    var time := 0;
    var temp := StartTemp;
    var i := 0;
    assert steps[0..] == steps;
    while i < |steps|
      invariant 0 <= i <= |steps|
      invariant data + CurveAfter(steps[i..], time, temp) == PlannedCurve(steps)
    {
      var step := steps[i];
      if !step.isEndStep {
        var out, outTime := AppendStep(data, time, temp, step);
        CurveAfterStep(data, steps, i, time, temp, out);
        data, time, temp := out, outTime, step.targetTemp;
      } else {
        CurveAfterSkipsEnd(steps, i, time, temp);
      }
      i := i + 1;
    }
    assert steps[i..] == [];
    assert data + [] == data;
  }

  /** The minutes one non-end step adds to the curve. */
  function CurveSlotsOf(temp: real, step: MashStep): nat {
    |RampPoints(0, temp, step)| + |HoldPoints(0, step)|
  }

  /** The ramp and hold points of one non-end step starting at minute `t0`. */
  function StepPoints(t0: int, temp: real, step: MashStep): (ps: seq<CurvePoint>)
    ensures |ps| == CurveSlotsOf(temp, step)
  {
    var ramp := RampPoints(t0, temp, step);
    ramp + HoldPoints(t0 + |ramp|, step)
  }

  /** A non-end step opens the curve with its ramp and hold minutes. */
  lemma CurveAfterUnfold(steps: seq<MashStep>, t0: int, temp: real)
    requires |steps| > 0 && !steps[0].isEndStep
    ensures CurveAfter(steps, t0, temp)
      == StepPoints(t0, temp, steps[0]) + CurveAfter(steps[1..], t0 + CurveSlotsOf(temp, steps[0]), steps[0].targetTemp)
  {
  }

  /** Appending step `i`'s minutes moves the rest of the curve on by one
      step. */
  lemma CurveAfterStep(data: seq<CurvePoint>, steps: seq<MashStep>, i: nat, time: int, temp: real, out: seq<CurvePoint>)
    requires i < |steps| && !steps[i].isEndStep
    requires out == data + StepPoints(time, temp, steps[i])
    ensures out + CurveAfter(steps[i + 1..], time + CurveSlotsOf(temp, steps[i]), steps[i].targetTemp)
      == data + CurveAfter(steps[i..], time, temp)
  {
    assert steps[i..][1..] == steps[i + 1..];
    CurveAfterUnfold(steps[i..], time, temp);
    var rest := CurveAfter(steps[i + 1..], time + CurveSlotsOf(temp, steps[i]), steps[i].targetTemp);
    ConcatAssociative(data, StepPoints(time, temp, steps[i]), rest);
  }

  lemma ConcatAssociative(a: seq<CurvePoint>, b: seq<CurvePoint>, c: seq<CurvePoint>)
    ensures (a + b) + c == a + (b + c)
  {
  }

  /** An end step adds no minutes to the curve. */
  lemma CurveAfterSkipsEnd(steps: seq<MashStep>, i: nat, time: int, temp: real)
    requires i < |steps| && steps[i].isEndStep
    ensures CurveAfter(steps[i + 1..], time, temp) == CurveAfter(steps[i..], time, temp)
  {
    assert steps[i..][1..] == steps[i + 1..];
  }

  /** Both loops of `calculatePlannedCurve` for one non-end step. */
  method AppendStep(data: seq<CurvePoint>, time: int, temp: real, step: MashStep) returns (out: seq<CurvePoint>, outTime: int)
    ensures out == data + StepPoints(time, temp, step)
    ensures outTime == time + CurveSlotsOf(temp, step)
  {
    var afterRamp, rampEnd := AppendRamp(data, time, temp, step);
    out, outTime := AppendHold(afterRamp, rampEnd, step);
  }

  /** The ramp loop of `calculatePlannedCurve` for one step. */
  method AppendRamp(data: seq<CurvePoint>, time: int, temp: real, step: MashStep) returns (out: seq<CurvePoint>, outTime: int)
    ensures out == data + RampPoints(time, temp, step)
    ensures outTime == time + |RampPoints(time, temp, step)|
  {
    var diff := step.targetTemp - temp;
    var rampTime := RampTime(temp, step);
    ghost var ramp := RampPoints(time, temp, step);
    out, outTime := data, time;
    var current := temp;
    var i := 0;
    while (i as real) < rampTime
      invariant 0 <= i <= |ramp|
      invariant outTime == time + i
      invariant rampTime > 0.0 ==> current == temp + i as real * (diff / rampTime)
      invariant out == data + ramp[..i]
      decreases |ramp| - i
    {
      assert ramp[i] == CurvePoint(time + i + 1, temp + (i + 1) as real * (diff / rampTime), None);
      assert (i + 1) as real * (diff / rampTime) == i as real * (diff / rampTime) + diff / rampTime;
      assert ramp[..i + 1] == ramp[..i] + [ramp[i]];
      outTime := outTime + 1;
      current := current + diff / rampTime;
      assert CurvePoint(outTime, current, None) == ramp[i];
      out := out + [CurvePoint(outTime, current, None)];
      i := i + 1;
    }
  }

  /** The hold loop of `calculatePlannedCurve` for one step. */
  method AppendHold(data: seq<CurvePoint>, time: int, step: MashStep) returns (out: seq<CurvePoint>, outTime: int)
    ensures out == data + HoldPoints(time, step)
    ensures outTime == time + |HoldPoints(time, step)|
  {
    ghost var hold := HoldPoints(time, step);
    out, outTime := data, time;
    var j := 0;
    while (j as real) < step.holdTime
      invariant 0 <= j <= |hold|
      invariant outTime == time + j
      invariant out == data + hold[..j]
      decreases |hold| - j
    {
      outTime := outTime + 1;
      out := out + [CurvePoint(outTime, step.targetTemp, None)];
      j := j + 1;
    }
  }

  // ---------------------------------------------------------------------
  // Planned temperature at a minute (getPlannedTempAtTime)
  // ---------------------------------------------------------------------

  /** The lowest of `temp` and the targets before the first end step. */
  function LowestTarget(steps: seq<MashStep>, temp: real): real
    decreases |steps|
  {
    if |steps| == 0 || steps[0].isEndStep then temp
    else Min(temp, LowestTarget(steps[1..], steps[0].targetTemp))
  }

  /** The highest of `temp` and the targets before the first end step. */
  function HighestTarget(steps: seq<MashStep>, temp: real): real
    decreases |steps|
  {
    if |steps| == 0 || steps[0].isEndStep then temp
    else Max(temp, HighestTarget(steps[1..], steps[0].targetTemp))
  }

  /** The target of the last step before the first end step, or `temp`
      when there is none. */
  function FinalTarget(steps: seq<MashStep>, temp: real): real
    decreases |steps|
  {
    if |steps| == 0 || steps[0].isEndStep then temp
    else FinalTarget(steps[1..], steps[0].targetTemp)
  }

  /** The planned temperature at minute `t`, the remaining steps starting at
      minute `acc` from temperature `temp`: linear during a ramp, the target
      during a hold, the last target once the steps before the first end
      step are over. The ramp branch divides by the ramp time only when
      `acc <= t < acc + rampTime`, so the ramp time is positive there. */
  function PlannedTempFrom(steps: seq<MashStep>, t: real, acc: real, temp: real): (r: real)
    requires acc <= t
    ensures LowestTarget(steps, temp) <= r <= HighestTarget(steps, temp)
    decreases |steps|
  {
    if |steps| == 0 || steps[0].isEndStep then temp
    else
      var s := steps[0];
      var diff := s.targetTemp - temp;
      var rampTime := RampTime(temp, s);
      if t < acc + rampTime then
        var fraction := (t - acc) / rampTime;
        Between(temp, s.targetTemp, fraction);
        temp + fraction * diff
      else if t < acc + rampTime + s.holdTime then s.targetTemp
      else PlannedTempFrom(steps[1..], t, acc + rampTime + s.holdTime, s.targetTemp)
  }

  /** `getPlannedTempAtTime(recipe, t)` for an elapsed minute `t`. */
  function PlannedTemp(steps: seq<MashStep>, t: int): (r: real)
    requires t >= 0
    ensures LowestTarget(steps, StartTemp) <= r <= HighestTarget(steps, StartTemp)
  {
    PlannedTempFrom(steps, t as real, 0.0, StartTemp)
  }

  // ---------------------------------------------------------------------
  // Active step (getCurrentStepIndex)
  // ---------------------------------------------------------------------

  /** The step active at minute `t`, scanning from step `i` which starts at
      minute `acc` with the ramp beginning at `last`: the first end step
      reached, or the first step whose ramp and hold cover `t`; past the
      last step, the first end step of the recipe (`-1` if none). */
  function StepIndexFrom(steps: seq<MashStep>, t: real, i: nat, acc: real, last: real): (r: int)
    requires i <= |steps|
    ensures -1 <= r < |steps|
    ensures r == -1 ==> !HasEnd(steps)
    decreases |steps| - i
  {
    if i == |steps| then FindEnd(steps)
    else if steps[i].isEndStep then i
    else
      var dur := RampTime(last, steps[i]) + steps[i].holdTime;
      if t < acc + dur then i
      else StepIndexFrom(steps, t, i + 1, acc + dur, steps[i].targetTemp)
  }

  /** `getCurrentStepIndex(recipe, t)`. */
  function StepIndex(steps: seq<MashStep>, t: int): (r: int)
    ensures -1 <= r < |steps|
    ensures r == -1 ==> !HasEnd(steps)
  {
    StepIndexFrom(steps, t as real, 0, 0.0, StartTemp)
  }
}
