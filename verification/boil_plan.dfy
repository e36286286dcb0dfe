/** The boil plan: a recipe is a list of timed steps, each boiling at a
    temperature derived from its evaporation rate and optionally asking for
    a hop addition. The plan is drawn as one chart point per minute, and a
    locator finds the step a minute belongs to. */
module BoilPlan {
  import opened Wrappers

  /** One boil step. A missing duration is represented by 0. */
  datatype BoilStep = BoilStep(duration: nat, evaporation: real, addHop: bool)

  /** One chart point: the minute, the measured temperature once simulated,
      and whether a hop-addition marker sits on the axis at this minute. */
  datatype BoilPoint = BoilPoint(time: int, actualTemp: Option<real>, hopEvent: bool)

  /** The sum of the step durations. */
  function TotalTime(steps: seq<BoilStep>): nat {
    if |steps| == 0 then 0 else steps[0].duration + TotalTime(steps[1..])
  }

  /** No step outlasts the boil, and the boil takes no time exactly when
      every step has a zero duration. */
  lemma {:induction false} TotalTimeBounds(steps: seq<BoilStep>)
    ensures forall i :: 0 <= i < |steps| ==> steps[i].duration <= TotalTime(steps)
    ensures TotalTime(steps) == 0 <==> forall i :: 0 <= i < |steps| ==> steps[i].duration == 0
  {
    if |steps| > 0 {
      TotalTimeBounds(steps[1..]);
      assert forall i :: 1 <= i < |steps| ==> steps[i] == steps[1..][i - 1];
    }
  }

  /** The minute at which step `i` begins: the durations before it. */
  function StartOf(steps: seq<BoilStep>, i: nat): nat
    requires i <= |steps|
  {
    TotalTime(steps[..i])
  }

  lemma {:induction false} TotalTimeAppend(a: seq<BoilStep>, b: seq<BoilStep>)
    ensures TotalTime(a + b) == TotalTime(a) + TotalTime(b)
  {
    if |a| > 0 {
      assert (a + b)[1..] == a[1..] + b;
      TotalTimeAppend(a[1..], b);
    } else {
      assert a + b == b;
    }
  }

  /** The boil splits into the minutes before step `i`, its own and those
      after it. */
  lemma TotalTimeSplit(steps: seq<BoilStep>, i: nat)
    requires i < |steps|
    ensures TotalTime(steps) == TotalTime(steps[..i]) + steps[i].duration + TotalTime(steps[i + 1..])
  {
    var front, back := steps[..i], steps[i..];
    assert steps == front + back;
    TotalTimeAppend(front, back);
    assert back[0] == steps[i] && back[1..] == steps[i + 1..];
  }

  lemma StartOfNext(steps: seq<BoilStep>, i: nat)
    requires i < |steps|
    ensures StartOf(steps, i + 1) == StartOf(steps, i) + steps[i].duration
  {
    assert steps[..i + 1] == steps[..i] + [steps[i]];
    TotalTimeAppend(steps[..i], [steps[i]]);
  }

  lemma StartOfAll(steps: seq<BoilStep>)
    ensures StartOf(steps, |steps|) == TotalTime(steps)
  {
    assert steps[..|steps|] == steps;
  }

  /** Steps start in order, each after the one before it has ended. */
  lemma {:induction false} StartOfOrdered(steps: seq<BoilStep>, i: nat, j: nat)
    requires i < j <= |steps|
    ensures StartOf(steps, i) + steps[i].duration <= StartOf(steps, j)
    decreases j - i
  {
    StartOfNext(steps, i);
    if i + 1 < j {
      StartOfOrdered(steps, i + 1, j);
    }
  }

  lemma StartOfWithinTotal(steps: seq<BoilStep>, i: nat)
    requires i < |steps|
    ensures StartOf(steps, i) + steps[i].duration <= TotalTime(steps)
  {
    StartOfOrdered(steps, i, |steps|);
    StartOfAll(steps);
  }

  // ----- temperatures ------------------------------------------------------

  /** The evaporation rate assumed when a step has none (or 0). */
  const DefaultEvaporation: real := 4.0

  function EffectiveEvaporation(e: real): (r: real)
    ensures r != 0.0
    ensures e != 0.0 ==> r == e
  {
    if e == 0.0 then DefaultEvaporation else e
  }

  /** The boiling temperature aimed at for an evaporation rate: linear,
      4 % giving 65 °C and 10 % giving 95 °C. */
  function FinalTemp(evaporation: real): (temp: real)
    ensures evaporation == 4.0 ==> temp == 65.0
    ensures evaporation == 10.0 ==> temp == 95.0
    ensures 4.0 <= evaporation <= 10.0 ==> 65.0 <= temp <= 95.0
  {
    65.0 + (evaporation - 4.0) * 5.0
  }

  /** The evaporation rate that aims at a given temperature. */
  function EvaporationFor(temp: real): real {
    4.0 + (temp - 65.0) / 5.0
  }

  lemma FinalTempStrictlyIncreasing(a: real, b: real)
    ensures a < b <==> FinalTemp(a) < FinalTemp(b)
  {
  }

  lemma FinalTempRoundTrip(e: real, temp: real)
    ensures EvaporationFor(FinalTemp(e)) == e
    ensures FinalTemp(EvaporationFor(temp)) == temp
  {
  }

  /** The temperature step `s` boils at. */
  function StepTarget(s: BoilStep): real {
    FinalTemp(EffectiveEvaporation(s.evaporation))
  }

  // ----- the step locator --------------------------------------------------

  /** The located step and the minute it began; index -1 when no step
      contains the minute. */
  datatype Location = Location(index: int, stepStart: int)

  /** Scan the steps from `i`, `acc` being the minutes before step `i`, for
      the first one whose last minute is not before `t`. */
  function LocateFrom(steps: seq<BoilStep>, t: int, i: nat, acc: int): (loc: Location)
    requires i <= |steps|
    ensures -1 <= loc.index < |steps|
    ensures i < |steps| || acc <= t ==> (loc.index == -1 <==> t >= acc + TotalTime(steps[i..]))
    ensures loc.index != -1 ==> i <= loc.index && t < loc.stepStart + steps[loc.index].duration
    decreases |steps| - i
  {
    if i == |steps| then Location(-1, acc)
    else
      assert steps[i..][1..] == steps[i + 1..];
      if t <= acc + steps[i].duration - 1 then Location(i, acc)
      else LocateFrom(steps, t, i + 1, acc + steps[i].duration)
  }

  /** The step covering minute `t` and the minute it began; -1 exactly from
      the total duration on. */
  function Locate(steps: seq<BoilStep>, t: int): (loc: Location)
    ensures -1 <= loc.index < |steps|
    ensures t >= 0 ==> (loc.index == -1 <==> t >= TotalTime(steps))
    ensures loc.index != -1 ==> t < loc.stepStart + steps[loc.index].duration
  {
    assert steps[0..] == steps;
    LocateFrom(steps, t, 0, 0)
  }

  /** Step `i` covers minute `t`. */
  predicate Covers(steps: seq<BoilStep>, i: nat, t: int)
    requires i < |steps|
  {
    StartOf(steps, i) <= t < StartOf(steps, i) + steps[i].duration
  }

  lemma {:induction false} LocateFromSpec(steps: seq<BoilStep>, t: int, i: nat)
    requires i <= |steps| && StartOf(steps, i) <= t
    ensures var loc := LocateFrom(steps, t, i, StartOf(steps, i));
      && (loc.index == -1 <==> t >= TotalTime(steps))
      && (loc.index != -1 ==> i <= loc.index < |steps| && loc.stepStart == StartOf(steps, loc.index) && Covers(steps, loc.index, t))
    decreases |steps| - i
  {
    if i == |steps| {
      StartOfAll(steps);
    } else {
      StartOfNext(steps, i);
      StartOfWithinTotal(steps, i);
      if t > StartOf(steps, i) + steps[i].duration - 1 {
        LocateFromSpec(steps, t, i + 1);
      }
    }
  }

  /** No minute is covered by two steps. */
  lemma CoverUnique(steps: seq<BoilStep>, i: nat, j: nat, t: int)
    requires i < |steps| && j < |steps| && Covers(steps, i, t) && Covers(steps, j, t)
    ensures i == j
  {
    if i < j {
      StartOfOrdered(steps, i, j);
    } else if j < i {
      StartOfOrdered(steps, j, i);
    }
  }

  /** The locator finds the one step covering the minute, with the minute
      that step began, and reports -1 exactly from the total duration on;
      a zero-duration step covers no minute and is never chosen. */
  lemma LocateSpec(steps: seq<BoilStep>, t: int)
    requires t >= 0
    ensures var loc := Locate(steps, t);
      && -1 <= loc.index < |steps|
      && (loc.index == -1 <==> t >= TotalTime(steps))
      && (loc.index >= 0 ==> loc.stepStart == StartOf(steps, loc.index) && Covers(steps, loc.index, t) && steps[loc.index].duration > 0)
      && (forall j :: 0 <= j < |steps| && Covers(steps, j, t) ==> j == loc.index)
  {
    assert StartOf(steps, 0) == 0 by { assert steps[..0] == []; }
    LocateFromSpec(steps, t, 0);
    var loc := Locate(steps, t);
    forall j | 0 <= j < |steps| && Covers(steps, j, t)
      ensures j == loc.index
    {
      StartOfWithinTotal(steps, j);
      CoverUnique(steps, j, loc.index, t);
    }
  }

  /** The locator loop of the boil tick, with its early exit. */
  method LocateStep(steps: seq<BoilStep>, newT: int) returns (stepIndex: int, acc: int)
    ensures Location(stepIndex, acc) == Locate(steps, newT)
  {
    acc := 0;
    stepIndex := -1;
    var i := 0;
    while i < |steps|
      invariant 0 <= i <= |steps|
      invariant LocateFrom(steps, newT, i, acc) == Locate(steps, newT)
      invariant stepIndex == -1
      decreases |steps| - i
    {
      var d := steps[i].duration;
      if newT <= acc + d - 1 {
        stepIndex := i;
        break;
      }
      acc := acc + d;
      i := i + 1;
    }
  }

  // ----- the chart skeleton ------------------------------------------------

  /** The chart points of step `i`: one per minute of its duration, the
      hop marker on its first minute when it adds hops. */
  function StepPoints(steps: seq<BoilStep>, i: nat): (ps: seq<BoilPoint>)
    requires i < |steps|
    ensures |ps| == steps[i].duration
  {
    seq(steps[i].duration, m => BoilPoint(StartOf(steps, i) + m, None, steps[i].addHop && m == 0))
  }

  function SkeletonFrom(steps: seq<BoilStep>, i: nat): (g: seq<BoilPoint>)
    requires i <= |steps|
    ensures StartOf(steps, i) + |g| == TotalTime(steps)
    decreases |steps| - i
  {
    if i == |steps| then
      StartOfAll(steps);
      []
    else
      StartOfNext(steps, i);
      StepPoints(steps, i) + SkeletonFrom(steps, i + 1)
  }

  /** The chart drawn when a recipe is loaded: no measurements yet. */
  function Skeleton(steps: seq<BoilStep>): (g: seq<BoilPoint>)
    ensures |g| == TotalTime(steps)
    ensures forall k :: 0 <= k < |g| ==> g[k].time == k && g[k].actualTemp == None
  {
    assert StartOf(steps, 0) == 0 by { assert steps[..0] == []; }
    forall k | 0 <= k < |SkeletonFrom(steps, 0)| {
      SkeletonFromPoint(steps, 0, k);
    }
    SkeletonFrom(steps, 0)
  }

  /** A hop step begins at minute `t`. */
  predicate HopStartsAt(steps: seq<BoilStep>, t: int) {
    var loc := Locate(steps, t);
    0 <= loc.index < |steps| && steps[loc.index].addHop && loc.stepStart == t
  }

  lemma {:induction false} SkeletonFromPoint(steps: seq<BoilStep>, i: nat, k: nat)
    requires i <= |steps| && k < |SkeletonFrom(steps, i)|
    ensures SkeletonFrom(steps, i)[k] == BoilPoint(StartOf(steps, i) + k, None, HopStartsAt(steps, StartOf(steps, i) + k))
    decreases |steps| - i
  {
    StartOfNext(steps, i);
    var t := StartOf(steps, i) + k;
    if k < steps[i].duration {
      assert Covers(steps, i, t);
      LocateSpec(steps, t);
    } else {
      SkeletonFromPoint(steps, i + 1, k - steps[i].duration);
    }
  }

  /** A planned minute is a hop minute exactly when a hop step of at least
      a minute begins there. */
  lemma HopStartsAtSpec(steps: seq<BoilStep>, k: nat)
    requires k < TotalTime(steps)
    ensures HopStartsAt(steps, k) <==>
      exists j :: 0 <= j < |steps| && steps[j].addHop && steps[j].duration > 0 && StartOf(steps, j) == k
  {
    LocateSpec(steps, k);
    var loc := Locate(steps, k);
    if HopStartsAt(steps, k) {
      assert steps[loc.index].duration > 0;
    }
    forall j | 0 <= j < |steps| && steps[j].addHop && steps[j].duration > 0 && StartOf(steps, j) == k
      ensures HopStartsAt(steps, k)
    {
      assert Covers(steps, j, k);
    }
  }

  /** Point `k` of the skeleton is minute `k`, unmeasured, and marks a hop
      exactly when a hop step of at least a minute begins there. */
  lemma SkeletonPoint(steps: seq<BoilStep>, k: nat)
    requires k < |Skeleton(steps)|
    ensures Skeleton(steps)[k].time == k && Skeleton(steps)[k].actualTemp == None
    ensures Skeleton(steps)[k].hopEvent <==>
      exists j :: 0 <= j < |steps| && steps[j].addHop && steps[j].duration > 0 && StartOf(steps, j) == k
  {
    assert StartOf(steps, 0) == 0 by { assert steps[..0] == []; }
    SkeletonFromPoint(steps, 0, k);
    HopStartsAtSpec(steps, k);
  }

  /** The skeleton has one point per planned minute, point k at minute k,
      none measured, and the hop marker exactly at the first minute of each
      hop step that lasts at least a minute. */
  lemma SkeletonSpec(steps: seq<BoilStep>)
    ensures |Skeleton(steps)| == TotalTime(steps)
    ensures forall k :: 0 <= k < |Skeleton(steps)| ==>
      && Skeleton(steps)[k].time == k && Skeleton(steps)[k].actualTemp == None
      && (Skeleton(steps)[k].hopEvent <==>
            exists j :: 0 <= j < |steps| && steps[j].addHop && steps[j].duration > 0 && StartOf(steps, j) == k)
  {
    assert StartOf(steps, 0) == 0 by { assert steps[..0] == []; }
    forall k | 0 <= k < |Skeleton(steps)|
      ensures Skeleton(steps)[k].time == k && Skeleton(steps)[k].actualTemp == None
      ensures Skeleton(steps)[k].hopEvent <==>
            exists j :: 0 <= j < |steps| && steps[j].addHop && steps[j].duration > 0 && StartOf(steps, j) == k
    {
      SkeletonPoint(steps, k);
    }
  }
}
