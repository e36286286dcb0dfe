/** The mash recipe editor: a draft recipe whose step list always keeps a
    pump-out end step, new steps going in before it. */
module MashEditor {
  import opened Wrappers
  import opened MashPlan
  import opened Recipes
  import Lists

  /** The pump-out step: no temperature, ramp or hold of its own. */
  const EndStep: MashStep := MashStep(0.0, 0.0, 0.0, false, false, true)

  /** The step "add step" inserts: 50 °C at 1 °C/min, held 10 minutes. */
  const NewStep: MashStep := MashStep(50.0, 1.0, 10.0, false, false, false)

  function CountEnds(steps: seq<MashStep>): nat {
    if |steps| == 0 then 0 else (if steps[0].isEndStep then 1 else 0) + CountEnds(steps[1..])
  }

  lemma {:induction false} CountEndsAppend(a: seq<MashStep>, b: seq<MashStep>)
    ensures CountEnds(a + b) == CountEnds(a) + CountEnds(b)
  {
    if |a| == 0 {
      assert a + b == b;
    } else {
      assert (a + b)[1..] == a[1..] + b;
      CountEndsAppend(a[1..], b);
    }
  }

  lemma {:induction false} CountEndsPositive(steps: seq<MashStep>)
    ensures CountEnds(steps) > 0 <==> HasEnd(steps)
  {
    if |steps| > 0 {
      CountEndsPositive(steps[1..]);
      assert forall j :: 0 < j < |steps| ==> steps[j] == steps[1..][j - 1];
    }
  }

  /** The draft on opening the editor: a new recipe is an unnamed list
      holding only the end step; an existing one is copied, with an end
      step appended when it has none. */
  function Load(editRecipe: Option<Recipe<MashStep>>): (draft: Recipe<MashStep>)
    ensures HasEnd(draft.steps)
    ensures editRecipe.None? ==> draft == Recipe("", [EndStep])
    ensures editRecipe.Some? ==> draft.name == editRecipe.value.name && editRecipe.value.steps <= draft.steps
    ensures editRecipe.Some? ==> |draft.steps| == |editRecipe.value.steps| + (if HasEnd(editRecipe.value.steps) then 0 else 1)
  {
    match editRecipe
    case None =>
      assert [EndStep][0].isEndStep;
      Recipe("", [EndStep])
    case Some(rec) =>
      if HasEnd(rec.steps) then Recipe(rec.name, rec.steps)
      else
        assert (rec.steps + [EndStep])[|rec.steps|].isEndStep;
        Recipe(rec.name, rec.steps + [EndStep])
  }

  /** "Add step": the default step goes in just before the first end step;
      with no end step, an end step is appended instead. */
  function AddStep(steps: seq<MashStep>): (r: seq<MashStep>)
    ensures |r| == |steps| + 1
    ensures HasEnd(steps) ==>
      var e := FindEnd(steps);
      && r[e] == NewStep && r[..e] == steps[..e] && r[e + 1..] == steps[e..]
      && FindEnd(r) == e + 1
    ensures !HasEnd(steps) ==> r == steps + [EndStep]
  {
    var e := FindEnd(steps);
    if e < 0 then steps + [EndStep]
    else
      var r := Lists.InsertAt(steps, e, NewStep);
      assert r[e + 1] == steps[e];
      r
  }

  /** "Remove step": the end step cannot be removed; any other step is
      taken out, the rest keeping their order. */
  function RemoveStep(steps: seq<MashStep>, index: nat): (r: seq<MashStep>)
    requires index < |steps|
    ensures steps[index].isEndStep ==> r == steps
    ensures !steps[index].isEndStep ==> |r| == |steps| - 1 && r == steps[..index] + steps[index + 1..]
  {
    if steps[index].isEndStep then steps else Lists.WithoutIndex(steps, index)
  }

  /** An edit of one field of a step, with its new value. */
  datatype FieldEdit =
    | SetTargetTemp(temp: real)
    | SetRampRate(rate: real)
    | SetHoldTime(minutes: real)
    | SetManualPause(pause: bool)
    | SetMixing(mix: bool)

  /** The edited field of `s` holds the edit's value. */
  predicate HasValue(s: MashStep, e: FieldEdit) {
    match e
    case SetTargetTemp(v) => s.targetTemp == v
    case SetRampRate(v) => s.rampRate == v
    case SetHoldTime(v) => s.holdTime == v
    case SetManualPause(v) => s.manualPause == v
    case SetMixing(v) => s.mixing == v
  }

  /** `a` and `b` agree on every field the edit does not name. */
  predicate SameOutside(a: MashStep, b: MashStep, e: FieldEdit) {
    && (e.SetTargetTemp? || a.targetTemp == b.targetTemp)
    && (e.SetRampRate? || a.rampRate == b.rampRate)
    && (e.SetHoldTime? || a.holdTime == b.holdTime)
    && (e.SetManualPause? || a.manualPause == b.manualPause)
    && (e.SetMixing? || a.mixing == b.mixing)
    && a.isEndStep == b.isEndStep
  }

  function ApplyEdit(s: MashStep, e: FieldEdit): MashStep {
    match e
    case SetTargetTemp(v) => s.(targetTemp := v)
    case SetRampRate(v) => s.(rampRate := v)
    case SetHoldTime(v) => s.(holdTime := v)
    case SetManualPause(v) => s.(manualPause := v)
    case SetMixing(v) => s.(mixing := v)
  }

  /** The edit that puts the field `e` names back to its value in `s`. */
  function Restore(s: MashStep, e: FieldEdit): (back: FieldEdit)
    ensures HasValue(s, back)
  {
    match e
    case SetTargetTemp(_) => SetTargetTemp(s.targetTemp)
    case SetRampRate(_) => SetRampRate(s.rampRate)
    case SetHoldTime(_) => SetHoldTime(s.holdTime)
    case SetManualPause(_) => SetManualPause(s.manualPause)
    case SetMixing(_) => SetMixing(s.mixing)
  }

  /** Change one field of one step; everything else stays. */
  function UpdateStepField(steps: seq<MashStep>, index: nat, e: FieldEdit): (r: seq<MashStep>)
    requires index < |steps|
    ensures |r| == |steps|
    ensures forall j :: 0 <= j < |steps| && j != index ==> r[j] == steps[j]
    ensures HasValue(r[index], e) && SameOutside(steps[index], r[index], e)
  {
    steps[index := ApplyEdit(steps[index], e)]
  }

  /** "Save" does nothing without a name; otherwise it hands the draft and
      the position it was opened from to the recipe list. */
  function HandleSave(draft: Recipe<MashStep>, editIndex: Option<nat>): (out: Option<SaveRequest<MashStep>>)
    ensures out.None? <==> draft.name == ""
    ensures out.Some? ==> out.value.recipe == draft && out.value.editIndex == editIndex
  {
    if draft.name == "" then None else Some(SaveRequest(draft, editIndex))
  }

  // ----- properties --------------------------------------------------------

  /** The end steps of a list are those before, at and after position `i`. */
  lemma CountEndsSplit(steps: seq<MashStep>, i: nat)
    requires i < |steps|
    ensures CountEnds(steps) == CountEnds(steps[..i]) + (if steps[i].isEndStep then 1 else 0) + CountEnds(steps[i + 1..])
  {
    var front, back := steps[..i], steps[i..];
    assert steps == front + back;
    CountEndsAppend(front, back);
    assert back[0] == steps[i] && back[1..] == steps[i + 1..];
  }

  lemma CountEndsInsert(steps: seq<MashStep>, k: nat, x: MashStep)
    requires k <= |steps|
    ensures CountEnds(Lists.InsertAt(steps, k, x)) == CountEnds(steps) + (if x.isEndStep then 1 else 0)
  {
    var r := Lists.InsertAt(steps, k, x);
    CountEndsSplit(r, k);
    assert r[..k] == steps[..k];
    assert r[k + 1..] == steps[k..];
    assert steps == steps[..k] + steps[k..];
    CountEndsAppend(steps[..k], steps[k..]);
  }

  /** "Add step" never loses an end step and adds one exactly when there
      was none. */
  lemma AddStepEnds(steps: seq<MashStep>)
    ensures CountEnds(AddStep(steps)) == CountEnds(steps) + (if HasEnd(steps) then 0 else 1)
  {
    var e := FindEnd(steps);
    if e < 0 {
      CountEndsAppend(steps, [EndStep]);
      assert [EndStep][1..] == [];
    } else {
      CountEndsInsert(steps, e, NewStep);
    }
  }

  /** "Remove step" never changes the number of end steps. */
  lemma RemoveStepEnds(steps: seq<MashStep>, index: nat)
    requires index < |steps|
    ensures CountEnds(RemoveStep(steps, index)) == CountEnds(steps)
  {
    if !steps[index].isEndStep {
      CountEndsSplit(steps, index);
      CountEndsAppend(steps[..index], steps[index + 1..]);
    }
  }

  /** An end step in last place stays last under both list operations. */
  lemma EndStaysLast(steps: seq<MashStep>, index: nat)
    requires |steps| > 0 && steps[|steps| - 1].isEndStep && index < |steps|
    ensures var added := AddStep(steps); added[|added| - 1].isEndStep
    ensures var removed := RemoveStep(steps, index); |removed| > 0 && removed[|removed| - 1].isEndStep
  {
    var n := |steps|;
    assert HasEnd(steps) by { assert steps[n - 1].isEndStep; }
    var e := FindEnd(steps);
    var added := AddStep(steps);
    assert added[e + 1..] == steps[e..];
    assert added[n] == added[e + 1..][n - 1 - e];
    assert steps[e..][n - 1 - e] == steps[n - 1];
    if !steps[index].isEndStep {
      var removed := RemoveStep(steps, index);
      assert index < n - 1;
      assert removed[|removed| - 1] == steps[index + 1..][n - 2 - index];
    }
  }

  /** Removing the step just added restores the list. */
  lemma RemoveUndoesAdd(steps: seq<MashStep>)
    requires HasEnd(steps)
    ensures FindEnd(steps) < |AddStep(steps)|
    ensures RemoveStep(AddStep(steps), FindEnd(steps)) == steps
  {
    Lists.RemoveInserted(steps, FindEnd(steps), NewStep);
  }

  /** Putting the old value back undoes an edit. */
  lemma RestoreUndoesEdit(steps: seq<MashStep>, index: nat, e: FieldEdit)
    requires index < |steps|
    ensures UpdateStepField(UpdateStepField(steps, index, e), index, Restore(steps[index], e)) == steps
  {
  }

  /** Editing a field moves no end step. */
  lemma EditKeepsEnds(steps: seq<MashStep>, index: nat, e: FieldEdit)
    requires index < |steps|
    ensures FindEnd(UpdateStepField(steps, index, e)) == FindEnd(steps)
  {
    var r := UpdateStepField(steps, index, e);
    assert forall j :: 0 <= j < |steps| ==> r[j].isEndStep == steps[j].isEndStep;
    if HasEnd(steps) {
      assert r[FindEnd(steps)].isEndStep;
    }
  }

  /** Reopening a draft changes nothing. */
  lemma LoadIdempotent(editRecipe: Option<Recipe<MashStep>>)
    ensures Load(Some(Load(editRecipe))) == Load(editRecipe)
  {
  }

  /** Opening a named recipe with an end step and saving it at once hands
      back the same recipe and position. */
  lemma SaveAfterLoad(rec: Recipe<MashStep>, editIndex: Option<nat>)
    requires rec.name != "" && HasEnd(rec.steps)
    ensures HandleSave(Load(Some(rec)), editIndex) == Some(SaveRequest(rec, editIndex))
  {
  }
}
