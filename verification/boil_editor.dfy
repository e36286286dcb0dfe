/** The boil recipe editor: a draft recipe whose steps are appended,
    removed and edited freely; saving needs a name and at least one step. */
module BoilEditor {
  import opened Wrappers
  import opened BoilPlan
  import opened Recipes
  import Lists

  /** The step "add step" appends: 10 minutes at 4 % evaporation, no hops. */
  const NewStep: BoilStep := BoilStep(10, 4.0, false)

  /** The draft on opening the editor: a copy of the recipe being edited,
      or an unnamed recipe without steps. */
  function Load(editRecipe: Option<Recipe<BoilStep>>): (draft: Recipe<BoilStep>)
    ensures editRecipe.Some? ==> draft == editRecipe.value
    ensures editRecipe.None? ==> draft.name == "" && |draft.steps| == 0
  {
    match editRecipe
    case None => Recipe("", [])
    case Some(rec) => Recipe(rec.name, rec.steps)
  }

  /** "Add step" appends the default step. */
  function AddStep(steps: seq<BoilStep>): (r: seq<BoilStep>)
    ensures |r| == |steps| + 1 && r[..|steps|] == steps && r[|steps|] == NewStep
  {
    steps + [NewStep]
  }

  /** "Remove step" takes out the step at `index`, the rest keeping their
      order; an index outside the list removes nothing. */
  function RemoveStep(steps: seq<BoilStep>, index: int): (r: seq<BoilStep>)
    ensures 0 <= index < |steps| ==> |r| == |steps| - 1 && r == steps[..index] + steps[index + 1..]
    ensures !(0 <= index < |steps|) ==> r == steps
  {
    Lists.WithoutIndex(steps, index)
  }

  /** An edit of one field of a step, with its new value. */
  datatype FieldEdit = SetDuration(minutes: nat) | SetEvaporation(rate: real) | SetAddHop(hop: bool)

  /** The edited field of `s` holds the edit's value. */
  predicate HasValue(s: BoilStep, e: FieldEdit) {
    match e
    case SetDuration(v) => s.duration == v
    case SetEvaporation(v) => s.evaporation == v
    case SetAddHop(v) => s.addHop == v
  }

  /** `a` and `b` agree on every field the edit does not name. */
  predicate SameOutside(a: BoilStep, b: BoilStep, e: FieldEdit) {
    && (e.SetDuration? || a.duration == b.duration)
    && (e.SetEvaporation? || a.evaporation == b.evaporation)
    && (e.SetAddHop? || a.addHop == b.addHop)
  }

  function ApplyEdit(s: BoilStep, e: FieldEdit): BoilStep {
    match e
    case SetDuration(v) => s.(duration := v)
    case SetEvaporation(v) => s.(evaporation := v)
    case SetAddHop(v) => s.(addHop := v)
  }

  /** The edit that puts the field `e` names back to its value in `s`. */
  function Restore(s: BoilStep, e: FieldEdit): (back: FieldEdit)
    ensures HasValue(s, back)
  {
    match e
    case SetDuration(_) => SetDuration(s.duration)
    case SetEvaporation(_) => SetEvaporation(s.evaporation)
    case SetAddHop(_) => SetAddHop(s.addHop)
  }

  /** Change one field of one step; everything else stays. */
  function UpdateStep(steps: seq<BoilStep>, index: nat, e: FieldEdit): (r: seq<BoilStep>)
    requires index < |steps|
    ensures |r| == |steps|
    ensures forall j :: 0 <= j < |steps| && j != index ==> r[j] == steps[j]
    ensures HasValue(r[index], e) && SameOutside(steps[index], r[index], e)
  {
    steps[index := ApplyEdit(steps[index], e)]
  }

  /** Why "save" refused the draft. */
  datatype SaveError = MissingName | NoSteps

  /** "Save" refuses a draft without a name, then one without steps;
      otherwise it hands the draft and the position it was opened from to
      the recipe list. */
  function HandleSave(draft: Recipe<BoilStep>, editIndex: Option<nat>): (out: Result<SaveRequest<BoilStep>, SaveError>)
    ensures out == Err(MissingName) <==> draft.name == ""
    ensures out == Err(NoSteps) <==> draft.name != "" && |draft.steps| == 0
    ensures out.Ok? ==> out.value.recipe == draft && out.value.editIndex == editIndex
  {
    if draft.name == "" then Err(MissingName)
    else if |draft.steps| == 0 then Err(NoSteps)
    else Ok(SaveRequest(draft, editIndex))
  }

  // ----- properties --------------------------------------------------------

  /** Removing the step just added restores the list. */
  lemma RemoveUndoesAdd(steps: seq<BoilStep>)
    ensures RemoveStep(AddStep(steps), |steps|) == steps
  {
    assert AddStep(steps)[..|steps|] == steps;
  }

  /** Adding a step adds its ten minutes to the boil. */
  lemma AddStepTotalTime(steps: seq<BoilStep>)
    ensures TotalTime(AddStep(steps)) == TotalTime(steps) + NewStep.duration
  {
    TotalTimeAppend(steps, [NewStep]);
  }

  /** Removing a step takes its minutes off the boil. */
  lemma RemoveStepTotalTime(steps: seq<BoilStep>, index: nat)
    requires index < |steps|
    ensures TotalTime(RemoveStep(steps, index)) == TotalTime(steps) - steps[index].duration
  {
    TotalTimeSplit(steps, index);
    TotalTimeAppend(steps[..index], steps[index + 1..]);
  }

  /** Putting the old value back undoes an edit. */
  lemma RestoreUndoesEdit(steps: seq<BoilStep>, index: nat, e: FieldEdit)
    requires index < |steps|
    ensures UpdateStep(UpdateStep(steps, index, e), index, Restore(steps[index], e)) == steps
  {
  }

  /** Opening a recipe that passes the checks and saving it at once hands
      back the same recipe and position. */
  lemma SaveAfterLoad(rec: Recipe<BoilStep>, editIndex: Option<nat>)
    requires rec.name != "" && |rec.steps| > 0
    ensures HandleSave(Load(Some(rec)), editIndex) == Ok(SaveRequest(rec, editIndex))
  {
  }

  /** A new draft cannot be saved until a step is added. */
  lemma NewDraftNeedsStep(name: string)
    requires name != ""
    ensures HandleSave(Load(None).(name := name), None) == Err(NoSteps)
    ensures HandleSave(Load(None).(name := name, steps := AddStep(Load(None).steps)), None).Ok?
  {
  }
}
