/** The application shell: which screen is shown, the mash and boil recipe
    lists, the recipe chosen for simulation and the one being edited, and
    the handlers the screens call. */
module BrewingSystem {
  import opened Wrappers
  import opened Recipes
  import opened MashPlan
  import opened BoilPlan
  import MashEditor
  import BoilEditor

  datatype View = Landing | Menu | MashSelect | MashEdit | MashSim | BoilSelect | BoilEdit | BoilSim

  /** One process's share of the state: its recipe list, the recipe chosen
      for simulation, and the recipe being edited with its list position. */
  datatype Section<S> = Section(
    recipes: seq<Recipe<S>>,
    selected: Option<Recipe<S>>,
    editing: Option<Recipe<S>>,
    editIndex: Option<nat>)

  datatype App = App(view: View, mash: Section<MashStep>, boil: Section<BoilStep>)

  /** The application on start, the recipe lists being those the backend
      delivered. */
  function Start(mashRecipes: seq<Recipe<MashStep>>, boilRecipes: seq<Recipe<BoilStep>>): App {
    App(Landing, Section(mashRecipes, None, None, None), Section(boilRecipes, None, None, None))
  }

  // ----- handlers shared by both processes ---------------------------------

  /** The edit position names a recipe of the list, if any. */
  predicate ValidEditIndex<S>(sec: Section<S>) {
    sec.editIndex.Some? ==> sec.editIndex.value < |sec.recipes|
  }

  /** Open the editor on the recipe at position `i`. */
  function EditAt<S>(sec: Section<S>, i: nat): (r: Section<S>)
    requires i < |sec.recipes|
    ensures r.editing == Some(sec.recipes[i]) && r.editIndex == Some(i) && ValidEditIndex(r)
    ensures r.recipes == sec.recipes && r.selected == sec.selected
  {
    sec.(editing := Some(sec.recipes[i]), editIndex := Some(i))
  }

  /** Store the editor's draft at its position (or append it) and choose
      it for simulation. */
  function SaveDraft<S>(sec: Section<S>, draft: Recipe<S>): (r: Section<S>)
    requires ValidEditIndex(sec)
    ensures r.recipes == Save(sec.recipes, SaveRequest(draft, sec.editIndex))
    ensures sec.editIndex.Some? ==> |r.recipes| == |sec.recipes| && r.recipes[sec.editIndex.value] == draft
    ensures sec.editIndex.None? ==> |r.recipes| == |sec.recipes| + 1 && r.recipes[|sec.recipes|] == draft
    ensures r.selected == Some(draft) && ValidEditIndex(r)
  {
    sec.(recipes := Save(sec.recipes, SaveRequest(draft, sec.editIndex)), selected := Some(draft))
  }

  // ----- the handlers of the mash screens ----------------------------------

  function HandleSelectRecipe(app: App, rec: Recipe<MashStep>): (r: App)
    ensures r.view == MashSim && r.mash.selected == Some(rec)
  {
    app.(mash := app.mash.(selected := Some(rec)), view := MashSim)
  }

  function HandleCreateNew(app: App): (r: App)
    ensures r.view == MashEdit && r.mash.editing == None && r.mash.editIndex == None
  {
    app.(mash := app.mash.(editing := None, editIndex := None), view := MashEdit)
  }

  function HandleEditRecipe(app: App, i: nat): (r: App)
    requires i < |app.mash.recipes|
    ensures r.view == MashEdit && r.mash == EditAt(app.mash, i)
  {
    app.(mash := EditAt(app.mash, i), view := MashEdit)
  }

  function HandleDeleteRecipe(app: App, i: int): (r: App)
    ensures r.mash.recipes == Delete(app.mash.recipes, i) && r.view == app.view && r.boil == app.boil
  {
    app.(mash := app.mash.(recipes := Delete(app.mash.recipes, i)))
  }

  function HandleCopyRecipe(app: App, rec: Recipe<MashStep>): (r: App)
    ensures r.mash.recipes == Copy(app.mash.recipes, rec) && r.view == app.view && r.boil == app.boil
  {
    app.(mash := app.mash.(recipes := Copy(app.mash.recipes, rec)))
  }

  function HandleSaveRecipe(app: App, draft: Recipe<MashStep>): (r: App)
    requires ValidEditIndex(app.mash)
    ensures r.view == MashSim && r.mash == SaveDraft(app.mash, draft) && r.boil == app.boil
  {
    app.(mash := SaveDraft(app.mash, draft), view := MashSim)
  }

  function HandleCancelEdit(app: App): (r: App)
    ensures r.view == MashSelect && r.mash.editing == None && r.mash.editIndex == None
    ensures r.mash.recipes == app.mash.recipes
  {
    app.(mash := app.mash.(editing := None, editIndex := None), view := MashSelect)
  }

  function HandleFinishSimulation(app: App): (r: App)
    ensures r.view == MashSelect && r.mash.selected == None
    ensures r.mash.recipes == app.mash.recipes && r.boil == app.boil
  {
    app.(view := MashSelect, mash := app.mash.(selected := None))
  }

  // ----- the handlers of the boil screens ----------------------------------

  function HandleSelectChmelovar(app: App, rec: Recipe<BoilStep>): (r: App)
    ensures r.view == BoilSim && r.boil.selected == Some(rec)
  {
    app.(boil := app.boil.(selected := Some(rec)), view := BoilSim)
  }

  function HandleCreateChmelovar(app: App): (r: App)
    ensures r.view == BoilEdit && r.boil.editing == None && r.boil.editIndex == None
  {
    app.(boil := app.boil.(editing := None, editIndex := None), view := BoilEdit)
  }

  function HandleEditChmelovar(app: App, i: nat): (r: App)
    requires i < |app.boil.recipes|
    ensures r.view == BoilEdit && r.boil == EditAt(app.boil, i)
  {
    app.(boil := EditAt(app.boil, i), view := BoilEdit)
  }

  function HandleDeleteChmelovar(app: App, i: int): (r: App)
    ensures r.boil.recipes == Delete(app.boil.recipes, i) && r.view == app.view && r.mash == app.mash
  {
    app.(boil := app.boil.(recipes := Delete(app.boil.recipes, i)))
  }

  function HandleCopyChmelovar(app: App, rec: Recipe<BoilStep>): (r: App)
    ensures r.boil.recipes == Copy(app.boil.recipes, rec) && r.view == app.view && r.mash == app.mash
  {
    app.(boil := app.boil.(recipes := Copy(app.boil.recipes, rec)))
  }

  function HandleSaveChmelovar(app: App, draft: Recipe<BoilStep>): (r: App)
    requires ValidEditIndex(app.boil)
    ensures r.view == BoilSim && r.boil == SaveDraft(app.boil, draft) && r.mash == app.mash
  {
    app.(boil := SaveDraft(app.boil, draft), view := BoilSim)
  }

  function HandleCancelChmelovar(app: App): (r: App)
    ensures r.view == BoilSelect && r.boil.editing == None && r.boil.editIndex == None
    ensures r.boil.recipes == app.boil.recipes
  {
    app.(boil := app.boil.(editing := None, editIndex := None), view := BoilSelect)
  }

  function HandleFinishChmelovarSim(app: App): (r: App)
    ensures r.view == BoilSelect && r.boil.selected == None
    ensures r.boil.recipes == app.boil.recipes && r.mash == app.mash
  {
    app.(boil := app.boil.(selected := None), view := BoilSelect)
  }

  // ----- rendering ---------------------------------------------------------

  /** The screen the application shows. */
  datatype Screen =
    | LandingScreen
    | MenuScreen
    | MashList(mashRecipes: seq<Recipe<MashStep>>)
    | MashEditorScreen(mashEditing: Option<Recipe<MashStep>>, mashEditIndex: Option<nat>)
    | MashSimulationScreen(mashRecipe: Recipe<MashStep>)
    | BoilList(boilRecipes: seq<Recipe<BoilStep>>)
    | BoilEditorScreen(boilEditing: Option<Recipe<BoilStep>>, boilEditIndex: Option<nat>)
    | BoilSimulationScreen(boilRecipe: Recipe<BoilStep>)
    | UnknownView

  /** A simulation screen is shown only with a recipe chosen for it; a
      simulation view without one falls through to the "unknown view"
      placeholder. */
  function Render(app: App): (s: Screen)
    ensures s.MashSimulationScreen? <==> app.view == MashSim && app.mash.selected.Some?
    ensures s.MashSimulationScreen? ==> s.mashRecipe == app.mash.selected.value
    ensures s.BoilSimulationScreen? <==> app.view == BoilSim && app.boil.selected.Some?
    ensures s.BoilSimulationScreen? ==> s.boilRecipe == app.boil.selected.value
    ensures s.UnknownView? <==> (app.view == MashSim && app.mash.selected.None?) || (app.view == BoilSim && app.boil.selected.None?)
  {
    match app.view
    case Landing => LandingScreen
    case Menu => MenuScreen
    case MashSelect => MashList(app.mash.recipes)
    case MashEdit => MashEditorScreen(app.mash.editing, app.mash.editIndex)
    case MashSim => if app.mash.selected.Some? then MashSimulationScreen(app.mash.selected.value) else UnknownView
    case BoilSelect => BoilList(app.boil.recipes)
    case BoilEdit => BoilEditorScreen(app.boil.editing, app.boil.editIndex)
    case BoilSim => if app.boil.selected.Some? then BoilSimulationScreen(app.boil.selected.value) else UnknownView
  }

  // ----- events ------------------------------------------------------------

  datatype Process = MashProcess | BoilProcess

  /** What the user can do; list positions are those of the list shown. */
  datatype Event =
    | EnterApp
    | OpenProcess(p: Process)
    | BackToMenu(p: Process)
    | SelectAt(p: Process, i: nat)
    | CreateNew(p: Process)
    | EditAtIndex(p: Process, i: nat)
    | DeleteAt(p: Process, i: nat)
    | CopyAt(p: Process, i: nat)
    | SaveMash(mashDraft: Recipe<MashStep>)
    | SaveBoil(boilDraft: Recipe<BoilStep>)
    | CancelEdit(p: Process)
    | FinishSimulation(p: Process)

  function SelectView(p: Process): View {
    if p == MashProcess then MashSelect else BoilSelect
  }

  function EditView(p: Process): View {
    if p == MashProcess then MashEdit else BoilEdit
  }

  function SimView(p: Process): View {
    if p == MashProcess then MashSim else BoilSim
  }

  function ListLength(app: App, p: Process): nat {
    if p == MashProcess then |app.mash.recipes| else |app.boil.recipes|
  }

  /** The screen on which the user can trigger `ev`. */
  predicate OfferedOn(v: View, ev: Event) {
    match ev
    case EnterApp => v == Landing
    case OpenProcess(_) => v == Menu
    case SaveMash(_) => v == MashEdit
    case SaveBoil(_) => v == BoilEdit
    case CancelEdit(p) => v == EditView(p)
    case FinishSimulation(p) => v == SimView(p)
    case _ => v == SelectView(ev.p)
  }

  /** An event happens only on the screen that offers it; anywhere else it
      changes nothing. A recipe list changes only by a delete, a copy or a
      save of its own process, and a simulation screen is only entered with
      a recipe chosen for it. */
  function Handle(app: App, ev: Event): (r: App)
    ensures r.mash.recipes != app.mash.recipes ==>
      ((ev.DeleteAt? || ev.CopyAt?) && ev.p == MashProcess && app.view == MashSelect) || (ev.SaveMash? && app.view == MashEdit)
    ensures r.boil.recipes != app.boil.recipes ==>
      ((ev.DeleteAt? || ev.CopyAt?) && ev.p == BoilProcess && app.view == BoilSelect) || (ev.SaveBoil? && app.view == BoilEdit)
    ensures r.view == MashSim && app.view != MashSim ==> r.mash.selected.Some?
    ensures r.view == BoilSim && app.view != BoilSim ==> r.boil.selected.Some?
    ensures !OfferedOn(app.view, ev) ==> r == app
  {
    match ev
    case EnterApp => if app.view == Landing then app.(view := Menu) else app
    case OpenProcess(p) => if app.view == Menu then app.(view := SelectView(p)) else app
    case BackToMenu(p) => if app.view == SelectView(p) then app.(view := Menu) else app
    case SelectAt(p, i) =>
      if app.view != SelectView(p) || i >= ListLength(app, p) then app
      else if p == MashProcess then HandleSelectRecipe(app, app.mash.recipes[i])
      else HandleSelectChmelovar(app, app.boil.recipes[i])
    case CreateNew(p) =>
      if app.view != SelectView(p) then app
      else if p == MashProcess then HandleCreateNew(app) else HandleCreateChmelovar(app)
    case EditAtIndex(p, i) =>
      if app.view != SelectView(p) || i >= ListLength(app, p) then app
      else if p == MashProcess then HandleEditRecipe(app, i) else HandleEditChmelovar(app, i)
    case DeleteAt(p, i) =>
      if app.view != SelectView(p) then app
      else if p == MashProcess then HandleDeleteRecipe(app, i) else HandleDeleteChmelovar(app, i)
    case CopyAt(p, i) =>
      if app.view != SelectView(p) || i >= ListLength(app, p) then app
      else if p == MashProcess then HandleCopyRecipe(app, app.mash.recipes[i])
      else HandleCopyChmelovar(app, app.boil.recipes[i])
    case SaveMash(draft) =>
      if app.view == MashEdit && ValidEditIndex(app.mash) then HandleSaveRecipe(app, draft) else app
    case SaveBoil(draft) =>
      if app.view == BoilEdit && ValidEditIndex(app.boil) then HandleSaveChmelovar(app, draft) else app
    case CancelEdit(p) =>
      if app.view != EditView(p) then app
      else if p == MashProcess then HandleCancelEdit(app) else HandleCancelChmelovar(app)
    case FinishSimulation(p) =>
      if app.view != SimView(p) then app
      else if p == MashProcess then HandleFinishSimulation(app) else HandleFinishChmelovarSim(app)
  }

  function Replay(app: App, events: seq<Event>): App
    decreases |events|
  {
    if |events| == 0 then app else Replay(Handle(app, events[0]), events[1..])
  }

  // ----- properties --------------------------------------------------------

  /** A simulation view always has its recipe, and an open editor's
      position names a recipe of its list. */
  predicate Consistent(app: App) {
    && (app.view == MashSim ==> app.mash.selected.Some?)
    && (app.view == BoilSim ==> app.boil.selected.Some?)
    && (app.view == MashEdit ==> ValidEditIndex(app.mash))
    && (app.view == BoilEdit ==> ValidEditIndex(app.boil))
  }

  lemma HandlePreservesConsistent(app: App, ev: Event)
    requires Consistent(app)
    ensures Consistent(Handle(app, ev))
  {
  }

  lemma {:induction false} ReplayPreservesConsistent(app: App, events: seq<Event>)
    requires Consistent(app)
    ensures Consistent(Replay(app, events))
    decreases |events|
  {
    if |events| > 0 {
      HandlePreservesConsistent(app, events[0]);
      ReplayPreservesConsistent(Handle(app, events[0]), events[1..]);
    }
  }

  /** However the user gets there, the "unknown view" placeholder never
      shows, and the editors' saves are always taken. */
  lemma NeverUnknownView(mashRecipes: seq<Recipe<MashStep>>, boilRecipes: seq<Recipe<BoilStep>>, events: seq<Event>)
    ensures var app := Replay(Start(mashRecipes, boilRecipes), events);
      && Render(app) != UnknownView
      && (app.view == MashEdit ==> ValidEditIndex(app.mash))
      && (app.view == BoilEdit ==> ValidEditIndex(app.boil))
  {
    ReplayPreservesConsistent(Start(mashRecipes, boilRecipes), events);
  }

  /** Saving shows the simulation of the saved recipe; finishing it returns
      to the list with nothing chosen. */
  lemma SaveThenFinish(app: App, draft: Recipe<MashStep>)
    requires app.view == MashEdit && ValidEditIndex(app.mash)
    ensures Render(Handle(app, SaveMash(draft))) == MashSimulationScreen(draft)
    ensures var done := Handle(Handle(app, SaveMash(draft)), FinishSimulation(MashProcess));
      Render(done) == MashList(Save(app.mash.recipes, SaveRequest(draft, app.mash.editIndex))) && done.mash.selected == None
  {
  }

  /** The boil screens behave the same way. */
  lemma SaveThenFinishBoil(app: App, draft: Recipe<BoilStep>)
    requires app.view == BoilEdit && ValidEditIndex(app.boil)
    ensures Render(Handle(app, SaveBoil(draft))) == BoilSimulationScreen(draft)
    ensures var done := Handle(Handle(app, SaveBoil(draft)), FinishSimulation(BoilProcess));
      Render(done) == BoilList(Save(app.boil.recipes, SaveRequest(draft, app.boil.editIndex))) && done.boil.selected == None
  {
  }

  /** Opening a mash recipe in the editor and saving it unchanged leaves
      the list as it was and simulates that recipe. */
  lemma EditUnchangedMashRecipe(app: App, i: nat)
    requires app.view == MashSelect && i < |app.mash.recipes|
    requires app.mash.recipes[i].name != "" && HasEnd(app.mash.recipes[i].steps)
    ensures var editing := Handle(app, EditAtIndex(MashProcess, i));
      var out := MashEditor.HandleSave(MashEditor.Load(editing.mash.editing), editing.mash.editIndex);
      && out.Some?
      && var saved := Handle(editing, SaveMash(out.value.recipe));
      && saved.mash.recipes == app.mash.recipes
      && Render(saved) == MashSimulationScreen(app.mash.recipes[i])
  {
    MashEditor.SaveAfterLoad(app.mash.recipes[i], Some(i));
  }

  /** Opening a boil recipe in the editor and saving it unchanged leaves
      the list as it was and simulates that recipe. */
  lemma EditUnchangedBoilRecipe(app: App, i: nat)
    requires app.view == BoilSelect && i < |app.boil.recipes|
    requires app.boil.recipes[i].name != "" && |app.boil.recipes[i].steps| > 0
    ensures var editing := Handle(app, EditAtIndex(BoilProcess, i));
      var out := BoilEditor.HandleSave(BoilEditor.Load(editing.boil.editing), editing.boil.editIndex);
      && out.Ok?
      && var saved := Handle(editing, SaveBoil(out.value.recipe));
      && saved.boil.recipes == app.boil.recipes
      && Render(saved) == BoilSimulationScreen(app.boil.recipes[i])
  {
    BoilEditor.SaveAfterLoad(app.boil.recipes[i], Some(i));
  }

  lemma CopyAtMash(app: App, i: nat)
    requires app.view == MashSelect && i < |app.mash.recipes|
    ensures Handle(app, CopyAt(MashProcess, i)) == HandleCopyRecipe(app, app.mash.recipes[i])
  {
  }

  lemma DeleteAtMash(app: App, i: nat)
    requires app.view == MashSelect
    ensures Handle(app, DeleteAt(MashProcess, i)) == HandleDeleteRecipe(app, i)
  {
  }

  /** Copying a recipe and deleting the copy leaves the list as it was. */
  lemma CopyThenDelete(app: App, i: nat)
    requires app.view == MashSelect && i < |app.mash.recipes|
    ensures Handle(Handle(app, CopyAt(MashProcess, i)), DeleteAt(MashProcess, |app.mash.recipes|)).mash == app.mash
  {
    var rs := app.mash.recipes;
    var copied := Handle(app, CopyAt(MashProcess, i));
    CopyAtMash(app, i);
    DeleteAtMash(copied, |rs|);
    DeleteUndoesCopy(rs, rs[i]);
  }
}
