/** Recipe lists: a recipe is a name and its steps; the lists of mash and of
    boil recipes share these operations. */
module Recipes {
  import opened Wrappers
  import Lists
  import CopyNames

  datatype Recipe<S> = Recipe(name: string, steps: seq<S>)

  /** What an editor hands back: the recipe, and the list position it was
      opened from (`None` for a new recipe). */
  datatype SaveRequest<S> = SaveRequest(recipe: Recipe<S>, editIndex: Option<nat>)

  function Names<S>(rs: seq<Recipe<S>>): (ns: seq<string>)
    ensures |ns| == |rs| && forall i :: 0 <= i < |rs| ==> ns[i] == rs[i].name
  {
    seq(|rs|, i requires 0 <= i < |rs| => rs[i].name)
  }

  /** Delete the recipe at `index`; the others keep their order. An index
      outside the list deletes nothing. */
  function Delete<S>(rs: seq<Recipe<S>>, index: int): (r: seq<Recipe<S>>)
    ensures 0 <= index < |rs| ==>
      && |r| == |rs| - 1
      && (forall j :: 0 <= j < index ==> r[j] == rs[j])
      && (forall j :: index <= j < |r| ==> r[j] == rs[j + 1])
    ensures !(0 <= index < |rs|) ==> r == rs
  {
    Lists.WithoutIndex(rs, index)
  }

  /** Append a copy of `rec` named after its base name with the next free
      copy number. */
  function Copy<S>(rs: seq<Recipe<S>>, rec: Recipe<S>): (r: seq<Recipe<S>>)
    ensures |r| == |rs| + 1 && r[..|rs|] == rs
    ensures r[|rs|].steps == rec.steps
    ensures r[|rs|].name !in Names(rs)
    ensures CopyNames.IsCopyOf(r[|rs|].name, CopyNames.BaseName(rec.name))
    ensures CopyNames.CopyNumberOf(r[|rs|].name) == Some(CopyNames.NextCopyNumber(Names(rs), CopyNames.BaseName(rec.name)))
  {
    var base := CopyNames.BaseName(rec.name);
    var k := CopyNames.NextCopyNumber(Names(rs), base);
    CopyNames.CopyNameReadsBack(base, k);
    rs + [rec.(name := CopyNames.CopyName(Names(rs), rec.name))]
  }

  /** A request may only name a position of the list. */
  predicate ValidRequest<S>(rs: seq<Recipe<S>>, req: SaveRequest<S>) {
    req.editIndex.Some? ==> req.editIndex.value < |rs|
  }

  /** Store an edited recipe back in its place, or append a new one. */
  function Save<S>(rs: seq<Recipe<S>>, req: SaveRequest<S>): (r: seq<Recipe<S>>)
    requires ValidRequest(rs, req)
    ensures req.editIndex.Some? ==>
      && |r| == |rs| && r[req.editIndex.value] == req.recipe
      && forall j :: 0 <= j < |rs| && j != req.editIndex.value ==> r[j] == rs[j]
    ensures req.editIndex.None? ==> |r| == |rs| + 1 && r[..|rs|] == rs && r[|rs|] == req.recipe
  {
    match req.editIndex
    case Some(i) => rs[i := req.recipe]
    case None => rs + [req.recipe]
  }

  // ----- partners ----------------------------------------------------------

  /** Deleting the copy just made restores the list. */
  lemma DeleteUndoesCopy<S>(rs: seq<Recipe<S>>, rec: Recipe<S>)
    ensures Delete(Copy(rs, rec), |rs|) == rs
  {
    assert Copy(rs, rec)[..|rs|] == rs;
  }

  /** Deleting a recipe just saved as new restores the list. */
  lemma DeleteUndoesSaveNew<S>(rs: seq<Recipe<S>>, rec: Recipe<S>)
    ensures Delete(Save(rs, SaveRequest(rec, None)), |rs|) == rs
  {
    assert Save(rs, SaveRequest(rec, None))[..|rs|] == rs;
  }

  /** Saving the original back over an edit restores the list. */
  lemma SaveOriginalUndoesEdit<S>(rs: seq<Recipe<S>>, rec: Recipe<S>, i: nat)
    requires i < |rs|
    ensures Save(Save(rs, SaveRequest(rec, Some(i))), SaveRequest(rs[i], Some(i))) == rs
  {
  }

  /** Saving the same edit twice is the same as saving it once. */
  lemma SaveEditIdempotent<S>(rs: seq<Recipe<S>>, rec: Recipe<S>, i: nat)
    requires i < |rs|
    ensures Save(Save(rs, SaveRequest(rec, Some(i))), SaveRequest(rec, Some(i))) == Save(rs, SaveRequest(rec, Some(i)))
  {
  }

  /** Copying twice gives two different names, neither of them taken. */
  lemma CopyTwiceDistinct<S>(rs: seq<Recipe<S>>, rec: Recipe<S>)
    ensures var once := Copy(rs, rec);
      var twice := Copy(once, rec);
      twice[|rs|].name != twice[|rs| + 1].name && twice[|rs| + 1].name !in Names(rs)
  {
    var once := Copy(rs, rec);
    assert once[|rs|].name in Names(once);
    forall n | n in Names(rs)
      ensures n in Names(once)
    {
      var i :| 0 <= i < |rs| && Names(rs)[i] == n;
      assert Names(once)[i] == n;
    }
  }
}
