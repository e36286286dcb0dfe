/** Sequence edits shared by the recipe editors and the recipe lists. */
module Lists {

  /** `xs.filter((_, i) => i !== index)`: every element except the one at
      `index`, in order. The definition walks the list as the filter does;
      the contract states what it amounts to. */
  function WithoutIndex<T>(xs: seq<T>, index: int): (r: seq<T>)
    ensures 0 <= index < |xs| ==> r == xs[..index] + xs[index + 1..]
    ensures !(0 <= index < |xs|) ==> r == xs
    decreases |xs|
  {
    if |xs| == 0 then []
    else
      var last := |xs| - 1;
      WithoutIndex(xs[..last], index) + (if index == last then [] else [xs[last]])
  }

  /** `clone.splice(k, 0, x)` on a copy: `x` placed at position `k`, the
      elements before it unchanged and those after it shifted by one. */
  function InsertAt<T>(xs: seq<T>, k: nat, x: T): (r: seq<T>)
    requires k <= |xs|
    ensures |r| == |xs| + 1
    ensures r[k] == x
    ensures forall j :: 0 <= j < k ==> r[j] == xs[j]
    ensures forall j :: k <= j < |xs| ==> r[j + 1] == xs[j]
  {
    xs[..k] + [x] + xs[k..]
  }

  /** Removing what was just inserted gives the original list back. */
  lemma RemoveInserted<T>(xs: seq<T>, k: nat, x: T)
    requires k <= |xs|
    ensures WithoutIndex(InsertAt(xs, k, x), k) == xs
  {
    var ys := InsertAt(xs, k, x);
    assert ys[..k] == xs[..k];
    assert ys[k + 1..] == xs[k..];
    assert xs[..k] + xs[k..] == xs;
  }
}
