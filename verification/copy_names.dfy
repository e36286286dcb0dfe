/** The naming rule of the recipe lists' "copy" action: strip a trailing
    `copy` marker (with its number and the white space before it), then
    number the new copy one past the highest existing copy of that base. */
module CopyNames {
  import opened Wrappers
  import opened Decimal

  /** JavaScript's `\s`: the white-space and line-terminator characters. */
  predicate IsSpace(c: char) {
    var k := c as int;
    k == 0x09 || k == 0x0A || k == 0x0B || k == 0x0C || k == 0x0D || k == 0x20
    || k == 0xA0 || k == 0x1680 || (0x2000 <= k <= 0x200A) || k == 0x2028
    || k == 0x2029 || k == 0x202F || k == 0x205F || k == 0x3000 || k == 0xFEFF
  }

  predicate AllSpaces(s: string) {
    forall i :: 0 <= i < |s| ==> IsSpace(s[i])
  }

  const CopyWord: string := "copy"

  /** `t` is matched in full by the pattern `\s*copy\d*`. */
  predicate MatchesCopyMarker(t: string) {
    exists k :: 0 <= k && k + 4 <= |t| && AllSpaces(t[..k]) && t[k..k + 4] == CopyWord && AllDigits(t[k + 4..])
  }

  /** One more matching character in front of a matching run at the end of
      the string before it makes a matching run one longer. */
  lemma TrailingDigitsGrows(s: string, n: nat)
    requires 0 < |s| && n < |s| && IsDigit(s[|s| - 1])
    requires AllDigits(s[..|s| - 1][|s| - 1 - n..])
    requires n < |s| - 1 ==> !IsDigit(s[..|s| - 1][|s| - 2 - n])
    ensures AllDigits(s[|s| - (n + 1)..])
    ensures n + 1 < |s| ==> !IsDigit(s[|s| - (n + 1) - 1])
  {
    var front := s[..|s| - 1];
    var run, shorter := s[|s| - (n + 1)..], front[|s| - 1 - n..];
    forall i | 0 <= i < n + 1
      ensures IsDigit(run[i])
    {
      if i < n {
        assert run[i] == shorter[i];
      }
    }
    if n + 1 < |s| {
      assert s[|s| - (n + 1) - 1] == front[|s| - 2 - n];
    }
  }

  /** Length of the longest run of digits that ends the string. */
  function TrailingDigits(s: string): (n: nat)
    ensures n <= |s|
    ensures AllDigits(s[|s| - n..])
    ensures n < |s| ==> !IsDigit(s[|s| - n - 1])
    decreases |s|
  {
    if |s| > 0 && IsDigit(s[|s| - 1]) then
      var n := TrailingDigits(s[..|s| - 1]);
      TrailingDigitsGrows(s, n);
      n + 1
    else 0
  }

  /** One more matching character in front of a matching run at the end of
      the string before it makes a matching run one longer. */
  lemma TrailingSpacesGrows(s: string, n: nat)
    requires 0 < |s| && n < |s| && IsSpace(s[|s| - 1])
    requires AllSpaces(s[..|s| - 1][|s| - 1 - n..])
    requires n < |s| - 1 ==> !IsSpace(s[..|s| - 1][|s| - 2 - n])
    ensures AllSpaces(s[|s| - (n + 1)..])
    ensures n + 1 < |s| ==> !IsSpace(s[|s| - (n + 1) - 1])
  {
    var front := s[..|s| - 1];
    var run, shorter := s[|s| - (n + 1)..], front[|s| - 1 - n..];
    forall i | 0 <= i < n + 1
      ensures IsSpace(run[i])
    {
      if i < n {
        assert run[i] == shorter[i];
      }
    }
    if n + 1 < |s| {
      assert s[|s| - (n + 1) - 1] == front[|s| - 2 - n];
    }
  }

  /** Length of the longest run of white space that ends the string. */
  function TrailingSpaces(s: string): (n: nat)
    ensures n <= |s|
    ensures AllSpaces(s[|s| - n..])
    ensures n < |s| ==> !IsSpace(s[|s| - n - 1])
    decreases |s|
  {
    if |s| > 0 && IsSpace(s[|s| - 1]) then
      var n := TrailingSpaces(s[..|s| - 1]);
      TrailingSpacesGrows(s, n);
      n + 1
    else 0
  }

  /** The trailing digit run is the only digit-only suffix that follows a
      non-digit. */
  lemma TrailingDigitsUnique(s: string, m: nat)
    requires m <= |s| && AllDigits(s[|s| - m..])
    requires m < |s| ==> !IsDigit(s[|s| - m - 1])
    ensures TrailingDigits(s) == m
  {
  }

  /** A white-space run that reaches the end of `s` starts no earlier than
      the longest one. */
  lemma SpaceRunWithinTrailing(s: string, p: nat)
    requires p <= |s| && AllSpaces(s[p..])
    ensures p >= |s| - TrailingSpaces(s)
  {
  }

  /** Where the word `copy` of a trailing `copy<digits>` marker starts. */
  function CopyWordStart(name: string): (r: Option<nat>)
    ensures r.Some? ==> r.value + 4 <= |name| && name[r.value..r.value + 4] == CopyWord
    ensures r.Some? ==> AllDigits(name[r.value + 4..])
  {
    var rest := |name| - TrailingDigits(name);
    if rest >= 4 && name[rest - 4..rest] == CopyWord then Some(rest - 4) else None
  }

  /** Where the leftmost match of the marker begins, once the word `copy`
      has been found at `q`: the white space before it is part of the match. */
  function MarkerStart(name: string, q: nat): (m: nat)
    requires q <= |name|
    ensures m <= q
  {
    q - TrailingSpaces(name[..q])
  }

  /** The white space before a found `copy`, the word and the digits after
      it match the marker. */
  lemma MarkerMatchesFromStart(name: string, q: nat)
    requires CopyWordStart(name) == Some(q)
    ensures MatchesCopyMarker(name[MarkerStart(name, q)..])
  {
    var m := MarkerStart(name, q);
    var k := q - m;
    var t := name[m..];
    assert AllSpaces(name[..q][m..]);
    assert t[..k] == name[..q][m..];
    assert t[k..k + 4] == name[q..q + 4];
    assert t[k + 4..] == name[q + 4..];
    assert 0 <= k && k + 4 <= |t| && AllSpaces(t[..k]) && t[k..k + 4] == CopyWord && AllDigits(t[k + 4..]);
  }

  /** No match of the marker starts before `MarkerStart`. */
  lemma MarkerNotBeforeStart(name: string, p: nat)
    requires p <= |name|
    ensures MatchesCopyMarker(name[p..]) ==>
      CopyWordStart(name).Some? && MarkerStart(name, CopyWordStart(name).value) <= p
  {
    if MatchesCopyMarker(name[p..]) {
      MarkerPosition(name, p);
      var q := CopyWordStart(name).value;
      assert name[..q][p..] == name[p..q];
      SpaceRunWithinTrailing(name[..q], p);
    }
  }

  /** `name.replace(/\s*copy\d*$/, '')`: the prefix left once the leftmost
      match of the marker pattern that reaches the end of the name is cut. */
  function BaseName(name: string): (b: string)
    ensures |b| <= |name| && b == name[..|b|]
    ensures (exists p :: 0 <= p <= |name| && MatchesCopyMarker(name[p..])) ==> MatchesCopyMarker(name[|b|..])
    ensures forall p :: 0 <= p < |b| ==> !MatchesCopyMarker(name[p..])
    ensures (forall p :: 0 <= p <= |name| ==> !MatchesCopyMarker(name[p..])) ==> b == name
  {
    forall p | 0 <= p <= |name| {
      MarkerNotBeforeStart(name, p);
    }
    match CopyWordStart(name)
    case None => name
    case Some(q) =>
      MarkerMatchesFromStart(name, q);
      name[..MarkerStart(name, q)]
  }

  /** A word `copy` followed by digits only is the one `CopyWordStart`
      finds. */
  lemma CopyWordBeforeDigits(name: string, q: nat)
    requires q + 4 <= |name| && name[q..q + 4] == CopyWord && AllDigits(name[q + 4..])
    ensures CopyWordStart(name) == Some(q)
  {
    var m := |name| - q - 4;
    assert name[|name| - m..] == name[q + 4..];
    assert name[|name| - m - 1] == name[q..q + 4][3] == 'y';
    TrailingDigitsUnique(name, m);
  }

  /** A full match of the marker pattern starting at `p` always puts its word
      `copy` at `CopyWordStart`, with white space only in between. */
  lemma MarkerPosition(name: string, p: nat)
    requires p <= |name| && MatchesCopyMarker(name[p..])
    ensures CopyWordStart(name).Some?
    ensures p <= CopyWordStart(name).value
    ensures AllSpaces(name[p..CopyWordStart(name).value])
  {
    var t := name[p..];
    var k :| 0 <= k && k + 4 <= |t| && AllSpaces(t[..k]) && t[k..k + 4] == CopyWord && AllDigits(t[k + 4..]);
    var q := p + k;
    assert name[q..q + 4] == t[k..k + 4];
    assert name[q + 4..] == t[k + 4..];
    CopyWordBeforeDigits(name, q);
    assert name[p..q] == t[..k];
  }

  /** The name ends in the word `copy`, at `q`, followed by one or more
      digits. */
  predicate NumberedCopyAt(name: string, q: int) {
    0 <= q && q + 4 < |name| && name[q..q + 4] == CopyWord && AllDigits(name[q + 4..])
  }

  /** The number of a name that ends in `copy<digits>` (at least one digit),
      read as `parseInt(name.match(/copy(\d+)$/)[1])`; `None` when the name
      fails the test `/\s*copy(\d+)$/`. */
  function CopyNumberOf(name: string): (r: Option<nat>)
    ensures forall q :: NumberedCopyAt(name, q) ==> r == Some(Parse(name[q + 4..]))
  {
    var d := TrailingDigits(name);
    forall q | NumberedCopyAt(name, q)
      ensures CopyWordStart(name) == Some(q) && d == |name| - q - 4
    {
      CopyWordBeforeDigits(name, q);
    }
    if d > 0 && CopyWordStart(name).Some? then Some(Parse(name[|name| - d..])) else None
  }

  /** A name has a copy number exactly when it ends in the word `copy`
      followed by one or more digits, as `/\s*copy(\d+)$/` tests. */
  lemma CopyNumberOfSpec(name: string)
    ensures CopyNumberOf(name).Some? <==> exists q :: NumberedCopyAt(name, q)
  {
    if CopyNumberOf(name).Some? {
      assert NumberedCopyAt(name, CopyWordStart(name).value);
    }
  }

  /** A name counts as a copy of `base` when it starts with `base` and carries
      a numbered marker. */
  predicate IsCopyOf(name: string, base: string) {
    base <= name && CopyNumberOf(name).Some?
  }

  /** The numbers of the names that count as copies of `base`, in list
      order: the source's `filter` followed by `map`. */
  function CopyNumbers(names: seq<string>, base: string): (nums: seq<nat>)
    ensures forall i :: 0 <= i < |names| && IsCopyOf(names[i], base) ==> CopyNumberOf(names[i]).value in nums
    ensures forall x :: x in nums ==> exists i :: 0 <= i < |names| && IsCopyOf(names[i], base) && CopyNumberOf(names[i]) == Some(x)
    decreases |names|
  {
    if |names| == 0 then []
    else
      var init := names[..|names| - 1];
      var last := names[|names| - 1];
      var nums := CopyNumbers(init, base);
      assert forall i :: 0 <= i < |init| ==> names[i] == init[i];
      if IsCopyOf(last, base) then nums + [CopyNumberOf(last).value] else nums
  }

  /** `Math.max(...nums)`, taken as 0 for an empty list. */
  function MaxOrZero(nums: seq<nat>): (m: nat)
    ensures forall x :: x in nums ==> x <= m
    ensures m == 0 || m in nums
  {
    if |nums| == 0 then 0
    else
      var m := MaxOrZero(nums[1..]);
      assert nums == [nums[0]] + nums[1..];
      if nums[0] > m then nums[0] else m
  }

  /** The copy number for `base`: one past the highest number among the
      names that count as its copies, or 1 when there are none. */
  function NextCopyNumber(names: seq<string>, base: string): (k: nat)
    ensures k >= 1
    ensures forall i :: 0 <= i < |names| && IsCopyOf(names[i], base) ==> CopyNumberOf(names[i]).value < k
    ensures k == 1 || exists i :: 0 <= i < |names| && IsCopyOf(names[i], base) && CopyNumberOf(names[i]) == Some(k - 1)
  {
    1 + MaxOrZero(CopyNumbers(names, base))
  }

  /** The name given to a copy of a recipe called `name`; it differs from
      every name already listed. */
  function CopyName(names: seq<string>, name: string): (c: string)
    ensures c !in names
  {
    var base := BaseName(name);
    NumberedNameIsFresh(names, base, NextCopyNumber(names, base));
    base + " copy" + Show(NextCopyNumber(names, base))
  }

  /** `base + " copy" + Show(k)` reads back as a copy of `base` numbered `k`. */
  lemma CopyNameReadsBack(base: string, k: nat)
    ensures IsCopyOf(base + " copy" + Show(k), base)
    ensures CopyNumberOf(base + " copy" + Show(k)) == Some(k)
  {
    var digits := Show(k);
    var n := base + " copy" + digits;
    var q := |base| + 1;
    assert n[q..q + 4] == CopyWord;
    assert n[|n| - |digits|..] == digits;
    assert n[|n| - |digits| - 1] == 'y';
    TrailingDigitsUnique(n, |digits|);
    ParseShow(k);
    assert base <= n by {
      assert n[..|base|] == base;
    }
  }

  /** The base name numbered one past its highest listed copy is not
      listed yet. */
  lemma NumberedNameIsFresh(names: seq<string>, base: string, k: nat)
    requires k == NextCopyNumber(names, base)
    ensures base + " copy" + Show(k) !in names
  {
    CopyNameReadsBack(base, k);
    forall i | 0 <= i < |names|
      ensures names[i] != base + " copy" + Show(k)
    {
      if IsCopyOf(names[i], base) {
        assert CopyNumberOf(names[i]).value < k;
      }
    }
  }
}
