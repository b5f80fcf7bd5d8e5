/** The first-match search the source writes as a `for` loop with an early
    `return`, or as `Array.prototype.some`. */
module Sequences {
  import opened Wrappers

  /** The index of the first element satisfying `p`: a `for` loop with an
      early `return`, or `Array.prototype.some` when only success matters. */
  function FirstIndex<T>(xs: seq<T>, p: T -> bool): (r: Option<nat>)
    ensures r.Some? ==> r.value < |xs| && p(xs[r.value])
    ensures r.Some? ==> forall j :: 0 <= j < r.value ==> !p(xs[j])
    ensures r.None? <==> forall j :: 0 <= j < |xs| ==> !p(xs[j])
  {
    if |xs| == 0 then None
    else if p(xs[0]) then Some(0)
    else
      match FirstIndex(xs[1..], p)
      case None => None
      case Some(i) =>
        assert forall j :: 1 <= j < i + 1 ==> xs[j] == xs[1..][j - 1];
        Some(i + 1)
  }

  /** The first index, pinned down by what holds before it. */
  lemma FirstIndexIs<T>(xs: seq<T>, p: T -> bool, i: nat)
    requires i < |xs| && p(xs[i])
    requires forall j :: 0 <= j < i ==> !p(xs[j])
    ensures FirstIndex(xs, p) == Some(i)
  {
  }

  lemma InsertedAt<T>(xs: seq<T>, x: T, k: nat)
    requires k <= |xs|
    ensures |xs[..k] + [x] + xs[k..]| == |xs| + 1
    ensures forall j :: 0 <= j < k ==> (xs[..k] + [x] + xs[k..])[j] == xs[j]
    ensures (xs[..k] + [x] + xs[k..])[k] == x
    ensures forall j :: k < j <= |xs| ==> (xs[..k] + [x] + xs[k..])[j] == xs[j - 1]
  {
  }

  /** An element that fails the test, inserted anywhere, leaves the first
      match the same element, one place later when it is inserted before. */
  lemma FirstIndexSkips<T>(xs: seq<T>, p: T -> bool, x: T, k: nat)
    requires k <= |xs| && !p(x)
    ensures FirstIndex(xs, p).None? ==> FirstIndex(xs[..k] + [x] + xs[k..], p).None?
    ensures FirstIndex(xs, p).Some? ==>
      FirstIndex(xs[..k] + [x] + xs[k..], p) ==
        Some(if FirstIndex(xs, p).value < k then FirstIndex(xs, p).value else FirstIndex(xs, p).value + 1)
  {
    InsertedAt(xs, x, k);
    SkipsInserted(xs, xs[..k] + [x] + xs[k..], p, k);
  }

  lemma SkipsInserted<T>(xs: seq<T>, t: seq<T>, p: T -> bool, k: nat)
    requires k <= |xs| && |t| == |xs| + 1 && !p(t[k])
    requires forall j :: 0 <= j < k ==> t[j] == xs[j]
    requires forall j :: k < j < |t| ==> t[j] == xs[j - 1]
    ensures FirstIndex(xs, p).None? ==> FirstIndex(t, p).None?
    ensures FirstIndex(xs, p).Some? ==>
      FirstIndex(t, p) == Some(if FirstIndex(xs, p).value < k then FirstIndex(xs, p).value else FirstIndex(xs, p).value + 1)
  {
    match FirstIndex(xs, p)
    case Some(i) =>
      var n := if i < k then i else i + 1;
      assert t[n] == xs[i];
      forall j | 0 <= j < n ensures !p(t[j]) {
        if j > k {
          assert t[j] == xs[j - 1];
        }
      }
      FirstIndexIs(t, p, n);
    case None =>
      forall j | 0 <= j < |t| ensures !p(t[j]) {
        if j > k {
          assert t[j] == xs[j - 1];
        }
      }
  }
}
