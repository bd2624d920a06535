/** Swift's `Array.filter`: keep, in their original order, the elements for
    which a closure holds. */
module Filtering {

  /** The elements of `s` for which `keep` holds, in the order of `s`. */
  function Filter<T>(s: seq<T>, keep: T -> bool): (r: seq<T>)
    ensures |r| <= |s|
    ensures forall x :: x in r ==> x in s && keep(x)
    decreases |s|
  {
    if s == [] then []
    else Filter(s[..|s| - 1], keep) + (if keep(s[|s| - 1]) then [s[|s| - 1]] else [])
  }

  /** The positions of `s` whose element `keep` accepts, in increasing order. */
  ghost function KeptIndices<T>(s: seq<T>, keep: T -> bool): seq<nat>
    decreases |s|
  {
    if s == [] then []
    else KeptIndices(s[..|s| - 1], keep) + (if keep(s[|s| - 1]) then [|s| - 1] else [])
  }

  ghost predicate StrictlyIncreasing(idx: seq<nat>) {
    forall j, k :: 0 <= j < k < |idx| ==> idx[j] < idx[k]
  }

  /** `r` is the subsequence of `s` picked out by the increasing positions `idx`. */
  ghost predicate PickedAt<T>(r: seq<T>, s: seq<T>, idx: seq<nat>) {
    && |idx| == |r|
    && StrictlyIncreasing(idx)
    && (forall k :: 0 <= k < |idx| ==> idx[k] < |s| && r[k] == s[idx[k]])
  }

  /** The filter's result is exactly the subsequence of `s` at the positions
      whose element is kept: order is preserved and nothing kept is dropped. */
  lemma {:induction false} FilterPicksKeptPositions<T>(s: seq<T>, keep: T -> bool)
    ensures PickedAt(Filter(s, keep), s, KeptIndices(s, keep))
    ensures forall i :: 0 <= i < |s| ==> (i in KeptIndices(s, keep) <==> keep(s[i]))
    decreases |s|
  {
    KeptIndicesAreAccepted(s, keep);
    if s != [] {
      var init, last := s[..|s| - 1], |s| - 1;
      FilterPicksKeptPositions(init, keep);
      KeptIndicesBelow(init, keep);
      var idx, r := KeptIndices(init, keep), Filter(init, keep);
      if keep(s[last]) {
        PickedAtExtend(r, init, idx, s, s[last]);
      } else {
        PickedAtPrefix(r, init, idx, s);
      }
    }
  }

  /** A position is kept exactly when its element is accepted. */
  lemma {:induction false} KeptIndicesAreAccepted<T>(s: seq<T>, keep: T -> bool)
    ensures forall i :: 0 <= i < |s| ==> (i in KeptIndices(s, keep) <==> keep(s[i]))
    decreases |s|
  {
    if s != [] {
      var init, last := s[..|s| - 1], |s| - 1;
      KeptIndicesAreAccepted(init, keep);
      KeptIndicesBelow(init, keep);
      forall i | 0 <= i < |s|
        ensures i in KeptIndices(s, keep) <==> keep(s[i])
      {
        if i < last {
          assert s[i] == init[i];
        }
      }
    }
  }

  lemma {:induction false} KeptIndicesBelow<T>(s: seq<T>, keep: T -> bool)
    ensures forall k :: 0 <= k < |KeptIndices(s, keep)| ==> KeptIndices(s, keep)[k] < |s|
    decreases |s|
  {
    if s != [] {
      KeptIndicesBelow(s[..|s| - 1], keep);
    }
  }

  /** A picking of `r` from a prefix `init` of `s` stays a picking from `s`. */
  lemma PickedAtPrefix<T>(r: seq<T>, init: seq<T>, idx: seq<nat>, s: seq<T>)
    requires PickedAt(r, init, idx) && |init| < |s| && init == s[..|init|]
    ensures PickedAt(r, s, idx)
  {
    forall k | 0 <= k < |idx|
      ensures idx[k] < |s| && r[k] == s[idx[k]]
    {
      assert s[idx[k]] == init[idx[k]];
    }
  }

  /** Appending the element just past `init` extends the picking by its position. */
  lemma PickedAtExtend<T>(r: seq<T>, init: seq<T>, idx: seq<nat>, s: seq<T>, x: T)
    requires PickedAt(r, init, idx) && s == init + [x]
    ensures PickedAt(r + [x], s, idx + [|init|])
  {
    PickedAtPrefix(r, init, idx, s);
    var idx' := idx + [|init|];
    forall j, k | 0 <= j < k < |idx'|
      ensures idx'[j] < idx'[k]
    {
      if k < |idx| {
        assert idx'[j] == idx[j] && idx'[k] == idx[k];
      }
    }
  }

  /** When every element is kept, the filter returns its input. */
  lemma {:induction false} FilterKeepsAll<T>(s: seq<T>, keep: T -> bool)
    requires forall x :: x in s ==> keep(x)
    ensures Filter(s, keep) == s
    decreases |s|
  {
    if s != [] {
      FilterKeepsAll(s[..|s| - 1], keep);
      assert s == s[..|s| - 1] + [s[|s| - 1]];
    }
  }
}
