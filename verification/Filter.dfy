/** The places in a sequence where something holds. */
module Filter {

  /** `idx` are all the places where `keep` holds, in order. */
  ghost predicate ArePlaces<T(!new)>(keep: T -> bool, xs: seq<T>, idx: seq<nat>) {
    && (forall k :: 0 <= k < |idx| ==> idx[k] < |xs| && keep(xs[idx[k]]))
    && (forall k, l :: 0 <= k < l < |idx| ==> idx[k] < idx[l])
    && (forall i :: 0 <= i < |xs| && keep(xs[i]) ==> i in idx)
  }

  lemma OneMore<T(!new)>(keep: T -> bool, xs: seq<T>, x: T, idx: seq<nat>)
    requires ArePlaces(keep, xs, idx)
    ensures ArePlaces(keep, xs + [x], if keep(x) then idx + [|xs|] else idx)
  {
    var idx' := if keep(x) then idx + [|xs|] else idx;
    forall i | 0 <= i < |xs| + 1 && keep((xs + [x])[i]) ensures i in idx' {
      if i < |xs| {
        assert i in idx;
      } else {
        assert idx'[|idx|] == i;
      }
    }
  }

  /** The first `n` places: whatever else is kept comes after all of them. */
  lemma FirstPlaces<T(!new)>(keep: T -> bool, xs: seq<T>, idx: seq<nat>, n: nat, i: nat)
    requires ArePlaces(keep, xs, idx) && n <= |idx| && i < |xs| && keep(xs[i]) && i !in idx[..n]
    ensures n < |idx| && forall k :: 0 <= k < n ==> idx[k] < i
  {
    var l :| 0 <= l < |idx| && idx[l] == i;
    assert forall k :: 0 <= k < n ==> idx[k] == idx[..n][k];
  }

  ghost predicate InRange<T>(xs: seq<T>, idx: seq<nat>) {
    forall k :: 0 <= k < |idx| ==> idx[k] < |xs|
  }

  /** What stands at the places. */
  function Pick<T>(xs: seq<T>, idx: seq<nat>): (p: seq<T>)
    requires InRange(xs, idx)
    ensures |p| == |idx|
  {
    seq(|idx|, k requires 0 <= k < |idx| => xs[idx[k]])
  }

  lemma PickMore<T>(xs: seq<T>, x: T, idx: seq<nat>)
    requires InRange(xs, idx)
    ensures Pick(xs + [x], idx) == Pick(xs, idx)
    ensures Pick(xs + [x], idx + [|xs|]) == Pick(xs, idx) + [x]
  {
  }
}
