/** The two JavaScript array primitives the frontend stores use. */
module JsArray {

  /** `Array.prototype.findIndex`: the first index satisfying `p`, or -1. */
  function FindIndex<T>(xs: seq<T>, p: T -> bool): (i: int)
    ensures -1 <= i < |xs|
    ensures i == -1 <==> forall k :: 0 <= k < |xs| ==> !p(xs[k])
    ensures i >= 0 ==> p(xs[i]) && forall k :: 0 <= k < i ==> !p(xs[k])
  {
    if |xs| == 0 then -1
    else if p(xs[0]) then 0
    else
      var j := FindIndex(xs[1..], p);
      if j == -1 then -1 else j + 1
  }

  /** `splice(i, 1)`: removes the element at `i`. */
  function RemoveAt<T>(xs: seq<T>, i: nat): (r: seq<T>)
    requires i < |xs|
    ensures |r| == |xs| - 1
    ensures forall k :: 0 <= k < i ==> r[k] == xs[k]
    ensures forall k :: i <= k < |r| ==> r[k] == xs[k + 1]
  {
    xs[..i] + xs[i + 1..]
  }

  /** `splice(i, 1)` drops exactly one occurrence of the element at `i`. */
  lemma RemoveAtMultiset<T>(xs: seq<T>, i: nat)
    requires i < |xs|
    ensures multiset(RemoveAt(xs, i)) + multiset{xs[i]} == multiset(xs)
  {
    assert xs == xs[..i] + [xs[i]] + xs[i + 1..];
  }
}
