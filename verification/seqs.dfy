/** Generic sequence searches and filters: the short-circuiting "first
    match wins" scan and the order-preserving row selection of a boolean
    mask. */
module Seqs {
  import opened Wrappers

  /** The index of the first element satisfying `p`, stopping there. */
  function FirstWhere<T>(xs: seq<T>, p: T -> bool): (r: Option<nat>)
    ensures r.Some? ==> r.value < |xs| && p(xs[r.value])
    ensures r.Some? ==> forall j :: 0 <= j < r.value ==> !p(xs[j])
    ensures r.None? <==> forall j :: 0 <= j < |xs| ==> !p(xs[j])
  {
    if |xs| == 0 then None
    else if p(xs[0]) then Some(0)
    else
      match FirstWhere(xs[1..], p)
      case None => None
      case Some(k) => Some(k + 1)
  }

  /** `ys` can be obtained from `xs` by deleting elements. */
  ghost predicate IsSubseq<T>(ys: seq<T>, xs: seq<T>)
    decreases |xs|
  {
    if |ys| == 0 then true
    else if |xs| == 0 then false
    else (ys[0] == xs[0] && IsSubseq(ys[1..], xs[1..])) || IsSubseq(ys, xs[1..])
  }

  /** The number of elements of `xs` that satisfy `p`. */
  function CountWhere<T>(xs: seq<T>, p: T -> bool): nat {
    if |xs| == 0 then 0 else (if p(xs[0]) then 1 else 0) + CountWhere(xs[1..], p)
  }

  /** The elements of `xs` that satisfy `p`, in their original order: a
      subsequence, every member satisfies `p`, every element satisfying
      `p` is kept, and it is exactly as long as the number of those. */
  function Keep<T>(xs: seq<T>, p: T -> bool): (ys: seq<T>)
    ensures IsSubseq(ys, xs)
    ensures forall k :: 0 <= k < |ys| ==> p(ys[k])
    ensures forall i :: 0 <= i < |xs| && p(xs[i]) ==> xs[i] in ys
    ensures |ys| == CountWhere(xs, p)
  {
    if |xs| == 0 then []
    else
      var rest := Keep(xs[1..], p);
      assert forall i :: 1 <= i < |xs| ==> xs[i] == xs[1..][i - 1];
      if p(xs[0]) then
        assert ([xs[0]] + rest)[1..] == rest;
        [xs[0]] + rest
      else rest
  }

  /** A second filter applied to the output of a first is one filter by
      the conjunction `pq`: selecting and then discarding is the same as
      selecting only what passes both tests. */
  lemma {:induction false} KeepKeep<T>(xs: seq<T>, p: T -> bool, q: T -> bool, pq: T -> bool)
    requires forall x :: pq(x) == (p(x) && q(x))
    ensures Keep(Keep(xs, p), q) == Keep(xs, pq)
  {
    if |xs| > 0 {
      KeepKeep(xs[1..], p, q, pq);
      var rest := Keep(xs[1..], p);
      if p(xs[0]) {
        assert ([xs[0]] + rest)[1..] == rest;
      }
    }
  }

  /** Applies `f` to every element in order and stops at the first failure:
      the results of all of them, or the index and error of the first that
      fails, every earlier one having succeeded. */
  method CollectAll<T, U, E>(xs: seq<T>, f: T -> Result<U, E>) returns (r: Result<seq<U>, (nat, E)>)
    ensures r.Success? <==> forall i :: 0 <= i < |xs| ==> f(xs[i]).Success?
    ensures r.Success? ==> |r.value| == |xs|
    ensures r.Success? ==> forall i :: 0 <= i < |xs| ==> f(xs[i]) == Success(r.value[i])
    ensures r.Failure? ==> r.error.0 < |xs| && f(xs[r.error.0]) == Failure(r.error.1)
    ensures r.Failure? ==> forall j :: 0 <= j < r.error.0 ==> f(xs[j]).Success?
  {
    var ys: seq<U> := [];
    for i := 0 to |xs|
      invariant |ys| == i
      invariant forall j :: 0 <= j < i ==> f(xs[j]) == Success(ys[j])
    {
      var y := f(xs[i]);
      if y.Failure? {
        return Failure((i, y.error));
      }
      ys := ys + [y.value];
    }
    return Success(ys);
  }
}
