/**
 The shape of the handler's loop, independent of what is computed per
 element: map every element through a step that may fail, stop at the first
 failure, and reverse the collected results.
 */
module Batch {
  import opened Wrappers

  /** Every element has a result. */
  predicate AllSome<A, B>(f: A -> Option<B>, xs: seq<A>) {
    forall i :: 0 <= i < |xs| ==> f(xs[i]).Some?
  }

  /** `k` is the first element without a result. */
  predicate FirstNone<A, B>(f: A -> Option<B>, xs: seq<A>, k: int) {
    && 0 <= k < |xs|
    && f(xs[k]).None?
    && forall j :: 0 <= j < k ==> f(xs[j]).Some?
  }

  /** `ys` holds the results of `xs`, position by position. */
  predicate MappedInOrder<A, B(==)>(f: A -> Option<B>, xs: seq<A>, ys: seq<B>) {
    && |ys| == |xs|
    && forall i :: 0 <= i < |xs| ==> f(xs[i]) == Some(ys[i])
  }

  /** The results in order, or the index of the first element without one. */
  function MapAll<A, B(==)>(f: A -> Option<B>, xs: seq<A>): (r: Result<seq<B>, nat>)
    ensures r.Success? <==> AllSome(f, xs)
    ensures r.Success? ==> MappedInOrder(f, xs, r.value)
    ensures r.Failure? ==> FirstNone(f, xs, r.error)
  {
    if |xs| == 0 then Success([])
    else match f(xs[0])
      case None => Failure(0)
      case Some(y) =>
        match MapAll(f, xs[1..])
        case Failure(k) =>
          FirstNoneBehindHead(f, xs, k);
          Failure(k + 1)
        case Success(ys) =>
          MappedBehindHead(f, xs, y, ys);
          Success([y] + ys)
  }

  lemma FirstNoneBehindHead<A, B>(f: A -> Option<B>, xs: seq<A>, k: int)
    requires |xs| > 0 && f(xs[0]).Some?
    requires FirstNone(f, xs[1..], k)
    ensures FirstNone(f, xs, k + 1)
  {
  }

  lemma MappedBehindHead<A, B>(f: A -> Option<B>, xs: seq<A>, y: B, ys: seq<B>)
    requires |xs| > 0 && f(xs[0]) == Some(y)
    requires MappedInOrder(f, xs[1..], ys)
    ensures MappedInOrder(f, xs, [y] + ys)
  {
  }

  /** The results in reverse order, or the index of the first element without one. */
  function MapAllReversed<A, B(==)>(f: A -> Option<B>, xs: seq<A>): (r: Result<seq<B>, nat>)
    ensures r.Success? <==> AllSome(f, xs)
    ensures r.Success? ==> |r.value| == |xs|
    ensures r.Success? ==> forall i :: 0 <= i < |xs| ==> f(xs[|xs| - 1 - i]) == Some(r.value[i])
    ensures r.Failure? ==> FirstNone(f, xs, r.error)
  {
    match MapAll(f, xs)
    case Success(ys) => Success(Reverse(ys))
    case Failure(k) => Failure(k)
  }

  /**
   The loop itself: apply `f` to each element in turn, appending its result and
   returning at the first element without one; then reverse what was collected.
   */
  method MapThenReverse<A, B(==)>(f: A -> Option<B>, xs: seq<A>) returns (r: Result<seq<B>, nat>)
    ensures r == MapAllReversed(f, xs)
  {
    var ys: seq<B> := [];
    var i := 0;
    while i < |xs|
      invariant 0 <= i <= |xs|
      invariant |ys| == i
      invariant forall j :: 0 <= j < i ==> f(xs[j]) == Some(ys[j])
    {
      var y := f(xs[i]);
      if y.None? {
        FirstNoneUnique(f, xs, i, MapAll(f, xs).error);
        return Failure(i);
      }
      ys := ys + [y.value];
      i := i + 1;
    }
    MappedInOrderUnique(f, xs, ys, MapAll(f, xs).value);
    r := Success(Reverse(ys));
  }

  /** Results in order are unique: there is only one way to map a sequence. */
  lemma MappedInOrderUnique<A, B>(f: A -> Option<B>, xs: seq<A>, ys: seq<B>, zs: seq<B>)
    requires MappedInOrder(f, xs, ys) && MappedInOrder(f, xs, zs)
    ensures ys == zs
  {
  }

  /** There is only one first failure. */
  lemma FirstNoneUnique<A, B>(f: A -> Option<B>, xs: seq<A>, k1: int, k2: int)
    requires FirstNone(f, xs, k1) && FirstNone(f, xs, k2)
    ensures k1 == k2
  {
  }

  /** `s` in the opposite order. */
  function Reverse<T>(s: seq<T>): (r: seq<T>)
    ensures |r| == |s|
    ensures forall i :: 0 <= i < |s| ==> r[i] == s[|s| - 1 - i]
  {
    if |s| == 0 then [] else Reverse(s[1..]) + [s[0]]
  }

  lemma ReverseReverse<T>(s: seq<T>)
    ensures Reverse(Reverse(s)) == s
  {
  }
}
