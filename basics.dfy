/** Small shared vocabulary: an option type, record identifiers and a filter. */
module Basics {

  datatype Option<T> = None | Some(value: T)

  /** The hexadecimal string form of a database record identifier. */
  type Id = string

  /** Keeps the elements of `xs` that satisfy `p`, in their original order
      (the behaviour of JavaScript's `Array.prototype.filter`). */
  function Filter<T(!new)>(xs: seq<T>, p: T -> bool): (r: seq<T>)
    ensures |r| <= |xs|
    ensures forall x :: x in r <==> x in xs && p(x)
    ensures (forall i :: 0 <= i < |xs| ==> p(xs[i])) ==> r == xs
  {
    if |xs| == 0 then []
    else (if p(xs[0]) then [xs[0]] else []) + Filter(xs[1..], p)
  }

  /** Filtering a concatenation filters each part: the kept elements stay in
      their original order, each as often as it occurs. */
  lemma {:induction false} FilterAppend<T(!new)>(a: seq<T>, b: seq<T>, p: T -> bool)
    ensures Filter(a + b, p) == Filter(a, p) + Filter(b, p)
  {
    if |a| == 0 {
      assert a + b == b;
    } else {
      assert (a + b)[1..] == a[1..] + b;
      FilterAppend(a[1..], b, p);
    }
  }

  /** Applies `f` to every element, keeping order (JavaScript's `Array.prototype.map`). */
  function Map<T, U>(xs: seq<T>, f: T -> U): (r: seq<U>)
    ensures |r| == |xs|
    ensures forall i :: 0 <= i < |xs| ==> r[i] == f(xs[i])
  {
    seq(|xs|, i requires 0 <= i < |xs| => f(xs[i]))
  }

  lemma MapAppend<T, U>(a: seq<T>, b: seq<T>, f: T -> U)
    ensures Map(a + b, f) == Map(a, f) + Map(b, f)
  {
  }
}
