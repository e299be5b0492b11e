/** Small value types and list helpers shared by every part of the model. */
module Common {

  /** A value that may be absent: JavaScript's `null`/`undefined` (or a falsy empty field). */
  datatype Option<T> = None | Some(value: T) {
    /** `a || b` on two possibly-absent values: the first one that is present. */
    function OrElse(other: Option<T>): Option<T> {
      if Some? then this else other
    }
  }

  /** The outcome of an operation that can fail with a named error. */
  datatype Result<T, E> = Ok(value: T) | Err(error: E)

  /** `Array.prototype.filter`: the elements satisfying `p`, in their original order. */
  function Filter<T(==,!new)>(xs: seq<T>, p: T -> bool): (r: seq<T>)
    ensures |r| <= |xs|
    ensures forall x :: x in r <==> x in xs && p(x)
    ensures multiset(r) <= multiset(xs)
  {
    if xs == [] then []
    else
      assert xs == [xs[0]] + xs[1..];
      (if p(xs[0]) then [xs[0]] else []) + Filter(xs[1..], p)
  }

  /** Filtering a concatenation filters each part and keeps them in order:
      together with the one-element case this says the filter keeps the
      relative order of what it retains. */
  lemma {:induction false} FilterConcat<T(!new)>(xs: seq<T>, ys: seq<T>, p: T -> bool)
    ensures Filter(xs + ys, p) == Filter(xs, p) + Filter(ys, p)
  {
    if xs == [] {
      assert xs + ys == ys;
    } else {
      assert (xs + ys)[1..] == xs[1..] + ys;
      FilterConcat(xs[1..], ys, p);
    }
  }

  /** Filtering with a predicate and with its negation splits the list:
      every element lands in exactly one of the two parts. */
  lemma {:induction false} FilterSplit<T(!new)>(xs: seq<T>, p: T -> bool, q: T -> bool)
    requires forall x :: x in xs ==> (q(x) <==> !p(x))
    ensures multiset(Filter(xs, p)) + multiset(Filter(xs, q)) == multiset(xs)
  {
    if xs != [] {
      var x, rest := xs[0], xs[1..];
      assert xs == [x] + rest;
      FilterSplit(rest, p, q);
      FilterStep(x, rest, p);
      FilterStep(x, rest, q);
      assert q(x) <==> !p(x) by { assert x in xs; }
    }
  }

  /** Filtering a list with a head: the head counts once if it passes. */
  lemma FilterStep<T(!new)>(x: T, rest: seq<T>, p: T -> bool)
    ensures multiset(Filter([x] + rest, p)) ==
              (if p(x) then multiset{x} else multiset{}) + multiset(Filter(rest, p))
  {
    assert ([x] + rest)[0] == x && ([x] + rest)[1..] == rest;
  }

  /** A filter that rejects every element keeps nothing. */
  lemma {:induction false} FilterNone<T(!new)>(xs: seq<T>, p: T -> bool)
    requires forall x :: x in xs ==> !p(x)
    ensures Filter(xs, p) == []
  {
    if xs != [] {
      FilterNone(xs[1..], p);
    }
  }

  /** A filter that accepts every element keeps the whole list. */
  lemma {:induction false} FilterAll<T(!new)>(xs: seq<T>, p: T -> bool)
    requires forall x :: x in xs ==> p(x)
    ensures Filter(xs, p) == xs
  {
    if xs != [] {
      FilterAll(xs[1..], p);
      assert xs == [xs[0]] + xs[1..];
    }
  }

  /** The first element a filter keeps is the first element of the list that
      satisfies the predicate. */
  lemma {:induction false} FilterHead<T(!new)>(xs: seq<T>, p: T -> bool)
    requires Filter(xs, p) != []
    ensures exists k :: 0 <= k < |xs| && xs[k] == Filter(xs, p)[0] && p(xs[k]) &&
                        forall j :: 0 <= j < k ==> !p(xs[j])
  {
    if !p(xs[0]) {
      FilterHead(xs[1..], p);
      var k :| 0 <= k < |xs[1..]| && xs[1..][k] == Filter(xs[1..], p)[0] && p(xs[1..][k]) &&
               forall j :: 0 <= j < k ==> !p(xs[1..][j]);
      assert xs[k + 1] == Filter(xs, p)[0];
    }
  }

  /** `Array.prototype.findIndex`: the first index whose element satisfies `p`, or -1. */
  function FindIndex<T>(xs: seq<T>, p: T -> bool): (k: int)
    ensures -1 <= k < |xs|
    ensures k == -1 <==> forall i :: 0 <= i < |xs| ==> !p(xs[i])
    ensures k >= 0 ==> p(xs[k]) && forall i :: 0 <= i < k ==> !p(xs[i])
  {
    if xs == [] then -1
    else if p(xs[0]) then 0
    else
      var k := FindIndex(xs[1..], p);
      if k == -1 then -1 else k + 1
  }
}
