/** Failure-compatible result types shared by every module of the model.
    A Python call that either returns a value or raises an exception is
    modelled as a `Result`; a call that returns nothing (a validator) or
    raises is modelled as an `Outcome`. */
module Wrappers {

  datatype Option<+T> = None | Some(value: T)

  datatype Result<+R, +E> = Success(value: R) | Failure(error: E) {
    predicate IsFailure() {
      Failure?
    }

    function PropagateFailure<U>(): Result<U, E>
      requires Failure?
    {
      Failure(error)
    }

    function Extract(): R
      requires Success?
    {
      value
    }
  }

  datatype Outcome<+E> = Pass | Fail(error: E) {
    predicate IsFailure() {
      Fail?
    }

    function PropagateFailure<U>(): Result<U, E>
      requires Fail?
    {
      Failure(error)
    }
  }

  /** The elements of a sequence, as a set. */
  function Elems<T(!new)>(s: seq<T>): (r: set<T>)
    ensures forall x :: x in r <==> x in s
  {
    set x | x in s
  }

  /** The Python exception classes the model tells apart. */
  datatype PyException =
    | ValueError | TypeError | IndexError | KeyError | NotImplementedError
    | AttributeError | NameError | AssertionError | OverflowError
    | ZeroDivisionError | ArithmeticError | NetworkXError

  /** Runs `second` only when `first` passes; the first failure wins. */
  function AndThen<E>(first: Outcome<E>, second: Outcome<E>): (r: Outcome<E>)
    ensures r.Pass? <==> first.Pass? && second.Pass?
    ensures first.Fail? ==> r == first
    ensures first.Pass? ==> r == second
  {
    if first.Fail? then first else second
  }

  /** A loop of checks from index `from` on: the index of the first
      failing outcome, or `None` when every one passes. */
  function FirstFailAt<E>(outs: seq<Outcome<E>>, from: nat): (r: Option<nat>)
    requires from <= |outs|
    ensures r.None? <==> forall i :: from <= i < |outs| ==> outs[i].Pass?
    ensures r.Some? ==> from <= r.value < |outs| && outs[r.value].Fail? && forall j :: from <= j < r.value ==> outs[j].Pass?
    decreases |outs| - from
  {
    if from == |outs| then None
    else if outs[from].Fail? then Some(from)
    else FirstFailAt(outs, from + 1)
  }

  /** The lists one after another. */
  function Concat<T>(xss: seq<seq<T>>): (r: seq<T>)
    decreases |xss|
  {
    if |xss| == 0 then [] else xss[0] + Concat(xss[1..])
  }

  /** An element of the concatenation is an element of one of the lists,
      and the other way round. */
  lemma {:induction false} ConcatContains<T(!new)>(xss: seq<seq<T>>)
    ensures forall x :: x in Concat(xss) <==> exists i :: 0 <= i < |xss| && x in xss[i]
    decreases |xss|
  {
    if |xss| > 0 {
      ConcatContains(xss[1..]);
      assert forall i :: 1 <= i < |xss| ==> xss[i] == xss[1..][i - 1];
    }
  }

  /** Lists of between `lo` and `hi` elements concatenate to between `lo`
      and `hi` elements per list. */
  lemma {:induction false} ConcatLength<T(!new)>(xss: seq<seq<T>>, lo: nat, hi: nat)
    requires forall i :: 0 <= i < |xss| ==> lo <= |xss[i]| <= hi
    ensures lo * |xss| <= |Concat(xss)| <= hi * |xss|
    decreases |xss|
  {
    if |xss| > 0 {
      assert forall i :: 1 <= i < |xss| ==> xss[1..][i - 1] == xss[i];
      ConcatLength(xss[1..], lo, hi);
      assert lo * |xss| == lo + lo * (|xss| - 1);
      assert hi * |xss| == hi + hi * (|xss| - 1);
    }
  }

  /** A loop over results from index `from` on: the index of the first
      failure, or `None` when every one succeeds. */
  function FirstFailureAt<T, E>(outs: seq<Result<T, E>>, from: nat): (r: Option<nat>)
    requires from <= |outs|
    ensures r.None? <==> forall i :: from <= i < |outs| ==> outs[i].Success?
    ensures r.Some? ==> from <= r.value < |outs| && outs[r.value].Failure? && forall j :: from <= j < r.value ==> outs[j].Success?
    decreases |outs| - from
  {
    if from == |outs| then None
    else if outs[from].Failure? then Some(from)
    else FirstFailureAt(outs, from + 1)
  }

  /** The elements that satisfy `p`, in their original order. */
  function Filter<T(!new)>(p: T -> bool, s: seq<T>): (r: seq<T>)
    ensures |r| <= |s|
    ensures forall x :: x in r <==> x in s && p(x)
    decreases |s|
  {
    if |s| == 0 then [] else (if p(s[0]) then [s[0]] else []) + Filter(p, s[1..])
  }
}
