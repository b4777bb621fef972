/** Order-preserving selection from a sequence, the shape of every scan in the model. */
module Sequences {

  /** The elements of `xs` that satisfy `keep`, in the order they appear in `xs`. */
  function Filter<T>(xs: seq<T>, keep: T -> bool): (ys: seq<T>)
    ensures |ys| <= |xs|
    ensures forall i :: 0 <= i < |ys| ==> ys[i] in xs && keep(ys[i])
    ensures forall i :: 0 <= i < |xs| && keep(xs[i]) ==> xs[i] in ys
  {
    if xs == [] then []
    else (if keep(xs[0]) then [xs[0]] else []) + Filter(xs[1..], keep)
  }

  /** An element of the selection is an element of the input that satisfies the condition. */
  lemma FilterMember<T>(xs: seq<T>, keep: T -> bool, y: T)
    requires y in Filter(xs, keep)
    ensures y in xs && keep(y)
  {
  }

  /** An element of the input that satisfies the condition is selected. */
  lemma FilterKeeps<T>(xs: seq<T>, keep: T -> bool, y: T)
    requires y in xs && keep(y)
    ensures y in Filter(xs, keep)
  {
  }

  /** Selection distributes over concatenation: the relative order of the kept elements is the order of `xs`. */
  lemma {:induction false} FilterAppend<T>(xs: seq<T>, zs: seq<T>, keep: T -> bool)
    ensures Filter(xs + zs, keep) == Filter(xs, keep) + Filter(zs, keep)
  {
    if xs == [] {
      assert xs + zs == zs;
    } else {
      assert (xs + zs)[1..] == xs[1..] + zs;
      FilterAppend(xs[1..], zs, keep);
    }
  }

  /** Filtering twice is filtering once by the conjunction of the two conditions. */
  lemma {:induction false} FilterTwice<T>(xs: seq<T>, first: T -> bool, second: T -> bool, both: T -> bool)
    requires forall x :: both(x) == (first(x) && second(x))
    ensures Filter(Filter(xs, first), second) == Filter(xs, both)
  {
    if xs != [] {
      FilterTwice(xs[1..], first, second, both);
      var head := if first(xs[0]) then [xs[0]] else [];
      FilterAppend(head, Filter(xs[1..], first), second);
    }
  }

  /** Everything is kept when every element satisfies the condition. */
  lemma {:induction false} FilterAll<T>(xs: seq<T>, keep: T -> bool)
    requires forall i :: 0 <= i < |xs| ==> keep(xs[i])
    ensures Filter(xs, keep) == xs
  {
    if xs != [] {
      FilterAll(xs[1..], keep);
      assert [xs[0]] + xs[1..] == xs;
    }
  }

  /** Nothing is kept when no element satisfies the condition. */
  lemma FilterNone<T>(xs: seq<T>, keep: T -> bool)
    requires forall i :: 0 <= i < |xs| ==> !keep(xs[i])
    ensures Filter(xs, keep) == []
  {
  }
}
