/** The stand-in for a nullable reference or array: None plays the role of
    null. */
module Wrappers {

  datatype Option<+T> = None | Some(value: T)

  /** The present values of `xs`, in order: what a loop that appends every
      non-null result to a list collects. */
  function Somes<T>(xs: seq<Option<T>>): (r: seq<T>)
    ensures |r| <= |xs|
    decreases |xs|
  {
    if |xs| == 0 then []
    else
      var last := xs[|xs| - 1];
      Somes(xs[..|xs| - 1]) + if last.Some? then [last.value] else []
  }

  /** Filtering keeps exactly the present values. */
  lemma {:induction false} SomesMembers<T>(xs: seq<Option<T>>, y: T)
    ensures y in Somes(xs) <==> Some(y) in xs
    decreases |xs|
  {
    if |xs| > 0 {
      var init := xs[..|xs| - 1];
      SomesMembers(init, y);
      assert xs == init + [xs[|xs| - 1]];
    }
  }

  /** Nothing is dropped when every entry is present. */
  lemma {:induction false} SomesAllPresent<T>(xs: seq<Option<T>>)
    requires forall i :: 0 <= i < |xs| ==> xs[i].Some?
    ensures |Somes(xs)| == |xs|
    ensures forall i :: 0 <= i < |xs| ==> Somes(xs)[i] == xs[i].value
    decreases |xs|
  {
    if |xs| > 0 {
      SomesAllPresent(xs[..|xs| - 1]);
    }
  }

  /** Filtering distributes over concatenation: a prefix's results come
      first, in order. */
  lemma {:induction false} SomesConcat<T>(xs: seq<Option<T>>, ys: seq<Option<T>>)
    ensures Somes(xs + ys) == Somes(xs) + Somes(ys)
    decreases |ys|
  {
    if |ys| > 0 {
      var init := ys[..|ys| - 1];
      SomesConcat(xs, init);
      assert (xs + ys)[..|xs + ys| - 1] == xs + init;
    } else {
      assert xs + ys == xs;
    }
  }
}
