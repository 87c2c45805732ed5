/** Facts about sequences that the loops and inductions over them share. */
module Sequences {
  import opened Wrappers

  /** f applied to each element in order; None as soon as one application gives None. */
  function MapAll<A, B>(f: A -> Option<B>, xs: seq<A>): Option<seq<B>>
    decreases |xs|
  {
    if xs == [] then Some([])
    else
      var before := MapAll(f, xs[..|xs| - 1]);
      var y := f(xs[|xs| - 1]);
      if before.None? || y.None? then None else Some(before.value + [y.value])
  }

  /** MapAll succeeds exactly when every application does, and then holds their values, in order. */
  lemma {:induction false} MapAllExactly<A, B>(f: A -> Option<B>, xs: seq<A>)
    ensures MapAll(f, xs).Some? <==> forall i :: 0 <= i < |xs| ==> f(xs[i]).Some?
    ensures MapAll(f, xs).Some? ==>
      |MapAll(f, xs).value| == |xs| && forall i :: 0 <= i < |xs| ==> MapAll(f, xs).value[i] == f(xs[i]).value
    decreases |xs|
  {
    if xs != [] {
      var init := xs[..|xs| - 1];
      MapAllExactly(f, init);
      assert forall i :: 0 <= i < |init| ==> init[i] == xs[i];
    }
  }
  /** A prefix one longer is the shorter prefix followed by the next element. */
  lemma PrefixSnoc<T>(s: seq<T>, i: nat)
    requires i < |s|
    ensures s[..i + 1] == s[..i] + [s[i]]
  {
  }

  /** An element of a non-empty sequence is its last element or lies before it. */
  lemma InitOrLast<T>(s: seq<T>, x: T)
    requires s != [] && x in s
    ensures x == s[|s| - 1] || x in s[..|s| - 1]
  {
    assert s == s[..|s| - 1] + [s[|s| - 1]];
  }
}
