/**
 * The two loop shapes the program uses over its catalog: append one result per item, and
 * extend with a list of results per item.
 */
module Sequences {
  /** Applies `f` to every element, in order. */
  function MapSeq<A, B>(f: A -> B, xs: seq<A>): seq<B>
  {
    if |xs| == 0 then [] else MapSeq(f, xs[..|xs| - 1]) + [f(xs[|xs| - 1])]
  }

  lemma {:induction false} MapSeqIndex<A, B>(f: A -> B, xs: seq<A>)
    ensures |MapSeq(f, xs)| == |xs|
    ensures forall i :: 0 <= i < |xs| ==> MapSeq(f, xs)[i] == f(xs[i])
  {
    if |xs| > 0 {
      var init := xs[..|xs| - 1];
      MapSeqIndex(f, init);
      assert forall i :: 0 <= i < |init| ==> init[i] == xs[i];
    }
  }

  /** Concatenates the lists `f` gives for every element, in order. */
  function ConcatMap<A, B>(f: A -> seq<B>, xs: seq<A>): seq<B>
  {
    if |xs| == 0 then [] else ConcatMap(f, xs[..|xs| - 1]) + f(xs[|xs| - 1])
  }

  /** The concatenation is empty exactly when every element contributes nothing. */
  lemma {:induction false} ConcatMapEmpty<A, B>(f: A -> seq<B>, xs: seq<A>)
    ensures ConcatMap(f, xs) == [] <==> forall i :: 0 <= i < |xs| ==> f(xs[i]) == []
  {
    if |xs| > 0 {
      var init := xs[..|xs| - 1];
      ConcatMapEmpty(f, init);
      assert forall i :: 0 <= i < |init| ==> init[i] == xs[i];
      assert |ConcatMap(f, xs)| == |ConcatMap(f, init)| + |f(xs[|xs| - 1])|;
    }
  }

  /** Every element of the concatenation comes from some element's list. */
  lemma {:induction false} ConcatMapMember<A, B>(f: A -> seq<B>, xs: seq<A>, y: B)
    requires y in ConcatMap(f, xs)
    ensures exists i :: 0 <= i < |xs| && y in f(xs[i])
  {
    var init := xs[..|xs| - 1];
    var last := xs[|xs| - 1];
    if y in ConcatMap(f, init) {
      ConcatMapMember(f, init, y);
      var i :| 0 <= i < |init| && y in f(init[i]);
      assert init[i] == xs[i];
    } else {
      assert y in f(last);
    }
  }

  /** The elements satisfying `p`, in order. */
  function Filter<A(!new)>(p: A -> bool, xs: seq<A>): (r: seq<A>)
    ensures |r| <= |xs|
    ensures forall y :: y in r <==> y in xs && p(y)
  {
    if |xs| == 0 then []
    else
      var init := xs[..|xs| - 1];
      assert xs == init + [xs[|xs| - 1]];
      Filter(p, init) + if p(xs[|xs| - 1]) then [xs[|xs| - 1]] else []
  }
}
