/** Order-preserving selection, the model of a MongoDB `find(query)` on a
    collection read in natural (insertion) order. */
module Filtering {

  /** The elements of `s` that satisfy `p`, in their original order.
      Defined on the prefix so that it lines up with the left folds
      (`Array.prototype.reduce`) the reports are summed with. */
  function Filter<T(!new)>(s: seq<T>, p: T -> bool): (r: seq<T>)
    ensures |r| <= |s|
    ensures forall i :: 0 <= i < |r| ==> p(r[i])
    ensures forall x :: x in r <==> x in s && p(x)
    ensures |s| == 1 ==> r == if p(s[0]) then s else []
    decreases |s|
  {
    if |s| == 0 then []
    else
      var init := s[..|s| - 1];
      var last := s[|s| - 1];
      assert s == init + [last];
      var r := Filter(init, p) + (if p(last) then [last] else []);
      r
  }

  /** Filtering keeps every selected element with its multiplicity. */
  lemma {:induction false} FilterMultiset<T(!new)>(s: seq<T>, p: T -> bool, x: T)
    ensures multiset(Filter(s, p))[x] == if p(x) then multiset(s)[x] else 0
    decreases |s|
  {
    if |s| > 0 {
      var init, last := s[..|s| - 1], s[|s| - 1];
      assert s == init + [last];
      FilterMultiset(init, p, x);
    }
  }

  /** With the one-element case of `Filter`, this fixes the answer for
      every collection, element by element in their original order. */
  lemma {:induction false} FilterAppend<T(!new)>(a: seq<T>, b: seq<T>, p: T -> bool)
    ensures Filter(a + b, p) == Filter(a, p) + Filter(b, p)
    decreases |b|
  {
    if |b| == 0 {
      assert a + b == a;
    } else {
      var b', last := b[..|b| - 1], b[|b| - 1];
      var tail := if p(last) then [last] else [];
      assert (a + b)[..|a + b| - 1] == a + b';
      assert (a + b)[|a + b| - 1] == last;
      assert Filter(a + b, p) == Filter(a + b', p) + tail;
      assert Filter(b, p) == Filter(b', p) + tail;
      FilterAppend(a, b', p);
    }
  }
}
