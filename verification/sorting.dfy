/** Stable sorting by an integer key, most recent (largest key) first.

    Every ordered listing of the backend (`.sort({ timestamp: -1 })`,
    `.sort({ deliveryDate: -1 })` and the activity feed's `Array.sort`
    with comparator `b - a`) is modelled by `SortDesc`. JavaScript's
    `Array.prototype.sort` is stable; MongoDB leaves the order of equal
    keys unspecified, and the model fixes it to insertion order.
 */
module Sorting {

  /** `s` is ordered by `key`, non-increasing. */
  ghost predicate SortedDesc<T>(s: seq<T>, key: T -> int) {
    forall i, j :: 0 <= i < j < |s| ==> key(s[i]) >= key(s[j])
  }

  /** The subsequence of `s` whose key is `k`, in order. Stability means
      the sort leaves this subsequence unchanged for every `k`. */
  function WithKey<T>(s: seq<T>, key: T -> int, k: int): seq<T> {
    if |s| == 0 then []
    else (if key(s[0]) == k then [s[0]] else []) + WithKey(s[1..], key, k)
  }

  /** Inserts `x` into the sorted `s` in front of every element whose
      key is not larger than its own. */
  function Insert<T>(x: T, s: seq<T>, key: T -> int): (r: seq<T>)
    requires SortedDesc(s, key)
    ensures SortedDesc(r, key)
    ensures multiset(r) == multiset(s) + multiset{x}
    ensures |r| == |s| + 1
    ensures r[0] == x || (|s| > 0 && r[0] == s[0])
  {
    if |s| == 0 || key(x) >= key(s[0]) then
      SortedCons(x, s, key);
      [x] + s
    else
      SortedTail(s, key);
      var t := Insert(x, s[1..], key);
      assert key(s[0]) >= key(t[0]) by {
        if |s| > 1 {
          assert t[0] == x || t[0] == s[1];
        }
      }
      SortedCons(s[0], t, key);
      assert s == [s[0]] + s[1..];
      assert multiset(s) == multiset{s[0]} + multiset(s[1..]);
      [s[0]] + t
  }

  /** Stable sort, largest key first. */
  function SortDesc<T>(s: seq<T>, key: T -> int): (r: seq<T>)
    ensures SortedDesc(r, key)
    ensures multiset(r) == multiset(s)
    ensures |r| == |s|
  {
    if |s| == 0 then []
    else
      assert s == [s[0]] + s[1..];
      Insert(s[0], SortDesc(s[1..], key), key)
  }

  lemma {:induction false} WithKeyAppend<T>(a: seq<T>, b: seq<T>, key: T -> int, k: int)
    ensures WithKey(a + b, key, k) == WithKey(a, key, k) + WithKey(b, key, k)
    decreases |a|
  {
    if |a| == 0 {
      assert a + b == b;
    } else {
      var head := if key(a[0]) == k then [a[0]] else [];
      assert (a + b)[0] == a[0];
      assert (a + b)[1..] == a[1..] + b;
      assert WithKey(a + b, key, k) == head + WithKey(a[1..] + b, key, k);
      assert WithKey(a, key, k) == head + WithKey(a[1..], key, k);
      WithKeyAppend(a[1..], b, key, k);
    }
  }

  lemma WithKeySingle<T>(x: T, key: T -> int, k: int)
    ensures WithKey([x], key, k) == if key(x) == k then [x] else []
  {
    assert [x][1..] == [];
  }

  lemma SortedCons<T>(y: T, t: seq<T>, key: T -> int)
    requires SortedDesc(t, key)
    requires |t| == 0 || key(y) >= key(t[0])
    ensures SortedDesc([y] + t, key)
  {
    var r := [y] + t;
    forall i, j | 0 <= i < j < |r| ensures key(r[i]) >= key(r[j]) {
      assert r[j] == t[j - 1];
      if i > 0 {
        assert r[i] == t[i - 1];
      } else if j > 1 {
        assert key(t[0]) >= key(t[j - 1]);
      }
    }
  }

  lemma SortedTail<T>(s: seq<T>, key: T -> int)
    requires |s| > 0 && SortedDesc(s, key)
    ensures SortedDesc(s[1..], key)
  {
    forall i, j | 0 <= i < j < |s| - 1 ensures key(s[1..][i]) >= key(s[1..][j]) {
      assert s[1..][i] == s[i + 1] && s[1..][j] == s[j + 1];
    }
  }

  /** Inserting `x` puts it in front of every element that has its key. */
  lemma {:induction false} InsertStable<T>(x: T, s: seq<T>, key: T -> int, k: int)
    requires SortedDesc(s, key)
    ensures WithKey(Insert(x, s, key), key, k)
         == (if key(x) == k then [x] else []) + WithKey(s, key, k)
    decreases |s|
  {
    WithKeySingle(x, key, k);
    if |s| == 0 || key(x) >= key(s[0]) {
      assert Insert(x, s, key) == [x] + s;
      WithKeyAppend([x], s, key, k);
    } else {
      SortedTail(s, key);
      InsertStable(x, s[1..], key, k);
      InsertStableStep(x, s, key, k);
    }
  }

  /** The step of `InsertStable` where `x` goes past the head of `s`. */
  lemma InsertStableStep<T>(x: T, s: seq<T>, key: T -> int, k: int)
    requires |s| > 0 && SortedDesc(s, key) && key(x) < key(s[0])
    requires SortedDesc(s[1..], key)
    requires WithKey(Insert(x, s[1..], key), key, k)
          == (if key(x) == k then [x] else []) + WithKey(s[1..], key, k)
    ensures WithKey(Insert(x, s, key), key, k)
         == (if key(x) == k then [x] else []) + WithKey(s, key, k)
  {
    var hx := if key(x) == k then [x] else [];
    var t := Insert(x, s[1..], key);
    var w1 := WithKey(s[1..], key, k);
    WithKeySingle(s[0], key, k);
    var h0 := WithKey([s[0]], key, k);
    assert Insert(x, s, key) == [s[0]] + t;
    WithKeyAppend([s[0]], t, key, k);
    assert WithKey(Insert(x, s, key), key, k) == h0 + (hx + w1);
    assert WithKey(s, key, k) == h0 + w1;
    // x sorts after s[0], so at most one of them has key k
    if key(x) == k {
      assert h0 == [];
      assert h0 + w1 == w1;
      assert h0 + (hx + w1) == hx + w1;
    } else {
      assert hx == [];
      assert hx + (h0 + w1) == h0 + w1;
      assert hx + w1 == w1;
    }
  }

  /** The sort is stable: elements with equal keys keep their input order. */
  lemma {:induction false} SortDescStable<T>(s: seq<T>, key: T -> int, k: int)
    ensures WithKey(SortDesc(s, key), key, k) == WithKey(s, key, k)
    decreases |s|
  {
    if |s| > 0 {
      SortDescStable(s[1..], key, k);
      InsertStable(s[0], SortDesc(s[1..], key), key, k);
    }
  }

  /** A sorted permutation: what every ordered listing promises. */
  lemma SortDescIsOrderedPermutation<T>(s: seq<T>, key: T -> int)
    ensures SortedDesc(SortDesc(s, key), key)
    ensures multiset(SortDesc(s, key)) == multiset(s)
    ensures forall x :: x in SortDesc(s, key) <==> x in s
  {
    var r := SortDesc(s, key);
    forall x ensures x in r <==> x in s {
      assert x in r <==> x in multiset(r);
      assert x in s <==> x in multiset(s);
    }
  }

  /** No element occurs twice. */
  ghost predicate Distinct<T>(s: seq<T>) {
    forall i, j :: 0 <= i < j < |s| ==> s[i] != s[j]
  }

  lemma {:induction false} DistinctCountAtMostOne<T>(s: seq<T>, x: T)
    requires Distinct(s)
    ensures multiset(s)[x] <= 1
    decreases |s|
  {
    if |s| > 0 {
      assert s == [s[0]] + s[1..];
      DistinctCountAtMostOne(s[1..], x);
      if x == s[0] {
        assert x !in s[1..];
      }
    }
  }

  /** A permutation of a sequence without repetitions has none either. */
  lemma DistinctPermutation<T>(s: seq<T>, r: seq<T>)
    requires Distinct(s)
    requires multiset(r) == multiset(s)
    ensures Distinct(r)
  {
    forall i, j | 0 <= i < j < |r| ensures r[i] != r[j] {
      if r[i] == r[j] {
        var x := r[i];
        assert r == r[..j] + r[j..];
        assert x in r[..j];
        assert x in r[j..];
        assert multiset(r)[x] == multiset(r[..j])[x] + multiset(r[j..])[x];
        DistinctCountAtMostOne(s, x);
        assert false;
      }
    }
  }
}
