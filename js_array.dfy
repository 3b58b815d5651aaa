/**
  `Array.prototype.filter` over sequences, and the facts the front end's
  filters rely on: membership, order and the two extreme cases.
*/
module JsArray {

  /** `a.filter(p)`: the elements of `a` that satisfy `p`, in their order. */
  function Filter<T(!new)>(a: seq<T>, p: T -> bool): (r: seq<T>)
    ensures |r| <= |a|
    ensures forall x :: x in r <==> x in a && p(x)
    ensures forall i :: 0 <= i < |r| ==> p(r[i])
  {
    if a == [] then [] else (if p(a[0]) then [a[0]] else []) + Filter(a[1..], p)
  }

  /** Filtering a concatenation filters each part: the kept elements stay in order. */
  lemma {:induction false} FilterAppend<T(!new)>(a: seq<T>, b: seq<T>, p: T -> bool)
    ensures Filter(a + b, p) == Filter(a, p) + Filter(b, p)
  {
    if a != [] {
      assert (a + b)[1..] == a[1..] + b;
      FilterAppend(a[1..], b, p);
      assert Filter(a + b, p) == (if p(a[0]) then [a[0]] else []) + Filter(a[1..] + b, p);
    } else {
      assert a + b == b;
    }
  }

  /** When every element passes, the filter gives back the whole sequence. */
  lemma {:induction false} FilterAll<T(!new)>(a: seq<T>, p: T -> bool)
    requires forall i :: 0 <= i < |a| ==> p(a[i])
    ensures Filter(a, p) == a
  {
    if a != [] {
      FilterAll(a[1..], p);
    }
  }

  /** Filtering twice by the same test changes nothing the second time. */
  lemma FilterIdempotent<T(!new)>(a: seq<T>, p: T -> bool)
    ensures Filter(Filter(a, p), p) == Filter(a, p)
  {
    FilterAll(Filter(a, p), p);
  }

  /** `sub` is `s` with some elements left out and the rest in their order. */
  ghost predicate Subsequence<T>(sub: seq<T>, s: seq<T>)
    decreases |s|
  {
    if sub == [] then true
    else if s == [] then false
    else if sub[0] == s[0] then Subsequence(sub[1..], s[1..])
    else Subsequence(sub, s[1..])
  }

  /** A filter only leaves elements out: what it keeps is in its original order. */
  lemma {:induction false} FilterSubsequence<T(!new)>(a: seq<T>, p: T -> bool)
    ensures Subsequence(Filter(a, p), a)
  {
    if a != [] {
      FilterSubsequence(a[1..], p);
      var rest := Filter(a[1..], p);
      if p(a[0]) {
        assert Filter(a, p) == [a[0]] + rest;
        assert ([a[0]] + rest)[1..] == rest;
      } else {
        // what is kept passes the test and `a[0]` does not, so the head is skipped
        assert Filter(a, p) == rest;
        assert rest != [] ==> rest[0] != a[0];
      }
    }
  }

  /** Two tests that agree on every element keep the same elements. */
  lemma {:induction false} FilterEquivalent<T(!new)>(a: seq<T>, p: T -> bool, q: T -> bool)
    requires forall x :: p(x) == q(x)
    ensures Filter(a, p) == Filter(a, q)
  {
    if a != [] {
      FilterEquivalent(a[1..], p, q);
    }
  }

  /** Filtering by `p` and then by `q` is filtering once by a test that asks both. */
  lemma {:induction false} FilterFilter<T(!new)>(a: seq<T>, p: T -> bool, q: T -> bool, both: T -> bool)
    requires forall x :: both(x) == (p(x) && q(x))
    ensures Filter(Filter(a, p), q) == Filter(a, both)
  {
    if a != [] {
      FilterFilter(a[1..], p, q, both);
      var rest := Filter(a[1..], p);
      if p(a[0]) {
        assert Filter(a, p) == [a[0]] + rest;
        assert ([a[0]] + rest)[1..] == rest;
      } else {
        assert Filter(a, p) == rest;
      }
    }
  }

  /** When no element passes, nothing is kept. */
  lemma {:induction false} FilterNone<T(!new)>(a: seq<T>, p: T -> bool)
    requires forall i :: 0 <= i < |a| ==> !p(a[i])
    ensures Filter(a, p) == []
  {
    if a != [] {
      assert forall i :: 0 <= i < |a| - 1 ==> a[1..][i] == a[i + 1];
      FilterNone(a[1..], p);
    }
  }
}
