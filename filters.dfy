/** Order-preserving selection from a sequence, the shape of every equality `where` query. */
module Filters {

  /** The elements of `q` that satisfy `p`, in their original order. */
  function Filter<T(!new)>(q: seq<T>, p: T -> bool): (r: seq<T>)
    ensures |r| <= |q|
    ensures forall x :: x in r <==> x in q && p(x)
  {
    if q == [] then []
    else if p(q[0]) then [q[0]] + Filter(q[1..], p) else Filter(q[1..], p)
  }

  /** A filter keeps each element at most as often as the input has it. */
  lemma {:induction false} FilterSubMultiset<T(!new)>(q: seq<T>, p: T -> bool)
    ensures multiset(Filter(q, p)) <= multiset(q)
  {
    if q != [] {
      FilterSubMultiset(q[1..], p);
      assert q == [q[0]] + q[1..];
    }
  }

  /** Filtering a concatenation filters each part: the selection keeps input order. */
  lemma {:induction false} FilterConcat<T(!new)>(a: seq<T>, b: seq<T>, p: T -> bool)
    ensures Filter(a + b, p) == Filter(a, p) + Filter(b, p)
  {
    if a == [] {
      assert a + b == b;
    } else {
      assert (a + b)[0] == a[0];
      assert (a + b)[1..] == a[1..] + b;
      FilterConcat(a[1..], b, p);
    }
  }

  /** A filter that every element passes changes nothing. */
  lemma {:induction false} FilterAllPass<T(!new)>(q: seq<T>, p: T -> bool)
    requires forall i :: 0 <= i < |q| ==> p(q[i])
    ensures Filter(q, p) == q
  {
    if q != [] {
      assert p(q[0]);
      FilterAllPass(q[1..], p);
      assert [q[0]] + q[1..] == q;
    }
  }

  /** Applying the same filter twice equals applying it once. */
  lemma FilterIdempotent<T(!new)>(q: seq<T>, p: T -> bool)
    ensures Filter(Filter(q, p), p) == Filter(q, p)
  {
    var r := Filter(q, p);
    forall i | 0 <= i < |r| ensures p(r[i]) {
      assert r[i] in r;
    }
    FilterAllPass(r, p);
  }
}
