/** Order-preserving selection on sequences: the list comprehension
    `[x for x in s if p(x)]` and the subsequence relation it establishes. */
module Seqs {

  /** a can be obtained from b by deleting elements, keeping the rest in order. */
  predicate IsSubsequence<T(==)>(a: seq<T>, b: seq<T>)
    decreases |b|
  {
    if a == [] then true
    else if b == [] then false
    else if a[0] == b[0] then IsSubsequence(a[1..], b[1..])
    else IsSubsequence(a, b[1..])
  }

  /** [x for x in s if p(x)]. */
  function Filter<T>(s: seq<T>, p: T -> bool): (r: seq<T>)
    ensures IsSubsequence(r, s)
    ensures forall x :: x in r ==> p(x) && x in s
    ensures forall x :: x in s && p(x) ==> x in r
  {
    if s == [] then []
    else if p(s[0]) then
      var rest := Filter(s[1..], p);
      assert ([s[0]] + rest)[1..] == rest;
      [s[0]] + rest
    else
      Filter(s[1..], p)
  }

  /** Filtering twice is filtering once by the conjunction. */
  lemma {:induction false} FilterTwice<T>(s: seq<T>, p: T -> bool, q: T -> bool, pq: T -> bool)
    requires forall x :: pq(x) == (p(x) && q(x))
    ensures Filter(Filter(s, p), q) == Filter(s, pq)
  {
    if s != [] {
      FilterTwice(s[1..], p, q, pq);
      if p(s[0]) {
        assert Filter(s, p) == [s[0]] + Filter(s[1..], p);
        assert Filter(s, p)[1..] == Filter(s[1..], p);
      }
    }
  }

  /** Filtering by a predicate that holds everywhere keeps the whole sequence. */
  lemma {:induction false} FilterAll<T>(s: seq<T>, p: T -> bool)
    requires forall x :: p(x)
    ensures Filter(s, p) == s
  {
    if s != [] {
      FilterAll(s[1..], p);
    }
  }

  /** Filters by predicates that agree everywhere agree. */
  lemma {:induction false} FilterSame<T>(s: seq<T>, p: T -> bool, q: T -> bool)
    requires forall x :: p(x) == q(x)
    ensures Filter(s, p) == Filter(s, q)
  {
    if s != [] {
      FilterSame(s[1..], p, q);
    }
  }

  /** `if criterion: s = [x for x in s if p(x)]`: filter only when active. */
  function FilterWhen<T>(active: bool, s: seq<T>, p: T -> bool): seq<T>
  {
    if active then Filter(s, p) else s
  }

  /** A conditional filter is a filter by "inactive or p". */
  lemma FilterWhenIsFilter<T>(active: bool, s: seq<T>, p: T -> bool, q: T -> bool)
    requires forall x :: q(x) == (active ==> p(x))
    ensures FilterWhen(active, s, p) == Filter(s, q)
  {
    if active {
      FilterSame(s, p, q);
    } else {
      FilterAll(s, q);
    }
  }

  /** Two conditional filters in a row are one filter by both conditions. */
  lemma FilterWhenTwice<T>(a1: bool, p1: T -> bool, a2: bool, p2: T -> bool, s: seq<T>, q: T -> bool)
    requires forall x :: q(x) == ((a1 ==> p1(x)) && (a2 ==> p2(x)))
    ensures FilterWhen(a2, FilterWhen(a1, s, p1), p2) == Filter(s, q)
  {
    var q1 := (x: T) => a1 ==> p1(x);
    var q2 := (x: T) => a2 ==> p2(x);
    FilterWhenIsFilter(a1, s, p1, q1);
    FilterWhenIsFilter(a2, FilterWhen(a1, s, p1), p2, q2);
    FilterTwice(s, q1, q2, q);
  }

  /** Removing the element at p shifts the later elements down by one and
      keeps every value other than s[p]. */
  lemma RemoveAt<T>(s: seq<T>, p: nat)
    requires p < |s|
    ensures |s[..p] + s[p + 1..]| == |s| - 1
    ensures forall j :: 0 <= j < |s| - 1 ==> (s[..p] + s[p + 1..])[j] == if j < p then s[j] else s[j + 1]
    ensures forall x :: x in s && x != s[p] ==> x in s[..p] + s[p + 1..]
  {
    var r := s[..p] + s[p + 1..];
    forall x | x in s && x != s[p]
      ensures x in r
    {
      var q :| 0 <= q < |s| && s[q] == x;
      if q < p {
        assert r[q] == x;
      } else {
        assert r[q - 1] == x;
      }
    }
  }
}
