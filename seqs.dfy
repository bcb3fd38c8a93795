/** Option, and the order-preserving `filter` / `map` that the dashboard's
    list derivations are built from, with the facts about them that every
    derived list relies on. */
module Options {
  datatype Option<+T> = None | Some(value: T)
}

module Seqs {

  /** `a` is an order-preserving sub-list of `b` (greedy matching). */
  predicate IsSubsequence<T(==)>(a: seq<T>, b: seq<T>)
    decreases |b|
  {
    if a == [] then true
    else if b == [] then false
    else if a[0] == b[0] then IsSubsequence(a[1..], b[1..])
    else IsSubsequence(a, b[1..])
  }

  /** `Array.prototype.filter`: keeps, in order, the elements satisfying `f`. */
  function Filter<T>(f: T -> bool, s: seq<T>): (r: seq<T>)
    ensures |r| <= |s|
    ensures forall x :: x in r ==> x in s && f(x)
  {
    if s == [] then []
    else if f(s[0]) then [s[0]] + Filter(f, s[1..])
    else Filter(f, s[1..])
  }

  /** `Array.prototype.map`. */
  function Map<T, U>(f: T -> U, s: seq<T>): (r: seq<U>)
    ensures |r| == |s|
    ensures forall i :: 0 <= i < |s| ==> r[i] == f(s[i])
  {
    if s == [] then [] else [f(s[0])] + Map(f, s[1..])
  }

  /** Nothing that satisfies `f` is dropped. */
  lemma {:induction false} FilterKeeps<T>(f: T -> bool, s: seq<T>, x: T)
    requires x in s && f(x)
    ensures x in Filter(f, s)
  {
    if s[0] != x {
      FilterKeeps(f, s[1..], x);
    }
  }

  /** Membership in a filtered list, both directions. */
  lemma FilterMembership<T>(f: T -> bool, s: seq<T>, x: T)
    ensures x in Filter(f, s) <==> x in s && f(x)
  {
    if x in s && f(x) {
      FilterKeeps(f, s, x);
    }
  }

  lemma {:induction false} SubsequenceOfTail<T>(a: seq<T>, b: seq<T>)
    requires b != [] && IsSubsequence(a, b[1..])
    ensures IsSubsequence(a, b)
    decreases |b|, |a|, 1
  {
    if a != [] && a[0] == b[0] {
      SubsequenceDropHead(a, b[1..]);
    }
  }

  lemma {:induction false} SubsequenceDropHead<T>(a: seq<T>, c: seq<T>)
    requires a != [] && IsSubsequence(a, c)
    ensures IsSubsequence(a[1..], c)
    decreases |c| + 1, |a|, 0
  {
    if a[0] != c[0] {
      SubsequenceDropHead(a, c[1..]);
    }
    SubsequenceOfTail(a[1..], c);
  }

  /** The filter result is an order-preserving sub-list of its input. */
  lemma {:induction false} FilterIsSubsequence<T>(f: T -> bool, s: seq<T>)
    ensures IsSubsequence(Filter(f, s), s)
  {
    if s != [] {
      FilterIsSubsequence(f, s[1..]);
      if !f(s[0]) {
        SubsequenceOfTail(Filter(f, s), s);
      } else {
        assert ([s[0]] + Filter(f, s[1..]))[1..] == Filter(f, s[1..]);
      }
    }
  }

  /** Filtering twice with the same predicate equals filtering once. */
  lemma {:induction false} FilterIdempotent<T>(f: T -> bool, s: seq<T>)
    ensures Filter(f, Filter(f, s)) == Filter(f, s)
  {
    if s != [] {
      FilterIdempotent(f, s[1..]);
      if f(s[0]) {
        assert ([s[0]] + Filter(f, s[1..]))[1..] == Filter(f, s[1..]);
      }
    }
  }

  /** Filters by complementary predicates split the list: the lengths add up. */
  lemma {:induction false} FilterPartition<T>(f: T -> bool, g: T -> bool, s: seq<T>)
    requires forall x :: g(x) == !f(x)
    ensures |Filter(f, s)| + |Filter(g, s)| == |s|
  {
    if s != [] {
      FilterPartition(f, g, s[1..]);
    }
  }

  /** Projecting and then filtering by a test that only looks at what the
      projection keeps is the same as filtering and then projecting. */
  lemma {:induction false} MapFilterCommute<T, U>(p: T -> U, f: T -> bool, g: U -> bool, s: seq<T>)
    requires forall x :: g(p(x)) == f(x)
    ensures Map(p, Filter(f, s)) == Filter(g, Map(p, s))
  {
    if s != [] {
      MapFilterCommute(p, f, g, s[1..]);
      assert Map(p, s)[1..] == Map(p, s[1..]);
      if f(s[0]) {
        assert Map(p, [s[0]] + Filter(f, s[1..])) == [p(s[0])] + Map(p, Filter(f, s[1..]));
      }
    }
  }
}
