/** `Array.prototype.map` and `Array.prototype.filter`, and the facts about them
    that the store and the views rely on. */
module Lists {

  function Map<T, U>(s: seq<T>, f: T -> U): (r: seq<U>)
    ensures |r| == |s| && forall i :: 0 <= i < |s| ==> r[i] == f(s[i])
  {
    if s == [] then [] else [f(s[0])] + Map(s[1..], f)
  }

  /** Keeps, in order, the elements that satisfy `p`. */
  function Filter<T(!new)>(s: seq<T>, p: T -> bool): (r: seq<T>)
    ensures |r| <= |s|
    ensures forall x :: x in r <==> x in s && p(x)
    ensures multiset(r) <= multiset(s)
  {
    if s == [] then []
    else
      var rest := Filter(s[1..], p);
      assert s == [s[0]] + s[1..];
      if p(s[0]) then [s[0]] + rest else rest
  }

  /** `s` is `a` and `b` merged without reordering either: every element of `s` is taken,
      in order, from the front of exactly one of them. */
  ghost predicate Interleaving<T>(s: seq<T>, a: seq<T>, b: seq<T>)
    decreases |s|
  {
    if s == [] then a == [] && b == []
    else
      || (a != [] && a[0] == s[0] && Interleaving(s[1..], a[1..], b))
      || (b != [] && b[0] == s[0] && Interleaving(s[1..], a, b[1..]))
  }

  /** Filtering by a predicate and by its negation splits a list into two
      order-preserving parts that together hold every element exactly once. */
  lemma {:induction false} FilterPartition<T(!new)>(s: seq<T>, p: T -> bool, q: T -> bool)
    requires forall x :: q(x) == !p(x)
    ensures Interleaving(s, Filter(s, p), Filter(s, q))
  {
    if s != [] {
      FilterPartition(s[1..], p, q);
      var fp, fq := Filter(s[1..], p), Filter(s[1..], q);
      assert s == [s[0]] + s[1..];
      if p(s[0]) {
        assert Filter(s, p) == [s[0]] + fp && Filter(s, q) == fq;
        InterleavingFront(s, Filter(s, p), fq, true);
      } else {
        assert Filter(s, p) == fp && Filter(s, q) == [s[0]] + fq;
        InterleavingFront(s, fp, Filter(s, q), false);
      }
    }
  }

  /** The two parts hold between them every element of the list, as often as it occurs. */
  lemma FilterPartitionCount<T(!new)>(s: seq<T>, p: T -> bool, q: T -> bool)
    requires forall x :: q(x) == !p(x)
    ensures multiset(Filter(s, p)) + multiset(Filter(s, q)) == multiset(s)
    ensures |Filter(s, p)| + |Filter(s, q)| == |s|
  {
    FilterPartition(s, p, q);
    InterleavingMultiset(s, Filter(s, p), Filter(s, q));
  }

  /** An interleaving holds exactly the elements of its two parts. */
  lemma {:induction false} InterleavingMultiset<T>(s: seq<T>, a: seq<T>, b: seq<T>)
    requires Interleaving(s, a, b)
    ensures multiset(s) == multiset(a) + multiset(b)
    ensures |s| == |a| + |b|
  {
    if s != [] {
      assert s == [s[0]] + s[1..];
      if a != [] && a[0] == s[0] && Interleaving(s[1..], a[1..], b) {
        InterleavingMultiset(s[1..], a[1..], b);
        assert a == [a[0]] + a[1..];
      } else {
        InterleavingMultiset(s[1..], a, b[1..]);
        assert b == [b[0]] + b[1..];
      }
    }
  }

  lemma InterleavingFront<T>(s: seq<T>, a: seq<T>, b: seq<T>, fromA: bool)
    requires s != []
    requires fromA ==> a != [] && a[0] == s[0] && Interleaving(s[1..], a[1..], b)
    requires !fromA ==> b != [] && b[0] == s[0] && Interleaving(s[1..], a, b[1..])
    ensures Interleaving(s, a, b)
  {
  }

  /** A filter that every element passes keeps the whole list. */
  lemma {:induction false} FilterKeepsAll<T(!new)>(s: seq<T>, p: T -> bool)
    requires forall i :: 0 <= i < |s| ==> p(s[i])
    ensures Filter(s, p) == s
  {
    if s != [] {
      FilterKeepsAll(s[1..], p);
      assert s == [s[0]] + s[1..];
    }
  }

  /** A filter that no element passes keeps nothing. */
  lemma {:induction false} FilterDropsAll<T(!new)>(s: seq<T>, p: T -> bool)
    requires forall i :: 0 <= i < |s| ==> !p(s[i])
    ensures Filter(s, p) == []
  {
    if s != [] { FilterDropsAll(s[1..], p); }
  }

  /** Filtering distributes over concatenation. */
  lemma {:induction false} FilterAppend<T(!new)>(a: seq<T>, b: seq<T>, p: T -> bool)
    ensures Filter(a + b, p) == Filter(a, p) + Filter(b, p)
  {
    if a != [] {
      var ab := a + b;
      assert ab[0] == a[0] && ab[1..] == a[1..] + b;
      FilterAppend(a[1..], b, p);
      var head := if p(a[0]) then [a[0]] else [];
      assert Filter(ab, p) == head + Filter(a[1..] + b, p);
      assert Filter(a, p) == head + Filter(a[1..], p);
    } else {
      assert a + b == b;
    }
  }

  /** No two elements share a key. */
  ghost predicate DistinctBy<T, K>(s: seq<T>, key: T -> K)
  {
    forall i, j :: 0 <= i < j < |s| ==> key(s[i]) != key(s[j])
  }

  lemma {:induction false} FilterDistinct<T(!new), K>(s: seq<T>, p: T -> bool, key: T -> K)
    requires DistinctBy(s, key)
    ensures DistinctBy(Filter(s, p), key)
  {
    if s != [] {
      FilterDistinct(s[1..], p, key);
      var rest := Filter(s[1..], p);
      forall y | y in rest ensures key(y) != key(s[0]) {
        var j :| 0 <= j < |s[1..]| && s[1..][j] == y;
        assert s[j + 1] == y;
      }
    }
  }
}
