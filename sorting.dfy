/** `Array.prototype.sort` with a comparator, modelled as a stable insertion sort
    over a total preorder `le` ("may come before"). */
module Sorting {
  import opened Types
  import opened Text

  ghost predicate Total<T(!new)>(le: (T, T) -> bool)
  {
    forall a, b :: le(a, b) || le(b, a)
  }

  ghost predicate Transitive<T(!new)>(le: (T, T) -> bool)
  {
    forall a, b, c :: le(a, b) && le(b, c) ==> le(a, c)
  }

  /** Every element may come before every later one. */
  ghost predicate SortedBy<T>(s: seq<T>, le: (T, T) -> bool)
  {
    forall i, j :: 0 <= i < j < |s| ==> le(s[i], s[j])
  }

  /** Puts `x` in front of the first element it may precede. */
  function Insert<T>(x: T, s: seq<T>, le: (T, T) -> bool): (r: seq<T>)
    ensures multiset(r) == multiset(s) + multiset{x}
  {
    if s == [] then [x]
    else if le(x, s[0]) then [x] + s
    else
      assert s == [s[0]] + s[1..];
      [s[0]] + Insert(x, s[1..], le)
  }

  lemma InsertMembers<T>(x: T, s: seq<T>, le: (T, T) -> bool)
    ensures forall y :: y in Insert(x, s, le) <==> y == x || y in s
  {
    var r := Insert(x, s, le);
    forall y ensures y in r <==> y == x || y in s {
      assert y in r <==> y in multiset(r);
      assert y in s <==> y in multiset(s);
    }
  }

  /** A head that may precede every element of a sorted tail gives a sorted list. */
  lemma ConsSorted<T>(h: T, tail: seq<T>, le: (T, T) -> bool)
    requires SortedBy(tail, le)
    requires forall y :: y in tail ==> le(h, y)
    ensures SortedBy([h] + tail, le)
  {
    var r := [h] + tail;
    forall i, j | 0 <= i < j < |r| ensures le(r[i], r[j]) {
      assert r[j] == tail[j - 1];
      if i > 0 {
        assert r[i] == tail[i - 1];
      }
    }
  }

  /** Inserting into a sorted list keeps it sorted. */
  lemma {:induction false} InsertSorted<T(!new)>(x: T, s: seq<T>, le: (T, T) -> bool)
    requires Total(le) && Transitive(le) && SortedBy(s, le)
    ensures SortedBy(Insert(x, s, le), le)
  {
    if s == [] {
    } else if le(x, s[0]) {
      forall y | y in s ensures le(x, y) {
        var j :| 0 <= j < |s| && s[j] == y;
        if j > 0 {
          assert le(s[0], s[j]);
        }
      }
      ConsSorted(x, s, le);
    } else {
      var rest := Insert(x, s[1..], le);
      assert SortedBy(s[1..], le);
      InsertSorted(x, s[1..], le);
      InsertMembers(x, s[1..], le);
      forall y | y in rest ensures le(s[0], y) {
        if y != x {
          var j :| 0 <= j < |s[1..]| && s[1..][j] == y;
          assert s[j + 1] == y;
        }
      }
      ConsSorted(s[0], rest, le);
    }
  }

  /** The sorted permutation of `s`. */
  function Sort<T(!new)>(s: seq<T>, le: (T, T) -> bool): (r: seq<T>)
    requires Total(le) && Transitive(le)
    ensures multiset(r) == multiset(s)
    ensures SortedBy(r, le)
  {
    if s == [] then []
    else
      assert s == [s[0]] + s[1..];
      var sorted := Sort(s[1..], le);
      InsertSorted(s[0], sorted, le);
      Insert(s[0], sorted, le)
  }

  /** In a sorted list, anything in the first `n` entries may precede anything after them. */
  lemma SortedPrefixBeforeRest<T>(s: seq<T>, n: nat, le: (T, T) -> bool, a: T, b: T)
    requires SortedBy(s, le) && n <= |s|
    requires a in s[..n] && b in s[n..]
    ensures le(a, b)
  {
    var i :| 0 <= i < n && s[..n][i] == a;
    var j :| 0 <= j < |s| - n && s[n..][j] == b;
    assert s[i] == a && s[n + j] == b;
  }

  /** A prefix of a sorted list is sorted and takes nothing the list does not hold. */
  lemma SortedTake<T>(s: seq<T>, n: nat, le: (T, T) -> bool)
    requires SortedBy(s, le) && n <= |s|
    ensures SortedBy(s[..n], le) && multiset(s[..n]) <= multiset(s)
  {
    assert s == s[..n] + s[n..];
  }

  lemma SortLength<T(!new)>(s: seq<T>, le: (T, T) -> bool)
    requires Total(le) && Transitive(le)
    ensures |Sort(s, le)| == |s|
  {
    assert |multiset(Sort(s, le))| == |multiset(s)|;
  }

  // ----- the comparators the views pass to `sort` -----

  /** `createdAt` descending: the newer record may come first. Timestamps are compared as
      ISO text, which orders them as `getTime()` does. */
  predicate NewerCreatedFirst(a: DocumentRecord, b: DocumentRecord)
  {
    AtMost(b.createdAt, a.createdAt)
  }

  /** `date` descending, ties broken by `createdAt` descending. */
  predicate NewerDateFirst(a: DocumentRecord, b: DocumentRecord)
  {
    Less(b.date, a.date) || (a.date == b.date && AtMost(b.createdAt, a.createdAt))
  }

  lemma NewerCreatedFirstPreorder()
    ensures Total(NewerCreatedFirst) && Transitive(NewerCreatedFirst)
  {
    forall a: DocumentRecord, b: DocumentRecord ensures NewerCreatedFirst(a, b) || NewerCreatedFirst(b, a) {
      LessTrichotomy(a.createdAt, b.createdAt);
    }
    forall a: DocumentRecord, b: DocumentRecord, c: DocumentRecord
      | NewerCreatedFirst(a, b) && NewerCreatedFirst(b, c)
      ensures NewerCreatedFirst(a, c)
    {
      AtMostTransitive(c.createdAt, b.createdAt, a.createdAt);
    }
  }

  lemma NewerDateFirstPreorder()
    ensures Total(NewerDateFirst) && Transitive(NewerDateFirst)
  {
    forall a: DocumentRecord, b: DocumentRecord ensures NewerDateFirst(a, b) || NewerDateFirst(b, a) {
      LessTrichotomy(a.date, b.date);
      LessTrichotomy(a.createdAt, b.createdAt);
    }
    forall a: DocumentRecord, b: DocumentRecord, c: DocumentRecord
      | NewerDateFirst(a, b) && NewerDateFirst(b, c)
      ensures NewerDateFirst(a, c)
    {
      if a.date == b.date && b.date == c.date {
        LessIrreflexive(a.date);
        AtMostTransitive(c.createdAt, b.createdAt, a.createdAt);
      } else if a.date == b.date {
        assert Less(c.date, a.date);
      } else if b.date == c.date {
        assert Less(c.date, a.date);
      } else {
        LessTransitive(c.date, b.date, a.date);
      }
    }
  }
}
