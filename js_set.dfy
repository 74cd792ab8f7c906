/** A JavaScript `Set<string>` as the components use it: its elements in insertion
    order (the order `Array.from` yields), each at most once. `size` is the length. */
module JsSet {

  predicate NoDup(s: seq<string>)
  {
    forall i, j :: 0 <= i < j < |s| ==> s[i] != s[j]
  }

  function Elems(s: seq<string>): set<string>
  {
    set x | x in s
  }

  /** `set.delete(x)`: removes `x`, keeps the others in order. */
  function Delete(s: seq<string>, x: string): (r: seq<string>)
    ensures forall y :: y in r <==> y in s && y != x
    ensures NoDup(s) ==> NoDup(r)
    ensures x !in s ==> r == s
    ensures |r| <= |s|
  {
    if s == [] then []
    else if s[0] == x then Delete(s[1..], x)
    else
      assert s == [s[0]] + s[1..];
      var rest := Delete(s[1..], x);
      assert NoDup(s) ==> s[0] !in rest by {
        if NoDup(s) {
          assert forall j :: 0 <= j < |s[1..]| ==> s[1..][j] == s[j + 1] != s[0];
        }
      }
      [s[0]] + rest
  }

  /** `set.add(x)`: appends `x` unless it is already present. */
  function Add(s: seq<string>, x: string): (r: seq<string>)
    ensures forall y :: y in r <==> y in s || y == x
    ensures NoDup(s) ==> NoDup(r)
  {
    if x in s then s else s + [x]
  }

  /** The row-checkbox handler: delete when present, add when absent. */
  function Toggle(s: seq<string>, x: string): (r: seq<string>)
    ensures NoDup(s) ==> NoDup(r)
    ensures x in r <==> x !in s
    ensures forall y :: y != x ==> (y in r <==> y in s)
  {
    if x in s then Delete(s, x) else Add(s, x)
  }

  /** Toggling the same id twice gives back the same members; when the id was not
      selected before, even the insertion order is restored. */
  lemma ToggleTwice(s: seq<string>, x: string)
    requires NoDup(s)
    ensures Elems(Toggle(Toggle(s, x), x)) == Elems(s)
    ensures x !in s ==> Toggle(Toggle(s, x), x) == s
  {
    if x !in s {
      DeleteLast(s, x);
    }
  }

  lemma {:induction false} DeleteLast(s: seq<string>, x: string)
    requires x !in s
    ensures Delete(s + [x], x) == s
  {
    if s != [] {
      assert (s + [x])[1..] == s[1..] + [x];
      DeleteLast(s[1..], x);
      assert s == [s[0]] + s[1..];
    } else {
      assert Delete([x], x) == Delete([], x);
    }
  }

  /** `new Set(array)`: the distinct elements in order of first occurrence. */
  function FromArray(xs: seq<string>): (r: seq<string>)
    ensures NoDup(r)
    ensures forall y :: y in r <==> y in xs
    ensures |r| <= |xs|
  {
    if xs == [] then []
    else
      var init := xs[..|xs| - 1];
      assert xs == init + [xs[|xs| - 1]];
      Add(FromArray(init), xs[|xs| - 1])
  }

  /** An array without repeats turns into a set of the same size and order. */
  lemma {:induction false} FromArrayDistinct(xs: seq<string>)
    requires NoDup(xs)
    ensures FromArray(xs) == xs
  {
    if xs != [] {
      var init := xs[..|xs| - 1];
      assert NoDup(init);
      FromArrayDistinct(init);
      assert xs == init + [xs[|xs| - 1]];
    }
  }

  /** Without repeats, the number of entries is the number of members. */
  lemma {:induction false} NoDupSize(s: seq<string>)
    requires NoDup(s)
    ensures |Elems(s)| == |s|
  {
    if s != [] {
      var init := s[..|s| - 1];
      assert s == init + [s[|s| - 1]];
      assert NoDup(init);
      NoDupSize(init);
      assert Elems(s) == Elems(init) + {s[|s| - 1]};
    }
  }

  lemma {:induction false} SubsetSize<T>(a: set<T>, b: set<T>)
    requires a <= b
    ensures |a| <= |b|
  {
    if a != {} {
      var x :| x in a;
      SubsetSize(a - {x}, b - {x});
    }
  }

  /** A subset as large as its superset is the superset. */
  lemma SubsetSameSize<T>(a: set<T>, b: set<T>)
    requires a <= b && |a| == |b|
    ensures a == b
  {
    assert |b - a| == 0 by {
      assert b == a + (b - a);
    }
    assert b - a == {};
    assert b <= a by {
      forall x | x in b ensures x in a {
        assert x !in b - a;
      }
    }
  }
}
