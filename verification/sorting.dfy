/** A stable insertion sort on sequences, ordered by a real-valued key.
    It stands for pandas' `sort_values` (by date) and for the ranking that
    `nlargest` / `nsmallest` perform on the monthly averages. */
module Sorting {

  /** Keys never decrease along s. */
  ghost predicate SortedBy<T>(s: seq<T>, key: T -> real)
  {
    forall i, j :: 0 <= i < j < |s| ==> key(s[i]) <= key(s[j])
  }

  /** Keys never decrease along s, and among equal keys the tags strictly
      increase: s is ordered by (key, tag) lexicographically. */
  ghost predicate SortedWithTies<T>(s: seq<T>, key: T -> real, tag: T -> int)
  {
    forall i, j :: 0 <= i < j < |s| ==>
      key(s[i]) < key(s[j]) || (key(s[i]) == key(s[j]) && tag(s[i]) < tag(s[j]))
  }

  /** Inserts x in front of the first element whose key is not smaller. */
  function InsertBy<T>(x: T, s: seq<T>, key: T -> real): (r: seq<T>)
    ensures multiset(r) == multiset(s) + multiset{x}
  {
    if |s| == 0 || key(x) <= key(s[0]) then
      [x] + s
    else
      assert s == [s[0]] + s[1..];
      [s[0]] + InsertBy(x, s[1..], key)
  }

  lemma {:induction false} InsertSorted<T>(x: T, s: seq<T>, key: T -> real)
    requires SortedBy(s, key)
    ensures SortedBy(InsertBy(x, s, key), key)
  {
    if |s| > 0 && key(x) > key(s[0]) {
      InsertSorted(x, s[1..], key);
      var rest := InsertBy(x, s[1..], key);
      forall k | 0 <= k < |rest|
        ensures key(s[0]) <= key(rest[k])
      {
        assert rest[k] in multiset(rest);
        if rest[k] != x {
          assert rest[k] in multiset(s[1..]);
          var j :| 0 <= j < |s[1..]| && s[1..][j] == rest[k];
          assert s[j + 1] == rest[k];
        }
      }
      var r := [s[0]] + rest;
      forall i, j | 0 <= i < j < |r|
        ensures key(r[i]) <= key(r[j])
      {
        if i > 0 {
          assert r[i] == rest[i - 1] && r[j] == rest[j - 1];
        } else {
          assert r[j] == rest[j - 1];
        }
      }
    }
  }

  /** The elements of s, ordered by key; equal keys keep their order in s. */
  function SortBy<T>(s: seq<T>, key: T -> real): (r: seq<T>)
    ensures multiset(r) == multiset(s)
    ensures SortedBy(r, key)
  {
    if |s| == 0 then
      []
    else
      assert s == [s[0]] + s[1..];
      InsertSorted(s[0], SortBy(s[1..], key), key);
      InsertBy(s[0], SortBy(s[1..], key), key)
  }

  lemma {:induction false} InsertWithTies<T>(x: T, s: seq<T>, key: T -> real, tag: T -> int)
    requires SortedWithTies(s, key, tag)
    requires forall y :: y in s ==> tag(x) < tag(y)
    ensures SortedWithTies(InsertBy(x, s, key), key, tag)
  {
    if |s| == 0 || key(x) <= key(s[0]) {
      var r := [x] + s;
      forall i, j | 0 <= i < j < |r|
        ensures key(r[i]) < key(r[j]) || (key(r[i]) == key(r[j]) && tag(r[i]) < tag(r[j]))
      {
        assert r[j] == s[j - 1];
        if i > 0 {
          assert r[i] == s[i - 1];
        } else {
          assert s[j - 1] in s;
        }
      }
    } else {
      forall y | y in s[1..]
        ensures tag(x) < tag(y)
      {
        assert y in s;
      }
      InsertWithTies(x, s[1..], key, tag);
      var rest := InsertBy(x, s[1..], key);
      forall k | 0 <= k < |rest|
        ensures key(s[0]) < key(rest[k]) || (key(s[0]) == key(rest[k]) && tag(s[0]) < tag(rest[k]))
      {
        assert rest[k] in multiset(rest);
        if rest[k] != x {
          assert rest[k] in multiset(s[1..]);
          var j :| 0 <= j < |s[1..]| && s[1..][j] == rest[k];
          assert s[j + 1] == rest[k];
        }
      }
      var r := [s[0]] + rest;
      forall i, j | 0 <= i < j < |r|
        ensures key(r[i]) < key(r[j]) || (key(r[i]) == key(r[j]) && tag(r[i]) < tag(r[j]))
      {
        assert r[j] == rest[j - 1];
        if i > 0 {
          assert r[i] == rest[i - 1];
        }
      }
    }
  }

  /** When the input's tags strictly increase, the sort is ordered by
      (key, tag): ties are resolved in favour of the smaller tag. */
  lemma {:induction false} SortWithTies<T>(s: seq<T>, key: T -> real, tag: T -> int)
    requires forall i, j :: 0 <= i < j < |s| ==> tag(s[i]) < tag(s[j])
    ensures SortedWithTies(SortBy(s, key), key, tag)
  {
    if |s| > 0 {
      SortWithTies(s[1..], key, tag);
      var sorted := SortBy(s[1..], key);
      forall y | y in sorted
        ensures tag(s[0]) < tag(y)
      {
        assert y in multiset(s[1..]);
        var j :| 0 <= j < |s[1..]| && s[1..][j] == y;
      }
      InsertWithTies(s[0], sorted, key, tag);
    }
  }

  /** Two key-ordered arrangements of the same elements are the same
      sequence when different elements never share a key. */
  lemma {:induction false} SortedUnique<T>(a: seq<T>, b: seq<T>, key: T -> real)
    requires multiset(a) == multiset(b)
    requires SortedBy(a, key) && SortedBy(b, key)
    requires forall x, y :: x in a && y in a && key(x) == key(y) ==> x == y
    ensures a == b
  {
    assert |a| == |multiset(a)| == |multiset(b)| == |b|;
    if |a| > 0 {
      SameHead(a, b, key);
      SameTail(a, b);
      forall x, y | x in a[1..] && y in a[1..] && key(x) == key(y)
        ensures x == y
      {
        assert x in a && y in a;
      }
      SortedUnique(a[1..], b[1..], key);
      assert a == [a[0]] + a[1..] && b == [b[0]] + b[1..];
    }
  }

  /** Both arrangements start with the element of least key. */
  lemma SameHead<T>(a: seq<T>, b: seq<T>, key: T -> real)
    requires |a| > 0 && |b| > 0 && multiset(a) == multiset(b)
    requires SortedBy(a, key) && SortedBy(b, key)
    requires forall x, y :: x in a && y in a && key(x) == key(y) ==> x == y
    ensures a[0] == b[0]
  {
    assert a[0] in multiset(b) && b[0] in multiset(a);
    var j :| 0 <= j < |b| && b[j] == a[0];
    var i :| 0 <= i < |a| && a[i] == b[0];
    assert key(b[0]) <= key(b[j]) && key(a[0]) <= key(a[i]);
  }

  lemma SameTail<T>(a: seq<T>, b: seq<T>)
    requires |a| > 0 && |b| > 0 && multiset(a) == multiset(b) && a[0] == b[0]
    ensures multiset(a[1..]) == multiset(b[1..])
  {
    assert a == [a[0]] + a[1..] && b == [b[0]] + b[1..];
    assert multiset(a) == multiset{a[0]} + multiset(a[1..]);
    assert multiset(b) == multiset{a[0]} + multiset(b[1..]);
    forall x
      ensures multiset(a[1..])[x] == multiset(b[1..])[x]
    {
      assert multiset(a)[x] == multiset{a[0]}[x] + multiset(a[1..])[x];
      assert multiset(b)[x] == multiset{a[0]}[x] + multiset(b[1..])[x];
    }
  }
}
