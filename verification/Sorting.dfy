/** `Array.prototype.sort`: a stable sort by an integer rank, ascending. */
module Sorting {
  import opened Totals
  import opened Groups

  /** Puts `x` behind every element of at most its rank. */
  function Insert<T>(sorted: seq<T>, x: T, rank: T -> int): seq<T> {
    if sorted == [] then [x] else
    var last := sorted[|sorted| - 1];
    if rank(last) <= rank(x) then sorted + [x] else Insert(sorted[..|sorted| - 1], x, rank) + [last]
  }

  function Sort<T>(s: seq<T>, rank: T -> int): seq<T> {
    if s == [] then [] else Insert(Sort(s[..|s| - 1], rank), s[|s| - 1], rank)
  }

  ghost predicate Ascending<T>(s: seq<T>, rank: T -> int) {
    forall i, j :: 0 <= i < j < |s| ==> rank(s[i]) <= rank(s[j])
  }

  lemma {:induction false} InsertMembers<T(!new)>(sorted: seq<T>, x: T, rank: T -> int)
    ensures multiset(Insert(sorted, x, rank)) == multiset(sorted) + multiset{x}
    ensures forall y :: y in Insert(sorted, x, rank) ==> y in sorted || y == x
  {
    if sorted != [] {
      assert sorted == sorted[..|sorted| - 1] + [sorted[|sorted| - 1]];
      InsertMembers(sorted[..|sorted| - 1], x, rank);
    }
  }

  lemma AscendingAppend<T>(s: seq<T>, last: T, rank: T -> int)
    requires Ascending(s, rank) && forall y :: y in s ==> rank(y) <= rank(last)
    ensures Ascending(s + [last], rank)
  {
    assert forall i :: 0 <= i < |s| ==> s[i] in s;
  }

  lemma {:induction false} InsertKeeps<T(!new)>(sorted: seq<T>, x: T, rank: T -> int)
    requires Ascending(sorted, rank)
    ensures Ascending(Insert(sorted, x, rank), rank)
  {
    if sorted != [] {
      var c, last := sorted[..|sorted| - 1], sorted[|sorted| - 1];
      if rank(last) > rank(x) {
        InsertKeeps(c, x, rank);
        InsertMembers(c, x, rank);
        AscendingAppend(Insert(c, x, rank), last, rank);
      } else {
        AscendingAppend(sorted, x, rank);
      }
    }
  }

  /** The result is an ascending permutation. */
  lemma {:induction false} SortSorts<T(!new)>(s: seq<T>, rank: T -> int)
    ensures Ascending(Sort(s, rank), rank)
    ensures multiset(Sort(s, rank)) == multiset(s)
  {
    if s != [] {
      var c := s[..|s| - 1];
      assert s == c + [s[|s| - 1]];
      SortSorts(c, rank);
      InsertMembers(Sort(c, rank), s[|s| - 1], rank);
      InsertKeeps(Sort(c, rank), s[|s| - 1], rank);
    }
  }

  lemma PickAppend<T(!new)>(s: seq<T>, x: T, rank: T -> int, r: int)
    ensures Pick(s + [x], rank, r) == Pick(s, rank, r) + if rank(x) == r then [x] else []
  {
    assert (s + [x])[..|s|] == s;
  }

  /** Of two elements of different rank at most one is kept, so their order does not show. */
  lemma LastOut<T>(s: seq<T>, last: T, x: T, keepLast: bool, keepX: bool)
    requires !(keepLast && keepX)
    ensures s + (if keepX then [x] else []) + (if keepLast then [last] else [])
            == s + (if keepLast then [last] else []) + (if keepX then [x] else [])
  {
  }

  lemma {:induction false} InsertLast<T(!new)>(sorted: seq<T>, x: T, rank: T -> int, r: int)
    requires Ascending(sorted, rank)
    ensures Pick(Insert(sorted, x, rank), rank, r) == Pick(sorted, rank, r) + if rank(x) == r then [x] else []
  {
    if sorted == [] {
      PickAppend([], x, rank, r);
      assert [] + [x] == [x];
    } else {
      var c, last := sorted[..|sorted| - 1], sorted[|sorted| - 1];
      if rank(last) <= rank(x) {
        PickAppend(sorted, x, rank, r);
      } else {
        InsertLast(c, x, rank, r);
        PickAppend(Insert(c, x, rank), last, rank, r);
        LastOut(Pick(c, rank, r), last, x, rank(last) == r, rank(x) == r);
      }
    }
  }

  /** Elements of one rank keep their order. */
  lemma {:induction false} SortIsStable<T(!new)>(s: seq<T>, rank: T -> int, r: int)
    ensures Pick(Sort(s, rank), rank, r) == Pick(s, rank, r)
  {
    if s != [] {
      var c := s[..|s| - 1];
      SortIsStable(c, rank, r);
      SortSorts(c, rank);
      InsertLast(Sort(c, rank), s[|s| - 1], rank, r);
    }
  }

  /** Sorting moves no sum. */
  lemma SortTotal<T(!new)>(s: seq<T>, rank: T -> int, m: T -> int)
    ensures Total(Sort(s, rank), m) == Total(s, m)
  {
    SortSorts(s, rank);
    TotalPermutation(Sort(s, rank), s, m);
  }

  /** A comparator that falls back to a second rank: sort by the second, then by the first. */
  function SortByTwo<T>(s: seq<T>, major: T -> int, minor: T -> int): seq<T> {
    Sort(Sort(s, minor), major)
  }

  lemma {:induction false} PickAscends<T(!new)>(s: seq<T>, key: T -> int, k: int, rank: T -> int)
    requires Ascending(s, rank)
    ensures Ascending(Pick(s, key, k), rank)
  {
    if s != [] {
      var c, last := s[..|s| - 1], s[|s| - 1];
      PickAscends(c, key, k, rank);
      forall x | x in Pick(c, key, k)
        ensures rank(x) <= rank(last)
      {
        var i :| 0 <= i < |c| && c[i] == x;
      }
    }
  }

  lemma {:induction false} PickOrders<T(!new)>(s: seq<T>, key: T -> int, rank: T -> int, i: nat, j: nat)
    requires i < j < |s| && key(s[i]) == key(s[j])
    requires Ascending(Pick(s, key, key(s[i])), rank)
    ensures rank(s[i]) <= rank(s[j])
  {
    var k := key(s[i]);
    var c := s[..|s| - 1];
    if j == |s| - 1 {
      assert s[i] in c && s[i] in Pick(c, key, k);
      assert Pick(s, key, k) == Pick(c, key, k) + [s[j]];
      var p := Pick(c, key, k);
      var at :| 0 <= at < |p| && p[at] == s[i];
      assert Pick(s, key, k)[at] == s[i] && Pick(s, key, k)[|p|] == s[j];
    } else {
      var p := Pick(c, key, k);
      assert forall a :: 0 <= a < |p| ==> Pick(s, key, k)[a] == p[a];
      PickOrders(c, key, rank, i, j);
    }
  }

  lemma SortByTwoSorts<T(!new)>(s: seq<T>, major: T -> int, minor: T -> int)
    ensures multiset(SortByTwo(s, major, minor)) == multiset(s)
    ensures Ascending(SortByTwo(s, major, minor), major)
    ensures var r := SortByTwo(s, major, minor);
            forall i, j :: 0 <= i < j < |r| && major(r[i]) == major(r[j]) ==> minor(r[i]) <= minor(r[j])
  {
    SortSorts(s, minor);
    SortSorts(Sort(s, minor), major);
    var r := SortByTwo(s, major, minor);
    forall i, j | 0 <= i < j < |r| && major(r[i]) == major(r[j])
      ensures minor(r[i]) <= minor(r[j])
    {
      SortIsStable(Sort(s, minor), major, major(r[i]));
      PickAscends(Sort(s, minor), major, major(r[i]), minor);
      PickOrders(r, major, minor, i, j);
    }
  }

  lemma SortByTwoTotal<T(!new)>(s: seq<T>, major: T -> int, minor: T -> int, m: T -> int)
    ensures Total(SortByTwo(s, major, minor), m) == Total(s, m)
  {
    SortTotal(s, minor, m);
    SortTotal(Sort(s, minor), major, m);
  }

  /** An element at two places counts twice in the multiset. */
  lemma TwiceCounts<T>(s: seq<T>, i: nat, j: nat)
    requires i < j < |s| && s[i] == s[j]
    ensures multiset(s)[s[i]] >= 2
  {
    assert s == s[..j] + [s[j]] + s[j + 1..];
    assert s[..j][i] == s[i];
    assert s[i] in s[..j];
  }

  lemma {:induction false} OnceCounts<T(!new)>(s: seq<T>, x: T)
    requires forall i, j :: 0 <= i < j < |s| ==> s[i] != s[j]
    ensures multiset(s)[x] <= 1
  {
    if s != [] {
      var c := s[..|s| - 1];
      assert s == c + [s[|s| - 1]];
      OnceCounts(c, x);
      if x == s[|s| - 1] {
        assert x !in c;
      }
    }
  }

  /** Reordering keeps the elements, and keys that differ. */
  lemma Reordered<T(!new), K(!new)>(a: seq<T>, b: seq<T>, key: T -> K)
    requires multiset(a) == multiset(b) && forall i, j :: 0 <= i < j < |a| ==> key(a[i]) != key(a[j])
    ensures forall x :: x in a <==> x in b
    ensures forall i, j :: 0 <= i < j < |b| ==> key(b[i]) != key(b[j])
  {
    forall x
      ensures x in a <==> x in b
    {
      assert x in a <==> x in multiset(a);
      assert x in b <==> x in multiset(b);
    }
    forall i, j | 0 <= i < j < |b|
      ensures key(b[i]) != key(b[j])
    {
      assert b[i] in a && b[j] in a;
      OnceCounts(a, b[i]);
      if b[i] == b[j] {
        TwiceCounts(b, i, j);
        assert false;
      }
    }
  }
}
