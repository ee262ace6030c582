/**
 * `GROUP BY` as a fold over rows: the distinct keys in first-seen order (the order a JavaScript
 * `Map` keeps), the rows of one key, and the sums the groups conserve.
 */
module Groups {
  import opened Totals

  /** The rows whose key is `k`, in row order. */
  function Pick<T(!new), K(==, !new)>(s: seq<T>, key: T -> K, k: K): (r: seq<T>)
    ensures forall x :: x in r <==> x in s && key(x) == k
  {
    if s == [] then [] else
    var r := Pick(s[..|s| - 1], key, k);
    assert s == s[..|s| - 1] + [s[|s| - 1]];
    if key(s[|s| - 1]) == k then r + [s[|s| - 1]] else r
  }

  /** The distinct keys, first-seen order. */
  function Keys<T(!new), K(==, !new)>(s: seq<T>, key: T -> K): (ks: seq<K>)
    ensures forall i, j :: 0 <= i < j < |ks| ==> ks[i] != ks[j]
    ensures forall x :: x in s ==> key(x) in ks
  {
    if s == [] then [] else
    var ks := Keys(s[..|s| - 1], key);
    var last := s[|s| - 1];
    assert s == s[..|s| - 1] + [last];
    assert forall x :: x in s <==> x in s[..|s| - 1] || x == last;
    if key(last) in ks then ks else ks + [key(last)]
  }

  /** The measure that sums `m` over the group of a key. */
  function GroupTotal<T(!new), K(==, !new)>(s: seq<T>, key: T -> K, m: T -> int): K -> int {
    k => Total(Pick(s, key, k), m)
  }

  lemma PickNext<T(!new), K(!new)>(s: seq<T>, key: T -> K, k: K, i: nat)
    requires i < |s|
    ensures Pick(s[..i + 1], key, k) == Pick(s[..i], key, k) + (if key(s[i]) == k then [s[i]] else [])
  {
    assert s[..i + 1][..i] == s[..i];
  }

  lemma {:induction false} PickNone<T(!new), K(!new)>(s: seq<T>, key: T -> K, k: K)
    requires forall x :: x in s ==> key(x) != k
    ensures Pick(s, key, k) == []
  {
    if s != [] {
      assert s == s[..|s| - 1] + [s[|s| - 1]];
      PickNone(s[..|s| - 1], key, k);
    }
  }

  /** Every listed key belongs to a row. */
  lemma {:induction false} KeyOwner<T(!new), K(!new)>(s: seq<T>, key: T -> K, k: K) returns (x: T)
    requires k in Keys(s, key)
    ensures x in s && key(x) == k
  {
    var c, last := s[..|s| - 1], s[|s| - 1];
    assert s == c + [last];
    if key(last) == k {
      x := last;
    } else {
      x := KeyOwner(c, key, k);
    }
  }

  lemma GroupNext<T(!new), K(!new)>(s: seq<T>, x: T, key: T -> K, m: T -> int, k: K)
    ensures GroupTotal(s + [x], key, m)(k) == GroupTotal(s, key, m)(k) + if key(x) == k then m(x) else 0
  {
    assert (s + [x])[..|s|] == s;
    TotalConcat(Pick(s, key, k), [x], m);
    TotalSingle(x, m);
  }

  lemma GroupNone<T(!new), K(!new)>(s: seq<T>, key: T -> K, m: T -> int, k: K)
    requires k !in Keys(s, key)
    ensures GroupTotal(s, key, m)(k) == 0
  {
    PickNone(s, key, k);
  }

  /** A measure changed at one key only: over distinct keys the sum moves by that change. */
  lemma {:induction false} TotalChangedAt<K(!new)>(ks: seq<K>, f: K -> int, g: K -> int, at: K)
    requires forall i, j :: 0 <= i < j < |ks| ==> ks[i] != ks[j]
    requires forall k :: k in ks && k != at ==> f(k) == g(k)
    ensures Total(ks, g) == Total(ks, f) + if at in ks then g(at) - f(at) else 0
  {
    if ks != [] {
      var c := ks[..|ks| - 1];
      var last := ks[|ks| - 1];
      assert forall k :: k in ks <==> k in c || k == last;
      TotalChangedAt(c, f, g, at);
      if last == at {
        assert at !in c;
      }
    }
  }

  function Listed<T(!new), K(==, !new)>(key: T -> K, ks: seq<K>): T -> bool {
    (x: T) => key(x) in ks
  }

  lemma ListedIs<T(!new), K(!new)>(key: T -> K, ks: seq<K>, x: T)
    ensures Listed(key, ks)(x) <==> key(x) in ks
  {
  }

  /** Over distinct keys, the group sums add up to the sum over the rows whose key is listed. */
  lemma {:induction false} GroupsListed<T(!new), K(!new)>(s: seq<T>, key: T -> K, m: T -> int, ks: seq<K>)
    requires forall i, j :: 0 <= i < j < |ks| ==> ks[i] != ks[j]
    ensures Total(ks, GroupTotal(s, key, m)) == Total(Pick(s, Listed(key, ks), true), m)
  {
    if s == [] {
      NothingGrouped(ks, key, m);
    } else {
      var c := s[..|s| - 1];
      var last := s[|s| - 1];
      assert s == c + [last];
      GroupsListed(c, key, m, ks);
      var f, g := GroupTotal(c, key, m), GroupTotal(s, key, m);
      forall k | k in ks
        ensures g(k) == f(k) + if k == key(last) then m(last) else 0
      {
        GroupNext(c, last, key, m, k);
      }
      TotalChangedAt(ks, f, g, key(last));
      TotalConcat(Pick(c, Listed(key, ks), true), [last], m);
      TotalSingle(last, m);
    }
  }

  lemma {:induction false} PickAll<T(!new), K(!new)>(s: seq<T>, key: T -> K, k: K)
    requires forall x :: x in s ==> key(x) == k
    ensures Pick(s, key, k) == s
  {
    if s != [] {
      assert s == s[..|s| - 1] + [s[|s| - 1]];
      PickAll(s[..|s| - 1], key, k);
    }
  }

  /** Grouping conserves every sum, over any distinct keys that cover the rows. */
  lemma GroupsCover<T(!new), K(!new)>(s: seq<T>, key: T -> K, m: T -> int, ks: seq<K>)
    requires forall i, j :: 0 <= i < j < |ks| ==> ks[i] != ks[j]
    requires forall x :: x in s ==> key(x) in ks
    ensures Total(ks, GroupTotal(s, key, m)) == Total(s, m)
  {
    GroupsListed(s, key, m, ks);
    PickAll(s, Listed(key, ks), true);
  }

  lemma {:induction false} NothingGrouped<T(!new), K(!new)>(ks: seq<K>, key: T -> K, m: T -> int)
    ensures Total(ks, GroupTotal([], key, m)) == 0
  {
    if ks != [] {
      NothingGrouped(ks[..|ks| - 1], key, m);
    }
  }

  /** The keys that occur suffice. */
  lemma Partition<T(!new), K(!new)>(s: seq<T>, key: T -> K, m: T -> int)
    ensures Total(Keys(s, key), GroupTotal(s, key, m)) == Total(s, m)
  {
    assert forall x :: x in s ==> key(x) in Keys(s, key);
    GroupsCover(s, key, m, Keys(s, key));
  }

  /** A `Map` filled row by row: per key the value of its rows, keys in first-seen order. */
  ghost predicate Mapped<T(!new), K(!new), V>(s: seq<T>, key: T -> K, of: seq<T> -> V, m: map<K, V>, order: seq<K>) {
    order == Keys(s, key) &&
    (forall k :: k in m <==> k in order) &&
    forall k :: k in m ==> m[k] == of(Pick(s, key, k))
  }

  /** The entry of the next row is replaced or appended; the others keep their value. */
  lemma MappedNext<T(!new), K(!new), V>(s: seq<T>, x: T, key: T -> K, of: seq<T> -> V, m: map<K, V>, order: seq<K>, v: V)
    requires Mapped(s, key, of, m, order)
    requires v == of(Pick(s, key, key(x)) + [x])
    ensures Mapped(s + [x], key, of, m[key(x) := v], if key(x) in m then order else order + [key(x)])
  {
    assert (s + [x])[..|s|] == s;
  }

  /** Before its first row a key has no rows. */
  lemma MappedMissing<T(!new), K(!new), V>(s: seq<T>, key: T -> K, of: seq<T> -> V, m: map<K, V>, order: seq<K>, k: K)
    requires Mapped(s, key, of, m, order) && k !in m
    ensures Pick(s, key, k) == []
  {
    PickNone(s, key, k);
  }

  /** The sum over a group, read off the rows one by one. */
  lemma {:induction false} GroupTotalIs<T(!new), K(!new)>(s: seq<T>, key: T -> K, m: T -> int, k: K, f: T -> int)
    requires forall x :: x in s ==> f(x) == if key(x) == k then m(x) else 0
    ensures GroupTotal(s, key, m)(k) == Total(s, f)
  {
    if s != [] {
      var c, last := s[..|s| - 1], s[|s| - 1];
      assert s == c + [last];
      GroupTotalIs(c, key, m, k, f);
      GroupNext(c, last, key, m, k);
    }
  }

  /** The same for a group within a group. */
  lemma GroupWithinIs<T(!new), J(!new), K(!new)>(s: seq<T>, outer: T -> J, j: J, inner: T -> K, k: K, m: T -> int, f: T -> int)
    requires forall x :: x in s ==> f(x) == if outer(x) == j && inner(x) == k then m(x) else 0
    ensures GroupTotal(Pick(s, outer, j), inner, m)(k) == Total(s, f)
  {
    GroupTotalIs(Pick(s, outer, j), inner, m, k, f);
    GroupTotalIs(s, outer, f, j, f);
  }

  /** A key is listed before another exactly as its first row comes before the other's: the other has none by then. */
  lemma {:induction false} FirstSeenOrder<T(!new), K(!new)>(s: seq<T>, key: T -> K, i: nat, j: nat) returns (p: nat)
    requires i < j < |Keys(s, key)|
    ensures p < |s| && key(s[p]) == Keys(s, key)[i]
    ensures forall q :: 0 <= q <= p ==> key(s[q]) != Keys(s, key)[j]
  {
    var c := s[..|s| - 1];
    assert s == c + [s[|s| - 1]];
    if j < |Keys(c, key)| {
      p := FirstSeenOrder(c, key, i, j);
    } else {
      var x := KeyOwner(c, key, Keys(c, key)[i]);
      p :| 0 <= p < |c| && c[p] == x;
      assert forall q :: 0 <= q <= p ==> s[q] == c[q] && c[q] in c;
    }
  }
}
