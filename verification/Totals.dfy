/** Sums over a sequence, folded from the left as the controllers' loops and `reduce` calls do. */
module Totals {

  /** The sum of `m` over `s`. The last element is split off, so a loop over prefixes unfolds it once. */
  function Total<T>(s: seq<T>, m: T -> int): int {
    if s == [] then 0 else Total(s[..|s| - 1], m) + m(s[|s| - 1])
  }

  /** The measure that counts elements. */
  function One<T>(x: T): int {
    1
  }

  lemma PrefixNext<T>(s: seq<T>, i: nat)
    requires i < |s|
    ensures s[..i + 1] == s[..i] + [s[i]]
  {
  }

  /** One more element of a prefix. */
  lemma TotalNext<T>(s: seq<T>, m: T -> int, i: nat)
    requires i < |s|
    ensures Total(s[..i + 1], m) == Total(s[..i], m) + m(s[i])
  {
    assert s[..i + 1][..i] == s[..i];
  }

  lemma {:induction false} TotalConcat<T>(a: seq<T>, b: seq<T>, m: T -> int)
    ensures Total(a + b, m) == Total(a, m) + Total(b, m)
  {
    if b == [] {
      assert a + b == a;
    } else {
      var c := b[..|b| - 1];
      assert (a + b)[..|a + b| - 1] == a + c;
      TotalConcat(a, c, m);
    }
  }

  lemma TotalPair<T>(x: T, y: T, m: T -> int)
    ensures Total([x, y], m) == m(x) + m(y)
  {
    assert [x, y] == [x] + [y];
    TotalConcat([x], [y], m);
    TotalSingle(x, m);
    TotalSingle(y, m);
  }

  lemma TotalSingle<T>(x: T, m: T -> int)
    ensures Total([x], m) == m(x)
  {
    assert [x][..0] == [];
  }

  lemma {:induction false} TotalSame<T>(s: seq<T>, f: T -> int, g: T -> int)
    requires forall x :: x in s ==> f(x) == g(x)
    ensures Total(s, f) == Total(s, g)
  {
    if s != [] {
      var c := s[..|s| - 1];
      assert forall x :: x in c ==> x in s;
      assert s[|s| - 1] in s;
      TotalSame(c, f, g);
    }
  }

  lemma {:induction false} TotalOne<T>(s: seq<T>)
    ensures Total(s, One) == |s|
  {
    if s != [] {
      TotalOne(s[..|s| - 1]);
    }
  }

  lemma {:induction false} TotalNonNegative<T>(s: seq<T>, m: T -> int)
    requires forall x :: x in s ==> m(x) >= 0
    ensures Total(s, m) >= 0
  {
    if s != [] {
      var c := s[..|s| - 1];
      assert forall x :: x in c ==> x in s;
      assert s[|s| - 1] in s;
      TotalNonNegative(c, m);
    }
  }

  /** With no negative part, the sum bounds each part. */
  lemma {:induction false} TotalAtLeast<T>(s: seq<T>, m: T -> int, i: nat)
    requires i < |s|
    requires forall x :: x in s ==> m(x) >= 0
    ensures m(s[i]) <= Total(s, m)
  {
    var c := s[..|s| - 1];
    assert forall x :: x in c ==> x in s;
    assert s[|s| - 1] in s;
    if i == |s| - 1 {
      TotalNonNegative(c, m);
    } else {
      assert c[i] == s[i];
      TotalAtLeast(c, m, i);
    }
  }

  /** `f` below `g` everywhere gives a smaller sum. */
  lemma {:induction false} TotalMonotone<T>(s: seq<T>, f: T -> int, g: T -> int)
    requires forall x :: x in s ==> f(x) <= g(x)
    ensures Total(s, f) <= Total(s, g)
  {
    if s != [] {
      var c := s[..|s| - 1];
      assert forall x :: x in c ==> x in s;
      assert s[|s| - 1] in s;
      TotalMonotone(c, f, g);
    }
  }

  lemma TotalThree<T>(a: seq<T>, x: T, c: seq<T>, m: T -> int)
    ensures Total(a + [x] + c, m) == Total(a + c, m) + m(x)
    ensures multiset(a + c) == multiset(a + [x] + c) - multiset{x}
  {
    TotalConcat(a + [x], c, m);
    TotalConcat(a, [x], m);
    TotalSingle(x, m);
    TotalConcat(a, c, m);
  }

  lemma Parts<T>(s: seq<T>, i: nat) returns (a: seq<T>, c: seq<T>)
    requires i < |s|
    ensures s == a + [s[i]] + c
  {
    a, c := s[..i], s[i + 1..];
  }

  /** Taking one element out takes its measure out. */
  lemma TotalWithout<T>(s: seq<T>, i: nat, m: T -> int) returns (rest: seq<T>)
    requires i < |s|
    ensures Total(s, m) == Total(rest, m) + m(s[i])
    ensures multiset(rest) == multiset(s) - multiset{s[i]}
  {
    var a, c := Parts(s, i);
    rest := a + c;
    TotalThree(a, s[i], c, m);
  }

  lemma LastOff<T>(s: seq<T>) returns (c: seq<T>, x: T)
    requires s != []
    ensures s == c + [x] && c == s[..|s| - 1] && x == s[|s| - 1]
    ensures multiset(c) == multiset(s) - multiset{x}
  {
    c, x := s[..|s| - 1], s[|s| - 1];
    assert s == c + [x];
  }

  lemma Place<T>(s: seq<T>, x: T) returns (i: nat)
    requires x in multiset(s)
    ensures i < |s| && s[i] == x
  {
    i :| 0 <= i < |s| && s[i] == x;
  }

  /** The sum does not depend on the order of the elements. */
  lemma {:induction false} TotalPermutation<T>(a: seq<T>, b: seq<T>, m: T -> int)
    requires multiset(a) == multiset(b)
    ensures Total(a, m) == Total(b, m)
  {
    if a == [] {
      assert |multiset(b)| == 0;
    } else {
      var c, x := LastOff(a);
      assert x in multiset(a);
      var i := Place(b, x);
      var d := TotalWithout(b, i, m);
      TotalPermutation(c, d, m);
    }
  }
}
