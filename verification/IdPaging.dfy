/** The id-only paging schemes, walked to the end over a table that may grow meanwhile. */
module IdPaging {
  import opened Options
  import opened Arith
  import opened Groups

  /** Primary keys in query order: newest first. */
  ghost predicate Descending(rows: seq<nat>) {
    (forall i :: 0 <= i < |rows| ==> rows[i] > 0) &&
    forall i, j :: 0 <= i < j < |rows| ==> rows[i] > rows[j]
  }

  /** Rows a `where` keeps, in order. */
  function Filter(rows: seq<nat>, keep: nat -> bool): seq<nat> {
    Pick(rows, keep, true)
  }

  /** `WHERE id < before`; the handlers skip the condition when `before` is absent. */
  function Older(before: Option<nat>): nat -> bool {
    (id: nat) => before.Some? ==> id < before.value
  }

  function Take(rows: seq<nat>, n: nat): seq<nat> {
    if |rows| <= n then rows else rows[..n]
  }

  datatype Page = Page(items: seq<nat>, nextBefore: Option<nat>)

  /** One row more is fetched than shown, and tells whether there is a next page. */
  method PageWithLookahead(rows: seq<nat>, before: Option<nat>, limit: nat) returns (page: Page)
    requires limit > 0
    ensures var left := Filter(rows, Older(before));
            page.items == Take(left, limit) &&
            page.nextBefore == if |left| > limit then Some(left[limit - 1]) else None
  {
    var fetched := Take(Filter(rows, Older(before)), limit + 1);
    var shown := Take(fetched, limit);
    page := Page(shown, if |fetched| > limit then Some(shown[|shown| - 1]) else None);
  }

  /** A full page is taken as a sign that there may be more. */
  method PageWithoutLookahead(rows: seq<nat>, before: Option<nat>, limit: nat) returns (page: Page)
    requires limit > 0
    ensures var left := Filter(rows, Older(before));
            page.items == Take(left, limit) &&
            page.nextBefore == if |left| >= limit then Some(left[limit - 1]) else None
  {
    var fetched := Take(Filter(rows, Older(before)), limit);
    page := Page(fetched, if |fetched| == limit then Some(fetched[|fetched| - 1]) else None);
  }

  /** The section history: the text match narrows the query, the exact match drops rows after paging. */
  method SectionPage(rows: seq<nat>, like: nat -> bool, touches: nat -> bool, before: Option<nat>, limit: nat)
    returns (page: Page)
    requires limit > 0
    ensures var left := Filter(Filter(rows, like), Older(before));
            page.items == Filter(Take(left, limit), touches) &&
            page.nextBefore == if |left| >= limit then Some(left[limit - 1]) else None
  {
    var inner := PageWithoutLookahead(Filter(rows, like), before, limit);
    page := Page(Filter(inner.items, touches), inner.nextBefore);
  }

  // ── filters ────────────────────────────────────────────────────────────

  lemma {:induction false} FilterConcat(a: seq<nat>, b: seq<nat>, keep: nat -> bool)
    ensures Filter(a + b, keep) == Filter(a, keep) + Filter(b, keep)
  {
    if b == [] {
      assert a + b == a;
    } else {
      assert (a + b)[..|a + b| - 1] == a + b[..|b| - 1];
      FilterConcat(a, b[..|b| - 1], keep);
    }
  }

  /** An exact filter after a wider one is the exact filter alone. */
  lemma {:induction false} FilterTwice(rows: seq<nat>, wide: nat -> bool, exact: nat -> bool)
    requires forall x :: x in rows && exact(x) ==> wide(x)
    ensures Filter(Filter(rows, wide), exact) == Filter(rows, exact)
  {
    if rows != [] {
      var c, last := rows[..|rows| - 1], rows[|rows| - 1];
      assert rows == c + [last];
      FilterTwice(c, wide, exact);
      assert last in rows;
      var kept := if wide(last) then [last] else [];
      FilterConcat(Filter(c, wide), kept, exact);
      assert [last][..0] == [];
    }
  }

  lemma DescendsOn(rows: seq<nat>, last: nat)
    requires Descending(rows) && last > 0 && forall x :: x in rows ==> x > last
    ensures Descending(rows + [last])
  {
    assert forall i :: 0 <= i < |rows| ==> rows[i] in rows;
  }

  lemma AllAboveLast(c: seq<nat>, last: nat)
    requires Descending(c + [last])
    ensures Descending(c) && last > 0 && forall x :: x in c ==> x > last
  {
    var rows := c + [last];
    assert forall i :: 0 <= i < |c| ==> rows[i] == c[i];
    assert rows[|c|] == last;
  }

  lemma {:induction false} FilterDescends(rows: seq<nat>, keep: nat -> bool)
    requires Descending(rows)
    ensures Descending(Filter(rows, keep))
  {
    if rows != [] {
      var c, last := rows[..|rows| - 1], rows[|rows| - 1];
      assert rows == c + [last];
      AllAboveLast(c, last);
      FilterDescends(c, keep);
      DescendsOn(Filter(c, keep), last);
    }
  }

  // ── a table that grows ─────────────────────────────────────────────────

  predicate EndsWith(long: seq<nat>, short: seq<nat>) {
    |short| <= |long| && long[|long| - |short|..] == short
  }

  ghost predicate GrewAt(tables: nat -> seq<nat>, k: nat) {
    Descending(tables(k)) && EndsWith(tables(k + 1), tables(k))
  }

  /** What successive requests read: new rows only ever come on top. */
  ghost predicate Grows(tables: nat -> seq<nat>) {
    forall k: nat :: GrewAt(tables, k)
  }

  lemma {:induction false} OnTop(tables: nat -> seq<nat>, k: nat)
    requires Grows(tables)
    ensures EndsWith(tables(k), tables(0)) && Descending(tables(k))
  {
    assert GrewAt(tables, k);
    if k > 0 {
      OnTop(tables, k - 1);
      assert GrewAt(tables, k - 1);
      EndsTwice(tables(k), tables(k - 1), tables(0));
    }
  }

  lemma EndsTwice(a: seq<nat>, b: seq<nat>, c: seq<nat>)
    requires EndsWith(a, b) && EndsWith(b, c)
    ensures EndsWith(a, c)
  {
    assert b[|b| - |c|..] == a[|a| - |c|..];
  }

  /** After `i` rows of the first table, the rest of it is left, whatever has come on top. */
  lemma LeftOver(now: seq<nat>, first: seq<nat>, i: nat)
    requires Descending(now) && EndsWith(now, first) && 0 < i <= |first|
    ensures Filter(now, Older(Some(first[i - 1]))) == first[i..]
  {
    var keep := Older(Some(first[i - 1]));
    var at := |now| - |first| + i;
    assert now == now[..at] + now[at..] && now[at..] == first[i..] && now[at - 1] == first[i - 1];
    FilterConcat(now[..at], now[at..], keep);
    PickNone(now[..at], keep, true);
    PickAll(now[at..], keep, true);
  }

  lemma NothingLeftOut(rows: seq<nat>)
    ensures Filter(rows, Older(None)) == rows
  {
    PickAll(rows, Older(None), true);
  }

  /** What the request after `i` listed rows has in front of it. */
  lemma Remaining(tables: nat -> seq<nat>, k: nat, i: nat, before: Option<nat>)
    requires Grows(tables) && i <= |tables(0)|
    requires before == (if i == 0 then None else Some(tables(0)[i - 1])) && (i == 0 ==> k == 0)
    ensures Filter(tables(k), Older(before)) == tables(0)[i..]
  {
    if i == 0 {
      NothingLeftOut(tables(0));
    } else {
      OnTop(tables, k);
      LeftOver(tables(k), tables(0), i);
    }
  }

  // ── whole walks ────────────────────────────────────────────────────────

  function AtLeastOne(n: int): int {
    if n < 1 then 1 else n
  }

  /** `n` full pages, counted one by one. */
  function Pages(limit: nat, n: nat): nat {
    if n == 0 then 0 else Pages(limit, n - 1) + limit
  }

  lemma {:induction false} PagesProduct(limit: nat, n: nat)
    ensures Pages(limit, n) == limit * n
  {
    if n > 0 {
      PagesProduct(limit, n - 1);
      Distribute(limit, n - 1, 1);
    }
  }

  lemma NextRows(first: seq<nat>, i: nat, limit: nat)
    requires i <= |first|
    ensures first[..i] + Take(first[i..], limit) == first[..i + |Take(first[i..], limit)|]
  {
  }

  lemma TakeIs(rows: seq<nat>, n: nat, limit: nat) returns (next: nat)
    requires n <= |rows|
    ensures next == if n + limit <= |rows| then n + limit else |rows|
    ensures Take(rows[n..], limit) == rows[n..next]
    ensures |rows[n..]| >= limit > 0 ==> rows[n..][limit - 1] == rows[next - 1]
  {
    next := if n + limit <= |rows| then n + limit else |rows|;
  }

  /** With lookahead: every row that was there at the start, once, in ⌈n/limit⌉ requests (one if empty). */
  method WalkWithLookahead(tables: nat -> seq<nat>, limit: nat) returns (listed: seq<nat>, requests: nat)
    requires limit > 0 && Grows(tables)
    ensures listed == tables(0)
    ensures requests == AtLeastOne((|tables(0)| + limit - 1) / limit)
  {
    listed, requests := [], 0;
    var before: Option<nat>, more := None, true;
    while more
      invariant |listed| <= |tables(0)| && listed == tables(0)[..|listed|]
      invariant more ==> |listed| == Pages(limit, requests) && (requests > 0 ==> |listed| < |tables(0)|)
      invariant more ==> before == if |listed| == 0 then None else Some(tables(0)[|listed| - 1])
      invariant !more ==> requests > 0 && |listed| == |tables(0)|
      invariant !more ==> Pages(limit, requests - 1) <= |tables(0)| <= Pages(limit, requests)
      invariant !more && requests > 1 ==> Pages(limit, requests - 1) < |tables(0)|
      decreases more, |tables(0)| - |listed| + if requests == 0 then 1 else 0
    {
      Remaining(tables, requests, |listed|, before);
      var page := PageWithLookahead(tables(requests), before, limit);
      NextRows(tables(0), |listed|, limit);
      listed := listed + page.items;
      before, more := page.nextBefore, page.nextBefore.Some?;
      requests := requests + 1;
    }
    LastRequest(|tables(0)|, limit, requests);
  }

  /** The request on which the walk with lookahead ends. */
  lemma LastRequest(n: nat, limit: nat, requests: nat)
    requires limit > 0 && requests > 0 && Pages(limit, requests - 1) <= n <= Pages(limit, requests)
    requires requests > 1 ==> Pages(limit, requests - 1) < n
    ensures requests == AtLeastOne((n + limit - 1) / limit)
  {
    if n > 0 {
      PagesProduct(limit, requests);
      QuotientUnique(n + limit - 1, limit, requests);
    } else {
      QuotientUnique(limit - 1, limit, 0);
    }
  }

  /** The request on which a walk without lookahead ends. */
  lemma ShortPage(n: nat, limit: nat, requests: nat)
    requires limit > 0 && requests > 0 && Pages(limit, requests - 1) <= n < Pages(limit, requests)
    ensures requests == n / limit + 1
  {
    PagesProduct(limit, requests - 1);
    QuotientUnique(n, limit, requests - 1);
  }

  /** One request without lookahead, with `n` rows of the first table behind it. */
  method NextPlainPage(tables: nat -> seq<nat>, limit: nat, k: nat, ghost n: nat, before: Option<nat>)
    returns (page: Page, ghost next: nat)
    requires limit > 0 && Grows(tables) && n <= |tables(0)|
    requires before == (if n == 0 then None else Some(tables(0)[n - 1])) && (n == 0 ==> k == 0)
    ensures n <= next <= |tables(0)| && page.items == tables(0)[n..next]
    ensures page.nextBefore.Some? <==> n + limit <= |tables(0)|
    ensures page.nextBefore.Some? ==> next == n + limit && page.nextBefore.value == tables(0)[next - 1]
    ensures page.nextBefore.None? ==> next == |tables(0)|
  {
    Remaining(tables, k, n, before);
    page := PageWithoutLookahead(tables(k), before, limit);
    next := TakeIs(tables(0), n, limit);
  }

  /** Without lookahead: the same rows in the same order, in ⌊n/limit⌋ + 1 requests. */
  method WalkWithoutLookahead(tables: nat -> seq<nat>, limit: nat) returns (listed: seq<nat>, requests: nat)
    requires limit > 0 && Grows(tables)
    ensures listed == tables(0)
    ensures requests == |tables(0)| / limit + 1
  {
    listed, requests := [], 0;
    var before: Option<nat>, more := None, true;
    ghost var first := tables(0);
    ghost var n := 0;
    while more
      invariant 0 <= n <= |first| && listed == first[..n]
      invariant more ==> n == Pages(limit, requests) && (n == 0 ==> requests == 0)
      invariant more ==> before == if n == 0 then None else Some(first[n - 1])
      invariant !more ==> requests > 0 && n == |first| && Pages(limit, requests - 1) <= n < Pages(limit, requests)
      decreases more, |first| - n
    {
      ghost var next;
      var page;
      page, next := NextPlainPage(tables, limit, requests, n, before);
      assert first[..n] + first[n..next] == first[..next];
      listed, n := listed + page.items, next;
      before, more, requests := page.nextBefore, page.nextBefore.Some?, requests + 1;
    }
    ShortPage(|tables(0)|, limit, requests);
  }

  // ── a table that changes in any way ────────────────────────────────────

  ghost predicate AlwaysDescending(tables: nat -> seq<nat>) {
    forall k: nat :: Descending(tables(k))
  }

  /** Row `x` is there in each of the first `n` answers. */
  ghost predicate Stays(tables: nat -> seq<nat>, n: nat, x: nat) {
    forall k: nat :: k < n ==> x in tables(k)
  }

  ghost predicate WasThere(tables: nat -> seq<nat>, n: nat, x: nat) {
    exists k: nat :: k < n && x in tables(k)
  }

  /** What a page takes of the rows in front of it: everything, or all down to its last row. */
  lemma PageTakesTop(rows: seq<nat>, before: Option<nat>, limit: nat)
    requires Descending(rows) && limit > 0
    ensures var left := Filter(rows, Older(before));
            Descending(Take(left, limit)) && (forall x :: x in Take(left, limit) ==> x in rows && Older(before)(x)) &&
            (|left| >= limit ==> forall x :: x in Take(left, limit) ==> x >= left[limit - 1]) &&
            (|left| >= limit ==> left[limit - 1] in Take(left, limit)) &&
            forall x :: x in rows && Older(before)(x) ==> x in Take(left, limit) || (|left| > limit && x < left[limit - 1])
  {
    var left := Filter(rows, Older(before));
    FilterDescends(rows, Older(before));
    assert |left| >= limit ==> Take(left, limit)[limit - 1] == left[limit - 1];
    forall x | x in rows && Older(before)(x)
      ensures x in Take(left, limit) || (|left| > limit && x < left[limit - 1])
    {
      assert x in left;
      var i :| 0 <= i < |left| && left[i] == x;
      if i < limit {
        assert Take(left, limit)[i] == x;
      }
    }
  }

  lemma JoinDescending(a: seq<nat>, b: seq<nat>)
    requires Descending(a) && Descending(b) && forall x, y :: x in a && y in b ==> x > y
    ensures Descending(a + b)
  {
    assert forall i :: 0 <= i < |a| ==> a[i] in a;
    assert forall i :: 0 <= i < |b| ==> b[i] in b;
  }

  /** Where a walk stands: what it listed lies at or above `before`, and every row that stayed is listed down to there. */
  ghost predicate ListedDownTo(tables: nat -> seq<nat>, n: nat, listed: seq<nat>, before: Option<nat>) {
    Descending(listed) && (forall x :: x in listed ==> !Older(before)(x) && WasThere(tables, n, x)) &&
    forall x :: Stays(tables, n, x) && !Older(before)(x) ==> x in listed
  }

  lemma ListedFurther(tables: nat -> seq<nat>, n: nat, listed: seq<nat>, before: Option<nat>, items: seq<nat>,
                      next: Option<nat>)
    requires ListedDownTo(tables, n, listed, before) && Descending(items)
    requires forall x :: x in items ==> x in tables(n) && Older(before)(x) && !Older(next)(x)
    requires forall x :: x in tables(n) && Older(before)(x) && !Older(next)(x) ==> x in items
    requires forall x :: Older(next)(x) ==> Older(before)(x)
    ensures ListedDownTo(tables, n + 1, listed + items, next)
  {
    JoinDescending(listed, items);
    forall x | x in listed + items
      ensures WasThere(tables, n + 1, x)
    {
      if x in listed {
        var k: nat :| k < n && x in tables(k);
      }
    }
    forall x | Stays(tables, n + 1, x) && !Older(next)(x)
      ensures x in listed + items
    {
      assert Stays(tables, n, x) && x in tables(n);
    }
  }

  lemma FirstListed(tables: nat -> seq<nat>, items: seq<nat>, next: Option<nat>)
    requires Descending(items) && forall x :: x in items ==> x in tables(0) && !Older(next)(x)
    requires forall x :: x in tables(0) && !Older(next)(x) ==> x in items
    ensures ListedDownTo(tables, 1, [] + items, next)
  {
    assert [] + items == items;
    forall x | x in items
      ensures WasThere(tables, 1, x)
    {
      assert 0 < 1 && x in tables(0);
    }
  }

  /** One request of either scheme, and how far it gets. */
  method NextOf(tables: nat -> seq<nat>, limit: nat, lookahead: bool, k: nat, before: Option<nat>)
    returns (items: seq<nat>, next: Option<nat>)
    requires limit > 0 && AlwaysDescending(tables)
    ensures Descending(items)
    ensures var down := if next.Some? then next else Some(0);
            (forall x :: x in items ==> x in tables(k) && Older(before)(x) && !Older(down)(x)) &&
            forall x :: x in tables(k) && Older(before)(x) && !Older(down)(x) ==> x in items
    ensures next.Some? ==> next.value > 0 && Older(before)(next.value)
  {
    assert Descending(tables(k));
    PageTakesTop(tables(k), before, limit);
    var page;
    if lookahead {
      page := PageWithLookahead(tables(k), before, limit);
    } else {
      page := PageWithoutLookahead(tables(k), before, limit);
    }
    items, next := page.items, page.nextBefore;
  }

  /**
   * Rows may come and go anywhere between the requests of either scheme: the walk still ends, lists in strictly
   * descending order, so no row twice, only rows that were there, and every row that stayed throughout.
   */
  method WalkChanging(tables: nat -> seq<nat>, limit: nat, lookahead: bool) returns (listed: seq<nat>, requests: nat)
    requires limit > 0 && AlwaysDescending(tables)
    ensures Descending(listed) && forall x :: x in listed ==> WasThere(tables, requests, x)
    ensures forall x :: Stays(tables, requests, x) ==> x in listed
  {
    listed, requests := [], 0;
    var before: Option<nat>, more := None, true;
    while more
      invariant more ==> (before.None? <==> requests == 0) && (before.None? ==> listed == [])
      invariant more && before.Some? ==> ListedDownTo(tables, requests, listed, before)
      invariant !more ==> ListedDownTo(tables, requests, listed, Some(0))
      decreases more, requests == 0, if before.Some? then before.value else 0
    {
      var items, next := NextOf(tables, limit, lookahead, requests, before);
      if before.Some? {
        ListedFurther(tables, requests, listed, before, items, if next.Some? then next else Some(0));
      } else {
        FirstListed(tables, items, if next.Some? then next else Some(0));
      }
      listed, requests := listed + items, requests + 1;
      before, more := next, next.Some?;
    }
  }

  function Narrowed(tables: nat -> seq<nat>, like: nat -> bool): nat -> seq<nat> {
    (k: nat) => Filter(tables(k), like)
  }

  lemma NarrowedGrows(tables: nat -> seq<nat>, like: nat -> bool)
    requires Grows(tables)
    ensures Grows(Narrowed(tables, like))
  {
    forall k: nat
      ensures GrewAt(Narrowed(tables, like), k)
    {
      assert GrewAt(tables, k);
      FilterDescends(tables(k), like);
      FilterEnds(tables(k + 1), tables(k), like);
    }
  }

  lemma FilterEnds(a: seq<nat>, b: seq<nat>, keep: nat -> bool)
    requires EndsWith(a, b)
    ensures EndsWith(Filter(a, keep), Filter(b, keep))
  {
    assert a == a[..|a| - |b|] + b;
    FilterConcat(a[..|a| - |b|], b, keep);
  }

  lemma NarrowedRemaining(tables: nat -> seq<nat>, like: nat -> bool, k: nat, i: nat, before: Option<nat>)
    requires Grows(tables) && i <= |Filter(tables(0), like)|
    requires before == (if i == 0 then None else Some(Filter(tables(0), like)[i - 1])) && (i == 0 ==> k == 0)
    ensures Filter(Filter(tables(k), like), Older(before)) == Filter(tables(0), like)[i..]
  {
    NarrowedGrows(tables, like);
    Remaining(Narrowed(tables, like), k, i, before);
  }

  lemma SectionEnds(rows: seq<nat>, like: nat -> bool, touches: nat -> bool, limit: nat, requests: nat)
    requires limit > 0 && requests > 0 && forall x :: touches(x) ==> like(x)
    requires Pages(limit, requests - 1) <= |Filter(rows, like)| < Pages(limit, requests)
    ensures Filter(Filter(rows, like), touches) == Filter(rows, touches)
    ensures requests == |Filter(rows, like)| / limit + 1
  {
    FilterTwice(rows, like, touches);
    ShortPage(|Filter(rows, like)|, limit, requests);
  }

  lemma FilterNext(rows: seq<nat>, n: nat, next: nat, keep: nat -> bool)
    requires n <= next <= |rows|
    ensures Filter(rows[..n], keep) + Filter(rows[n..next], keep) == Filter(rows[..next], keep)
  {
    FilterConcat(rows[..n], rows[n..next], keep);
    assert rows[..n] + rows[n..next] == rows[..next];
  }

  /** One request of the walk, which has `n` text matches behind it and ends up with `next`. */
  method NextSectionPage(tables: nat -> seq<nat>, like: nat -> bool, touches: nat -> bool, limit: nat, k: nat,
                         ghost n: nat, before: Option<nat>)
    returns (page: Page, ghost next: nat)
    requires limit > 0 && Grows(tables) && n <= |Filter(tables(0), like)|
    requires before == (if n == 0 then None else Some(Filter(tables(0), like)[n - 1])) && (n == 0 ==> k == 0)
    ensures var first := Filter(tables(0), like);
            n <= next <= |first| && page.items == Filter(first[n..next], touches) &&
            (page.nextBefore.Some? <==> n + limit <= |first|) &&
            (page.nextBefore.Some? ==> next == n + limit && page.nextBefore.value == first[next - 1]) &&
            (page.nextBefore.None? ==> next == |first|)
  {
    NarrowedRemaining(tables, like, k, n, before);
    page := SectionPage(tables(k), like, touches, before, limit);
    next := TakeIs(Filter(tables(0), like), n, limit);
  }

  /**
   * The section history lists exactly the revisions whose diff names the section, although whole pages may
   * come out empty: the walk follows the unfiltered `nextBefore`.
   */
  method WalkSection(tables: nat -> seq<nat>, like: nat -> bool, touches: nat -> bool, limit: nat)
    returns (listed: seq<nat>, requests: nat)
    requires limit > 0 && Grows(tables)
    requires forall x :: touches(x) ==> like(x)
    ensures listed == Filter(tables(0), touches)
    ensures requests == |Filter(tables(0), like)| / limit + 1
  {
    ghost var first := Filter(tables(0), like);
    listed, requests := [], 0;
    var before: Option<nat>, more := None, true;
    ghost var n := 0;
    while more
      invariant 0 <= n <= |first| && listed == Filter(first[..n], touches)
      invariant more ==> n == Pages(limit, requests) && (n == 0 ==> requests == 0)
      invariant more ==> before == if n == 0 then None else Some(first[n - 1])
      invariant !more ==> requests > 0 && n == |first| && Pages(limit, requests - 1) <= n < Pages(limit, requests)
      decreases more, |first| - n
    {
      ghost var next;
      var page;
      page, next := NextSectionPage(tables, like, touches, limit, requests, n, before);
      FilterNext(first, n, next, touches);
      listed, n := listed + page.items, next;
      before, more, requests := page.nextBefore, page.nextBefore.Some?, requests + 1;
    }
    SectionEnds(tables(0), like, touches, limit, requests);
    assert first[..n] == first;
  }
}
