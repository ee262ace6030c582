/** A client's walk through the alerts list, request by request, while the table changes in between. */
module AlertRuns {
  import opened Options
  import opened AlertWalk
  import opened Decimal

  /** What the client got: an alert and its key at the time of reading. */
  datatype Entry = Entry(id: nat, key: Key)

  /** `nextId` is the table's auto-increment counter; `cursor` is what the client sends next. */
  datatype Walk = Walk(table: Table, nextId: nat, cursor: Option<Key>, done: bool, listed: seq<Entry>)

  function Entries(t: Table, rows: seq<nat>): seq<Entry>
    requires forall x :: x in rows ==> x in t
  {
    seq(|rows|, i requires 0 <= i < |rows| => assert rows[i] in rows; Entry(rows[i], KeyOf(t, rows[i])))
  }

  ghost function Found(q: Query, s: Walk): set<nat> {
    Candidates(s.table, q, s.cursor)
  }

  ghost function PageRows(q: Query, s: Walk): (rows: seq<nat>)
    ensures forall x :: x in rows ==> x in s.table
  {
    TopRowsPage(s.table, Found(q, s), q.limit);
    TopRows(s.table, Found(q, s), q.limit)
  }

  /** One request, answered as `AlertWalk.Index` answers it; no next cursor ends the walk. */
  ghost function Fetched(q: Query, s: Walk): Walk
    requires q.limit > 0
  {
    var next := NextKey(s.table, Found(q, s), q.limit);
    Walk(s.table, s.nextId, if next.Some? then next else s.cursor, next.None?, s.listed + Entries(s.table, PageRows(q, s)))
  }

  predicate InCursorWidth(k: Key) {
    0 <= k.at * 1000 < Power10(15) && k.id < Power10(20)
  }

  /** What the client sends next: the cursor's text, if it has one. */
  function WithCursor(q: Query, cursor: Option<Key>): Query {
    q.(before := if cursor.Some? then Some(CursorOf(cursor.value)) else None)
  }

  /** The endpoint reads the sent text as the cursor of the walk and looks at the same candidates. */
  lemma CursorIsPassedOn(q: Query, t: Table, cursor: Option<Key>)
    requires cursor.Some? ==> InCursorWidth(cursor.value)
    ensures CursorIn(WithCursor(q, cursor)) == cursor && (Accepts(WithCursor(q, cursor)) <==> Accepts(q.(before := None)))
    ensures Candidates(t, WithCursor(q, cursor), cursor) == Candidates(t, q, cursor)
  {
    if cursor.Some? {
      CursorRoundTrip(cursor.value);
    }
  }

  /** A request through the endpoint is the step of the walk; the client keeps the text it was given. */
  method RequestPage(q: Query, s: Walk) returns (alerts: seq<nat>, nextCursor: Option<string>)
    requires q.limit > 0 && Accepts(q.(before := None)) && (s.cursor.Some? ==> InCursorWidth(s.cursor.value))
    ensures alerts == PageRows(q, s)
    ensures nextCursor.None? <==> Fetched(q, s).done
    ensures nextCursor.Some? ==> Fetched(q, s).cursor.Some? && nextCursor.value == CursorOf(Fetched(q, s).cursor.value)
  {
    CursorIsPassedOn(q, s.table, s.cursor);
    var r := Index(s.table, WithCursor(q, s.cursor));
    alerts, nextCursor := r.value.alerts, r.value.nextCursor;
  }

  /** Anyone else may do anything to the table. */
  ghost predicate Changed(s: Walk, s': Walk) {
    s' == s.(table := s'.table, nextId := s'.nextId)
  }

  ghost predicate Step(q: Query, s: Walk, s': Walk)
    requires q.limit > 0
  {
    !s.done && (s' == Fetched(q, s) || Changed(s, s'))
  }

  ghost predicate Run(q: Query, run: seq<Walk>) {
    q.limit > 0 && run != [] && run[0].cursor == None && !run[0].done && run[0].listed == [] &&
    forall i :: 0 <= i < |run| - 1 ==> Step(q, run[i], run[i + 1])
  }

  // ── listed keys descend ────────────────────────────────────────────────

  ghost predicate KeysDescend(listed: seq<Entry>) {
    forall i, j :: 0 <= i < j < |listed| ==> Under(listed[j].key, listed[i].key)
  }

  /** Nothing listed lies under the cursor. */
  ghost predicate Above(listed: seq<Entry>, cursor: Option<Key>) {
    forall i :: 0 <= i < |listed| ==> cursor.Some? && !Under(listed[i].key, cursor.value)
  }

  lemma PageBelow(q: Query, s: Walk) returns (page: seq<Entry>)
    requires q.limit > 0 && Above(s.listed, s.cursor)
    ensures page == Entries(s.table, PageRows(q, s)) && KeysDescend(page)
    ensures forall i, j :: 0 <= i < |s.listed| && 0 <= j < |page| ==> Under(page[j].key, s.listed[i].key)
    ensures |Found(q, s)| > q.limit ==> page != [] && Fetched(q, s).cursor == Some(page[|page| - 1].key)
  {
    var rows := PageRows(q, s);
    page := Entries(s.table, rows);
    TopRowsPage(s.table, Found(q, s), q.limit);
    forall i, j | 0 <= i < |s.listed| && 0 <= j < |page|
      ensures Under(page[j].key, s.listed[i].key)
    {
      assert rows[j] in rows;
    }
  }

  lemma FetchDescends(q: Query, s: Walk)
    requires q.limit > 0 && KeysDescend(s.listed) && Above(s.listed, s.cursor)
    ensures KeysDescend(Fetched(q, s).listed)
    ensures !Fetched(q, s).done ==> Above(Fetched(q, s).listed, Fetched(q, s).cursor)
  {
    var page := PageBelow(q, s);
    JoinDescends(s.listed, page);
    if |Found(q, s)| > q.limit {
      LastBelow(s.listed, page);
    }
  }

  lemma JoinDescends(a: seq<Entry>, b: seq<Entry>)
    requires KeysDescend(a) && KeysDescend(b)
    requires forall i, j :: 0 <= i < |a| && 0 <= j < |b| ==> Under(b[j].key, a[i].key)
    ensures KeysDescend(a + b)
  {
  }

  lemma LastBelow(a: seq<Entry>, b: seq<Entry>)
    requires b != [] && KeysDescend(b)
    requires forall i, j :: 0 <= i < |a| && 0 <= j < |b| ==> Under(b[j].key, a[i].key)
    ensures Above(a + b, Some(b[|b| - 1].key))
  {
  }

  /** Whatever happens to the table, the keys a walk lists strictly descend. */
  lemma {:induction false} ListedKeysDescend(q: Query, run: seq<Walk>, n: nat)
    requires Run(q, run) && n < |run|
    ensures KeysDescend(run[n].listed)
    ensures !run[n].done ==> Above(run[n].listed, run[n].cursor)
  {
    if n > 0 {
      ListedKeysDescend(q, run, n - 1);
      assert Step(q, run[n - 1], run[n]);
      if run[n] == Fetched(q, run[n - 1]) {
        FetchDescends(q, run[n - 1]);
      }
    }
  }

  // ── no alert twice ─────────────────────────────────────────────────────

  /** Alerts are only ever bumped up, and a new alert gets a number never used before. */
  ghost predicate Orderly(s: Walk, s': Walk) {
    s.nextId <= s'.nextId &&
    forall id :: id in s'.table ==>
      id < s'.nextId && if id in s.table then s.table[id].bumped <= s'.table[id].bumped else id >= s.nextId
  }

  ghost predicate OrderlyRun(run: seq<Walk>) {
    run != [] && (forall id :: id in run[0].table ==> id < run[0].nextId) &&
    forall i :: 0 <= i < |run| - 1 ==> Orderly(run[i], run[i + 1])
  }

  /** A listed alert has only risen since, and its number is spent. */
  ghost predicate Settled(s: Walk) {
    forall i :: 0 <= i < |s.listed| ==>
      s.listed[i].id < s.nextId &&
      (s.listed[i].id in s.table ==> !Under(KeyOf(s.table, s.listed[i].id), s.listed[i].key))
  }

  ghost predicate Distinct(listed: seq<Entry>) {
    forall i, j :: 0 <= i < j < |listed| ==> listed[i].id != listed[j].id
  }

  lemma FetchDistinct(q: Query, s: Walk)
    requires q.limit > 0 && Settled(s) && Distinct(s.listed) && Above(s.listed, s.cursor)
    requires forall id :: id in s.table ==> id < s.nextId
    ensures Settled(Fetched(q, s)) && Distinct(Fetched(q, s).listed)
  {
    var rows := PageRows(q, s);
    TopRowsPage(s.table, Found(q, s), q.limit);
    assert forall j :: 0 <= j < |rows| ==> rows[j] in rows && UnderCursor(KeyOf(s.table, rows[j]), s.cursor);
  }

  lemma StepDistinct(q: Query, s: Walk, s': Walk)
    requires q.limit > 0 && Step(q, s, s') && Orderly(s, s') && Settled(s) && Distinct(s.listed) && Above(s.listed, s.cursor)
    requires forall id :: id in s.table ==> id < s.nextId
    ensures Settled(s') && Distinct(s'.listed) && forall id :: id in s'.table ==> id < s'.nextId
  {
    if s' == Fetched(q, s) {
      FetchDistinct(q, s);
    }
  }

  /** With orderly changes no alert is listed twice. */
  lemma {:induction false} NoAlertTwice(q: Query, run: seq<Walk>, n: nat)
    requires Run(q, run) && OrderlyRun(run) && n < |run|
    ensures Distinct(run[n].listed)
    ensures Settled(run[n]) && forall id :: id in run[n].table ==> id < run[n].nextId
  {
    if n > 0 {
      NoAlertTwice(q, run, n - 1);
      ListedKeysDescend(q, run, n - 1);
      assert Step(q, run[n - 1], run[n]) && Orderly(run[n - 1], run[n]);
      StepDistinct(q, run[n - 1], run[n]);
    }
  }

  // ── every matching alert once, unless it was bumped over the cursor ────

  function Times(listed: seq<Entry>, id: nat): nat {
    if listed == [] then 0 else Times(listed[..|listed| - 1], id) + if listed[|listed| - 1].id == id then 1 else 0
  }

  /** Where an alert is listed. */
  function Places(listed: seq<Entry>, id: nat): set<int> {
    set i | 0 <= i < |listed| && listed[i].id == id
  }

  lemma PlacesNext(c: seq<Entry>, e: Entry, id: nat)
    ensures Places(c + [e], id) == Places(c, id) + if e.id == id then {|c|} else {}
  {
  }

  /** The times an alert is listed are its places in the list. */
  lemma {:induction false} TimesAre(listed: seq<Entry>, id: nat)
    ensures Times(listed, id) == |Places(listed, id)|
  {
    if listed != [] {
      var c := listed[..|listed| - 1];
      assert listed == c + [listed[|c|]];
      TimesAre(c, id);
      PlacesNext(c, listed[|c|], id);
    }
  }

  lemma {:induction false} TimesConcat(a: seq<Entry>, b: seq<Entry>, id: nat)
    ensures Times(a + b, id) == Times(a, id) + Times(b, id)
  {
    if b == [] {
      assert a + b == a;
    } else {
      assert (a + b)[..|a + b| - 1] == a + b[..|b| - 1];
      TimesConcat(a, b[..|b| - 1], id);
    }
  }

  /** A page names each of its rows once. */
  lemma {:induction false} TimesInPage(t: Table, rows: seq<nat>, id: nat)
    requires Descends(t, rows)
    ensures forall x :: x in rows ==> x in t
    ensures Times(Entries(t, rows), id) == if id in rows then 1 else 0
  {
    if rows != [] {
      var c := rows[..|rows| - 1];
      assert rows == c + [rows[|rows| - 1]];
      TimesInPage(t, c, id);
      assert Entries(t, rows)[..|rows| - 1] == Entries(t, c);
      if id in c {
        var i :| 0 <= i < |c| && c[i] == id;
        assert Under(KeyOf(t, rows[|rows| - 1]), KeyOf(t, rows[i]));
      }
    }
  }

  /** Alert `id` exists and matches all along, and is only ever bumped up. */
  ghost predicate Follows(q: Query, run: seq<Walk>, id: nat) {
    (forall i :: 0 <= i < |run| ==> id in run[i].table && Wanted(q, run[i].table[id])) &&
    forall i :: 0 <= i < |run| - 1 && id in run[i].table && id in run[i + 1].table ==>
      run[i].table[id].bumped <= run[i + 1].table[id].bumped
  }

  ghost predicate Waiting(s: Walk, id: nat)
    requires id in s.table
  {
    UnderCursor(KeyOf(s.table, id), s.cursor)
  }

  /** Some bump lifted the alert over the cursor while it was still waiting below. */
  ghost predicate LiftedAt(run: seq<Walk>, id: nat, i: nat) {
    i + 1 < |run| && id in run[i].table && id in run[i + 1].table &&
    Waiting(run[i], id) && !UnderCursor(KeyOf(run[i + 1].table, id), run[i].cursor)
  }

  ghost predicate LiftedBy(run: seq<Walk>, id: nat, n: nat) {
    exists i :: 0 <= i < n && LiftedAt(run, id, i)
  }

  /** A candidate is on a page that leaves some out exactly when it is not below the page's last row. */
  lemma OnPageIff(t: Table, s: set<nat>, limit: nat, id: nat)
    requires s <= t.Keys && id in s && 0 < limit < |s|
    ensures |TopRows(t, s, limit)| == limit && Descends(t, TopRows(t, s, limit))
    ensures id in TopRows(t, s, limit) <==> !Under(KeyOf(t, id), KeyOf(t, TopRows(t, s, limit)[limit - 1]))
  {
    TopRowsPage(t, s, limit);
    var rows := TopRows(t, s, limit);
    var last := rows[limit - 1];
    assert last in rows;
    if id in rows {
      var i :| 0 <= i < |rows| && rows[i] == id;
      assert i < limit - 1 ==> Under(KeyOf(t, last), KeyOf(t, id));
    }
  }

  lemma OnLastPage(t: Table, s: set<nat>, limit: nat, id: nat)
    requires s <= t.Keys && id in s && |s| <= limit
    ensures id in TopRows(t, s, limit)
  {
    TopRowsPage(t, s, limit);
    AllTaken(t, TopRows(t, s, limit), s, id);
  }

  lemma NotFound(t: Table, s: set<nat>, limit: nat, id: nat)
    requires s <= t.Keys && id !in s
    ensures id !in TopRows(t, s, limit)
  {
    TopRowsPage(t, s, limit);
  }

  lemma FetchCounts(q: Query, s: Walk, id: nat)
    requires q.limit > 0
    ensures Times(Fetched(q, s).listed, id) == Times(s.listed, id) + if id in PageRows(q, s) then 1 else 0
  {
    TopRowsPage(s.table, Found(q, s), q.limit);
    TimesInPage(s.table, PageRows(q, s), id);
    TimesConcat(s.listed, Entries(s.table, PageRows(q, s)), id);
  }

  /** The cursor only moves down. */
  lemma FetchLowers(q: Query, s: Walk)
    requires q.limit > 0
    ensures !Fetched(q, s).done ==> Fetched(q, s).cursor.Some? && UnderCursor(Fetched(q, s).cursor.value, s.cursor)
  {
    TopRowsPage(s.table, Found(q, s), q.limit);
    if |Found(q, s)| > q.limit {
      assert PageRows(q, s)[q.limit - 1] in PageRows(q, s);
    }
  }

  /** A wanted alert is on the page exactly when it was waiting and the page gets down to it. */
  lemma PageHas(q: Query, s: Walk, id: nat)
    requires q.limit > 0 && id in s.table && Wanted(q, s.table[id])
    ensures id in PageRows(q, s) <==> Waiting(s, id) && (Fetched(q, s).done || !Waiting(Fetched(q, s), id))
  {
    var found := Found(q, s);
    if !Waiting(s, id) {
      NotFound(s.table, found, q.limit, id);
    } else if |found| > q.limit {
      OnPageIff(s.table, found, q.limit, id);
    } else {
      OnLastPage(s.table, found, q.limit, id);
    }
  }

  lemma FetchFinds(q: Query, s: Walk, id: nat)
    requires q.limit > 0 && id in s.table && Wanted(q, s.table[id])
    ensures var s' := Fetched(q, s);
            Times(s'.listed, id) == Times(s.listed, id) + if Waiting(s, id) && (s'.done || !Waiting(s', id)) then 1 else 0
    ensures !Fetched(q, s).done && !Waiting(s, id) ==> !Waiting(Fetched(q, s), id)
  {
    FetchCounts(q, s, id);
    PageHas(q, s, id);
    FetchLowers(q, s);
  }

  lemma AllTaken(t: Table, rows: seq<nat>, s: set<nat>, id: nat)
    requires Descends(t, rows) && |rows| >= |s| && forall x :: x in rows ==> x in s
    ensures id in s ==> id in rows
  {
    if id in s && id !in rows {
      RowsFit(t, rows, s - {id});
      assert false;
    }
  }

  /** How an alert that is there and wanted stands: lifted away, listed, or waiting. */
  ghost predicate Stands(s: Walk, id: nat, lifted: bool)
    requires id in s.table
  {
    if lifted then Times(s.listed, id) == 0 && (!s.done ==> !Waiting(s, id))
    else Times(s.listed, id) == if !s.done && Waiting(s, id) then 0 else 1
  }

  lemma StandsOnFetch(q: Query, s: Walk, id: nat, lifted: bool)
    requires q.limit > 0 && !s.done && id in s.table && Wanted(q, s.table[id]) && Stands(s, id, lifted)
    ensures Stands(Fetched(q, s), id, lifted)
  {
    FetchFinds(q, s, id);
  }

  lemma StandsOnChange(s: Walk, s': Walk, id: nat, lifted: bool)
    requires Changed(s, s') && !s.done && id in s.table && id in s'.table && Stands(s, id, lifted)
    requires s.table[id].bumped <= s'.table[id].bumped
    ensures Stands(s', id, lifted || (Waiting(s, id) && !UnderCursor(KeyOf(s'.table, id), s.cursor)))
  {
  }

  lemma LiftedNext(run: seq<Walk>, id: nat, n: nat)
    ensures LiftedBy(run, id, n + 1) <==> LiftedBy(run, id, n) || LiftedAt(run, id, n)
  {
  }

  /** At every point of a walk: still waiting, or listed once, or lifted over the cursor and never listed. */
  lemma {:induction false} WaitingOrListed(q: Query, run: seq<Walk>, id: nat, n: nat)
    requires Run(q, run) && Follows(q, run, id) && n < |run|
    ensures id in run[n].table && Stands(run[n], id, LiftedBy(run, id, n))
  {
    if n == 0 {
      assert !LiftedBy(run, id, 0);
    } else {
      var s, s' := run[n - 1], run[n];
      WaitingOrListed(q, run, id, n - 1);
      LiftedNext(run, id, n - 1);
      assert Step(q, s, s');
      if s' == Fetched(q, s) {
        StandsOnFetch(q, s, id, LiftedBy(run, id, n - 1));
        assert !LiftedAt(run, id, n - 1);
      } else {
        StandsOnChange(s, s', id, LiftedBy(run, id, n - 1));
      }
    }
  }

  /**
   * A finished walk lists an alert that matched throughout exactly once, unless a bump lifted it over the
   * cursor while it waited; then it is not listed at all. Other alerts may change in any way.
   */
  lemma ListedOnceIffNotLifted(q: Query, run: seq<Walk>, id: nat)
    requires Run(q, run) && Follows(q, run, id) && run[|run| - 1].done
    ensures Times(run[|run| - 1].listed, id) == if LiftedBy(run, id, |run| - 1) then 0 else 1
  {
    WaitingOrListed(q, run, id, |run| - 1);
  }

  /** An alert whose key never changes is listed exactly once. */
  lemma UnchangedIsListedOnce(q: Query, run: seq<Walk>, id: nat)
    requires Run(q, run) && Follows(q, run, id) && run[|run| - 1].done
    requires forall i :: 0 <= i < |run| ==> id in run[i].table && run[i].table[id].bumped == run[0].table[id].bumped
    ensures Times(run[|run| - 1].listed, id) == 1
  {
    ListedOnceIffNotLifted(q, run, id);
    forall i | 0 <= i < |run| - 1
      ensures !LiftedAt(run, id, i)
    {
      assert run[i].table[id].bumped == run[i + 1].table[id].bumped;
    }
  }

  // ── the walk ends ──────────────────────────────────────────────────────

  ghost function Ahead(s: Walk): set<nat> {
    set id | id in s.table && UnderCursor(KeyOf(s.table, id), s.cursor)
  }

  /** Nothing is placed under the cursor: new alerts carry the current time. */
  ghost predicate OnTop(s: Walk, s': Walk) {
    s'.cursor == s.cursor ==> Ahead(s') <= Ahead(s)
  }

  function Requests(run: seq<Walk>, n: nat): nat
    requires n < |run|
  {
    if n == 0 then 0 else Requests(run, n - 1) + if run[n].cursor != run[n - 1].cursor then 1 else 0
  }

  predicate Moved(run: seq<Walk>, i: int) {
    0 < i < |run| && run[i].cursor != run[i - 1].cursor
  }

  /** The steps up to `n` that move the cursor. */
  function Moves(run: seq<Walk>, n: nat): set<int> {
    set i | 0 < i <= n && Moved(run, i)
  }

  lemma {:induction false} RequestsAre(run: seq<Walk>, n: nat)
    requires n < |run|
    ensures Requests(run, n) == |Moves(run, n)|
  {
    if n > 0 {
      RequestsAre(run, n - 1);
      assert Moves(run, n) == Moves(run, n - 1) + if Moved(run, n) then {n} else {};
    }
  }

  lemma FetchShrinks(q: Query, s: Walk)
    requires q.limit > 0 && !Fetched(q, s).done
    ensures |Ahead(Fetched(q, s))| + q.limit <= |Ahead(s)|
    ensures Fetched(q, s).cursor != s.cursor
  {
    var rows, s' := PageRows(q, s), Fetched(q, s);
    TopRowsPage(s.table, Found(q, s), q.limit);
    var last := rows[q.limit - 1];
    assert last in rows;
    forall x | x in rows
      ensures x in Ahead(s) - Ahead(s')
    {
      var i :| 0 <= i < |rows| && rows[i] == x;
      assert i < q.limit - 1 ==> Under(KeyOf(s.table, last), KeyOf(s.table, x));
    }
    RowsFit(s.table, rows, Ahead(s) - Ahead(s'));
    assert Ahead(s') <= Ahead(s) by {
      forall x | x in Ahead(s')
        ensures x in Ahead(s)
      {
        assert UnderCursor(KeyOf(s.table, last), s.cursor);
      }
    }
    assert |Ahead(s) - Ahead(s')| == |Ahead(s)| - |Ahead(s')|;
  }

  lemma FewerAhead(a: set<nat>, b: set<nat>)
    requires a <= b
    ensures |a| <= |b|
  {
    assert b == a + (b - a);
  }

  /** Every request that does not end the walk uses up `limit` of the rows that were there at the start. */
  lemma {:induction false} WalkIsBounded(q: Query, run: seq<Walk>, n: nat)
    requires Run(q, run) && n < |run| && !run[n].done
    requires forall i :: 0 <= i < |run| - 1 ==> OnTop(run[i], run[i + 1])
    ensures q.limit * Requests(run, n) + |Ahead(run[n])| <= |run[0].table|
  {
    if n == 0 {
      assert Ahead(run[0]) == run[0].table.Keys;
    } else {
      var s, s' := run[n - 1], run[n];
      assert Step(q, s, s') && OnTop(s, s');
      WalkIsBounded(q, run, n - 1);
      if s' == Fetched(q, s) {
        FetchShrinks(q, s);
        Scaled(q.limit, Requests(run, n - 1));
      } else {
        FewerAhead(Ahead(s'), Ahead(s));
      }
    }
  }

  lemma Scaled(limit: nat, r: nat)
    ensures limit * (r + 1) == limit * r + limit
  {
  }

  // ── a bumped alert can be missed ───────────────────────────────────────

  function Plain(bumped: int): Alert {
    Alert(Active, false, Info, "wifi", "ap_offline", Subject("ap", "4"), bumped)
  }

  const EVERYTHING := Query(false, false, None, [], [], AnySubject, None, 1)

  const TWO: Table := map[1 := Plain(10), 2 := Plain(9)]

  const TWO_LATER: Table := map[1 := Plain(10), 2 := Plain(11)]

  const START := Walk(TWO, 3, None, false, [])

  const MIDDLE := Walk(TWO, 3, Some(Key(10, 1)), false, [Entry(1, Key(10, 1))])

  lemma FirstPage()
    ensures Fetched(EVERYTHING, START) == MIDDLE
  {
    assert Found(EVERYTHING, START) == {1, 2};
    TopRowsPage(TWO, {1, 2}, 1);
    var rows := PageRows(EVERYTHING, START);
    assert rows[0] in rows;
    assert Under(KeyOf(TWO, 2), KeyOf(TWO, 1)) && 1 in {1, 2};
    assert rows == [1];
    assert Entries(TWO, rows) == [Entry(1, Key(10, 1))];
  }

  lemma LastPage()
    ensures Fetched(EVERYTHING, MIDDLE.(table := TWO_LATER)) == MIDDLE.(table := TWO_LATER, done := true)
  {
    var s := MIDDLE.(table := TWO_LATER);
    assert Found(EVERYTHING, s) == {};
    assert Entries(s.table, []) == [];
  }

  const LATER := MIDDLE.(table := TWO_LATER)

  const SKIPPING := [START, MIDDLE, LATER, LATER.(done := true)]

  lemma SkippingIsARun()
    ensures Run(EVERYTHING, SKIPPING)
  {
    FirstPage();
    LastPage();
    assert Step(EVERYTHING, START, MIDDLE);
    assert Changed(MIDDLE, LATER);
    assert Step(EVERYTHING, MIDDLE, LATER);
    assert Step(EVERYTHING, LATER, LATER.(done := true));
    forall i | 0 <= i < 3
      ensures Step(EVERYTHING, SKIPPING[i], SKIPPING[i + 1])
    {
      assert i == 0 || i == 1 || i == 2;
    }
  }

  lemma AlertTwoFollows()
    ensures OrderlyRun(SKIPPING) && Follows(EVERYTHING, SKIPPING, 2)
  {
    assert 2 in TWO && 2 in TWO_LATER && Wanted(EVERYTHING, TWO[2]) && Wanted(EVERYTHING, TWO_LATER[2]);
    assert Orderly(START, MIDDLE) && Orderly(MIDDLE, LATER) && Orderly(LATER, LATER.(done := true));
  }

  /** Alert 2 matches throughout, is bumped between the two requests, and never shows up. */
  lemma BumpedAlertIsMissed()
    ensures Run(EVERYTHING, SKIPPING) && OrderlyRun(SKIPPING) && Follows(EVERYTHING, SKIPPING, 2)
    ensures SKIPPING[3].done && Times(SKIPPING[3].listed, 2) == 0
  {
    SkippingIsARun();
    AlertTwoFollows();
    assert LATER.listed[..0] == [];
  }
}
