/** The alerts inbox: one keyset page, and a whole walk over a table that changes between its requests. */
module AlertWalk {
  import opened Options
  import opened Decimal

  datatype Severity = Info | Warning | Critical

  datatype Lifecycle = Pending | Active | Posted | Resolved

  datatype Subject = Subject(kind: string, reference: string)

  /** The columns the list filters and orders by; `bumped` is a whole second, as the DATETIME keeps it. */
  datatype Alert = Alert(lifecycle: Lifecycle, quietResolve: bool, severity: Severity, category: string,
                         alertType: string, subject: Subject, bumped: int)

  /** The alerts table by primary key. */
  type Table = map<nat, Alert>

  datatype Key = Key(at: int, id: nat)

  predicate Under(a: Key, b: Key) {
    a.at < b.at || (a.at == b.at && a.id < b.id)
  }

  predicate UnderCursor(a: Key, cursor: Option<Key>) {
    cursor.Some? ==> Under(a, cursor.value)
  }

  function KeyOf(t: Table, id: nat): Key
    requires id in t
  {
    Key(t[id].bumped, id)
  }

  // ── what a request asks for ────────────────────────────────────────────

  datatype SubjectParam = AnySubject | MalformedSubject | OneSubject(subject: Subject)

  /** The validated query string; the comma lists are already split, trimmed and rid of blanks. */
  datatype Query = Query(activeOnly: bool, blips: bool, minSeverity: Option<Severity>, categories: seq<string>,
                         types: seq<string>, subject: SubjectParam, before: Option<string>, limit: nat)

  datatype Error = UnknownCategory(name: string) | TooManyTypes | BadSubject | BadCursor

  datatype Result<T> = Ok(value: T) | Err(error: Error)

  datatype Page = Page(alerts: seq<nat>, nextCursor: Option<string>)

  const CATEGORIES: seq<string> :=
    ["agents", "wan", "gateway", "wifi", "network", "portal", "updates", "system"]

  function Rank(s: Severity): nat {
    match s
    case Info => 0
    case Warning => 1
    case Critical => 2
  }

  /** The inbox rule as the alert view states it: not pending, not a quiet resolve. */
  predicate IsVisible(a: Alert) {
    a.lifecycle != Pending && !(a.lifecycle == Resolved && a.quietResolve)
  }

  /** What a request's filters mean. */
  predicate Wanted(q: Query, a: Alert) {
    (if q.activeOnly then a.lifecycle == Active || (q.blips && a.lifecycle == Pending) else q.blips || IsVisible(a)) &&
    (q.minSeverity.Some? ==> Rank(a.severity) >= Rank(q.minSeverity.value)) &&
    (q.categories != [] ==> a.category in q.categories) &&
    (q.types != [] ==> a.alertType in q.types) &&
    (q.subject.OneSubject? ==> a.subject == q.subject.subject)
  }

  // ── the query builder ──────────────────────────────────────────────────

  datatype Condition =
    | LifecycleIn(states: seq<Lifecycle>)
    | WhereVisible
    | SeverityIn(severities: seq<Severity>)
    | CategoryIn(categories: seq<string>)
    | TypeIn(types: seq<string>)
    | SubjectIs(subject: Subject)
    | Before(cursor: Key)

  predicate Holds(c: Condition, id: nat, a: Alert) {
    match c
    case LifecycleIn(states) => a.lifecycle in states
    case WhereVisible => a.lifecycle in [Active, Posted] || (a.lifecycle == Resolved && !a.quietResolve)
    case SeverityIn(severities) => a.severity in severities
    case CategoryIn(categories) => a.category in categories
    case TypeIn(types) => a.alertType in types
    case SubjectIs(subject) => a.subject == subject
    case Before(cursor) => a.bumped < cursor.at || (a.bumped == cursor.at && id < cursor.id)
  }

  predicate AllHold(where: seq<Condition>, id: nat, a: Alert) {
    forall i :: 0 <= i < |where| ==> Holds(where[i], id, a)
  }

  function SeveritiesFrom(min: Severity): seq<Severity> {
    [Info, Warning, Critical][Rank(min)..]
  }

  // ── the cursor's text ──────────────────────────────────────────────────

  function PrintInt(n: int): string {
    if n < 0 then "-" + Digits(-n) else Digits(n)
  }

  /** `toMillis()` of a whole second, a colon, the id. */
  function CursorOf(k: Key): string {
    PrintInt(k.at * 1000) + ":" + Digits(k.id)
  }

  function ColonAt(s: string): (i: nat)
    ensures i <= |s| && (forall j :: 0 <= j < i ==> s[j] != ':') && (i < |s| ==> s[i] == ':')
  {
    if s == [] || s[0] == ':' then 0 else 1 + ColonAt(s[1..])
  }

  /** One to fifteen digits of milliseconds, a colon, one to twenty digits of id; the time loses its fraction. */
  function ParseCursor(s: string): Option<Key> {
    var i := ColonAt(s);
    if i < |s| && 1 <= i <= 15 && 1 <= |s| - i - 1 <= 20 && AllDigits(s[..i]) && AllDigits(s[i + 1..])
    then Some(Key(Value(s[..i]) / 1000, Value(s[i + 1..])))
    else None
  }

  lemma {:induction false} ColonAfter(left: string, right: string)
    requires forall j :: 0 <= j < |left| ==> left[j] != ':'
    ensures ColonAt(left + ":" + right) == |left|
  {
    if left != [] {
      ColonAfter(left[1..], right);
      assert (left + ":" + right)[1..] == left[1..] + ":" + right;
    }
  }

  lemma ParseParts(left: string, right: string)
    requires AllDigits(left) && AllDigits(right) && left != "" && right != ""
    ensures ParseCursor(left + ":" + right)
            == if |left| <= 15 && |right| <= 20 then Some(Key(Value(left) / 1000, Value(right))) else None
  {
    ColonAfter(left, right);
    var s := left + ":" + right;
    assert s[..|left|] == left && s[|left| + 1..] == right;
  }

  lemma NegativeIsMalformed(s: string)
    requires s != "" && s[0] == '-'
    ensures ParseCursor(s) == None
  {
    if ColonAt(s) > 0 {
      assert s[..ColonAt(s)][0] == '-';
    }
  }

  lemma KeyAgain(at: int, id: nat)
    requires at >= 0
    ensures Key(at * 1000 / 1000, id) == Key(at, id)
  {
  }

  lemma Widths(ms: nat, id: nat)
    ensures |Digits(ms)| <= 15 <==> ms < Power10(15)
    ensures |Digits(id)| <= 20 <==> id < Power10(20)
  {
    DigitCount(ms, 15);
    DigitCount(id, 20);
  }

  lemma ParsePrinted(ms: nat, id: nat)
    ensures ParseCursor(Digits(ms) + ":" + Digits(id))
            == if |Digits(ms)| <= 15 && |Digits(id)| <= 20 then Some(Key(ms / 1000, id)) else None
  {
    ParseDigits(ms);
    ParseDigits(id);
    ParseParts(Digits(ms), Digits(id));
  }

  /** A printed cursor reads back as the same key, exactly for ids and times of the accepted width. */
  lemma CursorRoundTrip(k: Key)
    ensures ParseCursor(CursorOf(k))
            == if 0 <= k.at * 1000 < Power10(15) && k.id < Power10(20) then Some(k) else None
  {
    if k.at < 0 {
      NegativeIsMalformed(CursorOf(k));
    } else {
      ParsePrinted(k.at * 1000, k.id);
      Widths(k.at * 1000, k.id);
      KeyAgain(k.at, k.id);
    }
  }

  // ── ORDER BY bumped_at DESC, id DESC LIMIT n ───────────────────────────

  lemma {:induction false} TopExists(t: Table, s: set<nat>) returns (m: nat)
    requires s <= t.Keys && s != {}
    ensures m in s && forall x :: x in s ==> x == m || Under(KeyOf(t, x), KeyOf(t, m))
    decreases |s|
  {
    var x :| x in s;
    if s == {x} {
      m := x;
    } else {
      var rest := s - {x};
      assert s == rest + {x};
      m := TopExists(t, rest);
      if Under(KeyOf(t, m), KeyOf(t, x)) {
        m := x;
      }
    }
  }

  ghost predicate IsTop(t: Table, s: set<nat>, m: nat)
    requires s <= t.Keys
  {
    m in s && forall x :: x in s ==> x == m || Under(KeyOf(t, x), KeyOf(t, m))
  }

  ghost function Top(t: Table, s: set<nat>): (m: nat)
    requires s <= t.Keys && s != {}
    ensures IsTop(t, s, m)
  {
    assert exists m :: IsTop(t, s, m) by {
      var m := TopExists(t, s);
      assert IsTop(t, s, m);
    }
    var m :| IsTop(t, s, m);
    m
  }

  ghost function TopRows(t: Table, s: set<nat>, n: nat): seq<nat>
    requires s <= t.Keys
    decreases n
  {
    if n == 0 || s == {} then [] else [Top(t, s)] + TopRows(t, s - {Top(t, s)}, n - 1)
  }

  ghost predicate Descends(t: Table, rows: seq<nat>) {
    (forall i :: 0 <= i < |rows| ==> rows[i] in t) &&
    forall i, j :: 0 <= i < j < |rows| ==> Under(KeyOf(t, rows[j]), KeyOf(t, rows[i]))
  }

  /** Rows of `s` in descending order; what is left out lies below all of them, and the page is full. */
  ghost predicate IsPage(t: Table, s: set<nat>, n: nat, rows: seq<nat>)
    requires s <= t.Keys
  {
    Descends(t, rows) && (forall x :: x in rows ==> x in s) &&
    forall x :: x in s && x !in rows ==> |rows| == n && forall y :: y in rows ==> Under(KeyOf(t, x), KeyOf(t, y))
  }

  lemma PageOnTop(t: Table, s: set<nat>, n: nat, m: nat, rest: seq<nat>)
    requires s <= t.Keys && IsTop(t, s, m) && n > 0 && IsPage(t, s - {m}, n - 1, rest)
    ensures IsPage(t, s, n, [m] + rest) && |s - {m}| == |s| - 1
  {
    assert forall i :: 0 <= i < |rest| ==> rest[i] in rest;
  }

  /** What a page is. */
  lemma {:induction false} TopRowsPage(t: Table, s: set<nat>, n: nat)
    requires s <= t.Keys
    ensures |TopRows(t, s, n)| == (if |s| <= n then |s| else n) && IsPage(t, s, n, TopRows(t, s, n))
    decreases n
  {
    if n > 0 && s != {} {
      var m := Top(t, s);
      var rest := TopRows(t, s - {m}, n - 1);
      TopRowsPage(t, s - {m}, n - 1);
      PageOnTop(t, s, n, m, rest);
      assert TopRows(t, s, n) == [m] + rest;
    }
  }

  /** Asking for one row more only appends. */
  lemma {:induction false} TopRowsPrefix(t: Table, s: set<nat>, n: nat)
    requires s <= t.Keys
    ensures |TopRows(t, s, n)| <= |TopRows(t, s, n + 1)|
    ensures TopRows(t, s, n + 1)[..|TopRows(t, s, n)|] == TopRows(t, s, n)
    decreases n
  {
    if n > 0 && s != {} {
      TopRowsPrefix(t, s - {Top(t, s)}, n - 1);
    }
  }

  /** The matching rows under the cursor. */
  ghost function Candidates(t: Table, q: Query, cursor: Option<Key>): set<nat> {
    set id | id in t && Wanted(q, t[id]) && UnderCursor(KeyOf(t, id), cursor)
  }

  ghost function NextKey(t: Table, s: set<nat>, limit: nat): Option<Key>
    requires s <= t.Keys && limit > 0
  {
    TopRowsPage(t, s, limit);
    if |s| > limit then Some(KeyOf(t, TopRows(t, s, limit)[limit - 1])) else None
  }

  function Matching(t: Table, where: seq<Condition>): set<nat> {
    set id | id in t && AllHold(where, id, t[id])
  }

  method FindTop(t: Table, s: set<nat>) returns (m: nat)
    requires s <= t.Keys && s != {}
    ensures m == Top(t, s)
  {
    m :| m in s;
    var seen := {m};
    while seen != s
      invariant seen <= s && IsTop(t, seen, m)
      decreases |s - seen|
    {
      assert s - seen != {};
      var x :| x in s - seen;
      if Under(KeyOf(t, m), KeyOf(t, x)) {
        m := x;
      }
      assert s - (seen + {x}) < s - seen;
      seen := seen + {x};
    }
  }

  lemma TopRowsStep(t: Table, s: set<nat>, n: nat)
    requires s <= t.Keys && s != {} && n > 0
    ensures TopRows(t, s, n) == [Top(t, s)] + TopRows(t, s - {Top(t, s)}, n - 1)
  {
  }

  method TakeTop(t: Table, s: set<nat>, n: nat) returns (rows: seq<nat>)
    requires s <= t.Keys
    ensures rows == TopRows(t, s, n)
  {
    var rest := s;
    rows := [];
    while rest != {} && |rows| < n
      invariant rest <= s && |rows| <= n
      invariant TopRows(t, s, n) == rows + TopRows(t, rest, n - |rows|)
      decreases |rest|
    {
      var m := FindTop(t, rest);
      TopRowsStep(t, rest, n - |rows|);
      ghost var tail := TopRows(t, rest - {m}, n - |rows| - 1);
      assert rows + ([m] + tail) == (rows + [m]) + tail;
      rows, rest := rows + [m], rest - {m};
    }
  }

  /** The database's answer: the rows that meet every condition, in order, cut at `n`. */
  method Select(t: Table, where: seq<Condition>, n: nat) returns (rows: seq<nat>)
    ensures rows == TopRows(t, Matching(t, where), n)
  {
    rows := TakeTop(t, Matching(t, where), n);
  }

  predicate Known(names: seq<string>) {
    forall i :: 0 <= i < |names| ==> names[i] in CATEGORIES
  }

  /** The errors of a request, in the order the handler meets them. */
  predicate Accepts(q: Query) {
    Known(q.categories) && |q.types| <= 20 && !q.subject.MalformedSubject? &&
    (q.before.Some? && q.before.value != "" ==> ParseCursor(q.before.value).Some?)
  }

  function CursorIn(q: Query): Option<Key> {
    if q.before.Some? && q.before.value != "" then ParseCursor(q.before.value) else None
  }

  function StatePart(q: Query): seq<Condition> {
    if q.activeOnly then [LifecycleIn(if q.blips then [Active, Pending] else [Active])]
    else if !q.blips then [WhereVisible] else []
  }

  function SeverityPart(q: Query): seq<Condition> {
    if q.minSeverity.Some? && q.minSeverity.value != Info then [SeverityIn(SeveritiesFrom(q.minSeverity.value))] else []
  }

  function ListPart(q: Query): seq<Condition> {
    (if q.categories != [] then [CategoryIn(q.categories)] else []) + (if q.types != [] then [TypeIn(q.types)] else [])
  }

  function SubjectPart(q: Query): seq<Condition> {
    if q.subject.OneSubject? then [SubjectIs(q.subject.subject)] else []
  }

  function CursorPart(q: Query): seq<Condition> {
    if CursorIn(q).Some? then [Before(CursorIn(q).value)] else []
  }

  function Where(q: Query): seq<Condition> {
    StatePart(q) + SeverityPart(q) + ListPart(q) + SubjectPart(q) + CursorPart(q)
  }

  lemma HoldBoth(a: seq<Condition>, b: seq<Condition>, id: nat, alert: Alert)
    ensures AllHold(a + b, id, alert) <==> AllHold(a, id, alert) && AllHold(b, id, alert)
  {
    if AllHold(a + b, id, alert) {
      assert forall i :: 0 <= i < |a| ==> (a + b)[i] == a[i];
      assert forall i :: 0 <= i < |b| ==> (a + b)[|a| + i] == b[i];
    }
  }

  lemma HoldsOne(c: Condition, id: nat, a: Alert)
    ensures AllHold([c], id, a) <==> Holds(c, id, a)
  {
    assert [c][0] == c;
  }

  lemma StateMeans(q: Query, id: nat, a: Alert)
    ensures AllHold(StatePart(q), id, a) <==>
            if q.activeOnly then a.lifecycle == Active || (q.blips && a.lifecycle == Pending) else q.blips || IsVisible(a)
  {
    if StatePart(q) != [] {
      HoldsOne(StatePart(q)[0], id, a);
    }
  }

  lemma SeverityMeans(q: Query, id: nat, a: Alert)
    ensures AllHold(SeverityPart(q), id, a) <==> (q.minSeverity.Some? ==> Rank(a.severity) >= Rank(q.minSeverity.value))
  {
    if SeverityPart(q) != [] {
      HoldsOne(SeverityPart(q)[0], id, a);
      var all, from := [Info, Warning, Critical], Rank(q.minSeverity.value);
      assert SeveritiesFrom(q.minSeverity.value) == all[from..];
      if Rank(a.severity) >= from {
        assert all[from..][Rank(a.severity) - from] == a.severity;
      }
    }
  }

  lemma ListMeans(q: Query, id: nat, a: Alert)
    ensures AllHold(ListPart(q), id, a) <==>
            (q.categories != [] ==> a.category in q.categories) && (q.types != [] ==> a.alertType in q.types)
  {
    HoldBoth(if q.categories != [] then [CategoryIn(q.categories)] else [],
             if q.types != [] then [TypeIn(q.types)] else [], id, a);
    HoldsOne(CategoryIn(q.categories), id, a);
    HoldsOne(TypeIn(q.types), id, a);
  }

  /** The collected conditions mean what the filters ask for, below the cursor. */
  lemma Meaning(q: Query, id: nat, a: Alert)
    ensures AllHold(Where(q), id, a) <==> Wanted(q, a) && UnderCursor(Key(a.bumped, id), CursorIn(q))
  {
    HoldBoth(StatePart(q) + SeverityPart(q) + ListPart(q) + SubjectPart(q), CursorPart(q), id, a);
    HoldBoth(StatePart(q) + SeverityPart(q) + ListPart(q), SubjectPart(q), id, a);
    HoldBoth(StatePart(q) + SeverityPart(q), ListPart(q), id, a);
    HoldBoth(StatePart(q), SeverityPart(q), id, a);
    StateMeans(q, id, a);
    SeverityMeans(q, id, a);
    ListMeans(q, id, a);
    if q.subject.OneSubject? {
      HoldsOne(SubjectIs(q.subject.subject), id, a);
    }
    if CursorIn(q).Some? {
      HoldsOne(Before(CursorIn(q).value), id, a);
    }
  }

  ghost predicate IsFirstUnknown(names: seq<string>, name: string) {
    exists i :: 0 <= i < |names| && names[i] == name && name !in CATEGORIES && Known(names[..i])
  }

  method FirstUnknown(names: seq<string>) returns (bad: Option<string>)
    ensures bad.None? <==> Known(names)
    ensures bad.Some? ==> IsFirstUnknown(names, bad.value)
  {
    for i := 0 to |names|
      invariant Known(names[..i])
    {
      if names[i] !in CATEGORIES {
        return Some(names[i]);
      }
      assert forall j :: 0 <= j < i ==> names[..i + 1][j] == names[..i][j];
    }
    assert names[..|names|] == names;
    return None;
  }

  method PushStates(q: Query) returns (where: seq<Condition>)
    ensures where == StatePart(q) + SeverityPart(q)
  {
    where := [];
    if q.activeOnly {
      where := where + [LifecycleIn(if q.blips then [Active, Pending] else [Active])];
    } else if !q.blips {
      where := where + [WhereVisible];
    }
    if q.minSeverity.Some? && q.minSeverity.value != Info {
      where := where + [SeverityIn(SeveritiesFrom(q.minSeverity.value))];
    }
  }

  method PushLists(where: seq<Condition>, q: Query) returns (more: seq<Condition>)
    ensures more == where + ListPart(q)
  {
    more := where;
    if q.categories != [] {
      more := more + [CategoryIn(q.categories)];
    }
    if q.types != [] {
      more := more + [TypeIn(q.types)];
    }
  }

  method PushSubjectAndCursor(where: seq<Condition>, q: Query) returns (more: seq<Condition>)
    ensures more == where + SubjectPart(q) + CursorPart(q)
  {
    more := where;
    if q.subject.OneSubject? {
      more := more + [SubjectIs(q.subject.subject)];
    }
    if CursorIn(q).Some? {
      more := more + [Before(CursorIn(q).value)];
    }
  }

  /** The conditions of a request, pushed one by one, or its first error. */
  method Build(q: Query) returns (r: Result<seq<Condition>>)
    ensures r.Ok? <==> Accepts(q)
    ensures r.Ok? ==> r.value == Where(q)
    ensures !Known(q.categories) <==> r.Err? && r.error.UnknownCategory?
    ensures Known(q.categories) && |q.types| > 20 <==> r == Err(TooManyTypes)
    ensures Known(q.categories) && |q.types| <= 20 && q.subject.MalformedSubject? <==> r == Err(BadSubject)
    ensures r.Err? && r.error.UnknownCategory? ==> IsFirstUnknown(q.categories, r.error.name)
  {
    var where := PushStates(q);
    var bad := FirstUnknown(q.categories);
    if bad.Some? {
      return Err(UnknownCategory(bad.value));
    }
    if |q.types| > 20 {
      return Err(TooManyTypes);
    }
    where := PushLists(where, q);
    if q.subject.MalformedSubject? {
      return Err(BadSubject);
    }
    if q.before.Some? && q.before.value != "" && ParseCursor(q.before.value).None? {
      return Err(BadCursor);
    }
    where := PushSubjectAndCursor(where, q);
    return Ok(where);
  }

  lemma WhereSelects(t: Table, q: Query)
    ensures Matching(t, Where(q)) == Candidates(t, q, CursorIn(q))
  {
    forall id | id in t
      ensures AllHold(Where(q), id, t[id]) <==> Wanted(q, t[id]) && UnderCursor(KeyOf(t, id), CursorIn(q))
    {
      Meaning(q, id, t[id]);
    }
  }

  /** One page: `limit` rows, and the last one's cursor when a row more was found. */
  method Slice(t: Table, ghost s: set<nat>, rows: seq<nat>, limit: nat) returns (page: Page)
    requires limit > 0 && s <= t.Keys && rows == TopRows(t, s, limit + 1)
    ensures page.alerts == TopRows(t, s, limit)
    ensures page.nextCursor.Some? <==> NextKey(t, s, limit).Some?
    ensures page.nextCursor.Some? ==> page.nextCursor.value == CursorOf(NextKey(t, s, limit).value)
  {
    TopRowsPage(t, s, limit);
    TopRowsPage(t, s, limit + 1);
    TopRowsPrefix(t, s, limit);
    if |rows| > limit {
      var alerts := rows[..limit];
      page := Page(alerts, Some(CursorOf(KeyOf(t, alerts[|alerts| - 1]))));
    } else {
      page := Page(rows, None);
    }
  }

  /** The list endpoint: the page a request gets, or its first error. */
  method Index(t: Table, q: Query) returns (r: Result<Page>)
    requires q.limit > 0
    ensures r.Ok? <==> Accepts(q)
    ensures r.Ok? ==>
              var s := Candidates(t, q, CursorIn(q));
              r.value.alerts == TopRows(t, s, q.limit) &&
              (r.value.nextCursor.Some? <==> NextKey(t, s, q.limit).Some?) &&
              (r.value.nextCursor.Some? ==> r.value.nextCursor.value == CursorOf(NextKey(t, s, q.limit).value))
    ensures !Known(q.categories) <==> r.Err? && r.error.UnknownCategory?
    ensures Known(q.categories) && |q.types| > 20 <==> r == Err(TooManyTypes)
    ensures Known(q.categories) && |q.types| <= 20 && q.subject.MalformedSubject? <==> r == Err(BadSubject)
    ensures r.Err? && r.error.UnknownCategory? ==> IsFirstUnknown(q.categories, r.error.name)
  {
    var where := Build(q);
    if where.Err? {
      return Err(where.error);
    }
    WhereSelects(t, q);
    var rows := Select(t, where.value, q.limit + 1);
    var page := Slice(t, Candidates(t, q, CursorIn(q)), rows, q.limit);
    return Ok(page);
  }

  // ── what a request gets, filter by filter ──────────────────────────────

  /** The filters, value by value. */
  lemma WantedIff(q: Query, a: Alert)
    ensures Wanted(q, a) <==>
            (q.activeOnly && q.blips ==> a.lifecycle == Active || a.lifecycle == Pending) &&
            (q.activeOnly && !q.blips ==> a.lifecycle == Active) &&
            (!q.activeOnly && !q.blips ==>
               a.lifecycle == Active || a.lifecycle == Posted || (a.lifecycle == Resolved && !a.quietResolve)) &&
            (q.minSeverity == Some(Critical) ==> a.severity == Critical) &&
            (q.minSeverity == Some(Warning) ==> a.severity == Warning || a.severity == Critical) &&
            (|q.categories| > 0 ==> a.category in q.categories) && (|q.types| > 0 ==> a.alertType in q.types) &&
            (forall subject :: q.subject == OneSubject(subject) ==> a.subject == subject)
  {
  }

  /** The page lists wanted alerts under the cursor, latest bump first and then highest id; it leaves one out only when full. */
  lemma PageListsWanted(t: Table, q: Query, cursor: Option<Key>)
    ensures var rows := TopRows(t, Candidates(t, q, cursor), q.limit);
            |rows| <= q.limit && (forall id :: id in rows ==> id in t && Wanted(q, t[id])) &&
            (forall id :: id in rows && cursor.Some? ==>
               t[id].bumped < cursor.value.at || (t[id].bumped == cursor.value.at && id < cursor.value.id)) &&
            (forall i, j :: 0 <= i < j < |rows| ==>
               t[rows[i]].bumped > t[rows[j]].bumped || (t[rows[i]].bumped == t[rows[j]].bumped && rows[i] > rows[j]))
    ensures var rows := TopRows(t, Candidates(t, q, cursor), q.limit);
            forall id ::
              id in t && id !in rows && Wanted(q, t[id]) &&
              (cursor.None? || t[id].bumped < cursor.value.at || (t[id].bumped == cursor.value.at && id < cursor.value.id))
              ==> |rows| == q.limit &&
                  forall y :: y in rows ==> t[y].bumped > t[id].bumped || (t[y].bumped == t[id].bumped && y > id)
  {
    TopRowsPage(t, Candidates(t, q, cursor), q.limit);
    var rows := TopRows(t, Candidates(t, q, cursor), q.limit);
    assert forall i :: 0 <= i < |rows| ==> rows[i] in rows;
    assert forall id :: id in t ==> KeyOf(t, id) == Key(t[id].bumped, id);
  }

  lemma {:induction false} TooFewRows(s: set<nat>, rows: seq<nat>)
    requires |rows| < |s|
    ensures exists x :: x in s && x !in rows
    decreases rows
  {
    if rows != [] {
      var c, last := rows[..|rows| - 1], rows[|rows| - 1];
      assert rows == c + [last];
      TooFewRows(s - {last}, c);
      var x :| x in s - {last} && x !in c;
      assert x in s && x !in rows;
    } else {
      var x :| x in s;
      assert x in s && x !in rows;
    }
  }

  /** There is a next page exactly when a candidate is not on this one; its cursor is the last row's time and id. */
  lemma NextIs(t: Table, s: set<nat>, limit: nat)
    requires s <= t.Keys && limit > 0
    ensures var rows, next := TopRows(t, s, limit), NextKey(t, s, limit);
            (next.Some? <==> exists id :: id in s && id !in rows) &&
            (next.Some? ==> |rows| == limit && rows[limit - 1] in t &&
                            next.value.at == t[rows[limit - 1]].bumped && next.value.id == rows[limit - 1])
  {
    var rows := TopRows(t, s, limit);
    TopRowsPage(t, s, limit);
    if |s| > limit {
      TooFewRows(s, rows);
      assert rows[limit - 1] in rows;
    } else if id :| id in s && id !in rows {
      RowsFit(t, rows, s - {id});
      assert false;
    }
  }

  /** Distinct rows taken from a set are no more than it holds. */
  lemma {:induction false} RowsFit(t: Table, rows: seq<nat>, s: set<nat>)
    requires Descends(t, rows) && forall x :: x in rows ==> x in s
    ensures |rows| <= |s|
  {
    if rows != [] {
      var c, last := rows[..|rows| - 1], rows[|rows| - 1];
      assert rows == c + [last];
      assert last in rows;
      forall x | x in c
        ensures x in s - {last}
      {
        var i :| 0 <= i < |c| && c[i] == x;
        assert Under(KeyOf(t, rows[|rows| - 1]), KeyOf(t, rows[i]));
      }
      RowsFit(t, c, s - {last});
      assert |s - {last}| == |s| - 1;
    }
  }

  /** The text of a cursor, and what counts as one. */
  lemma CursorForm(s: string)
    ensures ParseCursor(s).Some? <==>
            exists i :: 1 <= i <= 15 && i < |s| <= i + 21 && |s| >= i + 2 && s[i] == ':' && AllDigits(s[..i]) && AllDigits(s[i + 1..])
    ensures ParseCursor(s).Some? ==>
            exists i :: 1 <= i < |s| && s[i] == ':' && AllDigits(s[..i]) && AllDigits(s[i + 1..]) &&
                        ParseCursor(s).value == Key(Value(s[..i]) / 1000, Value(s[i + 1..]))
  {
    if i :| 1 <= i <= 15 && i < |s| <= i + 21 && |s| >= i + 2 && s[i] == ':' && AllDigits(s[..i]) && AllDigits(s[i + 1..]) {
      assert forall j :: 0 <= j < i ==> IsDigit(s[..i][j]) && s[j] != ':';
      assert ColonAt(s) == i;
    }
  }
}
