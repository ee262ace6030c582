/** The vnstat backfill: which months and days are imported, in which order, and what a second run does. */
module VnstatPlan {
  import opened Options
  import opened Decimal
  import opened Calendar
  import opened Sorting

  datatype Granularity = Month | Day

  /** One vnstat record; a monthly one has no day. */
  datatype Entry = Entry(year: nat, month: nat, day: Option<nat>, rx: nat, tx: nat)

  /** A planned insert, and the record it comes from. */
  datatype Row = Row(bucketStart: string, bytesIn: nat, bytesOut: nat, granularity: Granularity, date: Date)

  const DAY := 86400000

  // ── records and their intervals ────────────────────────────────────────

  function StartDate(e: Entry, g: Granularity): Date {
    Date(e.year, e.month, if g == Day && e.day.Some? then e.day.value else 1)
  }

  /** A calendar date with a four-digit year. */
  predicate Proper(d: Date) {
    1000 <= d.year <= 9999 && IsDate(d)
  }

  predicate ProperAll(entries: seq<Entry>, g: Granularity) {
    forall i :: 0 <= i < |entries| ==> Proper(StartDate(entries[i], g))
  }

  function TextOf(d: Date): string
    requires Proper(d)
  {
    Digits(d.year) + "-" + Pad(d.month, 2) + "-" + Pad(d.day, 2) + " 00:00:00"
  }

  function MonthKey(e: Entry): string {
    Digits(e.year) + "-" + Pad(e.month, 2)
  }

  function ToRow(e: Entry, g: Granularity): Row
    requires Proper(StartDate(e, g))
  {
    Row(TextOf(StartDate(e, g)), e.rx, e.tx, g, StartDate(e, g))
  }

  predicate Planned(r: Row) {
    Proper(r.date) && r.bucketStart == TextOf(r.date) && (r.granularity == Month ==> r.date.day == 1)
  }

  function Start(d: Date): int
    requires IsDate(d)
  {
    DayNumber(d) * DAY
  }

  /** The end of what a row covers: a day or a month. */
  function End(r: Row): int
    requires Planned(r)
  {
    if r.granularity == Day then Start(r.date) + DAY else Start(r.date) + MonthLength(r.date.year, r.date.month) * DAY
  }

  // ── the selection ──────────────────────────────────────────────────────

  function DailyMonths(days: seq<Entry>): set<string> {
    set i | 0 <= i < |days| :: MonthKey(days[i])
  }

  function SelectMonths(months: seq<Entry>, daily: set<string>, cutoff: int): seq<Row>
    requires ProperAll(months, Month)
  {
    if months == [] then [] else
    var e := months[|months| - 1];
    SelectMonths(months[..|months| - 1], daily, cutoff) +
    if Start(StartDate(e, Month)) >= cutoff || MonthKey(e) in daily then [] else [ToRow(e, Month)]
  }

  function SelectDays(days: seq<Entry>, cutoff: int): seq<Row>
    requires ProperAll(days, Day)
  {
    if days == [] then [] else
    var e := days[|days| - 1];
    SelectDays(days[..|days| - 1], cutoff) + if Start(StartDate(e, Day)) >= cutoff then [] else [ToRow(e, Day)]
  }

  function Selected(months: seq<Entry>, days: seq<Entry>, cutoff: int): seq<Row>
    requires ProperAll(months, Month) && ProperAll(days, Day)
  {
    SelectMonths(months, DailyMonths(days), cutoff) + SelectDays(days, cutoff)
  }

  method DailyMonthSet(days: seq<Entry>) returns (daily: set<string>)
    ensures daily == DailyMonths(days)
  {
    daily := {};
    for i := 0 to |days|
      invariant daily == set k | 0 <= k < i :: MonthKey(days[k])
    {
      daily := daily + {MonthKey(days[i])};
    }
  }

  method AddMonths(months: seq<Entry>, daily: set<string>, cutoff: int) returns (rows: seq<Row>)
    requires ProperAll(months, Month)
    ensures rows == SelectMonths(months, daily, cutoff)
  {
    rows := [];
    for i := 0 to |months|
      invariant rows == SelectMonths(months[..i], daily, cutoff)
    {
      assert months[..i + 1][..i] == months[..i];
      if Start(StartDate(months[i], Month)) < cutoff && MonthKey(months[i]) !in daily {
        rows := rows + [ToRow(months[i], Month)];
      }
    }
    assert months[..|months|] == months;
  }

  method AddDays(days: seq<Entry>, cutoff: int) returns (rows: seq<Row>)
    requires ProperAll(days, Day)
    ensures rows == SelectDays(days, cutoff)
  {
    rows := [];
    for i := 0 to |days|
      invariant rows == SelectDays(days[..i], cutoff)
    {
      assert days[..i + 1][..i] == days[..i];
      if Start(StartDate(days[i], Day)) < cutoff {
        rows := rows + [ToRow(days[i], Day)];
      }
    }
    assert days[..|days|] == days;
  }

  method SelectRows(months: seq<Entry>, days: seq<Entry>, cutoff: int) returns (rows: seq<Row>)
    requires ProperAll(months, Month) && ProperAll(days, Day)
    ensures rows == Selected(months, days, cutoff)
  {
    var daily := DailyMonthSet(days);
    var monthly := AddMonths(months, daily, cutoff);
    var others := AddDays(days, cutoff);
    rows := monthly + others;
  }

  /** Record `i` makes this row. */
  ghost predicate Makes(entries: seq<Entry>, g: Granularity, cutoff: int, i: int, r: Row) {
    0 <= i < |entries| && Proper(StartDate(entries[i], g)) && Start(StartDate(entries[i], g)) < cutoff &&
    r == ToRow(entries[i], g)
  }

  lemma {:induction false} MonthsSelected(months: seq<Entry>, daily: set<string>, cutoff: int, r: Row)
    requires ProperAll(months, Month)
    ensures r in SelectMonths(months, daily, cutoff) <==>
            exists i :: Makes(months, Month, cutoff, i, r) && MonthKey(months[i]) !in daily
  {
    if months != [] {
      var c, last := months[..|months| - 1], |months| - 1;
      MonthsSelected(c, daily, cutoff, r);
      forall i
        ensures Makes(months, Month, cutoff, i, r) <==>
                if i == last then Start(StartDate(months[i], Month)) < cutoff && r == ToRow(months[i], Month)
                else Makes(c, Month, cutoff, i, r)
      {
        assert 0 <= i < last ==> c[i] == months[i];
      }
    }
  }

  lemma {:induction false} DaysSelected(days: seq<Entry>, cutoff: int, r: Row)
    requires ProperAll(days, Day)
    ensures r in SelectDays(days, cutoff) <==> exists i :: Makes(days, Day, cutoff, i, r)
  {
    if days != [] {
      var c, last := days[..|days| - 1], |days| - 1;
      DaysSelected(c, cutoff, r);
      forall i
        ensures Makes(days, Day, cutoff, i, r) <==>
                if i == last then Start(StartDate(days[i], Day)) < cutoff && r == ToRow(days[i], Day)
                else Makes(c, Day, cutoff, i, r)
      {
        assert 0 <= i < last ==> c[i] == days[i];
      }
    }
  }

  // ── the order of texts ─────────────────────────────────────────────────

  predicate Less(a: string, b: string) {
    if a == "" then b != "" else b != "" && (a[0] < b[0] || (a[0] == b[0] && Less(a[1..], b[1..])))
  }

  lemma {:induction false} LessConcat(a: string, b: string, c: string, d: string)
    requires |a| == |b|
    ensures Less(a + c, b + d) <==> Less(a, b) || (a == b && Less(c, d))
  {
    if a == "" {
      assert a + c == c && b + d == d;
    } else {
      assert (a + c)[1..] == a[1..] + c && (b + d)[1..] == b[1..] + d;
      LessConcat(a[1..], b[1..], c, d);
      assert a == [a[0]] + a[1..] && b == [b[0]] + b[1..];
    }
  }

  /** Digit strings of one length compare like their values. */
  lemma {:induction false} LessDigits(a: string, b: string)
    requires |a| == |b| && AllDigits(a) && AllDigits(b)
    ensures Less(a, b) <==> Value(a) < Value(b)
    ensures a == b <==> Value(a) == Value(b)
  {
    if a != "" {
      var n := |a| - 1;
      LessDigits(a[..n], b[..n]);
      LessConcat(a[..n], b[..n], a[n..], b[n..]);
      assert a == a[..n] + a[n..] && b == b[..n] + b[n..];
      assert a[n..] == [a[n]] && b[n..] == [b[n]];
      assert Less(a[n..], b[n..]) <==> a[n] < b[n];
    }
  }

  lemma DateDigits(d: Date)
    requires Proper(d)
    ensures |Digits(d.year)| == 4 && AllDigits(Digits(d.year)) && Value(Digits(d.year)) == d.year
    ensures |Pad(d.month, 2)| == 2 && AllDigits(Pad(d.month, 2)) && Value(Pad(d.month, 2)) == d.month
    ensures |Pad(d.day, 2)| == 2 && AllDigits(Pad(d.day, 2)) && Value(Pad(d.day, 2)) == d.day
  {
    ParseDigits(d.year);
    DigitCount(d.year, 4);
    DigitCount(d.year, 3);
    PadValue(d.month, 2);
    PadValue(d.day, 2);
    assert Power10(2) == 100 && Power10(3) == 1000 && Power10(4) == 10000;
  }

  /** Bucket starts sort as text exactly as they follow in time. */
  lemma TextOrderIsTimeOrder(a: Date, b: Date)
    requires Proper(a) && Proper(b)
    ensures Less(TextOf(a), TextOf(b)) <==> Start(a) < Start(b)
  {
    DateDigits(a);
    DateDigits(b);
    var ya, yb, ma, mb, da, db :=
      Digits(a.year), Digits(b.year), Pad(a.month, 2), Pad(b.month, 2), Pad(a.day, 2), Pad(b.day, 2);
    LessDigits(ya, yb);
    LessDigits(ma, mb);
    LessDigits(da, db);
    LessAfter(ya, yb, "-", ma, mb);
    LessParts(ya + "-" + ma, yb + "-" + mb, da, db, "-", " 00:00:00");
    assert Less(TextOf(a), TextOf(b)) <==> Before(a, b);
    if Before(a, b) {
      DaysOrdered(a, b);
    } else if a != b {
      DaysOrdered(b, a);
    }
  }

  lemma LessAfter(a: string, b: string, sep: string, c: string, d: string)
    requires |a| == |b|
    ensures Less(a + sep + c, b + sep + d) <==> Less(a, b) || (a == b && Less(c, d))
    ensures a + sep + c == b + sep + d <==> a == b && c == d
  {
    NotLess(sep);
    LessConcat(a + sep, b + sep, c, d);
    LessConcat(a, b, sep, sep);
    SameParts(a + sep, b + sep, c, d);
    SameParts(a, b, sep, sep);
  }

  lemma LessBefore(a: string, b: string, end: string)
    requires |a| == |b|
    ensures Less(a + end, b + end) <==> Less(a, b)
  {
    NotLess(end);
    LessConcat(a, b, end, end);
  }

  lemma LessParts(pa: string, pb: string, da: string, db: string, sep: string, end: string)
    requires |pa| == |pb| && |da| == |db|
    ensures Less(pa + sep + da + end, pb + sep + db + end) <==> Less(pa, pb) || (pa == pb && Less(da, db))
  {
    LessBefore(pa + sep + da, pb + sep + db, end);
    LessAfter(pa, pb, sep, da, db);
  }

  lemma SameParts(a: string, b: string, c: string, d: string)
    requires |a| == |b|
    ensures a + c == b + d <==> a == b && c == d
  {
    assert (a + c)[..|a|] == a && (b + d)[..|b|] == b && (a + c)[|a|..] == c && (b + d)[|b|..] == d;
  }

  lemma {:induction false} NotLess(s: string)
    ensures !Less(s, s)
  {
    if s != "" {
      NotLess(s[1..]);
    }
  }

  function InsertByText(sorted: seq<Row>, r: Row): seq<Row> {
    if sorted == [] then [r] else
    var last := sorted[|sorted| - 1];
    if Less(r.bucketStart, last.bucketStart) then InsertByText(sorted[..|sorted| - 1], r) + [last] else sorted + [r]
  }

  /** `sort` by `localeCompare` of the bucket starts. */
  function SortByText(rows: seq<Row>): seq<Row> {
    if rows == [] then [] else InsertByText(SortByText(rows[..|rows| - 1]), rows[|rows| - 1])
  }

  ghost predicate AllPlanned(rows: seq<Row>) {
    forall i :: 0 <= i < |rows| ==> Planned(rows[i])
  }

  ghost predicate InTimeOrder(rows: seq<Row>)
    requires AllPlanned(rows)
  {
    forall i, j :: 0 <= i < j < |rows| ==> Start(rows[i].date) <= Start(rows[j].date)
  }

  lemma {:induction false} InsertMembers(sorted: seq<Row>, r: Row)
    ensures multiset(InsertByText(sorted, r)) == multiset(sorted) + multiset{r}
    ensures forall x :: x in InsertByText(sorted, r) <==> x in sorted || x == r
  {
    if sorted != [] {
      assert sorted == sorted[..|sorted| - 1] + [sorted[|sorted| - 1]];
      InsertMembers(sorted[..|sorted| - 1], r);
    }
  }

  /** Every row of the sequence starts no later than `limit`. */
  ghost predicate NotAfter(rows: seq<Row>, limit: Date)
    requires AllPlanned(rows) && IsDate(limit)
  {
    forall x :: x in rows ==> Planned(x) && Start(x.date) <= Start(limit)
  }

  lemma AppendInOrder(rows: seq<Row>, last: Row)
    requires AllPlanned(rows) && Planned(last) && InTimeOrder(rows) && NotAfter(rows, last.date)
    ensures AllPlanned(rows + [last]) && InTimeOrder(rows + [last])
  {
    assert forall i :: 0 <= i < |rows| ==> rows[i] in rows;
  }

  lemma LastIsLatest(rows: seq<Row>, limit: Date)
    requires rows != [] && AllPlanned(rows) && InTimeOrder(rows) && IsDate(limit)
    requires Start(rows[|rows| - 1].date) <= Start(limit)
    ensures NotAfter(rows, limit)
    ensures AllPlanned(rows[..|rows| - 1]) && NotAfter(rows[..|rows| - 1], limit)
  {
    forall x | x in rows
      ensures Planned(x) && Start(x.date) <= Start(limit)
    {
      var i :| 0 <= i < |rows| && rows[i] == x;
    }
    assert forall x :: x in rows[..|rows| - 1] ==> x in rows;
  }

  lemma InsertedNotAfter(c: seq<Row>, r: Row, limit: Date)
    requires AllPlanned(c) && Planned(r) && IsDate(limit) && NotAfter(c, limit) && Start(r.date) <= Start(limit)
    requires AllPlanned(InsertByText(c, r))
    ensures NotAfter(InsertByText(c, r), limit)
  {
    InsertMembers(c, r);
  }

  lemma {:induction false} InsertInOrder(sorted: seq<Row>, r: Row)
    requires AllPlanned(sorted) && Planned(r) && InTimeOrder(sorted)
    ensures AllPlanned(InsertByText(sorted, r)) && InTimeOrder(InsertByText(sorted, r))
  {
    if sorted != [] {
      var c, last := sorted[..|sorted| - 1], sorted[|sorted| - 1];
      TextOrderIsTimeOrder(r.date, last.date);
      if Less(r.bucketStart, last.bucketStart) {
        InsertInOrder(c, r);
        LastIsLatest(sorted, last.date);
        InsertedNotAfter(c, r, last.date);
        AppendInOrder(InsertByText(c, r), last);
      } else {
        LastIsLatest(sorted, r.date);
        AppendInOrder(sorted, r);
      }
    }
  }

  lemma {:induction false} SortsInTime(rows: seq<Row>)
    requires AllPlanned(rows)
    ensures AllPlanned(SortByText(rows)) && InTimeOrder(SortByText(rows))
    ensures multiset(SortByText(rows)) == multiset(rows)
  {
    if rows != [] {
      var c := rows[..|rows| - 1];
      assert rows == c + [rows[|rows| - 1]];
      SortsInTime(c);
      InsertMembers(SortByText(c), rows[|rows| - 1]);
      InsertInOrder(SortByText(c), rows[|rows| - 1]);
    }
  }

  // ── the plan ───────────────────────────────────────────────────────────

  function Plan(months: seq<Entry>, days: seq<Entry>, cutoff: int): seq<Row>
    requires ProperAll(months, Month) && ProperAll(days, Day)
  {
    SortByText(Selected(months, days, cutoff))
  }

  /** vnstat lists a month, and a day, once. */
  ghost predicate Distinct(entries: seq<Entry>, g: Granularity) {
    forall i, j :: 0 <= i < j < |entries| ==> StartDate(entries[i], g) != StartDate(entries[j], g)
  }

  ghost predicate Records(months: seq<Entry>, days: seq<Entry>) {
    ProperAll(months, Month) && ProperAll(days, Day) && Distinct(months, Month) && Distinct(days, Day)
  }

  ghost predicate NoRepeat(rows: seq<Row>) {
    forall i, j :: 0 <= i < j < |rows| ==> rows[i] != rows[j]
  }

  lemma {:induction false} MonthsNoRepeat(months: seq<Entry>, daily: set<string>, cutoff: int)
    requires ProperAll(months, Month) && Distinct(months, Month)
    ensures NoRepeat(SelectMonths(months, daily, cutoff))
  {
    if months != [] {
      var c, e := months[..|months| - 1], months[|months| - 1];
      MonthsNoRepeat(c, daily, cutoff);
      MonthsSelected(c, daily, cutoff, ToRow(e, Month));
    }
  }

  lemma {:induction false} DaysNoRepeat(days: seq<Entry>, cutoff: int)
    requires ProperAll(days, Day) && Distinct(days, Day)
    ensures NoRepeat(SelectDays(days, cutoff))
  {
    if days != [] {
      var c, e := days[..|days| - 1], days[|days| - 1];
      DaysNoRepeat(c, cutoff);
      DaysSelected(c, cutoff, ToRow(e, Day));
    }
  }

  lemma {:induction false} MonthlyRows(months: seq<Entry>, daily: set<string>, cutoff: int)
    requires ProperAll(months, Month)
    ensures forall r :: r in SelectMonths(months, daily, cutoff) ==> r.granularity == Month && Planned(r)
  {
    if months != [] {
      MonthlyRows(months[..|months| - 1], daily, cutoff);
    }
  }

  lemma {:induction false} DailyRows(days: seq<Entry>, cutoff: int)
    requires ProperAll(days, Day)
    ensures forall r :: r in SelectDays(days, cutoff) ==> r.granularity == Day && Planned(r)
  {
    if days != [] {
      DailyRows(days[..|days| - 1], cutoff);
    }
  }

  lemma SelectedRows(months: seq<Entry>, days: seq<Entry>, cutoff: int)
    requires Records(months, days)
    ensures AllPlanned(Selected(months, days, cutoff)) && NoRepeat(Selected(months, days, cutoff))
  {
    var a, b := SelectMonths(months, DailyMonths(days), cutoff), SelectDays(days, cutoff);
    MonthsNoRepeat(months, DailyMonths(days), cutoff);
    DaysNoRepeat(days, cutoff);
    MonthlyRows(months, DailyMonths(days), cutoff);
    DailyRows(days, cutoff);
    assert forall i :: 0 <= i < |a| ==> a[i] in a;
    assert forall i :: 0 <= i < |b| ==> b[i] in b;
  }

  /** What is in the plan: a day that starts before the cutoff, or such a month in which no recorded day falls. */
  lemma PlanHolds(months: seq<Entry>, days: seq<Entry>, cutoff: int, r: Row)
    requires Records(months, days)
    ensures r in Plan(months, days, cutoff) <==>
            (exists i :: Makes(days, Day, cutoff, i, r)) ||
            (exists i :: Makes(months, Month, cutoff, i, r) && MonthKey(months[i]) !in DailyMonths(days))
  {
    var rows := Selected(months, days, cutoff);
    SelectedRows(months, days, cutoff);
    SortsInTime(rows);
    assert r in SortByText(rows) <==> r in multiset(SortByText(rows));
    assert r in rows <==> r in multiset(rows);
    MonthsSelected(months, DailyMonths(days), cutoff, r);
    DaysSelected(days, cutoff, r);
  }

  /** A kept month holds no recorded day. */
  lemma NoDayInKeptMonth(months: seq<Entry>, days: seq<Entry>, i: int, j: int)
    requires ProperAll(months, Month) && ProperAll(days, Day) && 0 <= i < |months| && 0 <= j < |days|
    requires MonthKey(months[i]) !in DailyMonths(days)
    ensures months[i].year != days[j].year || months[i].month != days[j].month
  {
    assert MonthKey(days[j]) in DailyMonths(days);
  }

  lemma MonthIsOver(a: Date, b: Date)
    requires IsDate(a) && IsDate(b) && a.day == 1
    requires a.year < b.year || (a.year == b.year && a.month < b.month)
    ensures DayNumber(b) >= DayNumber(a) + MonthLength(a.year, a.month)
  {
    MonthsFit(a.year, a.month);
    MonthsFit(b.year, b.month);
    if a.year < b.year {
      YearAfterYear(a.year);
      YearsApart(a.year + 1, b.year);
    } else {
      MonthsApart(a.year, a.month, b.month);
    }
  }

  /** Two planned rows that start in order do not overlap, if the first is not the month around the second. */
  lemma EndsBefore(a: Row, b: Row)
    requires Planned(a) && Planned(b) && a != b && Start(a.date) <= Start(b.date)
    requires a.granularity == b.granularity ==> a.date != b.date
    requires a.granularity != b.granularity ==> a.date.year != b.date.year || a.date.month != b.date.month
    ensures End(a) <= Start(b.date)
  {
    if Before(b.date, a.date) {
      DaysOrdered(b.date, a.date);
    }
    if a.granularity == Month {
      MonthIsOver(a.date, b.date);
    } else {
      DaysOrdered(a.date, b.date);
    }
  }

  /** Rows of the plan with the same granularity have different dates, others different months. */
  lemma RowsDiffer(months: seq<Entry>, days: seq<Entry>, cutoff: int, a: Row, b: Row)
    requires Records(months, days) && a != b
    requires a in Plan(months, days, cutoff) && b in Plan(months, days, cutoff)
    ensures a.granularity == b.granularity ==> a.date != b.date
    ensures a.granularity != b.granularity ==> a.date.year != b.date.year || a.date.month != b.date.month
  {
    PlanHolds(months, days, cutoff, a);
    PlanHolds(months, days, cutoff, b);
    if a.granularity != b.granularity {
      var m, d := if a.granularity == Month then a else b, if a.granularity == Month then b else a;
      var i :| Makes(months, Month, cutoff, i, m) && MonthKey(months[i]) !in DailyMonths(days);
      var j :| Makes(days, Day, cutoff, j, d);
      NoDayInKeptMonth(months, days, i, j);
    }
  }

  lemma PlanNoRepeat(months: seq<Entry>, days: seq<Entry>, cutoff: int)
    requires Records(months, days)
    ensures AllPlanned(Plan(months, days, cutoff)) && InTimeOrder(Plan(months, days, cutoff))
    ensures NoRepeat(Plan(months, days, cutoff))
  {
    var rows, plan := Selected(months, days, cutoff), Plan(months, days, cutoff);
    SelectedRows(months, days, cutoff);
    SortsInTime(rows);
    var itself := (r: Row) => r;
    Reordered(rows, plan, itself);
    assert forall i :: 0 <= i < |plan| ==> itself(plan[i]) == plan[i];
  }

  /** The planned rows cover disjoint stretches of time, in ascending order, each starting before the cutoff. */
  lemma PlanIsDisjoint(months: seq<Entry>, days: seq<Entry>, cutoff: int)
    requires Records(months, days)
    ensures var plan := Plan(months, days, cutoff);
            AllPlanned(plan) &&
            (forall i :: 0 <= i < |plan| ==> Start(plan[i].date) < cutoff) &&
            forall i, j :: 0 <= i < j < |plan| ==> End(plan[i]) <= Start(plan[j].date)
  {
    var plan := Plan(months, days, cutoff);
    PlanNoRepeat(months, days, cutoff);
    forall i | 0 <= i < |plan|
      ensures Start(plan[i].date) < cutoff
    {
      PlanHolds(months, days, cutoff, plan[i]);
      assert plan[i] in plan;
    }
    forall i, j | 0 <= i < j < |plan|
      ensures End(plan[i]) <= Start(plan[j].date)
    {
      RowsDiffer(months, days, cutoff, plan[i], plan[j]);
      EndsBefore(plan[i], plan[j]);
    }
  }

  /** Only the last planned row can reach past the cutoff. */
  lemma OnlyLastStraddles(months: seq<Entry>, days: seq<Entry>, cutoff: int)
    requires Records(months, days)
    ensures AllPlanned(Plan(months, days, cutoff))
    ensures var plan := Plan(months, days, cutoff); forall i :: 0 <= i < |plan| - 1 ==> End(plan[i]) < cutoff
  {
    PlanIsDisjoint(months, days, cutoff);
    var plan := Plan(months, days, cutoff);
    forall i | 0 <= i < |plan| - 1
      ensures End(plan[i]) < cutoff
    {
      assert End(plan[i]) <= Start(plan[i + 1].date);
    }
  }

  /** A record lies on one side of the cutoff: it starts at it or later, or it is over by then. */
  predicate Beside(e: Entry, g: Granularity, cutoff: int)
    requires Proper(StartDate(e, g))
  {
    Start(StartDate(e, g)) >= cutoff || End(ToRow(e, g)) <= cutoff
  }

  /** The cutoff falls into no recorded day, and into no recorded month without recorded days. */
  ghost predicate CutoffFits(months: seq<Entry>, days: seq<Entry>, cutoff: int)
    requires ProperAll(months, Month) && ProperAll(days, Day)
  {
    (forall i :: 0 <= i < |days| ==> Beside(days[i], Day, cutoff)) &&
    forall i :: 0 <= i < |months| && MonthKey(months[i]) !in DailyMonths(days) ==> Beside(months[i], Month, cutoff)
  }

  /**
   * The promise not to overlap the native data that begins at the cutoff holds exactly when the cutoff falls
   * between records.
   */
  lemma OverlapFreeIff(months: seq<Entry>, days: seq<Entry>, cutoff: int)
    requires Records(months, days)
    ensures AllPlanned(Plan(months, days, cutoff))
    ensures (forall r :: r in Plan(months, days, cutoff) ==> Planned(r) && End(r) <= cutoff) <==> CutoffFits(months, days, cutoff)
  {
    PlanIsDisjoint(months, days, cutoff);
    var plan := Plan(months, days, cutoff);
    if CutoffFits(months, days, cutoff) {
      forall r | r in plan
        ensures Planned(r) && End(r) <= cutoff
      {
        FitsWhenCutoffFits(months, days, cutoff, r);
      }
    }
    if forall r :: r in plan ==> Planned(r) && End(r) <= cutoff {
      forall i | 0 <= i < |days| && Start(StartDate(days[i], Day)) < cutoff
        ensures End(ToRow(days[i], Day)) <= cutoff
      {
        assert Makes(days, Day, cutoff, i, ToRow(days[i], Day));
        PlanHolds(months, days, cutoff, ToRow(days[i], Day));
      }
      forall i | 0 <= i < |months| && MonthKey(months[i]) !in DailyMonths(days) && Start(StartDate(months[i], Month)) < cutoff
        ensures End(ToRow(months[i], Month)) <= cutoff
      {
        assert Makes(months, Month, cutoff, i, ToRow(months[i], Month));
        PlanHolds(months, days, cutoff, ToRow(months[i], Month));
      }
    }
  }

  lemma FitsWhenCutoffFits(months: seq<Entry>, days: seq<Entry>, cutoff: int, r: Row)
    requires Records(months, days) && CutoffFits(months, days, cutoff) && r in Plan(months, days, cutoff)
    ensures Planned(r) && End(r) <= cutoff
  {
    PlanHolds(months, days, cutoff, r);
    if i :| Makes(days, Day, cutoff, i, r) {
      assert Beside(days[i], Day, cutoff);
    } else {
      var i :| Makes(months, Month, cutoff, i, r) && MonthKey(months[i]) !in DailyMonths(days);
      assert Beside(months[i], Month, cutoff);
    }
  }

  // ── the plan, record by record ─────────────────────────────────────────

  /** A bucket start is the date's midnight: `yyyy-MM-dd 00:00:00` with leading zeros. */
  lemma TextShows(d: Date)
    requires Proper(d)
    ensures var t := TextOf(d);
            |t| == 19 && t[4] == '-' && t[7] == '-' && t[10..] == " 00:00:00" &&
            AllDigits(t[..4]) && AllDigits(t[5..7]) && AllDigits(t[8..10]) &&
            Value(t[..4]) == d.year && Value(t[5..7]) == d.month && Value(t[8..10]) == d.day
  {
    DateDigits(d);
    TextParts(Digits(d.year), Pad(d.month, 2), Pad(d.day, 2));
  }

  lemma TextParts(y: string, m: string, d: string)
    requires |y| == 4 && |m| == 2 && |d| == 2
    ensures var t := y + "-" + m + "-" + d + " 00:00:00";
            |t| == 19 && t[..4] == y && t[4] == '-' && t[5..7] == m && t[7] == '-' && t[8..10] == d && t[10..] == " 00:00:00"
  {
  }

  /** Two records have one month key exactly when they are of one month. */
  lemma SameMonthIff(a: Entry, b: Entry)
    requires 1000 <= a.year <= 9999 && 1000 <= b.year <= 9999 && 1 <= a.month <= 12 && 1 <= b.month <= 12
    ensures MonthKey(a) == MonthKey(b) <==> a.year == b.year && a.month == b.month
  {
    DateDigits(Date(a.year, a.month, 1));
    DateDigits(Date(b.year, b.month, 1));
    SameParts(Digits(a.year) + "-", Digits(b.year) + "-", Pad(a.month, 2), Pad(b.month, 2));
    SameParts(Digits(a.year), Digits(b.year), "-", "-");
  }

  /** The row a record gives: received bytes in, sent bytes out, at the midnight its day or month begins with. */
  predicate RowOf(r: Row, e: Entry, g: Granularity) {
    r.granularity == g && r.bytesIn == e.rx && r.bytesOut == e.tx && r.date.year == e.year && r.date.month == e.month &&
    r.date.day == (if g == Day && e.day.Some? then e.day.value else 1) && Proper(r.date) && r.bucketStart == TextOf(r.date)
  }

  ghost predicate FromDay(days: seq<Entry>, cutoff: int, i: int, r: Row) {
    0 <= i < |days| && RowOf(r, days[i], Day) && Start(r.date) < cutoff
  }

  /** A month in which no recorded day falls. */
  ghost predicate FromMonth(months: seq<Entry>, days: seq<Entry>, cutoff: int, i: int, r: Row) {
    0 <= i < |months| && RowOf(r, months[i], Month) && Start(r.date) < cutoff &&
    forall j :: 0 <= j < |days| ==> days[j].year != months[i].year || days[j].month != months[i].month
  }

  lemma MadeFrom(entries: seq<Entry>, g: Granularity, cutoff: int, i: int, r: Row)
    requires ProperAll(entries, g)
    ensures Makes(entries, g, cutoff, i, r) <==> 0 <= i < |entries| && RowOf(r, entries[i], g) && Start(r.date) < cutoff
  {
    if 0 <= i < |entries| && RowOf(r, entries[i], g) {
      assert r.date == StartDate(entries[i], g);
    }
  }

  lemma NoRecordedDay(months: seq<Entry>, days: seq<Entry>, i: int)
    requires ProperAll(months, Month) && ProperAll(days, Day) && 0 <= i < |months|
    ensures MonthKey(months[i]) !in DailyMonths(days) <==>
            forall j :: 0 <= j < |days| ==> days[j].year != months[i].year || days[j].month != months[i].month
  {
    assert Proper(StartDate(months[i], Month));
    forall j | 0 <= j < |days|
      ensures MonthKey(days[j]) == MonthKey(months[i]) <==> days[j].year == months[i].year && days[j].month == months[i].month
    {
      assert Proper(StartDate(days[j], Day));
      SameMonthIff(days[j], months[i]);
    }
    if MonthKey(months[i]) in DailyMonths(days) {
      var j :| 0 <= j < |days| && MonthKey(days[j]) == MonthKey(months[i]);
    } else {
      forall j | 0 <= j < |days|
        ensures days[j].year != months[i].year || days[j].month != months[i].month
      {
        assert MonthKey(days[j]) in DailyMonths(days);
      }
    }
  }

  /** The plan in terms of the records: the days, and the months without one, that begin before the cutoff. */
  lemma PlanIs(months: seq<Entry>, days: seq<Entry>, cutoff: int, r: Row)
    requires Records(months, days)
    ensures r in Plan(months, days, cutoff) <==>
            (exists i :: FromDay(days, cutoff, i, r)) || exists i :: FromMonth(months, days, cutoff, i, r)
  {
    PlanHolds(months, days, cutoff, r);
    forall i
      ensures Makes(days, Day, cutoff, i, r) <==> FromDay(days, cutoff, i, r)
    {
      MadeFrom(days, Day, cutoff, i, r);
    }
    forall i
      ensures Makes(months, Month, cutoff, i, r) && MonthKey(months[i]) !in DailyMonths(days)
              <==> FromMonth(months, days, cutoff, i, r)
    {
      MadeFrom(months, Month, cutoff, i, r);
      if 0 <= i < |months| {
        NoRecordedDay(months, days, i);
      }
    }
  }

  /** What a row covers: its day to the next midnight, or its month to the first of the next one. */
  lemma EndIs(r: Row)
    requires Planned(r)
    ensures r.granularity == Day ==> End(r) == Start(r.date) + 24 * 60 * 60 * 1000
    ensures r.granularity == Month && r.date.month < 12 ==> End(r) == Start(Date(r.date.year, r.date.month + 1, 1))
    ensures r.granularity == Month && r.date.month == 12 ==> End(r) == Start(Date(r.date.year + 1, 1, 1))
  {
    MonthsFit(r.date.year, 13);
    YearAfterYear(r.date.year);
  }
}
