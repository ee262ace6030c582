/** The proleptic Gregorian calendar as JavaScript dates compute it, and its day count from 1970. */
module Calendar {
  import opened Arith

  predicate IsLeap(y: int) {
    y % 4 == 0 && (y % 100 != 0 || y % 400 == 0)
  }

  function YearLength(y: int): int {
    if IsLeap(y) then 366 else 365
  }

  /** The day number of January 1st. */
  function DaysBeforeYear(y: int): int {
    365 * (y - 1970) + (y - 1969) / 4 - (y - 1901) / 100 + (y - 1601) / 400
  }

  function MonthLength(y: int, m: int): int
    requires 1 <= m <= 12
  {
    if m == 2 then (if IsLeap(y) then 29 else 28) else if m in {4, 6, 9, 11} then 30 else 31
  }

  function DaysBeforeMonth(y: int, m: int): int
    requires 1 <= m <= 13
  {
    if m == 1 then 0 else DaysBeforeMonth(y, m - 1) + MonthLength(y, m - 1)
  }

  datatype Date = Date(year: int, month: int, day: int)

  predicate IsDate(d: Date) {
    1 <= d.month <= 12 && 1 <= d.day <= MonthLength(d.year, d.month)
  }

  /** Days from 1970-01-01. */
  function DayNumber(d: Date): int
    requires IsDate(d)
  {
    DaysBeforeYear(d.year) + DaysBeforeMonth(d.year, d.month) + d.day - 1
  }

  lemma NextQuotient(n: int, d: int)
    requires d > 0
    ensures (n + 1) / d == n / d + if (n + 1) % d == 0 then 1 else 0
  {
    var q, r := n / d, n % d;
    if r + 1 == d {
      Distribute(d, q, 1);
      QuotientUnique(n + 1, d, q + 1);
    } else {
      QuotientUnique(n + 1, d, q);
    }
  }

  /** Year by year the count moves by the length of the year. */
  lemma YearAfterYear(y: int)
    ensures DaysBeforeYear(y + 1) == DaysBeforeYear(y) + YearLength(y)
  {
    NextQuotient(y - 1969, 4);
    NextQuotient(y - 1901, 100);
    NextQuotient(y - 1601, 400);
    assert (y - 1968) % 4 == 0 <==> y % 4 == 0;
    assert (y - 1900) % 100 == 0 <==> y % 100 == 0;
    assert (y - 1600) % 400 == 0 <==> y % 400 == 0;
  }

  lemma {:induction false} YearsApart(a: int, b: int)
    requires a <= b
    ensures DaysBeforeYear(b) >= DaysBeforeYear(a) + 365 * (b - a)
    decreases b - a
  {
    if a < b {
      YearsApart(a, b - 1);
      YearAfterYear(b - 1);
    }
  }

  lemma MonthsFit(y: int, m: int)
    requires 1 <= m <= 13
    ensures 0 <= DaysBeforeMonth(y, m)
    ensures DaysBeforeMonth(y, 13) == YearLength(y)
    ensures m <= 12 ==> DaysBeforeMonth(y, m) + MonthLength(y, m) <= YearLength(y)
  {
    assert DaysBeforeMonth(y, 2) == 31;
    assert DaysBeforeMonth(y, 3) == 31 + MonthLength(y, 2);
    assert DaysBeforeMonth(y, 4) == 62 + MonthLength(y, 2);
    assert DaysBeforeMonth(y, 5) == 92 + MonthLength(y, 2);
    assert DaysBeforeMonth(y, 6) == 123 + MonthLength(y, 2);
    assert DaysBeforeMonth(y, 7) == 153 + MonthLength(y, 2);
    assert DaysBeforeMonth(y, 8) == 184 + MonthLength(y, 2);
    assert DaysBeforeMonth(y, 9) == 215 + MonthLength(y, 2);
    assert DaysBeforeMonth(y, 10) == 245 + MonthLength(y, 2);
    assert DaysBeforeMonth(y, 11) == 276 + MonthLength(y, 2);
    assert DaysBeforeMonth(y, 12) == 306 + MonthLength(y, 2);
    assert DaysBeforeMonth(y, 13) == 337 + MonthLength(y, 2);
  }

  lemma {:induction false} MonthsApart(y: int, a: int, b: int)
    requires 1 <= a < b <= 13
    ensures DaysBeforeMonth(y, b) >= DaysBeforeMonth(y, a) + MonthLength(y, a)
    decreases b - a
  {
    if a < b - 1 {
      MonthsApart(y, a, b - 1);
    }
  }

  predicate Before(a: Date, b: Date) {
    a.year < b.year || (a.year == b.year && (a.month < b.month || (a.month == b.month && a.day < b.day)))
  }

  /** The day count keeps the order of dates. */
  lemma DaysOrdered(a: Date, b: Date)
    requires IsDate(a) && IsDate(b) && Before(a, b)
    ensures DayNumber(a) < DayNumber(b)
  {
    MonthsFit(a.year, a.month);
    MonthsFit(b.year, b.month);
    if a.year < b.year {
      YearAfterYear(a.year);
      YearsApart(a.year + 1, b.year);
    } else if a.month < b.month {
      MonthsApart(a.year, a.month, b.month);
    }
  }

  /** Two dates with the same day number are the same date. */
  lemma DaysTell(a: Date, b: Date)
    requires IsDate(a) && IsDate(b) && DayNumber(a) == DayNumber(b)
    ensures a == b
  {
    if Before(a, b) {
      DaysOrdered(a, b);
    } else if Before(b, a) {
      DaysOrdered(b, a);
    }
  }

  // ── from the day count back to a date ──────────────────────────────────

  function Distance(day: int, y: int): nat {
    if day < DaysBeforeYear(y) then DaysBeforeYear(y) - day
    else if day >= DaysBeforeYear(y + 1) then day - DaysBeforeYear(y + 1) + 1 else 0
  }

  /** The year a day lies in, searched from a guess. */
  function YearFrom(day: int, y: int): (r: int)
    ensures DaysBeforeYear(r) <= day < DaysBeforeYear(r + 1)
    decreases Distance(day, y)
  {
    YearAfterYear(y - 1);
    YearAfterYear(y);
    YearAfterYear(y + 1);
    if day < DaysBeforeYear(y) then YearFrom(day, y - 1)
    else if day >= DaysBeforeYear(y + 1) then YearFrom(day, y + 1) else y
  }

  function MonthFrom(y: int, dayOfYear: int, m: int): (r: int)
    requires 1 <= m <= 12 && DaysBeforeMonth(y, m) <= dayOfYear < DaysBeforeMonth(y, 13)
    ensures 1 <= r <= 12 && DaysBeforeMonth(y, r) <= dayOfYear < DaysBeforeMonth(y, r + 1)
    decreases 12 - m
  {
    if m == 12 || dayOfYear < DaysBeforeMonth(y, m + 1) then m else MonthFrom(y, dayOfYear, m + 1)
  }

  function DateOf(day: int): Date {
    var y := YearFrom(day, 1970);
    YearAfterYear(y);
    MonthsFit(y, 13);
    var rest := day - DaysBeforeYear(y);
    var m := MonthFrom(y, rest, 1);
    Date(y, m, rest - DaysBeforeMonth(y, m) + 1)
  }

  /** Day number to date and back. */
  lemma DayRoundTrip(day: int)
    ensures IsDate(DateOf(day)) && DayNumber(DateOf(day)) == day
  {
  }

  /** Date to day number and back. */
  lemma DateRoundTrip(d: Date)
    requires IsDate(d)
    ensures DateOf(DayNumber(d)) == d
  {
    DayRoundTrip(DayNumber(d));
    DaysTell(DateOf(DayNumber(d)), d);
  }

  lemma DateOfNumber(d: Date, day: int)
    requires IsDate(d) && DayNumber(d) == day
    ensures DateOf(day) == d
  {
    DateRoundTrip(d);
  }

  lemma EpochNumber()
    ensures DayNumber(Date(1970, 1, 1)) == 0
  {
  }

  /** Day 0 is the first of January 1970. */
  lemma Epoch()
    ensures DateOf(0) == Date(1970, 1, 1)
  {
    EpochNumber();
    DateOfNumber(Date(1970, 1, 1), 0);
  }

  predicate Follows(d: Date, e: Date)
    requires IsDate(d)
  {
    if d.day < MonthLength(d.year, d.month) then e == Date(d.year, d.month, d.day + 1)
    else if d.month < 12 then e == Date(d.year, d.month + 1, 1)
    else e == Date(d.year + 1, 1, 1)
  }

  lemma FollowerIsNext(d: Date, e: Date)
    requires IsDate(d) && Follows(d, e)
    ensures IsDate(e) && DayNumber(e) == DayNumber(d) + 1
  {
    MonthsFit(d.year, 13);
    YearAfterYear(d.year);
  }

  lemma FollowsDay(day: int)
    ensures IsDate(DateOf(day)) && Follows(DateOf(day), DateOf(day + 1))
  {
    DayRoundTrip(day);
    var d := DateOf(day);
    var e := if d.day < MonthLength(d.year, d.month) then Date(d.year, d.month, d.day + 1)
             else if d.month < 12 then Date(d.year, d.month + 1, 1) else Date(d.year + 1, 1, 1);
    FollowerIsNext(d, e);
    DateOfNumber(e, day + 1);
  }

  /** February 29th: in years divisible by four, of the full centuries only in those divisible by 400. */
  predicate HasLeapDay(y: int) {
    y % 4 == 0 && (y % 100 == 0 ==> y % 400 == 0)
  }

  lemma FollowsMeans(d: Date, e: Date)
    requires IsDate(d) && Follows(d, e)
    ensures e == if d.day == 31 && d.month == 12 then Date(d.year + 1, 1, 1)
                 else if d.day == 31 || (d.day == 30 && d.month in {4, 6, 9, 11}) ||
                         (d.month == 2 && d.day == if HasLeapDay(d.year) then 29 else 28) then Date(d.year, d.month + 1, 1)
                 else Date(d.year, d.month, d.day + 1)
  {
  }

  /** Every day is followed by the next date of the Gregorian calendar. */
  lemma NextDay(day: int)
    ensures var d := DateOf(day);
            DateOf(day + 1) == if d.day == 31 && d.month == 12 then Date(d.year + 1, 1, 1)
                               else if d.day == 31 || (d.day == 30 && d.month in {4, 6, 9, 11}) ||
                                       (d.month == 2 && d.day == if HasLeapDay(d.year) then 29 else 28)
                               then Date(d.year, d.month + 1, 1)
                               else Date(d.year, d.month, d.day + 1)
  {
    FollowsDay(day);
    FollowsMeans(DateOf(day), DateOf(day + 1));
  }

  // ── wall-clock times ───────────────────────────────────────────────────

  datatype Wall = Wall(date: Date, hour: int, minute: int, second: int)

  /** 24:00:00 names the end of a day. */
  predicate IsWall(w: Wall) {
    IsDate(w.date) && 0 <= w.minute <= 59 && 0 <= w.second <= 59 &&
    (0 <= w.hour <= 23 || (w.hour == 24 && w.minute == 0 && w.second == 0))
  }

  /** Seconds from the epoch of a wall time taken as UTC. */
  function SecondsOf(w: Wall): int
    requires IsWall(w)
  {
    DayNumber(w.date) * 86400 + w.hour * 3600 + w.minute * 60 + w.second
  }

  function WallOf(seconds: int): Wall {
    var rest := seconds % 86400;
    Wall(DateOf(seconds / 86400), rest / 3600, rest % 3600 / 60, rest % 60)
  }

  /** Seconds to wall time and back. */
  lemma WallRoundTrip(seconds: int)
    ensures IsWall(WallOf(seconds)) && SecondsOf(WallOf(seconds)) == seconds
  {
    DayRoundTrip(seconds / 86400);
    ClockRoundTrip(seconds % 86400);
  }

  lemma ClockRoundTrip(rest: int)
    requires 0 <= rest < 86400
    ensures var h, m, s := rest / 3600, rest % 3600 / 60, rest % 60;
            0 <= h <= 23 && 0 <= m <= 59 && 0 <= s <= 59 && h * 3600 + m * 60 + s == rest
  {
    assert rest % 60 == rest % 3600 % 60;
  }

  /** Wall time to seconds and back. */
  lemma SecondsRoundTrip(seconds: int, w: Wall)
    requires IsWall(w) && w.hour < 24 && SecondsOf(w) == seconds
    ensures WallOf(seconds) == w
  {
    var rest := w.hour * 3600 + w.minute * 60 + w.second;
    QuotientUnique(seconds, 86400, DayNumber(w.date));
    DateRoundTrip(w.date);
    ClockUnique(rest, w.hour, w.minute, w.second);
  }

  /** Second 0 is midnight of the first of January 1970. */
  lemma EpochSecond()
    ensures IsWall(Wall(Date(1970, 1, 1), 0, 0, 0)) && SecondsOf(Wall(Date(1970, 1, 1), 0, 0, 0)) == 0
  {
    EpochNumber();
  }

  /** Every second the clock ticks, and after 23:59:59 the date is the next one. */
  lemma NextSecond(seconds: int)
    ensures WallOf(seconds).date == DateOf(seconds / 86400)
    ensures var w := WallOf(seconds);
            WallOf(seconds + 1) == if w.second < 59 then w.(second := w.second + 1)
                                   else if w.minute < 59 then w.(minute := w.minute + 1, second := 0)
                                   else if w.hour < 23 then w.(hour := w.hour + 1, minute := 0, second := 0)
                                   else Wall(DateOf(seconds / 86400 + 1), 0, 0, 0)
  {
    var w := WallOf(seconds);
    WallRoundTrip(seconds);
    ClockRoundTrip(seconds % 86400);
    DayRoundTrip(seconds / 86400);
    DayRoundTrip(seconds / 86400 + 1);
    TickIsNext(w, seconds, DateOf(seconds / 86400 + 1));
  }

  lemma TickIsNext(w: Wall, seconds: int, tomorrow: Date)
    requires IsWall(w) && w.hour < 24 && SecondsOf(w) == seconds
    requires IsDate(tomorrow) && DayNumber(tomorrow) == DayNumber(w.date) + 1
    ensures WallOf(seconds + 1) == if w.second < 59 then w.(second := w.second + 1)
                                   else if w.minute < 59 then w.(minute := w.minute + 1, second := 0)
                                   else if w.hour < 23 then w.(hour := w.hour + 1, minute := 0, second := 0)
                                   else Wall(tomorrow, 0, 0, 0)
  {
    var x := if w.second < 59 then w.(second := w.second + 1)
             else if w.minute < 59 then w.(minute := w.minute + 1, second := 0)
             else if w.hour < 23 then w.(hour := w.hour + 1, minute := 0, second := 0)
             else Wall(tomorrow, 0, 0, 0);
    SecondsRoundTrip(seconds + 1, x);
  }

  lemma ClockUnique(rest: int, h: int, m: int, t: int)
    requires rest == h * 3600 + m * 60 + t && 0 <= m <= 59 && 0 <= t <= 59
    ensures rest / 3600 == h && rest % 3600 == m * 60 + t && rest % 3600 / 60 == m && rest % 60 == t
  {
    QuotientUnique(rest, 3600, h);
    QuotientUnique(m * 60 + t, 60, m);
    QuotientUnique(rest, 60, h * 60 + m);
  }
}
