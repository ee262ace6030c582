/** DATETIME columns that hold UTC wall times, read back from text or from a Date of any fixed-offset process zone. */
module UtcColumns {
  import opened Options
  import opened Arith
  import opened Decimal
  import opened Calendar

  /** What the database driver or the model may hand over; instants are in milliseconds. */
  datatype DbValue =
    | Null
    | JsDate(time: Option<int>)
    | Text(text: string)
    | Luxon(ms: int)
    | SomethingElse

  function Print(n: int, width: nat): string {
    if n < 0 then "-" + Pad(-n, width) else Pad(n, width)
  }

  /** `yyyy-MM-dd HH:mm:ss`. */
  function Format(w: Wall): string {
    Print(w.date.year, 4) + "-" + Print(w.date.month, 2) + "-" + Print(w.date.day, 2) + " " +
    Print(w.hour, 2) + ":" + Print(w.minute, 2) + ":" + Print(w.second, 2)
  }

  function UtcToDb(value: Option<int>): Option<string> {
    if value.None? then None else Some(Format(WallOf(value.value / 1000)))
  }

  predicate Separated(s: string) {
    |s| >= 19 && s[4] == '-' && s[7] == '-' && s[10] == ' ' && s[13] == ':' && s[16] == ':' &&
    AllDigits(s[..4]) && AllDigits(s[5..7]) && AllDigits(s[8..10]) &&
    AllDigits(s[11..13]) && AllDigits(s[14..16]) && AllDigits(s[17..19])
  }

  /** An optional fraction of one to thirty digits. */
  predicate Fraction(s: string) {
    s == "" || (2 <= |s| <= 31 && (s[0] == '.' || s[0] == ',') && AllDigits(s[1..]))
  }

  function Millis(s: string): nat
    requires Fraction(s)
  {
    if s == "" then 0 else Value((s[1..] + "00")[..3])
  }

  /** `DateTime.fromSQL` in UTC, on the form a DATETIME has. */
  function FromSql(s: string): Option<int> {
    if !Separated(s) || !Fraction(s[19..]) then None else
    var date := Date(Value(s[..4]), Value(s[5..7]), Value(s[8..10]));
    var wall := Wall(date, Value(s[11..13]), Value(s[14..16]), Value(s[17..19]));
    var ms := Millis(s[19..]);
    if IsWall(wall) && (wall.hour == 24 ==> ms == 0) then Some(SecondsOf(wall) * 1000 + ms) else None
  }

  /** The wall-clock fields a Date shows in a process zone that is `offset` milliseconds ahead of UTC. */
  function LocalFields(ms: int, offset: int): Wall {
    WallOf((ms + offset) / 1000)
  }

  /** The column's reader, in a process zone of the given offset. */
  function DbTimeToUtc(value: DbValue, offset: int): Option<int> {
    match value
    case Null => None
    case JsDate(time) =>
      if time.None? then None else
      WallRoundTrip((time.value + offset) / 1000);
      Some(SecondsOf(LocalFields(time.value, offset)) * 1000)
    case Text(text) => FromSql(text)
    case Luxon(ms) => Some(ms)
    case SomethingElse => None
  }

  /** The Date the driver builds from stored wall-clock fields: the instant at which the zone shows them. */
  function DriverDate(w: Wall, offset: int): int
    requires IsWall(w)
  {
    SecondsOf(w) * 1000 - offset
  }

  // ── the text ───────────────────────────────────────────────────────────

  lemma TwoDigits(n: int)
    requires 0 <= n < 100
    ensures |Print(n, 2)| == 2 && AllDigits(Print(n, 2)) && Value(Print(n, 2)) == n
  {
    PadValue(n, 2);
    assert Power10(2) == 100;
  }

  lemma FourDigits(n: int)
    requires 0 <= n <= 9999
    ensures |Print(n, 4)| == 4 && AllDigits(Print(n, 4)) && Value(Print(n, 4)) == n
  {
    PadValue(n, 4);
    assert Power10(4) == 10000;
  }

  lemma FieldsFit(w: Wall)
    requires IsWall(w)
    ensures 0 <= w.date.month < 100 && 0 <= w.date.day < 100 && 0 <= w.hour < 100
  {
  }

  lemma Slices(y: string, m: string, d: string, h: string, i: string, s: string)
    requires |y| == 4 && |m| == 2 && |d| == 2 && |h| == 2 && |i| == 2 && |s| == 2
    ensures var t := y + "-" + m + "-" + d + " " + h + ":" + i + ":" + s;
            |t| == 19 && t[..4] == y && t[5..7] == m && t[8..10] == d && t[11..13] == h && t[14..16] == i &&
            t[17..19] == s && t[4] == '-' && t[7] == '-' && t[10] == ' ' && t[13] == ':' && t[16] == ':' && t[19..] == ""
  {
  }

  /** A printed wall time parses to itself while its year has four digits. */
  lemma FormatParses(w: Wall)
    requires IsWall(w) && 0 <= w.date.year <= 9999
    ensures FromSql(Format(w)) == Some(SecondsOf(w) * 1000)
  {
    FieldsFit(w);
    FourDigits(w.date.year);
    TwoDigits(w.date.month);
    TwoDigits(w.date.day);
    TwoDigits(w.hour);
    TwoDigits(w.minute);
    TwoDigits(w.second);
    Slices(Print(w.date.year, 4), Print(w.date.month, 2), Print(w.date.day, 2), Print(w.hour, 2), Print(w.minute, 2),
           Print(w.second, 2));
  }

  lemma NotADigit(t: string)
    requires t != "" && !IsDigit(t[0])
    ensures !Separated(t)
  {
    if |t| >= 19 {
      assert t[..4][0] == t[0];
    }
  }

  /** A year before 0 or after 9999 prints as text that does not read back. */
  lemma OtherYearsDoNotParse(w: Wall)
    requires IsWall(w) && !(0 <= w.date.year <= 9999)
    ensures FromSql(Format(w)) == None
  {
    var t, y := Format(w), Print(w.date.year, 4);
    assert t == y + t[|y|..];
    if w.date.year < 0 {
      NotADigit(t);
    } else {
      PadValue(w.date.year, 4);
      DigitCount(w.date.year, 4);
      assert Power10(4) == 10000;
      assert |y| >= 5 && IsDigit(y[4]) && t[4] == y[4];
    }
  }

  // ── the main results ───────────────────────────────────────────────────

  function Truncated(ms: int): int {
    ms / 1000 * 1000
  }

  function YearOf(ms: int): int {
    WallOf(ms / 1000).date.year
  }

  /**
   * A written time reads back from text as the original cut to the second, in every process zone, exactly when
   * its year has four digits.
   */
  lemma TextRoundTrip(ms: int, offset: int)
    ensures var text := UtcToDb(Some(ms));
            DbTimeToUtc(Text(text.value), offset) == if 0 <= YearOf(ms) <= 9999 then Some(Truncated(ms)) else None
  {
    var w := WallOf(ms / 1000);
    WallRoundTrip(ms / 1000);
    if 0 <= w.date.year <= 9999 {
      FormatParses(w);
    } else {
      OtherYearsDoNotParse(w);
    }
  }

  /** The Date a driver in any fixed-offset zone builds from the written fields reads back as the same instant. */
  lemma DateRoundTripInZone(ms: int, offset: int)
    ensures IsWall(WallOf(ms / 1000))
    ensures DbTimeToUtc(JsDate(Some(DriverDate(WallOf(ms / 1000), offset))), offset) == Some(Truncated(ms))
  {
    WallRoundTrip(ms / 1000);
    var date := DriverDate(WallOf(ms / 1000), offset);
    assert date + offset == 1000 * (ms / 1000);
    QuotientUnique(date + offset, 1000, ms / 1000);
  }

  /** Reading a Date directly, without its local fields, is off by exactly the zone. */
  lemma DirectReadIsOff(ms: int, offset: int)
    ensures IsWall(WallOf(ms / 1000))
    ensures DriverDate(WallOf(ms / 1000), offset) == Truncated(ms) <==> offset == 0
  {
    WallRoundTrip(ms / 1000);
  }

  /** Writing what was read changes nothing, so a column survives any number of load and save rounds. */
  lemma SecondRoundIsStable(ms: int, offset: int)
    requires 0 <= YearOf(ms) <= 9999
    ensures var text := UtcToDb(Some(ms)).value;
            DbTimeToUtc(Text(text), offset).Some? && UtcToDb(DbTimeToUtc(Text(text), offset)) == Some(text)
  {
    TextRoundTrip(ms, offset);
    QuotientUnique(Truncated(ms), 1000, ms / 1000);
  }

  lemma ZeroZero()
    ensures AllDigits("00") && Value("00") == 0 && AllDigits("0") && Value("0") == 0
  {
    assert "0"[..0] == "";
    assert Value("0") == 0;
    assert "00"[..1] == "0";
  }

  /** No value and no time give none; anything unreadable too. */
  lemma NothingReadsAsNothing(offset: int)
    ensures UtcToDb(None) == None && DbTimeToUtc(Null, offset) == None && DbTimeToUtc(JsDate(None), offset) == None
    ensures DbTimeToUtc(SomethingElse, offset) == None && forall ms :: DbTimeToUtc(Luxon(ms), offset) == Some(ms)
    ensures DbTimeToUtc(Text("0000-00-00 00:00:00"), offset) == None
  {
    var t := "0000-00-00 00:00:00";
    ZeroZero();
    assert t[5..7] == "00";
  }

  // ── the text, field by field ───────────────────────────────────────────

  /** Text that shows a wall time: each field in its place with its leading zeros. */
  predicate Shows(t: string, w: Wall) {
    |t| == 19 && t[4] == '-' && t[7] == '-' && t[10] == ' ' && t[13] == ':' && t[16] == ':' &&
    AllDigits(t[..4]) && AllDigits(t[5..7]) && AllDigits(t[8..10]) && AllDigits(t[11..13]) && AllDigits(t[14..16]) &&
    AllDigits(t[17..19]) && Value(t[..4]) == w.date.year && Value(t[5..7]) == w.date.month &&
    Value(t[8..10]) == w.date.day && Value(t[11..13]) == w.hour && Value(t[14..16]) == w.minute &&
    Value(t[17..19]) == w.second
  }

  lemma FormatShows(w: Wall)
    requires IsWall(w) && 0 <= w.date.year <= 9999
    ensures Shows(Format(w), w)
  {
    FieldsFit(w);
    FourDigits(w.date.year);
    TwoDigits(w.date.month);
    TwoDigits(w.date.day);
    TwoDigits(w.hour);
    TwoDigits(w.minute);
    TwoDigits(w.second);
    Slices(Print(w.date.year, 4), Print(w.date.month, 2), Print(w.date.day, 2), Print(w.hour, 2), Print(w.minute, 2),
           Print(w.second, 2));
  }

  lemma WrittenIs(ms: int, w: Wall)
    requires WallOf(ms / 1000) == w
    ensures UtcToDb(Some(ms)) == Some(Format(w))
  {
  }

  /** What is written is the UTC wall time of the second. */
  lemma WrittenShows(ms: int)
    requires 0 <= YearOf(ms) <= 9999
    ensures UtcToDb(Some(ms)).Some? && Shows(UtcToDb(Some(ms)).value, WallOf(ms / 1000))
  {
    var w := WallOf(ms / 1000);
    WallRoundTrip(ms / 1000);
    WrittenIs(ms, w);
    FormatShows(w);
  }

  lemma FormatEpoch(w: Wall)
    requires w == Wall(Date(1970, 1, 1), 0, 0, 0)
    ensures Format(w) == "1970-01-01 00:00:00"
  {
    assert Pad(1, 2) == "01" && Pad(0, 2) == "00" by {
      assert Zeros(1) == "0" + Zeros(0);
    }
    assert Digits(1970) == "1970" by {
      assert Digits(19) == "19" && Digits(197) == "197";
    }
  }

  lemma FirstSecond(ms: int, w: Wall)
    requires 0 <= ms < 1000 && IsWall(w) && w.hour < 24 && SecondsOf(w) == 0
    ensures UtcToDb(Some(ms)) == Some(Format(w))
  {
    SecondsRoundTrip(ms / 1000, w);
    WrittenIs(ms, w);
  }

  lemma FirstText(w: Wall, written: Option<string>)
    requires w == Wall(Date(1970, 1, 1), 0, 0, 0) && written == Some(Format(w))
    ensures written == Some("1970-01-01 00:00:00")
  {
    FormatEpoch(w);
  }

  lemma FirstSecondText(ms: int, w: Wall)
    requires 0 <= ms < 1000 && w == Wall(Date(1970, 1, 1), 0, 0, 0)
    ensures UtcToDb(Some(ms)) == Some("1970-01-01 00:00:00")
  {
    assert IsWall(w) && w.hour < 24 && SecondsOf(w) == 0 by {
      EpochSecond();
    }
    FirstSecond(ms, w);
    FirstText(w, UtcToDb(Some(ms)));
  }

  /** The first second, as it is written. */
  lemma EpochText(ms: int)
    requires 0 <= ms < 1000
    ensures UtcToDb(Some(ms)) == Some("1970-01-01 00:00:00")
  {
    FirstSecondText(ms, Wall(Date(1970, 1, 1), 0, 0, 0));
  }

  /** Two digit strings of one length with one value are the same. */
  lemma {:induction false} SameDigits(a: string, b: string)
    requires |a| == |b| && AllDigits(a) && AllDigits(b) && Value(a) == Value(b)
    ensures a == b
  {
    if a != "" {
      var n := |a| - 1;
      assert a[..n] + [a[n]] == a && b[..n] + [b[n]] == b;
      assert 10 * Value(a[..n]) + DigitValue(a[n]) == 10 * Value(b[..n]) + DigitValue(b[n]);
      SameDigits(a[..n], b[..n]);
    }
  }

  lemma {:induction false} ValueFits(s: string)
    requires AllDigits(s)
    ensures Value(s) < Power10(|s|)
  {
    if s != "" {
      ValueFits(s[..|s| - 1]);
    }
  }

  /** The wall time a separated text names. */
  function WallIn(s: string): Wall
    requires Separated(s)
  {
    Wall(Date(Value(s[..4]), Value(s[5..7]), Value(s[8..10])), Value(s[11..13]), Value(s[14..16]), Value(s[17..19]))
  }

  lemma YearFits(s: string)
    requires Separated(s)
    ensures 0 <= WallIn(s).date.year <= 9999
  {
    ValueFits(s[..4]);
    assert Power10(4) == 10000;
  }

  lemma TextAgain(s: string)
    requires Separated(s) && IsWall(WallIn(s))
    ensures s[..19] == Format(WallIn(s))
  {
    var w := WallIn(s);
    YearFits(s);
    FormatShows(w);
    var t := Format(w);
    SameDigits(s[..4], t[..4]);
    SameDigits(s[5..7], t[5..7]);
    SameDigits(s[8..10], t[8..10]);
    SameDigits(s[11..13], t[11..13]);
    SameDigits(s[14..16], t[14..16]);
    SameDigits(s[17..19], t[17..19]);
    Joined(s);
    Joined(t);
  }

  lemma Joined(s: string)
    requires |s| >= 19 && s[4] == '-' && s[7] == '-' && s[10] == ' ' && s[13] == ':' && s[16] == ':'
    ensures s[..19] == s[..4] + "-" + s[5..7] + "-" + s[8..10] + " " + s[11..13] + ":" + s[14..16] + ":" + s[17..19]
  {
  }

  /** Only written wall times are read, with a fraction behind them or without. */
  lemma OnlyWrittenTextReads(s: string) returns (w: Wall)
    requires FromSql(s).Some?
    ensures IsWall(w) && 0 <= w.date.year <= 9999 && |s| >= 19 && s[..19] == Format(w) && Fraction(s[19..])
    ensures w.hour == 24 ==> Millis(s[19..]) == 0
    ensures FromSql(s).value == SecondsOf(w) * 1000 + Millis(s[19..])
  {
    w := WallIn(s);
    YearFits(s);
    TextAgain(s);
  }

  lemma ShiftDigit(x: int, p: int, y: int, d: int)
    ensures 10 * (x * p + y) + d == x * (10 * p) + (10 * y + d)
  {
    assert x * (10 * p) == 10 * (x * p);
  }

  lemma {:induction false} ValueLeading(a: string, b: string)
    requires AllDigits(a) && AllDigits(b)
    ensures AllDigits(a + b) && Value(a + b) == Value(a) * Power10(|b|) + Value(b)
  {
    if b == "" {
      assert a + b == a;
    } else {
      var c, d := b[..|b| - 1], b[|b| - 1];
      ValueLeading(a, c);
      var s := a + b;
      assert s[..|s| - 1] == a + c && s[|s| - 1] == d;
      ShiftDigit(Value(a), Power10(|c|), Value(c), DigitValue(d));
    }
  }

  lemma ThousandFold(q: nat, p: nat, r: nat)
    requires r < p
    ensures 1000 * (q * p + r) / (1000 * p) == q
  {
    assert (1000 * p) * q == 1000 * (q * p);
    QuotientUnique(1000 * (q * p + r), 1000 * p, q);
  }

  lemma FirstThree(digits: string)
    requires |digits| >= 3 && AllDigits(digits)
    ensures Power10(|digits|) > 0 && Value(digits[..3]) == 1000 * Value(digits) / Power10(|digits|)
  {
    var rest := digits[3..];
    assert digits == digits[..3] + rest;
    ValueLeading(digits[..3], rest);
    ValueFits(rest);
    ThousandFold(Value(digits[..3]), Power10(|rest|), Value(rest));
    PowerPositive(|digits|);
    var k := |rest|;
    assert Power10(k + 3) == 10 * Power10(k + 2) && Power10(k + 2) == 10 * Power10(k + 1) && Power10(k + 1) == 10 * Power10(k);
  }

  /** A fraction of a second is cut to milliseconds. */
  lemma MillisCut(sep: char, digits: string)
    requires (sep == '.' || sep == ',') && 1 <= |digits| <= 30 && AllDigits(digits)
    ensures Fraction([sep] + digits) && Power10(|digits|) > 0
    ensures Millis([sep] + digits) == 1000 * Value(digits) / Power10(|digits|)
  {
    assert ([sep] + digits)[1..] == digits;
    PowerPositive(|digits|);
    if |digits| >= 3 {
      FirstThree(digits);
      assert (digits + "00")[..3] == digits[..3];
    } else {
      MillisShort(digits);
    }
  }

  lemma MillisShort(digits: string)
    requires 1 <= |digits| <= 2 && AllDigits(digits)
    ensures AllDigits((digits + "00")[..3])
    ensures Value((digits + "00")[..3]) == 1000 * Value(digits) / Power10(|digits|)
  {
    assert Power10(1) == 10 && Power10(2) == 100;
    ZeroZero();
    if |digits| == 1 {
      assert (digits + "00")[..3] == digits + "00";
      ValueLeading(digits, "00");
    } else {
      assert (digits + "00")[..3] == digits + "0";
      ValueLeading(digits, "0");
    }
  }

  /** Whatever Date comes in, its local fields are read as UTC: the zone's offset is added and milliseconds are dropped. */
  lemma LocalFieldsRead(time: int, offset: int)
    ensures DbTimeToUtc(JsDate(Some(time)), offset) == Some(time + offset - (time + offset) % 1000)
  {
    WallRoundTrip((time + offset) / 1000);
  }
}
