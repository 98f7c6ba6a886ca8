/**
 * TimestampUtil::canonical over the texts this system produces:
 * YYYY-MM-DD, `T` or a blank, HH:MM:SS, an optional fraction, and nothing, `Z` or an offset.
 * Any other text counts as unparseable and is returned as it is.
 */
module Timestamps {
  import opened Wrappers
  import opened Text

  // ---------------------------------------------------------------------------
  // Calendar
  // ---------------------------------------------------------------------------

  datatype Date = Date(y: int, m: int, d: int)

  const DAY := 86_400_000

  predicate Leap(y: int) { y % 4 == 0 && (y % 100 != 0 || y % 400 == 0) }

  function YearLength(y: int): int { if Leap(y) then 366 else 365 }

  function MonthLength(y: int, m: int): int
  {
    if m == 2 then if Leap(y) then 29 else 28
    else if m == 4 || m == 6 || m == 9 || m == 11 then 30 else 31
  }

  /** Years as RFC 3339 writes them. */
  predicate ValidDate(t: Date)
  {
    0 <= t.y <= 9999 && 1 <= t.m <= 12 && 1 <= t.d <= MonthLength(t.y, t.m)
  }

  function DaysBeforeYear(y: int): int
    requires y >= 0
  {
    if y == 0 then 0 else DaysBeforeYear(y - 1) + YearLength(y - 1)
  }

  function DaysBeforeMonth(y: int, m: int): int
    requires m >= 1
  {
    if m == 1 then 0 else DaysBeforeMonth(y, m - 1) + MonthLength(y, m - 1)
  }

  function DayNumber(t: Date): int
    requires t.y >= 0 && t.m >= 1
  {
    DaysBeforeYear(t.y) + DaysBeforeMonth(t.y, t.m) + t.d
  }

  predicate DateLess(a: Date, b: Date)
  {
    a.y < b.y || (a.y == b.y && (a.m < b.m || (a.m == b.m && a.d < b.d)))
  }

  lemma {:induction false} MonthsGrow(y: int, m: int, n: int)
    requires 1 <= m < n <= 13
    ensures DaysBeforeMonth(y, m) + MonthLength(y, m) <= DaysBeforeMonth(y, n)
    decreases n
  {
    if m < n - 1 {
      MonthsGrow(y, m, n - 1);
    }
  }

  lemma YearOfMonths(y: int)
    ensures DaysBeforeMonth(y, 13) == YearLength(y)
  {
    assert DaysBeforeMonth(y, 2) == 31;
    assert DaysBeforeMonth(y, 3) == 31 + MonthLength(y, 2);
    assert DaysBeforeMonth(y, 5) == DaysBeforeMonth(y, 3) + 61;
    assert DaysBeforeMonth(y, 7) == DaysBeforeMonth(y, 5) + 61;
    assert DaysBeforeMonth(y, 9) == DaysBeforeMonth(y, 7) + 62;
    assert DaysBeforeMonth(y, 11) == DaysBeforeMonth(y, 9) + 61;
    assert DaysBeforeMonth(y, 13) == DaysBeforeMonth(y, 11) + 61;
  }

  lemma {:induction false} YearsGrow(y: int, z: int)
    requires 0 <= y < z
    ensures DaysBeforeYear(y) + YearLength(y) <= DaysBeforeYear(z)
    decreases z
  {
    if y < z - 1 {
      YearsGrow(y, z - 1);
    }
  }

  lemma DayOfYear(t: Date)
    requires ValidDate(t)
    ensures 1 <= DaysBeforeMonth(t.y, t.m) + t.d <= YearLength(t.y)
  {
    YearOfMonths(t.y);
    MonthsGrow(t.y, t.m, 13);
    if t.m > 1 {
      MonthsGrow(t.y, 1, t.m);
    }
  }

  /** How many multiples of 4, 100 and 400 lie below y. */
  lemma Multiples4(y: int)
    requires y > 0
    ensures (y + 3) / 4 == (y - 1 + 3) / 4 + if (y - 1) % 4 == 0 then 1 else 0
  {
  }

  lemma Multiples100(y: int)
    requires y > 0
    ensures (y + 99) / 100 == (y - 1 + 99) / 100 + if (y - 1) % 100 == 0 then 1 else 0
  {
  }

  lemma Multiples400(y: int)
    requires y > 0
    ensures (y + 399) / 400 == (y - 1 + 399) / 400 + if (y - 1) % 400 == 0 then 1 else 0
  {
  }

  lemma LeapDay(y: int)
    ensures YearLength(y) == 365 + (if y % 4 == 0 then 1 else 0) - (if y % 100 == 0 then 1 else 0)
                             + (if y % 400 == 0 then 1 else 0)
  {
  }

  lemma {:induction false} YearsCount(y: int)
    requires y >= 0
    ensures DaysBeforeYear(y) == 365 * y + (y + 3) / 4 - (y + 99) / 100 + (y + 399) / 400
  {
    if y > 0 {
      YearsCount(y - 1);
      LeapDay(y - 1);
      Multiples4(y);
      Multiples100(y);
      Multiples400(y);
    }
  }

  lemma {:induction false} MonthsCount(y: int, m: int)
    requires 1 <= m <= 12
    ensures DaysBeforeMonth(y, m) == (367 * m - 362) / 12 - if m <= 2 then 0 else if Leap(y) then 1 else 2
  {
    if m > 1 { MonthsCount(y, m - 1); }
  }

  /** The day number is that of the Gregorian calendar, counted from the first of January of year 0. */
  lemma DayNumberIs(t: Date)
    requires ValidDate(t)
    ensures DayNumber(t) == 365 * t.y + (t.y + 3) / 4 - (t.y + 99) / 100 + (t.y + 399) / 400
                            + (367 * t.m - 362) / 12 - (if t.m <= 2 then 0 else if Leap(t.y) then 1 else 2) + t.d
  {
    YearsCount(t.y);
    MonthsCount(t.y, t.m);
  }

  /** Thirty days have April, June, September and November. */
  lemma MonthLengths(y: int, m: int)
    requires 1 <= m <= 12
    ensures MonthLength(y, m) == if m == 2 then (if Leap(y) then 29 else 28) else 30 + (m + m / 8) % 2
  {
  }

  /** The calendar order of dates is the order of day numbers. */
  lemma DateOrder(a: Date, b: Date)
    requires ValidDate(a) && ValidDate(b) && DateLess(a, b)
    ensures DayNumber(a) < DayNumber(b)
  {
    DayOfYear(a);
    DayOfYear(b);
    if a.y < b.y {
      YearsGrow(a.y, b.y);
    } else if a.m < b.m {
      MonthsGrow(a.y, a.m, b.m);
    }
  }

  /** The day after; the last day of 9999 leads out of the range. */
  function NextDay(t: Date): Date
  {
    if t.d < MonthLength(t.y, t.m) then t.(d := t.d + 1)
    else if t.m < 12 then Date(t.y, t.m + 1, 1) else Date(t.y + 1, 1, 1)
  }

  function PreviousDay(t: Date): Date
  {
    if t.d > 1 then t.(d := t.d - 1)
    else if t.m > 1 then Date(t.y, t.m - 1, MonthLength(t.y, t.m - 1)) else Date(t.y - 1, 12, 31)
  }

  lemma NextDayNumber(t: Date)
    requires ValidDate(t)
    ensures DayNumber(NextDay(t)) == DayNumber(t) + 1
  {
    YearOfMonths(t.y);
  }

  lemma PreviousDayNumber(t: Date)
    requires ValidDate(t) && PreviousDay(t).y >= 0
    ensures DayNumber(PreviousDay(t)) == DayNumber(t) - 1
  {
    if t.d == 1 && t.m == 1 { YearOfMonths(t.y - 1); }
  }

  // ---------------------------------------------------------------------------
  // Instants
  // ---------------------------------------------------------------------------

  /** A UTC date and the milliseconds since its midnight. */
  datatype Stamp = Stamp(date: Date, ms: int)

  predicate Valid(s: Stamp) { ValidDate(s.date) && 0 <= s.ms < DAY }

  function Instant(s: Stamp): int
    requires s.date.y >= 0 && s.date.m >= 1
  {
    DayNumber(s.date) * DAY + s.ms
  }

  /** Carries milliseconds outside the day into the neighbouring date. */
  function Normal(s: Stamp): Stamp
  {
    if s.ms < 0 then Stamp(PreviousDay(s.date), s.ms + DAY)
    else if s.ms >= DAY then Stamp(NextDay(s.date), s.ms - DAY) else s
  }

  lemma NormalKeepsInstant(s: Stamp)
    requires ValidDate(s.date) && -DAY <= s.ms < 2 * DAY && Valid(Normal(s))
    ensures Instant(Normal(s)) == Instant(s)
  {
    if s.ms < 0 {
      PreviousDayNumber(s.date);
    } else if s.ms >= DAY {
      NextDayNumber(s.date);
    }
  }

  // ---------------------------------------------------------------------------
  // Text
  // ---------------------------------------------------------------------------

  /** n in exactly w digits. */
  function Pad(n: nat, w: nat): (s: string)
    ensures |s| == w && AllDigits(s)
  {
    if w == 0 then "" else Pad(n / 10, w - 1) + [DigitChar(n % 10)]
  }

  function Power(w: nat): (p: nat)
    ensures p > 0
  {
    if w == 0 then 1 else 10 * Power(w - 1)
  }

  lemma DivideByTen(n: nat, p: nat)
    requires n < 10 * p
    ensures n / 10 < p && 10 * (n / 10) + n % 10 == n
  {
  }

  lemma {:induction false} ValueOfPad(n: nat, w: nat)
    requires n < Power(w)
    ensures Value(Pad(n, w)) == n
  {
    if w > 0 {
      DivideByTen(n, Power(w - 1));
      ValueOfPad(n / 10, w - 1);
      var s := Pad(n, w);
      assert s[..w - 1] == Pad(n / 10, w - 1) && s[w - 1] == DigitChar(n % 10);
    }
  }

  function DateText(t: Date): string
    requires t.y >= 0 && t.m >= 0 && t.d >= 0
  {
    Pad(t.y, 4) + ("-" + (Pad(t.m, 2) + ("-" + Pad(t.d, 2))))
  }

  function Hour(ms: nat): nat { ms / 3_600_000 }

  function Minute(ms: nat): nat { ms / 60_000 % 60 }

  function Second(ms: nat): nat { ms / 1000 % 60 }

  lemma ClockParts(ms: nat)
    requires ms < DAY
    ensures Hour(ms) < 24 && Minute(ms) < 60 && Second(ms) < 60
    ensures ((60 * Hour(ms) + Minute(ms)) * 60 + Second(ms)) * 1000 == ms - ms % 1000
  {
    var s := ms / 1000;
    assert ms / 60_000 == s / 60 && ms / 3_600_000 == s / 60 / 60;
  }

  function ClockText(ms: nat): string
  {
    Pad(Hour(ms), 2) + (":" + (Pad(Minute(ms), 2) + (":" + Pad(Second(ms), 2))))
  }

  /** Qt::ISODateWithMs in UTC. */
  function Iso(s: Stamp): string
    requires Valid(s)
  {
    DateText(s.date) + ("T" + (ClockText(s.ms) + ("." + (Pad(s.ms % 1000, 3) + "Z"))))
  }

  /** A text of five parts, the first and third of known lengths. */
  lemma FiveParts(a: string, x: char, b: string, y: char, c: string)
    ensures var t := a + ([x] + (b + ([y] + c)));
            && |t| == |a| + |b| + |c| + 2 && t[..|a|] == a && t[|a|] == x
            && t[|a| + 1..|a| + 1 + |b|] == b && t[|a| + 1 + |b|] == y && t[|a| + |b| + 2..] == c
  {
  }

  lemma DateFields(t: Date)
    requires t.y >= 0 && t.m >= 0 && t.d >= 0
    ensures var d := DateText(t);
            && |d| == 10 && d[..4] == Pad(t.y, 4) && d[4] == '-' && d[5..7] == Pad(t.m, 2) && d[7] == '-'
            && d[8..10] == Pad(t.d, 2)
  {
    FiveParts(Pad(t.y, 4), '-', Pad(t.m, 2), '-', Pad(t.d, 2));
    assert DateText(t)[8..10] == DateText(t)[8..];
  }

  lemma ClockFields(ms: nat)
    ensures var c := ClockText(ms);
            && |c| == 8 && c[..2] == Pad(ms / 3_600_000, 2) && c[2] == ':' && c[3..5] == Pad(ms / 60_000 % 60, 2)
            && c[5] == ':' && c[6..8] == Pad(ms / 1000 % 60, 2)
  {
    FiveParts(Pad(Hour(ms), 2), ':', Pad(Minute(ms), 2), ':', Pad(Second(ms), 2));
    assert ClockText(ms)[6..8] == ClockText(ms)[6..];
  }

  lemma SubSlice(t: string, a: string, at: nat, i: nat, j: nat)
    requires at + |a| <= |t| && t[at..at + |a|] == a && i <= j <= |a|
    ensures t[at + i..at + j] == a[i..j]
  {
    var x, y := t[at + i..at + j], a[i..j];
    forall k | 0 <= k < j - i ensures x[k] == y[k] {
      assert a[i + k] == t[at..at + |a|][i + k];
    }
  }

  /** Section 5.6 of RFC 3339: date, T, clock, a point, three digits, Z. */
  lemma IsoFields(s: Stamp)
    requires Valid(s)
    ensures var t := Iso(s);
            && |t| == 24 && t[10] == 'T' && t[19] == '.' && t[23] == 'Z'
            && t[..4] == Pad(s.date.y, 4) && t[5..7] == Pad(s.date.m, 2) && t[8..10] == Pad(s.date.d, 2)
            && t[11..13] == Pad(s.ms / 3_600_000, 2) && t[14..16] == Pad(s.ms / 60_000 % 60, 2)
            && t[17..19] == Pad(s.ms / 1000 % 60, 2) && t[20..23] == Pad(s.ms % 1000, 3)
  {
    var t, d, c, f := Iso(s), DateText(s.date), ClockText(s.ms), Pad(s.ms % 1000, 3);
    DateFields(s.date);
    ClockFields(s.ms);
    FiveParts(d, 'T', c, '.', f + "Z");
    assert t[20..] == f + "Z";
    assert t[20..23] == t[20..][..3] && t[23] == t[20..][3];
    assert t[0..0 + |d|] == d && t[11..11 + |c|] == c;
    SubSlice(t, d, 0, 0, 4);
    SubSlice(t, d, 0, 5, 7);
    SubSlice(t, d, 0, 8, 10);
    SubSlice(t, c, 11, 0, 2);
    SubSlice(t, c, 11, 3, 5);
    SubSlice(t, c, 11, 6, 8);
  }

  /** PostgreSQL's fraction: trailing zeros are trimmed. */
  function PgFraction(ms: nat): string
    requires ms < 1000
  {
    if ms == 0 then ""
    else if ms % 100 == 0 then "." + Pad(ms / 100, 1)
    else if ms % 10 == 0 then "." + Pad(ms / 10, 2)
    else "." + Pad(ms, 3)
  }

  /** A timestamp column as PostgreSQL prints it: a blank, and no zone. */
  function Pg(s: Stamp): string
    requires Valid(s)
  {
    DateText(s.date) + (" " + (ClockText(s.ms) + PgFraction(s.ms % 1000)))
  }

  // ---------------------------------------------------------------------------
  // Parsing
  // ---------------------------------------------------------------------------

  /** A value and the text after it. */
  datatype Parsed = Bad | Got(value: int, rest: string)

  /** Exactly w digits. */
  function Digits(s: string, w: nat): Parsed
  {
    if w <= |s| && AllDigits(s[..w]) then Got(Value(s[..w]), s[w..]) else Bad
  }

  /** A separator and then exactly two digits. */
  function Field(s: string, sep: char): Parsed
  {
    if s != "" && s[0] == sep then Digits(s[1..], 2) else Bad
  }

  /** Thousandths, rounded half up; as many digits as there are. */
  function Fraction(s: string): Parsed
  {
    if s == "" || s[0] != '.' then Got(0, s)
    else
      var k := DigitRun(s[1..]);
      if k == 0 then Bad
      else Got((2000 * Value(s[1..][..k]) + Power(k)) / (2 * Power(k)), s[1..][k..])
  }

  /** The zone as milliseconds east of UTC; a text without one is taken as UTC. */
  function Zone(s: string): Parsed
  {
    if s == "" || s == "Z" then Got(0, "")
    else if s[0] != '+' && s[0] != '-' then Bad
    else
      match Digits(s[1..], 2)
      case Bad => Bad
      case Got(h, r) =>
        match Field(r, ':')
        case Bad => Bad
        case Got(m, r2) =>
          if r2 != "" || h > 23 || m > 59 then Bad
          else Got((if s[0] == '-' then -1 else 1) * (60 * h + m) * 60_000, "")
  }

  /** HH:MM:SS as milliseconds. */
  function Clock(s: string): Parsed
  {
    match Digits(s, 2)
    case Bad => Bad
    case Got(h, r) =>
      match Field(r, ':')
      case Bad => Bad
      case Got(m, r2) =>
        match Field(r2, ':')
        case Bad => Bad
        case Got(sec, r3) =>
          if h > 23 || m > 59 || sec > 59 then Bad
          else Got(((60 * h + m) * 60 + sec) * 1000, r3)
  }

  datatype ParsedDate = BadDate | GotDate(date: Date, rest: string)

  /** QDate has no year 0. */
  function ReadDate(s: string): ParsedDate
  {
    match Digits(s, 4)
    case Bad => BadDate
    case Got(y, r) =>
      match Field(r, '-')
      case Bad => BadDate
      case Got(m, r2) =>
        match Field(r2, '-')
        case Bad => BadDate
        case Got(d, r3) =>
          if y > 0 && ValidDate(Date(y, m, d)) then GotDate(Date(y, m, d), r3) else BadDate
  }

  /** QDateTime::fromString with Qt::ISODateWithMs, as a UTC stamp. */
  function ReadStamp(s: string): Option<Stamp>
  {
    match ReadDate(s)
    case BadDate => None
    case GotDate(date, r) =>
      if r == "" || r[0] != 'T' then None else ReadTime(date, r[1..])
  }

  /** Clock, fraction and zone. */
  function ReadTime(date: Date, r: string): Option<Stamp>
  {
    match Clock(r)
    case Bad => None
    case Got(clock, r2) =>
      match Fraction(r2)
      case Bad => None
      case Got(ms, r3) =>
        match Zone(r3)
        case Bad => None
        case Got(east, _) => Some(Normal(Stamp(date, clock + ms - east)))
  }

  function TrimEnd(s: string): string
  {
    if s != "" && IsSpace(s[|s| - 1]) then TrimEnd(s[..|s| - 1]) else s
  }

  function Unblanked(raw: string): string
  {
    var s := TrimEnd(SkipSpace(raw));
    if |s| > 10 && s[10] == ' ' then s[10 := 'T'] else s
  }

  /** Dates outside the four-digit years print as nothing. */
  function Canonical(raw: string): string
  {
    match ReadStamp(Unblanked(raw))
    case None => raw
    case Some(s) => if Valid(s) && s.date.y > 0 then Iso(s) else ""
  }

  // ---------------------------------------------------------------------------
  // Printing then parsing
  // ---------------------------------------------------------------------------

  lemma DigitsOfPad(n: nat, w: nat, rest: string)
    requires n < Power(w)
    ensures Digits(Pad(n, w) + rest, w) == Got(n, rest)
  {
    ValueOfPad(n, w);
    assert (Pad(n, w) + rest)[..w] == Pad(n, w) && (Pad(n, w) + rest)[w..] == rest;
  }

  lemma FieldOfPad(sep: char, n: nat, rest: string)
    requires n < 100
    ensures Field([sep] + (Pad(n, 2) + rest), sep) == Got(n, rest)
  {
    assert Power(2) == 100;
    DigitsOfPad(n, 2, rest);
    assert ([sep] + (Pad(n, 2) + rest))[1..] == Pad(n, 2) + rest;
  }

  lemma ReadDateText(t: Date, rest: string)
    requires ValidDate(t) && t.y > 0
    ensures ReadDate(DateText(t) + rest) == GotDate(t, rest)
  {
    assert Power(4) == 10_000;
    var r2 := "-" + (Pad(t.d, 2) + rest);
    var r1 := "-" + (Pad(t.m, 2) + r2);
    assert DateText(t) + rest == Pad(t.y, 4) + r1;
    DigitsOfPad(t.y, 4, r1);
    FieldOfPad('-', t.m, r2);
    FieldOfPad('-', t.d, rest);
  }

  lemma ReadClockText(ms: nat, rest: string)
    requires ms < DAY
    ensures Clock(ClockText(ms) + rest) == Got(ms - ms % 1000, rest)
  {
    ClockParts(ms);
    assert Power(2) == 100;
    var h, m, s := Hour(ms), Minute(ms), Second(ms);
    var r2 := ":" + (Pad(s, 2) + rest);
    var r1 := ":" + (Pad(m, 2) + r2);
    assert ClockText(ms) + rest == Pad(h, 2) + r1;
    DigitsOfPad(h, 2, r1);
    FieldOfPad(':', m, r2);
    FieldOfPad(':', s, rest);
  }

  lemma ReadFraction(n: nat, w: nat, rest: string)
    requires w > 0 && n < Power(w) && (rest == "" || !IsDigit(rest[0]))
    ensures Fraction("." + (Pad(n, w) + rest)) == Got((2000 * n + Power(w)) / (2 * Power(w)), rest)
  {
    ValueOfPad(n, w);
    DigitRunOfDigits(Pad(n, w), rest);
    var s := "." + (Pad(n, w) + rest);
    assert s[1..] == Pad(n, w) + rest;
    assert s[1..][..w] == Pad(n, w) && s[1..][w..] == rest;
  }

  lemma ReadPgFraction(ms: nat)
    requires ms < 1000
    ensures Fraction(PgFraction(ms)) == Got(ms, "")
  {
    assert Power(1) == 10 && Power(2) == 100 && Power(3) == 1000;
    var w := if ms % 100 == 0 then 1 else if ms % 10 == 0 then 2 else 3;
    var n := if ms % 100 == 0 then ms / 100 else if ms % 10 == 0 then ms / 10 else ms;
    if ms > 0 {
      ReadFraction(n, w, "");
      assert Pad(n, w) + "" == Pad(n, w);
    }
  }

  lemma ReadStampParts(s: string, date: Date, r: string, clock: int, r2: string, ms: int, r3: string, east: int)
    requires ReadDate(s) == GotDate(date, "T" + r) && Clock(r) == Got(clock, r2)
    requires Fraction(r2) == Got(ms, r3) && Zone(r3) == Got(east, "")
    ensures ReadStamp(s) == Some(Normal(Stamp(date, clock + ms - east)))
  {
    assert ("T" + r)[1..] == r;
    ReadTimeParts(date, r, clock, r2, ms, r3, east);
  }

  lemma ReadTimeParts(date: Date, r: string, clock: int, r2: string, ms: int, r3: string, east: int)
    requires Clock(r) == Got(clock, r2) && Fraction(r2) == Got(ms, r3) && Zone(r3) == Got(east, "")
    ensures ReadTime(date, r) == Some(Normal(Stamp(date, clock + ms - east)))
  {
  }

  lemma ReadStampText(s: Stamp, tail: string, zone: string, east: int)
    requires Valid(s) && s.date.y > 0
    requires Fraction(tail) == Got(s.ms % 1000, zone) && Zone(zone) == Got(east, "")
    ensures ReadStamp(DateText(s.date) + ("T" + (ClockText(s.ms) + tail)))
         == Some(Normal(Stamp(s.date, s.ms - east)))
  {
    var r := ClockText(s.ms) + tail;
    ReadDateText(s.date, "T" + r);
    ReadClockText(s.ms, tail);
    ReadStampParts(DateText(s.date) + ("T" + r), s.date, r, s.ms - s.ms % 1000, tail,
                   s.ms % 1000, zone, east);
  }

  /** A text that starts with a digit and ends in a digit or Z has nothing to trim. */
  lemma NothingToTrim(s: string)
    requires s != "" && !IsSpace(s[0]) && !IsSpace(s[|s| - 1])
    ensures TrimEnd(SkipSpace(s)) == s
  {
  }

  /** Trimming leaves a full date and time alone, and position 10 gets its `T`. */
  lemma UnblankedSplit(d: string, sep: char, tail: string)
    requires |d| == 10 && IsDigit(d[0]) && (sep == 'T' || sep == ' ')
    requires tail != "" && !IsSpace(tail[|tail| - 1])
    ensures Unblanked(d + ([sep] + tail)) == d + ("T" + tail)
  {
    var s := d + ([sep] + tail);
    assert s[0] == d[0] && s[10] == sep && s[|s| - 1] == tail[|tail| - 1];
    NothingToTrim(s);
    assert s[10 := 'T'] == d + ("T" + tail);
  }

  lemma DateTextShape(t: Date)
    requires t.y >= 0 && t.m >= 0 && t.d >= 0
    ensures |DateText(t)| == 10 && IsDigit(DateText(t)[0])
  {
    assert DateText(t)[0] == Pad(t.y, 4)[0];
  }

  lemma CanonicalFrom(raw: string, text: string, s: Stamp)
    requires Unblanked(raw) == text && ReadStamp(text) == Some(s) && Valid(s) && s.date.y > 0
    ensures Canonical(raw) == Iso(s)
  {
  }

  lemma ReadStampOfIso(s: Stamp)
    requires Valid(s) && s.date.y > 0
    ensures ReadStamp(Iso(s)) == Some(s)
  {
    var fraction := "." + (Pad(s.ms % 1000, 3) + "Z");
    assert Power(3) == 1000;
    ReadFraction(s.ms % 1000, 3, "Z");
    ReadStampText(s, fraction, "Z", 0);
  }

  lemma CanonicalOfIso(s: Stamp)
    requires Valid(s) && s.date.y > 0
    ensures Canonical(Iso(s)) == Iso(s)
  {
    var fraction := "." + (Pad(s.ms % 1000, 3) + "Z");
    ReadStampOfIso(s);
    DateTextShape(s.date);
    UnblankedSplit(DateText(s.date), 'T', ClockText(s.ms) + fraction);
    CanonicalFrom(Iso(s), Iso(s), s);
  }

  lemma PgTailEndsInDigit(ms: nat)
    requires ms < DAY
    ensures var tail := ClockText(ms) + PgFraction(ms % 1000);
            tail != "" && IsDigit(tail[|tail| - 1])
  {
    var clock, fraction := ClockText(ms), PgFraction(ms % 1000);
    assert clock[|clock| - 1] == Pad(Second(ms), 2)[1];
    if fraction != "" {
      assert IsDigit(fraction[|fraction| - 1]);
    }
  }

  /** A replayed message and its live original, to the millisecond, get the same timestamp. */
  lemma ReplayMatchesLive(s: Stamp)
    requires Valid(s) && s.date.y > 0
    ensures Canonical(Pg(s)) == Canonical(Iso(s)) == Iso(s)
  {
    CanonicalOfIso(s);
    ReadPgFraction(s.ms % 1000);
    ReadStampText(s, PgFraction(s.ms % 1000), "", 0);
    DateTextShape(s.date);
    PgTailEndsInDigit(s.ms);
    var tail := ClockText(s.ms) + PgFraction(s.ms % 1000);
    UnblankedSplit(DateText(s.date), ' ', tail);
    CanonicalFrom(Pg(s), DateText(s.date) + ("T" + tail), s);
  }

  function ZoneText(minutes: int): string
    requires -1440 < minutes < 1440
  {
    var a := if minutes < 0 then -minutes else minutes;
    (if minutes < 0 then "-" else "+") + (Pad(a / 60, 2) + (":" + (Pad(a % 60, 2) + "")))
  }

  lemma ReadZoneText(minutes: int)
    requires -1440 < minutes < 1440
    ensures Zone(ZoneText(minutes)) == Got(minutes * 60_000, "")
  {
    var a := if minutes < 0 then -minutes else minutes;
    var r := ":" + (Pad(a % 60, 2) + "");
    assert Power(2) == 100;
    DigitsOfPad(a / 60, 2, r);
    FieldOfPad(':', a % 60, "");
    assert ZoneText(minutes)[1..] == Pad(a / 60, 2) + r;
    assert 60 * (a / 60) + a % 60 == a;
  }

  /** Going east and back west by less than a day returns to the same stamp. */
  lemma NormalInverse(s: Stamp, shift: int)
    requires Valid(s) && -DAY < shift < DAY
    ensures var local := Normal(Stamp(s.date, s.ms + shift));
            Normal(Stamp(local.date, local.ms - shift)) == s
  {
  }

  /** The wall-clock text of an instant in a zone `minutes` east of UTC. */
  function OffsetText(local: Stamp, minutes: int): string
    requires Valid(local) && -1440 < minutes < 1440
  {
    DateText(local.date) + ("T" + (ClockText(local.ms) +
    ("." + (Pad(local.ms % 1000, 3) + ZoneText(minutes)))))
  }

  lemma ReadOffset(local: Stamp, minutes: int)
    requires Valid(local) && local.date.y > 0 && -1440 < minutes < 1440
    ensures ReadStamp(OffsetText(local, minutes))
         == Some(Normal(Stamp(local.date, local.ms - minutes * 60_000)))
  {
    var zone := ZoneText(minutes);
    assert Power(3) == 1000;
    ReadZoneText(minutes);
    ReadFraction(local.ms % 1000, 3, zone);
    ReadStampText(local, "." + (Pad(local.ms % 1000, 3) + zone), zone, minutes * 60_000);
  }

  lemma EndsInDigit(a: string, z: string)
    requires z != "" && IsDigit(z[|z| - 1])
    ensures a + z != "" && IsDigit((a + z)[|a + z| - 1])
  {
  }

  lemma UnblankedOffset(local: Stamp, minutes: int)
    requires Valid(local) && -1440 < minutes < 1440
    ensures Unblanked(OffsetText(local, minutes)) == OffsetText(local, minutes)
  {
    var zone := ZoneText(minutes);
    var ms := Pad(local.ms % 1000, 3);
    assert IsDigit(zone[|zone| - 1]);
    EndsInDigit(ms, zone);
    EndsInDigit(".", ms + zone);
    EndsInDigit(ClockText(local.ms), "." + (ms + zone));
    DateTextShape(local.date);
    UnblankedSplit(DateText(local.date), 'T', ClockText(local.ms) + ("." + (ms + zone)));
  }

  lemma CanonicalOfOffset(local: Stamp, minutes: int, text: string, s: Stamp)
    requires Valid(local) && local.date.y > 0 && -1440 < minutes < 1440
    requires text == OffsetText(local, minutes)
    requires s == Normal(Stamp(local.date, local.ms - minutes * 60_000)) && Valid(s) && s.date.y > 0
    ensures Canonical(text) == Iso(s)
  {
    assert ReadStamp(text) == Some(s) by { ReadOffset(local, minutes); }
    assert Unblanked(text) == text by { UnblankedOffset(local, minutes); }
    CanonicalFrom(text, text, s);
  }

  /** Whatever zone an instant is written in, its canonical text is the UTC one. */
  lemma ZoneConverts(s: Stamp, minutes: int)
    requires Valid(s) && s.date.y > 0 && -1440 < minutes < 1440
    requires var local := Normal(Stamp(s.date, s.ms + minutes * 60_000));
             Valid(local) && local.date.y > 0
    ensures var local := Normal(Stamp(s.date, s.ms + minutes * 60_000));
            Canonical(OffsetText(local, minutes)) == Iso(s)
  {
    var local := Normal(Stamp(s.date, s.ms + minutes * 60_000));
    NormalInverse(s, minutes * 60_000);
    CanonicalOfOffset(local, minutes, OffsetText(local, minutes), s);
  }

  /** What cannot be read stays as it is; what lies outside the four-digit years becomes empty. */
  lemma UnreadableStays(raw: string)
    ensures ReadStamp(Unblanked(raw)).None? ==> Canonical(raw) == raw
    ensures ReadStamp(Unblanked(raw)).Some? && !Valid(ReadStamp(Unblanked(raw)).value) ==> Canonical(raw) == ""
  {
  }

  lemma CanonicalCases(raw: string) returns (s: Stamp)
    ensures Canonical(raw) == raw || Canonical(raw) == "" ||
            (Valid(s) && s.date.y > 0 && Canonical(raw) == Iso(s))
  {
    s := match ReadStamp(Unblanked(raw)) case None => Stamp(Date(1, 1, 1), 0) case Some(x) => x;
  }

  /** Canonicalising twice changes nothing, whatever the text. */
  lemma CanonicalIsIdempotent(raw: string)
    ensures Canonical(Canonical(raw)) == Canonical(raw)
  {
    var s := CanonicalCases(raw);
    if Canonical(raw) != raw && Canonical(raw) != "" {
      CanonicalOfIso(s);
    }
  }

  // ---------------------------------------------------------------------------
  // Text order is time order
  // ---------------------------------------------------------------------------

  /** Byte-wise comparison, as SQLite's MAX does it. */
  predicate TextLess(a: string, b: string)
  {
    if b == "" then false else if a == "" then true
    else a[0] < b[0] || (a[0] == b[0] && TextLess(a[1..], b[1..]))
  }

  lemma {:induction false} LessAfterPrefix(p: string, a: string, b: string)
    ensures TextLess(p + a, p + b) <==> TextLess(a, b)
  {
    if p == "" {
      assert p + a == a && p + b == b;
    } else {
      assert (p + a)[1..] == p[1..] + a && (p + b)[1..] == p[1..] + b;
      LessAfterPrefix(p[1..], a, b);
    }
  }

  lemma {:induction false} PadLess(n: nat, m: nat, w: nat, a: string, b: string)
    requires n < m < Power(w)
    ensures TextLess(Pad(n, w) + a, Pad(m, w) + b)
  {
    var x, y := [DigitChar(n % 10)] + a, [DigitChar(m % 10)] + b;
    assert Pad(n, w) + a == Pad(n / 10, w - 1) + x;
    assert Pad(m, w) + b == Pad(m / 10, w - 1) + y;
    if n / 10 < m / 10 {
      PadLess(n / 10, m / 10, w - 1, x, y);
    } else {
      LessAfterPrefix(Pad(n / 10, w - 1), x, y);
    }
  }

  /** One fixed-width field and its separator: decide on the field, or go on to the rest. */
  lemma FieldOrder(n: nat, m: nat, w: nat, a: string, b: string, sep: string)
    requires n < Power(w) && m < Power(w)
    ensures n < m ==> TextLess(Pad(n, w) + (sep + a), Pad(m, w) + (sep + b))
    ensures n == m ==>
      (TextLess(Pad(n, w) + (sep + a), Pad(m, w) + (sep + b)) <==> TextLess(a, b))
  {
    if n < m {
      PadLess(n, m, w, sep + a, sep + b);
    } else if n == m {
      LessAfterPrefix(Pad(n, w), sep + a, sep + b);
      LessAfterPrefix(sep, a, b);
    }
  }

  /** The text after the date and its `T`. */
  function TimeOfDay(ms: nat): string
  {
    Pad(Hour(ms), 2) + (":" + (Pad(Minute(ms), 2) + (":" + (Pad(Second(ms), 2) +
    ("." + (Pad(ms % 1000, 3) + ("Z" + "")))))))
  }

  lemma ClockOrder(a: nat, b: nat)
    requires a < b < DAY
    ensures Hour(a) <= Hour(b)
    ensures Hour(a) == Hour(b) ==> Minute(a) <= Minute(b)
    ensures Hour(a) == Hour(b) && Minute(a) == Minute(b) ==> Second(a) <= Second(b)
    ensures Hour(a) == Hour(b) && Minute(a) == Minute(b) && Second(a) == Second(b) ==>
              a % 1000 < b % 1000
  {
    ClockParts(a);
    ClockParts(b);
  }

  lemma TimeOrder(a: nat, b: nat)
    requires a < b < DAY
    ensures TextLess(TimeOfDay(a), TimeOfDay(b))
  {
    ClockParts(a);
    ClockParts(b);
    ClockOrder(a, b);
    assert Power(2) == 100 && Power(3) == 1000;
    var a4, b4 := Pad(a % 1000, 3) + ("Z" + ""), Pad(b % 1000, 3) + ("Z" + "");
    var a3, b3 := Pad(Second(a), 2) + ("." + a4), Pad(Second(b), 2) + ("." + b4);
    var a2, b2 := Pad(Minute(a), 2) + (":" + a3), Pad(Minute(b), 2) + (":" + b3);
    FieldOrder(a % 1000, b % 1000, 3, "", "", "Z");
    FieldOrder(Second(a), Second(b), 2, a4, b4, ".");
    FieldOrder(Minute(a), Minute(b), 2, a3, b3, ":");
    FieldOrder(Hour(a), Hour(b), 2, a2, b2, ":");
  }

  function Layout(t: Date, rest: string): string
    requires t.y >= 0 && t.m >= 0 && t.d >= 0
  {
    Pad(t.y, 4) + ("-" + (Pad(t.m, 2) + ("-" + (Pad(t.d, 2) + ("T" + rest)))))
  }

  lemma DateTextOrder(a: Date, b: Date, x: string, y: string)
    requires ValidDate(a) && ValidDate(b)
    ensures DateLess(a, b) ==> TextLess(Layout(a, x), Layout(b, y))
    ensures a == b ==> (TextLess(Layout(a, x), Layout(b, y)) <==> TextLess(x, y))
  {
    assert Power(4) == 10_000 && Power(2) == 100;
    var a2, b2 := Pad(a.d, 2) + ("T" + x), Pad(b.d, 2) + ("T" + y);
    var a1, b1 := Pad(a.m, 2) + ("-" + a2), Pad(b.m, 2) + ("-" + b2);
    FieldOrder(a.d, b.d, 2, x, y, "T");
    FieldOrder(a.m, b.m, 2, a2, b2, "-");
    FieldOrder(a.y, b.y, 4, a1, b1, "-");
  }

  lemma IsoLayout(s: Stamp)
    requires Valid(s)
    ensures Iso(s) == Layout(s.date, TimeOfDay(s.ms))
  {
    assert "Z" + "" == "Z";
  }

  lemma {:induction false} LessIsIrreflexive(a: string)
    ensures !TextLess(a, a)
  {
    if a != "" {
      LessIsIrreflexive(a[1..]);
    }
  }

  lemma {:induction false} LessIsAsymmetric(a: string, b: string)
    requires TextLess(a, b)
    ensures !TextLess(b, a)
  {
    if a != "" && a[0] == b[0] {
      LessIsAsymmetric(a[1..], b[1..]);
    }
  }

  lemma EarlierIsLess(a: Stamp, b: Stamp)
    requires Valid(a) && Valid(b) && (DateLess(a.date, b.date) || (a.date == b.date && a.ms < b.ms))
    ensures TextLess(Iso(a), Iso(b)) && Instant(a) < Instant(b)
  {
    IsoLayout(a);
    IsoLayout(b);
    DateTextOrder(a.date, b.date, TimeOfDay(a.ms), TimeOfDay(b.ms));
    if DateLess(a.date, b.date) {
      DateOrder(a.date, b.date);
    } else {
      TimeOrder(a.ms, b.ms);
    }
  }

  /** For years 0000 to 9999 canonical texts sort exactly as the instants they name. */
  lemma TextOrderIsTimeOrder(a: Stamp, b: Stamp)
    requires Valid(a) && Valid(b)
    ensures TextLess(Iso(a), Iso(b)) <==> Instant(a) < Instant(b)
    ensures Iso(a) == Iso(b) <==> a == b
  {
    if a == b {
      LessIsIrreflexive(Iso(a));
    } else if DateLess(a.date, b.date) || (a.date == b.date && a.ms < b.ms) {
      EarlierIsLess(a, b);
      LessIsIrreflexive(Iso(a));
    } else {
      EarlierIsLess(b, a);
      LessIsAsymmetric(Iso(b), Iso(a));
      LessIsIrreflexive(Iso(a));
    }
  }

  /** SELECT MAX(timestamp): the empty text when there is no row. */
  function Newest(ts: seq<string>): string
  {
    if ts == [] then ""
    else
      var rest := Newest(ts[1..]);
      if TextLess(rest, ts[0]) then ts[0] else rest
  }

  lemma {:induction false} LessIsTransitive(a: string, b: string, c: string)
    requires TextLess(a, b) && TextLess(b, c)
    ensures TextLess(a, c)
  {
    if a != "" && a[0] == b[0] == c[0] {
      LessIsTransitive(a[1..], b[1..], c[1..]);
    }
  }

  lemma {:induction false} NewestIsMax(ts: seq<string>, t: string)
    requires t in ts
    ensures !TextLess(Newest(ts), t)
    ensures Newest(ts) == "" || Newest(ts) in ts
  {
    var rest := Newest(ts[1..]);
    LessIsIrreflexive(ts[0]);
    if t in ts[1..] {
      NewestIsMax(ts[1..], t);
      if TextLess(rest, ts[0]) && TextLess(ts[0], t) {
        LessIsTransitive(rest, ts[0], t);
      }
    } else if ts[1..] != [] {
      NewestIsMax(ts[1..], ts[1]);
    }
  }

  /** The string maximum of canonical timestamps names the latest instant among them. */
  lemma NewestIsLatest(ts: seq<string>, newest: Stamp, s: Stamp)
    requires Valid(newest) && Valid(s) && Newest(ts) == Iso(newest) && Iso(s) in ts
    ensures Instant(s) <= Instant(newest)
  {
    NewestIsMax(ts, Iso(s));
    TextOrderIsTimeOrder(newest, s);
  }
}
