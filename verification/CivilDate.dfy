/**
 `format_epoch`: the civil date and time of a Unix timestamp, against the Gregorian calendar (leap years as in
 Appendix C of RFC 3339, month lengths as in its section 5.7).
 */
module CivilDate {

  type U64 = x: nat | x < 0x1_0000_0000_0000_0000
  type I64 = x: int | -0x8000_0000_0000_0000 <= x < 0x8000_0000_0000_0000

  datatype Date = Date(year: nat, month: nat, day: nat)

  datatype DateTime = DateTime(date: Date, hours: nat, minutes: nat, seconds: nat)

  // -- The calendar -------------------------------------------------------------------------------

  predicate IsLeap(y: int) {
    y % 4 == 0 && (y % 100 != 0 || y % 400 == 0)
  }

  function DaysIn(y: int, m: nat): nat {
    if m == 2 then (if IsLeap(y) then 29 else 28)
    else if m == 4 || m == 6 || m == 9 || m == 11 then 30
    else 31
  }

  predicate IsDate(d: Date) {
    1 <= d.month <= 12 && 1 <= d.day <= DaysIn(d.year, d.month)
  }

  function Successor(d: Date): Date {
    if d.day < DaysIn(d.year, d.month) then Date(d.year, d.month, d.day + 1)
    else if d.month < 12 then Date(d.year, d.month + 1, 1)
    else Date(d.year + 1, 1, 1)
  }

  function YearLength(y: int): nat {
    if IsLeap(y) then 366 else 365
  }

  /** Days from the start of 1970 to the start of year `y`, year by year. */
  function DaysBeforeYear(y: int): nat
    decreases y - 1970
  {
    if y <= 1970 then 0 else DaysBeforeYear(y - 1) + YearLength(y - 1)
  }

  /** Days of year `y` before month `m`, month by month. */
  function DaysBeforeMonth(y: int, m: nat): nat {
    if m <= 1 then 0 else DaysBeforeMonth(y, m - 1) + DaysIn(y, m - 1)
  }

  /** The number of days from 1970-01-01 to a date. */
  function DayNumber(d: Date): int {
    DaysBeforeYear(d.year) + DaysBeforeMonth(d.year, d.month) + d.day - 1
  }

  // -- The algorithm ------------------------------------------------------------------------------

  /** The days of an era with the leap days taken out; each subtraction is of unsigned numbers. */
  function Squeezed(doe: nat): nat
    requires doe < 146097
  {
    var a: nat := doe - doe / 1460;
    var b: nat := a + doe / 36524;
    b - doe / 146096
  }

  function YearOfEra(doe: nat): nat
    requires doe < 146097
  {
    Squeezed(doe) / 365
  }

  /** Days of an era before its year `y`. */
  function Before(y: nat): nat {
    365 * y + y / 4 - y / 100
  }

  function DayOfYear(doe: nat): nat
    requires doe < 146097
  {
    YearOfEraBracket(doe);
    doe - Before(YearOfEra(doe))
  }

  /** Month and day of the `doy`-th day of a year that starts in March. */
  function MonthDay(doy: nat): (nat, nat)
    requires doy <= 365
  {
    var mp := (5 * doy + 2) / 153;
    var before: nat := doy - (153 * mp + 2) / 5;
    (if mp < 10 then mp + 3 else mp - 9, before + 1)
  }

  /** The date of a day count that starts at March 1 of year 0. */
  function DateOfShifted(z: nat): Date {
    var era := z / 146097;
    var doe: nat := z % 146097;
    var y := YearOfEra(doe) + era * 400;
    DayOfYearFits(doe);
    MarchDate(y, DayOfYear(doe))
  }

  function DateOfDay(day: nat): Date {
    DateOfShifted(day + 719468)
  }

  /** The date of day `doy` of the year that starts in March of year `y`. */
  function MarchDate(y: nat, doy: nat): Date
    requires doy <= 365
  {
    var (m, d) := MonthDay(doy);
    Date(if m <= 2 then y + 1 else y, m, d)
  }

  /** The fields `format_epoch` prints; the day count with its offset fits a signed 64-bit integer. */
  function Fields(epoch: U64): DateTime {
    var days := epoch / 86400;
    var timeOfDay := epoch % 86400;
    var z: I64 := days + 719468;
    DateTime(DateOfShifted(z), timeOfDay / 3600, timeOfDay % 3600 / 60, timeOfDay % 60)
  }

  // -- The year of an era -------------------------------------------------------------------------

  lemma SqueezedMonotone(d: nat, e: nat)
    requires d <= e < 146097
    ensures Squeezed(d) <= Squeezed(e)
  {
    assert e / 1460 - d / 1460 <= e - d;
    assert d / 36524 - d / 146096 <= e / 36524 - e / 146096;
  }

  lemma SqueezedAtYear(y: nat)
    requires y < 400
    ensures Before(y) < 146097 && Squeezed(Before(y)) >= 365 * y
  {
    var q, r, c := y / 4, y % 4, y / 100;
    assert y == 4 * q + r && Before(y) == 1461 * q + 365 * r - c;
    assert 25 * c <= q;
    assert Before(y) / 1460 == q;
    assert Before(y) / 36524 >= c;
  }

  lemma SqueezedBeforeYear(y: nat)
    requires 1 <= y < 400
    ensures 1 <= Before(y) < 146097 && Squeezed(Before(y) - 1) < 365 * y
  {
    var q, r, c := y / 4, y % 4, y / 100;
    assert y == 4 * q + r && Before(y) == 1461 * q + 365 * r - c;
    assert 25 * c <= q;
    assert (Before(y) - 1) / 36524 <= c;
    if r == 0 && q == 25 * c {
      assert (Before(y) - 1) / 36524 <= c - 1;
      assert (Before(y) - 1) / 1460 >= q - 1;
    } else {
      assert (Before(y) - 1) / 1460 >= q;
    }
  }

  /** The squeezed day counts on the two sides of the start of year `y`. */
  lemma SqueezedAroundYear(y: nat, doe: nat)
    requires y < 400 && doe < 146097
    ensures doe < Before(y) ==> Squeezed(doe) < 365 * y
    ensures Before(y) <= doe ==> Squeezed(doe) >= 365 * y
  {
    if doe < Before(y) {
      SqueezedBeforeYear(y);
      SqueezedMonotone(doe, Before(y) - 1);
    } else {
      SqueezedAtYear(y);
      SqueezedMonotone(Before(y), doe);
    }
  }

  /** The year of an era is the one whose days the day falls into. */
  lemma YearOfEraBracket(doe: nat)
    requires doe < 146097
    ensures var y := YearOfEra(doe);
      0 <= y < 400 && Before(y) <= doe && (y < 399 ==> doe < Before(y + 1))
  {
    var y := YearOfEra(doe);
    assert 365 * y <= Squeezed(doe) < 365 * (y + 1);
    SqueezedAroundYear(y, doe);
    if y < 399 {
      SqueezedAroundYear(y + 1, doe);
    }
  }

  lemma QuotientStep(y: nat)
    ensures (y + 1) / 4 == y / 4 + if (y + 1) % 4 == 0 then 1 else 0
    ensures (y + 1) / 100 == y / 100 + if (y + 1) % 100 == 0 then 1 else 0
    ensures (y + 1) / 400 == y / 400 + if (y + 1) % 400 == 0 then 1 else 0
  {
  }

  lemma HundredIsMultipleOfFour(x: nat)
    ensures x % 100 == 0 ==> x % 4 == 0
  {
    if x % 100 == 0 {
      FourTimes(25 * (x / 100));
    }
  }

  lemma FourTimes(k: nat)
    ensures 4 * k % 4 == 0
  {
  }

  lemma BeforeStep(y: nat)
    ensures Before(y + 1) - Before(y) == if (y + 1) % 4 == 0 && (y + 1) % 100 != 0 then 366 else 365
  {
    QuotientStep(y);
    HundredIsMultipleOfFour(y + 1);
  }

  /** The year's days are numbered 0 to 364, or to 365 when the February it ends with is leap. */
  lemma DayOfYearInRange(doe: nat)
    requires doe < 146097
    ensures 0 <= DayOfYear(doe) < YearLength(YearOfEra(doe) + 1)
  {
    YearOfEraBracket(doe);
    BeforeStep(YearOfEra(doe));
  }

  lemma DayOfYearFits(doe: nat)
    requires doe < 146097
    ensures DayOfYear(doe) <= 365
  {
    DayOfYearInRange(doe);
  }

  // -- Years that start in March --------------------------------------------------------------------

  /** Days before the March year `y`, counted from March of year 0. */
  function MarchDays(y: nat): nat {
    365 * y + y / 4 - y / 100 + y / 400
  }

  lemma FourHundredIsMultiple(x: nat)
    ensures x % 400 == 0 ==> x % 100 == 0
  {
    if x % 400 == 0 {
      HundredTimes(4 * (x / 400));
    }
  }

  lemma HundredTimes(k: nat)
    ensures 100 * k % 100 == 0
  {
  }

  lemma MarchDaysStep(y: nat)
    ensures MarchDays(y + 1) == MarchDays(y) + YearLength(y + 1)
  {
    QuotientStep(y);
    HundredIsMultipleOfFour(y + 1);
    FourHundredIsMultiple(y + 1);
  }

  lemma {:induction false} MarchDaysMonotone(x: nat, y: nat)
    requires x < y
    ensures MarchDays(x) + YearLength(x + 1) <= MarchDays(y)
    decreases y - x
  {
    MarchDaysStep(y - 1);
    if x < y - 1 {
      MarchDaysMonotone(x, y - 1);
    }
  }

  lemma RemaindersRepeat(y: nat, era: nat)
    ensures (y + era * 400) % 4 == y % 4
    ensures (y + era * 400) % 100 == y % 100
    ensures (y + era * 400) % 400 == y % 400
  {
    assert (y + era * 400) / 4 == y / 4 + 100 * era;
    assert (y + era * 400) / 100 == y / 100 + 4 * era;
    assert (y + era * 400) / 400 == y / 400 + era;
  }

  lemma LeapRepeats(y: nat, era: nat)
    ensures IsLeap(y + era * 400) == IsLeap(y)
  {
    RemaindersRepeat(y, era);
  }

  lemma MarchDaysOfEra(y: nat, era: nat)
    requires y < 400
    ensures MarchDays(y + era * 400) == Before(y) + era * 146097
  {
    assert (y + era * 400) / 4 == y / 4 + 100 * era;
    assert (y + era * 400) / 100 == y / 100 + 4 * era;
  }

  /** A day count is the days before its March year plus its day of that year. */
  lemma Decompose(day: nat) returns (y: nat, doy: nat)
    ensures doy < YearLength(y + 1) && MarchDays(y) + doy == day + 719468
    ensures DateOfDay(day) == MarchDate(y, doy)
  {
    var z := day + 719468;
    var era, doe := z / 146097, z % 146097;
    y, doy := YearOfEra(doe) + era * 400, DayOfYear(doe);
    YearOfEraBracket(doe);
    DayOfYearInRange(doe);
    LeapRepeats(YearOfEra(doe) + 1, era);
    MarchDaysOfEra(YearOfEra(doe), era);
  }

  /** The months of a year that starts in March, as a table. */
  function MonthDayByTable(doy: nat): (nat, nat)
    requires doy <= 365
  {
    if doy < 31 then (3, doy + 1)
    else if doy < 61 then (4, doy - 30)
    else if doy < 92 then (5, doy - 60)
    else if doy < 122 then (6, doy - 91)
    else if doy < 153 then (7, doy - 121)
    else if doy < 184 then (8, doy - 152)
    else if doy < 214 then (9, doy - 183)
    else if doy < 245 then (10, doy - 213)
    else if doy < 275 then (11, doy - 244)
    else if doy < 306 then (12, doy - 274)
    else if doy < 337 then (1, doy - 305)
    else (2, doy - 336)
  }

  /** Which twelfth-and-a-bit of the year a day falls into. */
  lemma MonthIndex(doy: nat, mp: nat)
    requires doy <= 365 && mp == (5 * doy + 2) / 153
    ensures mp <= 11 && (153 * mp + 2) / 5 <= doy && (mp < 11 ==> doy < (153 * mp + 155) / 5)
  {
  }

  /** The division by 153 is the table. */
  lemma MonthDayIsTable(doy: nat)
    requires doy <= 365
    ensures MonthDay(doy) == MonthDayByTable(doy)
  {
    var mp := (5 * doy + 2) / 153;
    MonthIndex(doy, mp);
  }

  /** Within a March year, and across its end, the algorithm steps like the calendar. */
  lemma MarchDateStep(y: nat, doy: nat)
    requires doy < YearLength(y + 1)
    ensures IsDate(MarchDate(y, doy))
    ensures Successor(MarchDate(y, doy))
         == if doy + 1 < YearLength(y + 1) then MarchDate(y, doy + 1) else MarchDate(y + 1, 0)
  {
    MonthDayIsTable(doy);
    MonthDayIsTable(0);
    if doy < 365 {
      MonthDayIsTable(doy + 1);
    }
  }

  lemma DecompositionUnique(y: nat, doy: nat, y': nat, doy': nat)
    requires doy < YearLength(y + 1) && doy' < YearLength(y' + 1)
    requires MarchDays(y) + doy == MarchDays(y') + doy'
    ensures y == y' && doy == doy'
  {
    if y < y' {
      MarchDaysMonotone(y, y');
    } else if y' < y {
      MarchDaysMonotone(y', y);
    }
  }

  /** The date of the day that is `doy` days into the March year `y`. */
  lemma DateAt(day: nat, y: nat, doy: nat)
    requires doy < YearLength(y + 1) && MarchDays(y) + doy == day + 719468
    ensures DateOfDay(day) == MarchDate(y, doy)
  {
    var y', doy' := Decompose(day);
    DecompositionUnique(y, doy, y', doy');
  }

  /** Day 0 is 1970-01-01. */
  lemma DayZero()
    ensures DateOfDay(0) == Date(1970, 1, 1)
  {
    var y, doy := 1969, 306;
    assert MarchDays(y) + doy == 719468 && doy < YearLength(y + 1);
    assert MarchDate(y, doy) == Date(1970, 1, 1);
    DateAt(0, y, doy);
  }

  lemma MarchNext(y: nat, doy: nat, y': nat, doy': nat)
    requires doy < YearLength(y + 1) && doy' < YearLength(y' + 1)
    requires MarchDays(y') + doy' == MarchDays(y) + doy + 1
    ensures IsDate(MarchDate(y, doy)) && MarchDate(y', doy') == Successor(MarchDate(y, doy))
  {
    MarchDateStep(y, doy);
    if doy + 1 < YearLength(y + 1) {
      DecompositionUnique(y, doy + 1, y', doy');
    } else {
      MarchDaysStep(y);
      DecompositionUnique(y + 1, 0, y', doy');
    }
  }

  /** Day n + 1 is the calendar's next date after day n. */
  lemma NextDay(day: nat)
    ensures IsDate(DateOfDay(day)) && DateOfDay(day + 1) == Successor(DateOfDay(day))
  {
    var y, doy := Decompose(day);
    var y', doy' := Decompose(day + 1);
    MarchNext(y, doy, y', doy');
  }

  // -- Against the independent day count ------------------------------------------------------------

  lemma MonthsFillYear(y: int)
    ensures DaysBeforeMonth(y, 12) + 31 == YearLength(y)
  {
    assert DaysBeforeMonth(y, 2) == DaysBeforeMonth(y, 1) + 31;
    assert DaysBeforeMonth(y, 3) == 31 + DaysIn(y, 2);
    assert DaysBeforeMonth(y, 5) == DaysBeforeMonth(y, 3) + 31 + 30;
    assert DaysBeforeMonth(y, 7) == DaysBeforeMonth(y, 5) + 31 + 30;
    assert DaysBeforeMonth(y, 9) == DaysBeforeMonth(y, 7) + 31 + 31;
    assert DaysBeforeMonth(y, 11) == DaysBeforeMonth(y, 9) + 30 + 31;
  }

  lemma NumberOfSuccessor(d: Date)
    requires IsDate(d) && d.year >= 1970
    ensures IsDate(Successor(d)) && Successor(d).year >= 1970
    ensures DayNumber(Successor(d)) == DayNumber(d) + 1
  {
    MonthsFillYear(d.year);
  }

  /** `d` is a date whose independent day number is `day`. */
  ghost predicate NumberedAs(d: Date, day: nat) {
    IsDate(d) && d.year >= 1970 && DayNumber(d) == day
  }

  lemma NumberOfNext(d: Date, e: Date, n: nat)
    requires NumberedAs(d, n) && e == Successor(d)
    ensures NumberedAs(e, n + 1)
  {
    NumberOfSuccessor(d);
  }

  lemma NumberedZero()
    ensures NumberedAs(DateOfDay(0), 0)
  {
    DayZero();
    assert NumberedAs(Date(1970, 1, 1), 0);
  }

  lemma NumberedNext(day: nat, d: Date, e: Date)
    requires d == DateOfDay(day) && e == DateOfDay(day + 1) && NumberedAs(d, day)
    ensures NumberedAs(e, day + 1)
  {
    assert e == Successor(d) by {
      NextDay(day);
    }
    NumberOfNext(d, e, day);
  }

  lemma {:induction false} Numbered(day: nat) returns (d: Date)
    ensures d == DateOfDay(day) && NumberedAs(d, day)
    decreases day
  {
    d := DateOfDay(day);
    if day == 0 {
      NumberedZero();
    } else {
      var before := Numbered(day - 1);
      NumberedNext(day - 1, before, d);
    }
  }

  /** The independent day count recovers the day from its date. */
  lemma DayNumberOfDate(day: nat)
    ensures IsDate(DateOfDay(day)) && DateOfDay(day).year >= 1970
    ensures DayNumber(DateOfDay(day)) == day
  {
    var d := Numbered(day);
  }

  lemma {:induction false} MonthsMonotone(y: int, m: nat, n: nat)
    requires 1 <= m < n <= 12
    ensures DaysBeforeMonth(y, m) + DaysIn(y, m) <= DaysBeforeMonth(y, n)
    decreases n - m
  {
    if m < n - 1 {
      MonthsMonotone(y, m, n - 1);
    }
  }

  lemma {:induction false} YearsMonotone(x: int, y: int)
    requires 1970 <= x < y
    ensures DaysBeforeYear(x) + YearLength(x) <= DaysBeforeYear(y)
    decreases y - x
  {
    if x < y - 1 {
      YearsMonotone(x, y - 1);
    }
  }

  lemma WithinYear(d: Date)
    requires IsDate(d)
    ensures 0 <= DaysBeforeMonth(d.year, d.month) + d.day - 1 < YearLength(d.year)
  {
    MonthsFillYear(d.year);
    if d.month < 12 {
      MonthsMonotone(d.year, d.month, 12);
    }
  }

  lemma DayNumberInjective(d: Date, e: Date)
    requires IsDate(d) && IsDate(e) && d.year >= 1970 && e.year >= 1970 && DayNumber(d) == DayNumber(e)
    ensures d == e
  {
    WithinYear(d);
    WithinYear(e);
    if d.year < e.year {
      YearsMonotone(d.year, e.year);
    } else if e.year < d.year {
      YearsMonotone(e.year, d.year);
    } else if d.month < e.month {
      MonthsMonotone(d.year, d.month, e.month);
    } else if e.month < d.month {
      MonthsMonotone(d.year, e.month, d.month);
    }
  }

  /** Conversely every date from 1970 on is printed for its day number: the two are inverse to each other. */
  lemma DateOfDayNumber(d: Date)
    requires IsDate(d) && d.year >= 1970
    ensures DayNumber(d) >= 0 && DateOfDay(DayNumber(d)) == d
  {
    WithinYear(d);
    DayNumberOfDate(DayNumber(d));
    DayNumberInjective(DateOfDay(DayNumber(d)), d);
  }

  // -- The fields and the string --------------------------------------------------------------------

  function Seconds(t: DateTime): int {
    DayNumber(t.date) * 86400 + t.hours * 3600 + t.minutes * 60 + t.seconds
  }

  lemma TimeOfDay(s: nat)
    requires s < 86400
    ensures s / 3600 < 24 && s % 3600 / 60 < 60 && s % 60 < 60
    ensures s / 3600 * 3600 + s % 3600 / 60 * 60 + s % 60 == s
  {
    assert s == s / 3600 * 3600 + s % 3600;
    assert s % 3600 == s % 3600 / 60 * 60 + s % 3600 % 60;
    assert s % 3600 % 60 == s % 60;
  }

  /** The printed fields are in range and give the timestamp back. */
  lemma FieldsExact(epoch: U64)
    ensures var t := Fields(epoch);
      && IsDate(t.date) && t.date.year >= 1970
      && t.hours < 24 && t.minutes < 60 && t.seconds < 60
      && Seconds(t) == epoch
  {
    DayNumberOfDate(epoch / 86400);
    TimeOfDay(epoch % 86400);
    assert Fields(epoch).date == DateOfDay(epoch / 86400);
  }

  function Digit(n: nat): (c: char)
    requires n < 10
  {
    ['0', '1', '2', '3', '4', '5', '6', '7', '8', '9'][n]
  }

  function Digits(n: nat): string {
    if n < 10 then [Digit(n)] else Digits(n / 10) + [Digit(n % 10)]
  }

  function ZeroPad(s: string, width: nat): string
    decreases width - |s|
  {
    if |s| >= width then s else ZeroPad("0" + s, width)
  }

  /** What `{:02}` and `{:04}` print. */
  function Padded(n: nat, width: nat): string {
    ZeroPad(Digits(n), width)
  }

  function FormatEpoch(epoch: U64): string {
    var t := Fields(epoch);
    Padded(t.date.year, 4) + "-" + Padded(t.date.month, 2) + "-" + Padded(t.date.day, 2) + " "
    + Padded(t.hours, 2) + ":" + Padded(t.minutes, 2) + ":" + Padded(t.seconds, 2) + "Z"
  }

  function DigitValue(c: char): nat {
    if '0' <= c <= '9' then c as int - '0' as int else 0
  }

  function NumberOf(s: string): nat {
    if s == "" then 0 else NumberOf(s[..|s| - 1]) * 10 + DigitValue(s[|s| - 1])
  }

  lemma {:induction false} NumberOfDigits(n: nat)
    ensures NumberOf(Digits(n)) == n && Digits(n) != ""
    ensures n < 100 ==> |Digits(n)| <= 2
    decreases n
  {
    if n >= 10 {
      NumberOfDigits(n / 10);
      assert Digits(n)[..|Digits(n)| - 1] == Digits(n / 10);
    } else {
      assert [Digit(n)][..0] == "";
    }
  }

  lemma {:induction false} LeadingZero(s: string)
    ensures NumberOf("0" + s) == NumberOf(s)
    decreases |s|
  {
    if s == "" {
      assert "0" + s == "0" && "0"[..0] == "";
    } else {
      assert ("0" + s)[..|s|] == "0" + s[..|s| - 1];
      LeadingZero(s[..|s| - 1]);
    }
  }

  lemma {:induction false} PaddingKeepsNumber(s: string, width: nat)
    ensures NumberOf(ZeroPad(s, width)) == NumberOf(s)
    ensures |ZeroPad(s, width)| == if |s| < width then width else |s|
    decreases width - |s|
  {
    if |s| < width {
      LeadingZero(s);
      PaddingKeepsNumber("0" + s, width);
    }
  }

  lemma PaddedExact(n: nat, width: nat)
    ensures NumberOf(Padded(n, width)) == n
    ensures width == 2 && n < 100 ==> |Padded(n, width)| == 2
  {
    NumberOfDigits(n);
    PaddingKeepsNumber(Digits(n), width);
  }

  /** Reads a printed timestamp: everything but the year has a fixed width. */
  function ParseEpoch(s: string): int
    requires |s| >= 16
  {
    var n := |s| - 16;
    Seconds(DateTime(
      Date(NumberOf(s[..n]), NumberOf(s[n + 1..n + 3]), NumberOf(s[n + 4..n + 6])),
      NumberOf(s[n + 7..n + 9]), NumberOf(s[n + 10..n + 12]), NumberOf(s[n + 13..n + 15])))
  }

  lemma Layout(y: string, m: string, d: string, h: string, i: string, c: string)
    requires |m| == |d| == |h| == |i| == |c| == 2
    ensures var s := y + "-" + m + "-" + d + " " + h + ":" + i + ":" + c + "Z";
      var n := |y|;
      && Separated(s, n) && s[..n] == y && s[n + 1..n + 3] == m && s[n + 4..n + 6] == d
      && s[n + 7..n + 9] == h && s[n + 10..n + 12] == i && s[n + 13..n + 15] == c
  {
  }

  /** The separators of a printed timestamp, with the year's width open. */
  predicate Separated(s: string, n: nat) {
    && |s| == n + 16
    && s[n] == '-' && s[n + 3] == '-' && s[n + 6] == ' ' && s[n + 9] == ':' && s[n + 12] == ':' && s[n + 15] == 'Z'
  }

  predicate AllDigits(s: string) {
    forall i :: 0 <= i < |s| ==> '0' <= s[i] <= '9'
  }

  lemma {:induction false} DigitsExact(n: nat)
    ensures AllDigits(Digits(n)) && Digits(n) != "" && (n > 0 ==> Digits(n)[0] != '0')
    decreases n
  {
    if n >= 10 {
      DigitsExact(n / 10);
    }
  }

  lemma {:induction false} PaddedDigits(s: string, width: nat)
    requires AllDigits(s)
    ensures AllDigits(ZeroPad(s, width)) && |ZeroPad(s, width)| == if |s| < width then width else |s|
    ensures |s| >= width ==> ZeroPad(s, width) == s
    decreases width - |s|
  {
    if |s| < width {
      PaddedDigits("0" + s, width);
    }
  }

  lemma PaddedLayout(n: nat, width: nat)
    requires width > 0
    ensures AllDigits(Padded(n, width)) && |Padded(n, width)| >= width
    ensures |Padded(n, width)| > width ==> Padded(n, width)[0] != '0'
  {
    DigitsExact(n);
    PaddedDigits(Digits(n), width);
  }

  /** The field of two digits at position `k`. */
  predicate FieldAt(s: string, k: nat, value: nat)
    requires k + 2 <= |s|
  {
    AllDigits(s[k..k + 2]) && NumberOf(s[k..k + 2]) == value
  }

  /** The field of the year before position `n`: at least four digits, and more only without a leading zero. */
  predicate YearBefore(s: string, n: nat, value: nat)
    requires n <= |s|
  {
    n >= 4 && AllDigits(s[..n]) && NumberOf(s[..n]) == value && (n > 4 ==> s[0] != '0')
  }

  lemma YearPrinted(n: nat)
    ensures YearBefore(Padded(n, 4), |Padded(n, 4)|, n)
  {
    PaddedExact(n, 4);
    PaddedLayout(n, 4);
    assert Padded(n, 4)[..|Padded(n, 4)|] == Padded(n, 4);
  }

  /**
   The printed string, character by character: a year of at least four digits, and of more only without a leading
   zero, then two digits each for month, day, hours, minutes and seconds, between the separators.
   */
  lemma FormatLayout(epoch: U64)
    ensures var s, t := FormatEpoch(epoch), Fields(epoch);
      var n := |s| - 16;
      && n >= 4 && Separated(s, n) && YearBefore(s, n, t.date.year)
      && FieldAt(s, n + 1, t.date.month) && FieldAt(s, n + 4, t.date.day)
      && FieldAt(s, n + 7, t.hours) && FieldAt(s, n + 10, t.minutes) && FieldAt(s, n + 13, t.seconds)
  {
    var t := Fields(epoch);
    FieldsExact(epoch);
    YearPrinted(t.date.year);
    FieldsPrinted(Padded(t.date.year, 4), t);
  }

  lemma FieldsPrinted(y: string, t: DateTime)
    requires IsDate(t.date) && t.hours < 24 && t.minutes < 60 && t.seconds < 60
    requires YearBefore(y, |y|, t.date.year)
    ensures var s := y + "-" + Padded(t.date.month, 2) + "-" + Padded(t.date.day, 2) + " "
        + Padded(t.hours, 2) + ":" + Padded(t.minutes, 2) + ":" + Padded(t.seconds, 2) + "Z";
      var n := |y|;
      && Separated(s, n) && YearBefore(s, n, t.date.year)
      && FieldAt(s, n + 1, t.date.month) && FieldAt(s, n + 4, t.date.day)
      && FieldAt(s, n + 7, t.hours) && FieldAt(s, n + 10, t.minutes) && FieldAt(s, n + 13, t.seconds)
  {
    TwoDigits(t.date.month);
    TwoDigits(t.date.day);
    TwoDigits(t.hours);
    TwoDigits(t.minutes);
    TwoDigits(t.seconds);
    assert y[..|y|] == y;
    Layout(y, Padded(t.date.month, 2), Padded(t.date.day, 2), Padded(t.hours, 2), Padded(t.minutes, 2),
           Padded(t.seconds, 2));
  }

  lemma TwoDigits(n: nat)
    requires n < 100
    ensures |Padded(n, 2)| == 2 && AllDigits(Padded(n, 2)) && NumberOf(Padded(n, 2)) == n
  {
    PaddedExact(n, 2);
    PaddedLayout(n, 2);
  }

  /** The printed string determines the timestamp. */
  lemma FormatRoundTrip(epoch: U64)
    ensures |FormatEpoch(epoch)| >= 16 && ParseEpoch(FormatEpoch(epoch)) == epoch
  {
    var t := Fields(epoch);
    FieldsExact(epoch);
    PaddedExact(t.date.year, 4);
    PaddedExact(t.date.month, 2);
    PaddedExact(t.date.day, 2);
    PaddedExact(t.hours, 2);
    PaddedExact(t.minutes, 2);
    PaddedExact(t.seconds, 2);
    Layout(Padded(t.date.year, 4), Padded(t.date.month, 2), Padded(t.date.day, 2),
           Padded(t.hours, 2), Padded(t.minutes, 2), Padded(t.seconds, 2));
  }
}
