/** The anniversary card's date helpers: `isLeapYear`,
    `createSafeDateAtNoon`, `parseYmd` and `calcNextAnniversary`. A `Date` is
    modelled by the calendar fields its getters report, and the difference of
    two `getTime()` values taken at noon by the difference of day ordinals. */
module AnniversaryDates {
  import opened Wrappers
  import opened JsText
  import opened JsonValue

  /** `isLeapYear(year)`. JavaScript's `%` truncates towards zero, Dafny's is
      Euclidean, but the two agree on whether the remainder is zero. */
  predicate IsLeapYear(year: int) {
    (year % 4 == 0 && year % 100 != 0) || year % 400 == 0
  }

  function DaysInMonth(year: int, month: int): (n: int)
    requires 1 <= month <= 12
    ensures 28 <= n <= 31
  {
    if month == 2 then (if IsLeapYear(year) then 29 else 28)
    else if month == 4 || month == 6 || month == 9 || month == 11 then 30
    else 31
  }

  function DaysInYear(year: int): int {
    if IsLeapYear(year) then 366 else 365
  }

  /** The year the `Date` constructor uses: years 0 to 99 mean 1900 to 1999
      (section 21.4.2.1 of ECMA-262). */
  function DateYear(year: int): int {
    if 0 <= year <= 99 then 1900 + year else year
  }

  /** What `getFullYear()`, `getMonth() + 1` and `getDate()` report. */
  datatype Date = Date(year: int, month: int, day: int)

  predicate IsRealDate(d: Date) {
    1 <= d.month <= 12 && 1 <= d.day <= DaysInMonth(d.year, d.month)
  }

  /** `new Date(year, monthIndex, day)` for the month indices and days the
      page passes: a day past the end of the month rolls into the next one. */
  function MakeDate(year: int, monthIndex: int, day: int): (d: Date)
    requires 0 <= monthIndex < 12 && 1 <= day <= 31
    ensures IsRealDate(d)
    ensures day <= DaysInMonth(DateYear(year), monthIndex + 1) ==> d == Date(DateYear(year), monthIndex + 1, day)
    ensures day > DaysInMonth(DateYear(year), monthIndex + 1) ==> d.day != day
    ensures d.year == DateYear(year) || d.year == DateYear(year) + 1
  {
    var y, m := DateYear(year), monthIndex + 1;
    var dim := DaysInMonth(y, m);
    if day <= dim then Date(y, m, day)
    else if m == 12 then Date(y + 1, 1, day - dim)
    else Date(y, m + 1, day - dim)
  }

  /** `createSafeDateAtNoon(year, monthIndex, day)`: 29 February of a year that
      is not a leap year becomes the 28th. */
  function CreateSafeDateAtNoon(year: int, monthIndex: int, day: int): Date
    requires 0 <= monthIndex < 12 && 1 <= day <= 31
  {
    if monthIndex == 1 && day == 29 && !IsLeapYear(year) then MakeDate(year, monthIndex, 28)
    else MakeDate(year, monthIndex, day)
  }

  /** 29 February in a common year gives 28 February of that year. */
  lemma SafeDateClampsLeapDay(year: int)
    requires year >= 100 && !IsLeapYear(year)
    ensures CreateSafeDateAtNoon(year, 1, 29) == Date(year, 2, 28)
  {
  }

  /** A real date is left as it is. */
  lemma SafeDateOfRealDate(d: Date)
    requires IsRealDate(d) && d.year >= 100
    ensures CreateSafeDateAtNoon(d.year, d.month - 1, d.day) == d
  {
  }

  // ----- the Gregorian calendar -----

  /** Division by the calendar's constants steps up by one exactly at the
      multiples. */
  lemma DivSteps(x: int)
    ensures (x + 1) / 4 - x / 4 == if (x + 1) % 4 == 0 then 1 else 0
    ensures (x + 1) / 100 - x / 100 == if (x + 1) % 100 == 0 then 1 else 0
    ensures (x + 1) / 400 - x / 400 == if (x + 1) % 400 == 0 then 1 else 0
  {
  }

  /** The days before 1 January of `year`, counted from 1 January of year 1 of
      the proleptic Gregorian calendar. */
  function DaysBeforeYear(year: int): int {
    var p := year - 1;
    365 * p + p / 4 - p / 100 + p / 400
  }

  /** The count agrees with `isLeapYear`: each year adds 366 days exactly when
      it is a leap year. */
  lemma YearStep(year: int)
    ensures DaysBeforeYear(year + 1) == DaysBeforeYear(year) + DaysInYear(year)
  {
    var p := year - 1;
    DivSteps(p);
    var d4, d100, d400 := year / 4 - p / 4, year / 100 - p / 100, year / 400 - p / 400;
    assert DaysBeforeYear(year + 1) == 365 * p + 365 + p / 4 + d4 - (p / 100 + d100) + p / 400 + d400;
    assert DaysBeforeYear(year) == 365 * p + p / 4 - p / 100 + p / 400;
    MultiplesNest(year);
    assert DaysInYear(year) == 365 + d4 - d100 + d400;
  }

  /** A multiple of 400 is one of 100, and a multiple of 100 one of 4. */
  lemma MultiplesNest(year: int)
    ensures year % 400 == 0 ==> year % 100 == 0
    ensures year % 100 == 0 ==> year % 4 == 0
  {
    Mod400(year);
    Mod100(year);
  }

  lemma Mod400(year: int)
    ensures year % 400 == 0 ==> year % 100 == 0
  {
    if year % 400 == 0 {
      var k := year / 400;
      assert year == 100 * (4 * k) + 0;
    }
  }

  lemma Mod100(year: int)
    ensures year % 100 == 0 ==> year % 4 == 0
  {
    if year % 100 == 0 {
      var k := year / 100;
      assert year == 4 * (25 * k) + 0;
    }
  }

  lemma DivShifts(x: int)
    ensures (x + 400) / 4 == x / 4 + 100 && (x + 400) % 4 == x % 4
    ensures (x + 400) / 100 == x / 100 + 4 && (x + 400) % 100 == x % 100
    ensures (x + 400) / 400 == x / 400 + 1 && (x + 400) % 400 == x % 400
  {
  }

  /** Every 400 years hold 146097 days: 97 of them are leap years. */
  lemma GregorianCycle(year: int)
    ensures DaysBeforeYear(year + 400) == DaysBeforeYear(year) + 146097
    ensures IsLeapYear(year + 400) == IsLeapYear(year)
  {
    DivShifts(year - 1);
    DivShifts(year);
  }

  /** The days of the year before the first of `month`. */
  function DaysBeforeMonth(year: int, month: int): int
    requires 1 <= month <= 12
  {
    [0, 31, 59, 90, 120, 151, 181, 212, 243, 273, 304, 334][month - 1]
    + (if month > 2 && IsLeapYear(year) then 1 else 0)
  }

  lemma MonthStep(year: int, month: int)
    requires 1 <= month <= 12
    ensures month < 12 ==> DaysBeforeMonth(year, month + 1) == DaysBeforeMonth(year, month) + DaysInMonth(year, month)
    ensures month == 12 ==> DaysBeforeMonth(year, month) + DaysInMonth(year, month) == DaysInYear(year)
  {
  }

  lemma {:induction false} MonthsOrdered(year: int, m1: int, m2: int)
    requires 1 <= m1 < m2 <= 12
    ensures DaysBeforeMonth(year, m1) + DaysInMonth(year, m1) <= DaysBeforeMonth(year, m2)
    decreases m2 - m1
  {
    MonthStep(year, m1);
    if m1 + 1 < m2 {
      MonthsOrdered(year, m1 + 1, m2);
    }
  }

  lemma {:induction false} YearsOrdered(y1: int, y2: int)
    requires y1 < y2
    ensures DaysBeforeYear(y1) + DaysInYear(y1) <= DaysBeforeYear(y2)
    decreases y2 - y1
  {
    YearStep(y1);
    if y1 + 1 < y2 {
      YearsOrdered(y1 + 1, y2);
      YearStep(y1 + 1);
    }
  }

  /** The day number of a date; `getTime()` of two dates at noon differ by
      86400000 times the difference of their day numbers. */
  function Ordinal(d: Date): int
    requires 1 <= d.month <= 12
  {
    DaysBeforeYear(d.year) + DaysBeforeMonth(d.year, d.month) + d.day - 1
  }

  /** A real date's number lies within its year. */
  lemma OrdinalInYear(d: Date)
    requires IsRealDate(d)
    ensures DaysBeforeYear(d.year) <= Ordinal(d) < DaysBeforeYear(d.year) + DaysInYear(d.year)
  {
    MonthStep(d.year, d.month);
    if d.month < 12 {
      MonthsOrdered(d.year, d.month, 12);
      MonthStep(d.year, 12);
    }
  }

  /** Calendar order. */
  predicate Before(a: Date, b: Date) {
    a.year < b.year || (a.year == b.year && (a.month < b.month || (a.month == b.month && a.day < b.day)))
  }

  /** Day numbers follow the calendar order of real dates. */
  lemma OrdinalOrder(a: Date, b: Date)
    requires IsRealDate(a) && IsRealDate(b) && Before(a, b)
    ensures Ordinal(a) < Ordinal(b)
  {
    if a.year < b.year {
      OrdinalInYear(a);
      OrdinalInYear(b);
      YearsOrdered(a.year, b.year);
    } else if a.month < b.month {
      MonthsOrdered(a.year, a.month, b.month);
    }
  }

  /** So two real dates have the same number exactly when they are the same
      date, and one is earlier by number exactly when it is earlier on the
      calendar. */
  lemma OrdinalCompare(a: Date, b: Date)
    requires IsRealDate(a) && IsRealDate(b)
    ensures Ordinal(a) == Ordinal(b) <==> a == b
    ensures Ordinal(a) < Ordinal(b) <==> Before(a, b)
  {
    if Before(a, b) {
      OrdinalOrder(a, b);
    } else if Before(b, a) {
      OrdinalOrder(b, a);
    }
  }

  // ----- parseYmd -----

  datatype Ymd = Ymd(year: int, month: int, day: int)

  /** The pattern `/^(\d{4})-(\d{2})-(\d{2})$/`. */
  predicate IsYmdShape(raw: string) {
    && |raw| == 10 && raw[4] == '-' && raw[7] == '-'
    && IsDigit(raw[0]) && IsDigit(raw[1]) && IsDigit(raw[2]) && IsDigit(raw[3])
    && IsDigit(raw[5]) && IsDigit(raw[6]) && IsDigit(raw[8]) && IsDigit(raw[9])
  }

  /** The three numbers of a string of that shape. */
  function YmdFields(raw: string): Ymd
    requires IsYmdShape(raw)
  {
    Ymd(DigitsValue(raw[..4]), DigitsValue(raw[5..7]), DigitsValue(raw[8..10]))
  }

  /** `parseYmd(ymd)`: the text of `ymd`, trimmed, then parsed. */
  function ParseYmd(ymd: Json): (r: Option<Ymd>)
    ensures r.Some? ==> r.value.year >= 100 && IsRealDate(Date(r.value.year, r.value.month, r.value.day))
  {
    ParseYmdText(Trim(TextOr(ymd)))
  }

  /** The range checks, then the round trip through
      `new Date(year, month - 1, day)`: what comes through is a real date
      after the year 99. */
  function ParseYmdText(raw: string): (r: Option<Ymd>)
    ensures r.Some? ==> r.value.year >= 100 && IsRealDate(Date(r.value.year, r.value.month, r.value.day))
  {
    if !IsYmdShape(raw) then None
    else
      var f := YmdFields(raw);
      if f.month < 1 || f.month > 12 then None
      else if f.day < 1 || f.day > 31 then None
      else
        var probe := MakeDate(f.year, f.month - 1, f.day);
        if probe.year != f.year || probe.month != f.month || probe.day != f.day then None
        else Some(f)
  }

  /** A trimmed string is accepted exactly when it has the shape
      `DDDD-DD-DD` and names a real date; the years 0000 to 0099 are refused,
      because the `Date` constructor reads them as 1900 to 1999. */
  lemma ParseYmdTextIff(raw: string)
    ensures ParseYmdText(raw).Some? <==>
      IsYmdShape(raw) && YmdFields(raw).year >= 100
      && IsRealDate(Date(YmdFields(raw).year, YmdFields(raw).month, YmdFields(raw).day))
    ensures ParseYmdText(raw).Some? ==> ParseYmdText(raw).value == YmdFields(raw)
  {
    if IsYmdShape(raw) {
      var f := YmdFields(raw);
      if 1 <= f.month <= 12 && 1 <= f.day <= 31 && f.year < 100 {
        var probe := MakeDate(f.year, f.month - 1, f.day);
        assert probe.year >= 1900;
      }
    }
  }

  // ----- calcNextAnniversary -----

  datatype Anniversary = Anniversary(days: int, years: int, month: int, day: int)

  function Max0(x: int): int {
    if x < 0 then 0 else x
  }

  /** `calcNextAnniversary(ymd, now)` where `today` gives `now`'s year, month
      and day. */
  function CalcNextAnniversary(ymd: Json, today: Date): (r: Option<Anniversary>)
    requires IsRealDate(today)
    ensures r.None? <==> ParseYmd(ymd).None?
    ensures r.Some? ==> r.value.month == ParseYmd(ymd).value.month && r.value.day == ParseYmd(ymd).value.day
  {
    match ParseYmd(ymd)
    case None => None
    case Some(parsed) => Some(NextAnniversary(parsed, today))
  }

  /** The part of `calcNextAnniversary` after a successful parse. */
  function NextAnniversary(parsed: Ymd, today: Date): Anniversary
    requires IsRealDate(today) && parsed.year >= 100 && IsRealDate(Date(parsed.year, parsed.month, parsed.day))
  {
    var nowNoon := CreateSafeDateAtNoon(today.year, today.month - 1, today.day);
    var thisYear := nowNoon.year;
    var first := CreateSafeDateAtNoon(thisYear, parsed.month - 1, parsed.day);
    var passed := Ordinal(first) < Ordinal(nowNoon);
    var nextYear := if passed then thisYear + 1 else thisYear;
    var occurrence := if passed then CreateSafeDateAtNoon(nextYear, parsed.month - 1, parsed.day) else first;
    Anniversary(
      Max0(Ordinal(occurrence) - Ordinal(nowNoon)),
      Max0(nextYear - parsed.year),
      parsed.month, parsed.day)
  }

  /** The anniversary of (`month`, `day`) in `year`: 29 February falls on the
      28th in a common year. */
  function AnniversaryIn(year: int, month: int, day: int): Date {
    Date(year, month, if month == 2 && day == 29 && !IsLeapYear(year) then 28 else day)
  }

  lemma AnniversaryInReal(year: int, p: Ymd)
    requires year >= 100 && p.year >= 100 && IsRealDate(Date(p.year, p.month, p.day))
    ensures IsRealDate(AnniversaryIn(year, p.month, p.day))
    ensures CreateSafeDateAtNoon(year, p.month - 1, p.day) == AnniversaryIn(year, p.month, p.day)
  {
  }

  /** The result in terms of the anniversaries of this year and the next. */
  lemma NextAnniversaryValue(p: Ymd, today: Date)
    requires IsRealDate(today) && today.year >= 100
    requires p.year >= 100 && IsRealDate(Date(p.year, p.month, p.day))
    ensures var thisOne := AnniversaryIn(today.year, p.month, p.day);
      var nextOne := AnniversaryIn(today.year + 1, p.month, p.day);
      IsRealDate(thisOne) && IsRealDate(nextOne) &&
      NextAnniversary(p, today) ==
        (if Ordinal(thisOne) < Ordinal(today)
         then Anniversary(Max0(Ordinal(nextOne) - Ordinal(today)), Max0(today.year + 1 - p.year), p.month, p.day)
         else Anniversary(Max0(Ordinal(thisOne) - Ordinal(today)), Max0(today.year - p.year), p.month, p.day))
  {
    SafeDateOfRealDate(today);
    AnniversaryInReal(today.year, p);
    AnniversaryInReal(today.year + 1, p);
  }

  /** Consecutive anniversaries are a year apart: 365 or 366 days. */
  lemma AnniversaryGap(year: int, month: int, day: int)
    requires 1 <= month <= 12
    ensures 365 <= Ordinal(AnniversaryIn(year + 1, month, day)) - Ordinal(AnniversaryIn(year, month, day)) <= 366
  {
    YearStep(year);
  }

  /** Before this year's anniversary, or on it, it is the next one. */
  lemma ThisYearsAnniversary(p: Ymd, today: Date)
    requires IsRealDate(today) && today.year >= 100
    requires p.year >= 100 && IsRealDate(Date(p.year, p.month, p.day))
    requires !Before(AnniversaryIn(today.year, p.month, p.day), today)
    ensures var a, thisOne := NextAnniversary(p, today), AnniversaryIn(today.year, p.month, p.day);
      && a.days == Ordinal(thisOne) - Ordinal(today) && 0 <= a.days <= 365
      && a.years == Max0(today.year - p.year)
      && (a.days == 0 <==> thisOne == today)
  {
    var thisOne := AnniversaryIn(today.year, p.month, p.day);
    NextAnniversaryValue(p, today);
    OrdinalCompare(thisOne, today);
    OrdinalInYear(today);
    OrdinalInYear(thisOne);
  }

  /** Once this year's anniversary has passed, next year's is the next one,
      less than a year away. */
  lemma NextYearsAnniversary(p: Ymd, today: Date)
    requires IsRealDate(today) && today.year >= 100
    requires p.year >= 100 && IsRealDate(Date(p.year, p.month, p.day))
    requires Before(AnniversaryIn(today.year, p.month, p.day), today)
    ensures var a, nextOne := NextAnniversary(p, today), AnniversaryIn(today.year + 1, p.month, p.day);
      && a.days == Ordinal(nextOne) - Ordinal(today) && 0 < a.days <= 365
      && a.years == Max0(today.year + 1 - p.year)
  {
    var thisOne := AnniversaryIn(today.year, p.month, p.day);
    var nextOne := AnniversaryIn(today.year + 1, p.month, p.day);
    AnniversaryInReal(today.year, p);
    AnniversaryInReal(today.year + 1, p);
    OrdinalOrder(thisOne, today);
    OrdinalOrder(today, nextOne);
    AnniversaryGap(today.year, p.month, p.day);
    var o1, ot, o2 := Ordinal(thisOne), Ordinal(today), Ordinal(nextOne);
    assert o1 < ot < o2 <= o1 + 366;
    NextAnniversaryValue(p, today);
  }

  /** The next anniversary is this year's unless that has passed, then next
      year's; its distance in days is never negative, is zero exactly on
      the day itself and at most 365; the years counted are those since the
      parsed year. */
  lemma CalcNextAnniversarySpec(ymd: Json, today: Date)
    requires IsRealDate(today) && today.year >= 100
    ensures var parsed, r := ParseYmd(ymd), CalcNextAnniversary(ymd, today);
      && (r.None? <==> parsed.None?)
      && (parsed.Some? ==> r.Some? && NextAnniversaryMeets(parsed.value, today, r.value))
  {
    CalcNextOfParsed(ymd, today);
    OptionSpec(ParseYmd(ymd), CalcNextAnniversary(ymd, today), today);
  }

  lemma CalcNextOfParsed(ymd: Json, today: Date)
    requires IsRealDate(today)
    ensures ParseYmd(ymd).None? ==> CalcNextAnniversary(ymd, today) == None
    ensures ParseYmd(ymd).Some? ==> CalcNextAnniversary(ymd, today) == Some(NextAnniversary(ParseYmd(ymd).value, today))
  {
  }

  /** The statement above for any parse result, without the parse. */
  lemma OptionSpec(parsed: Option<Ymd>, r: Option<Anniversary>, today: Date)
    requires IsRealDate(today) && today.year >= 100
    requires parsed.Some? ==> parsed.value.year >= 100 && IsRealDate(Date(parsed.value.year, parsed.value.month, parsed.value.day))
    requires parsed.None? ==> r == None
    requires parsed.Some? ==> r == Some(NextAnniversary(parsed.value, today))
    ensures (r.None? <==> parsed.None?)
    ensures parsed.Some? ==> r.Some? && NextAnniversaryMeets(parsed.value, today, r.value)
  {
    if parsed.Some? {
      NextAnniversarySpec(parsed.value, today);
    }
  }

  /** What the next anniversary of `p` seen from `today` must be. */
  predicate NextAnniversaryMeets(p: Ymd, today: Date, a: Anniversary)
    requires 1 <= today.month <= 12 && 1 <= p.month <= 12
  {
    var thisOne := AnniversaryIn(today.year, p.month, p.day);
    var nextOne := AnniversaryIn(today.year + 1, p.month, p.day);
    && a.month == p.month && a.day == p.day && 0 <= a.days <= 365
    && (!Before(thisOne, today) ==>
          a.days == Ordinal(thisOne) - Ordinal(today) && a.years == Max0(today.year - p.year))
    && (Before(thisOne, today) ==>
          a.days == Ordinal(nextOne) - Ordinal(today) && a.days > 0 && a.years == Max0(today.year + 1 - p.year))
    && (a.days == 0 <==> thisOne == today)
  }

  lemma NextAnniversarySpec(p: Ymd, today: Date)
    requires IsRealDate(today) && today.year >= 100
    requires p.year >= 100 && IsRealDate(Date(p.year, p.month, p.day))
    ensures NextAnniversaryMeets(p, today, NextAnniversary(p, today))
  {
    var thisOne := AnniversaryIn(today.year, p.month, p.day);
    if Before(thisOne, today) {
      NextYearsAnniversary(p, today);
      assert thisOne != today;
    } else {
      ThisYearsAnniversary(p, today);
    }
    assert NextAnniversary(p, today).month == p.month && NextAnniversary(p, today).day == p.day;
  }
}
