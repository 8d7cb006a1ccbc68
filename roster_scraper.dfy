/** The dues rule of the roster: a `MM/DD/YYYY` expiration date is good for a
    season when, read by the JavaScript `Date` constructor, it falls on or
    after 31 December of that season. Day numbers follow the ECMAScript
    calendar arithmetic (section 21.4.1 of ECMA-262: DayFromYear, MakeDay,
    TimeClip), counted from 1 January 1970. */
module RosterScraper {
  import opened Js

  // ------------------------------------------------------------ calendar

  predicate IsLeapYear(y: int) {
    (y % 4 == 0 && y % 100 != 0) || y % 400 == 0
  }

  function DaysInYear(y: int): int {
    if IsLeapYear(y) then 366 else 365
  }

  /** ECMAScript DayFromYear: the day number of 1 January of `y`. (Dafny's
      division by a positive constant is the floor division the standard uses.) */
  function DayFromYear(y: int): int {
    365 * (y - 1970) + (y - 1969) / 4 - (y - 1901) / 100 + (y - 1601) / 400
  }

  /** Days of the year before the first of month `mn` (0 = January). */
  function MonthStart(mn: int, leap: bool): int
    requires 0 <= mn < 12
  {
    var base := [0, 31, 59, 90, 120, 151, 181, 212, 243, 273, 304, 334][mn];
    if leap && mn >= 2 then base + 1 else base
  }

  /** ECMAScript MakeDay: months outside 0..11 carry into the year, and
      days outside the month run on into the next or previous ones. */
  function MakeDay(year: int, month: int, date: int): int {
    var ym := year + month / 12;
    var mn := month % 12;
    DayFromYear(ym) + MonthStart(mn, IsLeapYear(ym)) + date - 1
  }

  /** `new Date(y, m, d)` as a day number: years 0 to 99 mean 1900 to 1999,
      and a time value beyond 8.64e15 ms (10^8 days) either side of the
      epoch is an invalid date (TimeClip gives NaN). */
  function DateDay(y: int, m: int, d: int): (r: Option<int>)
    ensures r.Some? ==> -100000000 <= r.value <= 100000000
  {
    var yr := if 0 <= y <= 99 then 1900 + y else y;
    var day := MakeDay(yr, m, d);
    if -100000000 <= day <= 100000000 then Some(day) else None
  }

  // ------------------------------------------------------------- the rule

  /** The expiration date of a `MM/DD/YYYY` string as a day number; None when
      the string is empty, does not have exactly three `/` parts, a part has
      no leading integer, or the date is out of range. */
  function ExpirationDay(duesExpiration: string): (r: Option<int>)
    ensures r.Some? ==> duesExpiration != "" && |Split(duesExpiration, '/')| == 3
  {
    if duesExpiration == "" then None
    else
      var parts := Split(duesExpiration, '/');
      if |parts| != 3 then None
      else
        var month := ParseInt(parts[0]);
        var day := ParseInt(parts[1]);
        var expirationYear := ParseInt(parts[2]);
        if expirationYear.None? || month.None? || day.None? then None
        else DateDay(expirationYear.value, month.value - 1, day.value)
  }

  /** 31 December of the season, as `new Date(year, 11, 31)` reads it. */
  function RequiredDay(year: int): Option<int> {
    DateDay(year, 11, 31)
  }

  /** `isDuesValidForYear(duesExpiration, year)`. Comparing two Date objects
      compares their time values, and a comparison with NaN is false. */
  function IsDuesValidForYear(duesExpiration: string, year: int): (r: bool)
    ensures r ==> duesExpiration != "" && |Split(duesExpiration, '/')| == 3
  {
    var expiration := ExpirationDay(duesExpiration);
    var required := RequiredDay(year);
    expiration.Some? && required.Some? && expiration.value >= required.value
  }

  /** The year a `Date` constructor actually uses. */
  function ConstructorYear(y: int): int {
    if 0 <= y <= 99 then 1900 + y else y
  }

  // ----------------------------------------------------- calendar lemmas

  lemma Step4(y: int)
    ensures (y - 1968) / 4 == (y - 1969) / 4 + (if y % 4 == 0 then 1 else 0)
  {}

  lemma Step100(y: int)
    ensures (y - 1900) / 100 == (y - 1901) / 100 + (if y % 100 == 0 then 1 else 0)
  {}

  lemma Step400(y: int)
    ensures (y - 1600) / 400 == (y - 1601) / 400 + (if y % 400 == 0 then 1 else 0)
  {}

  /** Consecutive years start `DaysInYear` apart: the DayFromYear formula
      counts leap days by the Gregorian rule. */
  lemma DayFromYearStep(y: int)
    ensures DayFromYear(y + 1) == DayFromYear(y) + DaysInYear(y)
  {
    Step4(y);
    Step100(y);
    Step400(y);
  }

  /** 31 December is the day before 1 January of the next year. */
  lemma LastDayOfYear(y: int)
    ensures MakeDay(y, 11, 31) + 1 == MakeDay(y + 1, 0, 1)
  {
    DayFromYearStep(y);
  }

  /** A month number past December carries into the next year (so month 13
      of 2024 is January 2025). */
  lemma MonthCarry(y: int, m: int, d: int)
    ensures MakeDay(y, m + 12, d) == MakeDay(y + 1, m, d)
  {
    assert (m + 12) / 12 == m / 12 + 1;
    assert (m + 12) % 12 == m % 12;
  }

  /** Later years start later. */
  lemma {:induction false} DayFromYearMonotone(a: int, b: int)
    requires a <= b
    ensures DayFromYear(a) <= DayFromYear(b)
    decreases b - a
  {
    if a < b {
      DayFromYearStep(a);
      DayFromYearMonotone(a + 1, b);
    }
  }

  /** 31 December of a later year is a later day. */
  lemma YearEndMonotone(a: int, b: int)
    requires a <= b
    ensures MakeDay(a, 11, 31) <= MakeDay(b, 11, 31)
  {
    LastDayOfYear(a);
    LastDayOfYear(b);
    DayFromYearMonotone(a + 1, b + 1);
  }

  lemma YearEndStrictlyMonotone(a: int, b: int)
    requires a < b
    ensures MakeDay(a, 11, 31) < MakeDay(b, 11, 31)
  {
    LastDayOfYear(a);
    LastDayOfYear(b - 1);
    YearEndMonotone(a, b - 1);
    DayFromYearStep(b);
    LastDayOfYear(b);
  }

  /** The required day is the last day of the constructor's year. */
  lemma RequiredDayValue(year: int)
    ensures var d := DayFromYear(ConstructorYear(year) + 1) - 1;
      RequiredDay(year) == if -100000000 <= d <= 100000000 then Some(d) else None
  {
    var y := ConstructorYear(year);
    LastDayOfYear(y);
    assert (y + 1) + 0 / 12 == y + 1 && 0 % 12 == 0;
    assert MakeDay(y + 1, 0, 1) == DayFromYear(y + 1);
    assert MakeDay(y, 11, 31) == DayFromYear(y + 1) - 1;
  }

  /** Validity is downward closed in the season, as far as the constructor's
      year mapping is: a date good for `year` is good for any season whose
      31 December is a valid date no later than that of `year`. */
  lemma DuesMonotone(duesExpiration: string, year: int, earlier: int)
    requires IsDuesValidForYear(duesExpiration, year)
    requires ConstructorYear(earlier) <= ConstructorYear(year)
    requires RequiredDay(earlier).Some?
    ensures IsDuesValidForYear(duesExpiration, earlier)
  {
    RequiredDayValue(year);
    RequiredDayValue(earlier);
    DayFromYearMonotone(ConstructorYear(earlier) + 1, ConstructorYear(year) + 1);
  }

  /** A season from the year 100 on, no later than one whose 31 December is
      a valid date, has a valid 31 December too. */
  lemma RequiredDayBetween(earlier: int, year: int)
    requires 100 <= earlier <= year
    requires RequiredDay(year).Some?
    ensures RequiredDay(earlier).Some?
  {
    RequiredDayValue(year);
    RequiredDayValue(earlier);
    DayFromYearMonotone(earlier + 1, year + 1);
    DayFromYearMonotone(101, earlier + 1);
  }

  /** In particular among seasons from the year 100 on, where the year
      mapping is the identity. */
  lemma DuesMonotoneSeasons(duesExpiration: string, year: int, earlier: int)
    requires IsDuesValidForYear(duesExpiration, year)
    requires 100 <= earlier <= year
    ensures IsDuesValidForYear(duesExpiration, earlier)
  {
    RequiredDayBetween(earlier, year);
    DuesMonotone(duesExpiration, year, earlier);
  }

  /** Valid means: the expiration date parses, and falls on or after the
      last day of the season's year (the day before its next 1 January),
      that day itself being a representable date. */
  lemma DuesValidMeaning(duesExpiration: string, year: int)
    ensures IsDuesValidForYear(duesExpiration, year)
        <==> var last := DayFromYear(ConstructorYear(year) + 1) - 1;
             ExpirationDay(duesExpiration).Some? && -100000000 <= last <= 100000000
             && ExpirationDay(duesExpiration).value >= last
  {
    RequiredDayValue(year);
  }

  /** The string `M/D/Y` for three numbers, as the roster writes them. */
  function DuesString(m: nat, d: nat, y: nat): string {
    NatToString(m) + "/" + NatToString(d) + "/" + NatToString(y)
  }

  /** `M/D/Y` splits on `/` into the three numbers' digits. */
  lemma SplitDuesString(m: nat, d: nat, y: nat)
    ensures Split(DuesString(m, d, y), '/') == [NatToString(m), NatToString(d), NatToString(y)]
  {
    var a, b, c := NatToString(m), NatToString(d), NatToString(y);
    var parts := [a, b, c];
    assert parts[1..] == [b, c];
    assert parts[1..][1..] == [c];
    assert Join(parts[1..], "/") == b + "/" + c;
    assert Join(parts, "/") == a + "/" + (b + "/" + c);
    assert a + "/" + (b + "/" + c) == DuesString(m, d, y);
    SplitJoin(parts, '/');
  }

  lemma ExpirationDayOfParts(s: string, a: string, b: string, c: string, m: int, d: int, y: int)
    requires s != "" && Split(s, '/') == [a, b, c]
    requires ParseInt(a) == Some(m) && ParseInt(b) == Some(d) && ParseInt(c) == Some(y)
    ensures ExpirationDay(s) == DateDay(y, m - 1, d)
  {
  }

  /** Reading `M/D/Y` gives the date of month `M` (1-based), day `D`, year `Y`. */
  lemma ExpirationDayOf(m: nat, d: nat, y: nat)
    ensures ExpirationDay(DuesString(m, d, y)) == DateDay(y, m - 1, d)
  {
    SplitDuesString(m, d, y);
    var a, b, c := NatToString(m), NatToString(d), NatToString(y);
    ParseIntOfNat(m, "");
    ParseIntOfNat(d, "");
    ParseIntOfNat(y, "");
    assert a + "" == a && b + "" == b && c + "" == c;
    ExpirationDayOfParts(DuesString(m, d, y), a, b, c, m, d, y);
  }

  /** The days around the turn of a season from the year 100 to 9999 are
      representable dates. */
  lemma SeasonInRange(y: int)
    requires 100 <= y <= 9999
    ensures -100000000 <= MakeDay(y, 11, 30) && MakeDay(y + 1, 0, 1) <= 100000000
  {
    LastDayOfYear(y);
    DayFromYearMonotone(100, y);
    DayFromYearMonotone(y + 1, 10000);
  }

  /** Dues paid through 31 December of a season cover that season but not
      the next, dues ending on 30 December do not cover it, and month 13
      rolls over into 1 January of the next year, which covers it. */
  lemma DuesThroughSeason(y: nat)
    requires 100 <= y <= 9999
    ensures IsDuesValidForYear(DuesString(12, 31, y), y)
    ensures !IsDuesValidForYear(DuesString(12, 31, y), y + 1)
    ensures !IsDuesValidForYear(DuesString(12, 30, y), y)
    ensures IsDuesValidForYear(DuesString(13, 1, y), y)
  {
    SeasonInRange(y);
    LastDayOfYear(y);
    LastDayOfYear(y + 1);
    DayFromYearStep(y + 1);
    MonthCarry(y, 0, 1);
    ExpirationDayOf(12, 31, y);
    ExpirationDayOf(12, 30, y);
    ExpirationDayOf(13, 1, y);
  }

  /** A day of a month of `y`, given by an in-range month and day, is no
      later than 31 December of `y`. */
  lemma NoLaterThanYearEnd(y: int, mn: int, d: int)
    requires 0 <= mn < 12 && d <= 31
    ensures MakeDay(y, mn, d) <= MakeDay(y, 11, 31)
  {
    assert mn / 12 == 0 && mn % 12 == mn;
  }

  /** A two-digit expiration year means 19xx, so it covers no season from 2000 on. */
  lemma TwoDigitExpiration(yy: nat, m: nat, d: nat, y: int)
    requires yy <= 99 && 1 <= m <= 12 && 1 <= d <= 31
    requires 2000 <= y
    ensures !IsDuesValidForYear(DuesString(m, d, yy), y)
  {
    ExpirationDayOf(m, d, yy);
    DuesValidMeaning(DuesString(m, d, yy), y);
    NoLaterThanYearEnd(1900 + yy, m - 1, d);
    LastDayOfYear(1900 + yy);
    DayFromYearMonotone(1900 + yy + 1, y);
  }

  /** Across the two-digit boundary the rule is not monotone: dues ending in
      a year `y` from 100 to 1998 cover the season 100 but not the season
      99, which the constructor reads as 1999. */
  lemma TwoDigitSeasonBreaksMonotone(y: nat)
    requires 100 <= y <= 1998
    ensures IsDuesValidForYear(DuesString(12, 31, y), 100)
    ensures !IsDuesValidForYear(DuesString(12, 31, y), 99)
  {
    ExpirationDayOf(12, 31, y);
    SeasonInRange(y);
    SeasonInRange(100);
    YearEndMonotone(100, y);
    YearEndStrictlyMonotone(y, 1999);
  }

  /** Two-digit years are read as 19xx. */
  lemma TwoDigitYear(y: int, m: int, d: int)
    requires 0 <= y <= 99
    ensures DateDay(y, m, d) == DateDay(1900 + y, m, d)
  {
  }
}
