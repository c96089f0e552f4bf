/** The dates a form offers: getDaysMonthsAndYears of tickets/src/utils/dates.js. */
module Dates {

  // ---------------------------------------------------------------- the Gregorian calendar

  datatype Date = Date(year: int, month: int, day: int)

  /** Appendix C of RFC 3339, for every year of the proleptic calendar. */
  predicate LeapYear(year: int) {
    year % 4 == 0 && (year % 100 != 0 || year % 400 == 0)
  }

  /** Section 5.7 of RFC 3339. */
  function MonthLength(year: int, month: int): int
    requires 1 <= month <= 12
  {
    match month
    case 1 => 31
    case 2 => if LeapYear(year) then 29 else 28
    case 3 => 31
    case 4 => 30
    case 5 => 31
    case 6 => 30
    case 7 => 31
    case 8 => 31
    case 9 => 30
    case 10 => 31
    case 11 => 30
    case _ => 31
  }

  predicate ValidDate(d: Date) {
    1 <= d.month <= 12 && 1 <= d.day <= MonthLength(d.year, d.month)
  }

  predicate Before(a: Date, b: Date) {
    || a.year < b.year
    || (a.year == b.year && a.month < b.month)
    || (a.year == b.year && a.month == b.month && a.day < b.day)
  }

  // ---------------------------------------------------------------- the form

  /** JavaScript's remainder, which takes the sign of the dividend. */
  function Rem(a: int, b: int): int
    requires b > 0
  {
    if a >= 0 then a % b else -((-a) % b)
  }

  /** The numbers from first to last. */
  function From(first: int, last: int): (r: seq<int>)
    ensures |r| == (if last < first then 0 else last - first + 1)
    ensures forall i :: 0 <= i < |r| ==> r[i] == first + i
  {
    if last < first then [] else seq(last - first + 1, i => first + i)
  }

  /** A missing year or month is zero; zero counts as missing. */
  function YearOr(now: Date, year: int): int {
    if year == 0 then now.year else year
  }

  function MonthOr(now: Date, month: int): int {
    if month == 0 then now.month else month
  }

  /** The length of a month as the code decides it. */
  function LengthInForm(year: int, month: int): int {
    if month in [4, 6, 9, 11] then 30
    else if month == 2 then
      if Rem(year, 4) != 0 || (Rem(year, 100) == 0 && Rem(year, 400) > 0) then 28 else 29
    else 31
  }

  function FirstDay(now: Date, year: int, month: int): int {
    if year == now.year && month == now.month then now.day else 1
  }

  function DaysOffered(now: Date, year: int, month: int): seq<int> {
    var y, m := YearOr(now, year), MonthOr(now, month);
    From(FirstDay(now, y, m), LengthInForm(y, m))
  }

  function MonthsOffered(now: Date, year: int): seq<int> {
    From(if YearOr(now, year) == now.year then now.month else 1, 12)
  }

  function YearsOffered(now: Date): seq<int> {
    From(now.year, now.year + 2)
  }

  lemma FromPrefix(n: nat)
    requires n <= 31
    ensures From(1, 31)[..n] == From(1, n)
  {
  }

  lemma FromSuffix(first: int, last: nat)
    requires 1 <= first
    ensures (if first - 1 <= last then From(1, last)[first - 1..] else []) == From(first, last)
  {
  }

  /** The days of a month, before those behind us are removed. */
  method AllDays(year: int, month: int) returns (days: seq<int>)
    ensures days == From(1, LengthInForm(year, month))
  {
    days := seq(31, i => i + 1);
    assert days == From(1, 31);
    if month in [4, 6, 9, 11] {
      FromPrefix(|days| - 1);
      days := days[..|days| - 1];
    }
    if month == 2 {
      FromPrefix(28);
      FromPrefix(29);
      if Rem(year, 4) == 0 {
        if Rem(year, 100) == 0 && Rem(year, 400) > 0 {
          days := days[..28];
        } else {
          days := days[..29];
        }
      } else {
        days := days[..28];
      }
    }
  }

  method GetDaysMonthsAndYears(now: Date, year: int, month: int)
    returns (days: seq<int>, months: seq<int>, years: seq<int>)
    requires ValidDate(now)
    ensures days == DaysOffered(now, year, month)
    ensures months == MonthsOffered(now, year)
    ensures years == YearsOffered(now)
  {
    hide LengthInForm, MonthLength;
    var y, m := year, month;
    if y == 0 {
      y := now.year;
    }
    if m == 0 {
      m := now.month;
    }
    years := [now.year, now.year + 1, now.year + 2];
    months := seq(12, i => i + 1);
    assert months == From(1, 12);
    if y == now.year {
      FromSuffix(now.month, 12);
      months := months[now.month - 1..];
    }
    days := AllDays(y, m);
    if y == now.year && m == now.month {
      // slicing past the end gives the empty list
      FromSuffix(now.day, |days|);
      days := if now.day - 1 <= |days| then days[now.day - 1..] else [];
    }
  }

  // ---------------------------------------------------------------- the dates it offers

  /** Choosing an offered year, then an offered month, then an offered day. */
  predicate Offered(now: Date, d: Date) {
    d.year in YearsOffered(now) && d.month in MonthsOffered(now, d.year) && d.day in DaysOffered(now, d.year, d.month)
  }

  /** The dates from today to the end of the year after next. */
  predicate Upcoming(now: Date, d: Date) {
    ValidDate(d) && !Before(d, now) && d.year <= now.year + 2
  }

  lemma InFrom(first: int, last: int, x: int)
    ensures x in From(first, last) <==> first <= x <= last
  {
    if first <= x <= last {
      assert From(first, last)[x - first] == x;
    }
  }

  /** A century before the year zero that is no leap year: the code's remainder is not positive. */
  predicate MistakenCentury(year: int) {
    year < 0 && year % 100 == 0 && year % 400 != 0
  }

  lemma LengthIsRight(year: int, month: int)
    requires 1 <= month <= 12
    ensures LengthInForm(year, month) == MonthLength(year, month) <==> !(month == 2 && MistakenCentury(year))
    ensures month == 2 && MistakenCentury(year) ==> LengthInForm(year, month) == 29 && MonthLength(year, month) == 28
  {
  }

  /** The code takes the month for a longer one, or the year zero for a missing year. */
  predicate WrongDays(now: Date, year: int, month: int) {
    || (month == 2 && MistakenCentury(year))
    || (year == 0 && now.year < 0 && (month == 2 || (month == now.month && now.day > 1)))
  }

  ghost predicate DaysAreRight(now: Date, year: int, month: int) {
    forall day :: day in DaysOffered(now, year, month) <==>
      ValidDate(Date(year, month, day)) && !Before(Date(year, month, day), now)
  }

  /**
   * For an offered month of an offered year, exactly the valid days not before today are
   * offered, except in some months before or in the year zero.
   */
  lemma OfferedDaysAreValid(now: Date, year: int, month: int)
    requires ValidDate(now) && year in YearsOffered(now) && month in MonthsOffered(now, year)
    ensures DaysAreRight(now, year, month) <==> !WrongDays(now, year, month)
    ensures 0 <= now.year ==> !WrongDays(now, year, month)
  {
    InFrom(now.year, now.year + 2, year);
    InFrom(if YearOr(now, year) == now.year then now.month else 1, 12, month);
    LengthIsRight(year, month);
    var y := YearOr(now, year);
    var first, last := FirstDay(now, y, month), LengthInForm(y, month);
    assert DaysOffered(now, year, month) == From(first, last);
    if WrongDays(now, year, month) {
      var day := if month == 2 then 29 else 1;
      InFrom(first, last, day);
      assert day in DaysOffered(now, year, month) <==> !ValidDate(Date(year, month, day));
    } else {
      forall day
        ensures day in DaysOffered(now, year, month) <==>
          ValidDate(Date(year, month, day)) && !Before(Date(year, month, day), now)
      {
        InFrom(first, last, day);
      }
    }
  }

  /** What the form offers, in terms of the calendar and the code's own month lengths. */
  lemma OfferedExactly(now: Date, d: Date)
    requires ValidDate(now) && (d.year != 0 || now.year == 0)
    ensures Offered(now, d) <==>
      now.year <= d.year <= now.year + 2 && 1 <= d.month <= 12 && 1 <= d.day <= LengthInForm(d.year, d.month)
      && !Before(d, now)
    ensures 1 <= d.month <= 12 ==>
      (d.day in DaysOffered(now, d.year, d.month) <==>
        FirstDay(now, d.year, d.month) <= d.day <= LengthInForm(d.year, d.month))
  {
    InFrom(now.year, now.year + 2, d.year);
    InFrom(if d.year == now.year then now.month else 1, 12, d.month);
    if 1 <= d.month <= 12 {
      InFrom(FirstDay(now, d.year, d.month), LengthInForm(d.year, d.month), d.day);
    }
  }

  /** The form offers the February of this year, and the code gets it wrong. */
  predicate WrongFebruary(now: Date, year: int) {
    now.year <= year <= now.year + 2 && MistakenCentury(year) && (year > now.year || now.month <= 2)
  }

  /** Somewhere in the three offered years the code departs from the calendar. */
  ghost predicate Misleads(now: Date) {
    (exists year :: WrongFebruary(now, year)) || now.year == -1 || now.year == -2
  }

  /** February has a day too many in a mistaken century. */
  lemma MistakenDay(now: Date, year: int)
    requires ValidDate(now) && WrongFebruary(now, year)
    ensures Offered(now, Date(year, 2, 29)) && !Upcoming(now, Date(year, 2, 29))
  {
    OfferedExactly(now, Date(year, 2, 29));
    LengthIsRight(year, 2);
  }

  /** The year zero counts as missing, so its February lacks the leap day. */
  lemma MissingLeapDay(now: Date)
    requires ValidDate(now) && (now.year == -1 || now.year == -2)
    ensures !Offered(now, Date(0, 2, 29)) && Upcoming(now, Date(0, 2, 29))
  {
    assert DaysOffered(now, 0, 2) == DaysOffered(now, now.year, 2);
    InFrom(FirstDay(now, now.year, 2), LengthInForm(now.year, 2), 29);
  }

  lemma OfferedIsUpcoming(now: Date, d: Date)
    requires ValidDate(now) && now.year != -1 && now.year != -2 && !WrongFebruary(now, d.year)
    ensures Offered(now, d) <==> Upcoming(now, d)
  {
    if d.year == 0 && now.year != 0 {
      InFrom(now.year, now.year + 2, 0);
    } else {
      OfferedExactly(now, d);
      if 1 <= d.month <= 12 {
        LengthIsRight(d.year, d.month);
      }
    }
  }

  /**
   * The offered year, month and day triples are exactly the dates from today to the end of
   * the third year, except around some years before the year zero; from the year zero on
   * they always are.
   */
  lemma FormOffersExactlyTheUpcomingDates(now: Date)
    requires ValidDate(now)
    ensures (forall d :: Offered(now, d) <==> Upcoming(now, d)) <==> !Misleads(now)
    ensures 0 <= now.year ==> !Misleads(now)
  {
    if now.year == -1 || now.year == -2 {
      MissingLeapDay(now);
    } else if year :| WrongFebruary(now, year) {
      MistakenDay(now, year);
    } else {
      forall d {
        OfferedIsUpcoming(now, d);
      }
    }
  }

  /** The first call, without a year and a month: what is left of this month and of this year. */
  lemma FirstCallOffersTheRestOfTheMonth(now: Date, day: int, month: int)
    requires ValidDate(now) && !(now.month == 2 && MistakenCentury(now.year))
    ensures day in DaysOffered(now, 0, 0) <==> now.day <= day && ValidDate(Date(now.year, now.month, day))
    ensures month in MonthsOffered(now, 0) <==> now.month <= month <= 12
  {
    LengthIsRight(now.year, now.month);
    InFrom(now.day, LengthInForm(now.year, now.month), day);
    InFrom(now.month, 12, month);
  }
}
