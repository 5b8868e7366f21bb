/**
The proleptic Gregorian calendar and the normalising date arithmetic of Go's `Time.AddDate`: a day past the end of the
target month runs on into the month after it. Day 0 is 1 January of year 1; months are counted from January of year 0.
*/
module Calendar {

  const SECONDS_PER_DAY: int := 86400

  predicate IsLeap(year: int) {
    year % 4 == 0 && (year % 100 != 0 || year % 400 == 0)
  }

  function DaysInYear(year: int): int {
    if IsLeap(year) then 366 else 365
  }

  function DaysInMonth(year: int, month: int): int
    requires 1 <= month <= 12
  {
    if month == 2 then (if IsLeap(year) then 29 else 28)
    else if month == 4 || month == 6 || month == 9 || month == 11 then 30
    else 31
  }

  function DaysBeforeYear(year: int): int {
    var p := year - 1;
    365 * p + p / 4 - p / 100 + p / 400
  }

  function DaysBeforeMonth(year: int, month: int): int
    requires 1 <= month <= 12
  {
    var common := [0, 31, 59, 90, 120, 151, 181, 212, 243, 273, 304, 334][month - 1];
    if month > 2 && IsLeap(year) then common + 1 else common
  }

  /** The day number of a date; the day of the month may lie outside its month. */
  function DayNumber(year: int, month: int, day: int): int
    requires 1 <= month <= 12
  {
    DaysBeforeYear(year) + DaysBeforeMonth(year, month) + day - 1
  }

  lemma QuotientStep(p: int, d: int)
    requires d in {4, 100, 400}
    ensures (p + 1) / d == p / d + if (p + 1) % d == 0 then 1 else 0
  {}

  lemma Multiples(k: int)
    ensures 100 * k % 100 == 0 && 4 * k % 4 == 0
  {}

  lemma Divisors(year: int)
    ensures year % 400 == 0 ==> year % 100 == 0
    ensures year % 100 == 0 ==> year % 4 == 0
  {
    Multiples(4 * (year / 400));
    Multiples(25 * (year / 100));
  }

  lemma YearStep(year: int)
    ensures DaysBeforeYear(year + 1) == DaysBeforeYear(year) + DaysInYear(year)
  {
    QuotientStep(year - 1, 4);
    QuotientStep(year - 1, 100);
    QuotientStep(year - 1, 400);
    Divisors(year);
  }

  lemma MonthsFillYear(year: int, month: int)
    requires 1 <= month <= 12
    ensures DaysBeforeMonth(year, month) + DaysInMonth(year, month)
         == if month == 12 then DaysInYear(year) else DaysBeforeMonth(year, month + 1)
  {}

  /** Months but February have 30 or 31 days in turn, starting over in August; February has 28, or 29 in leap years. */
  lemma MonthLengths(year: int, month: int)
    requires 1 <= month <= 12
    ensures DaysInMonth(year, month) == if month == 2 then (if IsLeap(year) then 29 else 28) else 30 + (month + month / 8) % 2
  {}

  /** The calendar repeats every 400 years, which have 146097 days and so 97 leap years. */
  lemma FourCenturies(year: int)
    ensures IsLeap(year + 400) == IsLeap(year)
    ensures DaysBeforeYear(year + 400) == DaysBeforeYear(year) + 146097
  {
    Periodic(year - 1, 4, 100);
    Periodic(year - 1, 100, 4);
    Periodic(year - 1, 400, 1);
    Periodic(year, 4, 100);
    Periodic(year, 100, 4);
    Periodic(year, 400, 1);
  }

  lemma Periodic(p: int, d: int, k: int)
    requires (d == 4 && k == 100) || (d == 100 && k == 4) || (d == 400 && k == 1)
    ensures (p + 400) / d == p / d + k && (p + 400) % d == p % d
  {}

  // ---------------------------------------------------------------------------------------------
  // Months on one line: month t is month t % 12 + 1 of year t / 12

  /** The day number of the first of month t; month 12 is January of year 1, which starts with day 0. */
  function FirstDay(t: int): int
    decreases if t < 12 then 12 - t else t - 12
  {
    if t == 12 then 0 else if t > 12 then FirstDay(t - 1) + Length(t - 1) else FirstDay(t + 1) - Length(t)
  }

  function Length(t: int): (days: int)
    ensures 28 <= days <= 31
  {
    DaysInMonth(t / 12, t % 12 + 1)
  }

  lemma MonthStep(t: int)
    ensures FirstDay(t + 1) == FirstDay(t) + Length(t)
  {}

  /** Counting month by month gives the day number that the closed formula for years and months gives. */
  lemma {:induction false} FirstDayIsDayNumber(t: int)
    ensures FirstDay(t) == DayNumber(t / 12, t % 12 + 1, 1)
    decreases if t < 12 then 12 - t else t - 12
  {
    hide FirstDay, Length, DayNumber;
    if t > 12 {
      FirstDayIsDayNumber(t - 1);
      MonthStep(t - 1);
      DayNumberStep(t - 1);
    } else if t < 12 {
      FirstDayIsDayNumber(t + 1);
      MonthStep(t);
      DayNumberStep(t);
    } else {
      Epoch();
    }
  }

  lemma Epoch()
    ensures FirstDay(12) == 0 && DayNumber(1, 1, 1) == 0 && 12 / 12 == 1 && 12 % 12 == 0
  {}

  lemma DayNumberStep(t: int)
    ensures DayNumber((t + 1) / 12, (t + 1) % 12 + 1, 1) == DayNumber(t / 12, t % 12 + 1, 1) + Length(t)
  {
    MonthsFillYear(t / 12, t % 12 + 1);
    if t % 12 == 11 {
      YearStep(t / 12);
      assert (t + 1) / 12 == t / 12 + 1 && (t + 1) % 12 == 0;
    } else {
      assert (t + 1) / 12 == t / 12 && (t + 1) % 12 == t % 12 + 1;
    }
  }

  datatype Date = Date(t: int, day: int)

  predicate Valid(date: Date) {
    1 <= date.day <= Length(date.t)
  }

  function Number(date: Date): int {
    FirstDay(date.t) + date.day - 1
  }

  /** The month that holds day z, searched from month t. */
  function MonthOf(z: int, t: int): (found: int)
    ensures FirstDay(found) <= z < FirstDay(found) + Length(found)
    decreases z < FirstDay(t), if z < FirstDay(t) then FirstDay(t) - z else z - FirstDay(t)
  {
    MonthStep(t);
    MonthStep(t - 1);
    if z < FirstDay(t) then MonthOf(z, t - 1)
    else if z >= FirstDay(t + 1) then MonthOf(z, t + 1)
    else t
  }

  /** The date with day number z (`Time.Date`). */
  function DateOf(z: int): (date: Date)
    ensures Valid(date) && Number(date) == z
  {
    var t := MonthOf(z, 12);
    Date(t, z - FirstDay(t) + 1)
  }

  lemma {:induction false} FirstDayGrows(a: int, b: int)
    requires a <= b
    ensures FirstDay(a) + 28 * (b - a) <= FirstDay(b)
    decreases b - a
  {
    hide FirstDay, Length;
    if a < b {
      MonthStep(b - 1);
      FirstDayGrows(a, b - 1);
    }
  }

  /** No two dates share a day number, so reading a written date gives it back. */
  lemma DateRoundTrip(date: Date)
    requires Valid(date)
    ensures DateOf(Number(date)) == date
  {
    hide FirstDay, Length, MonthOf, DateOf;
    var other := DateOf(Number(date));
    if other.t < date.t {
      MonthStep(other.t);
      FirstDayGrows(other.t + 1, date.t);
    } else if date.t < other.t {
      MonthStep(date.t);
      FirstDayGrows(date.t + 1, other.t);
    }
  }

  /** `AddDate(years, months, 0)` on day numbers. */
  function AddDate(z: int, years: int, months: int): int {
    var date := DateOf(z);
    Number(Date(date.t + 12 * years + months, date.day))
  }

  /** A month later is as many days later as the month of the starting date has, even from day 29, 30 or 31. */
  lemma MonthLater(z: int)
    ensures AddDate(z, 0, 1) - z == Length(DateOf(z).t)
  {
    hide FirstDay, Length, MonthOf, DateOf;
    MonthStep(DateOf(z).t);
  }

  /** The year of the first end of February on or after the start of month t. */
  function FebruaryYear(t: int): int {
    if t % 12 < 2 then t / 12 else t / 12 + 1
  }

  lemma {:induction false} YearOfMonths(t: int)
    ensures FirstDay(t + 12) - FirstDay(t) == DaysInYear(FebruaryYear(t))
  {
    FirstDayIsDayNumber(t);
    FirstDayIsDayNumber(t + 12);
    YearStep(t / 12);
    assert (t + 12) / 12 == t / 12 + 1 && (t + 12) % 12 == t % 12;
    DaysBeforeSameMonth(t / 12, t % 12 + 1);
  }

  lemma {:induction false} DaysBeforeSameMonth(year: int, month: int)
    requires 1 <= month <= 12
    ensures DaysBeforeMonth(year + 1, month) - DaysBeforeMonth(year, month)
         == if month <= 2 then 0 else DaysInYear(year + 1) - DaysInYear(year)
  {
    if month > 1 { DaysBeforeSameMonth(year, month - 1); }
  }

  /** A year later is 366 days later exactly when the span crosses a leap day, and 365 otherwise. */
  lemma YearLater(z: int)
    ensures var t := DateOf(z).t;
            AddDate(z, 1, 0) - z == if IsLeap(FebruaryYear(t)) then 366 else 365
  {
    hide FirstDay, Length, MonthOf, DateOf, IsLeap, FebruaryYear;
    YearOfMonths(DateOf(z).t);
  }

  // ---------------------------------------------------------------------------------------------
  // Repeated months against one jump

  function MonthsOneByOne(z: int, n: nat): int {
    if n == 0 then z else AddDate(MonthsOneByOne(z, n - 1), 0, 1)
  }

  /** The k-th month after the date's own has the date's day. */
  predicate Reaches(date: Date, k: int) {
    date.day <= Length(date.t + k)
  }

  /** As long as every month passed through is long enough, stepping keeps the day of the month. */
  lemma {:induction false} SteadyMonths(date: Date, n: nat)
    requires Valid(date) && forall k :: 0 < k < n ==> Reaches(date, k)
    ensures MonthsOneByOne(Number(date), n) == Number(Date(date.t + n, date.day))
  {
    hide FirstDay, Length, MonthOf, DateOf;
    if n > 0 {
      SteadyMonths(date, n - 1);
      var reached := Date(date.t + n - 1, date.day);
      assert Valid(reached) by { assert n > 1 ==> Reaches(date, n - 1); }
      DateRoundTrip(reached);
    }
  }

  /** After the first month that is too short the day of the month stays small, and the date is a month ahead. */
  lemma {:induction false} SlippedMonths(date: Date, k: nat, n: nat)
    requires Valid(date) && 0 < k <= n && !Reaches(date, k)
    requires forall j :: 0 < j < k ==> Reaches(date, j)
    ensures MonthsOneByOne(Number(date), n) == Number(Date(date.t + n + 1, date.day - Length(date.t + k)))
  {
    hide FirstDay, Length, MonthOf, DateOf;
    var slipped := date.day - Length(date.t + k);
    if n == k {
      SteadyMonths(date, k);
      MonthStep(date.t + k);
    } else {
      SlippedMonths(date, k, n - 1);
      var reached := Date(date.t + n, slipped);
      assert Valid(reached);
      DateRoundTrip(reached);
    }
  }

  lemma FirstShortMonth(date: Date, n: nat, k: nat) returns (first: nat)
    requires 0 < k < n && !Reaches(date, k)
    ensures 0 < first < n && !Reaches(date, first)
    ensures forall j :: 0 < j < first ==> Reaches(date, j)
  {
    first := 1;
    while Reaches(date, first)
      invariant 0 < first <= k
      decreases k - first
      invariant forall j :: 0 < j < first ==> Reaches(date, j)
    {
      first := first + 1;
    }
  }

  lemma SameLengthNextYear(t: int)
    requires t % 12 != 1
    ensures Length(t + 12) == Length(t)
  {
    assert (t + 12) % 12 == t % 12;
  }

  lemma MonthsWithinAYearDiffer(t: int, k: int)
    requires 0 < k < 12
    ensures (t + k) % 12 != t % 12
  {}

  lemma SlippedYearEndsLater(date: Date, first: nat)
    requires Valid(date) && 0 < first < 12 && !Reaches(date, first)
    ensures Number(Date(date.t + 13, date.day - Length(date.t + first))) > Number(Date(date.t + 12, date.day))
  {
    MonthStep(date.t + 12);
    // only February is shorter than 30 days, so the starting month is not February
    MonthsWithinAYearDiffer(date.t, first);
    SameLengthNextYear(date.t);
  }

  /** Twelve monthly steps end where one yearly step does exactly when each of the eleven months between has the
      starting day. */
  lemma TwelveMonthsAreAYearIff(z: int)
    ensures var date := DateOf(z);
            MonthsOneByOne(z, 12) == AddDate(z, 1, 0) <==> forall k :: 0 < k < 12 ==> Reaches(date, k)
  {
    hide FirstDay, Length, MonthOf, DateOf;
    var date := DateOf(z);
    if forall k :: 0 < k < 12 ==> Reaches(date, k) {
      SteadyMonths(date, 12);
    } else {
      var k :| 0 < k < 12 && !Reaches(date, k);
      var first := FirstShortMonth(date, 12, k);
      SlippedMonths(date, first, 12);
      SlippedYearEndsLater(date, first);
    }
  }

  // ---------------------------------------------------------------------------------------------
  // Instants

  /** An instant in whole seconds with the fixed offset it is shown at. */
  datatype Moment = Moment(utc: int, offset: int)

  function LocalDay(m: Moment): int {
    (m.utc + m.offset) / SECONDS_PER_DAY
  }

  function AddDateTo(m: Moment, years: int, months: int): Moment {
    m.(utc := m.utc + (AddDate(LocalDay(m), years, months) - LocalDay(m)) * SECONDS_PER_DAY)
  }

  lemma DaysShift(seconds: int, days: int)
    ensures (seconds + days * SECONDS_PER_DAY) / SECONDS_PER_DAY == seconds / SECONDS_PER_DAY + days
    ensures (seconds + days * SECONDS_PER_DAY) % SECONDS_PER_DAY == seconds % SECONDS_PER_DAY
  {}

  /** Moving by date keeps the offset and the time of day and moves the local date by the calendar. */
  lemma AddDateMovesLocalDate(m: Moment, years: int, months: int)
    ensures var n := AddDateTo(m, years, months);
            && n.offset == m.offset
            && (n.utc + n.offset) % 86400 == (m.utc + m.offset) % 86400
            && (n.utc + n.offset) / 86400 == AddDate((m.utc + m.offset) / 86400, years, months)
  {
    hide AddDate;
    DaysShift(m.utc + m.offset, AddDate(LocalDay(m), years, months) - LocalDay(m));
  }
}
