/** The last-business-day rule, over a plain Gregorian calendar in UTC. */
module Schedule {

  // ---------- the calendar ----------

  /** `month` counts months from January 1970 on, without wrapping at the year's end. */
  datatype Civil = Civil(month: int, day: nat)

  predicate IsLeap(year: int) {
    year % 4 == 0 && (year % 100 != 0 || year % 400 == 0)
  }

  function MonthLength(month: int): (n: nat)
    ensures 28 <= n <= 31
  {
    var m := month % 12;
    if m == 1 then if IsLeap(1970 + month / 12) then 29 else 28
    else if m == 3 || m == 5 || m == 8 || m == 10 then 30
    else 31
  }

  function NextDay(c: Civil): Civil {
    if c.day < MonthLength(c.month) then Civil(c.month, c.day + 1) else Civil(c.month + 1, 1)
  }

  function PreviousDay(c: Civil): Civil {
    if c.day > 1 then Civil(c.month, c.day - 1) else Civil(c.month - 1, MonthLength(c.month - 1))
  }

  /** The date of a day number: day 0 is 1 January 1970. */
  function CivilOf(n: int): (c: Civil)
    ensures 1 <= c.day <= MonthLength(c.month)
    decreases if n < 0 then -n else n
  {
    if n == 0 then Civil(0, 1)
    else if n > 0 then NextDay(CivilOf(n - 1))
    else PreviousDay(CivilOf(n + 1))
  }

  /** Days since Monday; day 0 was a Thursday. */
  function Weekday(n: int): int {
    (n + 3) % 7
  }

  predicate IsWeekend(n: int) {
    Weekday(n) >= 5
  }

  const SECONDS_IN_DAY := 86400

  /** The UTC day a timestamp falls on. */
  function DayOf(timestamp: int): int {
    timestamp / SECONDS_IN_DAY
  }

  /** Every day is followed by the next one, before 1970 as well. */
  lemma Tomorrow(n: int)
    ensures CivilOf(n + 1) == NextDay(CivilOf(n))
  {
  }

  lemma {:induction false} LaterThisMonth(n: int, k: nat)
    requires CivilOf(n).day + k <= MonthLength(CivilOf(n).month)
    ensures CivilOf(n + k) == Civil(CivilOf(n).month, CivilOf(n).day + k)
  {
    if k > 0 {
      LaterThisMonth(n, k - 1);
      Tomorrow(n + k - 1);
    }
  }

  lemma {:induction false} MonthsRise(n: int, k: nat)
    ensures CivilOf(n).month <= CivilOf(n + k).month
  {
    if k > 0 {
      MonthsRise(n, k - 1);
      Tomorrow(n + k - 1);
    }
  }

  /** A month ends after its length in days. */
  lemma MonthsFollow(n: int)
    requires CivilOf(n).day == 1
    ensures CivilOf(n + MonthLength(CivilOf(n).month)) == Civil(CivilOf(n).month + 1, 1)
  {
    var length := MonthLength(CivilOf(n).month);
    LaterThisMonth(n, length - 1);
    Tomorrow(n + length - 1);
  }

  /** The days of a year that lie before its month `m`. */
  function DaysBefore(m: nat, leap: bool): nat
    requires m <= 12
  {
    var days := [0, 31, 59, 90, 120, 151, 181, 212, 243, 273, 304, 334, 365];
    days[m] + if leap && m > 1 then 1 else 0
  }

  lemma MonthOfYear(year: int, m: nat)
    requires m < 12
    ensures DaysBefore(m, IsLeap(year)) + MonthLength(12 * (year - 1970) + m) == DaysBefore(m + 1, IsLeap(year))
  {
    var month := 12 * (year - 1970) + m;
    assert month % 12 == m && month / 12 == year - 1970;
  }

  lemma {:induction false} MonthsOfYear(n: int, year: int, m: nat, before: nat)
    requires m <= 12 && CivilOf(n) == Civil(12 * (year - 1970), 1) && before == DaysBefore(m, IsLeap(year))
    ensures CivilOf(n + before) == Civil(12 * (year - 1970) + m, 1)
  {
    if m > 0 {
      var before' := DaysBefore(m - 1, IsLeap(year));
      MonthsOfYear(n, year, m - 1, before');
      MonthOfYear(year, m - 1);
      MonthEnds(n + before', 12 * (year - 1970) + m - 1, n + before);
    }
  }

  lemma MonthEnds(n: int, month: int, next: int)
    requires CivilOf(n) == Civil(month, 1) && next == n + MonthLength(month)
    ensures CivilOf(next) == Civil(month + 1, 1)
  {
    MonthsFollow(n);
  }

  /** A year has 365 days, and 366 when it is a leap year. */
  lemma YearLength(n: int, year: int)
    requires CivilOf(n) == Civil(12 * (year - 1970), 1)
    ensures CivilOf(n + if IsLeap(year) then 366 else 365) == Civil(12 * (year + 1 - 1970), 1)
  {
    MonthsOfYear(n, year, 12, if IsLeap(year) then 366 else 365);
  }

  /** Days from 1 January 1970 to 1 January of a later year: 365 a year, and one more for each leap
      year in between, which is every fourth but not every hundredth except every four hundredth. */
  function DaysToYear(year: int): int {
    365 * (year - 1970) + ((year - 1) / 4 - 492) - ((year - 1) / 100 - 19) + ((year - 1) / 400 - 4)
  }

  lemma NextYear(year: int)
    ensures DaysToYear(year + 1) == DaysToYear(year) + if IsLeap(year) then 366 else 365
  {
    NextMultiple(year, 4);
    NextMultiple(year, 100);
    NextMultiple(year, 400);
    Multiples(year);
    DaysAre(year, (year - 1) / 4, (year - 1) / 100, (year - 1) / 400);
    DaysAre(year + 1, year / 4, year / 100, year / 400);
  }

  lemma DaysAre(year: int, fourths: int, hundredths: int, fourHundredths: int)
    requires fourths == (year - 1) / 4 && hundredths == (year - 1) / 100 && fourHundredths == (year - 1) / 400
    ensures DaysToYear(year) == 365 * (year - 1970) + (fourths - 492) - (hundredths - 19) + (fourHundredths - 4)
  {
  }

  lemma Multiples(year: int)
    ensures year % 400 == 0 ==> year % 100 == 0
    ensures year % 100 == 0 ==> year % 4 == 0
  {
    if year % 400 == 0 { HundredTimes(year, 4 * (year / 400)); }
    if year % 100 == 0 { FourTimes(year, 25 * (year / 100)); }
  }

  lemma HundredTimes(a: int, q: int)
    requires a == 100 * q
    ensures a % 100 == 0
  {
  }

  lemma FourTimes(a: int, q: int)
    requires a == 4 * q
    ensures a % 4 == 0
  {
  }

  lemma NextMultiple(year: int, k: int)
    requires k == 4 || k == 100 || k == 400
    ensures year / k == (year - 1) / k + if year % k == 0 then 1 else 0
  {
  }

  /** The calendar is the Gregorian one. */
  lemma {:induction false} YearsStart(year: int)
    requires year >= 1970
    ensures CivilOf(DaysToYear(year)) == Civil(12 * (year - 1970), 1)
    decreases year
  {
    if year > 1970 {
      YearsStart(year - 1);
      YearLength(DaysToYear(year - 1), year - 1);
      NextYear(year - 1);
    }
  }

  /** And so is its week: the first day was a Thursday, the days follow one another, and the two
      after Friday make the weekend. */
  lemma WeekdaysFollow(n: int)
    ensures Weekday(0) == 3 && 0 <= Weekday(n) < 7
    ensures Weekday(n + 1) == if Weekday(n) == 6 then 0 else Weekday(n) + 1
    ensures IsWeekend(n) <==> Weekday(n) == 5 || Weekday(n) == 6
  {
  }

  /** A month that begins on a Saturday follows one whose last business day was its last day. */
  lemma MonthEndsOnFriday(n: int)
    requires CivilOf(n).day == 1 && Weekday(n) == 5
    ensures IsLastBusinessDay(n - 1)
  {
    Tomorrow(n - 1);
    LaterThisMonth(n, 2);
    PassingIsLast(n - 1);
  }

  lemma MillenniumDay(n: int, year: int)
    requires year == 2000 && n == DayOf(946684800)
    ensures n == DaysToYear(year) && Weekday(n) == 5 && DayOf(946684799) == n - 1
  {
    DaysAre(year, 499, 19, 4);
  }

  lemma YearAfterFriday(n: int, year: int)
    requires year >= 1970 && n == DaysToYear(year) && Weekday(n) == 5
    ensures CivilOf(n) == Civil(12 * (year - 1970), 1) && IsLastBusinessDay(n - 1)
  {
    YearsStart(year);
    MonthEndsOnFriday(n);
  }

  /** The second 946684800 began Saturday, 1 January 2000; the day before, a Friday, was the last
      business day of 1999. */
  lemma MillenniumExample(n: int, year: int)
    requires year == 2000 && n == DayOf(946684800)
    ensures CivilOf(n) == Civil(12 * (year - 1970), 1) && Weekday(n) == 5
    ensures DayOf(946684799) == n - 1 && IsLastBusinessDay(n - 1)
  {
    MillenniumDay(n, year);
    YearAfterFriday(n, year);
  }

  // ---------- the schedule ----------

  method ShouldTrade(date: int) returns (trade: bool)
    ensures trade <==> IsLastBusinessDay(DayOf(date))
  {
    var today := CivilOf(DayOf(date));
    if today.day < 28 - 7 {
      EarlyIsNotLast(DayOf(date));
      return false;
    }
    if IsWeekend(DayOf(date)) {
      return false;
    }
    for i := 1 to 4
      invariant forall k :: 1 <= k < i ==> Passes(DayOf(date), k)
    {
      var offsetTime := date + i * SECONDS_IN_DAY;
      DaysLater(date, i);
      SameMonth(DayOf(date), i);
      if !IsWeekend(DayOf(offsetTime)) && CivilOf(DayOf(offsetTime)).month % 12 == today.month % 12 {
        return false;
      }
    }
    PassingIsLast(DayOf(date));
    trade := true;
  }

  /** A weekday after which every day of the same month is a weekend day. */
  ghost predicate IsLastBusinessDay(n: int) {
    && !IsWeekend(n)
    && forall later :: later > n && CivilOf(later).month == CivilOf(n).month ==> IsWeekend(later)
  }

  /** What the loop asks of the day `k` days ahead. */
  predicate Passes(n: int, k: nat) {
    IsWeekend(n + k) || CivilOf(n + k).month != CivilOf(n).month
  }

  lemma DaysLater(date: int, i: int)
    ensures DayOf(date + i * SECONDS_IN_DAY) == DayOf(date) + i
  {
  }

  /** A few days ahead the month of the year tells whether it is still the same month. */
  lemma SameMonth(n: int, k: nat)
    requires k <= 3
    ensures CivilOf(n + k).month % 12 == CivilOf(n).month % 12 <==> CivilOf(n + k).month == CivilOf(n).month
  {
    NextMonthAtMost(n, k);
    NextMonthDiffers(CivilOf(n).month);
  }

  lemma NextMonthDiffers(month: int)
    ensures (month + 1) % 12 != month % 12
  {
  }

  lemma {:induction false} NextMonthAtMost(n: int, k: nat)
    requires k <= 28
    ensures CivilOf(n + k).month == CivilOf(n).month
            || (CivilOf(n + k).month == CivilOf(n).month + 1 && CivilOf(n + k).day <= k)
  {
    if k > 0 {
      NextMonthAtMost(n, k - 1);
      Tomorrow(n + k - 1);
    }
  }

  /** Before the 21st the same weekday comes round again within the month. */
  lemma EarlyIsNotLast(n: int)
    requires CivilOf(n).day < 21
    ensures !IsLastBusinessDay(n)
  {
    LaterThisMonth(n, 7);
    if !IsWeekend(n) {
      assert CivilOf(n + 7).month == CivilOf(n).month && !IsWeekend(n + 7);
    }
  }

  /** Three days of looking ahead are enough: a weekday later in the month would make all three
      belong to it, and three days running are never all weekend.  Of the calendar this needs only
      that months never go back. */
  lemma LookingAhead(month: int -> int, n: int, later: int)
    requires forall i, j :: i <= j ==> month(i) <= month(j)
    requires IsWeekend(n + 1) || month(n + 1) != month(n)
    requires IsWeekend(n + 2) || month(n + 2) != month(n)
    requires IsWeekend(n + 3) || month(n + 3) != month(n)
    requires later > n && month(later) == month(n)
    ensures IsWeekend(later)
  {
    if later > n + 3 {
      assert month(n + 1) == month(n) && month(n + 2) == month(n) && month(n + 3) == month(n);
      NoLongWeekend(n);
    }
  }

  lemma NoLongWeekend(n: int)
    ensures !IsWeekend(n + 1) || !IsWeekend(n + 2) || !IsWeekend(n + 3)
  {
  }

  lemma Months() returns (month: int -> int)
    ensures forall d :: month(d) == CivilOf(d).month
    ensures forall i, j :: i <= j ==> month(i) <= month(j)
  {
    month := (d: int) => CivilOf(d).month;
    forall i, j | i <= j ensures month(i) <= month(j) {
      MonthsRise(i, j - i);
      assert i + (j - i) == j;
    }
  }

  lemma PassingIsLast(n: int)
    requires !IsWeekend(n) && Passes(n, 1) && Passes(n, 2) && Passes(n, 3)
    ensures IsLastBusinessDay(n)
  {
    var month := Months();
    forall later | later > n && CivilOf(later).month == CivilOf(n).month ensures IsWeekend(later) {
      LookingAhead(month, n, later);
    }
  }
}
