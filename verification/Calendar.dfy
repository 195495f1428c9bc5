/** Months and days of the proleptic Gregorian calendar. Month 0 is January of year 1 and day 0 its
    first day. */
module Calendar {

  predicate IsLeap(year: nat) {
    year % 4 == 0 && (year % 100 != 0 || year % 400 == 0)
  }

  function YearOf(month: nat): nat {
    month / 12 + 1
  }

  function MonthDays(month: nat): (r: nat)
    ensures 28 <= r <= 31
  {
    var index := month % 12;
    if index == 1 then if IsLeap(YearOf(month)) then 29 else 28
    else if index in {3, 5, 8, 10} then 30
    else 31
  }

  /** The first day of a month. */
  function Start(month: nat): nat {
    if month == 0 then 0 else Start(month - 1) + MonthDays(month - 1)
  }

  /** Counting month by month agrees with the closed form for the days before a year. */
  lemma {:induction false} YearStart(years: nat)
    ensures Start(12 * years) == 365 * years + years / 4 - years / 100 + years / 400
  {
    if years > 0 {
      hide Start, IsLeap;
      YearStart(years - 1);
      OneYear(years - 1);
      LeapDays(years);
    } else {
      assert 12 * years == 0;
    }
  }

  lemma OneYear(years: nat)
    ensures Start(12 * (years + 1)) == Start(12 * years) + 365 + if IsLeap(years + 1) then 1 else 0
  {
    hide Start, IsLeap;
    var m := 12 * years;
    MonthInYear(years, 0); MonthInYear(years, 1); MonthInYear(years, 2); MonthInYear(years, 3);
    MonthInYear(years, 4); MonthInYear(years, 5); MonthInYear(years, 6); MonthInYear(years, 7);
    MonthInYear(years, 8); MonthInYear(years, 9); MonthInYear(years, 10); MonthInYear(years, 11);
  }

  lemma MonthInYear(years: nat, k: nat)
    requires k < 12
    ensures Start(12 * years + k + 1) == Start(12 * years + k) +
      if k == 1 then if IsLeap(years + 1) then 29 else 28 else if k in {3, 5, 8, 10} then 30 else 31
  {
    hide IsLeap;
    assert (12 * years + k) % 12 == k && YearOf(12 * years + k) == years + 1;
  }

  lemma LeapDays(years: nat)
    requires years > 0
    ensures years / 4 - years / 100 + years / 400 ==
            (years - 1) / 4 - (years - 1) / 100 + (years - 1) / 400 + if IsLeap(years) then 1 else 0
  {
    DivisionStep4(years);
    DivisionStep100(years);
    DivisionStep400(years);
    CenturyYears(years);
  }

  lemma CenturyYears(n: nat)
    ensures n % 400 == 0 ==> n % 100 == 0
    ensures n % 100 == 0 ==> n % 4 == 0
  {
    var q, r := n / 400, n / 100;
    assert n % 400 == 0 ==> n == 100 * (4 * q);
    assert n % 100 == 0 ==> n == 4 * (25 * r);
  }

  lemma DivisionStep4(n: nat)
    requires n > 0
    ensures n / 4 == (n - 1) / 4 + if n % 4 == 0 then 1 else 0
  {
  }

  lemma DivisionStep100(n: nat)
    requires n > 0
    ensures n / 100 == (n - 1) / 100 + if n % 100 == 0 then 1 else 0
  {
  }

  lemma DivisionStep400(n: nat)
    requires n > 0
    ensures n / 400 == (n - 1) / 400 + if n % 400 == 0 then 1 else 0
  {
  }

  lemma {:induction false} StartsGrow(m: nat, n: nat)
    requires m < n
    ensures Start(m) + 28 * (n - m) <= Start(n)
    decreases n
  {
    if m + 1 < n { StartsGrow(m, n - 1); }
  }

  /** The month a day falls in. */
  function MonthOf(day: nat): (m: nat)
    ensures Start(m) <= day < Start(m + 1)
  {
    MonthFrom(day, 0)
  }

  function MonthFrom(day: nat, month: nat): (m: nat)
    requires Start(month) <= day
    ensures Start(m) <= day < Start(m + 1)
    decreases day - Start(month)
  {
    if day < Start(month + 1) then month else MonthFrom(day, month + 1)
  }

  /** No other month contains the day. */
  lemma MonthOfIs(day: nat, m: nat)
    ensures Start(m) <= day < Start(m + 1) <==> m == MonthOf(day)
  {
    var n := MonthOf(day);
    if m < n {
      if m + 1 < n { StartsGrow(m + 1, n); }
    } else if n < m {
      if n + 1 < m { StartsGrow(n + 1, m); }
    }
  }

  /** Months compare as their first days do. */
  lemma StartsCompare(m: nat, n: nat)
    ensures Start(m) <= Start(n) <==> m <= n
  {
    if m < n { StartsGrow(m, n); }
    if n < m { StartsGrow(n, m); }
  }

  /** Four days after the 28th it is always the next month. */
  lemma FourDaysAfterThe28th(m: nat)
    ensures MonthOf(Start(m) + 27 + 4) == m + 1
  {
    hide MonthDays;
    assert Start(m + 2) == Start(m + 1) + MonthDays(m + 1);
    MonthOfIs(Start(m) + 31, m + 1);
  }
}
