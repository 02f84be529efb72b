/** UTC months of the Gregorian calendar, counted from January of year 0, and the names of the
    monthly audit_logs partitions. Times are microseconds since the start of year 0. */
module Calendar {
  import opened Base

  /** Month m % 12 (from 0) of year m / 12. */
  type Month = nat

  /** Years are written with four digits. */
  const END_OF_NAMES := 120_000

  predicate Leap(year: nat) {
    year % 4 == 0 && (year % 100 != 0 || year % 400 == 0)
  }

  function DaysIn(m: Month): (n: nat)
    ensures 28 <= n <= 31
  {
    var k := m % 12;
    if k == 1 then (if Leap(m / 12) then 29 else 28)
    else if k == 3 || k == 5 || k == 8 || k == 10 then 30
    else 31
  }

  function StartDay(m: Month): nat {
    if m == 0 then 0 else StartDay(m - 1) + DaysIn(m - 1)
  }

  /** The first instant of a month. */
  function Start(m: Month): nat {
    StartDay(m) * DAY
  }

  /** Month `m` contains the time. */
  predicate In(m: Month, t: int) {
    Start(m) <= t < Start(m + 1)
  }

  lemma {:induction false} StartDayGrows(a: Month, b: Month)
    requires a < b
    ensures StartDay(a) < StartDay(b)
    decreases b
  {
    hide DaysIn;
    if a < b - 1 { StartDayGrows(a, b - 1); }
    assert StartDay(b) == StartDay(b - 1) + DaysIn(b - 1);
  }

  lemma StartGrows(a: Month, b: Month)
    requires a < b
    ensures Start(a) < Start(b)
  {
    StartDayGrows(a, b);
    hide StartDay;
  }

  /** Months are disjoint: a time is in at most one of them. */
  lemma OneMonth(a: Month, b: Month, t: int)
    requires In(a, t) && In(b, t)
    ensures a == b
  {
    hide Start;
    if a < b {
      if a + 1 < b { StartGrows(a + 1, b); }
    } else if b < a {
      if b + 1 < a { StartGrows(b + 1, a); }
    }
  }

  /** The month of a time, searched from a month that does not start after it. */
  function MonthFrom(m: Month, t: int): (r: Month)
    requires Start(m) <= t
    ensures In(r, t)
    decreases t - Start(m)
  {
    StartGrows(m, m + 1);
    if t < Start(m + 1) then m else MonthFrom(m + 1, t)
  }

  function MonthOf(t: nat): (m: Month)
    ensures In(m, t)
  {
    MonthFrom(0, t)
  }

  /** The leap years before a year, by the closed formula of the Gregorian calendar. */
  function LeapDays(y: nat): int {
    (y + 3) / 4 - (y + 99) / 100 + (y + 399) / 400
  }

  /** A year starts as that formula says. */
  lemma {:induction false} YearStart(y: nat)
    ensures StartDay(12 * y) == 365 * y + LeapDays(y)
  {
    if y > 0 {
      hide StartDay, Leap, LeapDays;
      YearStart(y - 1);
      YearLength(y - 1);
      LeapCount(y - 1);
    }
  }

  lemma NextStart(y: nat, k: nat)
    requires k < 12
    ensures StartDay(12 * y + k + 1) == StartDay(12 * y + k) + DaysIn(12 * y + k)
    ensures DaysIn(12 * y + k) == if k == 1 then (if Leap(y) then 29 else 28) else if k == 3 || k == 5 || k == 8 || k == 10 then 30 else 31
  {
    hide Leap;
    var m := 12 * y + k;
    assert m % 12 == k && m / 12 == y;
  }

  lemma YearLength(y: nat)
    ensures StartDay(12 * y + 12) == StartDay(12 * y) + 365 + if Leap(y) then 1 else 0
  {
    hide StartDay, DaysIn, Leap;
    NextStart(y, 0);
    NextStart(y, 1);
    NextStart(y, 2);
    NextStart(y, 3);
    NextStart(y, 4);
    NextStart(y, 5);
    NextStart(y, 6);
    NextStart(y, 7);
    NextStart(y, 8);
    NextStart(y, 9);
    NextStart(y, 10);
    NextStart(y, 11);
  }

  lemma Fourths(y: nat)
    ensures (y + 4) / 4 == (y + 3) / 4 + if y % 4 == 0 then 1 else 0
  {}

  lemma Hundredths(y: nat)
    ensures (y + 100) / 100 == (y + 99) / 100 + if y % 100 == 0 then 1 else 0
  {}

  lemma FourHundredths(y: nat)
    ensures (y + 400) / 400 == (y + 399) / 400 + if y % 400 == 0 then 1 else 0
  {}

  /** Leap years among the multiples of 4, 100 and 400. */
  lemma Nested(y: nat)
    ensures y % 400 == 0 ==> y % 100 == 0
    ensures y % 100 == 0 ==> y % 4 == 0
  {
    if y % 400 == 0 { assert y == 100 * (4 * (y / 400)); }
    if y % 100 == 0 { assert y == 4 * (25 * (y / 100)); }
  }

  function Bit(b: bool): nat {
    if b then 1 else 0
  }

  lemma LeapCount(y: nat)
    ensures LeapDays(y + 1) == LeapDays(y) + Bit(Leap(y))
  {
    assert Bit(Leap(y)) == Bit(y % 4 == 0) - Bit(y % 100 == 0) + Bit(y % 400 == 0) by { Nested(y); }
    assert (y + 4) / 4 == (y + 3) / 4 + Bit(y % 4 == 0) by { Fourths(y); }
    assert (y + 100) / 100 == (y + 99) / 100 + Bit(y % 100 == 0) by { Hundredths(y); }
    assert (y + 400) / 400 == (y + 399) / 400 + Bit(y % 400 == 0) by { FourHundredths(y); }
  }

  /** Days of a common year before month `k`, from 0. */
  function DaysBefore(k: nat): nat
    requires k < 12
  {
    [0, 31, 59, 90, 120, 151, 181, 212, 243, 273, 304, 334][k]
  }

  lemma DaysNext(k: nat)
    requires k < 11
    ensures DaysBefore(k + 1) == DaysBefore(k) + if k == 1 then 28 else if k == 3 || k == 5 || k == 8 || k == 10 then 30 else 31
  {}

  /** Within a year the months start where the calendar says. */
  lemma {:induction false} MonthStart(y: nat, k: nat)
    requires k < 12
    ensures StartDay(12 * y + k) ==
      StartDay(12 * y) + DaysBefore(k) + if k >= 2 && Leap(y) then 1 else 0
  {
    hide Leap, StartDay, DaysIn;
    if k > 0 {
      MonthStart(y, k - 1);
      NextStart(y, k - 1);
      DaysNext(k - 1);
      hide DaysBefore;
      assert 12 * y + (k - 1) + 1 == 12 * y + k;
    }
  }

  // ---------------------------------------------------------------- partition names

  const PREFIX := "audit_logs_"

  function Digit(n: nat): char
    requires n < 10
  {
    '0' + n as char
  }

  predicate IsDigit(c: char) {
    '0' <= c <= '9'
  }

  function DigitValue(c: char): nat
    requires IsDigit(c)
  {
    (c - '0') as nat
  }

  /** auditPartitionName: the year and month after the prefix, as "2006_01". */
  function Name(m: Month): string
    requires m < END_OF_NAMES
  {
    var y, k := m / 12, m % 12 + 1;
    PREFIX + [Digit(y / 1000), Digit(y / 100 % 10), Digit(y / 10 % 10), Digit(y % 10), '_', Digit(k / 10), Digit(k % 10)]
  }

  /** parseAuditPartitionName; the month must exist, and the name must be the month's own. */
  function ParseName(name: string): (o: Option<Month>)
    ensures o.Some? ==> o.value < END_OF_NAMES
  {
    var n := |PREFIX|;
    if |name| != n + 7 || name[..n] != PREFIX then None
    else if !(IsDigit(name[n]) && IsDigit(name[n + 1]) && IsDigit(name[n + 2]) && IsDigit(name[n + 3])
              && name[n + 4] == '_' && IsDigit(name[n + 5]) && IsDigit(name[n + 6])) then None
    else
      var y := DigitValue(name[n]) * 1000 + DigitValue(name[n + 1]) * 100 + DigitValue(name[n + 2]) * 10 + DigitValue(name[n + 3]);
      var k := DigitValue(name[n + 5]) * 10 + DigitValue(name[n + 6]);
      if k < 1 || k > 12 then None
      else
        var m := 12 * y + (k - 1);
        if Name(m) != name then None else Some(m)
  }

  /** The digits of a number are digits, and give it back. */
  lemma Decimal(n: nat)
    requires n < 10_000
    ensures n / 1000 * 1000 + n / 100 % 10 * 100 + n / 10 % 10 * 10 + n % 10 == n && n / 1000 < 10
  {
    assert n / 10 == n / 100 * 10 + n / 10 % 10;
    assert n / 100 == n / 1000 * 10 + n / 100 % 10;
  }

  lemma DigitBack(n: nat)
    requires n < 10
    ensures IsDigit(Digit(n)) && DigitValue(Digit(n)) == n
  {}

  /** A name as PostgreSQL shows it: that of February 2024. */
  lemma NameOfFebruary2024()
    ensures Name(12 * 2024 + 1) == "audit_logs_2024_02"
  {}

  /** Names and months correspond one to one. */
  lemma NameRoundTrip(m: Month)
    requires m < END_OF_NAMES
    ensures ParseName(Name(m)) == Some(m)
  {
    var y, k := m / 12, m % 12 + 1;
    Decimal(y);
    DigitBack(y / 1000);
    DigitBack(y / 100 % 10);
    DigitBack(y / 10 % 10);
    DigitBack(y % 10);
    DigitBack(k / 10);
    DigitBack(k % 10);
    hide Digit, DigitValue, IsDigit;
    var name, n := Name(m), |PREFIX|;
    assert name[..n] == PREFIX;
    assert name[n..] == [Digit(y / 1000), Digit(y / 100 % 10), Digit(y / 10 % 10), Digit(y % 10), '_', Digit(k / 10), Digit(k % 10)];
    assert 12 * y + (k - 1) == m;
  }

  /** A name parses to a month exactly when it is that month's name; so two months never share one. */
  lemma ParseExactly(name: string, m: Month)
    ensures ParseName(name) == Some(m) <==> m < END_OF_NAMES && name == Name(m)
  {
    if m < END_OF_NAMES && name == Name(m) { NameRoundTrip(m); }
  }
}
