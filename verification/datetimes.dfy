/** Python `datetime` values as the renderers and the request logic use them: calendar fields,
    an abstract time-zone tag, and adding a number of seconds on the proleptic Gregorian
    calendar (wall-clock arithmetic: the zone is carried along unchanged). */
module DateTimes {
  import opened Base

  /** `tzinfo is None`, one of the UTC objects, or any other named zone. */
  datatype Zone = Naive | Utc | Named(name: string)

  /** Sub-second precision is not modelled; no output shows it. */
  datatype DateTime = DateTime(year: nat, month: nat, day: nat,
                               hour: nat, minute: nat, second: nat, zone: Zone)

  /** Raised by `datetime + timedelta` when the result leaves years 1..9999. */
  datatype Overflow = Overflow

  const MaxYear: nat := 9999
  const SecondsPerDay: nat := 86400

  predicate IsLeap(y: int) {
    y % 4 == 0 && (y % 100 != 0 || y % 400 == 0)
  }

  function DaysInYear(y: int): nat {
    if IsLeap(y) then 366 else 365
  }

  function DaysInMonth(y: int, m: int): (r: nat)
    requires 1 <= m <= 12
    ensures 28 <= r <= 31
  {
    if m == 2 then (if IsLeap(y) then 29 else 28)
    else if m == 4 || m == 6 || m == 9 || m == 11 then 30
    else 31
  }

  /** Days of year `y` before the first of month `m` (m == 13 gives the whole year). */
  function DaysBeforeMonth(y: int, m: int): nat
    requires 1 <= m <= 13
  {
    [0, 31, 59, 90, 120, 151, 181, 212, 243, 273, 304, 334, 365][m - 1]
    + (if m > 2 && IsLeap(y) then 1 else 0)
  }

  /** Days from 0001-01-01 to the first of January of year `y`. */
  function DaysBeforeYear(y: nat): nat
    requires y >= 1
  {
    if y == 1 then 0 else DaysBeforeYear(y - 1) + DaysInYear(y - 1)
  }

  predicate Valid(dt: DateTime) {
    && 1 <= dt.year <= MaxYear
    && 1 <= dt.month <= 12
    && 1 <= dt.day <= DaysInMonth(dt.year, dt.month)
    && dt.hour < 24 && dt.minute < 60 && dt.second < 60
  }

  /** Days since 0001-01-01. */
  function DayNumber(dt: DateTime): nat
    requires Valid(dt)
  {
    DaysBeforeYear(dt.year) + DaysBeforeMonth(dt.year, dt.month) + dt.day - 1
  }

  /** Seconds since 0001-01-01T00:00:00 on the wall clock. */
  function Seconds(dt: DateTime): nat
    requires Valid(dt)
  {
    DayNumber(dt) * SecondsPerDay + dt.hour * 3600 + dt.minute * 60 + dt.second
  }

  /** One past the last second Python can represent (9999-12-31T23:59:59). */
  function SecondsLimit(): nat {
    DaysBeforeYear(MaxYear + 1) * SecondsPerDay
  }

  lemma MonthStep(y: int, m: int)
    requires 1 <= m <= 12
    ensures DaysBeforeMonth(y, m + 1) == DaysBeforeMonth(y, m) + DaysInMonth(y, m)
  {
  }

  lemma {:induction false} DaysBeforeYearGrows(a: nat, b: nat)
    requires 1 <= a < b
    ensures DaysBeforeYear(b) >= DaysBeforeYear(a) + DaysInYear(a)
    decreases b - a
  {
    if b > a + 1 {
      DaysBeforeYearGrows(a, b - 1);
    }
  }

  /** Splits a day count, counted from the start of year `y`, into a year and a day of that year. */
  function YearOf(days: nat, y: nat): (r: (nat, nat))
    requires y >= 1
    ensures r.0 >= y && r.1 < DaysInYear(r.0)
    ensures DaysBeforeYear(r.0) + r.1 == DaysBeforeYear(y) + days
    decreases days
  {
    if days < DaysInYear(y) then (y, days) else YearOf(days - DaysInYear(y), y + 1)
  }

  /** Splits a day of year `y`, counted from the first of month `m`, into a month and a day of it. */
  function MonthOf(offset: nat, y: int, m: int): (r: (int, nat))
    requires 1 <= m <= 12
    requires DaysBeforeMonth(y, m) + offset < DaysInYear(y)
    ensures m <= r.0 <= 12 && r.1 < DaysInMonth(y, r.0)
    ensures DaysBeforeMonth(y, r.0) + r.1 == DaysBeforeMonth(y, m) + offset
    decreases 12 - m
  {
    if offset < DaysInMonth(y, m) then (m, offset)
    else
      MonthStep(y, m);
      MonthOf(offset - DaysInMonth(y, m), y, m + 1)
  }

  /** The wall-clock date-time `t` seconds after 0001-01-01T00:00:00, in zone `zone`. */
  function FromSeconds(t: nat, zone: Zone): (dt: DateTime)
    requires t < SecondsLimit()
    ensures Valid(dt) && Seconds(dt) == t && dt.zone == zone
  {
    var days := t / SecondsPerDay;
    var inDay := t % SecondsPerDay;
    var (y, dayOfYear) := YearOf(days, 1);
    YearOfBelowLimit(days);
    var (m, dayOfMonth) := MonthOf(dayOfYear, y, 1);
    DateTime(y, m, dayOfMonth + 1, inDay / 3600, inDay % 3600 / 60, inDay % 60, zone)
  }

  lemma YearOfBelowLimit(days: nat)
    requires days < DaysBeforeYear(MaxYear + 1)
    ensures YearOf(days, 1).0 <= MaxYear
  {
    var y := YearOf(days, 1).0;
    if y > MaxYear {
      DaysBeforeYearGrows(MaxYear + 1, y);
    }
  }

  lemma {:induction false} YearsUnique(y1: nat, o1: nat, y2: nat, o2: nat)
    requires 1 <= y1 && 1 <= y2 && o1 < DaysInYear(y1) && o2 < DaysInYear(y2)
    requires DaysBeforeYear(y1) + o1 == DaysBeforeYear(y2) + o2
    ensures y1 == y2 && o1 == o2
  {
    if y1 < y2 {
      DaysBeforeYearGrows(y1, y2);
    } else if y2 < y1 {
      DaysBeforeYearGrows(y2, y1);
    }
  }

  lemma MonthsUnique(y: int, m1: int, o1: nat, m2: int, o2: nat)
    requires 1 <= m1 <= 12 && 1 <= m2 <= 12
    requires o1 < DaysInMonth(y, m1) && o2 < DaysInMonth(y, m2)
    requires DaysBeforeMonth(y, m1) + o1 == DaysBeforeMonth(y, m2) + o2
    ensures m1 == m2 && o1 == o2
  {
  }

  /** Distinct valid date-times in the same zone are distinct instants on the wall clock. */
  lemma SecondsInjective(a: DateTime, b: DateTime)
    requires Valid(a) && Valid(b) && a.zone == b.zone
    requires Seconds(a) == Seconds(b)
    ensures a == b
  {
    var ia := a.hour * 3600 + a.minute * 60 + a.second;
    var ib := b.hour * 3600 + b.minute * 60 + b.second;
    assert DayNumber(a) == DayNumber(b) && ia == ib;
    assert a.hour == b.hour;
    assert a.minute == b.minute;
    var ya := DaysBeforeMonth(a.year, a.month) + a.day - 1;
    var yb := DaysBeforeMonth(b.year, b.month) + b.day - 1;
    assert ya < DaysInYear(a.year) by { MonthStep(a.year, a.month); }
    assert yb < DaysInYear(b.year) by { MonthStep(b.year, b.month); }
    YearsUnique(a.year, ya, b.year, yb);
    MonthsUnique(a.year, a.month, a.day - 1, b.month, b.day - 1);
  }

  /** Reading a valid date-time as seconds and back gives it unchanged. */
  lemma FromSecondsOfSeconds(dt: DateTime)
    requires Valid(dt)
    ensures Seconds(dt) < SecondsLimit()
    ensures FromSeconds(Seconds(dt), dt.zone) == dt
  {
    DaysBeforeYearGrows(dt.year, MaxYear + 1);
    MonthStep(dt.year, dt.month);
    assert DayNumber(dt) < DaysBeforeYear(MaxYear + 1);
    SecondsInjective(FromSeconds(Seconds(dt), dt.zone), dt);
  }

  /** Adding `n` seconds: wall-clock addition, or an overflow when the result leaves years
      1..9999. */
  function AddSeconds(dt: DateTime, n: int): (r: Result<DateTime, Overflow>)
    requires Valid(dt)
    ensures r.Ok? <==> 0 <= Seconds(dt) + n < SecondsLimit()
    ensures r.Ok? ==> Valid(r.value) && r.value.zone == dt.zone
    ensures r.Ok? ==> Seconds(r.value) == Seconds(dt) + n
  {
    var t := Seconds(dt) + n;
    if 0 <= t < SecondsLimit() then Ok(FromSeconds(t, dt.zone)) else Err(Overflow)
  }

  /** Adding zero seconds returns the same date-time. */
  lemma AddZero(dt: DateTime)
    requires Valid(dt)
    ensures AddSeconds(dt, 0) == Ok(dt)
  {
    FromSecondsOfSeconds(dt);
  }

  /** Adding `a` then `b` seconds is adding `a + b` when both steps stay in range. */
  lemma AddTwice(dt: DateTime, a: int, b: int)
    requires Valid(dt) && AddSeconds(dt, a).Ok?
    requires AddSeconds(AddSeconds(dt, a).value, b).Ok?
    ensures AddSeconds(dt, a + b) == AddSeconds(AddSeconds(dt, a).value, b)
  {
    var r1 := AddSeconds(dt, a).value;
    var r2 := AddSeconds(r1, b).value;
    var r3 := AddSeconds(dt, a + b);
    SecondsInjective(r2, r3.value);
  }
}
