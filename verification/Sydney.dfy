/** Australia/Sydney's rule, in force since 2008: daylight time from the first Sunday of October
    until the first Sunday of April, in the proleptic Gregorian calendar. */
module Sydney {
  import opened Instants
  import opened Zones

  const SYDNEY := Zone(d => Daylight(d))

  predicate Leap(year: int) { year % 4 == 0 && (year % 100 != 0 || year % 400 == 0) }

  /** The date of 1 January of a year. */
  function YearStart(year: int): Date {
    365 * (year - 1970) + ((year - 1) / 4 - (year - 1) / 100 + (year - 1) / 400 - 477)
  }

  function YearOf(d: Date): (year: int)
    ensures YearStart(year) <= d < YearStart(year + 1)
  {
    var guess := 1970 + 400 * d / 146097;
    if d < YearStart(guess) then guess - 1
    else if d >= YearStart(guess + 1) then guess + 1
    else guess
  }

  /** The first Sunday on or after d; day zero was a Thursday. */
  function SundayFrom(d: Date): (sunday: Date)
    ensures d <= sunday < d + 7 && (sunday + 4) % 7 == 0
  {
    d + (7 - (d + 4) % 7) % 7
  }

  function FirstSundayOfApril(year: int): (sunday: Date)
    ensures YearStart(year) + 90 <= sunday <= YearStart(year) + 97
  {
    SundayFrom(YearStart(year) + if Leap(year) then 91 else 90)
  }

  function FirstSundayOfOctober(year: int): (sunday: Date)
    ensures YearStart(year) + 273 <= sunday <= YearStart(year) + 280
  {
    SundayFrom(YearStart(year) + if Leap(year) then 274 else 273)
  }

  /** Whether a date of a year is at least the first Sunday of October or before that of April. */
  predicate DaylightIn(year: int, d: Date) {
    d < FirstSundayOfApril(year) || FirstSundayOfOctober(year) <= d
  }

  /** Whether clocks show daylight time from 02:00 on d until 02:00 the next day. */
  predicate Daylight(d: Date) { DaylightIn(YearOf(d), d) }

  lemma {:induction false} YearOfIsUnique(d: Date, year: int)
    requires YearStart(year) <= d < YearStart(year + 1)
    ensures YearOf(d) == year
  {
    YearStartMonotonic(YearOf(d), year);
    YearStartMonotonic(year, YearOf(d));
  }

  lemma {:induction false} YearStartMonotonic(y: int, z: int)
    ensures y < z ==> YearStart(y + 1) <= YearStart(z)
  {}

  /** Clocks change exactly on two Sundays a year: forward on the first of October, back on the
      first of April. */
  lemma {:induction false} DaylightChanges(d: Date)
    ensures !Daylight(d - 1) && Daylight(d) <==> d == FirstSundayOfOctober(YearOf(d))
    ensures Daylight(d - 1) && !Daylight(d) <==> d == FirstSundayOfApril(YearOf(d))
  {
    var year := YearOf(d);
    var eve := if d == YearStart(year) then year - 1 else year;
    YearLength(eve);
    YearOfIsUnique(d - 1, eve);
    DaylightChangesIn(d, year, eve);
  }

  lemma {:induction false} YearLength(year: int)
    ensures YearStart(year + 1) == YearStart(year) + if Leap(year) then 366 else 365
  {
    assert year / 4 == (year - 1) / 4 + if year % 4 == 0 then 1 else 0;
    assert year / 100 == (year - 1) / 100 + if year % 100 == 0 then 1 else 0;
    assert year / 400 == (year - 1) / 400 + if year % 400 == 0 then 1 else 0;
    assert year % 400 == 0 ==> year % 100 == 0;
    assert year % 100 == 0 ==> year % 4 == 0;
  }

  lemma {:induction false} DaylightChangesIn(d: Date, year: int, eve: int)
    requires YearStart(year) <= d
    requires eve == if d == YearStart(year) then year - 1 else year
    ensures !DaylightIn(eve, d - 1) && DaylightIn(year, d) <==> d == FirstSundayOfOctober(year)
    ensures DaylightIn(eve, d - 1) && !DaylightIn(year, d) <==> d == FirstSundayOfApril(year)
  {
    if d == YearStart(year) {
      YearLength(eve);
    }
  }

  const OCTOBER_4_2026: Date := 20_730

  /** In 2026 clocks go back on 5 April and forward on 4 October. */
  lemma {:induction false} DaylightIn2026(d: Date)
    requires 20_454 <= d < 20_819
    ensures Daylight(d) <==> d < 20_548 || OCTOBER_4_2026 <= d
  {
    assert YearStart(2026) == 20_454 && YearStart(2027) == 20_819;
    YearOfIsUnique(d, 2026);
    assert FirstSundayOfApril(2026) == 20_548 && FirstSundayOfOctober(2026) == 20_730;
  }
}
