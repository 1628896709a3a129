/** ctime.c and mktime.c: seconds to dates by one leap-year rule and two loops, and back by another rule and other loops.
    The two are inverse on all times a long can hold. */
module Calendar {
  import opened Division

  /** struct tm. */
  datatype Tm = Tm(sec: nat, min: nat, hour: nat, mday: nat, mon: nat, year: nat, wday: nat, yday: nat)

  /** A long: 32 bits, wrapping round. */
  type long = x: int | -0x8000_0000 <= x < 0x8000_0000

  function Long(x: int): long {
    (x + 0x8000_0000) % 0x1_0000_0000 - 0x8000_0000
  }

  lemma LongSum(a: int, b: int)
    ensures Long(Long(a) + b) == Long(a + b)
  {
  }

  lemma LongSame(x: int)
    requires -0x8000_0000 <= x < 0x8000_0000
    ensures Long(x) == x
  {
  }

  /** dylen: years are counted from 1900. */
  function Dylen(yr: nat): nat {
    if yr % 4 != 0 then 365 else 366
  }

  /** LEAP_YEAR: the Gregorian rule. */
  predicate LeapYear(yr: nat) {
    1900 + yr > 0 && (1900 + yr) % 4 == 0 && ((1900 + yr) % 100 != 0 || (1900 + yr) % 400 == 0)
  }

  /** From 1901 to 2099 they say the same; on 1900 and 2100 they do not. */
  lemma RulesAgree(yr: nat)
    requires yr <= 200
    ensures (LeapYear(yr) <==> Dylen(yr) == 366) <==> 0 < yr < 200
  {
  }

  function MonthLength(leap: bool, mon: nat): nat
    requires mon < 12
  {
    if mon == 1 then (if leap then 29 else 28)
    else if mon == 3 || mon == 5 || mon == 8 || mon == 10 then 30 else 31
  }

  /** The days of a year before a month. */
  function MonthStart(leap: bool, mon: nat): nat
    requires mon <= 12
  {
    if mon == 0 then 0 else MonthStart(leap, mon - 1) + MonthLength(leap, mon - 1)
  }

  /** The days from 1970 to the start of a year. */
  function YearStart(yr: nat): nat
    requires yr >= 70
  {
    if yr == 70 then 0 else YearStart(yr - 1) + Dylen(yr - 1)
  }

  /** The number of leap years of the Gregorian calendar before a year, and the day number of its start without
      counting year by year. */
  function LeapsBefore(y: nat): int
    requires y > 0
  {
    (y - 1) / 4 - (y - 1) / 100 + (y - 1) / 400
  }

  lemma {:induction false} YearStartGregorian(yr: nat)
    requires 70 <= yr <= 200
    ensures YearStart(yr) == 365 * (yr - 70) + LeapsBefore(1900 + yr) - LeapsBefore(1970)
  {
    if yr > 70 {
      YearStartGregorian(yr - 1);
      RulesAgree(yr - 1);
      OneYear(1899 + yr);
    }
  }

  lemma OneYear(y: nat)
    requires y > 1900
    ensures LeapsBefore(y + 1) == LeapsBefore(y) + if y % 4 == 0 && (y % 100 != 0 || y % 400 == 0) then 1 else 0
  {
    Tick4(y);
    Tick100(y);
    Tick400(y);
  }

  lemma Tick4(y: nat)
    requires y > 0
    ensures y / 4 == (y - 1) / 4 + if y % 4 == 0 then 1 else 0
  {
  }

  lemma Tick100(y: nat)
    requires y > 0
    ensures y / 100 == (y - 1) / 100 + if y % 100 == 0 then 1 else 0
    ensures y % 100 == 0 ==> y % 4 == 0
  {
    var q, r := y / 100, y % 100;
    if r > 0 { Euclid(y - 1, 100, q, r - 1); } else { Euclid(y - 1, 100, q - 1, 99); Euclid(y, 4, 25 * q, 0); }
  }

  lemma Tick400(y: nat)
    requires y > 0
    ensures y / 400 == (y - 1) / 400 + if y % 400 == 0 then 1 else 0
    ensures y % 400 == 0 ==> y % 100 == 0
  {
    var q, r := y / 400, y % 400;
    if r > 0 { Euclid(y - 1, 400, q, r - 1); } else { Euclid(y - 1, 400, q - 1, 399); Euclid(y, 100, 4 * q, 0); }
  }

  /** Fields as they should be. */
  predicate InRange(t: Tm) {
    && t.sec < 60 && t.min < 60 && t.hour < 24 && t.mon < 12 && 70 <= t.year
    && 1 <= t.mday <= MonthLength(t.year % 4 == 0, t.mon)
    && t.yday == MonthStart(t.year % 4 == 0, t.mon) + t.mday - 1
    && t.wday == (YearStart(t.year) + t.yday + 4) % 7
  }

  /** The time a date stands for. */
  function Seconds(t: Tm): nat
    requires t.mon < 12 && 70 <= t.year && 1 <= t.mday
  {
    (((YearStart(t.year) + MonthStart(t.year % 4 == 0, t.mon) + t.mday - 1) * 24 + t.hour) * 60 + t.min) * 60 + t.sec
  }

  lemma {:induction false} YearStartGrows(a: nat, b: nat)
    requires 70 <= a < b
    ensures YearStart(a) + Dylen(a) <= YearStart(b)
    decreases b
  {
    if a < b - 1 { YearStartGrows(a, b - 1); }
  }

  lemma {:induction false} MonthStartGrows(leap: bool, a: nat, b: nat)
    requires a < b <= 12
    ensures MonthStart(leap, a) + MonthLength(leap, a) <= MonthStart(leap, b)
    decreases b
  {
    if a < b - 1 { MonthStartGrows(leap, a, b - 1); }
  }

  lemma WholeYear(yr: nat)
    ensures MonthStart(yr % 4 == 0, 12) == Dylen(yr)
  {
    assert MonthStart(true, 6) == 182 && MonthStart(false, 6) == 181;
  }

  /** Month starts without a table: from March on every five months have 153 days. */
  lemma {:induction false} MonthStartIs(leap: bool, mon: nat)
    requires mon <= 12
    ensures MonthStart(leap, mon)
      == if mon < 2 then 31 * mon else (if leap then 60 else 59) + (153 * (mon - 2) + 2) / 5
  {
    if mon > 0 { MonthStartIs(leap, mon - 1); }
  }

  /** The year as reckoned from March. */
  function MarchYear(t: Tm): nat {
    if t.mon < 2 then 1899 + t.year else 1900 + t.year
  }

  function MarchMonth(t: Tm): nat {
    if t.mon < 2 then t.mon + 10 else t.mon - 2
  }

  /** The days up to a date, by a formula that has neither tables nor leap-year tests: leap days come at the end of years
      that begin in March. */
  function CivilDays(t: Tm): int {
    var y := MarchYear(t);
    365 * y + y / 4 - y / 100 + y / 400 + (153 * MarchMonth(t) + 2) / 5 + t.mday
  }

  lemma LeapsMarch(yr: nat)
    requires 70 <= yr < 200
    ensures var y := 1900 + yr;
      y / 4 - y / 100 + y / 400 == LeapsBefore(y) + if yr % 4 == 0 then 1 else 0
  {
    RulesAgree(yr);
    Tick4(1900 + yr);
    Tick100(1900 + yr);
    Tick400(1900 + yr);
  }

  /** A date is as many days after the first of January 1970 as the formula says, and falls on the day of the week
      that goes with it: the formula gives 5 for a Sunday, modulo 7. */
  lemma CivilDate(t: Tm)
    requires InRange(t) && t.year < 200
    ensures Seconds(t) == 86400 * (CivilDays(t) - 719469) + 3600 * t.hour + 60 * t.min + t.sec
    ensures t.wday == (CivilDays(t) + 2) % 7
  {
    DaysAre(t);
    hide CivilDays, MonthStart, YearStart, MonthLength;
  }

  lemma DaysAre(t: Tm)
    requires InRange(t) && t.year < 200
    ensures YearStart(t.year) + MonthStart(t.year % 4 == 0, t.mon) + t.mday - 1 == CivilDays(t) - 719469
  {
    hide YearStart, MonthStart, MonthLength, LeapsBefore;
    YearStartGregorian(t.year);
    MonthStartIs(t.year % 4 == 0, t.mon);
    assert LeapsBefore(1970) == 477 by { Leaps1970(); }
    if t.mon < 2 { LeapsJanuary(1900 + t.year); } else { LeapsMarch(t.year); }
  }

  lemma Leaps1970()
    ensures LeapsBefore(1970) == 477
  {
  }

  lemma LeapsJanuary(y: nat)
    requires y > 0
    ensures (y - 1) / 4 - (y - 1) / 100 + (y - 1) / 400 == LeapsBefore(y)
  {
  }

  /** A time is that of one date only. */
  lemma OneDate(t: Tm, u: Tm)
    requires InRange(t) && InRange(u) && Seconds(t) == Seconds(u)
    ensures t == u
  {
    var d, e := YearStart(t.year) + t.yday, YearStart(u.year) + u.yday;
    assert d == e && t.hour == u.hour && t.min == u.min && t.sec == u.sec by { hide YearStart, MonthStart, MonthLength; }
    YearDay(t);
    YearDay(u);
    if t.year < u.year { YearStartGrows(t.year, u.year); }
    if u.year < t.year { YearStartGrows(u.year, t.year); }
    var leap := t.year % 4 == 0;
    if t.mon < u.mon { MonthStartGrows(leap, t.mon, u.mon); }
    if u.mon < t.mon { MonthStartGrows(leap, u.mon, t.mon); }
  }

  lemma YearDay(t: Tm)
    requires InRange(t)
    ensures t.yday < Dylen(t.year)
  {
    WholeYear(t.year);
    if t.mon < 11 { MonthStartGrows(t.year % 4 == 0, t.mon, 12); }
  }

  /** The day a year starts on, by the formula of the Gregorian calendar; before 1970 the leap years are not counted. */
  function DayOfYear(yr: nat): int {
    365 * (yr - 70) + (if yr >= 70 then LeapsBefore(1900 + yr) - LeapsBefore(1970) else 0)
  }

  /** What mktime makes of the fields, the zone left out. */
  function Made(t: Tm): int
    requires t.mon <= 12
  {
    86400 * (DayOfYear(t.year) + MonthStart(LeapYear(t.year), t.mon) + t.mday - 1) + t.hour * 3600 + t.min * 60 + t.sec
  }

  /** For dates of the years 1970 to 2099 it is the time they stand for. */
  lemma MadeIsSeconds(t: Tm)
    requires InRange(t) && t.year < 200
    ensures Made(t) == Seconds(t)
  {
    YearStartGregorian(t.year);
    RulesAgree(t.year);
  }

  class Clock {
    const monlen: array<nat>
    const timeZone: int
    var tim: Tm

    ghost predicate Valid()
      reads this, monlen
    {
      monlen.Length == 12 && forall m :: 0 <= m < 12 && m != 1 ==> monlen[m] == MonthLength(false, m)
    }

    constructor (timeZone: int)
      ensures Valid() && this.timeZone == timeZone && fresh(monlen)
    {
      this.timeZone := timeZone;
      monlen := new nat[] [31, 28, 31, 30, 31, 30, 31, 31, 30, 31, 30, 31];
      tim := Tm(0, 0, 0, 1, 0, 70, 4, 0);
    }

    /** The loop over the years: 16-bit numbers are wide enough. */
    method FindYear(day: nat) returns (yr: nat, rest: nat)
      requires day < 24856
      ensures 70 <= yr <= 138 && day == YearStart(yr) + rest && rest < Dylen(yr)
    {
      yr := 70;
      var cumday := Dylen(yr);
      YearStartGregorian(138);
      while cumday <= day
        invariant 70 <= yr <= 138 && cumday == YearStart(yr) + Dylen(yr) < 0x1_0000 && YearStart(yr) <= day
        decreases 138 - yr
      {
        yr := yr + 1;
        if yr > 138 { YearStartGrows(138, yr); }
        cumday := cumday + Dylen(yr);
      }
      cumday := cumday - Dylen(yr);
      rest := day - cumday;
    }

    /** The loop over the months: it stays inside the table. */
    method FindMonth(yr: nat, day: nat) returns (mon: nat, rest: nat)
      requires Valid() && day < Dylen(yr)
      modifies monlen
      ensures Valid() && mon < 12 && day == MonthStart(yr % 4 == 0, mon) + rest && rest < MonthLength(yr % 4 == 0, mon)
    {
      var leap := yr % 4 == 0;
      monlen[1] := if leap then 29 else 28;
      WholeYear(yr);
      mon := 0;
      var cumday := monlen[0];
      while cumday <= day
        invariant Valid() && monlen[1] == MonthLength(leap, 1) && mon < 12
        invariant cumday == MonthStart(leap, mon) + MonthLength(leap, mon) && MonthStart(leap, mon) <= day
        decreases 12 - mon
      {
        assert MonthStart(leap, mon + 1) == cumday;
        mon := mon + 1;
        cumday := cumday + monlen[mon];
      }
      cumday := cumday - monlen[mon];
      rest := day - cumday;
    }

    /** gmtime. */
    method Gmtime(t: nat)
      requires Valid() && t < 0x8000_0000
      modifies this`tim, monlen
      ensures Valid() && InRange(tim) && tim.year <= 138 && Seconds(tim) == t
      ensures t == 86400 * (CivilDays(tim) - 719469) + 3600 * tim.hour + 60 * tim.min + tim.sec && tim.wday == (CivilDays(tim) + 2) % 7
    {
      var sec, t1 := t % 60, t / 60;
      var min, t2 := t1 % 60, t1 / 60;
      var hour, day := t2 % 24, t2 / 24;
      var wday := (day + 4) % 7;
      var yr, yday := FindYear(day);
      var mon, rest := FindMonth(yr, yday);
      tim := Tm(sec, min, hour, rest + 1, mon, yr, wday, yday);
      CivilDate(tim);
    }

    /** localtime; the zone is in minutes west, and its product with 60 is an int. */
    method Localtime(t: long)
      requires Valid() && -546 <= timeZone <= 546 && 0 <= Long(t - timeZone * 60)
      modifies this`tim, monlen
      ensures Valid() && InRange(tim) && tim.year <= 138 && Seconds(tim) == Long(t - timeZone * 60)
    {
      Gmtime(Long(t - timeZone * 60));
    }

    /** mktime, on whatever fields: only the month is looked up in a table. The sum is one of longs. */
    method Mktime(ptm: Tm) returns (seconds: long)
      requires ptm.mon <= 12
      ensures seconds == Long(Made(ptm) + timeZone * 60)
    {
      hide Long;
      seconds := Long((ptm.year - 70) * (86400 * 365));
      var i := 70;
      while i < ptm.year
        invariant 70 <= i && (i <= ptm.year || i == 70)
        invariant seconds == Long(86400 * (365 * (ptm.year - 70) + LeapsBefore(1900 + i) - LeapsBefore(1970)))
      {
        OneYear(1900 + i);
        if LeapYear(i) {
          seconds := Plus(seconds, 86400 * (365 * (ptm.year - 70) + LeapsBefore(1900 + i) - LeapsBefore(1970)), 86400);
        }
        i := i + 1;
      }
      var monthDays := [31, 28, 31, 30, 31, 30, 31, 31, 30, 31, 30, 31];
      ghost var leap, start := LeapYear(ptm.year), DayOfYear(ptm.year);
      assert seconds == Long(86400 * start);
      hide LeapsBefore;
      i := 0;
      while i < ptm.mon
        invariant 0 <= i <= ptm.mon && seconds == Long(86400 * (start + MonthStart(leap, i)))
      {
        if i == 1 && LeapYear(ptm.year) {
          seconds := Plus(seconds, 86400 * (start + MonthStart(leap, i)), 86400 * 29);
        } else {
          seconds := Plus(seconds, 86400 * (start + MonthStart(leap, i)), 86400 * monthDays[i]);
        }
        i := i + 1;
      }
      ghost var days, sum := start + MonthStart(leap, ptm.mon), 0;
      sum := 86400 * days;
      seconds := Plus(seconds, sum, (ptm.mday - 1) * 86400);
      sum := sum + (ptm.mday - 1) * 86400;
      seconds := Plus(seconds, sum, ptm.hour * 3600);
      sum := sum + ptm.hour * 3600;
      seconds := Plus(seconds, sum, ptm.min * 60);
      sum := sum + ptm.min * 60;
      seconds := Plus(seconds, sum, ptm.sec);
      sum := sum + ptm.sec;
      seconds := Plus(seconds, sum, timeZone * 60);
    }

    /** An addition of longs; `sum` is what there would be without wrapping round so far. */
    method Plus(seconds: long, ghost sum: int, d: int) returns (r: long)
      requires seconds == Long(sum)
      ensures r == Long(sum + d)
    {
      LongSum(sum, d);
      r := Long(seconds + d);
    }

    /** Times survive the conversion to a local date and back. */
    method LocalAndBack(t: long) returns (r: long)
      requires Valid() && -546 <= timeZone <= 546 && 0 <= Long(t - timeZone * 60)
      modifies this`tim, monlen
      ensures r == t
    {
      hide Long, Made, Seconds, InRange;
      var zone := timeZone * 60;
      Localtime(t);
      MadeIsSeconds(tim);
      LongSum(t - zone, zone);
      LongSame(t);
      r := Mktime(tim);
    }

    /** So do dates, when the time they stand for fits a long. */
    method BackAndLocal(ptm: Tm)
      requires Valid() && -546 <= timeZone <= 546 && InRange(ptm) && ptm.year < 200 && Seconds(ptm) < 0x8000_0000
      modifies this`tim, monlen
      ensures tim == ptm
    {
      OneMonth(ptm);
      hide Long, Made, Seconds, InRange;
      var zone := timeZone * 60;
      MadeIsSeconds(ptm);
      var t := Mktime(ptm);
      LongSum(Made(ptm) + zone, -zone);
      LongSame(Made(ptm));
      Localtime(t);
      OneDate(tim, ptm);
    }

    lemma OneMonth(t: Tm)
      requires InRange(t)
      ensures t.mon < 12 && 70 <= t.year && 1 <= t.mday
    {
    }
  }
}
