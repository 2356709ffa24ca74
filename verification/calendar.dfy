/** Local calendar days and the slice of the JavaScript `Date` object that the
    weekly view uses. A day is an integer day number (day 0 is 1970-01-01, a
    Thursday); a `Date` is a day number plus a time of day in milliseconds,
    read in local time with no daylight-saving jumps. */
module Calendar {

  const MsPerDay: int := 86400000

  /** `getDay()`: 0 is Sunday, 1 is Monday, ..., 6 is Saturday. */
  function Weekday(day: int): (w: int)
    ensures 0 <= w < 7
  {
    (day + 4) % 7
  }

  /** `getDate()`: the day of the month (1..31) of a day number, by the
      proleptic Gregorian calendar (days-to-civil conversion in 400-year eras). */
  function DayOfMonth(day: int): (d: int)
    ensures 1 <= d <= 31
  {
    var z := day + 719468;
    var doe := z % 146097;
    var yoe := (doe - doe / 1460 + doe / 36524 - doe / 146096) / 365;
    var doy := doe - (365 * yoe + yoe / 4 - yoe / 100);
    var mp := (5 * doy + 2) / 153;
    var before := (153 * mp + 2) / 5;
    assert 153 * mp <= 5 * doy + 2 < 153 * mp + 153;
    assert 5 * before <= 153 * mp + 2 < 5 * before + 5;
    doy - before + 1
  }

  /** The Monday that `getWeekRange` moves a day to: back to this week's
      Monday, or, from a Sunday, back six days to the preceding Monday. */
  function MondayOf(day: int): (m: int)
    ensures Weekday(m) == 1 && m <= day <= m + 6
  {
    var w := Weekday(day);
    var q := (day + 4) / 7;
    assert day + 4 == 7 * q + w;
    if w == 0 then
      assert (day - 6) + 4 == 7 * (q - 1) + 1;
      day - 6
    else
      assert (day - w + 1) + 4 == 7 * q + 1;
      day - w + 1
  }

  /** MondayOf(d) is a Monday, d lies in the seven days it starts, and d lies
      in the Monday-to-Saturday part of them exactly when d is not a Sunday
      (a Sunday is the seventh day, MondayOf(d) + 6). */
  lemma MondayOfIsMonday(d: int)
    ensures Weekday(MondayOf(d)) == 1
    ensures Weekday(MondayOf(d) + 5) == 6
    ensures MondayOf(d) <= d <= MondayOf(d) + 6
    ensures d <= MondayOf(d) + 5 <==> Weekday(d) != 0
    ensures Weekday(d) == 0 ==> d == MondayOf(d) + 6
  {
    var w := Weekday(d);
    var q := (d + 4) / 7;
    assert d + 4 == 7 * q + w;
    var m := MondayOf(d);
    if w == 0 {
      assert m + 4 == 7 * (q - 1) + 1;
      assert m + 5 + 4 == 7 * (q - 1) + 6;
    } else {
      assert m + 4 == 7 * q + 1;
      assert m + 5 + 4 == 7 * q + 6;
    }
  }

  /** The Monday of a day is characterised as the only Monday among it and
      the six days before it. */
  lemma MondayOfUnique(d: int, m: int)
    requires Weekday(m) == 1 && m <= d <= m + 6
    ensures MondayOf(d) == m
  {
    MondayOfIsMonday(d);
    var m' := MondayOf(d);
    var q := (m + 4) / 7;
    var q' := (m' + 4) / 7;
    assert m + 4 == 7 * q + 1;
    assert m' + 4 == 7 * q' + 1;
    assert -6 <= m - m' <= 6;
    assert 7 * (q - q') == m - m';
  }

  /** The day seven days earlier falls in the week that starts seven days earlier. */
  lemma MondayOfWeekBefore(d: int)
    ensures MondayOf(d - 7) == MondayOf(d) - 7
  {
    MondayOfIsMonday(d);
    var m := MondayOf(d) - 7;
    assert (m + 4) % 7 == (MondayOf(d) + 4) % 7 by {
      assert m + 4 == (MondayOf(d) + 4) - 7;
    }
    MondayOfUnique(d - 7, m);
  }

  /** A JavaScript `Date`: a local day number and a time of day in milliseconds. */
  class Date {
    var day: int
    var ms: int

    ghost predicate Valid()
      reads this
    {
      0 <= ms < MsPerDay
    }

    /** The time value the comparison operators `<=`/`>=` use, counted from
        local midnight of day 0. */
    function Instant(): int
      reads this
    {
      day * MsPerDay + ms
    }

    /** `new Date(t)` for a time value `t`. */
    constructor FromInstant(t: int)
      ensures Valid() && Instant() == t
      ensures day == t / MsPerDay && ms == t % MsPerDay
    {
      day := t / MsPerDay;
      ms := t % MsPerDay;
    }

    /** `new Date(other)`: a copy of another date. */
    constructor Copy(other: Date)
      requires other.Valid()
      ensures Valid() && day == other.day && ms == other.ms
    {
      day := other.day;
      ms := other.ms;
    }

    /** `getDay()` */
    function GetDay(): (w: int)
      reads this
      ensures 0 <= w < 7
    {
      Weekday(day)
    }

    /** `getDate()` */
    function GetDate(): (d: int)
      reads this
      ensures 1 <= d <= 31
    {
      DayOfMonth(day)
    }

    /** `setDate(k)`: moves to day `k` counted from the first of the current
        month (so 0 and negative values reach back into earlier months, and
        values past the month's end run on into later ones); the time of day
        is kept. Returns the new time value. */
    method SetDate(k: int) returns (t: int)
      requires Valid()
      modifies this
      ensures Valid()
      ensures day == old(day) - DayOfMonth(old(day)) + k && ms == old(ms)
      ensures t == Instant()
    {
      day := day - DayOfMonth(day) + k;
      t := Instant();
    }

    /** `setHours(h, m, s, milli)` with every argument inside its usual range:
        the day is kept and the time of day is replaced. */
    method SetHours(h: int, m: int, s: int, milli: int)
      requires 0 <= h < 24 && 0 <= m < 60 && 0 <= s < 60 && 0 <= milli < 1000
      modifies this
      ensures Valid()
      ensures day == old(day) && ms == ((h * 60 + m) * 60 + s) * 1000 + milli
    {
      ms := ((h * 60 + m) * 60 + s) * 1000 + milli;
    }
  }

  /** The day number of 2026-02-15, a Sunday, has day of month 15. */
  lemma Feb15Of2026()
    ensures DayOfMonth(20499) == 15
    ensures Weekday(20499) == 0
    ensures MondayOf(20499) == 20493
  {
    assert (20499 + 719468) % 146097 == 9482;
    assert (9482 - 9482 / 1460 + 9482 / 36524 - 9482 / 146096) / 365 == 25;
    assert 9482 - (365 * 25 + 25 / 4 - 25 / 100) == 351;
    assert (5 * 351 + 2) / 153 == 11;
    assert 351 - (153 * 11 + 2) / 5 + 1 == 15;
  }
}
