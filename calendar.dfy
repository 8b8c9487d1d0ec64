/** Conversions between instants, day numbers and the "YYYY-MM" key of a
    day (the proleptic Gregorian calendar in UTC). */
module Calendar {
  import opened Types

  /** The UTC date (as a day number) of an instant: the date part of
      `toISOString()`. */
  function DayOf(t: Timestamp): (d: Day)
    ensures d * MS_PER_DAY <= t < d * MS_PER_DAY + MS_PER_DAY
  {
    t / MS_PER_DAY
  }

  /** Year, month (1-12) and day of month of a day number. */
  function CivilFromDays(n: Day): (r: (int, int, int))
    ensures 1 <= r.1 <= 12 && 1 <= r.2 <= 31
  {
    var z := n + 719468;
    var era := z / 146097;
    var doe := z - era * 146097;
    var yoe := (doe - doe / 1460 + doe / 36524 - doe / 146096) / 365;
    var y := yoe + era * 400;
    var doy := doe - (365 * yoe + yoe / 4 - yoe / 100);
    var mp := (5 * doy + 2) / 153;
    var d := doy - (153 * mp + 2) / 5 + 1;
    var m := if mp < 10 then mp + 3 else mp - 9;
    (if m <= 2 then y + 1 else y, m, d)
  }

  /** The "YYYY-MM" part of a day's "YYYY-MM-DD" key. */
  function MonthOf(n: Day): (ym: YearMonth)
  {
    var (y, m, _) := CivilFromDays(n);
    YearMonth(y, m)
  }

  /** The epoch is 1 January 1970. */
  lemma EpochDate()
    ensures CivilFromDays(0) == (1970, 1, 1)
  {
    assert 719468 / 146097 == 4;
    assert 135080 / 1460 == 92 && 135080 / 36524 == 3 && 135080 / 146096 == 0;
    assert 134991 / 365 == 369 && 369 / 4 == 92 && 369 / 100 == 3;
    assert 1532 / 153 == 10 && 1532 / 5 == 306;
  }

  /** The day before the epoch is 31 December 1969. */
  lemma DayBeforeEpoch()
    ensures CivilFromDays(-1) == (1969, 12, 31)
  {
    assert 719467 / 146097 == 4;
    assert 135079 / 1460 == 92 && 135079 / 36524 == 3 && 135079 / 146096 == 0;
    assert 134990 / 365 == 369 && 369 / 4 == 92 && 369 / 100 == 3;
    assert 1527 / 153 == 9 && 1379 / 5 == 275;
  }

  /** Day 11016 is the leap day of 2000. */
  lemma LeapDay2000()
    ensures CivilFromDays(11016) == (2000, 2, 29)
  {
    assert 730484 / 146097 == 4;
    assert 146096 / 1460 == 100 && 146096 / 36524 == 4 && 146096 / 146096 == 1;
    assert 145999 / 365 == 399 && 399 / 4 == 99 && 399 / 100 == 3;
    assert 1827 / 153 == 11 && 1685 / 5 == 337;
  }

  /** Days 30 and 31 lie in different months: "1970-01" and "1970-02". */
  lemma MonthChange()
    ensures MonthOf(30) == YearMonth(1970, 1) && MonthOf(31) == YearMonth(1970, 2)
  {
    assert 719498 / 146097 == 4 && 719499 / 146097 == 4;
    assert 135110 / 1460 == 92 && 135110 / 36524 == 3 && 135110 / 146096 == 0;
    assert 135111 / 1460 == 92 && 135111 / 36524 == 3 && 135111 / 146096 == 0;
    assert 135021 / 365 == 369 && 135022 / 365 == 369 && 369 / 4 == 92 && 369 / 100 == 3;
    assert 1682 / 153 == 10 && 1532 / 5 == 306;
    assert 1687 / 153 == 11 && 1685 / 5 == 337;
  }
}
