/** The proleptic Gregorian calendar as Python's `datetime.date` implements it:
    which (year, month, day) triples are dates, how `+ timedelta(days=1)` steps
    from one date to the next, how dates compare, and the ordinal day number
    (`date.toordinal`) that `timedelta` arithmetic is defined by. */
module Calendar {

  datatype CalendarDate = CalendarDate(year: int, month: int, day: int)

  /** `datetime.MINYEAR` and `datetime.MAXYEAR`. */
  const MinYear: int := 1
  const MaxYear: int := 9999

  predicate IsLeapYear(y: int) {
    y % 4 == 0 && (y % 100 != 0 || y % 400 == 0)
  }

  function DaysInMonth(y: int, m: int): int
    requires 1 <= m <= 12
  {
    if m == 2 then (if IsLeapYear(y) then 29 else 28)
    else if m == 4 || m == 6 || m == 9 || m == 11 then 30
    else 31
  }

  /** A triple that `datetime.date(y, m, d)` accepts without ValueError. */
  predicate Valid(d: CalendarDate) {
    MinYear <= d.year <= MaxYear && 1 <= d.month <= 12 && 1 <= d.day <= DaysInMonth(d.year, d.month)
  }

  /** Date comparison: lexicographic on (year, month, day). */
  predicate LessEq(a: CalendarDate, b: CalendarDate) {
    a.year < b.year
    || (a.year == b.year && a.month < b.month)
    || (a.year == b.year && a.month == b.month && a.day <= b.day)
  }

  /** The day after `d`; the successor of 31 December 9999 leaves the valid range
      (Python raises OverflowError there). */
  function NextDay(d: CalendarDate): (r: CalendarDate)
    requires Valid(d)
    ensures LessEq(d, r) && r != d
    ensures r.year <= MaxYear ==> Valid(r)
  {
    if d.day < DaysInMonth(d.year, d.month) then CalendarDate(d.year, d.month, d.day + 1)
    else if d.month < 12 then CalendarDate(d.year, d.month + 1, 1)
    else CalendarDate(d.year + 1, 1, 1)
  }

  /** A date as the `YYYYMMDD` integer the season walk yields. */
  function Encode(d: CalendarDate): int {
    d.year * 10000 + d.month * 100 + d.day
  }

  /** Reads a `YYYYMMDD` integer back into its three fields. */
  function Decode(n: int): CalendarDate {
    CalendarDate(n / 10000, (n / 100) % 100, n % 100)
  }

  lemma DecodeEncode(d: CalendarDate)
    requires 0 <= d.year && 1 <= d.month <= 12 && 1 <= d.day <= 31
    ensures Decode(Encode(d)) == d
  {
    var n := Encode(d);
    assert n == d.year * 10000 + (d.month * 100 + d.day);
    assert 0 <= d.month * 100 + d.day < 10000;
    assert n / 10000 == d.year;
    assert n / 100 == d.year * 100 + d.month;
    assert n % 100 == d.day;
  }

  /** The encoding preserves and reflects the date order. */
  lemma EncodeOrder(a: CalendarDate, b: CalendarDate)
    requires Valid(a) && Valid(b)
    ensures LessEq(a, b) <==> Encode(a) <= Encode(b)
    ensures a == b <==> Encode(a) == Encode(b)
  {
    if a.year < b.year {
      assert Encode(a) < (a.year + 1) * 10000 <= b.year * 10000 < Encode(b);
    } else if b.year < a.year {
      assert Encode(b) < (b.year + 1) * 10000 <= a.year * 10000 < Encode(a);
    }
  }

  // ---------------------------------------------------------------------------
  // Ordinal day numbers, as `date.toordinal()` defines them (1 January of year 1
  // is day 1). `date + timedelta(days=1)` is `fromordinal(toordinal() + 1)`.

  function DaysBeforeYear(y: int): int {
    var z := y - 1;
    z * 365 + z / 4 - z / 100 + z / 400
  }

  /** Python's `_DAYS_BEFORE_MONTH` table, plus the leap day after February. */
  function DaysBeforeMonth(y: int, m: int): int
    requires 1 <= m <= 12
  {
    var table := [0, 31, 59, 90, 120, 151, 181, 212, 243, 273, 304, 334];
    table[m - 1] + (if m > 2 && IsLeapYear(y) then 1 else 0)
  }

  function Ordinal(d: CalendarDate): int
    requires 1 <= d.month <= 12
  {
    DaysBeforeYear(d.year) + DaysBeforeMonth(d.year, d.month) + d.day
  }

  function DaysInYear(y: int): int {
    if IsLeapYear(y) then 366 else 365
  }

  lemma DaysBeforeMonthStep(y: int, m: int)
    requires 1 <= m < 12
    ensures DaysBeforeMonth(y, m + 1) == DaysBeforeMonth(y, m) + DaysInMonth(y, m)
  {
  }

  lemma DaysBeforeYearStep(y: int)
    requires y >= 1
    ensures DaysBeforeYear(y + 1) == DaysBeforeYear(y) + DaysInYear(y)
  {
    var z := y - 1;
    assert y / 4 - z / 4 == (if y % 4 == 0 then 1 else 0);
    assert y / 100 - z / 100 == (if y % 100 == 0 then 1 else 0);
    assert y / 400 - z / 400 == (if y % 400 == 0 then 1 else 0);
  }

  /** The calendar step is the `timedelta(days=1)` step: it adds one to the ordinal. */
  lemma NextDayOrdinal(d: CalendarDate)
    requires Valid(d)
    ensures Ordinal(NextDay(d)) == Ordinal(d) + 1
  {
    if d.day < DaysInMonth(d.year, d.month) {
    } else if d.month < 12 {
      DaysBeforeMonthStep(d.year, d.month);
    } else {
      DaysBeforeYearStep(d.year);
    }
  }

  lemma DaysBeforeMonthMonotone(y: int, m1: int, m2: int)
    requires 1 <= m1 < m2 <= 12
    ensures DaysBeforeMonth(y, m1) + DaysInMonth(y, m1) <= DaysBeforeMonth(y, m2)
    decreases m2 - m1
  {
    DaysBeforeMonthStep(y, m1);
    if m1 + 1 < m2 {
      DaysBeforeMonthMonotone(y, m1 + 1, m2);
    }
  }

  /** A valid date's ordinal lies within its own year's block of ordinals. */
  lemma OrdinalWithinYear(d: CalendarDate)
    requires Valid(d)
    ensures DaysBeforeYear(d.year) < Ordinal(d) <= DaysBeforeYear(d.year + 1)
  {
    DaysBeforeYearStep(d.year);
    if d.month < 12 {
      DaysBeforeMonthMonotone(d.year, d.month, 12);
    }
  }

  lemma DaysBeforeYearMonotone(y1: int, y2: int)
    requires 1 <= y1 <= y2
    ensures DaysBeforeYear(y1) <= DaysBeforeYear(y2)
    decreases y2 - y1
  {
    if y1 < y2 {
      DaysBeforeYearStep(y1);
      DaysBeforeYearMonotone(y1 + 1, y2);
    }
  }

  /** Date order and ordinal order agree, so the ordinal numbers the dates one to one. */
  lemma OrdinalOrder(a: CalendarDate, b: CalendarDate)
    requires Valid(a) && Valid(b)
    ensures LessEq(a, b) <==> Ordinal(a) <= Ordinal(b)
    ensures a == b <==> Ordinal(a) == Ordinal(b)
  {
    OrdinalWithinYear(a);
    OrdinalWithinYear(b);
    if a.year < b.year {
      DaysBeforeYearMonotone(a.year + 1, b.year);
    } else if b.year < a.year {
      DaysBeforeYearMonotone(b.year + 1, a.year);
    } else if a.month < b.month {
      DaysBeforeMonthMonotone(a.year, a.month, b.month);
    } else if b.month < a.month {
      DaysBeforeMonthMonotone(a.year, b.month, a.month);
    }
  }

  /** Stepping from a date strictly before `e` never jumps past `e`. */
  lemma NextDayNoSkip(c: CalendarDate, e: CalendarDate)
    requires Valid(c) && Valid(e)
    requires LessEq(c, e) && c != e
    ensures LessEq(NextDay(c), e)
  {
  }
}
