/** Calendar dates as Python's proleptic Gregorian ordinals (`date.toordinal()`:
    0001-01-01 is day 1), their weekday, and the `"%d.%m.%Y"` text form the
    bot stores event timestamps in. Only the date part of a timestamp is
    modelled: every timestamp the bot builds or parses is a midnight. */
module Ordinals {
  import opened Wrappers
  import opened Strings

  const MinYear: int := 1
  const MaxYear: int := 9999

  /** Ordinal of 9999-12-31, the last day Python's `date` can hold. */
  const MaxOrdinal: int := 3652059

  /** A day Python's `date` type can represent. */
  type Ordinal = n: int | 1 <= n <= MaxOrdinal witness 1

  datatype Date = Date(year: int, month: int, day: int)

  predicate IsLeap(y: int)
  {
    y % 4 == 0 && (y % 100 != 0 || y % 400 == 0)
  }

  function DaysInYear(y: int): int
  {
    if IsLeap(y) then 366 else 365
  }

  function DaysInMonth(y: int, m: int): int
    requires 1 <= m <= 12
  {
    if m == 2 then (if IsLeap(y) then 29 else 28)
    else if m == 4 || m == 6 || m == 9 || m == 11 then 30
    else 31
  }

  /** Days in the years before `y` (Python's `_days_before_year`). */
  function DaysBeforeYear(y: int): int
    requires y >= 1
  {
    var p := y - 1;
    p * 365 + p / 4 - p / 100 + p / 400
  }

  /** Days in the months of year `y` before month `m` (`_days_before_month`). */
  function DaysBeforeMonth(y: int, m: int): int
    requires 1 <= m <= 12
  {
    [0, 0, 31, 59, 90, 120, 151, 181, 212, 243, 273, 304, 334][m]
      + (if m > 2 && IsLeap(y) then 1 else 0)
  }

  predicate ValidDate(d: Date)
  {
    && MinYear <= d.year <= MaxYear
    && 1 <= d.month <= 12
    && 1 <= d.day <= DaysInMonth(d.year, d.month)
  }

  /** `date(y, m, d).toordinal()`. */
  function ToOrdinal(d: Date): int
    requires ValidDate(d)
  {
    DaysBeforeYear(d.year) + DaysBeforeMonth(d.year, d.month) + d.day
  }

  // ---------------------------------------------------------------------
  // Facts about the year and month tables
  // ---------------------------------------------------------------------

  /** Consecutive year starts are one year length apart. */
  lemma DaysBeforeNextYear(y: int)
    requires y >= 1
    ensures DaysBeforeYear(y + 1) == DaysBeforeYear(y) + DaysInYear(y)
  {
    var p := y - 1;
    assert y / 4 - p / 4 == (if y % 4 == 0 then 1 else 0);
    assert y / 100 - p / 100 == (if y % 100 == 0 then 1 else 0);
    assert y / 400 - p / 400 == (if y % 400 == 0 then 1 else 0);
  }

  lemma {:induction false} DaysBeforeYearGrows(a: int, b: int)
    requires 1 <= a <= b
    ensures DaysBeforeYear(b) >= DaysBeforeYear(a) + 365 * (b - a)
    decreases b - a
  {
    if a < b {
      DaysBeforeYearGrows(a, b - 1);
      DaysBeforeNextYear(b - 1);
    }
  }

  lemma MonthTableEnds(y: int)
    ensures DaysBeforeMonth(y, 12) + DaysInMonth(y, 12) == DaysInYear(y)
  {
  }

  lemma MonthTableStep(y: int, m: int)
    requires 1 <= m < 12
    ensures DaysBeforeMonth(y, m + 1) == DaysBeforeMonth(y, m) + DaysInMonth(y, m)
  {
  }

  lemma MaxOrdinalIsLastDay()
    ensures DaysBeforeYear(MaxYear + 1) == MaxOrdinal
    ensures ValidDate(Date(MaxYear, 12, 31)) && ToOrdinal(Date(MaxYear, 12, 31)) == MaxOrdinal
  {
  }

  /** A valid date's ordinal falls within its own year. */
  lemma ToOrdinalInYear(d: Date)
    requires ValidDate(d)
    ensures DaysBeforeYear(d.year) < ToOrdinal(d) <= DaysBeforeYear(d.year + 1)
  {
    DaysBeforeNextYear(d.year);
    if d.month < 12 {
      MonthsBelowYear(d.year, d.month);
    }
  }

  lemma {:induction false} MonthsBelowYear(y: int, m: int)
    requires 1 <= m <= 12
    ensures DaysBeforeMonth(y, m) + DaysInMonth(y, m) <= DaysInYear(y)
    decreases 12 - m
  {
    if m < 12 {
      MonthTableStep(y, m);
      MonthsBelowYear(y, m + 1);
    }
  }

  /** Every valid date has an ordinal in Python's range. */
  lemma ToOrdinalRange(d: Date)
    requires ValidDate(d)
    ensures 1 <= ToOrdinal(d) <= MaxOrdinal
  {
    ToOrdinalInYear(d);
    DaysBeforeYearGrows(d.year + 1, MaxYear + 1);
    MaxOrdinalIsLastDay();
  }

  // ---------------------------------------------------------------------
  // From an ordinal back to year, month and day
  // ---------------------------------------------------------------------

  /** The year holding day `n`, searched upwards from year `y`. */
  function FindYear(n: int, y: int): (r: int)
    requires y >= 1 && DaysBeforeYear(y) < n
    ensures r >= y && DaysBeforeYear(r) < n <= DaysBeforeYear(r + 1)
    decreases n - DaysBeforeYear(y)
  {
    DaysBeforeNextYear(y);
    if n <= DaysBeforeYear(y + 1) then y else FindYear(n, y + 1)
  }

  /** The month of year `y` holding day `k` of that year, searched from `m`. */
  function FindMonth(y: int, k: int, m: int): (r: int)
    requires 1 <= m <= 12 && DaysBeforeMonth(y, m) < k <= DaysInYear(y)
    ensures m <= r <= 12
    ensures DaysBeforeMonth(y, r) < k <= DaysBeforeMonth(y, r) + DaysInMonth(y, r)
    decreases 12 - m
  {
    if m == 12 then (MonthTableEnds(y); m)
    else if k <= DaysBeforeMonth(y, m) + DaysInMonth(y, m) then m
    else (MonthTableStep(y, m); FindMonth(y, k, m + 1))
  }

  /** The year of a day in Python's range is at most 9999. */
  lemma YearInRange(n: int, y: int)
    requires y >= 1 && DaysBeforeYear(y) < n <= MaxOrdinal
    ensures y <= MaxYear
  {
    if y > MaxYear {
      DaysBeforeYearGrows(MaxYear + 1, y);
      MaxOrdinalIsLastDay();
    }
  }

  /** `date.fromordinal(n)`. */
  function FromOrdinal(n: Ordinal): (d: Date)
    ensures ValidDate(d) && ToOrdinal(d) == n
  {
    var y := FindYear(n, 1);
    DaysBeforeNextYear(y);
    YearInRange(n, y);
    var k := n - DaysBeforeYear(y);
    var m := FindMonth(y, k, 1);
    Date(y, m, k - DaysBeforeMonth(y, m))
  }

  lemma {:induction false} FindYearUnique(n: int, y: int, target: int)
    requires 1 <= y <= target
    requires DaysBeforeYear(y) < n
    requires DaysBeforeYear(target) < n <= DaysBeforeYear(target + 1)
    ensures FindYear(n, y) == target
    decreases target - y
  {
    DaysBeforeNextYear(y);
    if y < target {
      DaysBeforeYearGrows(y + 1, target);
      FindYearUnique(n, y + 1, target);
    }
  }

  lemma {:induction false} FindMonthUnique(y: int, k: int, m: int, target: int)
    requires 1 <= m <= target <= 12
    requires DaysBeforeMonth(y, m) < k <= DaysInYear(y)
    requires DaysBeforeMonth(y, target) < k <= DaysBeforeMonth(y, target) + DaysInMonth(y, target)
    ensures FindMonth(y, k, m) == target
    decreases target - m
  {
    if m < target {
      MonthTableStep(y, m);
      MonthsIncrease(y, m + 1, target);
      FindMonthUnique(y, k, m + 1, target);
    }
  }

  lemma {:induction false} MonthsIncrease(y: int, a: int, b: int)
    requires 1 <= a <= b <= 12
    ensures DaysBeforeMonth(y, a) <= DaysBeforeMonth(y, b)
    decreases b - a
  {
    if a < b {
      MonthTableStep(y, b - 1);
      MonthsIncrease(y, a, b - 1);
    }
  }

  /** `date.fromordinal(d.toordinal()) == d` for every valid date. */
  lemma OrdinalRoundTrip(d: Date)
    requires ValidDate(d)
    ensures 1 <= ToOrdinal(d) <= MaxOrdinal
    ensures FromOrdinal(ToOrdinal(d)) == d
  {
    ToOrdinalRange(d);
    var n := ToOrdinal(d);
    ToOrdinalInYear(d);
    assert DaysBeforeYear(1) == 0;
    FindYearUnique(n, 1, d.year);
    var k := n - DaysBeforeYear(d.year);
    assert k == DaysBeforeMonth(d.year, d.month) + d.day;
    MonthsBelowYear(d.year, d.month);
    assert DaysBeforeMonth(d.year, 1) == 0;
    FindMonthUnique(d.year, k, 1, d.month);
    assert FindYear(n, 1) == d.year && FindMonth(d.year, k, 1) == d.month;
  }

  // ---------------------------------------------------------------------
  // Weekdays
  // ---------------------------------------------------------------------

  /** `date.weekday()`: Monday is 0, Sunday is 6. */
  function Weekday(n: int): (w: int)
    ensures 0 <= w < 7
  {
    (n + 6) % 7
  }

  const Monday: int := 0

  // ---------------------------------------------------------------------
  // The "%d.%m.%Y" text form
  // ---------------------------------------------------------------------

  /** `strftime("%d.%m.%Y")`: day and month zero-padded to two digits, the
      year to four. */
  function FormatDate(n: Ordinal): (s: string)
    ensures |s| == 10 && s[2] == '.' && s[5] == '.'
  {
    var d := FromOrdinal(n);
    PaddedWidths(d);
    var dd, mm, yy := ZeroPad(d.day, 2), ZeroPad(d.month, 2), ZeroPad(d.year, 4);
    var s := dd + "." + mm + "." + yy;
    assert s[2] == '.' && s[5] == '.';
    s
  }

  /** The fields of a valid date fill their widths exactly. */
  lemma PaddedWidths(d: Date)
    requires ValidDate(d)
    ensures |ZeroPad(d.day, 2)| == 2 && |ZeroPad(d.month, 2)| == 2 && |ZeroPad(d.year, 4)| == 4
  {
    NatToStringLength(d.day);
    NatToStringLength(d.month);
    NatToStringLength(d.year);
    ZeroPadWidth(d.day, 2);
    ZeroPadWidth(d.month, 2);
    ZeroPadWidth(d.year, 4);
  }

  /** Position of the first `c` in `s`. */
  function IndexOf(s: string, c: char): (r: Option<nat>)
    ensures r.Some? ==> r.value < |s| && s[r.value] == c && c !in s[..r.value]
    ensures r.None? ==> c !in s
  {
    if |s| == 0 then None
    else if s[0] == c then Some(0)
    else match IndexOf(s[1..], c)
      case None => None
      case Some(i) => assert s[..i + 1] == [s[0]] + s[1..][..i]; Some(i + 1)
  }

  /** `%d` in `strptime`: one or two digits for 1..31, or a blank and a digit. */
  function DayField(t: string): Option<int>
  {
    if 1 <= |t| <= 2 && AllDigits(t) && 1 <= DigitsValue(t) <= 31 then Some(DigitsValue(t))
    else if |t| == 2 && t[0] == ' ' && '1' <= t[1] <= '9' then Some(DigitValue(t[1]))
    else None
  }

  /** `%m` in `strptime`: one or two digits for 1..12. */
  function MonthField(t: string): Option<int>
  {
    if 1 <= |t| <= 2 && AllDigits(t) && 1 <= DigitsValue(t) <= 12 then Some(DigitsValue(t)) else None
  }

  /** `%Y` in `strptime`: exactly four digits. */
  function YearField(t: string): Option<int>
  {
    if |t| == 4 && AllDigits(t) then Some(DigitsValue(t)) else None
  }

  /** `datetime.strptime(s, "%d.%m.%Y")` reduced to its date; `None` is the
      `ValueError` for text that does not match or names no real date. */
  function ParseDate(s: string): (r: Option<Ordinal>)
    ensures r.Some? ==> exists d :: ValidDate(d) && ToOrdinal(d) == r.value
  {
    match IndexOf(s, '.')
    case None => None
    case Some(i) =>
      var rest := s[i + 1..];
      match IndexOf(rest, '.')
      case None => None
      case Some(j) => ParseFields(s[..i], rest[..j], rest[j + 1..])
  }

  /** The three fields between the dots, read as a date. */
  function ParseFields(dayText: string, monthText: string, yearText: string): (r: Option<Ordinal>)
    ensures r.Some? ==> exists d :: ValidDate(d) && ToOrdinal(d) == r.value
  {
    match (DayField(dayText), MonthField(monthText), YearField(yearText))
    case (Some(day), Some(month), Some(year)) =>
      var d := Date(year, month, day);
      if ValidDate(d) then (ToOrdinalRange(d); Some(ToOrdinal(d))) else None
    case _ => None
  }

  /** A run of digits holds no dot. */
  lemma DigitsHaveNoDot(t: string)
    requires AllDigits(t)
    ensures '.' !in t
  {
    assert forall i :: 0 <= i < |t| ==> t[i] != '.';
  }

  /** In `a + "." + b` with no dot in `a`, the first dot follows `a`. */
  lemma {:induction false} IndexOfSplit(a: string, b: string)
    requires '.' !in a
    ensures IndexOf(a + "." + b, '.') == Some(|a|)
  {
    if |a| > 0 {
      assert (a + "." + b)[1..] == a[1..] + "." + b;
      IndexOfSplit(a[1..], b);
    }
  }

  lemma FieldsRoundTrip(d: Date)
    requires ValidDate(d)
    ensures |ZeroPad(d.day, 2)| == 2 && DayField(ZeroPad(d.day, 2)) == Some(d.day)
    ensures |ZeroPad(d.month, 2)| == 2 && MonthField(ZeroPad(d.month, 2)) == Some(d.month)
    ensures YearField(ZeroPad(d.year, 4)) == Some(d.year)
  {
    PaddedWidths(d);
  }

  /** Text with two dots whose first two fields hold none is read field by
      field. */
  lemma SplitDate(a: string, b: string, c: string)
    requires '.' !in a && '.' !in b
    ensures ParseDate(a + "." + b + "." + c) == ParseFields(a, b, c)
  {
    var rest := b + "." + c;
    var s := a + "." + b + "." + c;
    assert s == a + "." + rest;
    IndexOfSplit(a, rest);
    IndexOfSplit(b, c);
    assert s[..|a|] == a && s[|a| + 1..] == rest;
    assert rest[..|b|] == b && rest[|b| + 1..] == c;
  }

  /** `strptime(strftime(n))` gives back day `n`: the timestamp format the bot
      writes is the format it reads. */
  lemma FormatParseRoundTrip(n: Ordinal)
    ensures ParseDate(FormatDate(n)) == Some(n)
  {
    var d := FromOrdinal(n);
    FieldsRoundTrip(d);
    var dd, mm, yy := ZeroPad(d.day, 2), ZeroPad(d.month, 2), ZeroPad(d.year, 4);
    DigitsHaveNoDot(dd);
    DigitsHaveNoDot(mm);
    SplitDate(dd, mm, yy);
    assert FormatDate(n) == dd + "." + mm + "." + yy;
  }
}
