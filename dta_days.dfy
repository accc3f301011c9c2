/**
 * Stata's day codec: a `YYYY-MM-DD` calendar date (the extended complete
 * calendar date of section 4.1.2.2 of ISO 8601:2004) to a signed count of
 * days from 1 January 1960, and back.
 */
module DtaDays {
  import opened Types

  /** Day 0 is 1 January of this year. */
  const EpochYear: int := 1960

  const DaysPerMonth: seq<nat> := [31, 28, 31, 30, 31, 30, 31, 31, 30, 31, 30, 31]
  const DaysPerMonthLeap: seq<nat> := [31, 29, 31, 30, 31, 30, 31, 31, 30, 31, 30, 31]

  /**
   * The Gregorian leap rule. C's `%` truncates toward zero where Dafny's is
   * Euclidean, but a remainder is zero under one exactly when it is zero
   * under the other, so the rule agrees for years before 0 as well.
   */
  predicate IsLeap(year: int) {
    (year % 4 == 0 && year % 100 != 0) || year % 400 == 0
  }

  function DaysInYear(year: int): nat {
    if IsLeap(year) then 366 else 365
  }

  /** Length of the 0-based month `m`, read from the two tables of the source. */
  function DaysInMonth(year: int, m: int): (n: nat)
    requires 0 <= m < 12
    ensures 28 <= n <= 31
  {
    if IsLeap(year) then DaysPerMonthLeap[m] else DaysPerMonth[m]
  }

  /** Days in the months of `year` before the 0-based month `m`. */
  function DaysBeforeMonth(year: int, m: int): nat
    requires 0 <= m <= 12
  {
    if m == 0 then 0 else DaysBeforeMonth(year, m - 1) + DaysInMonth(year, m - 1)
  }

  /** Days from 1 January 1960 to 1 January of `year`; negative before 1960. */
  function YearStart(year: int): int
    decreases if year < EpochYear then EpochYear - year else year - EpochYear
  {
    if year == EpochYear then 0
    else if year > EpochYear then YearStart(year - 1) + DaysInYear(year - 1)
    else YearStart(year + 1) - DaysInYear(year)
  }

  /** A broken-down date; `month` is 1-based, as printed. */
  datatype Date = Date(year: int, month: int, day: int)

  predicate ValidDate(date: Date) {
    1 <= date.month <= 12 && 1 <= date.day <= DaysInMonth(date.year, date.month - 1)
  }

  /** The day count of a date: whole years from 1960, earlier months, then day - 1. */
  function DayNumber(date: Date): int
    requires 1 <= date.month <= 12
  {
    YearStart(date.year) + DaysBeforeMonth(date.year, date.month - 1) + date.day - 1
  }

  // ---------------------------------------------------------------------
  // Properties of the calendar arithmetic
  // ---------------------------------------------------------------------

  /** Every year adds (after 1960) or subtracts (before 1960) exactly its own length. */
  lemma {:induction false} YearStartStep(year: int)
    ensures YearStart(year + 1) == YearStart(year) + DaysInYear(year)
    ensures YearStart(year + 1) - YearStart(year) == 365 || YearStart(year + 1) - YearStart(year) == 366
  {
    if year >= EpochYear {
      assert YearStart(year + 1) == YearStart(year) + DaysInYear(year);
    } else {
      assert YearStart(year) == YearStart(year + 1) - DaysInYear(year);
    }
  }

  /** A later year starts later. */
  lemma {:induction false} YearStartMonotone(a: int, b: int)
    requires a < b
    ensures YearStart(a) + DaysInYear(a) <= YearStart(b)
    decreases b - a
  {
    YearStartStep(a);
    if a + 1 < b {
      YearStartMonotone(a + 1, b);
      YearStartStep(a + 1);
    }
  }

  /** Months partition the year: a later month starts no earlier than an earlier month ends. */
  lemma {:induction false} DaysBeforeMonthMonotone(year: int, a: int, b: int)
    requires 0 <= a < b <= 12
    ensures DaysBeforeMonth(year, a) + DaysInMonth(year, a) <= DaysBeforeMonth(year, b)
    decreases b - a
  {
    if a + 1 < b {
      DaysBeforeMonthMonotone(year, a + 1, b);
    }
  }

  /** The twelve months of a year add up to the year's length. */
  lemma YearOfMonths(year: int)
    ensures DaysBeforeMonth(year, 12) == DaysInYear(year)
  {
    if IsLeap(year) {
      assert DaysBeforeMonth(year, 1) == 31;
      assert DaysBeforeMonth(year, 2) == 60;
      assert DaysBeforeMonth(year, 3) == 91;
      assert DaysBeforeMonth(year, 4) == 121;
      assert DaysBeforeMonth(year, 5) == 152;
      assert DaysBeforeMonth(year, 6) == 182;
      assert DaysBeforeMonth(year, 7) == 213;
      assert DaysBeforeMonth(year, 8) == 244;
      assert DaysBeforeMonth(year, 9) == 274;
      assert DaysBeforeMonth(year, 10) == 305;
      assert DaysBeforeMonth(year, 11) == 335;
      assert DaysBeforeMonth(year, 12) == 366;
    } else {
      assert DaysBeforeMonth(year, 1) == 31;
      assert DaysBeforeMonth(year, 2) == 59;
      assert DaysBeforeMonth(year, 3) == 90;
      assert DaysBeforeMonth(year, 4) == 120;
      assert DaysBeforeMonth(year, 5) == 151;
      assert DaysBeforeMonth(year, 6) == 181;
      assert DaysBeforeMonth(year, 7) == 212;
      assert DaysBeforeMonth(year, 8) == 243;
      assert DaysBeforeMonth(year, 9) == 273;
      assert DaysBeforeMonth(year, 10) == 304;
      assert DaysBeforeMonth(year, 11) == 334;
      assert DaysBeforeMonth(year, 12) == 365;
    }
  }

  lemma DaysBeforeMonthBounds(year: int, m: int)
    requires 0 <= m <= 12
    ensures DaysBeforeMonth(year, m) <= DaysBeforeMonth(year, 12) == DaysInYear(year)
    ensures m < 12 ==> DaysBeforeMonth(year, m) + DaysInMonth(year, m) <= DaysInYear(year)
  {
    YearOfMonths(year);
    if m < 12 {
      DaysBeforeMonthMonotone(year, m, 12);
    }
  }

  /** The day number of a valid date falls inside its year. */
  lemma DayNumberInYear(date: Date)
    requires ValidDate(date)
    ensures YearStart(date.year) <= DayNumber(date) < YearStart(date.year + 1)
  {
    DaysBeforeMonthBounds(date.year, date.month - 1);
    YearStartStep(date.year);
  }

  /**
   * Distinct valid dates have distinct day numbers, so the date that
   * readstat_dta_days_string finds for a day count is the only one.
   */
  lemma DayNumberInjective(a: Date, b: Date)
    requires ValidDate(a) && ValidDate(b)
    requires DayNumber(a) == DayNumber(b)
    ensures a == b
  {
    if a.year != b.year {
      if a.year < b.year { EarlierYearEarlierDay(a, b); } else { EarlierYearEarlierDay(b, a); }
    } else if a.month != b.month {
      if a.month < b.month { EarlierMonthEarlierDay(a, b); } else { EarlierMonthEarlierDay(b, a); }
    }
  }

  /** A valid date in an earlier year has a smaller day number. */
  lemma EarlierYearEarlierDay(a: Date, b: Date)
    requires ValidDate(a) && ValidDate(b) && a.year < b.year
    ensures DayNumber(a) < DayNumber(b)
  {
    DayNumberInYear(a);
    DayNumberInYear(b);
    YearStartStep(a.year);
    YearStartMonotone(a.year, b.year);
  }

  /** A valid date in an earlier month of the same year has a smaller day number. */
  lemma EarlierMonthEarlierDay(a: Date, b: Date)
    requires ValidDate(a) && ValidDate(b) && a.year == b.year && a.month < b.month
    ensures DayNumber(a) < DayNumber(b)
  {
    DaysBeforeMonthMonotone(a.year, a.month - 1, b.month - 1);
  }

  /** 1 January 1960 is day 0 and 31 December 1959 is day -1. */
  lemma EpochDays()
    ensures DayNumber(Date(1960, 1, 1)) == 0
    ensures DayNumber(Date(1959, 12, 31)) == -1
  {
    DaysBeforeMonthBounds(1959, 11);
    assert YearStart(1959) == -365;
  }

  // ---------------------------------------------------------------------
  // strptime(s, "%Y-%m-%d", &tm), after glibc's get_number
  // ---------------------------------------------------------------------

  predicate IsDigit(c: char) { '0' <= c <= '9' }

  /** isspace in the C locale. */
  predicate IsSpace(c: char) {
    c == ' ' || c == '\t' || c == '\n' || c == '\r' || c == 11 as char || c == 12 as char
  }

  function DigitValue(c: char): nat
    requires IsDigit(c)
  {
    (c as int) - ('0' as int)
  }

  function SkipSpaces(s: string, i: nat): (j: nat)
    requires i <= |s|
    ensures i <= j <= |s|
    ensures j < |s| ==> !IsSpace(s[j])
    decreases |s| - i
  {
    if i < |s| && IsSpace(s[i]) then SkipSpaces(s, i + 1) else i
  }

  /**
   * The digit loop of get_number: take the digit at `j`, then go on while
   * fewer than `n` digits were taken, `val * 10 <= to` and a digit follows.
   */
  function ReadDigits(s: string, j: nat, acc: nat, n: nat, to: nat): (r: (nat, nat))
    requires j < |s| && IsDigit(s[j]) && n >= 1
    ensures j < r.1 <= |s|
    decreases n
  {
    var v := acc * 10 + DigitValue(s[j]);
    if n - 1 > 0 && v * 10 <= to && j + 1 < |s| && IsDigit(s[j + 1]) then ReadDigits(s, j + 1, v, n - 1, to)
    else (v, j + 1)
  }

  /** get_number(from, to, n) at position `i`: the value read and the position after it. */
  function GetNumber(s: string, i: nat, from: nat, to: nat, n: nat): (r: Option<(nat, nat)>)
    requires i <= |s| && n >= 1
    ensures r.Some? ==> i < r.value.1 <= |s| && from <= r.value.0 <= to
  {
    var j := SkipSpaces(s, i);
    if j == |s| || !IsDigit(s[j]) then None
    else
      var (v, k) := ReadDigits(s, j, 0, n, to);
      if v < from || v > to then None else Some((v, k))
  }

  /** A literal format character must match the next input character. */
  function Literal(s: string, i: nat, c: char): (r: Option<nat>)
    requires i <= |s|
    ensures r.Some? ==> r.value == i + 1 <= |s|
  {
    if i < |s| && s[i] == c then Some(i + 1) else None
  }

  /**
   * strptime with the format "%Y-%m-%d": a year of up to four digits, a
   * month 1..12, a day 1..31 (not checked against the month), each after
   * optional white space; text after the day is ignored.
   */
  function ParseDate(s: string): Option<Date> {
    match GetNumber(s, 0, 0, 9999, 4)
    case None => None
    case Some((y, i)) =>
      match Literal(s, i, '-')
      case None => None
      case Some(i1) =>
        match GetNumber(s, i1, 1, 12, 2)
        case None => None
        case Some((m, i2)) =>
          match Literal(s, i2, '-')
          case None => None
          case Some(i3) =>
            match GetNumber(s, i3, 1, 31, 2)
            case None => None
            case Some((d, _)) => Some(Date(y, m, d))
  }

  /** A parsed date has a year of at most four digits, a month in 1..12 and a day in 1..31. */
  lemma ParseDateRange(s: string)
    ensures ParseDate(s).Some? ==>
              var d := ParseDate(s).value;
              0 <= d.year <= 9999 && 1 <= d.month <= 12 && 1 <= d.day <= 31
  {
  }

  /** What readstat_dta_num_days yields for a text: None where strptime fails. */
  function NumDaysOf(s: string): Option<int> {
    match ParseDate(s)
    case None => None
    case Some(date) => Some(DayNumber(date))
  }

  // ---------------------------------------------------------------------
  // snprintf(dest, size, "%04d-%02d-%02d", ...)
  // ---------------------------------------------------------------------

  function DigitChar(d: nat): (c: char)
    requires d < 10
    ensures IsDigit(c) && DigitValue(c) == d
  {
    (('0' as int) + d) as char
  }

  /** `%0wd` of a non-negative number: its decimal digits, left-padded with zeros to `w`. */
  function PadDecimal(n: nat, w: nat): (r: string)
    ensures |r| >= 1 && forall k :: 0 <= k < |r| ==> IsDigit(r[k])
    decreases n + w
  {
    if w <= 1 && n < 10 then [DigitChar(n)]
    else PadDecimal(n / 10, if w == 0 then 0 else w - 1) + [DigitChar(n % 10)]
  }

  /** `%0wd` of any int: a minus sign counts toward the width. */
  function FormatInt(n: int, w: nat): string {
    if n < 0 then "-" + PadDecimal(-n, if w == 0 then 0 else w - 1) else PadDecimal(n, w)
  }

  function FormatDate(date: Date): string {
    FormatInt(date.year, 4) + "-" + FormatInt(date.month, 2) + "-" + FormatInt(date.day, 2)
  }

  /** `%04d` of a number below 10000: its four decimal digits, most significant first. */
  lemma PadFour(n: nat)
    requires n <= 9999
    ensures PadDecimal(n, 4) == [DigitChar(n / 10 / 10 / 10), DigitChar(n / 10 / 10 % 10), DigitChar(n / 10 % 10), DigitChar(n % 10)]
  {
    var q1 := n / 10;
    var q2 := q1 / 10;
    var q3 := q2 / 10;
    assert q1 <= 999 && q2 <= 99 && q3 <= 9;
    assert PadDecimal(q3, 1) == [DigitChar(q3)];
    assert PadDecimal(q2, 2) == PadDecimal(q3, 1) + [DigitChar(q2 % 10)];
    assert PadDecimal(q1, 3) == PadDecimal(q2, 2) + [DigitChar(q1 % 10)];
    assert PadDecimal(n, 4) == PadDecimal(q1, 3) + [DigitChar(n % 10)];
  }

  /** `%02d` of a number below 100: its two decimal digits. */
  lemma PadTwo(n: nat)
    requires n <= 99
    ensures PadDecimal(n, 2) == [DigitChar(n / 10), DigitChar(n % 10)]
  {
    assert PadDecimal(n / 10, 1) == [DigitChar(n / 10)];
  }

  /** Reading four digits gives back the number they spell. */
  lemma ReadFour(s: string, j: nat, n: nat)
    requires n <= 9999 && j + 4 <= |s|
    requires s[j..j + 4] == PadDecimal(n, 4)
    ensures ReadDigits(s, j, 0, 4, 9999) == (n, j + 4)
  {
    PadFour(n);
    var q1 := n / 10;
    var q2 := q1 / 10;
    var q3 := q2 / 10;
    assert s[j] == s[j..j + 4][0] == DigitChar(q3);
    assert s[j + 1] == s[j..j + 4][1] == DigitChar(q2 % 10);
    assert s[j + 2] == s[j..j + 4][2] == DigitChar(q1 % 10);
    assert s[j + 3] == s[j..j + 4][3] == DigitChar(n % 10);
    assert n == q1 * 10 + n % 10 && q1 == q2 * 10 + q1 % 10 && q2 == q3 * 10 + q2 % 10;
    assert ReadDigits(s, j + 3, q1, 1, 9999) == (n, j + 4);
    assert ReadDigits(s, j + 2, q2, 2, 9999) == (n, j + 4);
    assert ReadDigits(s, j + 1, q3, 3, 9999) == (n, j + 4);
  }

  /** Reading two digits of a number in 1..to gives it back (the second digit is read since val*10 <= to). */
  lemma ReadTwo(s: string, j: nat, n: nat, to: nat)
    requires 1 <= n <= to && to < 100 && j + 2 <= |s|
    requires s[j..j + 2] == PadDecimal(n, 2)
    ensures ReadDigits(s, j, 0, 2, to) == (n, j + 2)
  {
    PadTwo(n);
    var q := n / 10;
    assert s[j] == s[j..j + 2][0] == DigitChar(q);
    assert s[j + 1] == s[j..j + 2][1] == DigitChar(n % 10);
    assert n == q * 10 + n % 10;
    assert ReadDigits(s, j + 1, q, 1, to) == (n, j + 2);
  }

  /**
   * The printed form of a date whose year has at most four digits parses
   * back to the same date: the text half of the inverse law.
   */
  lemma ParseFormatted(date: Date)
    requires 0 <= date.year <= 9999 && 1 <= date.month <= 12 && 1 <= date.day <= 31
    ensures ParseDate(FormatDate(date)) == Some(date)
  {
    var s := FormatDate(date);
    FormatLayout(date);
    YearField(s, date.year);
    TwoDigitField(s, 5, date.month, 12);
    TwoDigitField(s, 8, date.day, 31);
  }

  /** Where the fields of a printed date sit: four digits, a dash, two digits, a dash, two digits. */
  lemma FormatLayout(date: Date)
    requires 0 <= date.year <= 9999 && 1 <= date.month <= 12 && 1 <= date.day <= 31
    ensures var s := FormatDate(date);
            |s| == 10 && s[0..4] == PadDecimal(date.year, 4) && s[4] == '-'
            && s[5..7] == PadDecimal(date.month, 2) && s[7] == '-' && s[8..10] == PadDecimal(date.day, 2)
  {
    var ys, ms, ds := PadDecimal(date.year, 4), PadDecimal(date.month, 2), PadDecimal(date.day, 2);
    PadFour(date.year);
    PadTwo(date.month);
    PadTwo(date.day);
    var s := FormatDate(date);
    assert s == ys + "-" + ms + "-" + ds;
  }

  /** A four-digit field at the start of the text is read back as its number. */
  lemma YearField(s: string, n: nat)
    requires n <= 9999 && 4 <= |s| && s[0..4] == PadDecimal(n, 4)
    ensures GetNumber(s, 0, 0, 9999, 4) == Some((n, 4))
  {
    assert IsDigit(s[0..4][0]) && s[0] == s[0..4][0];
    assert SkipSpaces(s, 0) == 0;
    ReadFour(s, 0, n);
  }

  /** A two-digit field of a number in 1..to at position `j` is read back as its number. */
  lemma TwoDigitField(s: string, j: nat, n: nat, to: nat)
    requires 1 <= n <= to && to < 100 && j + 2 <= |s| && s[j..j + 2] == PadDecimal(n, 2)
    ensures GetNumber(s, j, 1, to, 2) == Some((n, j + 2))
  {
    assert IsDigit(s[j..j + 2][0]) && s[j] == s[j..j + 2][0];
    assert SkipSpaces(s, j) == j;
    ReadTwo(s, j, n, to);
  }

  // ---------------------------------------------------------------------
  // The two routines
  // ---------------------------------------------------------------------

  /**
   * readstat_dta_num_days: parse, then add up the years between 1960 and the
   * year (negatively before 1960), the earlier months and day - 1. The
   * source exits on a parse failure where its callers test for one; here the
   * failure is the None result.
   */
  method NumDays(s: string) returns (r: Option<int>)
    ensures r == NumDaysOf(s)
    ensures r.Some? <==> ParseDate(s).Some?
  {
    var parsed := ParseDate(s);
    if parsed.None? {
      return None;
    }
    ParseDateRange(s);
    var days := DaysOfDate(parsed.value);
    r := Some(days);
  }

  /** The three loops and the final `day - 1` of readstat_dta_num_days, for a parsed date. */
  method DaysOfDate(date: Date) returns (days: int)
    requires 1 <= date.month <= 12
    ensures days == DayNumber(date)
  {
    days := YearsBefore(date.year);
    days := YearsAfter(date.year, days);
    days := MonthsBefore(date.year, date.month - 1, days);
    days := days + date.day - 1;
  }

  /** The later of `year` and 1960: where the backward walk of readstat_dta_num_days stops and the forward walk ends. */
  function Later(year: int): int {
    if year > EpochYear then year else EpochYear
  }

  /** The first loop of readstat_dta_num_days: one year length subtracted for each year from `destYear` up to 1959. */
  method YearsBefore(destYear: int) returns (days: int)
    ensures days == YearStart(destYear) - YearStart(Later(destYear))
  {
    days := 0;
    var i := destYear;
    while i < EpochYear
      invariant destYear <= i && (destYear < EpochYear ==> i <= EpochYear)
      invariant destYear >= EpochYear ==> i == destYear
      invariant days == YearStart(destYear) - YearStart(i)
    {
      YearStartStep(i);
      days := days - DaysInYear(i);
      i := i + 1;
    }
  }

  /** The second loop: one year length added for each year from 1960 up to `destYear - 1`. */
  method YearsAfter(destYear: int, days0: int) returns (days: int)
    ensures days == days0 + YearStart(Later(destYear))
  {
    days := days0;
    var i := EpochYear;
    assert YearStart(i) == 0;
    while i < destYear
      invariant EpochYear <= i <= Later(destYear)
      invariant days == days0 + YearStart(i)
    {
      YearStartStep(i);
      days := days + DaysInYear(i);
      i := i + 1;
    }
  }

  /** The third loop: the lengths of the 0-based months before `month` of `year` added. */
  method MonthsBefore(year: int, month: int, days0: int) returns (days: int)
    requires 0 <= month <= 12
    ensures days == days0 + DaysBeforeMonth(year, month)
  {
    days := days0;
    var m := 0;
    while m < month
      invariant 0 <= m <= month
      invariant days == days0 + DaysBeforeMonth(year, m)
    {
      days := days + DaysInMonth(year, m);
      m := m + 1;
    }
  }

  /**
   * readstat_dta_days_string: from 1960-01-01 walk forward over whole years,
   * then whole months; for a negative count walk backward from December
   * 1959. The date found is valid and has the given day number; `snprintf`
   * into a buffer of `size` bytes writes at most `size - 1` characters of
   * its text (nothing at all when `size` is 0). When the buffer holds the
   * whole ten characters and the year has at most four digits, the text
   * reads back as `days`.
   */
  method DaysString(days: int, size: nat) returns (date: Date, text: string)
    ensures ValidDate(date) && DayNumber(date) == days
    ensures text == Truncate(FormatDate(date), if size == 0 then 0 else size - 1)
    ensures 0 <= date.year <= 9999 && size >= 11 ==> NumDaysOf(text) == Some(days)
    ensures text <= FormatDate(date)
    ensures 0 <= date.year <= 9999 ==> |text| == (if size >= 11 then 10 else if size == 0 then 0 else size - 1)
  {
    if days < 0 {
      date := WalkBackward(days);
    } else {
      date := WalkForward(days);
    }
    text := Truncate(FormatDate(date), if size == 0 then 0 else size - 1);
    TruncatePrefix(FormatDate(date), if size == 0 then 0 else size - 1);
    if 0 <= date.year <= 9999 {
      FormatLayout(date);
      if size >= 11 {
        FormattedDayNumber(date);
      }
    }
  }

  /** A valid date with a year of at most four digits, printed, reads back as its own day number. */
  lemma FormattedDayNumber(date: Date)
    requires ValidDate(date) && 0 <= date.year <= 9999
    ensures NumDaysOf(FormatDate(date)) == Some(DayNumber(date))
  {
    ParseFormatted(date);
  }

  /** The walk for a negative count: back from December 1959 over whole years, then whole months. */
  method WalkBackward(days: int) returns (date: Date)
    requires days < 0
    ensures ValidDate(date) && DayNumber(date) == days
  {
    var left := -days;
    var yr, month, day := 1959, 11, 1;
    YearStartStep(1959);
    DaysBeforeMonthBounds(1959, 11);
    while left > 0
      invariant 0 <= month <= 11
      invariant 0 <= left
      invariant left > 0 ==> days == YearStart(yr) + DaysBeforeMonth(yr, month + 1) - left
      invariant left > 0 && month < 11 ==> left <= DaysBeforeMonth(yr, month + 1)
      invariant left == 0 ==> 1 <= day <= DaysInMonth(yr, month) && days == DayNumber(Date(yr, month + 1, day))
      decreases left
    {
      var daysInYear := DaysInYear(yr);
      if left > daysInYear {
        assert month == 11 by {
          if month < 11 { DaysBeforeMonthBounds(yr, month + 1); }
        }
        YearStartStep(yr - 1);
        DaysBeforeMonthBounds(yr, 11);
        DaysBeforeMonthBounds(yr - 1, 11);
        yr := yr - 1;
        left := left - daysInYear;
        continue;
      }
      var daysInMonth := DaysInMonth(yr, month);
      if left > daysInMonth {
        DaysBeforeMonthBounds(yr, 11);
        assert month > 0;
        month := month - 1;
        left := left - daysInMonth;
        continue;
      }
      day := daysInMonth - left + 1;
      left := 0;
    }
    date := Date(yr, month + 1, day);
  }

  /** The walk for a count of zero or more: forward from 1 January 1960 over whole years, then whole months. */
  method WalkForward(days: int) returns (date: Date)
    requires days >= 0
    ensures ValidDate(date) && DayNumber(date) == days
  {
    var left := days;
    var yr, month, day := EpochYear, 0, 1;
    while left > 0
      invariant 0 <= month <= 11
      invariant 0 <= left
      invariant days == YearStart(yr) + DaysBeforeMonth(yr, month) + day - 1 + left
      invariant left > 0 ==> day == 1
      invariant month > 0 ==> DaysBeforeMonth(yr, month) + left < DaysInYear(yr)
      invariant 1 <= day <= DaysInMonth(yr, month)
      decreases left
    {
      var daysInYear := DaysInYear(yr);
      if left >= daysInYear {
        assert month == 0;
        YearStartStep(yr);
        yr := yr + 1;
        left := left - daysInYear;
        continue;
      }
      var daysInMonth := DaysInMonth(yr, month);
      if left >= daysInMonth {
        DaysBeforeMonthBounds(yr, month + 1);
        month := month + 1;
        left := left - daysInMonth;
        assert month < 12 && DaysBeforeMonth(yr, month) + left < DaysInYear(yr) by {
          if month == 12 { DaysBeforeMonthBounds(yr, 12); }
        }
        continue;
      }
      day := day + left;
      left := 0;
    }
    date := Date(yr, month + 1, day);
  }
}
