/**
 * `datetime.strptime(text, '%Y-%m-%d')` and the order of the resulting
 * datetimes.
 *
 * CPython implements the format with the regular expression
 *   (\d\d\d\d)-(1[0-2]|0[1-9]|[1-9])-(3[01]|[12]\d|0[1-9]|[1-9]| [1-9])
 * matched at the start of the text; the whole text must be consumed, and
 * the three numbers must form a real date of years 1 to 9999.  Anything
 * else raises `ValueError`.  The first alternative of each group that
 * matches is the one taken: for the day nothing follows, and for the month
 * a longer alternative that matched leaves a digit where the `-` must be,
 * so a shorter one could not succeed either.
 */
module Dates {
  import opened Wrappers
  import opened Content

  datatype CalendarDate = CalendarDate(year: int, month: int, day: int)

  predicate IsLeapYear(y: int) {
    y % 4 == 0 && (y % 100 != 0 || y % 400 == 0)
  }

  function DaysInMonth(y: int, m: int): int
    requires 1 <= m <= 12
  {
    if m == 2 then (if IsLeapYear(y) then 29 else 28)
    else if m == 4 || m == 6 || m == 9 || m == 11 then 30
    else 31
  }

  function DaysInYear(y: int): int {
    if IsLeapYear(y) then 366 else 365
  }

  /** The dates Python's `datetime` can represent. */
  predicate ValidDate(d: CalendarDate) {
    && 1 <= d.year <= 9999
    && 1 <= d.month <= 12
    && 1 <= d.day <= DaysInMonth(d.year, d.month)
  }

  predicate IsDigit(c: char) {
    '0' <= c <= '9'
  }

  function DigitValue(c: char): int
    requires IsDigit(c)
  {
    c as int - '0' as int
  }

  function DigitChar(n: int): char
    requires 0 <= n <= 9
  {
    ('0' as int + n) as char
  }

  /** `(1[0-2]|0[1-9]|[1-9])` at the start of `s`: the month and the length matched. */
  function MatchMonth(s: string): Option<(int, nat)> {
    if |s| >= 2 && s[0] == '1' && '0' <= s[1] <= '2' then Some((10 + DigitValue(s[1]), 2))
    else if |s| >= 2 && s[0] == '0' && '1' <= s[1] <= '9' then Some((DigitValue(s[1]), 2))
    else if |s| >= 1 && '1' <= s[0] <= '9' then Some((DigitValue(s[0]), 1))
    else None
  }

  /** `(3[01]|[12]\d|0[1-9]|[1-9]| [1-9])` at the start of `s`: the day and the length matched. */
  function MatchDay(s: string): Option<(int, nat)> {
    if |s| >= 2 && s[0] == '3' && '0' <= s[1] <= '1' then Some((30 + DigitValue(s[1]), 2))
    else if |s| >= 2 && '1' <= s[0] <= '2' && IsDigit(s[1]) then Some((10 * DigitValue(s[0]) + DigitValue(s[1]), 2))
    else if |s| >= 2 && s[0] == '0' && '1' <= s[1] <= '9' then Some((DigitValue(s[1]), 2))
    else if |s| >= 1 && '1' <= s[0] <= '9' then Some((DigitValue(s[0]), 1))
    else if |s| >= 2 && s[0] == ' ' && '1' <= s[1] <= '9' then Some((DigitValue(s[1]), 2))
    else None
  }

  /** `(\d\d\d\d)` at the start of `s`. */
  function MatchYear(s: string): Option<int> {
    if |s| >= 4 && IsDigit(s[0]) && IsDigit(s[1]) && IsDigit(s[2]) && IsDigit(s[3])
    then Some(1000 * DigitValue(s[0]) + 100 * DigitValue(s[1]) + 10 * DigitValue(s[2]) + DigitValue(s[3]))
    else None
  }

  /** `datetime.strptime(text, '%Y-%m-%d')`; `None` where Python raises `ValueError`. */
  function ParseDate(text: string): (r: Option<CalendarDate>)
    ensures r.Some? ==> ValidDate(r.value)
  {
    match MatchYear(text)
    case None => None
    case Some(y) =>
      if |text| < 5 || text[4] != '-' then None
      else
        match MatchMonth(text[5..])
        case None => None
        case Some((m, lm)) =>
          var rest := text[5 + lm..];
          if |rest| == 0 || rest[0] != '-' then None
          else
            match MatchDay(rest[1..])
            case None => None
            case Some((d, ld)) =>
              if ld != |rest| - 1 then None  // unconverted data remains
              else if ValidDate(CalendarDate(y, m, d)) then Some(CalendarDate(y, m, d))
              else None
  }

  function Pad4(n: int): (s: string)
    requires 0 <= n <= 9999
    ensures |s| == 4
  {
    [DigitChar(n / 1000), DigitChar(n / 100 % 10), DigitChar(n / 10 % 10), DigitChar(n % 10)]
  }

  function Pad2(n: int): (s: string)
    requires 0 <= n <= 99
    ensures |s| == 2
  {
    [DigitChar(n / 10), DigitChar(n % 10)]
  }

  /** The canonical `YYYY-MM-DD` spelling of a date. */
  function FormatDate(d: CalendarDate): (s: string)
    requires ValidDate(d)
    ensures |s| == 10
  {
    Pad4(d.year) + "-" + Pad2(d.month) + "-" + Pad2(d.day)
  }

  /** The spellings `%m` accepts for month `m`. */
  function MonthSpellings(m: int): set<string> {
    if 1 <= m <= 9 then {[DigitChar(m)], ['0', DigitChar(m)]}
    else if 10 <= m <= 12 then {['1', DigitChar(m - 10)]}
    else {}
  }

  /** The spellings `%d` accepts for day `d`. */
  function DaySpellings(d: int): set<string> {
    if 1 <= d <= 9 then {[DigitChar(d)], ['0', DigitChar(d)], [' ', DigitChar(d)]}
    else if 10 <= d <= 31 then {[DigitChar(d / 10), DigitChar(d % 10)]}
    else {}
  }

  /** The texts that name date `d`: a four-digit year, then any accepted month and day spelling. */
  predicate SpellsDate(text: string, d: CalendarDate)
    requires ValidDate(d)
  {
    exists ms, ds | ms in MonthSpellings(d.month) && ds in DaySpellings(d.day) ::
      text == Pad4(d.year) + "-" + ms + "-" + ds
  }

  /** Euclidean division by a positive constant, stated for the digit arithmetic below. */
  lemma DivModUnique(y: int, k: int, q: int, r: int)
    requires k == 4 || k == 10 || k == 100 || k == 400 || k == 1000
    requires 0 <= r < k && y == k * q + r
    ensures y / k == q && y % k == r
  {
    if k == 4 {
      assert y == 4 * q + r;
    } else if k == 10 {
      assert y == 10 * q + r;
    } else if k == 100 {
      assert y == 100 * q + r;
    } else if k == 400 {
      assert y == 400 * q + r;
    } else {
      assert y == 1000 * q + r;
    }
  }

  lemma Pad4Digits(y: int)
    requires 0 <= y <= 9999
    ensures var p := Pad4(y);
      1000 * DigitValue(p[0]) + 100 * DigitValue(p[1]) + 10 * DigitValue(p[2]) + DigitValue(p[3]) == y
  {
    var t := y / 10;
    var h := t / 10;
    DivModUnique(y, 10, t, y % 10);
    DivModUnique(y, 100, h, 10 * (t % 10) + y % 10);
    DivModUnique(y, 1000, h / 10, 100 * (h % 10) + 10 * (t % 10) + y % 10);
  }

  lemma YearDigits(s: string)
    requires MatchYear(s).Some?
    ensures s[..4] == Pad4(MatchYear(s).value)
  {
    var y := MatchYear(s).value;
    var a, b, c, e := DigitValue(s[0]), DigitValue(s[1]), DigitValue(s[2]), DigitValue(s[3]);
    DivModUnique(y, 10, 100 * a + 10 * b + c, e);
    DivModUnique(y, 100, 10 * a + b, 10 * c + e);
    DivModUnique(y, 1000, a, 100 * b + 10 * c + e);
    DivModUnique(10 * a + b, 10, a, b);
    DivModUnique(100 * a + 10 * b + c, 10, 10 * a + b, c);
  }

  lemma MatchPaddedYear(y: int, rest: string)
    requires 0 <= y <= 9999
    ensures MatchYear(Pad4(y) + rest) == Some(y)
  {
    Pad4Digits(y);
  }

  lemma MatchMonthSpelling(m: int, ms: string, rest: string)
    requires ms in MonthSpellings(m) && |rest| > 0 && rest[0] == '-'
    ensures MatchMonth(ms + rest) == Some((m, |ms|))
  {
  }

  lemma MonthMatched(s: string)
    requires MatchMonth(s).Some?
    ensures var (m, l) := MatchMonth(s).value; l <= |s| && s[..l] in MonthSpellings(m)
  {
    var (m, l) := MatchMonth(s).value;
    if l == 2 && s[0] == '1' {
      assert s[..2] == ['1', DigitChar(m - 10)];
    } else if l == 2 {
      assert s[..2] == ['0', DigitChar(m)];
    } else {
      assert s[..1] == [DigitChar(m)];
    }
  }

  lemma MatchDaySpelling(d: int, ds: string)
    requires ds in DaySpellings(d)
    ensures MatchDay(ds) == Some((d, |ds|))
  {
  }

  lemma DayMatched(s: string)
    requires MatchDay(s).Some? && MatchDay(s).value.1 == |s|
    ensures s in DaySpellings(MatchDay(s).value.0)
  {
    var (d, l) := MatchDay(s).value;
    if l == 1 {
      assert s == [DigitChar(d)];
    } else if s[0] == '0' || s[0] == ' ' {
      assert s == [s[0], DigitChar(d)];
    } else {
      assert s == [DigitChar(d / 10), DigitChar(d % 10)];
    }
  }

  lemma ParsedIsSpelling(text: string, d: CalendarDate)
    requires ParseDate(text) == Some(d)
    ensures SpellsDate(text, d)
  {
    YearDigits(text);
    var tail := text[5..];
    MonthMatched(tail);
    var lm := MatchMonth(tail).value.1;
    var rest := text[5 + lm..];
    var ms, ds := tail[..lm], rest[1..];
    DayMatched(ds);
    assert text == text[..4] + "-" + ms + "-" + ds;
  }

  lemma SpellingParses(text: string, d: CalendarDate, ms: string, ds: string)
    requires ValidDate(d)
    requires ms in MonthSpellings(d.month) && ds in DaySpellings(d.day)
    requires text == Pad4(d.year) + "-" + ms + "-" + ds
    ensures ParseDate(text) == Some(d)
  {
    MatchPaddedYear(d.year, "-" + ms + "-" + ds);
    assert text[5..] == ms + ("-" + ds);
    MatchMonthSpelling(d.month, ms, "-" + ds);
    var rest := text[5 + |ms|..];
    assert rest == "-" + ds;
    assert rest[1..] == ds;
    MatchDaySpelling(d.day, ds);
  }

  /**
   * `strptime` accepts exactly the spellings of a valid date: a four-digit
   * year, a month with or without its leading zero, and a day with a
   * leading zero, a leading space or neither.
   */
  lemma ParseDateSpellings(text: string, d: CalendarDate)
    requires ValidDate(d)
    ensures ParseDate(text) == Some(d) <==> SpellsDate(text, d)
  {
    if ParseDate(text) == Some(d) {
      ParsedIsSpelling(text, d);
    }
    if SpellsDate(text, d) {
      var ms, ds :| ms in MonthSpellings(d.month) && ds in DaySpellings(d.day) &&
        text == Pad4(d.year) + "-" + ms + "-" + ds;
      SpellingParses(text, d, ms, ds);
    }
  }

  /** Formatting a valid date and parsing it back gives the date again. */
  lemma ParseFormatRoundTrip(d: CalendarDate)
    requires ValidDate(d)
    ensures ParseDate(FormatDate(d)) == Some(d)
  {
    var ms, ds := Pad2(d.month), Pad2(d.day);
    assert ms in MonthSpellings(d.month) by {
      if d.month <= 9 { assert ms == ['0', DigitChar(d.month)]; }
      else { assert ms == ['1', DigitChar(d.month - 10)]; }
    }
    assert ds in DaySpellings(d.day) by {
      if d.day <= 9 { assert ds == ['0', DigitChar(d.day)]; }
    }
    ParseDateSpellings(FormatDate(d), d);
  }

  /** Python's `_days_before_year`: the days of the years before `y`. */
  function DaysBeforeYear(y: int): (n: int)
    requires y >= 1
    ensures n >= 0
  {
    var p := y - 1;
    DivModUnique(p, 100, p / 100, p % 100);
    p * 365 + p / 4 - p / 100 + p / 400
  }

  /** Python's `_days_before_month`: the days of the months of `y` before `m`. */
  function DaysBeforeMonth(y: int, m: int): int
    requires 1 <= m <= 12
  {
    [0, 31, 59, 90, 120, 151, 181, 212, 243, 273, 304, 334][m - 1]
      + (if m > 2 && IsLeapYear(y) then 1 else 0)
  }

  /** `date.toordinal()`: 0001-01-01 is day 1. */
  function Ordinal(d: CalendarDate): (n: int)
    requires ValidDate(d)
    ensures n >= 1
  {
    DaysBeforeYear(d.year) + DaysBeforeMonth(d.year, d.month) + d.day
  }

  const MicrosecondsPerDay: nat := 86_400_000_000

  /** The midnight datetime `strptime` returns for `d`, as an instant. */
  function ToInstant(d: CalendarDate): (t: Instant)
    requires ValidDate(d)
    ensures t % MicrosecondsPerDay == 0
  {
    (Ordinal(d) - 1) * MicrosecondsPerDay
  }

  /** Calendar order: by year, then month, then day. */
  predicate Before(a: CalendarDate, b: CalendarDate) {
    || a.year < b.year
    || (a.year == b.year && a.month < b.month)
    || (a.year == b.year && a.month == b.month && a.day < b.day)
  }

  /** One more year adds one more multiple of `k` exactly when the new year is one. */
  lemma DivStep(y: int, k: int)
    requires y >= 1 && (k == 4 || k == 100 || k == 400)
    ensures y / k - (y - 1) / k == if y % k == 0 then 1 else 0
  {
    var q, r := (y - 1) / k, (y - 1) % k;
    DivModUnique(y - 1, k, q, r);
    if r + 1 == k {
      DivModUnique(y, k, q + 1, 0);
    } else {
      DivModUnique(y, k, q, r + 1);
    }
  }

  lemma DaysBeforeYearStep(y: int)
    requires y >= 1
    ensures DaysBeforeYear(y + 1) == DaysBeforeYear(y) + DaysInYear(y)
  {
    DivStep(y, 4);
    DivStep(y, 100);
    DivStep(y, 400);
    if y % 400 == 0 {
      DivModUnique(y, 100, 4 * (y / 400), 0);
    }
    if y % 100 == 0 {
      DivModUnique(y, 4, 25 * (y / 100), 0);
    }
  }

  lemma {:induction false} DaysBeforeYearMonotone(a: int, b: int)
    requires 1 <= a < b
    ensures DaysBeforeYear(a + 1) <= DaysBeforeYear(b)
    decreases b - a
  {
    if a + 1 < b {
      DaysBeforeYearMonotone(a, b - 1);
      DaysBeforeYearStep(b - 1);
    }
  }

  /** The days of a date's year up to its month's end never pass the year's end. */
  lemma MonthsWithinYear(y: int, m1: int, m2: int)
    requires 1 <= m1 <= 12 && 1 <= m2 <= 12
    ensures DaysBeforeMonth(y, m1) + DaysInMonth(y, m1) <= DaysInYear(y)
    ensures m1 < m2 ==> DaysBeforeMonth(y, m1) + DaysInMonth(y, m1) <= DaysBeforeMonth(y, m2)
  {
  }

  lemma OrdinalWithinYear(d: CalendarDate)
    requires ValidDate(d)
    ensures DaysBeforeYear(d.year) < Ordinal(d) <= DaysBeforeYear(d.year + 1)
  {
    MonthsWithinYear(d.year, d.month, d.month);
    DaysBeforeYearStep(d.year);
  }

  /** Parsed dates compare as their calendar dates do. */
  lemma ToInstantOrder(a: CalendarDate, b: CalendarDate)
    requires ValidDate(a) && ValidDate(b)
    ensures Before(a, b) <==> ToInstant(a) < ToInstant(b)
    ensures a == b <==> ToInstant(a) == ToInstant(b)
  {
    if a.year < b.year {
      OrdinalWithinYear(a);
      OrdinalWithinYear(b);
      DaysBeforeYearMonotone(a.year, b.year);
    } else if b.year < a.year {
      OrdinalWithinYear(a);
      OrdinalWithinYear(b);
      DaysBeforeYearMonotone(b.year, a.year);
    } else {
      MonthsWithinYear(a.year, a.month, b.month);
      MonthsWithinYear(a.year, b.month, a.month);
    }
  }
}
