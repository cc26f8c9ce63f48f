/**
 * `parse_date` and `compare_dates` of the catalog models: DD-MM-YYYY strings
 * read as proleptic Gregorian dates, compared by the difference of their day
 * numbers (Python's `date.toordinal()`).
 */
module Dates {
  import opened Wrappers
  import opened Text

  datatype Date = Date(day: int, month: int, year: int)

  predicate IsLeapYear(year: int) {
    year % 4 == 0 && (year % 100 != 0 || year % 400 == 0)
  }

  function DaysInYear(year: int): int {
    if IsLeapYear(year) then 366 else 365
  }

  function DaysInMonth(year: int, month: int): int
    requires 1 <= month <= 12
  {
    if month == 2 then (if IsLeapYear(year) then 29 else 28)
    else if month == 4 || month == 6 || month == 9 || month == 11 then 30
    else 31
  }

  /** The dates `datetime.date` accepts: years 1 to 9999, real days of real months. */
  predicate Valid(d: Date) {
    1 <= d.year <= 9999 && 1 <= d.month <= 12 && 1 <= d.day <= DaysInMonth(d.year, d.month)
  }

  /** Calendar order: by year, then month, then day. */
  predicate Before(a: Date, b: Date) {
    a.year < b.year
    || (a.year == b.year && a.month < b.month)
    || (a.year == b.year && a.month == b.month && a.day < b.day)
  }

  function DaysBeforeYear(year: int): int
    requires year >= 1
  {
    var y := year - 1;
    y * 365 + y / 4 - y / 100 + y / 400
  }

  function DaysBeforeMonth(year: int, month: int): int
    requires 1 <= month <= 12
  {
    [0, 31, 59, 90, 120, 151, 181, 212, 243, 273, 304, 334][month - 1]
    + (if month > 2 && IsLeapYear(year) then 1 else 0)
  }

  /** The day number of a date; 1 January of year 1 is day 1. */
  function Ordinal(d: Date): int
    requires Valid(d)
  {
    DaysBeforeYear(d.year) + DaysBeforeMonth(d.year, d.month) + d.day
  }

  // ----- the DD-MM-YYYY format -----

  function Field2(a: char, b: char): int
    requires IsDigit(a) && IsDigit(b)
  {
    10 * DigitValue(a) + DigitValue(b)
  }

  function Field4(a: char, b: char, c: char, d: char): int
    requires IsDigit(a) && IsDigit(b) && IsDigit(c) && IsDigit(d)
  {
    1000 * DigitValue(a) + 100 * DigitValue(b) + 10 * DigitValue(c) + DigitValue(d)
  }

  predicate Shaped(s: string) {
    |s| == 10 && s[2] == '-' && s[5] == '-'
    && IsDigit(s[0]) && IsDigit(s[1]) && IsDigit(s[3]) && IsDigit(s[4])
    && IsDigit(s[6]) && IsDigit(s[7]) && IsDigit(s[8]) && IsDigit(s[9])
  }

  /** `parse_date(s)`: the date `s` names, or None where `strptime` raises `ValueError`. */
  function ParseDate(s: string): (r: Option<Date>)
    ensures r.Some? ==> Valid(r.value)
  {
    if Shaped(s) then
      var d := Date(Field2(s[0], s[1]), Field2(s[3], s[4]), Field4(s[6], s[7], s[8], s[9]));
      if Valid(d) then Some(d) else None
    else None
  }

  /** The DD-MM-YYYY text of a date, zero-padded. */
  function FormatDate(d: Date): string
    requires Valid(d)
  {
    [DigitChar(d.day / 10), DigitChar(d.day % 10), '-',
     DigitChar(d.month / 10), DigitChar(d.month % 10), '-',
     DigitChar(d.year / 1000), DigitChar(d.year % 1000 / 100),
     DigitChar(d.year % 100 / 10), DigitChar(d.year % 10)]
  }

  lemma Field2OfDigits(n: int)
    requires 0 <= n < 100
    ensures Field2(DigitChar(n / 10), DigitChar(n % 10)) == n
  {
  }

  lemma Field4OfDigits(n: int)
    requires 0 <= n < 10000
    ensures Field4(DigitChar(n / 1000), DigitChar(n % 1000 / 100), DigitChar(n % 100 / 10), DigitChar(n % 10)) == n
  {
    var r := n % 1000;
    assert n == 1000 * (n / 1000) + r;
    assert r == 100 * (r / 100) + r % 100;
    assert r % 100 == n % 100;
    assert n % 100 == 10 * (n % 100 / 10) + n % 10;
  }

  lemma DigitCharOfValue(c: char)
    requires IsDigit(c)
    ensures DigitChar(DigitValue(c)) == c
  {
  }

  lemma SplitField2(a: char, b: char)
    requires IsDigit(a) && IsDigit(b)
    ensures Field2(a, b) / 10 == DigitValue(a) && Field2(a, b) % 10 == DigitValue(b)
  {
  }

  lemma SplitField4(a: char, b: char, c: char, d: char)
    requires IsDigit(a) && IsDigit(b) && IsDigit(c) && IsDigit(d)
    ensures var n := Field4(a, b, c, d);
      n / 1000 == DigitValue(a) && n % 1000 / 100 == DigitValue(b)
      && n % 100 / 10 == DigitValue(c) && n % 10 == DigitValue(d)
  {
    SplitYear(DigitValue(a), DigitValue(b), DigitValue(c), DigitValue(d));
  }

  /** The four decimal digits of a year, read back by division. */
  lemma SplitYear(w: int, x: int, y: int, z: int)
    requires 0 <= w < 10 && 0 <= x < 10 && 0 <= y < 10 && 0 <= z < 10
    ensures var n := 1000 * w + 100 * x + 10 * y + z;
      n / 1000 == w && n % 1000 / 100 == x && n % 100 / 10 == y && n % 10 == z
  {
    var n := 1000 * w + 100 * x + 10 * y + z;
    assert n / 1000 == w && n % 1000 == 100 * x + 10 * y + z by {
      DivMod(n, 1000, w, 100 * x + 10 * y + z);
    }
    assert (100 * x + 10 * y + z) / 100 == x by {
      DivMod(100 * x + 10 * y + z, 100, x, 10 * y + z);
    }
    assert n % 100 == 10 * y + z by {
      DivMod(n, 100, 10 * w + x, 10 * y + z);
    }
    assert (10 * y + z) / 10 == y by {
      DivMod(10 * y + z, 10, y, z);
    }
    assert n % 10 == z by {
      DivMod(n, 10, 100 * w + 10 * x + y, z);
    }
  }

  /** Euclidean division is the unique quotient and remainder. */
  lemma DivMod(n: int, b: int, q: int, r: int)
    requires 0 < b && 0 <= r < b && n == q * b + r
    ensures n / b == q && n % b == r
  {
    var q', r' := n / b, n % b;
    assert q' * b - q * b == r - r';
    if q' > q {
      assert (q' - q) * b == q' * b - q * b;
      MulAtLeast(q' - q, b);
    } else if q' < q {
      assert (q - q') * b == q * b - q' * b;
      MulAtLeast(q - q', b);
    }
  }

  lemma MulAtLeast(d: int, b: int)
    requires d >= 1 && b > 0
    ensures d * b >= b
  {
    assert d * b == (d - 1) * b + b;
    assert (d - 1) * b >= 0;
  }

  /** Every valid date is read back from its own text ... */
  lemma ParseFormat(d: Date)
    requires Valid(d)
    ensures ParseDate(FormatDate(d)) == Some(d)
  {
    var s := FormatDate(d);
    assert Shaped(s);
    Field2OfDigits(d.day);
    Field2OfDigits(d.month);
    Field4OfDigits(d.year);
    assert Field2(s[0], s[1]) == d.day;
    assert Field2(s[3], s[4]) == d.month;
    assert Field4(s[6], s[7], s[8], s[9]) == d.year;
  }

  /** ... and a string that parses is exactly the text of its date. */
  lemma FormatParse(s: string)
    requires ParseDate(s).Some?
    ensures FormatDate(ParseDate(s).value) == s
  {
    var d := ParseDate(s).value;
    var t := FormatDate(d);
    SplitField2(s[0], s[1]);
    SplitField2(s[3], s[4]);
    SplitField4(s[6], s[7], s[8], s[9]);
    forall i | 0 <= i < 10 && i != 2 && i != 5 ensures t[i] == s[i] {
      DigitCharOfValue(s[i]);
    }
    assert t[2] == s[2] && t[5] == s[5];
  }

  // ----- compare_dates -----

  /**
   * `compare_dates(a, b)`: the number of days from `b` to `a`, or None where
   * either string fails to parse (the `ValueError` the source lets escape).
   */
  function CompareDates(a: string, b: string): (r: Option<int>)
    ensures r.Some? <==> ParseDate(a).Some? && ParseDate(b).Some?
  {
    match (ParseDate(a), ParseDate(b))
    case (Some(x), Some(y)) => Some(Ordinal(x) - Ordinal(y))
    case _ => None
  }

  lemma DaysBeforeYearStep(year: int)
    requires year >= 1
    ensures DaysBeforeYear(year + 1) == DaysBeforeYear(year) + DaysInYear(year)
  {
    var y := year - 1;
    assert (y + 1) / 4 == y / 4 + (if year % 4 == 0 then 1 else 0);
    assert (y + 1) / 100 == y / 100 + (if year % 100 == 0 then 1 else 0);
    assert (y + 1) / 400 == y / 400 + (if year % 400 == 0 then 1 else 0);
  }

  lemma {:induction false} DaysBeforeYearMonotone(a: int, b: int)
    requires 1 <= a <= b
    ensures DaysBeforeYear(a) + (if a < b then DaysInYear(a) else 0) <= DaysBeforeYear(b)
    decreases b - a
  {
    if a < b {
      DaysBeforeYearStep(a);
      DaysBeforeYearMonotone(a + 1, b);
    }
  }

  /** A month's days fit before the start of every later month, and in its year. */
  lemma DaysBeforeMonthMonotone(year: int, m1: int, m2: int)
    requires 1 <= m1 <= 12
    requires m1 < m2 <= 12
    ensures DaysBeforeMonth(year, m1) + DaysInMonth(year, m1) <= DaysBeforeMonth(year, m2)
  {
  }

  lemma DaysBeforeMonthBound(year: int, m: int)
    requires 1 <= m <= 12
    ensures DaysBeforeMonth(year, m) + DaysInMonth(year, m) <= DaysInYear(year)
  {
  }

  /** Day numbers strictly follow calendar order. */
  lemma OrdinalMonotone(a: Date, b: Date)
    requires Valid(a) && Valid(b) && Before(a, b)
    ensures Ordinal(a) < Ordinal(b)
  {
    if a.year < b.year {
      DaysBeforeMonthBound(a.year, a.month);
      DaysBeforeYearMonotone(a.year, b.year);
    } else if a.month < b.month {
      DaysBeforeMonthMonotone(a.year, a.month, b.month);
    }
  }

  /**
   * For valid date strings, `compare_dates` is positive exactly when the first
   * date is later, negative exactly when it is earlier, and zero exactly when
   * the two strings are equal; hence it is antisymmetric and zero on equal arguments.
   */
  lemma CompareDatesOrder(a: string, b: string)
    requires ParseDate(a).Some? && ParseDate(b).Some?
    ensures var x, y := ParseDate(a).value, ParseDate(b).value;
      && (CompareDates(a, b).value > 0 <==> Before(y, x))
      && (CompareDates(a, b).value < 0 <==> Before(x, y))
      && (CompareDates(a, b).value == 0 <==> a == b)
    ensures CompareDates(a, a) == Some(0)
    ensures CompareDates(a, b).value > 0 <==> CompareDates(b, a).value < 0
  {
    var x, y := ParseDate(a).value, ParseDate(b).value;
    if Before(x, y) {
      OrdinalMonotone(x, y);
    } else if Before(y, x) {
      OrdinalMonotone(y, x);
    } else {
      assert x == y;
      FormatParse(a);
      FormatParse(b);
    }
  }
}
