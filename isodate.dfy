/** Calendar dates and their ISO 8601 calendar-date text `YYYY-MM-DD`, the form
    Python's `date.isoformat()` writes (four-digit zero-padded year, two-digit
    month and day). */
module IsoDate {

  import opened Nullable

  /** The ranges of Python's `date` fields, before the per-month limit on
      the day. */
  type Year = y: int | 1 <= y <= 9999 witness 1
  type Month = m: int | 1 <= m <= 12 witness 1
  type Day = d: int | 1 <= d <= 31 witness 1

  /** Gregorian leap years, as Python's `calendar.isleap`. */
  predicate LeapYear(y: int) {
    y % 4 == 0 && (y % 100 != 0 || y % 400 == 0)
  }

  /** The number of days in a month of the proleptic Gregorian calendar. */
  function DaysInMonth(y: Year, m: Month): (n: int)
    ensures 28 <= n <= 31
  {
    if m == 2 then (if LeapYear(y) then 29 else 28)
    else if m == 4 || m == 6 || m == 9 || m == 11 then 30
    else 31
  }

  datatype YearMonthDay = YearMonthDay(year: Year, month: Month, day: Day)

  /** A value of Python's `date`: the day is within its month, so 2023-02-29
      and 2024-04-31 are not dates. */
  type Date = d: YearMonthDay | d.day <= DaysInMonth(d.year, d.month) witness YearMonthDay(1, 1, 1)

  predicate IsDigit(c: char) {
    '0' <= c <= '9'
  }

  predicate AllDigits(s: string) {
    forall i :: 0 <= i < |s| ==> IsDigit(s[i])
  }

  function Pow10(n: nat): (r: nat)
    ensures r >= 1
  {
    if n == 0 then 1 else 10 * Pow10(n - 1)
  }

  function DigitChar(d: nat): (c: char)
    requires d < 10
    ensures IsDigit(c)
  {
    ('0' as int + d) as char
  }

  /** `n` written in decimal with exactly `width` digits, zero-padded on the
      left (`%0<width>d`), for `n` that fits in that many digits. */
  function PaddedDecimal(n: nat, width: nat): (r: string)
    requires n < Pow10(width)
    ensures |r| == width && AllDigits(r)
  {
    if width == 0 then "" else PaddedDecimal(n / 10, width - 1) + [DigitChar(n % 10)]
  }

  /** The number a string of decimal digits denotes. */
  function DecimalValue(s: string): (n: nat)
    requires AllDigits(s)
    ensures n < Pow10(|s|)
  {
    if s == [] then 0
    else DecimalValue(s[..|s| - 1]) * 10 + (s[|s| - 1] as int - '0' as int)
  }

  /** `date.isoformat()`. */
  function IsoFormat(d: Date): (r: string)
    ensures |r| == 10 && r[4] == '-' && r[7] == '-'
    ensures AllDigits(r[..4]) && AllDigits(r[5..7]) && AllDigits(r[8..])
  {
    var s := PaddedDecimal(d.year, 4) + "-" + PaddedDecimal(d.month, 2) + "-" + PaddedDecimal(d.day, 2);
    assert s[..4] == PaddedDecimal(d.year, 4);
    assert s[5..7] == PaddedDecimal(d.month, 2);
    assert s[8..] == PaddedDecimal(d.day, 2);
    s
  }

  /** Reads a `YYYY-MM-DD` string back into a date (`date.fromisoformat`);
      `None` for any other text, and for a day past the end of its month. */
  function ParseIso(s: string): (r: Option<Date>)
  {
    if |s| == 10 && s[4] == '-' && s[7] == '-'
       && AllDigits(s[..4]) && AllDigits(s[5..7]) && AllDigits(s[8..])
    then
      var y, m, d := DecimalValue(s[..4]), DecimalValue(s[5..7]), DecimalValue(s[8..]);
      if 1 <= y <= 9999 && 1 <= m <= 12 && 1 <= d <= DaysInMonth(y, m) then Some(YearMonthDay(y, m, d)) else None
    else None
  }

  lemma {:induction false} DecimalOfPadded(n: nat, width: nat)
    requires n < Pow10(width)
    ensures DecimalValue(PaddedDecimal(n, width)) == n
  {
    if width > 0 {
      DecimalOfPadded(n / 10, width - 1);
      var s := PaddedDecimal(n, width);
      assert s[..|s| - 1] == PaddedDecimal(n / 10, width - 1);
    }
  }

  lemma {:induction false} PaddedOfDecimal(s: string)
    requires AllDigits(s)
    ensures PaddedDecimal(DecimalValue(s), |s|) == s
  {
    if s != [] {
      var init := s[..|s| - 1];
      var n := DecimalValue(s);
      PaddedOfDecimal(init);
      assert n / 10 == DecimalValue(init);
      assert n % 10 == s[|s| - 1] as int - '0' as int;
      assert s == init + [s[|s| - 1]];
    }
  }

  /** Reading back what `IsoFormat` wrote gives the same date. */
  lemma {:induction false} ParseIsoFormat(d: Date)
    ensures ParseIso(IsoFormat(d)) == Some(d)
  {
    var s := IsoFormat(d);
    assert s[..4] == PaddedDecimal(d.year, 4);
    assert s[5..7] == PaddedDecimal(d.month, 2);
    assert s[8..] == PaddedDecimal(d.day, 2);
    DecimalOfPadded(d.year, 4);
    DecimalOfPadded(d.month, 2);
    DecimalOfPadded(d.day, 2);
  }

  /** Every string `ParseIso` accepts is the ISO text of the date it reads, so
      `IsoFormat` is one-to-one from dates onto the texts `ParseIso` accepts. */
  lemma {:induction false} FormatParsedIso(s: string)
    requires ParseIso(s).Some?
    ensures IsoFormat(ParseIso(s).value) == s
  {
    PaddedOfDecimal(s[..4]);
    PaddedOfDecimal(s[5..7]);
    PaddedOfDecimal(s[8..]);
    assert s == s[..4] + "-" + s[5..7] + "-" + s[8..];
  }
}
