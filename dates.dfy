/**
 * Calendar dates as the form's due-date field spells them: chrono's
 * "%Y-%m-%d" pattern, four-digit year, two-digit month and day.
 */
module Dates {
  import opened Wrappers
  import opened Text

  /** A proleptic Gregorian calendar date. */
  datatype Date = Date(year: int, month: int, day: int)

  predicate IsLeapYear(y: int) {
    (y % 4 == 0 && y % 100 != 0) || y % 400 == 0
  }

  function DaysInMonth(y: int, m: int): int
    requires 1 <= m <= 12
  {
    if m == 2 then (if IsLeapYear(y) then 29 else 28)
    else if m == 4 || m == 6 || m == 9 || m == 11 then 30
    else 31
  }

  /** The dates chrono can represent: a month of the year and a day of that month. */
  predicate ValidDate(d: Date) {
    1 <= d.month <= 12 && 1 <= d.day <= DaysInMonth(d.year, d.month)
  }

  /** A date that exists: what a chrono date value always is. */
  type CalendarDate = d: Date | ValidDate(d) witness Date(1970, 1, 1)

  lemma DecimalValue2(s: string)
    requires |s| == 2 && AllDigits(s)
    ensures DecimalValue(s) == 10 * DigitValue(s[0]) + DigitValue(s[1])
  {
    var a := s[..1];
    assert a[..0] == [];
    assert DecimalValue(a) == DigitValue(s[0]);
  }

  lemma DivMod10(v: int, q: int, r: int)
    requires v == 10 * q + r && 0 <= r < 10
    ensures v / 10 == q && v % 10 == r
  {
  }

  lemma DivMod100(v: int, q: int, r: int)
    requires v == 100 * q + r && 0 <= r < 100
    ensures v / 100 == q && v % 100 == r
  {
  }

  lemma DecimalValue4(s: string)
    requires |s| == 4 && AllDigits(s)
    ensures DecimalValue(s) == 1000 * DigitValue(s[0]) + 100 * DigitValue(s[1]) + 10 * DigitValue(s[2]) + DigitValue(s[3])
  {
    assert s[..3][..2] == s[..2];
    DecimalValue2(s[..2]);
  }

  function Pad2(n: nat): (s: string)
    requires n < 100
    ensures |s| == 2 && AllDigits(s) && DecimalValue(s) == n
  {
    var s := [DigitChar(n / 10), DigitChar(n % 10)];
    DecimalValue2(s);
    s
  }

  function Pad4(n: nat): (s: string)
    requires n < 10000
    ensures |s| == 4 && AllDigits(s) && DecimalValue(s) == n
  {
    var s := Pad2(n / 100) + Pad2(n % 100);
    DecimalValue4(s);
    DecimalValue2(s[..2]);
    DecimalValue2(s[2..]);
    assert s[..2] == Pad2(n / 100) && s[2..] == Pad2(n % 100);
    s
  }

  /** Two digits are the zero-padded spelling of their value. */
  lemma Pad2OfDigits(s: string)
    requires |s| == 2 && AllDigits(s)
    ensures DecimalValue(s) < 100 && Pad2(DecimalValue(s)) == s
  {
    DecimalValue2(s);
    DivMod10(DecimalValue(s), DigitValue(s[0]), DigitValue(s[1]));
    var p := Pad2(DecimalValue(s));
    assert p[0] == s[0] && p[1] == s[1];
  }

  lemma Pad4OfDigits(s: string)
    requires |s| == 4 && AllDigits(s)
    ensures DecimalValue(s) < 10000 && Pad4(DecimalValue(s)) == s
  {
    var hi, lo := s[..2], s[2..];
    assert s == hi + lo;
    DecimalValue4(s);
    DecimalValue2(hi);
    DecimalValue2(lo);
    Pad2OfDigits(hi);
    Pad2OfDigits(lo);
    var v := DecimalValue(s);
    DivMod100(v, DecimalValue(hi), DecimalValue(lo));
  }

  /** chrono's "%Y": four digits, zero padded; years outside 0..9999 carry a sign. */
  function YearText(y: int): string {
    if 0 <= y <= 9999 then Pad4(y)
    else
      var a := if y < 0 then -y else y;
      (if y < 0 then "-" else "+") + (if a < 10000 then Pad4(a) else NatDigits(a))
  }

  /** chrono's `format("%Y-%m-%d")`. */
  function FormatDate(d: Date): string
    requires ValidDate(d)
  {
    YearText(d.year) + "-" + Pad2(d.month) + "-" + Pad2(d.day)
  }

  /** `NaiveDate::parse_from_str(s, "%Y-%m-%d")`, restricted to the fixed-width
      shape: "YYYY-MM-DD" naming a real calendar day. */
  function ParseDate(s: string): (r: Option<CalendarDate>)
    ensures r.Some? ==> ValidDate(r.value) && 0 <= r.value.year <= 9999
    ensures |s| != 10 ==> r == None
  {
    if |s| == 10 && s[4] == '-' && s[7] == '-'
       && AllDigits(s[..4]) && AllDigits(s[5..7]) && AllDigits(s[8..])
    then
      var d := Date(DecimalValue(s[..4]), DecimalValue(s[5..7]), DecimalValue(s[8..]));
      Pad4OfDigits(s[..4]);
      if ValidDate(d) then Some(d) else None
    else None
  }

  /** Formatting a date of a four-digit year and parsing the text gives the date back. */
  lemma FormatThenParse(d: Date)
    requires ValidDate(d) && 0 <= d.year <= 9999
    ensures ParseDate(FormatDate(d)) == Some(d)
  {
    var s := FormatDate(d);
    assert s[..4] == Pad4(d.year);
    assert s[5..7] == Pad2(d.month);
    assert s[8..] == Pad2(d.day);
  }

  /** Every text the parser accepts is exactly the formatted form of what it returns. */
  lemma ParseThenFormat(s: string)
    requires ParseDate(s).Some?
    ensures FormatDate(ParseDate(s).value) == s
  {
    Pad4OfDigits(s[..4]);
    Pad2OfDigits(s[5..7]);
    Pad2OfDigits(s[8..]);
    assert s == s[..4] + "-" + s[5..7] + "-" + s[8..];
  }
}
