/**
 * Calendar dates as the date pickers hand them over, and date-fns
 * `format(date, 'yyyy-MM-dd')`, the rendering under which dates are stored on
 * attendance entries and student records. The round trip through `ParseYmd`
 * shows that the rendering loses nothing: distinct dates get distinct strings.
 */
module Dates {

  import opened Wrappers
  import Strings
  import opened Numbers

  /** A local calendar date (the time of day plays no part in the stored string). */
  datatype Date = Date(year: nat, month: nat, day: nat)

  predicate ValidDate(d: Date) {
    1 <= d.month <= 12 && 1 <= d.day <= 31
  }

  /** `format(d, 'yyyy-MM-dd')`. */
  function FormatYmd(d: Date): (r: string)
    ensures |r| >= 10
  {
    Pad(d.year, 4) + "-" + Pad(d.month, 2) + "-" + Pad(d.day, 2)
  }

  /** Reads a `yyyy-MM-dd` string back into a date; anything else is no date. */
  function ParseYmd(s: string): Option<Date> {
    var parts := Strings.Split(s, '-');
    if |parts| == 3 && (forall i :: 0 <= i < 3 ==> parts[i] != [] && AllDigits(parts[i])) then
      var d := Date(ParseDecimal(parts[0]), ParseDecimal(parts[1]), ParseDecimal(parts[2]));
      if ValidDate(d) then Some(d) else None
    else None
  }

  /** Every valid date is read back from its rendering. */
  lemma ParseFormat(d: Date)
    requires ValidDate(d)
    ensures ParseYmd(FormatYmd(d)) == Some(d)
  {
    var y, m, dd := Pad(d.year, 4), Pad(d.month, 2), Pad(d.day, 2);
    NoDashInDigits(y);
    NoDashInDigits(m);
    NoDashInDigits(dd);
    assert Strings.Join([y, m, dd], "-") == FormatYmd(d) by {
      assert [m, dd][1..] == [dd];
      assert Strings.Join([m, dd], "-") == m + "-" + dd;
      assert [y, m, dd][1..] == [m, dd];
      assert Strings.Join([y, m, dd], "-") == y + "-" + (m + "-" + dd);
    }
    Strings.SplitJoin([y, m, dd], '-');
    ParseDecimalOfPad(d.year, 4);
    ParseDecimalOfPad(d.month, 2);
    ParseDecimalOfPad(d.day, 2);
  }

  /** Distinct valid dates render to distinct strings, so string equality is date equality. */
  lemma FormatInjective(a: Date, b: Date)
    requires ValidDate(a) && ValidDate(b)
    ensures FormatYmd(a) == FormatYmd(b) <==> a == b
  {
    if FormatYmd(a) == FormatYmd(b) {
      ParseFormat(a);
      ParseFormat(b);
    }
  }

  /** Every valid date of a year below 10000 renders in exactly ten characters. */
  lemma FormatLength(d: Date)
    requires ValidDate(d) && d.year <= 9999
    ensures |FormatYmd(d)| == 10
  {
    DecimalLength(d.year, 4);
    DecimalLength(d.month, 2);
    DecimalLength(d.day, 2);
  }

  /** The Gregorian leap-year rule. */
  predicate LeapYear(y: nat) {
    (y % 4 == 0 && y % 100 != 0) || y % 400 == 0
  }

  function DaysInMonth(y: nat, m: nat): (n: nat)
    requires 1 <= m <= 12
    ensures 28 <= n <= 31
  {
    if m == 2 then (if LeapYear(y) then 29 else 28)
    else if m == 4 || m == 6 || m == 9 || m == 11 then 30
    else 31
  }

  /** The previous calendar day (not defined before the first day of year 0). */
  function DayBefore(d: Date): (r: Date)
    requires ValidDate(d) && (d.year > 0 || d.month > 1 || d.day > 1)
    ensures ValidDate(r) && r != d
  {
    if d.day > 1 then Date(d.year, d.month, d.day - 1)
    else if d.month > 1 then Date(d.year, d.month - 1, DaysInMonth(d.year, d.month - 1))
    else Date(d.year - 1, 12, 31)
  }
}
