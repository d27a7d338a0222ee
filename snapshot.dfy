/**
 * The monthly snapshot file name: `strftime('%d-%b-%Y')` of the first day of
 * the month, used twice in `<base>/<date>/<date>-<kind>.tsv`.
 */
module Snapshot {
  import opened Wrappers
  import opened PyStrings

  const MonthAbbreviations: seq<string> :=
    ["Jan", "Feb", "Mar", "Apr", "May", "Jun", "Jul", "Aug", "Sep", "Oct", "Nov", "Dec"]

  predicate ValidMonth(year: int, month: int)
  {
    1000 <= year <= 9999 && 1 <= month <= 12
  }

  /** `%Y` for a four-digit year. */
  function FourDigits(year: int): string
    requires 1000 <= year <= 9999
  {
    [DigitChar(year / 1000), DigitChar(year / 100 % 10), DigitChar(year / 10 % 10), DigitChar(year % 10)]
  }

  /** `first.strftime('%d-%b-%Y')` where `first` is day 1 of the month: `01-Mar-2023`. */
  function FirstOfMonth(year: int, month: int): (d: string)
    requires ValidMonth(year, month)
    ensures |d| == 11
  {
    "01-" + MonthAbbreviations[month - 1] + "-" + FourDigits(year)
  }

  function MonthNumber(abbreviation: string): Option<int>
  {
    if abbreviation == "Jan" then Some(1)
    else if abbreviation == "Feb" then Some(2)
    else if abbreviation == "Mar" then Some(3)
    else if abbreviation == "Apr" then Some(4)
    else if abbreviation == "May" then Some(5)
    else if abbreviation == "Jun" then Some(6)
    else if abbreviation == "Jul" then Some(7)
    else if abbreviation == "Aug" then Some(8)
    else if abbreviation == "Sep" then Some(9)
    else if abbreviation == "Oct" then Some(10)
    else if abbreviation == "Nov" then Some(11)
    else if abbreviation == "Dec" then Some(12)
    else None
  }

  /** Reads a `01-Mon-YYYY` segment back into (year, month). */
  function ParseFirstOfMonth(d: string): Option<(int, int)>
  {
    if |d| == 11 && d[..3] == "01-" && d[6] == '-' && MonthNumber(d[3..6]).Some?
       && IsDigit(d[7]) && IsDigit(d[8]) && IsDigit(d[9]) && IsDigit(d[10])
    then
      Some((1000 * DigitValue(d[7]) + 100 * DigitValue(d[8]) + 10 * DigitValue(d[9]) + DigitValue(d[10]),
            MonthNumber(d[3..6]).value))
    else None
  }

  lemma {:induction false} FourDigitsRoundTrip(year: int)
    requires 1000 <= year <= 9999
    ensures var s := FourDigits(year);
      IsDigit(s[0]) && IsDigit(s[1]) && IsDigit(s[2]) && IsDigit(s[3])
      && 1000 * DigitValue(s[0]) + 100 * DigitValue(s[1]) + 10 * DigitValue(s[2]) + DigitValue(s[3]) == year
  {
    var a, b, c, e := year / 1000, year / 100 % 10, year / 10 % 10, year % 10;
    assert year / 100 == 10 * a + b;
    assert year / 10 == 10 * (year / 100) + c;
    assert year == 10 * (year / 10) + e;
  }

  /** The date segment determines the month it was made from. */
  lemma {:induction false} FirstOfMonthRoundTrip(year: int, month: int)
    requires ValidMonth(year, month)
    ensures ParseFirstOfMonth(FirstOfMonth(year, month)) == Some((year, month))
  {
    var d := FirstOfMonth(year, month);
    FourDigitsRoundTrip(year);
    assert d[3..6] == MonthAbbreviations[month - 1];
    assert d[7..] == FourDigits(year);
  }

  /**
   * `f'{base}/{formatted}/{formatted}-{file_name}.tsv'`: after `base/` comes a
   * date segment that reads back as (year, month), then `/`, the same segment
   * again, and `-<file_name>.tsv`.
   */
  function SnapshotUrl(base: string, fileName: string, year: int, month: int): (url: string)
    requires ValidMonth(year, month)
    ensures var n := |base|;
      |url| == n + 24 + |fileName| + 5
      && url[..n + 1] == base + "/"
      && ParseFirstOfMonth(url[n + 1..n + 12]) == Some((year, month))
      && url[n + 12] == '/'
      && url[n + 13..n + 24] == url[n + 1..n + 12]
      && url[n + 24..] == "-" + fileName + ".tsv"
  {
    var formatted := FirstOfMonth(year, month);
    FirstOfMonthRoundTrip(year, month);
    var url := base + "/" + formatted + "/" + formatted + "-" + fileName + ".tsv";
    assert url[|base| + 1..|base| + 12] == formatted;
    assert url[|base| + 13..|base| + 24] == formatted;
    url
  }
}
