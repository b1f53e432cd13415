/** The run date and its `strftime('%y-%m-%d')` rendering: two-digit year
    within the century, month and day, each zero-padded, joined by dashes. */
module Dates {
  import opened Wrappers

  datatype Date = Date(year: int, month: int, day: int) {
    /** A superset of the dates Python's `datetime` accepts: each month
        is allowed 31 days. */
    predicate Valid() {
      1 <= year <= 9999 && 1 <= month <= 12 && 1 <= day <= 31
    }
  }

  function DigitChar(d: int): (c: char)
    requires 0 <= d < 10
    ensures '0' <= c <= '9'
    ensures c as int - '0' as int == d
  {
    ['0', '1', '2', '3', '4', '5', '6', '7', '8', '9'][d]
  }

  /** A number below one hundred, zero-padded to two digits. */
  function TwoDigits(n: int): (s: string)
    requires 0 <= n < 100
    ensures |s| == 2
    ensures '0' <= s[0] <= '9' && '0' <= s[1] <= '9'
  {
    [DigitChar(n / 10), DigitChar(n % 10)]
  }

  /** Reads two decimal digits back; `None` for anything else. */
  function ParseTwoDigits(s: string): (r: Option<int>)
    ensures r.Some? ==> 0 <= r.value < 100
  {
    if |s| == 2 && '0' <= s[0] <= '9' && '0' <= s[1] <= '9' then
      Some((s[0] as int - '0' as int) * 10 + (s[1] as int - '0' as int))
    else None
  }

  lemma TwoDigitsRoundTrip(n: int)
    requires 0 <= n < 100
    ensures ParseTwoDigits(TwoDigits(n)) == Some(n)
  {
  }

  /** `dt.strftime('%y-%m-%d')`. */
  function FormatYYMMDD(d: Date): (s: string)
    requires d.Valid()
    ensures |s| == 8 && s[2] == '-' && s[5] == '-'
  {
    TwoDigits(d.year % 100) + "-" + TwoDigits(d.month) + "-" + TwoDigits(d.day)
  }

  /** Reads a `yy-mm-dd` string back into its three numbers. */
  function ParseYYMMDD(s: string): (r: Option<(int, int, int)>)
  {
    if |s| == 8 && s[2] == '-' && s[5] == '-' then
      match (ParseTwoDigits(s[0..2]), ParseTwoDigits(s[3..5]), ParseTwoDigits(s[6..8]))
      case (Some(y), Some(m), Some(dd)) => Some((y, m, dd))
      case _ => None
    else None
  }

  /** The rendering loses only the century: reading it back gives the year
      modulo one hundred, the month and the day. */
  lemma FormatRoundTrip(d: Date)
    requires d.Valid()
    ensures ParseYYMMDD(FormatYYMMDD(d)) == Some((d.year % 100, d.month, d.day))
  {
    var s := FormatYYMMDD(d);
    assert s[0..2] == TwoDigits(d.year % 100);
    assert s[3..5] == TwoDigits(d.month);
    assert s[6..8] == TwoDigits(d.day);
    TwoDigitsRoundTrip(d.year % 100);
    TwoDigitsRoundTrip(d.month);
    TwoDigitsRoundTrip(d.day);
  }

  /** Two dates of one century render differently unless they are equal. */
  lemma FormatInjective(d: Date, e: Date)
    requires d.Valid() && e.Valid()
    requires d.year / 100 == e.year / 100
    requires FormatYYMMDD(d) == FormatYYMMDD(e)
    ensures d == e
  {
    FormatRoundTrip(d);
    FormatRoundTrip(e);
  }
}
