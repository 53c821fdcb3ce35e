/**
 * The time-formatting helpers shared by the scraper and the web front end
 * (shared/sharedUtils.ts): a 12-hour clock and zero-padded minutes.
 */
module SharedUtils {
  import opened Clock

  predicate IsDigit(c: char) {
    '0' <= c <= '9'
  }

  predicate AllDigits(s: string) {
    forall i :: 0 <= i < |s| ==> IsDigit(s[i])
  }

  function DigitChar(d: nat): (c: char)
    requires d < 10
    ensures IsDigit(c) && c as int - '0' as int == d
  {
    "0123456789"[d]
  }

  /** The number a string of decimal digits denotes, most significant first. */
  function DigitsValue(s: string): nat
    requires AllDigits(s)
  {
    if s == [] then 0
    else 10 * DigitsValue(s[..|s| - 1]) + (s[|s| - 1] as int - '0' as int)
  }

  /** The decimal numeral of `n`, without leading zeros and without grouping. */
  function Decimal(n: nat): (r: string)
    ensures 1 <= |r| && AllDigits(r)
    ensures n < 10 <==> |r| == 1
    ensures n < 100 ==> |r| <= 2
    ensures |r| > 1 ==> r[0] != '0'
  {
    if n < 10 then [DigitChar(n)] else Decimal(n / 10) + [DigitChar(n % 10)]
  }

  /** Reading back the numeral of `n` gives `n`. */
  lemma {:induction false} DecimalValue(n: nat)
    ensures DigitsValue(Decimal(n)) == n
  {
    if n >= 10 {
      var r := Decimal(n);
      assert r[..|r| - 1] == Decimal(n / 10);
      DecimalValue(n / 10);
    }
  }

  /**
   * `n.toLocaleString("en-US", {minimumIntegerDigits: 2, useGrouping: false})`:
   * the decimal numeral of `n`, left-padded with '0' to at least two digits.
   */
  function ZeroPad2(n: nat): (r: string)
    ensures 2 <= |r| && AllDigits(r)
    ensures n < 100 ==> |r| == 2
    ensures DigitsValue(r) == n
    ensures |r| > 2 ==> r[0] != '0'
  {
    DecimalValue(n);
    var d := Decimal(n);
    if n < 10 then
      PadValue(d);
      "0" + d
    else d
  }

  /** A leading '0' does not change the value of a numeral. */
  lemma {:induction false} PadValue(s: string)
    requires AllDigits(s)
    ensures AllDigits("0" + s) && DigitsValue("0" + s) == DigitsValue(s)
  {
    if s != [] {
      assert ("0" + s)[..|s|] == "0" + s[..|s| - 1];
      PadValue(s[..|s| - 1]);
    }
  }

  /** The minutes of `date` as two digits. */
  function FormatMinutes(date: DateTime): (r: string)
    ensures |r| == 2 && AllDigits(r) && DigitsValue(r) == date.minute
  {
    ZeroPad2(date.minute)
  }

  /** The hour of `date` on a 12-hour clock face: midnight and noon read 12. */
  function FormatHour(date: DateTime): (r: int)
    ensures 1 <= r <= 12
    ensures r % 12 == date.hour % 12
  {
    if date.hour == 0 then 12
    else if date.hour > 12 then date.hour - 12
    else date.hour
  }

  /** The half of the day `date` falls in. */
  function FormatAmPm(date: DateTime): (r: string)
    ensures r == "AM" || r == "PM"
    ensures r == "PM" <==> date.hour >= 12
  {
    if date.hour >= 12 then "PM" else "AM"
  }

  /** The 12-hour reading and its AM/PM marker determine the 24-hour hour. */
  lemma TwelveHourClockRoundTrip(date: DateTime)
    ensures FormatHour(date) % 12 + (if FormatAmPm(date) == "PM" then 12 else 0) == date.hour
  {
  }

  /** The 12-hour reading, case by case. */
  lemma FormatHourCases(date: DateTime)
    ensures date.hour == 0 ==> FormatHour(date) == 12
    ensures 1 <= date.hour <= 12 ==> FormatHour(date) == date.hour
    ensures 13 <= date.hour ==> FormatHour(date) == date.hour - 12
  {
  }
}
