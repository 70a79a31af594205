/** The "m:ss" rendering of a QTime that the timer label shows.

    A QTime is modelled as the number of seconds since midnight, so a valid
    time is a natural number below SecondsPerDay. The format "m:ss" prints the
    minute of the hour without a leading zero, a colon, and the second of the
    minute as two digits; the hour is not printed at all.
 */
module TimeText {

  datatype Option<T> = None | Some(value: T)

  /** QTime holds a time of day, 00:00:00 to 23:59:59. */
  const SecondsPerDay: nat := 86400

  const SecondsPerHour: nat := 3600

  predicate IsDigit(c: char) {
    '0' <= c <= '9'
  }

  predicate AllDigits(s: string) {
    forall i :: 0 <= i < |s| ==> IsDigit(s[i])
  }

  function Digit(n: nat): (c: char)
    requires n < 10
    ensures IsDigit(c)
  {
    ('0' as int + n) as char
  }

  function DigitValue(c: char): (n: nat)
    requires IsDigit(c)
    ensures n < 10
  {
    c as int - '0' as int
  }

  /** Decimal digits of n, most significant first, without leading zeros. */
  function Decimal(n: nat): (s: string)
    ensures 1 <= |s| && AllDigits(s)
    ensures s[0] == '0' ==> n == 0
    ensures |s| == 1 <==> n < 10
  {
    if n < 10 then [Digit(n)] else Decimal(n / 10) + [Digit(n % 10)]
  }

  /** The number a string of decimal digits denotes. */
  function DecimalValue(s: string): (n: nat)
    requires AllDigits(s)
  {
    if s == [] then 0 else 10 * DecimalValue(s[..|s| - 1]) + DigitValue(s[|s| - 1])
  }

  lemma {:induction false} DecimalRoundTrip(n: nat)
    ensures DecimalValue(Decimal(n)) == n
  {
    var s := Decimal(n);
    if n < 10 {
      assert s[..|s| - 1] == [];
    } else {
      assert s[..|s| - 1] == Decimal(n / 10);
      DecimalRoundTrip(n / 10);
    }
  }

  /** Two digits with a leading zero, as "ss" prints the seconds. */
  function TwoDigits(n: nat): (s: string)
    requires n < 100
    ensures |s| == 2 && AllDigits(s)
  {
    [Digit(n / 10), Digit(n % 10)]
  }

  /** QTime::toString("m:ss"): minute of the hour, a colon, second of the minute. */
  function Format(t: nat): (r: string)
    requires t < SecondsPerDay
    ensures 4 <= |r| <= 5 && r[|r| - 3] == ':'
    ensures AllDigits(r[..|r| - 3]) && AllDigits(r[|r| - 2..])
  {
    var text := Decimal(t / 60 % 60) + [':'] + TwoDigits(t % 60);
    assert text[..|text| - 3] == Decimal(t / 60 % 60);
    assert text[|text| - 2..] == TwoDigits(t % 60);
    text
  }

  /** The minute is not padded: it takes one character below ten minutes past
      the hour, two otherwise, and starts with '0' only when it is 0. */
  lemma FormatUnpadded(t: nat)
    requires t < SecondsPerDay
    ensures |Format(t)| == 4 <==> t / 60 % 60 < 10
    ensures Format(t)[0] == '0' ==> t / 60 % 60 == 0
  {
    var r := Format(t);
    assert r[..|r| - 3] == Decimal(t / 60 % 60);
  }

  /** Reads an "m:ss" text back as a number of seconds; None when the text
      does not have the shape "digits:dd" with a second below 60. */
  function Parse(s: string): (r: Option<nat>)
  {
    if |s| < 4 || s[|s| - 3] != ':' then None
    else
      var minutes, seconds := s[..|s| - 3], s[|s| - 2..];
      if !AllDigits(minutes) || !AllDigits(seconds) || DecimalValue(seconds) >= 60 then None
      else Some(60 * DecimalValue(minutes) + DecimalValue(seconds))
  }

  /** Under one hour the label names the time exactly: reading it back gives t. */
  lemma FormatRoundTrip(t: nat)
    requires t < SecondsPerHour
    ensures Parse(Format(t)) == Some(t)
  {
    var r := Format(t);
    assert t / 60 % 60 == t / 60;
    assert r[..|r| - 3] == Decimal(t / 60);
    assert r[|r| - 2..] == TwoDigits(t % 60);
    DecimalRoundTrip(t / 60);
    var ss := TwoDigits(t % 60);
    assert ss[..1] == [Digit(t % 60 / 10)];
    assert DecimalValue(ss) == t % 60;
  }

  /** Under one hour two different times never show the same text. */
  lemma FormatInjective(a: nat, b: nat)
    requires a < SecondsPerHour && b < SecondsPerHour
    requires Format(a) == Format(b)
    ensures a == b
  {
    FormatRoundTrip(a);
    FormatRoundTrip(b);
  }

  /** "m:ss" has no hour field: a time an hour later shows the same text. */
  lemma FormatDropsHours(t: nat)
    requires t + SecondsPerHour < SecondsPerDay
    ensures Format(t + SecondsPerHour) == Format(t)
  {
    var m, s := t / 60, t % 60;
    assert t + 3600 == 60 * (m + 60) + s;
    assert (t + 3600) / 60 == m + 60 && (t + 3600) % 60 == s;
    assert (m + 60) % 60 == m % 60;
  }

  /** The label texts the countdown shows for the preset durations and its last steps. */
  lemma FormatExamples()
    ensures Format(240) == "4:00" && Format(180) == "3:00" && Format(150) == "2:30"
    ensures Format(65) == "1:05" && Format(0) == "0:00"
  {
  }
}
