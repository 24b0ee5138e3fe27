/** The stored date text: how the tracker writes it and how the monthly summary reads the month back. */
module Dates {
  import opened Results

  /** A calendar date as the clock hands it to the formatter. */
  datatype Date = Date(day: int, month: int, year: int)

  /** Field ranges of a clock date; years are the four-digit ones, which `%Y` renders without padding. */
  predicate ValidDate(d: Date) {
    1 <= d.day <= 31 && 1 <= d.month <= 12 && 1000 <= d.year <= 9999
  }

  predicate IsDigit(c: char) {
    '0' <= c <= '9'
  }

  predicate AllDigits(s: string) {
    forall i :: 0 <= i < |s| ==> IsDigit(s[i])
  }

  function DigitValue(c: char): int
    requires IsDigit(c)
  {
    c as int - '0' as int
  }

  function DigitChar(n: int): (c: char)
    requires 0 <= n <= 9
    ensures IsDigit(c) && DigitValue(c) == n
  {
    ('0' as int + n) as char
  }

  function Pow10(k: nat): nat {
    if k == 0 then 1 else 10 * Pow10(k - 1)
  }

  /** Decimal value of a string of ASCII digits, most significant digit first. */
  function DigitsValue(s: string): (n: nat)
    requires AllDigits(s)
    ensures n < Pow10(|s|)
  {
    if |s| == 0 then 0 else DigitsValue(s[..|s| - 1]) * 10 + DigitValue(s[|s| - 1])
  }

  /** Zero-padded rendering of `n` in exactly `width` digits, as strftime's `%d`, `%m` and `%Y` produce it;
      reading the digits back yields `n`. */
  function Pad(n: nat, width: nat): (s: string)
    requires n < Pow10(width)
    ensures |s| == width && AllDigits(s)
    ensures DigitsValue(s) == n
  {
    if width == 0 then ""
    else
      var front := Pad(n / 10, width - 1);
      var s := front + [DigitChar(n % 10)];
      assert s[..width - 1] == front;
      s
  }

  /** `strftime("%d-%m-%Y")`: day, month and year zero-padded and joined by dashes. */
  function FormatDate(d: Date): (s: string)
    requires ValidDate(d)
    ensures |s| == 10 && s[2] == '-' && s[5] == '-'
    ensures AllDigits(s[..2]) && AllDigits(s[3..5]) && AllDigits(s[6..])
    ensures DigitsValue(s[..2]) == d.day && DigitsValue(s[3..5]) == d.month && DigitsValue(s[6..]) == d.year
  {
    var s := Pad(d.day, 2) + "-" + Pad(d.month, 2) + "-" + Pad(d.year, 4);
    assert s[..2] == Pad(d.day, 2) && s[3..5] == Pad(d.month, 2) && s[6..] == Pad(d.year, 4);
    s
  }

  /** Python's slice `s[lo:hi]` for 0 <= lo <= hi: bounds past the end are clipped, never an error. */
  function Slice(s: string, lo: nat, hi: nat): (t: string)
    requires lo <= hi
    ensures |t| == if |s| <= lo then 0 else if |s| <= hi then |s| - lo else hi - lo
    ensures forall k :: 0 <= k < |t| ==> lo + k < |s| && t[k] == s[lo + k]
  {
    if |s| <= lo then "" else if |s| <= hi then s[lo..] else s[lo..hi]
  }

  /** Python's `int(text)` on the texts it meets here: a non-empty run of ASCII digits converts,
      anything else raises ValueError (None). */
  function ParseInt(text: string): (r: Option<int>)
    ensures r.Some? <==> |text| > 0 && AllDigits(text)
    ensures r.Some? ==> 0 <= r.value < Pow10(|text|)
  {
    if |text| > 0 && AllDigits(text) then Some(DigitsValue(text)) else None
  }

  /** `int()` reads a digit run as its decimal value: written back zero-padded to the run's length, the
      value gives the run again. */
  lemma ParseIntIsDecimal(text: string)
    ensures ParseInt(text).Some? ==> Pad(ParseInt(text).value, |text|) == text
  {
    if ParseInt(text).Some? {
      PadOfDigitsValue(text);
    }
  }

  /** Writing the value of a digit string back with as many digits as it had gives the string again. */
  lemma {:induction false} PadOfDigitsValue(s: string)
    requires AllDigits(s)
    ensures Pad(DigitsValue(s), |s|) == s
  {
    if |s| > 0 {
      var front := s[..|s| - 1];
      var last := s[|s| - 1];
      PadOfDigitsValue(front);
      var n := DigitsValue(s);
      assert n / 10 == DigitsValue(front) && n % 10 == DigitValue(last);
      assert DigitChar(DigitValue(last)) == last;
      assert s == front + [last];
    }
  }

  /** The month field of a stored date, `date[3:5]`. */
  function MonthField(date: string): string {
    Slice(date, 3, 5)
  }

  /** `int(date[3:5])`: the month number a stored date carries, or None where the conversion raises. */
  function MonthOf(date: string): (r: Option<int>)
    ensures r.Some? ==> 0 <= r.value <= 99
    ensures r.Some? ==> 5 <= |date| || (|date| == 4 && IsDigit(date[3]))
  {
    assert Pow10(2) == 100 && Pow10(1) == 10;
    ParseInt(MonthField(date))
  }

  /** Reading the month back from a date the formatter wrote gives the month it was written from. */
  lemma MonthOfFormattedDate(d: Date)
    requires ValidDate(d)
    ensures MonthOf(FormatDate(d)) == Some(d.month)
  {
    var s := FormatDate(d);
    assert s[3..5] == Pad(d.month, 2);
    assert MonthField(s) == s[3..5];
  }
}
