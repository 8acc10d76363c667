/**
 * `LocalDateTime` values (to the second) and their rendering with the pattern
 * `dd/MM/yyyy HH:mm:ss` of `DateTimeFormatter.ofPattern`.
 */
module Timestamps {
  import opened JavaStrings

  datatype DateTime = DateTime(year: int, month: int, day: int, hour: int, minute: int, second: int)

  predicate IsLeapYear(y: int) {
    y % 4 == 0 && (y % 100 != 0 || y % 400 == 0)
  }

  function DaysInMonth(y: int, m: int): int
    requires 1 <= m <= 12
  {
    if m == 2 then (if IsLeapYear(y) then 29 else 28)
    else if m == 4 || m == 6 || m == 9 || m == 11 then 30
    else 31
  }

  /** A date-time `LocalDateTime` can hold, for the years `yyyy` prints in four digits. */
  predicate ValidDateTime(d: DateTime) {
    && 1 <= d.year <= 9999
    && 1 <= d.month <= 12
    && 1 <= d.day <= DaysInMonth(d.year, d.month)
    && 0 <= d.hour < 24
    && 0 <= d.minute < 60
    && 0 <= d.second < 60
  }

  /** The values `LocalDateTime` takes here. */
  type LocalDateTime = d: DateTime | ValidDateTime(d) witness DateTime(1970, 1, 1, 0, 0, 0)

  function Pow10(n: nat): (p: nat)
    ensures p >= 1
  {
    if n == 0 then 1 else 10 * Pow10(n - 1)
  }

  /** The last `width` decimal digits of `n`, zero-padded (what `dd`, `MM`, `yyyy`, ... print). */
  function Digits(n: nat, width: nat): (s: string)
    ensures |s| == width && AllDigits(s)
  {
    if width == 0 then "" else Digits(n / 10, width - 1) + [DigitChar(n % 10)]
  }

  /** Reading the digits back gives the number, when it fits in the width. */
  lemma {:induction false} DigitsValue(n: nat, width: nat)
    requires n < Pow10(width)
    ensures DecimalValue(Digits(n, width)) == n
  {
    if width > 0 {
      assert 10 * (n / 10) <= n < 10 * Pow10(width - 1);
      DigitsValue(n / 10, width - 1);
      var s := Digits(n, width);
      assert s[..|s| - 1] == Digits(n / 10, width - 1);
    } else {
      assert n == 0;
    }
  }

  /** Three fields with a separator char between each two. */
  function Join3(a: string, x: char, b: string, y: char, c: string): string {
    a + [x] + b + [y] + c
  }

  lemma Join3Parts(a: string, x: char, b: string, y: char, c: string)
    ensures var s := Join3(a, x, b, y, c);
      && |s| == |a| + |b| + |c| + 2
      && s[..|a|] == a && s[|a|] == x
      && s[|a| + 1..|a| + 1 + |b|] == b && s[|a| + 1 + |b|] == y
      && s[|a| + |b| + 2..] == c
  {
  }

  /** `dd/MM/yyyy` */
  function FormatDate(d: LocalDateTime): string
  {
    Join3(Digits(d.day, 2), '/', Digits(d.month, 2), '/', Digits(d.year, 4))
  }

  /** `HH:mm:ss` */
  function FormatTime(d: LocalDateTime): string
  {
    Join3(Digits(d.hour, 2), ':', Digits(d.minute, 2), ':', Digits(d.second, 2))
  }

  /** `alerta.getFechaCreacion().format(DateTimeFormatter.ofPattern("dd/MM/yyyy HH:mm:ss"))`. */
  function FormatDateTime(d: LocalDateTime): (s: string)
    ensures |s| == 19
  {
    FormatDate(d) + " " + FormatTime(d)
  }

  lemma FormatDateFields(d: LocalDateTime)
    ensures var s := FormatDate(d);
      && |s| == 10 && s[2] == '/' && s[5] == '/'
      && AllDigits(s[0..2]) && DecimalValue(s[0..2]) == d.day
      && AllDigits(s[3..5]) && DecimalValue(s[3..5]) == d.month
      && AllDigits(s[6..10]) && DecimalValue(s[6..10]) == d.year
  {
    Join3Parts(Digits(d.day, 2), '/', Digits(d.month, 2), '/', Digits(d.year, 4));
    assert Pow10(2) == 100 && Pow10(4) == 10000;
    DigitsValue(d.day, 2);
    DigitsValue(d.month, 2);
    DigitsValue(d.year, 4);
    assert FormatDate(d)[6..10] == FormatDate(d)[6..];
  }

  lemma FormatTimeFields(d: LocalDateTime)
    ensures var s := FormatTime(d);
      && |s| == 8 && s[2] == ':' && s[5] == ':'
      && AllDigits(s[0..2]) && DecimalValue(s[0..2]) == d.hour
      && AllDigits(s[3..5]) && DecimalValue(s[3..5]) == d.minute
      && AllDigits(s[6..8]) && DecimalValue(s[6..8]) == d.second
  {
    Join3Parts(Digits(d.hour, 2), ':', Digits(d.minute, 2), ':', Digits(d.second, 2));
    assert Pow10(2) == 100;
    DigitsValue(d.hour, 2);
    DigitsValue(d.minute, 2);
    DigitsValue(d.second, 2);
    assert FormatTime(d)[6..8] == FormatTime(d)[6..];
  }

  /**
   * The rendering has the pattern's fixed layout, and each field reads back from its
   * own positions: the text determines the date-time.
   */
  lemma FormatDateTimeFields(d: LocalDateTime)
    ensures var s := FormatDateTime(d);
      && |s| == 19
      && s[2] == '/' && s[5] == '/' && s[10] == ' ' && s[13] == ':' && s[16] == ':'
      && AllDigits(s[0..2]) && DecimalValue(s[0..2]) == d.day
      && AllDigits(s[3..5]) && DecimalValue(s[3..5]) == d.month
      && AllDigits(s[6..10]) && DecimalValue(s[6..10]) == d.year
      && AllDigits(s[11..13]) && DecimalValue(s[11..13]) == d.hour
      && AllDigits(s[14..16]) && DecimalValue(s[14..16]) == d.minute
      && AllDigits(s[17..19]) && DecimalValue(s[17..19]) == d.second
  {
    var s, date, time := FormatDateTime(d), FormatDate(d), FormatTime(d);
    FormatDateFields(d);
    FormatTimeFields(d);
    assert s[0..2] == date[0..2] && s[3..5] == date[3..5] && s[6..10] == date[6..10];
    assert s[11..13] == time[0..2] && s[14..16] == time[3..5] && s[17..19] == time[6..8];
  }

  /** Distinct date-times render differently. */
  lemma FormatDateTimeInjective(d: LocalDateTime, e: LocalDateTime)
    requires FormatDateTime(d) == FormatDateTime(e)
    ensures d == e
  {
    FormatDateTimeFields(d);
    FormatDateTimeFields(e);
  }
}
