/** The period key columns derived from a transaction date: `Bulan`, the
    month as the string YYYY-MM, and `Minggu`, the ISO week number alone as a
    decimal string, with no year. */
module PeriodKeys {
  import opened Calendar

  /** "Bulanan" (monthly) or "Mingguan" (weekly) display mode. */
  datatype Mode = Monthly | Weekly

  predicate IsDigit(c: char) {
    '0' <= c <= '9'
  }

  function DigitChar(n: int): (c: char)
    requires 0 <= n <= 9
    ensures IsDigit(c)
    ensures c as int - '0' as int == n
  {
    ('0' as int + n) as char
  }

  /** The number a string of decimal digits spells, most significant digit first. */
  function DigitsValue(s: string): (v: int)
    requires forall i | 0 <= i < |s| :: IsDigit(s[i])
    ensures 0 <= v
  {
    if s == [] then 0
    else
      assert IsDigit(s[|s| - 1]);
      DigitsValue(s[..|s| - 1]) * 10 + (s[|s| - 1] as int - '0' as int)
  }

  /** Decimal notation of n without leading zeros, as Python's `str` of an integer. */
  function DecimalString(n: nat): (s: string)
    ensures 1 <= |s|
    ensures forall i | 0 <= i < |s| :: IsDigit(s[i])
    ensures s[0] == '0' ==> n == 0 && |s| == 1
    ensures |s| == 1 <==> n < 10
  {
    if n < 10 then [DigitChar(n)] else DecimalString(n / 10) + [DigitChar(n % 10)]
  }

  /** Reading the decimal string back gives the number. */
  lemma {:induction false} DecimalStringValue(n: nat)
    ensures DigitsValue(DecimalString(n)) == n
  {
    var s := DecimalString(n);
    if n < 10 {
      assert s[..0] == [];
    } else {
      assert s[..|s| - 1] == DecimalString(n / 10);
      DecimalStringValue(n / 10);
    }
  }

  /** Different numbers have different decimal strings. */
  lemma {:induction false} DecimalStringInjective(a: nat, b: nat)
    ensures DecimalString(a) == DecimalString(b) <==> a == b
  {
    if DecimalString(a) == DecimalString(b) {
      var s := DecimalString(a);
      if 10 <= a {
        var k := |s| - 1;
        assert s[..k] == DecimalString(a / 10) && s[..k] == DecimalString(b / 10);
        DecimalStringInjective(a / 10, b / 10);
        assert s[k] == DigitChar(a % 10) && s[k] == DigitChar(b % 10);
      } else {
        assert s[0] == DigitChar(a) && s[0] == DigitChar(b);
      }
    }
  }

  /** n written with exactly `width` digits, zero padded on the left. */
  function PaddedDigits(n: nat, width: nat): (s: string)
    requires n < Power10(width)
    ensures |s| == width
    ensures forall i | 0 <= i < |s| :: IsDigit(s[i])
  {
    if width == 0 then [] else PaddedDigits(n / 10, width - 1) + [DigitChar(n % 10)]
  }

  /** Reading the padded digits back gives the number. */
  lemma {:induction false} PaddedDigitsValue(n: nat, width: nat)
    requires n < Power10(width)
    ensures DigitsValue(PaddedDigits(n, width)) == n
  {
    if width > 0 {
      var s := PaddedDigits(n, width);
      assert s[..width - 1] == PaddedDigits(n / 10, width - 1);
      PaddedDigitsValue(n / 10, width - 1);
    }
  }

  function Power10(k: nat): (p: nat)
    ensures 1 <= p
  {
    if k == 0 then 1 else 10 * Power10(k - 1)
  }

  /** Zero-padded numbers of one width are equal only when their values are. */
  lemma {:induction false} PaddedDigitsInjective(a: nat, b: nat, width: nat)
    requires a < Power10(width) && b < Power10(width)
    ensures PaddedDigits(a, width) == PaddedDigits(b, width) <==> a == b
  {
    if PaddedDigits(a, width) == PaddedDigits(b, width) && width > 0 {
      var s := PaddedDigits(a, width);
      assert s[..width - 1] == PaddedDigits(a / 10, width - 1) == PaddedDigits(b / 10, width - 1);
      PaddedDigitsInjective(a / 10, b / 10, width - 1);
      assert s[width - 1] == DigitChar(a % 10) && s[width - 1] == DigitChar(b % 10);
    }
  }

  /** The `Bulan` column: the month period of the date printed as YYYY-MM. */
  function MonthlyKey(d: CalendarDate): (k: string)
    ensures |k| == 7 && k[4] == '-'
    ensures forall i | 0 <= i < 7 && i != 4 :: IsDigit(k[i])
  {
    PaddedDigits(d.year, 4) + "-" + PaddedDigits(d.month, 2)
  }

  /** The key spells the year in its first four digits and the month in its last two. */
  lemma MonthlyKeySpells(d: CalendarDate)
    ensures DigitsValue(MonthlyKey(d)[..4]) == d.year && DigitsValue(MonthlyKey(d)[5..]) == d.month
  {
    var k := MonthlyKey(d);
    assert k[..4] == PaddedDigits(d.year, 4) && k[5..] == PaddedDigits(d.month, 2);
    PaddedDigitsValue(d.year, 4);
    PaddedDigitsValue(d.month, 2);
  }

  /** The `Minggu` column: the ISO week number of the date, without its year. */
  function WeeklyKey(d: CalendarDate): (k: string)
    ensures 1 <= |k| <= 2
  {
    DecimalString(IsoWeek(d))
  }

  /** The key spells the ISO week number, with no leading zero. */
  lemma WeeklyKeySpells(d: CalendarDate)
    ensures forall i | 0 <= i < |WeeklyKey(d)| :: IsDigit(WeeklyKey(d)[i])
    ensures WeeklyKey(d)[0] != '0' && DigitsValue(WeeklyKey(d)) == IsoWeek(d)
  {
    DecimalStringValue(IsoWeek(d));
  }

  /** The key of the period column the display mode selects (`periode_col`). */
  function PeriodKey(mode: Mode, d: CalendarDate): string {
    match mode
    case Monthly => MonthlyKey(d)
    case Weekly => WeeklyKey(d)
  }

  /** Two dates share a monthly key exactly when they share year and month. */
  lemma MonthlyKeySameMonth(d1: CalendarDate, d2: CalendarDate)
    ensures MonthlyKey(d1) == MonthlyKey(d2) <==> d1.year == d2.year && d1.month == d2.month
  {
    var y1, y2 := PaddedDigits(d1.year, 4), PaddedDigits(d2.year, 4);
    var m1, m2 := PaddedDigits(d1.month, 2), PaddedDigits(d2.month, 2);
    if MonthlyKey(d1) == MonthlyKey(d2) {
      assert MonthlyKey(d1)[..4] == y1 && MonthlyKey(d2)[..4] == y2;
      assert MonthlyKey(d1)[5..] == m1 && MonthlyKey(d2)[5..] == m2;
    }
    PaddedDigitsInjective(d1.year, d2.year, 4);
    PaddedDigitsInjective(d1.month, d2.month, 2);
  }

  /** Two dates share a weekly key exactly when they have the same ISO week
      number, whatever their years: week 2 of 2023 and week 2 of 2024 collide. */
  lemma WeeklyKeySameWeek(d1: CalendarDate, d2: CalendarDate)
    ensures WeeklyKey(d1) == WeeklyKey(d2) <==> IsoWeek(d1) == IsoWeek(d2)
  {
    DecimalStringInjective(IsoWeek(d1), IsoWeek(d2));
  }

  /** In either mode two dates share a key exactly when they fall in the same
      period of that mode: the same month, or the same ISO week number. */
  lemma PeriodKeySamePeriod(mode: Mode, d1: CalendarDate, d2: CalendarDate)
    ensures PeriodKey(mode, d1) == PeriodKey(mode, d2)
      <==> if mode == Monthly then d1.year == d2.year && d1.month == d2.month else IsoWeek(d1) == IsoWeek(d2)
  {
    match mode
    case Monthly => MonthlyKeySameMonth(d1, d2);
    case Weekly => WeeklyKeySameWeek(d1, d2);
  }
}
