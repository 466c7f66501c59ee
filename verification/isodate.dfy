/**
 The `YYYY-MM-DD` strings under which the application stores and compares
 dates: the date part of `toISOString()` and the date-only form that
 `new Date(string)` accepts. Years 0..9999 take four digits; other years
 take the expanded form, a sign followed by six digits.
 */
module IsoDate {
  import opened Types
  import opened Civil

  /** The JavaScript `Date` type holds at most 10^8 days either side of the epoch. */
  predicate InDateRange(d: int)
  {
    -100_000_000 <= d <= 100_000_000
  }

  function Pow10(w: nat): nat
  {
    if w == 0 then 1 else 10 * Pow10(w - 1)
  }

  predicate IsDigit(ch: char)
  {
    '0' <= ch <= '9'
  }

  predicate AllDigits(s: string)
  {
    forall i :: 0 <= i < |s| ==> IsDigit(s[i])
  }

  function DigitChar(n: int): (ch: char)
    requires 0 <= n < 10
    ensures IsDigit(ch) && ch as int - '0' as int == n
  {
    ('0' as int + n) as char
  }

  /** The last `w` decimal digits of `n`, zero-padded on the left. */
  function Fixed(n: nat, w: nat): (s: string)
    ensures |s| == w && AllDigits(s)
  {
    if w == 0 then "" else Fixed(n / 10, w - 1) + [DigitChar(n % 10)]
  }

  /** The number a string of decimal digits denotes. */
  function DigitsValue(s: string): nat
    requires AllDigits(s)
  {
    if |s| == 0 then 0
    else 10 * DigitsValue(s[..|s| - 1]) + (s[|s| - 1] as int - '0' as int)
  }

  function DigitAt(s: string, i: int): int
    requires 0 <= i < |s|
  {
    s[i] as int - '0' as int
  }

  lemma TwoDigits(s: string)
    requires |s| == 2 && AllDigits(s)
    ensures DigitsValue(s) == 10 * DigitAt(s, 0) + DigitAt(s, 1)
  {
    assert s[..1][..0] == [];
    assert DigitsValue(s[..1]) == DigitAt(s, 0);
  }

  lemma FourDigits(s: string)
    requires |s| == 4 && AllDigits(s)
    ensures DigitsValue(s) == 1000 * DigitAt(s, 0) + 100 * DigitAt(s, 1) + 10 * DigitAt(s, 2) + DigitAt(s, 3)
  {
    var p := s[..3];
    assert p[..2] == s[..2];
    TwoDigits(s[..2]);
  }

  lemma {:induction false} FixedValue(n: nat, w: nat)
    requires n < Pow10(w)
    ensures DigitsValue(Fixed(n, w)) == n
  {
    if w > 0 {
      var s := Fixed(n, w);
      assert s[..w - 1] == Fixed(n / 10, w - 1);
      FixedValue(n / 10, w - 1);
    }
  }

  /** The year field of `toISOString()`. */
  function YearText(y: int): string
  {
    if 0 <= y <= 9999 then Fixed(y, 4)
    else if y < 0 then "-" + Fixed(-y, 6)
    else "+" + Fixed(y, 6)
  }

  function FormatCivil(c: CivilDate): string
    requires Valid(c)
  {
    YearText(c.year) + "-" + Fixed(c.month + 1, 2) + "-" + Fixed(c.day, 2)
  }

  /** `formatDateToString`: the `YYYY-MM-DD` text of day number `d`. */
  function FormatDate(d: int): string
  {
    FormatCivil(CivilOf(d))
  }

  /** The year field of an ISO date string: four digits, or a sign and six digits ("-000000" is refused). */
  function ParseYear(s: string): Option<int>
  {
    if |s| == 4 && AllDigits(s) then Some(DigitsValue(s))
    else if |s| == 7 && (s[0] == '+' || s[0] == '-') && AllDigits(s[1..]) then
      var v: int := DigitsValue(s[1..]);
      if s[0] == '-' then (if v == 0 then None else Some(-v)) else Some(v)
    else None
  }

  /**
   The calendar date `new Date(s)` denotes for a date-only ISO string, or None
   where it yields an invalid date (NaN): malformed text, a month outside
   1..12 or a day outside the month.
   */
  function ParseDate(s: string): (r: Option<CivilDate>)
    ensures r.Some? ==> Valid(r.value)
  {
    if |s| < 6 then None
    else
      var n := |s|;
      if s[n - 6] == '-' && s[n - 3] == '-' && AllDigits(s[n - 5..n - 3]) && AllDigits(s[n - 2..]) then
        match ParseYear(s[..n - 6])
        case None => None
        case Some(y) =>
          var c := CivilDate(y, DigitsValue(s[n - 5..n - 3]) - 1, DigitsValue(s[n - 2..]));
          if Valid(c) then Some(c) else None
      else None
  }

  /** `new Date(s).getTime()` counted in days, or None for an invalid date. */
  function ParseDay(s: string): Option<int>
  {
    match ParseDate(s)
    case None => None
    case Some(c) => Some(DayNumber(c))
  }

  lemma {:induction false} YearTextParses(y: int)
    requires -999999 <= y <= 999999
    ensures ParseYear(YearText(y)) == Some(y)
  {
    assert Pow10(4) == 10000;
    assert Pow10(6) == 1000000;
    if 0 <= y <= 9999 {
      FixedValue(y, 4);
    } else if y < 0 {
      var s := YearText(y);
      assert s[1..] == Fixed(-y, 6);
      FixedValue(-y, 6);
    } else {
      var s := YearText(y);
      assert s[1..] == Fixed(y, 6);
      FixedValue(y, 6);
    }
  }

  /** Reading back a formatted calendar date gives the date again. */
  lemma {:induction false} ParseFormatCivil(c: CivilDate)
    requires Valid(c) && -999999 <= c.year <= 999999
    ensures ParseDate(FormatCivil(c)) == Some(c)
  {
    var yt, mt, dt := YearText(c.year), Fixed(c.month + 1, 2), Fixed(c.day, 2);
    var s := FormatCivil(c);
    var n := |s|;
    assert n == |yt| + 6;
    assert s[..n - 6] == yt;
    assert s[n - 5..n - 3] == mt;
    assert s[n - 2..] == dt;
    YearTextParses(c.year);
    assert Pow10(2) == 100;
    FixedValue(c.month + 1, 2);
    FixedValue(c.day, 2);
  }

  lemma YearsOfDateRange(d: int)
    requires InDateRange(d)
    ensures -999999 <= CivilOf(d).year <= 999999
  {
    var y := CivilOf(d).year;
    if y > 999999 {
      YearsIncrease(1000000, y);
    } else if y < -999999 {
      YearsIncrease(y + 1, -999999);
    }
  }

  /** Within the `Date` range, reading back a formatted day number gives the day again. */
  lemma ParseFormatDate(d: int)
    requires InDateRange(d)
    ensures ParseDay(FormatDate(d)) == Some(d)
  {
    YearsOfDateRange(d);
    ParseFormatCivil(CivilOf(d));
  }

  /** Within the `Date` range, different days format to different strings. */
  lemma FormatDateInjective(a: int, b: int)
    requires InDateRange(a) && InDateRange(b)
    requires FormatDate(a) == FormatDate(b)
    ensures a == b
  {
    ParseFormatDate(a);
    ParseFormatDate(b);
  }
}
