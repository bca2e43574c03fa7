/** Calendar dates as Python's `datetime` handles them: the proleptic Gregorian calendar
    over the years 1 to 9999, day ordinals (`date.toordinal`), adding a number of days
    (`date + timedelta(days=n)`, which fails outside the year range), rendering with
    `strftime("%Y/%m/%d")` and parsing with `strptime(s, "%Y-%m-%d")`. */
module Calendar {
  import opened Common

  datatype Date = Date(year: int, month: int, day: int)

  const MinYear := 1
  const MaxYear := 9999
  const FirstDate := Date(MinYear, 1, 1)
  const LastDate := Date(MaxYear, 12, 31)

  predicate IsLeap(y: int)
  {
    y % 4 == 0 && (y % 100 != 0 || y % 400 == 0)
  }

  function DaysInMonth(y: int, m: int): int
    requires 1 <= m <= 12
  {
    if m == 2 then (if IsLeap(y) then 29 else 28)
    else if m == 4 || m == 6 || m == 9 || m == 11 then 30
    else 31
  }

  function DaysInYear(y: int): int
  {
    if IsLeap(y) then 366 else 365
  }

  predicate Valid(d: Date)
  {
    MinYear <= d.year <= MaxYear && 1 <= d.month <= 12 && 1 <= d.day <= DaysInMonth(d.year, d.month)
  }

  /** Days in the years before `y`, in closed form as `datetime` computes them. */
  function DaysBeforeYear(y: int): int
  {
    var p := y - 1;
    p * 365 + p / 4 - p / 100 + p / 400
  }

  /** Days before the first of month `m` in a common year; month 13 stands for the
      whole year. */
  function MonthStart(m: int): int
    requires 1 <= m <= 13
  {
    match m
    case 1 => 0
    case 2 => 31
    case 3 => 59
    case 4 => 90
    case 5 => 120
    case 6 => 151
    case 7 => 181
    case 8 => 212
    case 9 => 243
    case 10 => 273
    case 11 => 304
    case 12 => 334
    case _ => 365
  }

  /** Days in the months of year `y` before month `m`. */
  function DaysBeforeMonth(y: int, m: int): int
    requires 1 <= m <= 13
  {
    MonthStart(m) + (if m > 2 && IsLeap(y) then 1 else 0)
  }

  /** `date.toordinal()`: 0001-01-01 is day 1. */
  function Ordinal(d: Date): int
    requires Valid(d)
  {
    DaysBeforeYear(d.year) + DaysBeforeMonth(d.year, d.month) + d.day
  }

  /** The last day of Python's `date.max`. */
  const MaxOrdinal := 3652059

  /** Consecutive month starts differ by the length of the month. */
  lemma MonthStep(y: int, m: int)
    requires 1 <= m <= 12
    ensures DaysBeforeMonth(y, m + 1) == DaysBeforeMonth(y, m) + DaysInMonth(y, m)
  {
  }

  /** Consecutive year starts differ by the length of the year. */
  lemma YearStep(y: int)
    ensures DaysBeforeYear(y + 1) == DaysBeforeYear(y) + DaysInYear(y)
  {
    DivStep(y - 1, 4);
    DivStep(y - 1, 100);
    DivStep(y - 1, 400);
  }

  /** One more day crosses a multiple of `k` exactly when it lands on one. */
  lemma DivStep(p: int, k: int)
    requires k == 4 || k == 100 || k == 400
    ensures (p + 1) / k == p / k + (if (p + 1) % k == 0 then 1 else 0)
  {
    var q := p / k;
    if p % k == k - 1 {
      assert p + 1 == k * (q + 1);
    } else {
      assert p + 1 == k * q + (p % k + 1);
    }
  }

  /** Each year before has at least 365 days. */
  lemma YearLow(y: int)
    requires MinYear <= y
    ensures 365 * (y - 1) <= DaysBeforeYear(y)
  {
  }

  /** The years before the last one fit before it. */
  lemma YearHigh(y: int)
    requires MinYear <= y <= MaxYear
    ensures DaysBeforeYear(y) + DaysInYear(y) <= MaxOrdinal
    ensures y < MaxYear ==> DaysBeforeYear(y) + DaysInYear(y) <= MaxOrdinal - 365
  {
    LastYearStart();
    if y < MaxYear {
      DaysBeforeYearGrows(y + 1, MaxYear);
      YearStep(y);
    }
  }

  lemma LastYearStart()
    ensures DaysBeforeYear(MaxYear) == MaxOrdinal - 365
  {
  }

  /** The days of a month fit in its year. */
  lemma MonthBounds(d: Date)
    requires Valid(d)
    ensures 0 <= DaysBeforeMonth(d.year, d.month)
    ensures DaysBeforeMonth(d.year, d.month) == 0 <==> d.month == 1
    ensures DaysBeforeMonth(d.year, d.month) + d.day <= DaysInYear(d.year)
    ensures DaysBeforeMonth(d.year, d.month) + d.day == DaysInYear(d.year) ==> d.month == 12 && d.day == 31
  {
  }

  lemma {:induction false} DaysBeforeYearGrows(a: int, b: int)
    requires a <= b
    ensures DaysBeforeYear(a) + 365 * (b - a) <= DaysBeforeYear(b)
    decreases b - a
  {
    if a < b {
      DaysBeforeYearGrows(a, b - 1);
      YearStep(b - 1);
    }
  }

  lemma FirstOrdinal()
    ensures Ordinal(FirstDate) == 1
  {
  }

  lemma LastOrdinal()
    ensures Ordinal(LastDate) == MaxOrdinal
  {
  }

  /** Ordinals are positive and within range. */
  lemma OrdinalRange(d: Date)
    requires Valid(d)
    ensures 1 <= Ordinal(d) <= MaxOrdinal
  {
    YearLow(d.year);
    YearHigh(d.year);
    MonthBounds(d);
  }

  /** Only the first date has ordinal 1. */
  lemma OrdinalLow(d: Date)
    requires Valid(d)
    ensures 1 <= Ordinal(d)
    ensures Ordinal(d) == 1 <==> d == FirstDate
  {
    YearLow(d.year);
    MonthBounds(d);
    if d == FirstDate {
      FirstOrdinal();
    }
  }

  /** Only the last date has the largest ordinal. */
  lemma OrdinalHigh(d: Date)
    requires Valid(d)
    ensures Ordinal(d) <= MaxOrdinal
    ensures Ordinal(d) == MaxOrdinal <==> d == LastDate
  {
    YearHigh(d.year);
    MonthBounds(d);
    if d == LastDate {
      LastOrdinal();
    }
  }

  /** Every valid date lies between the first and the last date, which alone have the
      smallest and the largest ordinal. */
  lemma OrdinalBounds(d: Date)
    requires Valid(d)
    ensures 1 <= Ordinal(d) <= MaxOrdinal
    ensures Ordinal(d) == 1 <==> d == FirstDate
    ensures Ordinal(d) == MaxOrdinal <==> d == LastDate
  {
    OrdinalLow(d);
    OrdinalHigh(d);
  }

  /** The next day, `None` after the last date. */
  function Succ(d: Date): (r: Option<Date>)
    requires Valid(d)
    ensures r.Some? ==> Valid(r.value) && Ordinal(r.value) == Ordinal(d) + 1
    ensures r.None? <==> d == LastDate
  {
    if d.day < DaysInMonth(d.year, d.month) then Some(Date(d.year, d.month, d.day + 1))
    else if d.month < 12 then Some(Date(d.year, d.month + 1, 1))
    else if d.year < MaxYear then
      YearStep(d.year);
      Some(Date(d.year + 1, 1, 1))
    else None
  }

  /** The previous day, `None` before the first date. */
  function Pred(d: Date): (r: Option<Date>)
    requires Valid(d)
    ensures r.Some? ==> Valid(r.value) && Ordinal(r.value) == Ordinal(d) - 1
    ensures r.None? <==> d == FirstDate
  {
    if d.day > 1 then Some(Date(d.year, d.month, d.day - 1))
    else if d.month > 1 then Some(Date(d.year, d.month - 1, DaysInMonth(d.year, d.month - 1)))
    else if d.year > MinYear then
      YearStep(d.year - 1);
      Some(Date(d.year - 1, 12, 31))
    else None
  }

  /** `d + timedelta(days=n)`; `None` where Python raises `OverflowError`. */
  function AddDays(d: Date, n: int): (r: Option<Date>)
    requires Valid(d)
    ensures r.Some? ==> Valid(r.value) && Ordinal(r.value) == Ordinal(d) + n
    decreases if n < 0 then -n else n
  {
    if n == 0 then Some(d)
    else if n > 0 then
      match Succ(d)
      case None => None
      case Some(next) => AddDays(next, n - 1)
    else
      match Pred(d)
      case None => None
      case Some(prev) => AddDays(prev, n + 1)
  }

  /** Adding days fails exactly when the resulting ordinal leaves the year range. */
  lemma AddDaysDefined(d: Date, n: int)
    requires Valid(d)
    ensures AddDays(d, n).Some? <==> 1 <= Ordinal(d) + n <= MaxOrdinal
  {
    OrdinalRange(d);
    if n >= 0 {
      AddDaysForward(d, n);
    } else {
      AddDaysBackward(d, n);
    }
  }

  lemma {:induction false} AddDaysForward(d: Date, n: int)
    requires Valid(d) && n >= 0
    ensures AddDays(d, n).Some? <==> Ordinal(d) + n <= MaxOrdinal
    decreases n
  {
    if n == 0 {
      OrdinalRange(d);
    } else {
      var next := Succ(d);
      if next.Some? {
        AddDaysForward(next.value, n - 1);
      } else {
        NothingAfterLast(d, n);
      }
    }
  }

  /** Going on from the last date always fails. */
  lemma NothingAfterLast(d: Date, n: int)
    requires Valid(d) && n > 0 && Succ(d).None?
    ensures AddDays(d, n).None? && Ordinal(d) + n > MaxOrdinal
  {
    OrdinalHigh(d);
  }

  lemma {:induction false} AddDaysBackward(d: Date, n: int)
    requires Valid(d) && n <= 0
    ensures AddDays(d, n).Some? <==> 1 <= Ordinal(d) + n
    decreases -n
  {
    if n == 0 {
      OrdinalRange(d);
    } else {
      var prev := Pred(d);
      if prev.Some? {
        AddDaysBackward(prev.value, n + 1);
      } else {
        NothingBeforeFirst(d, n);
      }
    }
  }

  /** Going back from the first date always fails. */
  lemma NothingBeforeFirst(d: Date, n: int)
    requires Valid(d) && n < 0 && Pred(d).None?
    ensures AddDays(d, n).None? && Ordinal(d) + n < 1
  {
    OrdinalLow(d);
  }

  /** Two valid dates with the same ordinal are the same date. */
  lemma {:induction false} OrdinalInjective(a: Date, b: Date)
    requires Valid(a) && Valid(b) && Ordinal(a) == Ordinal(b)
    ensures a == b
    decreases Ordinal(a)
  {
    OrdinalBounds(a);
    OrdinalBounds(b);
    if Ordinal(a) > 1 {
      var pa := Pred(a).value;
      var pb := Pred(b).value;
      OrdinalInjective(pa, pb);
      assert Succ(pa) == Some(a) by { SuccPred(a); }
      assert Succ(pb) == Some(b) by { SuccPred(b); }
    }
  }

  /** The next day of the previous day is the day itself. */
  lemma SuccPred(d: Date)
    requires Valid(d) && d != FirstDate
    ensures Pred(d).Some? && Succ(Pred(d).value) == Some(d)
  {
  }

  // ---- `strftime("%Y/%m/%d")`

  /** Two digits, zero-padded. */
  function Pad2(n: int): (r: string)
    requires 0 <= n < 100
    ensures |r| == 2 && IsDigit(r[0]) && IsDigit(r[1])
    ensures DigitsValue(r) == n
  {
    var r := [DigitChar(n / 10), DigitChar(n % 10)];
    TwoDigits(r);
    r
  }

  lemma TwoDigits(s: string)
    requires |s| == 2 && IsDigit(s[0]) && IsDigit(s[1])
    ensures DigitsValue(s) == (s[0] as int - '0' as int) * 10 + (s[1] as int - '0' as int)
  {
    assert s[..1][..0] == [];
    OneDigit(s[..1]);
  }

  lemma OneDigit(s: string)
    requires |s| == 1 && IsDigit(s[0])
    ensures DigitsValue(s) == s[0] as int - '0' as int
  {
    assert s[..0] == [];
  }

  /** `%Y`: the year in decimal, without padding. Python hands `%Y` to the platform's C
      `strftime`, so whether a year below 1000 is padded to four digits depends on the
      platform; this model takes the unpadded form (glibc's), and every property that needs
      four digits asks for a year from 1000 on. */
  function YearText(y: nat): string
  {
    NatToString(y)
  }

  function FormatDate(d: Date, sep: char): (r: string)
    requires Valid(d)
  {
    YearText(d.year) + [sep] + Pad2(d.month) + [sep] + Pad2(d.day)
  }

  lemma FourDigitYear(y: int)
    requires 1000 <= y <= MaxYear
    ensures |YearText(y)| == 4 && DigitsValue(YearText(y)) == y
  {
    NatToStringValue(y);
    var a := y / 10;
    var b := a / 10;
    var c := b / 10;
    assert 1 <= c <= 9 && 10 <= b <= 99 && 100 <= a <= 999;
    assert |NatToString(c)| == 1;
    assert |NatToString(b)| == 2;
    assert |NatToString(a)| == 3;
  }

  /** A rendered date of a year from 1000 on has the fixed shape `YYYY/MM/DD`. */
  lemma FormatDateShape(d: Date, sep: char)
    requires Valid(d) && d.year >= 1000
    ensures var r := FormatDate(d, sep);
      |r| == 10 && r[4] == sep && r[7] == sep
      && r[..4] == YearText(d.year) && r[5..7] == Pad2(d.month) && r[8..] == Pad2(d.day)
  {
    FourDigitYear(d.year);
  }

  // ---- `strptime(s, "%Y-%m-%d")`

  predicate AllDigits(s: string)
  {
    forall i :: 0 <= i < |s| ==> IsDigit(s[i])
  }

  /** `%m`: `1[0-2]|0[1-9]|[1-9]`. */
  function MonthToken(t: string): (r: Option<int>)
    ensures r.Some? ==> 1 <= r.value <= 12
  {
    if |t| == 1 && '1' <= t[0] <= '9' then OneDigit(t); Some(DigitsValue(t))
    else if |t| == 2 && AllDigits(t) && 1 <= DigitsValue(t) <= 12 then Some(DigitsValue(t))
    else None
  }

  /** `%d`: `3[01]|[12]\d|0[1-9]|[1-9]| [1-9]`. */
  function DayToken(t: string): (r: Option<int>)
    ensures r.Some? ==> 1 <= r.value <= 31
  {
    if |t| == 1 && '1' <= t[0] <= '9' then OneDigit(t); Some(DigitsValue(t))
    else if |t| == 2 && AllDigits(t) && 1 <= DigitsValue(t) <= 31 then Some(DigitsValue(t))
    else if |t| == 2 && t[0] == ' ' && '1' <= t[1] <= '9' then OneDigit(t[1..]); Some(DigitsValue(t[1..]))
    else None
  }

  /** Four-digit year, separator, month, separator, day, and nothing after; `None` where
      Python raises `ValueError` (no match, text left over, or no such day). */
  function ParseDate(s: string, sep: char): (r: Option<Date>)
    ensures r.Some? ==> Valid(r.value)
  {
    if |s| < 8 || s[4] != sep || !AllDigits(s[..4]) then None
    else
      var k := if s[6] == sep then 6 else 7;
      if k >= |s| || s[k] != sep then None
      else
        var m := MonthToken(s[5..k]);
        var dd := DayToken(s[k + 1..]);
        if m.None? || dd.None? then None
        else
          var d := Date(DigitsValue(s[..4]), m.value, dd.value);
          if Valid(d) then Some(d) else None
  }

  /** Reading a rendered date back gives the date again (years 1000 to 9999, any
      separator that is not a digit). */
  lemma ParseFormatted(d: Date, sep: char)
    requires Valid(d) && d.year >= 1000 && !IsDigit(sep)
    ensures ParseDate(FormatDate(d, sep), sep) == Some(d)
  {
    var r := FormatDate(d, sep);
    FormatDateShape(d, sep);
    FourDigitYear(d.year);
    assert r[6] != sep;
    assert r[5..7] == Pad2(d.month) && r[8..] == Pad2(d.day);
  }
}
