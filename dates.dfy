// Calendar dates as Python's `datetime.date` treats them: the proleptic
// Gregorian calendar for years 1..9999, the ordinal day number, day
// subtraction, and the three textual forms the tracker reads or writes
// (ISO `YYYY-MM-DD`, the IMAP SEARCH `SINCE` token, the `dd/mm/YYYY` stamp).

module Dates {
  import opened Text

  datatype Date = Date(year: int, month: int, day: int)

  predicate IsLeap(y: int)
  {
    y % 4 == 0 && (y % 100 != 0 || y % 400 == 0)
  }

  function DaysInMonth(y: int, m: int): (n: int)
    requires 1 <= m <= 12
    ensures 28 <= n <= 31
  {
    if m == 2 then (if IsLeap(y) then 29 else 28)
    else if m == 4 || m == 6 || m == 9 || m == 11 then 30
    else 31
  }

  function DaysInYear(y: int): (r: int)
  {
    if IsLeap(y) then 366 else 365
  }

  /** A date `datetime.date` accepts (MINYEAR = 1, MAXYEAR = 9999). */
  predicate Valid(d: Date)
  {
    1 <= d.year <= 9999 && 1 <= d.month <= 12 && 1 <= d.day <= DaysInMonth(d.year, d.month)
  }

  function DaysBeforeYear(y: int): (r: int)
    requires y >= 1
  {
    var p := y - 1;
    365 * p + p / 4 - p / 100 + p / 400
  }

  function DaysBeforeMonth(y: int, m: int): (r: int)
    requires 1 <= m <= 12
  {
    var base :=
      if m == 1 then 0 else if m == 2 then 31 else if m == 3 then 59
      else if m == 4 then 90 else if m == 5 then 120 else if m == 6 then 151
      else if m == 7 then 181 else if m == 8 then 212 else if m == 9 then 243
      else if m == 10 then 273 else if m == 11 then 304 else 334;
    base + (if m > 2 && IsLeap(y) then 1 else 0)
  }

  /** `date.toordinal()`: 0001-01-01 is day 1. */
  function Ordinal(d: Date): (r: int)
    requires Valid(d)
  {
    DaysBeforeYear(d.year) + DaysBeforeMonth(d.year, d.month) + d.day
  }

  /** Python's `a < b` on dates: year, then month, then day. */
  predicate Before(a: Date, b: Date)
  {
    a.year < b.year
    || (a.year == b.year && a.month < b.month)
    || (a.year == b.year && a.month == b.month && a.day < b.day)
  }

  /** Quotients by the leap-year divisors grow by one exactly at a multiple. */
  lemma DivStep(p: nat, k: int)
    requires k == 4 || k == 100 || k == 400
    ensures (p + 1) / k == p / k + (if (p + 1) % k == 0 then 1 else 0)
  {
    if k == 4 {
      assert (p + 1) / 4 == p / 4 + (if (p + 1) % 4 == 0 then 1 else 0);
    } else if k == 100 {
      assert (p + 1) / 100 == p / 100 + (if (p + 1) % 100 == 0 then 1 else 0);
    } else {
      assert (p + 1) / 400 == p / 400 + (if (p + 1) % 400 == 0 then 1 else 0);
    }
  }

  /** Every multiple of 400 is one of 100, and every multiple of 100 one of 4. */
  lemma DivisorChain(y: int)
    ensures y % 100 == 0 ==> y % 4 == 0
    ensures y % 400 == 0 ==> y % 100 == 0
  {
    if y % 100 == 0 {
      var t := y / 100;
      assert y == 100 * t;
      MultipleOfFour(25 * t);
    }
    if y % 400 == 0 {
      var t := y / 400;
      assert y == 400 * t;
      MultipleOfHundred(4 * t);
    }
  }

  lemma MultipleOfFour(t: int)
    ensures (4 * t) % 4 == 0
  {
  }

  lemma MultipleOfHundred(t: int)
    ensures (100 * t) % 100 == 0
  {
  }

  lemma YearStep(y: int)
    requires y >= 1
    ensures DaysBeforeYear(y + 1) == DaysBeforeYear(y) + DaysInYear(y)
  {
    var p: nat := y - 1;
    DivStep(p, 4);
    DivStep(p, 100);
    DivStep(p, 400);
    DivisorChain(y);
    var a := if y % 4 == 0 then 1 else 0;
    var b := if y % 100 == 0 then 1 else 0;
    var c := if y % 400 == 0 then 1 else 0;
    assert DaysBeforeYear(y + 1) == DaysBeforeYear(y) + 365 + a - b + c;
    assert DaysInYear(y) == 365 + a - b + c;
  }

  lemma {:induction false} YearMonotone(y1: int, y2: int)
    requires 1 <= y1 < y2
    ensures DaysBeforeYear(y1) + DaysInYear(y1) <= DaysBeforeYear(y2)
    decreases y2 - y1
  {
    YearStep(y1);
    if y1 + 1 < y2 {
      YearMonotone(y1 + 1, y2);
    }
  }

  lemma MonthStep(y: int, m: int)
    requires 1 <= m < 12
    ensures DaysBeforeMonth(y, m) + DaysInMonth(y, m) == DaysBeforeMonth(y, m + 1)
  {
  }

  lemma MonthMonotone(y: int, m1: int, m2: int)
    requires 1 <= m1 < m2 <= 12
    ensures DaysBeforeMonth(y, m1) + DaysInMonth(y, m1) <= DaysBeforeMonth(y, m2)
  {
  }

  lemma LastMonth(y: int)
    ensures DaysBeforeMonth(y, 12) + DaysInMonth(y, 12) == DaysInYear(y)
  {
  }

  lemma MonthWithinYear(y: int, m: int)
    requires 1 <= m <= 12
    ensures DaysBeforeMonth(y, m) + DaysInMonth(y, m) <= DaysInYear(y)
  {
  }

  lemma {:induction false} BeforeOrdinal(a: Date, b: Date)
    requires Valid(a) && Valid(b) && Before(a, b)
    ensures Ordinal(a) < Ordinal(b)
  {
    if a.year < b.year {
      MonthWithinYear(a.year, a.month);
      YearMonotone(a.year, b.year);
    } else if a.month < b.month {
      MonthMonotone(a.year, a.month, b.month);
    }
  }

  /**
   * The ordinal orders dates exactly as Python's comparison does, so
   * `days_until` is negative exactly for past dates and zero exactly for today.
   */
  lemma {:induction false} OrdinalOrder(a: Date, b: Date)
    requires Valid(a) && Valid(b)
    ensures Before(a, b) <==> Ordinal(a) < Ordinal(b)
    ensures a == b <==> Ordinal(a) == Ordinal(b)
  {
    if Before(a, b) {
      BeforeOrdinal(a, b);
    } else if Before(b, a) {
      BeforeOrdinal(b, a);
    } else {
      assert a == b;
    }
  }

  /** The day before `d` (`d - timedelta(days=1)`). */
  function PrevDay(d: Date): (r: Date)
    requires Valid(d) && d != Date(1, 1, 1)
    ensures Valid(r) && Ordinal(r) == Ordinal(d) - 1
  {
    if d.day > 1 then Date(d.year, d.month, d.day - 1)
    else if d.month > 1 then
      MonthStep(d.year, d.month - 1);
      Date(d.year, d.month - 1, DaysInMonth(d.year, d.month - 1))
    else
      YearStep(d.year - 1);
      LastMonth(d.year - 1);
      Date(d.year - 1, 12, 31)
  }

  /** `d - timedelta(days=n)`, defined when the result is not before 0001-01-01. */
  function MinusDays(d: Date, n: nat): (r: Date)
    requires Valid(d) && Ordinal(d) > n
    ensures Valid(r) && Ordinal(r) == Ordinal(d) - n
    decreases n
  {
    if n == 0 then d else MinusDays(PrevDay(d), n - 1)
  }

  // ---------------------------------------------------------------------
  // ISO form: `date.isoformat()` and `strptime(s, '%Y-%m-%d')`
  // ---------------------------------------------------------------------

  function IsoFormat(d: Date): (r: string)
    requires Valid(d)
  {
    PadNat(d.year, 4) + "-" + PadNat(d.month, 2) + "-" + PadNat(d.day, 2)
  }

  /** The month field `%m` accepts: `1[0-2]`, `0[1-9]` or `[1-9]`. */
  predicate MonthField(s: string)
  {
    (|s| == 2 && s[0] == '1' && '0' <= s[1] <= '2')
    || (|s| == 2 && s[0] == '0' && '1' <= s[1] <= '9')
    || (|s| == 1 && '1' <= s[0] <= '9')
  }

  /** The day field `%d` accepts: `3[01]`, `[12]\d`, `0[1-9]`, `[1-9]` or a space and `[1-9]`. */
  predicate DayField(s: string)
  {
    (|s| == 2 && s[0] == '3' && '0' <= s[1] <= '1')
    || (|s| == 2 && '1' <= s[0] <= '2' && IsDigit(s[1]))
    || (|s| == 2 && s[0] == '0' && '1' <= s[1] <= '9')
    || (|s| == 1 && '1' <= s[0] <= '9')
    || (|s| == 2 && s[0] == ' ' && '1' <= s[1] <= '9')
  }

  function DayFieldVal(s: string): (r: nat)
    requires DayField(s)
  {
    if s[0] == ' ' then DigitVal(s[1]) else DigitsVal(s)
  }

  /**
   * `datetime.strptime(s, '%Y-%m-%d').date()`: four digits, a dash, the month
   * field, a dash, the day field and nothing after; `None` where Python raises
   * `ValueError` (a text of another shape, or a day the month does not have).
   */
  function ParseIsoDate(s: string): (r: Option<Date>)
    ensures r.Some? ==> Valid(r.value)
  {
    if |s| < 7 || !AllDigits(s[..4]) || s[4] != '-' then None
    else
      var rest := s[5..];
      match FindFrom(rest, "-", 0)
      case None => None
      case Some(k) =>
        var mf := rest[..k];
        var df := rest[k + 1..];
        if !MonthField(mf) || !DayField(df) then None
        else
          var d := Date(DigitsVal(s[..4]), DigitsVal(mf), DayFieldVal(df));
          if Valid(d) then Some(d) else None
  }

  lemma {:induction false} PadNat2Field(n: nat)
    requires 1 <= n <= 31
    ensures |PadNat(n, 2)| == 2 && PadNat(n, 2)[0] != '-' && PadNat(n, 2)[1] != '-'
    ensures n <= 12 ==> MonthField(PadNat(n, 2))
    ensures DayField(PadNat(n, 2)) && DayFieldVal(PadNat(n, 2)) == n
  {
    var s := PadNat(n, 2);
    assert DigitsVal(s) == n;
    assert DigitsVal(s) == DigitVal(s[0]) * 10 + DigitVal(s[1]) by {
      assert s[..1][..0] == [];
    }
  }

  /** Reading back what `isoformat()` wrote gives the same date. */
  lemma {:induction false} IsoRoundTrip(d: Date)
    requires Valid(d)
    ensures ParseIsoDate(IsoFormat(d)) == Some(d)
  {
    var y := PadNat(d.year, 4);
    var m := PadNat(d.month, 2);
    var dd := PadNat(d.day, 2);
    PadNat2Field(d.month);
    PadNat2Field(d.day);
    assert |y| == 4 by {
      assert |NatToString(d.year)| <= 4;
    }
    var s := IsoFormat(d);
    assert s == y + "-" + m + "-" + dd;
    assert s[..4] == y;
    assert s[4] == '-';
    var rest := s[5..];
    assert rest == m + "-" + dd;
    assert OccursAt(rest, "-", 2);
    assert !OccursAt(rest, "-", 0) && !OccursAt(rest, "-", 1);
    assert FindFrom(rest, "-", 0) == Some(2);
    assert rest[..2] == m && rest[3..] == dd;
  }

  // ---------------------------------------------------------------------
  // IMAP SEARCH SINCE token and the `dd/mm/YYYY` stamp
  // ---------------------------------------------------------------------

  const MonthAbbr: seq<string> :=
    ["Jan", "Feb", "Mar", "Apr", "May", "Jun", "Jul", "Aug", "Sep", "Oct", "Nov", "Dec"]

  /** `f"{d.day:02d}-{months_en[d.month - 1]}-{d.year}"`. */
  function ImapDate(d: Date): (r: string)
    requires Valid(d)
  {
    PadNat(d.day, 2) + "-" + MonthAbbr[d.month - 1] + "-" + NatToString(d.year)
  }

  function MonthOfAbbr(s: string): (r: Option<int>)
    ensures r.Some? ==> 1 <= r.value <= 12 && MonthAbbr[r.value - 1] == s
  {
    if s == "Jan" then Some(1) else if s == "Feb" then Some(2) else if s == "Mar" then Some(3)
    else if s == "Apr" then Some(4) else if s == "May" then Some(5) else if s == "Jun" then Some(6)
    else if s == "Jul" then Some(7) else if s == "Aug" then Some(8) else if s == "Sep" then Some(9)
    else if s == "Oct" then Some(10) else if s == "Nov" then Some(11) else if s == "Dec" then Some(12)
    else None
  }

  /**
   * The `date` production of section 9 of RFC 3501 (formal syntax):
   * `date-day "-" date-month "-" date-year` with a one- or two-digit day, a
   * three-letter month and a four-digit year.
   */
  function ParseImapDate(s: string): (r: Option<Date>)
    ensures r.Some? ==> Valid(r.value)
  {
    match FindFrom(s, "-", 0)
    case None => None
    case Some(i) =>
      var day := s[..i];
      var tail := s[i + 1..];
      if !(1 <= |day| <= 2 && AllDigits(day)) || |tail| != 8 || tail[3] != '-' then None
      else
        var year := tail[4..];
        match MonthOfAbbr(tail[..3])
        case None => None
        case Some(m) =>
          if !AllDigits(year) then None
          else
            var d := Date(DigitsVal(year), m, DigitsVal(day));
            if Valid(d) then Some(d) else None
  }

  /** Each abbreviation of the table is read back as its month. */
  lemma MonthOfAbbrTable(m: int)
    requires 1 <= m <= 12
    ensures MonthOfAbbr(MonthAbbr[m - 1]) == Some(m)
  {
  }

  /** The first dash of `dd-rest`, for a two-character `dd` without dashes, is at 2. */
  lemma DashAfterDay(dd: string, rest: string)
    requires |dd| == 2 && dd[0] != '-' && dd[1] != '-'
    ensures FindFrom(dd + "-" + rest, "-", 0) == Some(2)
  {
    var s := dd + "-" + rest;
    assert OccursAt(s, "-", 2);
    assert s[0..1] == [dd[0]] && s[1..2] == [dd[1]];
    assert !OccursAt(s, "-", 0) && !OccursAt(s, "-", 1);
  }

  /** The SINCE token of a date in years 1000..9999 is read back as that date. */
  lemma {:induction false} ImapDateRoundTrip(d: Date)
    requires Valid(d) && d.year >= 1000
    ensures ParseImapDate(ImapDate(d)) == Some(d)
  {
    var dd := PadNat(d.day, 2);
    PadNat2Field(d.day);
    assert DigitsVal(dd) == d.day by {
      assert dd[..1][..0] == [];
    }
    var mon := MonthAbbr[d.month - 1];
    MonthOfAbbrTable(d.month);
    var y := NatToString(d.year);
    NatToStringVal(d.year);
    ImapPieces(dd, mon, y, d.month);
  }

  /** A two-digit day, a month abbreviation and a four-digit year joined by dashes are read back. */
  lemma ImapPieces(dd: string, mon: string, y: string, m: int)
    requires |dd| == 2 && dd[0] != '-' && dd[1] != '-' && AllDigits(dd)
    requires |mon| == 3 && MonthOfAbbr(mon) == Some(m)
    requires |y| == 4 && AllDigits(y)
    requires Valid(Date(DigitsVal(y), m, DigitsVal(dd)))
    ensures ParseImapDate(dd + "-" + mon + "-" + y) == Some(Date(DigitsVal(y), m, DigitsVal(dd)))
  {
    var s := dd + "-" + mon + "-" + y;
    assert s == dd + "-" + (mon + "-" + y);
    DashAfterDay(dd, mon + "-" + y);
    assert s[..2] == dd;
    var tail := s[3..];
    assert tail == mon + "-" + y;
    assert tail[..3] == mon && tail[3] == '-' && tail[4..] == y;
  }

  /** `strftime('%d/%m/%Y')`. */
  function DmyFormat(d: Date): (r: string)
    requires Valid(d)
  {
    PadNat(d.day, 2) + "/" + PadNat(d.month, 2) + "/" + NatToString(d.year)
  }
}
