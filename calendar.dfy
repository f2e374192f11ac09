/**
 * Calendar dates as Python's datetime sees them: the two strptime formats the engine
 * parses ("%Y-%m-%d" and "%d/%m/%Y"), strftime("%Y-%m-%d"), and shifting by whole days.
 */
module Calendar {
  import opened Errors
  import opened Text

  datatype Date = Date(year: int, month: int, day: int)

  predicate IsLeapYear(y: int) {
    y % 4 == 0 && (y % 100 != 0 || y % 400 == 0)
  }

  function DaysInMonth(y: int, m: int): (n: int)
    requires 1 <= m <= 12
    ensures 28 <= n <= 31
  {
    if m == 2 then (if IsLeapYear(y) then 29 else 28)
    else if m == 4 || m == 6 || m == 9 || m == 11 then 30
    else 31
  }

  /** A date datetime can represent: years 1 to 9999, real days of real months. */
  predicate ValidDate(d: Date) {
    1 <= d.year <= 9999 && 1 <= d.month <= 12 && 1 <= d.day <= DaysInMonth(d.year, d.month)
  }

  /** Chronological order. */
  predicate DateLt(a: Date, b: Date) {
    a.year < b.year || (a.year == b.year && (a.month < b.month || (a.month == b.month && a.day < b.day)))
  }

  /** strptime's %Y: exactly four digits. */
  function YearToken(t: string): Option<int> {
    if |t| == 4 && AllDigits(t) then Some(DigitsValue(t)) else None
  }

  /** strptime's %m: one of 1[0-2], 0[1-9] or [1-9], matching the whole token. */
  function MonthToken(t: string): (r: Option<int>)
    ensures r.Some? ==> 1 <= r.value <= 12
  {
    if |t| == 2 && t[0] == '1' && '0' <= t[1] <= '2' then Some(10 + DigitValue(t[1]))
    else if |t| == 2 && t[0] == '0' && '1' <= t[1] <= '9' then Some(DigitValue(t[1]))
    else if |t| == 1 && '1' <= t[0] <= '9' then Some(DigitValue(t[0]))
    else None
  }

  /** strptime's %d: one of 3[01], [12][0-9], 0[1-9], [1-9] or a space and [1-9]. */
  function DayToken(t: string): (r: Option<int>)
    ensures r.Some? ==> 1 <= r.value <= 31
  {
    if |t| == 2 && t[0] == '3' && '0' <= t[1] <= '1' then Some(30 + DigitValue(t[1]))
    else if |t| == 2 && '1' <= t[0] <= '2' && IsDigit(t[1]) then Some(10 * DigitValue(t[0]) + DigitValue(t[1]))
    else if |t| == 2 && t[0] == '0' && '1' <= t[1] <= '9' then Some(DigitValue(t[1]))
    else if |t| == 1 && '1' <= t[0] <= '9' then Some(DigitValue(t[0]))
    else if |t| == 2 && t[0] == ' ' && '1' <= t[1] <= '9' then Some(DigitValue(t[1]))
    else None
  }

  /** The date the three fields name, when datetime accepts it. */
  function MakeDate(y: Option<int>, m: Option<int>, d: Option<int>): (r: Option<Date>)
    ensures r.Some? ==> ValidDate(r.value)
  {
    if y.Some? && m.Some? && d.Some? && 1 <= m.value <= 12 && ValidDate(Date(y.value, m.value, d.value))
    then Some(Date(y.value, m.value, d.value))
    else None
  }

  /**
   * strptime(s, "%Y-%m-%d"). The month token holds no '-', so it ends at the first '-'
   * after the year; the day token is the rest of the string.
   */
  function ParseIso(s: string): (r: Option<Date>)
    ensures r.Some? ==> ValidDate(r.value)
  {
    if |s| < 8 || s[4] != '-' then None
    else if s[6] == '-' then MakeDate(YearToken(s[..4]), MonthToken(s[5..6]), DayToken(s[7..]))
    else if s[7] == '-' then MakeDate(YearToken(s[..4]), MonthToken(s[5..7]), DayToken(s[8..]))
    else None
  }

  /** The "%m/%Y" tail of a "%d/%m/%Y" string, once the day token is known. */
  function ParseMonthYear(day: Option<int>, s: string): Option<Date> {
    if |s| >= 2 && s[1] == '/' then MakeDate(YearToken(s[2..]), MonthToken(s[..1]), day)
    else if |s| >= 3 && s[2] == '/' then MakeDate(YearToken(s[3..]), MonthToken(s[..2]), day)
    else None
  }

  /** strptime(s, "%d/%m/%Y"); neither the day nor the month token holds a '/'. */
  function ParseDayMonthYear(s: string): (r: Option<Date>)
    ensures r.Some? ==> ValidDate(r.value)
  {
    if |s| >= 2 && s[1] == '/' then ParseMonthYear(DayToken(s[..1]), s[2..])
    else if |s| >= 3 && s[2] == '/' then ParseMonthYear(DayToken(s[..2]), s[3..])
    else None
  }

  /** strftime("%Y-%m-%d"): zero-padded year, month and day. */
  function FormatIso(d: Date): (s: string)
    requires ValidDate(d)
    ensures |s| == 10
  {
    PadDigits(d.year, 4) + "-" + MonthDay(d)
  }

  lemma TwoDigitTokens(n: nat)
    requires 1 <= n <= 31
    ensures DayToken(PadDigits(n, 2)) == Some(n)
    ensures n <= 12 ==> MonthToken(PadDigits(n, 2)) == Some(n)
  {
    var t := PadDigits(n, 2);
    var hi, lo := n / 10, n % 10;
    assert t == PadDigits(hi, 1) + [DigitChar(lo)];
    assert PadDigits(hi, 1) == [DigitChar(hi)];
    assert t[0] == DigitChar(hi) && t[1] == DigitChar(lo);
    if hi == 0 {
      assert t[0] == '0' && '1' <= t[1] <= '9';
    } else if hi == 1 {
      assert t[0] == '1' && '0' <= t[1] <= '9';
    } else if hi == 2 {
      assert t[0] == '2' && '0' <= t[1] <= '9';
    } else {
      assert t[0] == '3' && '0' <= t[1] <= '1';
    }
  }

  /** Formatting a date and parsing it back gives the same date. */
  lemma ParseFormatIso(d: Date)
    requires ValidDate(d)
    ensures ParseIso(FormatIso(d)) == Some(d)
  {
    var s := FormatIso(d);
    FormatIsoSlices(d);
    PadDigitsValue(d.year, 4);
    TwoDigitTokens(d.month);
    TwoDigitTokens(d.day);
    assert s[6] != '-';
  }

  /** Where the year, month and day sit in a formatted date. */
  lemma FormatIsoSlices(d: Date)
    requires ValidDate(d)
    ensures var s := FormatIso(d);
      && s[..4] == PadDigits(d.year, 4) && s[4] == '-' && s[5..7] == PadDigits(d.month, 2)
      && s[7] == '-' && s[8..] == PadDigits(d.day, 2)
  {
    var y, md := PadDigits(d.year, 4), MonthDay(d);
    var m, dd := PadDigits(d.month, 2), PadDigits(d.day, 2);
    var s := FormatIso(d);
    assert s[5..] == md;
    assert md[..2] == m && md[2] == '-' && md[3..] == dd;
    assert s[5..7] == md[..2];
    assert s[8..] == md[3..];
  }

  /** Formatted dates compare as strings in chronological order, the order string sorts rely on. */
  lemma FormatIsoOrder(a: Date, b: Date)
    requires ValidDate(a) && ValidDate(b)
    ensures StrLt(FormatIso(a), FormatIso(b)) <==> DateLt(a, b)
  {
    var ya, yb := PadDigits(a.year, 4), PadDigits(b.year, 4);
    StrLtConcat(ya + "-", MonthDay(a), yb + "-", MonthDay(b));
    StrLtConcat(ya, "-", yb, "-");
    StrLtIrreflexive("-");
    assert ya + "-" == yb + "-" ==> ya == (yb + "-")[..4];
    MonthDayOrder(a, b);
    PadDigitsOrder(a.year, b.year, 4);
    PadDigitsValue(a.year, 4);
    PadDigitsValue(b.year, 4);
  }

  /** The "%m-%d" tail of a formatted date. */
  function MonthDay(d: Date): string
    requires ValidDate(d)
  {
    PadDigits(d.month, 2) + ("-" + PadDigits(d.day, 2))
  }

  /** Within a year, the "%m-%d" tails compare as strings in chronological order. */
  lemma MonthDayOrder(a: Date, b: Date)
    requires ValidDate(a) && ValidDate(b)
    ensures StrLt(MonthDay(a), MonthDay(b)) <==> a.month < b.month || (a.month == b.month && a.day < b.day)
  {
    var ma, da := PadDigits(a.month, 2), PadDigits(a.day, 2);
    var mb, db := PadDigits(b.month, 2), PadDigits(b.day, 2);
    StrLtConcat(ma, "-" + da, mb, "-" + db);
    StrLtConcat("-", da, "-", db);
    StrLtIrreflexive("-");
    PadDigitsOrder(a.month, b.month, 2);
    PadDigitsOrder(a.day, b.day, 2);
    PadDigitsValue(a.month, 2);
    PadDigitsValue(b.month, 2);
  }

  /** The day after `d`; none after 9999-12-31, where datetime overflows. */
  function NextDay(d: Date): (r: Option<Date>)
    requires ValidDate(d)
    ensures r.Some? ==> ValidDate(r.value) && DateLt(d, r.value)
    ensures r.None? <==> d == Date(9999, 12, 31)
  {
    if d.day < DaysInMonth(d.year, d.month) then Some(Date(d.year, d.month, d.day + 1))
    else if d.month < 12 then Some(Date(d.year, d.month + 1, 1))
    else if d.year < 9999 then Some(Date(d.year + 1, 1, 1))
    else None
  }

  /** The day before `d`; none before 0001-01-01. */
  function PrevDay(d: Date): (r: Option<Date>)
    requires ValidDate(d)
    ensures r.Some? ==> ValidDate(r.value) && DateLt(r.value, d)
    ensures r.None? <==> d == Date(1, 1, 1)
  {
    if d.day > 1 then Some(Date(d.year, d.month, d.day - 1))
    else if d.month > 1 then Some(Date(d.year, d.month - 1, DaysInMonth(d.year, d.month - 1)))
    else if d.year > 1 then Some(Date(d.year - 1, 12, 31))
    else None
  }

  lemma NextThenPrev(d: Date)
    requires ValidDate(d) && NextDay(d).Some?
    ensures PrevDay(NextDay(d).value) == Some(d)
  {
  }

  lemma PrevThenNext(d: Date)
    requires ValidDate(d) && PrevDay(d).Some?
    ensures NextDay(PrevDay(d).value) == Some(d)
  {
  }

  /** date + timedelta(days=n), one day at a time; none when the result leaves years 1..9999. */
  function AddDays(d: Date, n: int): (r: Option<Date>)
    requires ValidDate(d)
    ensures r.Some? ==> ValidDate(r.value)
    decreases if n >= 0 then n else -n
  {
    if n == 0 then Some(d)
    else if n > 0 then
      match NextDay(d)
      case None => None
      case Some(e) => AddDays(e, n - 1)
    else
      match PrevDay(d)
      case None => None
      case Some(e) => AddDays(e, n + 1)
  }
}
