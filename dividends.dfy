/**
 * The per-row derivations of the dividend and bonus feeds: Brazilian dates turned into ISO
 * dates, day shifting, the tax rule per earning type, and the number text of bonus cards.
 */
module Dividends {
  import opened Errors
  import opened Text
  import opened Calendar
  import opened Seqs

  /** The text strftime("%d/%m/%Y") would write for `d`, as the feed shows dates. */
  function FormatDayMonthYear(d: Date): (s: string)
    requires ValidDate(d)
    ensures |s| == 10
  {
    PadDigits(d.day, 2) + "/" + PadDigits(d.month, 2) + "/" + PadDigits(d.year, 4)
  }

  lemma ParseFormatDayMonthYear(d: Date)
    requires ValidDate(d)
    ensures ParseDayMonthYear(FormatDayMonthYear(d)) == Some(d)
  {
    var s := FormatDayMonthYear(d);
    var dd, mm, yy := PadDigits(d.day, 2), PadDigits(d.month, 2), PadDigits(d.year, 4);
    assert s[..2] == dd && s[2] == '/' && s[3..] == mm + "/" + yy;
    var rest := s[3..];
    assert rest[..2] == mm && rest[2] == '/' && rest[3..] == yy;
    assert s[1] != '/' && rest[1] != '/';
    TwoDigitTokens(d.day);
    TwoDigitTokens(d.month);
    PadDigitsValue(d.year, 4);
  }

  /** validate_date: "%d/%m/%Y" rewritten as "%Y-%m-%d", or "" when it does not parse. */
  function ValidateDate(date: string): (r: string)
    ensures r == "" <==> ParseDayMonthYear(date).None?
    ensures r != "" ==> ParseIso(r) == ParseDayMonthYear(date)
  {
    match ParseDayMonthYear(date)
    case None => ""
    case Some(d) =>
      ParseFormatIso(d);
      FormatIso(d)
  }

  /** A date the feed writes as dd/mm/yyyy comes out as the same day in ISO form. */
  lemma ValidateDateReformats(d: Date)
    requires ValidDate(d)
    ensures ValidateDate(FormatDayMonthYear(d)) == FormatIso(d)
  {
    ParseFormatDayMonthYear(d);
  }

  /**
   * timedelta_day: the ISO date `n` days after `date`. strptime raises on a malformed date
   * (the "" of a failed validate_date among them) and datetime on leaving years 1..9999.
   */
  function TimedeltaDay(date: string, n: int): (r: Result<string>)
    ensures ParseIso(date).None? ==> r == Err(InvalidDateFormat(date))
    ensures r.Ok? ==> (ParseIso(date).Some? && AddDays(ParseIso(date).value, n).Some? &&
                       ParseIso(r.value) == AddDays(ParseIso(date).value, n))
  {
    match ParseIso(date)
    case None => Err(InvalidDateFormat(date))
    case Some(d) =>
      match AddDays(d, n)
      case None => Err(DateOutOfRange(date))
      case Some(e) =>
        ParseFormatIso(e);
        Ok(FormatIso(e))
  }

  /** Shifting one day forward and one back gives the date again, written with padding. */
  lemma TimedeltaRoundTrip(date: string)
    requires ParseIso(date).Some?
    requires TimedeltaDay(date, 1).Ok?
    ensures TimedeltaDay(TimedeltaDay(date, 1).value, -1) == Ok(FormatIso(ParseIso(date).value))
  {
    var d := ParseIso(date).value;
    var e := NextDay(d).value;
    assert AddDays(d, 1) == AddDays(e, 0);
    ParseFormatIso(e);
    NextThenPrev(d);
    assert AddDays(e, -1) == AddDays(d, 0);
  }

  /** Shifting one day forward and then back hands back a padded ISO date unchanged. */
  lemma TimedeltaRoundTripFormatted(d: Date)
    requires ValidDate(d) && d != Date(9999, 12, 31)
    ensures TimedeltaDay(FormatIso(d), 1).Ok?
    ensures TimedeltaDay(TimedeltaDay(FormatIso(d), 1).value, -1) == Ok(FormatIso(d))
  {
    ParseFormatIso(d);
    var e := NextDay(d).value;
    assert AddDays(d, 1) == AddDays(e, 0);
    TimedeltaRoundTrip(FormatIso(d));
  }

  /** The name the feed gives to amortisations. */
  const Amortizacao: string := "Amortiza\U{E7}\U{E3}o"

  /** The earning-type rule: interest on equity and taxed income lose 15 %, the others nothing. */
  function EarningValue(earningType: string, valueWithoutTax: real): (r: Result<real>)
    ensures r.Ok? <==> earningType in {"JCP", "Rend. Tributado", "Dividendo", Amortizacao}
    ensures earningType in {"JCP", "Rend. Tributado"} ==> r == Ok(valueWithoutTax * 0.85)
    ensures earningType in {"Dividendo", Amortizacao} ==> r == Ok(valueWithoutTax)
    ensures r.Err? ==> r.error == UnknownEarningType(earningType)
  {
    if earningType == "JCP" || earningType == "Rend. Tributado" then Ok(valueWithoutTax * (1.0 - 0.15))
    else if earningType == "Dividendo" || earningType == Amortizacao then Ok(valueWithoutTax)
    else Err(UnknownEarningType(earningType))
  }

  /** A taxed earning is never worth more, and never less than nothing, than its gross value. */
  lemma EarningValueBounds(earningType: string, valueWithoutTax: real)
    requires valueWithoutTax >= 0.0
    requires EarningValue(earningType, valueWithoutTax).Ok?
    ensures 0.0 <= EarningValue(earningType, valueWithoutTax).value <= valueWithoutTax
  {
  }

  /** One entry of the feed's earnings JSON: "ed", "pd", "v" and "et". */
  datatype Earning = Earning(ed: string, pd: string, v: real, et: string)

  /** A row of dividends-<symbol>.csv. */
  datatype DividendRow = DividendRow(
    symbol: string, exDate: string, prevDate: string, paymentDay: string,
    earningType: string, valueWithoutTax: real, value: real)

  /** The body of download_dividends' loop for one earning. */
  function DividendRowOf(symbol: string, e: Earning): (r: Result<DividendRow>)
    ensures r.Ok? ==> r.value.symbol == symbol && r.value.earningType == e.et && r.value.valueWithoutTax == e.v
    ensures r.Ok? ==> r.value.prevDate == ValidateDate(e.ed) && r.value.paymentDay == ValidateDate(e.pd)
    ensures r.Ok? ==> Ok(r.value.value) == EarningValue(e.et, e.v)
  {
    var prevDate := ValidateDate(e.ed);
    match TimedeltaDay(prevDate, 1)
    case Err(err) => Err(err)
    case Ok(exDate) =>
      var paymentDay := ValidateDate(e.pd);
      match EarningValue(e.et, e.v)
      case Err(err) => Err(err)
      case Ok(value) => Ok(DividendRow(symbol, exDate, prevDate, paymentDay, e.et, e.v, value))
  }

  /** The ex-dividend date is the day after the last day with the right to the earning. */
  lemma ExDateFollowsPrevDate(symbol: string, e: Earning)
    requires DividendRowOf(symbol, e).Ok?
    ensures var row := DividendRowOf(symbol, e).value;
      && ParseIso(row.prevDate).Some?
      && ParseIso(row.exDate) == NextDay(ParseIso(row.prevDate).value)
  {
    var row := DividendRowOf(symbol, e).value;
    var d := ParseIso(row.prevDate).value;
    assert TimedeltaDay(row.prevDate, 1) == Ok(row.exDate);
    if NextDay(d).Some? {
      assert AddDays(d, 1) == AddDays(NextDay(d).value, 0);
    }
  }

  function DividendRowFor(symbol: string): Earning -> Result<DividendRow> {
    (e: Earning) => DividendRowOf(symbol, e)
  }

  /**
   * The table download_dividends writes: one row per earning, in feed order, or the error of
   * the first earning that fails.
   */
  function DividendTable(symbol: string, earnings: seq<Earning>): Result<seq<DividendRow>> {
    Collect(MapSeq(DividendRowFor(symbol), earnings))
  }

  lemma OutcomeAt(symbol: string, earnings: seq<Earning>, i: int)
    requires 0 <= i < |earnings|
    ensures MapSeq(DividendRowFor(symbol), earnings)[i] == DividendRowOf(symbol, earnings[i])
  {
  }

  /** download_dividends after the page is fetched: build the rows one earning at a time. */
  method DownloadDividends(symbol: string, earnings: seq<Earning>) returns (r: Result<seq<DividendRow>>)
    ensures r == DividendTable(symbol, earnings)
  {
    ghost var outcomes := MapSeq(DividendRowFor(symbol), earnings);
    var df: seq<DividendRow> := [];
    CollectNone(outcomes);
    for i := 0 to |earnings|
      invariant Collect(outcomes[..i]) == Ok(df)
    {
      var row := DividendRowOf(symbol, earnings[i]);
      OutcomeAt(symbol, earnings, i);
      CollectNext(outcomes, i, df);
      if row.Err? {
        return Err(row.error);
      }
      df := df + [row.value];
    }
    CollectAll(outcomes);
    r := Ok(df);
  }

  /** The position of the first occurrence of `c` in `s`, or |s|. */
  function IndexOf(s: string, c: char): (k: nat)
    ensures k <= |s|
    ensures forall i :: 0 <= i < k ==> s[i] != c
    ensures k < |s| ==> s[k] == c
    decreases |s|
  {
    if s == [] || s[0] == c then 0 else 1 + IndexOf(s[1..], c)
  }

  lemma IndexOfAt(s: string, c: char, k: nat)
    requires k <= |s|
    requires forall i :: 0 <= i < k ==> s[i] != c
    requires k < |s| ==> s[k] == c
    ensures IndexOf(s, c) == k
  {
  }

  /** The value written by digits `ip`, a point and digits `fp`. */
  function DecimalValue(ip: string, fp: string): real
    requires AllDigits(ip) && AllDigits(fp)
  {
    DigitsValue(ip) as real + DigitsValue(fp) as real / Pow10(|fp|) as real
  }

  /** The position of the first exponent mark, 'e' or 'E', in `s`, or |s|. */
  function IndexOfExponent(s: string): (k: nat)
    ensures k <= |s|
    ensures forall i :: 0 <= i < k ==> s[i] != 'e' && s[i] != 'E'
    ensures k < |s| ==> s[k] == 'e' || s[k] == 'E'
    decreases |s|
  {
    if s == [] || s[0] == 'e' || s[0] == 'E' then 0 else 1 + IndexOfExponent(s[1..])
  }

  /** The part of float()'s grammar before the exponent: digit parts around an optional point, one of them present. */
  function ParseMantissa(m: string): Option<real> {
    var k := IndexOf(m, '.');
    var ip := m[..k];
    var fp := if k < |m| then m[k + 1..] else "";
    if (ip == "" || DigitPart(ip)) && (fp == "" || DigitPart(fp)) && |ip| + |fp| > 0 then
      Some(DecimalValue(DropUnderscores(ip), DropUnderscores(fp)))
    else None
  }

  /** Whether a text starts with '-'. */
  predicate Negative(t: string) {
    |t| > 0 && t[0] == '-'
  }

  /** A text without its leading '+' or '-', if it has one. */
  function Unsigned(t: string): string {
    if |t| > 0 && (t[0] == '-' || t[0] == '+') then t[1..] else t
  }

  /** The part of float()'s grammar after 'e': an optional sign and a digit part. */
  function ParseExponent(x: string): Option<int> {
    var d := Unsigned(x);
    if DigitPart(d) then
      var n: int := DigitsValue(DropUnderscores(d));
      Some(if Negative(x) then -n else n)
    else None
  }

  /** `m` times ten to the power `x`, for any integer `x`. */
  function Scaled(m: real, x: int): real {
    if x >= 0 then m * Pow10(x) as real else m / Pow10(-x) as real
  }

  /** A number without its sign: a mantissa scaled by the exponent, when there is one. */
  function ParseUnsigned(body: string): Option<real> {
    var e := IndexOfExponent(body);
    if e == |body| then ParseMantissa(body)
    else
      var mantissa := ParseMantissa(body[..e]);
      var exponent := ParseExponent(body[e + 1..]);
      if mantissa.Some? && exponent.Some? then Some(Scaled(mantissa.value, exponent.value)) else None
  }

  /** A number with an optional sign in front. */
  function ParseSigned(t: string): Option<real> {
    match ParseUnsigned(Unsigned(t))
    case None => None
    case Some(magnitude) => Some(if Negative(t) then -magnitude else magnitude)
  }

  /**
   * float(s) for finite decimal texts: surrounding whitespace ignored, an optional sign,
   * a mantissa and an optional exponent, digit parts possibly split by single underscores.
   */
  function ParseDecimal(s: string): Option<real> {
    ParseSigned(Strip(s))
  }

  /** Whitespace of any kind around a number does not change what float() reads. */
  lemma ParseDecimalSurrounded(lead: string, s: string, trail: string)
    requires AllSpace(lead) && AllSpace(trail)
    ensures ParseDecimal(lead + s + trail) == ParseDecimal(s)
  {
    StripSurrounding(lead, s, trail);
  }

  /** A text starting with a digit has no whitespace or sign to remove. */
  lemma StartsWithDigit(s: string)
    requires |s| > 0 && IsDigit(s[0]) && (IsDigit(s[|s| - 1]) || s[|s| - 1] == '.')
    ensures ParseDecimal(s) == ParseUnsigned(s)
  {
    assert !IsSpace(s[0]) && !IsSpace(s[|s| - 1]);
    StripKeepsCore(s);
    assert s[0] != '-' && s[0] != '+';
    SignlessNumber(s);
  }

  /** A text that does not start with a sign is read unsigned. */
  lemma SignlessNumber(t: string)
    requires |t| > 0 && t[0] != '-' && t[0] != '+'
    ensures ParseSigned(t) == ParseUnsigned(t)
  {
    assert !Negative(t) && Unsigned(t) == t;
  }

  /** A mantissa of digits, a point and digits reads as its decimal value. */
  lemma MantissaDigits(ip: string, fp: string)
    requires AllDigits(ip) && AllDigits(fp) && |ip| > 0
    ensures ParseMantissa(ip + "." + fp) == Some(DecimalValue(ip, fp))
  {
    var m := ip + "." + fp;
    IndexOfAt(m, '.', |ip|);
    assert m[..|ip|] == ip && m[|ip| + 1..] == fp;
    DigitsArePart(ip);
    if fp != "" {
      DigitsArePart(fp);
    }
  }

  /** A mantissa of digits alone reads as their value. */
  lemma MantissaInteger(ip: string)
    requires DigitPart(ip)
    ensures ParseMantissa(ip) == Some(DigitsValue(DropUnderscores(ip)) as real)
  {
    IndexOfAt(ip, '.', |ip|);
    assert ip[..|ip|] == ip;
    var d := DropUnderscores(ip);
    assert DropUnderscores("") == "";
    assert DecimalValue(d, "") == DigitsValue(d) as real;
  }

  /** A text of digit characters and points has no exponent mark. */
  lemma NoExponentMark(s: string)
    requires forall i :: 0 <= i < |s| ==> IsDigit(s[i]) || s[i] == '.' || s[i] == '_'
    ensures IndexOfExponent(s) == |s|
  {
  }

  lemma ParseDecimalDigits(ip: string, fp: string)
    requires AllDigits(ip) && AllDigits(fp) && |ip| > 0
    ensures ParseDecimal(ip + "." + fp) == Some(DecimalValue(ip, fp))
  {
    var s := ip + "." + fp;
    assert ParseUnsigned(s) == Some(DecimalValue(ip, fp)) by {
      NoExponentMark(s);
      UnsignedWithoutExponent(s);
      MantissaDigits(ip, fp);
    }
    assert s[0] == ip[0] && IsDigit(ip[0]);
    assert IsDigit(s[|s| - 1]) || s[|s| - 1] == '.';
    StartsWithDigit(s);
  }

  lemma IndexOfExponentAt(s: string, k: nat)
    requires k < |s| && (s[k] == 'e' || s[k] == 'E')
    requires forall i :: 0 <= i < k ==> s[i] != 'e' && s[i] != 'E'
    ensures IndexOfExponent(s) == k
  {
  }

  /** An exponent whose text after the sign is the digits `d` is their value, negated after '-'. */
  lemma ExponentOf(t: string, d: string)
    requires Unsigned(t) == d && AllDigits(d) && |d| > 0
    ensures ParseExponent(t) == Some(if Negative(t) then -(DigitsValue(d) as int) else DigitsValue(d))
  {
    DigitsArePart(d);
  }

  /** An exponent of digits with no sign. */
  lemma ExponentPlain(x: string)
    requires AllDigits(x) && |x| > 0
    ensures ParseExponent(x) == Some(DigitsValue(x) as int)
  {
    assert IsDigit(x[0]) && Unsigned(x) == x && !Negative(x);
    ExponentOf(x, x);
  }

  /** An exponent of digits after '-' is their value negated. */
  lemma ExponentMinus(x: string)
    requires AllDigits(x) && |x| > 0
    ensures ParseExponent("-" + x) == Some(-(DigitsValue(x) as int))
  {
    MinusPrefix(x);
    ExponentOf("-" + x, x);
  }

  /** An exponent of digits after '+' is their value. */
  lemma ExponentPlus(x: string)
    requires AllDigits(x) && |x| > 0
    ensures ParseExponent("+" + x) == Some(DigitsValue(x) as int)
  {
    PlusPrefix(x);
    ExponentOf("+" + x, x);
  }

  /** A '-' in front of a text is split off again. */
  lemma MinusPrefix(x: string)
    ensures Unsigned("-" + x) == x && Negative("-" + x)
  {
    assert ("-" + x)[0] == '-' && ("-" + x)[1..] == x;
  }

  /** A '+' in front of a text is split off again. */
  lemma PlusPrefix(x: string)
    ensures Unsigned("+" + x) == x && !Negative("+" + x)
  {
    assert ("+" + x)[0] == '+' && ("+" + x)[1..] == x;
  }

  /** The value of an exponent of sign `sign` and magnitude `n`. */
  function SignedExponent(sign: string, n: nat): int {
    if sign == "-" then -(n as int) else n
  }

  /** An exponent of digits, with or without a sign. */
  lemma ExponentDigits(sign: string, x: string)
    requires AllDigits(x) && |x| > 0
    requires sign == "" || sign == "+" || sign == "-"
    ensures ParseExponent(sign + x) == Some(SignedExponent(sign, DigitsValue(x)))
  {
    if sign == "" {
      assert sign + x == x;
      ExponentPlain(x);
    } else if sign == "-" {
      ExponentMinus(x);
    } else {
      ExponentPlus(x);
    }
  }

  /**
   * An exponent of digits scales the mantissa of digits by that power of ten,
   * up after no sign or '+', down after '-'.
   */
  lemma ParseDecimalExponent(ip: string, sign: string, x: string)
    requires AllDigits(ip) && |ip| > 0 && AllDigits(x) && |x| > 0
    requires sign == "" || sign == "+" || sign == "-"
    ensures ParseDecimal(ip + "e" + sign + x) ==
      Some(Scaled(DigitsValue(ip) as real, SignedExponent(sign, DigitsValue(x))))
  {
    var s := ip + "e" + sign + x;
    var v := SignedExponent(sign, DigitsValue(x));
    assert ParseUnsigned(s) == Some(Scaled(DigitsValue(ip) as real, v)) by {
      MantissaOfDigits(ip);
      ExponentDigits(sign, x);
      UnsignedWithExponent(ip, sign, x, DigitsValue(ip) as real, v);
    }
    assert s[0] == ip[0] && IsDigit(ip[0]);
    assert s[|s| - 1] == x[|x| - 1] && IsDigit(x[|x| - 1]);
    StartsWithDigit(s);
  }

  /** Where the exponent mark of digits, 'e' and an exponent text falls, and the two sides of it. */
  lemma ExponentSplit(ip: string, sign: string, x: string)
    requires AllDigits(ip)
    ensures var s := ip + "e" + sign + x;
      && IndexOfExponent(s) == |ip| < |s|
      && s[..|ip|] == ip && s[|ip| + 1..] == sign + x
  {
    var s := ip + "e" + sign + x;
    assert s[|ip|] == 'e';
    assert forall i :: 0 <= i < |ip| ==> s[i] == ip[i];
    IndexOfExponentAt(s, |ip|);
    assert s[..|ip|] == ip;
    assert s[|ip| + 1..] == sign + x;
  }

  /** A mantissa of plain digits reads as their value. */
  lemma MantissaOfDigits(ip: string)
    requires AllDigits(ip) && |ip| > 0
    ensures ParseMantissa(ip) == Some(DigitsValue(ip) as real)
  {
    DigitsArePart(ip);
    MantissaInteger(ip);
  }

  /** Digits, an exponent mark and an exponent: the mantissa before the mark scaled by the exponent after it. */
  lemma UnsignedWithExponent(ip: string, sign: string, x: string, m: real, v: int)
    requires AllDigits(ip)
    requires ParseMantissa(ip) == Some(m) && ParseExponent(sign + x) == Some(v)
    ensures ParseUnsigned(ip + "e" + sign + x) == Some(Scaled(m, v))
  {
    ExponentSplit(ip, sign, x);
  }

  /** An underscore between two runs of digits is ignored. */
  lemma ParseDecimalUnderscore(a: string, b: string)
    requires AllDigits(a) && |a| > 0 && AllDigits(b) && |b| > 0
    ensures ParseDecimal(a + "_" + b) == Some(DigitsValue(a + b) as real)
  {
    var s := a + "_" + b;
    assert ParseUnsigned(s) == Some(DigitsValue(a + b) as real) by {
      UnderscorePart(a, b);
      NoExponentMark(s);
      UnsignedWithoutExponent(s);
      MantissaInteger(s);
      UnderscoreDropped(a, b);
    }
    assert s[0] == a[0] && IsDigit(a[0]);
    assert s[|s| - 1] == b[|b| - 1] && IsDigit(b[|b| - 1]);
    StartsWithDigit(s);
  }

  /** Two runs of digits joined by an underscore form a digit part. */
  lemma UnderscorePart(a: string, b: string)
    requires AllDigits(a) && |a| > 0 && AllDigits(b) && |b| > 0
    ensures DigitPart(a + "_" + b)
  {
    var s := a + "_" + b;
    assert forall i :: 0 <= i < |s| ==> s[i] == if i < |a| then a[i] else if i == |a| then '_' else b[i - |a| - 1];
  }

  /** A number without an exponent mark is its mantissa alone. */
  lemma UnsignedWithoutExponent(body: string)
    requires IndexOfExponent(body) == |body|
    ensures ParseUnsigned(body) == ParseMantissa(body)
  {
  }

  lemma UnderscoreDropped(a: string, b: string)
    requires AllDigits(a) && AllDigits(b)
    ensures DropUnderscores(a + "_" + b) == a + b
  {
    DropUnderscoresAppend(a + "_", b);
    UnderscoreAfterDigits(a);
    DropNoUnderscores(b);
  }

  lemma UnderscoreAfterDigits(a: string)
    requires AllDigits(a)
    ensures DropUnderscores(a + "_") == a
  {
    DropUnderscoresAppend(a, "_");
    DropNoUnderscores(a);
    assert DropUnderscores("_") == "";
  }

  /**
   * A number on a bonus card made numeric as download_bonus does it: `unit` dropped
   * ("R$ " before a value, "%" after a proportion), the decimal comma made a point,
   * and the rest read by float().
   */
  function ParseCardNumber(text: string, unit: string): (r: Result<real>)
    requires |unit| > 0
    ensures var normalised := ReplaceAll(ReplaceAll(text, unit, ""), ",", ".");
      && (r.Ok? <==> ParseDecimal(normalised).Some?)
      && (r.Ok? ==> r.value == ParseDecimal(normalised).value)
      && (r.Err? ==> r.error == InvalidNumber(normalised))
  {
    var normalised := ReplaceAll(ReplaceAll(text, unit, ""), ",", ".");
    match ParseDecimal(normalised)
    case None => Err(InvalidNumber(normalised))
    case Some(v) => Ok(v)
  }

  /** The value card of download_bonus. */
  function ParseBonusValue(text: string): Result<real> {
    ParseCardNumber(text, "R$ ")
  }

  /** The proportion card of download_bonus. */
  function ParseProportion(text: string): Result<real> {
    ParseCardNumber(text, "%")
  }

  /** Replacing the decimal comma gives the point form; whitespace after the number is kept. */
  lemma CommaBecomesPoint(ip: string, fp: string, trail: string)
    requires AllDigits(ip) && AllDigits(fp) && AllSpace(trail)
    ensures ReplaceAll(ip + "," + fp + trail, ",", ".") == ip + "." + fp + trail
  {
    var s := ip + "," + fp + trail;
    var t := ip + "." + fp + trail;
    ReplaceCharPointwise(s, ',', '.');
    var r := ReplaceAll(s, ",", ".");
    assert forall i :: 0 <= i < |s| ==> r[i] == t[i] by {
      forall i | 0 <= i < |s| ensures r[i] == t[i] {
        if i < |ip| {
          assert s[i] == ip[i] && t[i] == ip[i] && IsDigit(ip[i]);
        } else if |ip| < i <= |ip| + |fp| {
          assert s[i] == fp[i - |ip| - 1] && t[i] == fp[i - |ip| - 1] && IsDigit(fp[i - |ip| - 1]);
        } else if i > |ip| + |fp| {
          assert s[i] == trail[i - |ip| - |fp| - 1] && t[i] == trail[i - |ip| - |fp| - 1];
          assert IsSpace(trail[i - |ip| - |fp| - 1]);
        }
      }
    }
  }

  /** Digits, a decimal point, digits and whitespace read as the decimal value. */
  lemma DecimalWithTrailingSpace(ip: string, fp: string, trail: string)
    requires AllDigits(ip) && AllDigits(fp) && |ip| > 0 && AllSpace(trail)
    ensures ParseDecimal(ip + "." + fp + trail) == Some(DecimalValue(ip, fp))
  {
    assert AllSpace("");
    assert ip + "." + fp + trail == "" + (ip + "." + fp) + trail;
    ParseDecimalSurrounded("", ip + "." + fp, trail);
    ParseDecimalDigits(ip, fp);
  }

  /** A Brazilian currency text "R$ a,b", whitespace after it allowed, is worth a.b reais. */
  lemma BonusValueOfCurrencyText(ip: string, fp: string, trail: string)
    requires AllDigits(ip) && AllDigits(fp) && |ip| > 0 && AllSpace(trail)
    ensures ParseBonusValue("R$ " + ip + "," + fp + trail) == Ok(DecimalValue(ip, fp))
  {
    var rest := ip + "," + fp + trail;
    assert ("R$ " + ip + "," + fp + trail) == "R$ " + rest;
    assert ("R$ " + rest)[..3] == "R$ " && ("R$ " + rest)[3..] == rest;
    assert forall i :: 0 <= i < |rest| ==> rest[i] != 'R' by {
      forall i | 0 <= i < |rest| ensures rest[i] != 'R' {
        if i < |ip| {
          assert rest[i] == ip[i] && IsDigit(ip[i]);
        } else if |ip| < i <= |ip| + |fp| {
          assert rest[i] == fp[i - |ip| - 1] && IsDigit(fp[i - |ip| - 1]);
        } else if i > |ip| + |fp| {
          assert rest[i] == trail[i - |ip| - |fp| - 1] && IsSpace(trail[i - |ip| - |fp| - 1]);
        }
      }
    }
    ReplaceAbsent(rest, "R$ ", "");
    assert ReplaceAll("R$ " + rest, "R$ ", "") == rest;
    CommaBecomesPoint(ip, fp, trail);
    DecimalWithTrailingSpace(ip, fp, trail);
  }

  /** A percentage text "a,b %", with or without whitespace before the sign, is the proportion a.b. */
  lemma ProportionOfPercentText(ip: string, fp: string, gap: string)
    requires AllDigits(ip) && AllDigits(fp) && |ip| > 0 && AllSpace(gap)
    ensures ParseProportion(ip + "," + fp + gap + "%") == Ok(DecimalValue(ip, fp))
  {
    var rest := ip + "," + fp + gap;
    assert ip + "," + fp + gap + "%" == rest + ['%'];
    assert forall i :: 0 <= i < |rest| ==> rest[i] != '%' by {
      forall i | 0 <= i < |rest| ensures rest[i] != '%' {
        if i < |ip| {
          assert rest[i] == ip[i] && IsDigit(ip[i]);
        } else if |ip| < i <= |ip| + |fp| {
          assert rest[i] == fp[i - |ip| - 1] && IsDigit(fp[i - |ip| - 1]);
        } else if i > |ip| + |fp| {
          assert rest[i] == gap[i - |ip| - |fp| - 1] && IsSpace(gap[i - |ip| - |fp| - 1]);
        }
      }
    }
    DeleteFinal(rest, '%');
    CommaBecomesPoint(ip, fp, gap);
    DecimalWithTrailingSpace(ip, fp, gap);
  }

  /** The cells of one bonus card the loop of download_bonus reads. */
  datatype BonusCard = BonusCard(exDate: string, incorporationDate: string, value: string, proportion: string, newTicker: string)

  /** A row of bonus-<symbol>.csv. */
  datatype BonusRow = BonusRow(
    symbol: string, exDate: string, prevDate: string, incorporationDate: string,
    proportion: real, value: real, newTicker: string)

  /** The body of download_bonus' loop for one card. */
  function BonusRowOf(symbol: string, card: BonusCard): (r: Result<BonusRow>)
    ensures r.Ok? ==> r.value.symbol == symbol && r.value.exDate == ValidateDate(card.exDate)
    ensures r.Ok? ==> r.value.incorporationDate == ValidateDate(card.incorporationDate)
    ensures r.Ok? ==> r.value.newTicker == Strip(card.newTicker)
  {
    var exDate := ValidateDate(card.exDate);
    match TimedeltaDay(exDate, -1)
    case Err(err) => Err(err)
    case Ok(prevDate) =>
      var incorporationDate := ValidateDate(card.incorporationDate);
      match ParseBonusValue(card.value)
      case Err(err) => Err(err)
      case Ok(value) =>
        match ParseProportion(card.proportion)
        case Err(err) => Err(err)
        case Ok(proportion) =>
          Ok(BonusRow(symbol, exDate, prevDate, incorporationDate, proportion, value, Strip(card.newTicker)))
  }

  /** The card's value and proportion are read through the comma-to-point normalisation. */
  lemma BonusRowNumbers(symbol: string, card: BonusCard)
    requires BonusRowOf(symbol, card).Ok?
    ensures var row := BonusRowOf(symbol, card).value;
      Ok(row.value) == ParseBonusValue(card.value) && Ok(row.proportion) == ParseProportion(card.proportion)
  {
  }

  /** For a bonus, the last day with the right is the day before the ex date. */
  lemma BonusPrevDatePrecedes(symbol: string, card: BonusCard)
    requires BonusRowOf(symbol, card).Ok?
    ensures var row := BonusRowOf(symbol, card).value;
      && ParseIso(row.exDate).Some?
      && ParseIso(row.prevDate) == PrevDay(ParseIso(row.exDate).value)
  {
    var row := BonusRowOf(symbol, card).value;
    var d := ParseIso(row.exDate).value;
    assert TimedeltaDay(row.exDate, -1) == Ok(row.prevDate);
    if PrevDay(d).Some? {
      assert AddDays(d, -1) == AddDays(PrevDay(d).value, 0);
    }
  }

  function BonusRowFor(symbol: string): BonusCard -> Result<BonusRow> {
    (c: BonusCard) => BonusRowOf(symbol, c)
  }

  /** The table download_bonus writes, one row per card, or the error of the first card that fails. */
  function BonusTable(symbol: string, cards: seq<BonusCard>): Result<seq<BonusRow>> {
    Collect(MapSeq(BonusRowFor(symbol), cards))
  }

  lemma BonusOutcomeAt(symbol: string, cards: seq<BonusCard>, i: int)
    requires 0 <= i < |cards|
    ensures MapSeq(BonusRowFor(symbol), cards)[i] == BonusRowOf(symbol, cards[i])
  {
  }

  /** download_bonus after the page is fetched: build the rows one card at a time. */
  method DownloadBonus(symbol: string, cards: seq<BonusCard>) returns (r: Result<seq<BonusRow>>)
    ensures r == BonusTable(symbol, cards)
  {
    ghost var outcomes := MapSeq(BonusRowFor(symbol), cards);
    var df: seq<BonusRow> := [];
    CollectNone(outcomes);
    for i := 0 to |cards|
      invariant Collect(outcomes[..i]) == Ok(df)
    {
      var row := BonusRowOf(symbol, cards[i]);
      BonusOutcomeAt(symbol, cards, i);
      CollectNext(outcomes, i, df);
      if row.Err? {
        return Err(row.error);
      }
      df := df + [row.value];
    }
    CollectAll(outcomes);
    r := Ok(df);
  }
}
