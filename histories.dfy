/**
 * The per-symbol tables derived from a portfolio table: the year-by-year invested amounts
 * (create_anual_amounts) and the day-by-day position story (create_story).
 */
module Histories {
  import opened Errors
  import opened Seqs
  import opened Money
  import opened Text
  import opened Calendar
  import opened Ledger
  import opened Grouping

  /** The year of a stored date, read with the format %Y-%m-%d. */
  function RowYear(r: Row): int {
    match ParseIso(r.date)
    case Some(d) => d.year
    case None => 0
  }

  /** A row of the groupby on year: that year's traded amount and invested value. */
  datatype YearTotal = YearTotal(year: int, symbol: string, amount: int, investment: real)

  /** A row of anual_amounts/portfolio-<symbol>.csv. */
  datatype AnnualRow = AnnualRow(year: int, symbol: string, amount: int, investment: real, accumulated: real)

  function Year(t: YearTotal): int {
    t.year
  }

  function Investment(t: YearTotal): real {
    t.investment
  }

  predicate YearLe(a: YearTotal, b: YearTotal) {
    a.year <= b.year
  }

  /** The years present in a table, ascending. */
  function Years(rows: seq<Row>): seq<int> {
    GroupKeys(rows, RowYear, IntLe)
  }

  /** groupby(["year", "symbol"]).agg(sum) over a table whose rows all carry `symbol`. */
  function YearTotals(symbol: string, rows: seq<Row>): (r: seq<YearTotal>)
    ensures |r| == |Years(rows)|
    ensures forall i :: 0 <= i < |r| ==> r[i].year == Years(rows)[i] && r[i].symbol == symbol
  {
    var years := Years(rows);
    var amounts := KeyCounts(rows, RowYear, RowAmount, years);
    var investments := KeyTotals(rows, RowYear, RowValue, years);
    seq(|years|, i requires 0 <= i < |years| => YearTotal(years[i], symbol, amounts[i], investments[i]))
  }

  /** The accumulated column: the cumsum of investment down the table. */
  function Accumulate(ts: seq<YearTotal>): (r: seq<AnnualRow>)
    ensures |r| == |ts|
  {
    var acc := CumSum(MapSeq(Investment, ts));
    seq(|ts|, i requires 0 <= i < |ts| => AnnualRow(ts[i].year, ts[i].symbol, ts[i].amount, ts[i].investment, acc[i]))
  }

  /** Rows whose years strictly increase down the sequence. */
  predicate YearsAscending(ts: seq<YearTotal>) {
    forall i, j :: 0 <= i < j < |ts| ==> ts[i].year < ts[j].year
  }

  /**
   * The annual table built from the per-year sums: a zero row one year before the first year,
   * sorted by year, with the running total of investment.
   */
  function AnnualOf(totals: seq<YearTotal>): (r: seq<AnnualRow>)
    requires |totals| > 0
    ensures |r| == |totals| + 1
  {
    Accumulate(Sort(totals + [ZeroRow(totals)], YearLe))
  }

  /** The zero row create_anual_amounts adds: the year before the earliest one, with nothing traded. */
  function ZeroRow(totals: seq<YearTotal>): YearTotal
    requires |totals| > 0
  {
    YearTotal(MinInt(MapSeq(Year, totals)) - 1, totals[0].symbol, 0, 0.0)
  }

  /**
   * The body of create_anual_amounts for one table. An empty table has no minimum year and
   * fails.
   */
  function AnnualAmounts(symbol: string, rows: seq<Row>): (r: Result<seq<AnnualRow>>)
    ensures r.Err? <==> rows == []
    ensures r.Err? ==> r.error == EmptyTable
    ensures r.Ok? ==> |r.value| == |Years(rows)| + 1
  {
    if rows == [] then Err(EmptyTable)
    else
      assert RowYear(rows[0]) in Years(rows);
      Ok(AnnualOf(YearTotals(symbol, rows)))
  }

  /** The years of a table strictly increase down the year totals. */
  lemma YearsAscend(rows: seq<Row>)
    ensures SortedBy(Years(rows), IntLe)
    ensures forall i, j :: 0 <= i < j < |Years(rows)| ==> Years(rows)[i] < Years(rows)[j]
  {
    IntLeTotalPreorder();
    GroupKeysSorted(rows, RowYear, IntLe);
  }

  lemma YearTotalsAscend(symbol: string, rows: seq<Row>)
    ensures YearsAscending(YearTotals(symbol, rows))
  {
    YearsAscend(rows);
  }

  lemma YearTotalAt(symbol: string, rows: seq<Row>, i: int)
    requires 0 <= i < |Years(rows)|
    ensures var t := YearTotals(symbol, rows)[i];
      && t.year == Years(rows)[i] && t.symbol == symbol
      && t.amount == Count(Filter(rows, KeyIs(RowYear, Years(rows)[i])), RowAmount)
      && t.investment == Total(Filter(rows, KeyIs(RowYear, Years(rows)[i])), RowValue)
  {
  }

  lemma YearLeTotalPreorder()
    ensures TotalPreorder(YearLe)
  {
  }

  /** With years ascending, the minimum year is the first. */
  lemma MinYearIsFirst(ts: seq<YearTotal>)
    requires |ts| > 0 && YearsAscending(ts)
    ensures MinInt(MapSeq(Year, ts)) == ts[0].year
  {
    var keys := MapSeq(Year, ts);
    var m := MinInt(keys);
    assert keys[0] == ts[0].year;
    var k :| 0 <= k < |keys| && keys[k] == m;
    if k > 0 {
      assert ts[0].year < ts[k].year;
    }
  }

  /** The zero row create_anual_amounts adds: nothing traded the year before the first. */
  function ZeroOf(ts: seq<YearTotal>): (z: YearTotal)
    requires |ts| > 0
    ensures YearsAscending(ts) ==> forall i :: 0 <= i < |ts| ==> z.year < ts[i].year
  {
    YearTotal(ts[0].year - 1, ts[0].symbol, 0, 0.0)
  }

  /** Sorting by year puts the zero row first and keeps the ascending year totals in order. */
  lemma AnnualOfZeroFirst(ts: seq<YearTotal>)
    requires |ts| > 0 && YearsAscending(ts)
    ensures AnnualOf(ts) == Accumulate([ZeroOf(ts)] + ts)
    ensures YearsAscending([ZeroOf(ts)] + ts)
  {
    var zero := ZeroOf(ts);
    MinYearIsFirst(ts);
    assert ZeroRow(ts) == zero;
    ZeroFirstSorted(ts, zero);
    ZeroFirstAscends(ts, zero);
  }

  lemma ZeroFirstSorted(totals: seq<YearTotal>, zero: YearTotal)
    requires YearsAscending(totals)
    requires forall i :: 0 <= i < |totals| ==> zero.year < totals[i].year
    ensures Sort(totals + [zero], YearLe) == [zero] + totals
  {
    var expected := [zero] + totals;
    ZeroFirstAscends(totals, zero);
    assert multiset(totals + [zero]) == multiset(expected);
    SortByYear(totals + [zero], expected);
  }

  lemma ZeroFirstAscends(totals: seq<YearTotal>, zero: YearTotal)
    requires YearsAscending(totals)
    requires forall i :: 0 <= i < |totals| ==> zero.year < totals[i].year
    ensures YearsAscending([zero] + totals)
  {
    var expected := [zero] + totals;
    forall i, j | 0 <= i < j < |expected| ensures expected[i].year < expected[j].year {
      assert expected[j] == totals[j - 1];
      if i > 0 {
        assert expected[i] == totals[i - 1];
      }
    }
  }

  /** Rows whose years strictly increase are the one arrangement sorting by year can produce. */
  lemma SortByYear(s: seq<YearTotal>, expected: seq<YearTotal>)
    requires YearsAscending(expected)
    requires multiset(s) == multiset(expected)
    ensures Sort(s, YearLe) == expected
  {
    assert AntisymmetricOn(expected, YearLe);
    assert SortedBy(expected, YearLe);
    YearLeTotalPreorder();
    SortIsUnique(s, expected, YearLe);
  }

  /** Each annual row carries its year total and the running total of investment up to it. */
  lemma AccumulateAt(ts: seq<YearTotal>, i: int)
    requires 0 <= i < |ts|
    ensures var r := Accumulate(ts)[i];
      && r.year == ts[i].year && r.symbol == ts[i].symbol
      && r.amount == ts[i].amount && r.investment == ts[i].investment
      && r.accumulated == CumSum(MapSeq(Investment, ts))[i]
  {
  }

  /** The annual table is the zero row followed by the year totals, with the running total. */
  lemma AnnualIsZeroThenYears(symbol: string, rows: seq<Row>)
    requires rows != []
    ensures |YearTotals(symbol, rows)| > 0
    ensures YearsAscending([ZeroOf(YearTotals(symbol, rows))] + YearTotals(symbol, rows))
    ensures AnnualAmounts(symbol, rows) == Ok(Accumulate([ZeroOf(YearTotals(symbol, rows))] + YearTotals(symbol, rows)))
  {
    assert RowYear(rows[0]) in Years(rows);
    YearTotalsAscend(symbol, rows);
    AnnualOfZeroFirst(YearTotals(symbol, rows));
  }

  /** The first row of the annual table: the year before the first, nothing traded, nothing invested. */
  lemma AnnualZeroRow(symbol: string, rows: seq<Row>)
    requires rows != []
    ensures |Years(rows)| > 0
    ensures AnnualAmounts(symbol, rows).value[0] == AnnualRow(Years(rows)[0] - 1, symbol, 0, 0.0, 0.0)
  {
    var totals := YearTotals(symbol, rows);
    AnnualIsZeroThenYears(symbol, rows);
    AccumulatedZero(totals);
  }

  /**
   * After the zero row, the annual table has one row per year present, in order, whose amount
   * and investment are the sums over that year's operations.
   */
  lemma AnnualYearRows(symbol: string, rows: seq<Row>, i: int)
    requires 0 <= i < |Years(rows)|
    ensures rows != []
    ensures var r := AnnualAmounts(symbol, rows).value[i + 1];
      && r.year == Years(rows)[i] && r.symbol == symbol
      && r.amount == Count(Filter(rows, KeyIs(RowYear, Years(rows)[i])), RowAmount)
      && r.investment == Total(Filter(rows, KeyIs(RowYear, Years(rows)[i])), RowValue)
  {
    assert Years(rows)[i] in MapSeq(RowYear, rows);
    var totals := YearTotals(symbol, rows);
    AnnualIsZeroThenYears(symbol, rows);
    AccumulatedAfterZero(totals, i);
    YearTotalAt(symbol, rows, i);
  }

  /** The years of the annual table strictly increase. */
  lemma AnnualAscending(symbol: string, rows: seq<Row>)
    requires rows != []
    ensures var r := AnnualAmounts(symbol, rows).value; forall i, j :: 0 <= i < j < |r| ==> r[i].year < r[j].year
  {
    var totals := YearTotals(symbol, rows);
    AnnualIsZeroThenYears(symbol, rows);
    AccumulatedAscending([ZeroOf(totals)] + totals);
  }

  lemma AccumulatedZero(ts: seq<YearTotal>)
    requires |ts| > 0
    ensures Accumulate([ZeroOf(ts)] + ts)[0] == AnnualRow(ts[0].year - 1, ts[0].symbol, 0, 0.0, 0.0)
  {
    AccumulateAt([ZeroOf(ts)] + ts, 0);
  }

  /** Row i + 1 of the accumulated table is year total i, with the running investment up to it. */
  lemma AccumulatedAfterZero(ts: seq<YearTotal>, i: int)
    requires 0 <= i < |ts|
    ensures var r := Accumulate([ZeroOf(ts)] + ts)[i + 1];
      && r.year == ts[i].year && r.symbol == ts[i].symbol
      && r.amount == ts[i].amount && r.investment == ts[i].investment
      && r.accumulated == CumSum(MapSeq(Investment, ts))[i]
  {
    ZeroThenYearTotal(ts, i);
    ZeroThenRunning(ts, i);
  }

  lemma ZeroThenYearTotal(ts: seq<YearTotal>, i: int)
    requires 0 <= i < |ts|
    ensures var r := Accumulate([ZeroOf(ts)] + ts)[i + 1];
      && r.year == ts[i].year && r.symbol == ts[i].symbol
      && r.amount == ts[i].amount && r.investment == ts[i].investment
  {
    var expected := [ZeroOf(ts)] + ts;
    assert expected[i + 1] == ts[i];
    AccumulateAt(expected, i + 1);
  }

  lemma ZeroThenRunning(ts: seq<YearTotal>, i: int)
    requires 0 <= i < |ts|
    ensures Accumulate([ZeroOf(ts)] + ts)[i + 1].accumulated == CumSum(MapSeq(Investment, ts))[i]
  {
    AccumulateAt([ZeroOf(ts)] + ts, i + 1);
    RunningAfterZero(ts, i);
  }

  lemma RunningAfterZero(ts: seq<YearTotal>, i: int)
    requires 0 <= i < |ts|
    ensures CumSum(MapSeq(Investment, [ZeroOf(ts)] + ts))[i + 1] == CumSum(MapSeq(Investment, ts))[i]
  {
    ZeroThenInvestments(ts);
    CumSumAfterZero(MapSeq(Investment, ts), i);
  }

  lemma AccumulatedAscending(ts: seq<YearTotal>)
    requires YearsAscending(ts)
    ensures var r := Accumulate(ts); forall i, j :: 0 <= i < j < |r| ==> r[i].year < r[j].year
  {
    forall i, j | 0 <= i < j < |ts| ensures Accumulate(ts)[i].year < Accumulate(ts)[j].year {
      AccumulateAt(ts, i);
      AccumulateAt(ts, j);
    }
  }

  /** The investments of the zero row and the year totals after it. */
  lemma ZeroThenInvestments(ts: seq<YearTotal>)
    requires |ts| > 0
    ensures MapSeq(Investment, [ZeroOf(ts)] + ts) == [0.0] + MapSeq(Investment, ts)
  {
    var z := ZeroOf(ts);
    MapAppend(Investment, [z], ts);
    assert MapSeq(Investment, [z]) == [0.0];
  }

  /** The investment column of the year totals is the per-year total of the operations' values. */
  lemma YearInvestments(symbol: string, rows: seq<Row>)
    ensures MapSeq(Investment, YearTotals(symbol, rows)) == KeyTotals(rows, RowYear, RowValue, Years(rows))
  {
  }

  /** The running investment down the year totals is the value of every operation up to that year. */
  lemma YearTotalsRunning(symbol: string, rows: seq<Row>, i: int)
    requires 0 <= i < |Years(rows)|
    ensures CumSum(MapSeq(Investment, YearTotals(symbol, rows)))[i]
      == Total(Filter(rows, KeyAtMost(RowYear, IntLe, Years(rows)[i])), RowValue)
  {
    var years := Years(rows);
    YearInvestments(symbol, rows);
    CumulativeTotal(rows, RowYear, RowValue, years, i);
    YearsPrefix(rows, i);
  }

  /** The accumulated value of a year is the investment of every operation made up to that year. */
  lemma AnnualAccumulated(symbol: string, rows: seq<Row>, i: int)
    requires 0 <= i < |Years(rows)|
    ensures rows != []
    ensures AnnualAmounts(symbol, rows).value[i + 1].accumulated
      == Total(Filter(rows, KeyAtMost(RowYear, IntLe, Years(rows)[i])), RowValue)
  {
    assert Years(rows)[i] in MapSeq(RowYear, rows);
    var totals := YearTotals(symbol, rows);
    AnnualIsZeroThenYears(symbol, rows);
    AccumulatedAfterZero(totals, i);
    YearTotalsRunning(symbol, rows, i);
  }

  /** The years up to the i-th are exactly the years at most the i-th. */
  lemma YearsPrefix(rows: seq<Row>, i: int)
    requires 0 <= i < |Years(rows)|
    ensures Filter(rows, KeyIn(RowYear, Years(rows)[..i + 1])) == Filter(rows, KeyAtMost(RowYear, IntLe, Years(rows)[i]))
  {
    var years := Years(rows);
    YearsAscend(rows);
    assert AntisymmetricOn(years, IntLe);
    assert forall j :: 0 <= j < |years| ==> IntLe(years[j], years[j]);
    assert forall j :: 0 <= j < |rows| ==> RowYear(rows[j]) in years;
    PrefixIsAtMost(rows, RowYear, IntLe, years, i);
  }

  /** Putting a zero in front of a sequence shifts its running totals by one place. */
  lemma CumSumAfterZero(xs: seq<real>, i: int)
    requires 0 <= i < |xs|
    ensures CumSum([0.0] + xs)[i + 1] == CumSum(xs)[i]
  {
    assert ([0.0] + xs)[1..] == xs;
  }

  /** The last accumulated value is the symbol's whole investment. */
  lemma AnnualTotal(symbol: string, rows: seq<Row>)
    requires rows != []
    ensures var r := AnnualAmounts(symbol, rows).value; r[|r| - 1].accumulated == Total(rows, RowValue)
  {
    var k := |Years(rows)| - 1;
    var r := AnnualAmounts(symbol, rows).value;
    assert r[k + 1].accumulated == Total(rows, RowValue) by {
      UpToLastYear(rows);
      AnnualAccumulated(symbol, rows, k);
    }
    assert |r| - 1 == k + 1;
  }

  /** Every operation is made in or before the last year. */
  lemma UpToLastYear(rows: seq<Row>)
    requires rows != []
    ensures |Years(rows)| > 0
    ensures Filter(rows, KeyAtMost(RowYear, IntLe, Years(rows)[|Years(rows)| - 1])) == rows
  {
    var years := Years(rows);
    assert years == GroupKeys(rows, RowYear, IntLe);
    UpToLastKey(rows, RowYear);
  }

  /** A row of stories/portfolio-<symbol>.csv: the position held at the end of a trading day. */
  datatype StoryRow = StoryRow(date: string, symbol: string, amount: int, value: real, price: Option<real>)

  function StoryDate(r: StoryRow): string {
    r.date
  }

  /** The trading days of a table, ascending. */
  function Dates(rows: seq<Row>): seq<string> {
    GroupKeys(rows, RowDate, StrLe)
  }

  /**
   * The body of create_story for one table: group the operations by day, then the cumsum of
   * amount and value, and the average price value / amount (not finite when nothing is held).
   */
  function Story(symbol: string, rows: seq<Row>): (r: seq<StoryRow>)
    ensures |r| == |Dates(rows)|
    ensures forall i :: 0 <= i < |r| ==> r[i].date == Dates(rows)[i] && r[i].symbol == symbol
  {
    var dates := Dates(rows);
    var amounts := CumCount(KeyCounts(rows, RowDate, RowAmount, dates));
    var values := CumSum(KeyTotals(rows, RowDate, RowValue, dates));
    seq(|dates|, i requires 0 <= i < |dates| =>
      StoryRow(dates[i], symbol, amounts[i], values[i], Ratio(values[i], amounts[i] as real)))
  }

  lemma DatesAscend(rows: seq<Row>)
    ensures SortedBy(Dates(rows), StrLe)
    ensures forall i, j :: 0 <= i < j < |Dates(rows)| ==> StrLt(Dates(rows)[i], Dates(rows)[j])
  {
    StrLeTotalPreorder();
    GroupKeysSorted(rows, RowDate, StrLe);
  }

  /** One story row per trading day, strictly ascending. */
  lemma StoryAscends(symbol: string, rows: seq<Row>)
    ensures var r := Story(symbol, rows); forall i, j :: 0 <= i < j < |r| ==> StrLt(r[i].date, r[j].date)
  {
    DatesAscend(rows);
  }

  /** Every trading day of the table has its story row. */
  lemma StoryCoversRows(symbol: string, rows: seq<Row>)
    ensures var r := Story(symbol, rows); forall k :: 0 <= k < |rows| ==> exists i :: 0 <= i < |r| && r[i].date == rows[k].date
  {
    var r := Story(symbol, rows);
    var dates := Dates(rows);
    forall k | 0 <= k < |rows| ensures exists i :: 0 <= i < |r| && r[i].date == rows[k].date {
      assert RowDate(rows[k]) in dates;
      var i :| 0 <= i < |dates| && dates[i] == RowDate(rows[k]);
      assert r[i].date == rows[k].date;
    }
  }

  /** Every story row is a day on which the table has an operation. */
  lemma StoryFromRows(symbol: string, rows: seq<Row>)
    ensures var r := Story(symbol, rows); forall i :: 0 <= i < |r| ==> exists k :: 0 <= k < |rows| && rows[k].date == r[i].date
  {
    var r := Story(symbol, rows);
    var dates := Dates(rows);
    forall i | 0 <= i < |r| ensures exists k :: 0 <= k < |rows| && rows[k].date == r[i].date {
      assert dates[i] in MapSeq(RowDate, rows);
      var k :| 0 <= k < |rows| && MapSeq(RowDate, rows)[k] == dates[i];
      assert rows[k].date == r[i].date;
    }
  }

  /**
   * The position of a day is the sum of the amounts and values of every operation dated on
   * or before it, and its price is value / amount when that amount is not zero.
   */
  lemma StoryHoldings(symbol: string, rows: seq<Row>, i: int)
    requires 0 <= i < |Story(symbol, rows)|
    ensures var r := Story(symbol, rows)[i];
      && r.amount == Count(Filter(rows, KeyAtMost(RowDate, StrLe, r.date)), RowAmount)
      && r.value == Total(Filter(rows, KeyAtMost(RowDate, StrLe, r.date)), RowValue)
      && r.price == Ratio(r.value, r.amount as real)
  {
    var dates := Dates(rows);
    CumulativeCount(rows, RowDate, RowAmount, dates, i);
    CumulativeTotal(rows, RowDate, RowValue, dates, i);
    DatesAscend(rows);
    StrLeAntisymmetric(dates);
    PrefixIsAtMost(rows, RowDate, StrLe, dates, i);
  }
}
