/**
 * The consolidated portfolio (create_portfolio): one position per symbol with its summed
 * amount and investment and average price, each position's share of the whole investment,
 * sorted by share and then investment, largest first.
 */
module Positions {
  import opened Errors
  import opened Seqs
  import opened Money
  import opened Text
  import opened Ledger
  import opened Grouping

  /** The symbol column of a portfolio row. */
  function RowSymbol(r: Row): string {
    if r.OperationRow? then r.symbol else ""
  }

  /** A row of the groupby on symbol: amount and investment summed, avg_price = investment / amount. */
  datatype Position = Position(symbol: string, amount: int, avgPrice: Option<real>, investment: real)

  function PositionInvestment(p: Position): real {
    p.investment
  }

  /** The symbols present in one portfolio table, ascending. */
  function Symbols(rows: seq<Row>): seq<string> {
    GroupKeys(rows, RowSymbol, StrLe)
  }

  /** The positions create_portfolio reads from one portfolio table. */
  function PositionsOf(rows: seq<Row>): (r: seq<Position>)
    ensures |r| == |Symbols(rows)|
    ensures forall i :: 0 <= i < |r| ==> r[i].symbol == Symbols(rows)[i]
  {
    var symbols := Symbols(rows);
    var amounts := KeyCounts(rows, RowSymbol, RowAmount, symbols);
    var investments := KeyTotals(rows, RowSymbol, RowValue, symbols);
    seq(|symbols|, i requires 0 <= i < |symbols| =>
      Position(symbols[i], amounts[i], Ratio(investments[i], amounts[i] as real), investments[i]))
  }

  /**
   * A position holds the sums over the rows of its symbol, and its average price times its
   * amount is its investment whenever the amount is not zero.
   */
  lemma PositionSums(rows: seq<Row>, i: int)
    requires 0 <= i < |Symbols(rows)|
    ensures var p := PositionsOf(rows)[i];
      && p.amount == Count(Filter(rows, KeyIs(RowSymbol, p.symbol)), RowAmount)
      && p.investment == Total(Filter(rows, KeyIs(RowSymbol, p.symbol)), RowValue)
      && p.avgPrice == Ratio(p.investment, p.amount as real)
  {
  }

  /** The positions of a table invest, together, everything the table's operations invested. */
  lemma PositionsInvestment(rows: seq<Row>)
    ensures Total(PositionsOf(rows), PositionInvestment) == Total(rows, RowValue)
  {
    var symbols := Symbols(rows);
    var investments := KeyTotals(rows, RowSymbol, RowValue, symbols);
    var ps := PositionsOf(rows);
    assert MapSeq(PositionInvestment, ps) == investments;
    TotalMapped(PositionInvestment, ps, Itself, PositionInvestment);
    KeyTotalsSum(rows, RowSymbol, RowValue, symbols);
    KeyedTotalIsTotal(rows, RowSymbol, RowValue, symbols);
    FilterAll(rows, KeyIn(RowSymbol, symbols));
  }

  /** The only symbol of a portfolio table whose rows all belong to one symbol. */
  lemma OneSymbol(symbol: string, rows: seq<Row>)
    requires rows != []
    requires forall r :: r in rows ==> Fits(PortfolioTable(symbol), r)
    ensures Symbols(rows) == [symbol]
  {
    var symbols := Symbols(rows);
    assert rows[0] in rows;
    assert symbol in symbols by {
      assert RowSymbol(rows[0]) in symbols;
    }
    forall k | k in symbols ensures k == symbol {
      var j :| 0 <= j < |rows| && MapSeq(RowSymbol, rows)[j] == k;
      assert rows[j] in rows;
    }
    DistinctSingleton(symbols, symbol);
  }

  /** A portfolio table whose rows all belong to one symbol gives exactly one position. */
  lemma SingleSymbolTable(symbol: string, rows: seq<Row>)
    requires rows != []
    requires forall r :: r in rows ==> Fits(PortfolioTable(symbol), r)
    ensures var amount := Count(rows, RowAmount);
      var investment := Total(rows, RowValue);
      PositionsOf(rows) == [Position(symbol, amount, Ratio(investment, amount as real), investment)]
  {
    OneSymbol(symbol, rows);
    forall j | 0 <= j < |rows| ensures KeyIs(RowSymbol, symbol)(rows[j]) {
      assert rows[j] in rows;
    }
    FilterAll(rows, KeyIs(RowSymbol, symbol));
    PositionSums(rows, 0);
  }

  /** A sequence without repeats whose every element is `x`, and which holds `x`, is [x]. */
  lemma DistinctSingleton(s: seq<string>, x: string)
    requires Distinct(s) && x in s
    requires forall k :: k in s ==> k == x
    ensures s == [x]
  {
    AllSameCount(s, x);
    DistinctAtMostOnce(s, x);
    assert |s| == 1;
    assert s[0] in s;
  }

  /** A sequence whose every element is `x` holds `x` once per element. */
  lemma {:induction false} AllSameCount(s: seq<string>, x: string)
    requires forall k :: k in s ==> k == x
    ensures multiset(s)[x] == |s|
    decreases |s|
  {
    if s != [] {
      assert s == [s[0]] + s[1..];
      assert s[0] in s;
      assert forall k :: k in s[1..] ==> k in s;
      AllSameCount(s[1..], x);
    }
  }

  /** The positions of every listed portfolio table, table after table (the loop's pd.concat). */
  function AllPositions(tables: seq<seq<Row>>): seq<Position>
    decreases |tables|
  {
    if tables == [] then [] else AllPositions(tables[..|tables| - 1]) + PositionsOf(tables[|tables| - 1])
  }

  lemma AllPositionsSnoc(tables: seq<seq<Row>>, i: int)
    requires 0 <= i < |tables|
    ensures AllPositions(tables[..i + 1]) == AllPositions(tables[..i]) + PositionsOf(tables[i])
  {
    assert tables[..i + 1][..i] == tables[..i];
  }

  /** Each listed table contributes its own positions, in listing order. */
  lemma {:induction false} AllPositionsInvestment(tables: seq<seq<Row>>)
    ensures Total(AllPositions(tables), PositionInvestment) == TablesInvestment(tables)
    decreases |tables|
  {
    if tables != [] {
      var front := tables[..|tables| - 1];
      AllPositionsInvestment(front);
      TotalAppend(AllPositions(front), PositionsOf(tables[|tables| - 1]), PositionInvestment);
      PositionsInvestment(tables[|tables| - 1]);
    }
  }

  /** The value invested by every operation of every listed table. */
  function TablesInvestment(tables: seq<seq<Row>>): real
    decreases |tables|
  {
    if tables == [] then 0.0 else TablesInvestment(tables[..|tables| - 1]) + Total(tables[|tables| - 1], RowValue)
  }

  /** A percentage column value: a finite number or one of the non-finite floats x / 0 yields. */
  datatype Perc = Finite(value: real) | PlusInf | MinusInf | NotANumber

  /** round(investment / amount_invested * 100, 2). */
  function Share(investment: real, total: real): (p: Perc)
    ensures p.Finite? <==> total != 0.0
    ensures p.Finite? ==> investment / total * 100.0 - 0.005 < p.value <= investment / total * 100.0 + 0.005
    ensures p == PlusInf <==> total == 0.0 && investment > 0.0
    ensures p == MinusInf <==> total == 0.0 && investment < 0.0
    ensures p == NotANumber <==> total == 0.0 && investment == 0.0
  {
    if total != 0.0 then Finite(Round2(investment / total * 100.0))
    else if investment > 0.0 then PlusInf
    else if investment < 0.0 then MinusInf
    else NotANumber
  }

  /** A row of consolidated_portfolio.csv. */
  datatype Holding = Holding(symbol: string, amount: int, avgPrice: Option<real>, investment: real, perc: Perc)

  function WithShare(total: real): Position -> Holding {
    (p: Position) => Holding(p.symbol, p.amount, p.avgPrice, p.investment, Share(p.investment, total))
  }

  /**
   * The place of a percentage in a descending sort: infinity first, then the finite values,
   * then minus infinity, and NaN last, as pandas places missing values last.
   */
  function PercRank(p: Perc): int {
    match p
    case PlusInf => 3
    case Finite(_) => 2
    case MinusInf => 1
    case NotANumber => 0
  }

  function PercValue(p: Perc): real {
    if p.Finite? then p.value else 0.0
  }

  /** `a` may come before `b` in sort_values(["perc", "investment"], ascending=False). */
  predicate HoldingLe(a: Holding, b: Holding) {
    || PercRank(a.perc) > PercRank(b.perc)
    || (PercRank(a.perc) == PercRank(b.perc) && PercValue(a.perc) > PercValue(b.perc))
    || (PercRank(a.perc) == PercRank(b.perc) && PercValue(a.perc) == PercValue(b.perc) && a.investment >= b.investment)
  }

  lemma HoldingLeTotalPreorder()
    ensures TotalPreorder(HoldingLe)
  {
  }

  /**
   * create_portfolio's columns after the loop: with no portfolio table at all the frame has
   * no investment column and the sum fails; otherwise every position gets its share of the
   * total and the rows are sorted.
   */
  function Consolidate(tables: seq<seq<Row>>): (r: Result<seq<Holding>>)
    ensures r.Err? <==> tables == []
    ensures r.Err? ==> r.error == NoPortfolio
    ensures r.Ok? ==> |r.value| == |AllPositions(tables)|
  {
    if tables == [] then Err(NoPortfolio)
    else
      var positions := AllPositions(tables);
      var total := Total(positions, PositionInvestment);
      Ok(Sort(MapSeq(WithShare(total), positions), HoldingLe))
  }

  lemma ConsolidateOk(tables: seq<seq<Row>>, positions: seq<Position>)
    requires tables != [] && positions == AllPositions(tables)
    ensures Consolidate(tables) == Ok(Sort(MapSeq(WithShare(Total(positions, PositionInvestment)), positions), HoldingLe))
  {
  }

  /** The consolidated rows are exactly the positions with their shares, in some order. */
  lemma ConsolidateHoldings(tables: seq<seq<Row>>)
    requires tables != []
    ensures var total := TablesInvestment(tables);
      multiset(Consolidate(tables).value) == multiset(MapSeq(WithShare(total), AllPositions(tables)))
  {
    AllPositionsInvestment(tables);
  }

  /** The consolidated rows are sorted by share and then by investment, largest first. */
  lemma ConsolidateSorted(tables: seq<seq<Row>>)
    requires tables != []
    ensures SortedBy(Consolidate(tables).value, HoldingLe)
  {
    var positions := AllPositions(tables);
    var total := Total(positions, PositionInvestment);
    HoldingLeTotalPreorder();
    SortSorted(MapSeq(WithShare(total), positions), HoldingLe);
  }

  function ExactShare(total: real): Position -> real {
    (p: Position) => if total != 0.0 then p.investment / total * 100.0 else 0.0
  }

  /** Before rounding, the shares of the positions of a non-zero total add up to 100. */
  lemma ExactSharesSumTo100(ps: seq<Position>)
    requires Total(ps, PositionInvestment) != 0.0
    ensures Total(ps, ExactShare(Total(ps, PositionInvestment))) == 100.0
  {
    var total := Total(ps, PositionInvestment);
    var c := 100.0 / total;
    forall i | 0 <= i < |ps| ensures ExactShare(total)(ps[i]) == PositionInvestment(ps[i]) * c {
      assert ps[i].investment / total * 100.0 == ps[i].investment * (100.0 / total);
    }
    TotalPointwiseScaled(ps, ps, PositionInvestment, ExactShare(total), c);
    assert total * c == 100.0;
  }

  function HoldingPerc(h: Holding): real {
    PercValue(h.perc)
  }

  function RoundedShare(total: real): Position -> real {
    (p: Position) => HoldingPerc(WithShare(total)(p))
  }

  /** Rounding moves each share by at most half a cent. */
  lemma RoundedNearExact(ps: seq<Position>, total: real)
    requires total != 0.0
    ensures -0.005 * |ps| as real <= Total(ps, RoundedShare(total)) - Total(ps, ExactShare(total)) <= 0.005 * |ps| as real
  {
    forall i | 0 <= i < |ps| ensures -0.005 <= RoundedShare(total)(ps[i]) - ExactShare(total)(ps[i]) <= 0.005 {
      var p := ps[i];
      var h := WithShare(total)(p);
      assert h.perc == Share(p.investment, total);
      assert RoundedShare(total)(p) == HoldingPerc(h) == h.perc.value;
      assert ExactShare(total)(p) == p.investment / total * 100.0;
    }
    TotalWithin(ps, RoundedShare(total), ExactShare(total), 0.005);
  }

  /** The percentage column of the consolidated rows sums like the rounded shares of the positions. */
  lemma ConsolidatedPercTotal(tables: seq<seq<Row>>)
    requires tables != []
    ensures var positions := AllPositions(tables);
      Total(Consolidate(tables).value, HoldingPerc) == Total(positions, RoundedShare(Total(positions, PositionInvestment)))
  {
    var positions := AllPositions(tables);
    var total := Total(positions, PositionInvestment);
    var shared := MapSeq(WithShare(total), positions);
    TotalPermutation(Consolidate(tables).value, shared, HoldingPerc);
    TotalMapped(WithShare(total), positions, HoldingPerc, RoundedShare(total));
  }

  /**
   * With a non-zero total investment the rounded percentages add up to 100 within half a cent
   * per holding.
   */
  lemma RoundedSharesNear100(tables: seq<seq<Row>>)
    requires tables != [] && TablesInvestment(tables) != 0.0
    ensures var r := Consolidate(tables).value;
      -0.005 * |r| as real <= Total(r, HoldingPerc) - 100.0 <= 0.005 * |r| as real
  {
    var positions := AllPositions(tables);
    AllPositionsInvestment(tables);
    var total := Total(positions, PositionInvestment);
    ConsolidatedPercTotal(tables);
    RoundedNearExact(positions, total);
    ExactSharesSumTo100(positions);
  }
}
