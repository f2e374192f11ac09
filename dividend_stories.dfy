/**
 * The dividend story of one symbol (create_dividends_story): every earning whose last day
 * with rights falls on or after the first trading day, attributed to a trading day of the
 * position story by bisection, joined with the position held on that day, and sorted by
 * payment day and last day with rights, latest first.
 */
module DividendStories {
  import opened Errors
  import opened Seqs
  import opened Money
  import opened Text
  import opened Grouping
  import opened Histories
  import opened Dividends

  /** A string ordering fact used throughout: `a <= b < c` gives `a < c`. */
  lemma StrLeLt(a: string, b: string, c: string)
    requires StrLe(a, b) && StrLt(b, c)
    ensures StrLt(a, c)
  {
    if a != b {
      StrLtTransitive(a, b, c);
    }
  }

  /**
   * bisect_left(a, x, lo, hi): the loop halving [lo, hi) until it finds the first place
   * where x could be inserted before every element not below it.
   */
  function BisectLeft(a: seq<string>, x: string, lo: nat, hi: nat): (k: nat)
    requires lo <= hi <= |a|
    ensures lo <= k <= hi
    decreases hi - lo
  {
    if lo < hi then
      var mid := (lo + hi) / 2;
      if StrLt(a[mid], x) then BisectLeft(a, x, mid + 1, hi) else BisectLeft(a, x, lo, mid)
    else lo
  }

  /**
   * On a sorted sequence, bisection keeps every element before the place below x and every
   * element from the place on not below it.
   */
  lemma {:induction false} BisectLeftSplits(a: seq<string>, x: string, lo: nat, hi: nat)
    requires SortedBy(a, StrLe) && lo <= hi <= |a| && SplitsAt(a, x, lo, hi)
    ensures SplitsAt(a, x, BisectLeft(a, x, lo, hi), BisectLeft(a, x, lo, hi))
    decreases hi - lo
  {
    if lo < hi {
      var mid := (lo + hi) / 2;
      if StrLt(a[mid], x) {
        assert BisectLeft(a, x, lo, hi) == BisectLeft(a, x, mid + 1, hi);
        NarrowUp(a, x, lo, mid, hi);
        BisectLeftSplits(a, x, mid + 1, hi);
      } else {
        assert BisectLeft(a, x, lo, hi) == BisectLeft(a, x, lo, mid);
        NarrowDown(a, x, lo, mid, hi);
        BisectLeftSplits(a, x, lo, mid);
      }
    }
  }

  /** Everything before lo is below x, and nothing from hi on is. */
  predicate SplitsAt(a: seq<string>, x: string, lo: nat, hi: nat)
    requires lo <= hi <= |a|
  {
    && (forall i :: 0 <= i < lo ==> StrLt(a[i], x))
    && (forall i :: hi <= i < |a| ==> !StrLt(a[i], x))
  }

  /** A middle element below x moves the lower bound past it. */
  lemma NarrowUp(a: seq<string>, x: string, lo: nat, mid: nat, hi: nat)
    requires SortedBy(a, StrLe) && lo <= mid < hi <= |a| && SplitsAt(a, x, lo, hi) && StrLt(a[mid], x)
    ensures SplitsAt(a, x, mid + 1, hi)
  {
    BelowMid(a, x, mid);
  }

  /** A middle element not below x moves the upper bound down to it. */
  lemma NarrowDown(a: seq<string>, x: string, lo: nat, mid: nat, hi: nat)
    requires SortedBy(a, StrLe) && lo <= mid < hi <= |a| && SplitsAt(a, x, lo, hi) && !StrLt(a[mid], x)
    ensures SplitsAt(a, x, lo, mid)
  {
    FromMid(a, x, mid);
  }

  /** In a sorted sequence, everything up to an element below x is below x. */
  lemma BelowMid(a: seq<string>, x: string, mid: int)
    requires SortedBy(a, StrLe) && 0 <= mid < |a| && StrLt(a[mid], x)
    ensures forall i :: 0 <= i < mid + 1 ==> StrLt(a[i], x)
  {
    forall i | 0 <= i < mid ensures StrLt(a[i], x) {
      StrLeLt(a[i], a[mid], x);
    }
  }

  /** In a sorted sequence, everything from an element not below x on is not below x. */
  lemma FromMid(a: seq<string>, x: string, mid: int)
    requires SortedBy(a, StrLe) && 0 <= mid < |a| && !StrLt(a[mid], x)
    ensures forall i :: mid <= i < |a| ==> !StrLt(a[i], x)
  {
    forall i | mid < i < |a| ensures !StrLt(a[i], x) {
      if StrLt(a[i], x) {
        StrLeLt(a[mid], a[i], x);
      }
    }
  }

  /** bisect_left over the whole sequence. */
  function Bisect(a: seq<string>, x: string): (k: nat)
    ensures k <= |a|
  {
    BisectLeft(a, x, 0, |a|)
  }

  /** On a sorted sequence, bisect_left is the place before which every element is below x. */
  lemma BisectSplits(a: seq<string>, x: string)
    requires SortedBy(a, StrLe)
    ensures var k := Bisect(a, x);
      && (forall i :: 0 <= i < k ==> StrLt(a[i], x))
      && (forall i :: k <= i < |a| ==> !StrLt(a[i], x))
  {
    BisectLeftSplits(a, x, 0, |a|);
  }

  /**
   * intake_dates[bisect_left(intake_dates, x) - 1]: the trading day before x, where an index of
   * -1 reads, as Python does, the last trading day.
   */
  function AttributedDate(intake: seq<string>, x: string): (d: string)
    requires |intake| > 0
    ensures d in intake
  {
    var k := Bisect(intake, x);
    if k == 0 then intake[|intake| - 1] else intake[k - 1]
  }

  /** After the first trading day, an earning is attributed to the last trading day strictly before it. */
  lemma AttributionBefore(intake: seq<string>, x: string)
    requires |intake| > 0 && SortedBy(intake, StrLe)
    requires StrLt(intake[0], x)
    ensures var d := AttributedDate(intake, x);
      && StrLt(d, x)
      && forall i :: 0 <= i < |intake| && StrLt(intake[i], x) ==> StrLe(intake[i], d)
  {
    var k := Bisect(intake, x);
    BisectSplits(intake, x);
    assert k > 0;
    forall i | 0 <= i < |intake| && StrLt(intake[i], x) ensures StrLe(intake[i], intake[k - 1]) {
      assert i < k;
    }
  }

  /** An earning on or before the first trading day reads index -1: the last trading day. */
  lemma AttributionAtFirst(intake: seq<string>, x: string)
    requires |intake| > 0 && SortedBy(intake, StrLe)
    requires StrLe(x, intake[0])
    ensures AttributedDate(intake, x) == intake[|intake| - 1]
  {
    var k := Bisect(intake, x);
    BisectSplits(intake, x);
    if k > 0 {
      StrLeLt(x, intake[0], x);
      StrLtIrreflexive(x);
    }
  }

  /** Past the first trading day, a later earning is never attributed to an earlier day. */
  lemma AttributionMonotone(intake: seq<string>, x: string, y: string)
    requires |intake| > 0 && SortedBy(intake, StrLe)
    requires StrLt(intake[0], x) && StrLe(x, y)
    ensures StrLe(AttributedDate(intake, x), AttributedDate(intake, y))
  {
    var dx := AttributedDate(intake, x);
    AttributionBefore(intake, x);
    assert StrLt(intake[0], y) by {
      if x != y {
        StrLtTransitive(intake[0], x, y);
      }
    }
    AttributionBefore(intake, y);
    assert StrLt(dx, y) by {
      if x != y {
        StrLtTransitive(dx, x, y);
      }
    }
    var i :| 0 <= i < |intake| && intake[i] == dx;
  }

  /** A row of stories/dividends-<symbol>.csv; the columns the left join may leave empty are options. */
  datatype DividendStoryRow = DividendStoryRow(
    symbol: string, prevDate: string, paymentDay: string, earningType: string,
    dividendPerStock: real, amount: Option<int>, investment: Option<real>, price: Option<real>,
    dividendReceived: Option<real>)

  /** The story rows the merge on ["date", "symbol"] pairs with an earning attributed to `date`. */
  function SameDayAndSymbol(date: string, symbol: string): StoryRow -> bool {
    (s: StoryRow) => s.date == date && s.symbol == symbol
  }

  /** An earning joined with the position of the day it is attributed to. */
  function Matched(d: DividendRow): StoryRow -> DividendStoryRow {
    (s: StoryRow) => DividendStoryRow(
      d.symbol, d.prevDate, d.paymentDay, d.earningType, d.value,
      Some(s.amount), Some(s.value), s.price, Some(d.value * s.amount as real))
  }

  /** An earning the left join finds no position for: the story columns stay empty. */
  function Unmatched(d: DividendRow): DividendStoryRow {
    DividendStoryRow(d.symbol, d.prevDate, d.paymentDay, d.earningType, d.value, None, None, None, None)
  }

  /** The rows a left merge produces for one earning: one per matching story row, or one empty. */
  function JoinRows(story: seq<StoryRow>, date: string, d: DividendRow): (r: seq<DividendStoryRow>)
    ensures |r| > 0
  {
    var matches := Filter(story, SameDayAndSymbol(date, d.symbol));
    if matches == [] then [Unmatched(d)] else MapSeq(Matched(d), matches)
  }

  /** The story row `s` is one the merge pairs with the earning `d` attributed to `date`. */
  predicate Pairs(story: seq<StoryRow>, date: string, d: DividendRow, s: StoryRow) {
    s in story && s.date == date && s.symbol == d.symbol
  }

  /**
   * Each joined row keeps the earning's columns, and holds a position exactly when the story
   * has a row for that day and symbol, whose amount, value and price it then carries, with
   * dividend_received = dividend_per_stock * amount.
   */
  lemma JoinRowsShape(story: seq<StoryRow>, date: string, d: DividendRow, r: DividendStoryRow)
    requires r in JoinRows(story, date, d)
    ensures r.symbol == d.symbol && r.prevDate == d.prevDate && r.paymentDay == d.paymentDay
    ensures r.earningType == d.earningType && r.dividendPerStock == d.value
    ensures r.amount.Some? <==> exists s :: Pairs(story, date, d, s)
    ensures r.amount.Some? ==> exists s :: Pairs(story, date, d, s) && r == Matched(d)(s)
    ensures r.amount.None? ==> r == Unmatched(d)
  {
    var p := SameDayAndSymbol(date, d.symbol);
    var matches := Filter(story, p);
    if matches != [] {
      var k :| 0 <= k < |matches| && r == Matched(d)(matches[k]);
      var s := matches[k];
      assert s in matches;
      assert Pairs(story, date, d, s);
    }
  }

  /** A matched row carries the position of its story row and dividend_per_stock * amount. */
  lemma MatchedColumns(d: DividendRow, s: StoryRow)
    ensures var r := Matched(d)(s);
      && r.amount == Some(s.amount) && r.investment == Some(s.value) && r.price == s.price
      && r.dividendReceived.Some? && r.dividendReceived.value == r.dividendPerStock * s.amount as real
      && r.dividendPerStock == d.value
  {
  }

  /** A joined row receives dividend_per_stock * amount, and nothing when it holds no position. */
  lemma JoinedReceived(story: seq<StoryRow>, date: string, d: DividendRow, r: DividendStoryRow)
    requires r in JoinRows(story, date, d)
    ensures r.amount.Some? ==> r.dividendReceived.Some? && r.dividendReceived.value == r.dividendPerStock * r.amount.value as real
    ensures r.amount.None? ==> r.dividendReceived.None?
  {
    var matches := Filter(story, SameDayAndSymbol(date, d.symbol));
    if matches != [] {
      var k :| 0 <= k < |matches| && r == Matched(d)(matches[k]);
      MatchedColumns(d, matches[k]);
    }
  }

  /** `r` is one of the rows the merge produces for the earning `d`. */
  predicate Joins(story: seq<StoryRow>, intake: seq<string>, d: DividendRow, r: DividendStoryRow)
    requires |intake| > 0
  {
    r in JoinRows(story, AttributedDate(intake, d.prevDate), d)
  }

  /** df_dividend.merge(df_story, on=["date", "symbol"], how="left"), earning after earning. */
  function Merge(story: seq<StoryRow>, intake: seq<string>, ds: seq<DividendRow>): seq<DividendStoryRow>
    requires |intake| > 0
    decreases |ds|
  {
    if ds == [] then []
    else
      var d := ds[|ds| - 1];
      Merge(story, intake, ds[..|ds| - 1]) + JoinRows(story, AttributedDate(intake, d.prevDate), d)
  }

  /** A merged row comes from one earning and the position of the day it is attributed to. */
  lemma {:induction false} MergeMembers(story: seq<StoryRow>, intake: seq<string>, ds: seq<DividendRow>, r: DividendStoryRow)
    requires |intake| > 0
    ensures r in Merge(story, intake, ds) <==> exists d :: d in ds && Joins(story, intake, d, r)
    decreases |ds|
  {
    if ds != [] {
      var front, last := ds[..|ds| - 1], ds[|ds| - 1];
      assert ds == front + [last];
      MergeMembers(story, intake, front, r);
      assert r in Merge(story, intake, ds) <==> r in Merge(story, intake, front) || Joins(story, intake, last, r);
    }
  }

  /** The earnings the filter df_dividend["prev_date"] >= min_date keeps. */
  function RightsFrom(minDate: string): DividendRow -> bool {
    (d: DividendRow) => StrLe(minDate, d.prevDate)
  }

  predicate PrevDateLe(a: DividendRow, b: DividendRow) {
    StrLe(a.prevDate, b.prevDate)
  }

  /** `a` may come before `b` in sort_values(["payment_day", "prev_date"], ascending=False). */
  predicate LatestFirst(a: DividendStoryRow, b: DividendStoryRow) {
    StrLt(b.paymentDay, a.paymentDay) || (a.paymentDay == b.paymentDay && StrLe(b.prevDate, a.prevDate))
  }

  /** The trading days of a story, in the order sorted() gives them. */
  function IntakeDates(story: seq<StoryRow>): seq<string> {
    Sort(MapSeq(StoryDate, story), StrLe)
  }

  /** The earnings kept by the filter, sorted by their last day with rights. */
  function KeptEarnings(story: seq<StoryRow>, dividends: seq<DividendRow>): seq<DividendRow>
    requires story != []
  {
    Sort(Filter(dividends, RightsFrom(MinStr(MapSeq(StoryDate, story)))), PrevDateLe)
  }

  /**
   * The body of create_dividends_story for one symbol. An empty story has no minimum date and
   * fails.
   */
  function DividendsStory(story: seq<StoryRow>, dividends: seq<DividendRow>): (r: Result<seq<DividendStoryRow>>)
    ensures r.Err? <==> story == []
    ensures r.Err? ==> r.error == EmptyTable
  {
    if story == [] then Err(EmptyTable)
    else
      var intake := IntakeDates(story);
      Ok(Sort(Merge(story, intake, KeptEarnings(story, dividends)), LatestFirst))
  }

  /** The minimum story date is the first of the sorted trading days. */
  lemma MinDateIsFirstIntake(story: seq<StoryRow>)
    requires story != []
    ensures |IntakeDates(story)| > 0 && SortedBy(IntakeDates(story), StrLe)
    ensures MinStr(MapSeq(StoryDate, story)) == IntakeDates(story)[0]
  {
    var dates := MapSeq(StoryDate, story);
    var intake := IntakeDates(story);
    StrLeTotalPreorder();
    SortSorted(dates, StrLe);
    var m := MinStr(dates);
    assert intake[0] in multiset(dates);
    assert m in multiset(intake);
    var j :| 0 <= j < |intake| && intake[j] == m;
    assert StrLe(intake[0], m);
    if StrLt(intake[0], m) {
      StrLtAsymmetric(intake[0], m);
    }
  }

  /** The earnings kept are exactly those whose last day with rights is on or after the first trading day. */
  lemma KeptEarningsMembers(story: seq<StoryRow>, dividends: seq<DividendRow>, d: DividendRow)
    requires story != []
    ensures d in KeptEarnings(story, dividends) <==> d in dividends && StrLe(IntakeDates(story)[0], d.prevDate)
  {
    MinDateIsFirstIntake(story);
    var minDate := MinStr(MapSeq(StoryDate, story));
    var kept := Filter(dividends, RightsFrom(minDate));
    assert RightsFrom(minDate)(d) == StrLe(minDate, d.prevDate);
    assert d in KeptEarnings(story, dividends) <==> d in multiset(kept);
  }

  /**
   * Every row of the dividend story comes from an earning kept by the filter, joined with the
   * story at the day that earning is attributed to, and every such row is in it.
   */
  lemma DividendsStoryRows(story: seq<StoryRow>, dividends: seq<DividendRow>, r: DividendStoryRow)
    requires story != []
    ensures var intake := IntakeDates(story);
      r in DividendsStory(story, dividends).value <==>
        exists d :: d in dividends && StrLe(intake[0], d.prevDate) && Joins(story, intake, d, r)
  {
    var intake := IntakeDates(story);
    var kept := KeptEarnings(story, dividends);
    var merged := Merge(story, intake, kept);
    assert r in DividendsStory(story, dividends).value <==> r in multiset(merged);
    MergeMembers(story, intake, kept, r);
    forall d ensures d in kept <==> d in dividends && StrLe(intake[0], d.prevDate) {
      KeptEarningsMembers(story, dividends, d);
    }
  }

  /** dividend_received is the dividend per stock times the amount held, and empty with no position. */
  lemma DividendReceived(story: seq<StoryRow>, dividends: seq<DividendRow>, r: DividendStoryRow)
    requires story != [] && r in DividendsStory(story, dividends).value
    ensures r.amount.Some? ==> r.dividendReceived.Some? && r.dividendReceived.value == r.dividendPerStock * r.amount.value as real
    ensures r.amount.None? ==> r.dividendReceived.None?
  {
    var intake := IntakeDates(story);
    DividendsStoryRows(story, dividends, r);
    var d :| d in dividends && StrLe(intake[0], d.prevDate) && Joins(story, intake, d, r);
    JoinedReceived(story, AttributedDate(intake, d.prevDate), d, r);
  }

  lemma LatestFirstTotalPreorder()
    ensures TotalPreorder(LatestFirst)
  {
    forall a: DividendStoryRow, b: DividendStoryRow ensures LatestFirst(a, b) || LatestFirst(b, a) {
      StrLtTrichotomy(a.paymentDay, b.paymentDay);
      StrLtTrichotomy(a.prevDate, b.prevDate);
    }
    forall a: DividendStoryRow, b: DividendStoryRow, c: DividendStoryRow | LatestFirst(a, b) && LatestFirst(b, c)
      ensures LatestFirst(a, c)
    {
      if StrLt(b.paymentDay, a.paymentDay) && StrLt(c.paymentDay, b.paymentDay) {
        StrLtTransitive(c.paymentDay, b.paymentDay, a.paymentDay);
      } else if a.paymentDay == b.paymentDay && b.paymentDay == c.paymentDay {
        if c.prevDate != b.prevDate && b.prevDate != a.prevDate {
          StrLtTransitive(c.prevDate, b.prevDate, a.prevDate);
        }
      }
    }
  }

  /** The dividend story is sorted by payment day and then last day with rights, latest first. */
  lemma DividendsStorySorted(story: seq<StoryRow>, dividends: seq<DividendRow>)
    requires story != []
    ensures SortedBy(DividendsStory(story, dividends).value, LatestFirst)
  {
    LatestFirstTotalPreorder();
    SortSorted(Merge(story, IntakeDates(story), KeptEarnings(story, dividends)), LatestFirst);
  }
}
