/**
 * Reading the confirmation directory: every file is opened in discovery order (the first
 * failure aborts the run) and filed under its date, dates kept in the order first seen.
 */
module Papers {
  import opened Errors
  import opened Seqs
  import opened TradeConfirmations

  /** A file of the confirmation directory: its base name and the document it holds. */
  datatype PaperFile = PaperFile(name: string, paper: Paper)

  /** One entry of the `papers` dictionary: a date and the confirmations dated on it. */
  datatype DateGroup = DateGroup(date: string, papers: seq<Confirmation>)

  function OpenFile(f: PaperFile): Result<Confirmation> {
    Confirm(f.name, f.paper)
  }

  /** The outcome of opening each file, in discovery order. */
  function Outcomes(files: seq<PaperFile>): seq<Result<Confirmation>> {
    MapSeq(OpenFile, files)
  }

  /** The position of the group holding `date`, or |groups| when there is none. */
  function GroupIndex(groups: seq<DateGroup>, date: string): (k: nat)
    ensures k <= |groups|
    ensures k < |groups| ==> groups[k].date == date
    ensures forall j :: 0 <= j < k ==> groups[j].date != date
    decreases |groups|
  {
    if groups == [] || groups[0].date == date then 0 else 1 + GroupIndex(groups[1..], date)
  }

  /** papers.setdefault(c.date, []).append(c): a new date gets a group at the end. */
  function AddToGroup(groups: seq<DateGroup>, c: Confirmation): seq<DateGroup> {
    var k := GroupIndex(groups, c.date);
    if k == |groups| then groups + [DateGroup(c.date, [c])]
    else groups[k := DateGroup(c.date, groups[k].papers + [c])]
  }

  /** The dictionary read_trade_confirmation builds from the opened confirmations. */
  function GroupByDate(cs: seq<Confirmation>): seq<DateGroup>
    decreases |cs|
  {
    if cs == [] then [] else AddToGroup(GroupByDate(cs[..|cs| - 1]), cs[|cs| - 1])
  }

  function DateIs(date: string): Confirmation -> bool {
    (c: Confirmation) => c.date == date
  }

  predicate HasGroup(groups: seq<DateGroup>, date: string) {
    exists i :: 0 <= i < |groups| && groups[i].date == date
  }

  predicate Seen(cs: seq<Confirmation>, date: string) {
    exists j :: 0 <= j < |cs| && cs[j].date == date
  }

  lemma SeenExtends(cs: seq<Confirmation>, date: string)
    requires |cs| > 0
    ensures Seen(cs, date) <==> Seen(cs[..|cs| - 1], date) || cs[|cs| - 1].date == date
  {
    var front := cs[..|cs| - 1];
    if Seen(front, date) {
      var j :| 0 <= j < |front| && front[j].date == date;
      assert cs[j] == front[j];
    }
    if Seen(cs, date) {
      var j :| 0 <= j < |cs| && cs[j].date == date;
      if j < |front| {
        assert front[j] == cs[j];
      }
    }
  }

  /** The keys of the dictionary are exactly the dates of the confirmations read. */
  lemma {:induction false} GroupKeysAreDates(cs: seq<Confirmation>, date: string)
    ensures HasGroup(GroupByDate(cs), date) <==> Seen(cs, date)
    decreases |cs|
  {
    if cs != [] {
      var front, c := cs[..|cs| - 1], cs[|cs| - 1];
      var g0 := GroupByDate(front);
      GroupKeysAreDates(front, date);
      SeenExtends(cs, date);
      var g := GroupByDate(cs);
      var k := GroupIndex(g0, c.date);
      assert forall i :: 0 <= i < |g0| ==> g[i].date == g0[i].date;
      assert k == |g0| ==> |g| == |g0| + 1 && g[|g0|].date == c.date;
      assert k < |g0| ==> |g| == |g0| && g[k].date == c.date;
      if HasGroup(g0, date) {
        var i :| 0 <= i < |g0| && g0[i].date == date;
        assert g[i].date == date;
      }
      if HasGroup(g, date) {
        var i :| 0 <= i < |g| && g[i].date == date;
        if i < |g0| {
          assert g0[i].date == date;
        }
      }
    }
  }

  predicate DistinctDates(groups: seq<DateGroup>) {
    forall i, j :: 0 <= i < j < |groups| ==> groups[i].date != groups[j].date
  }

  /** Each date is a key only once. */
  lemma {:induction false} GroupKeysDistinct(cs: seq<Confirmation>)
    ensures DistinctDates(GroupByDate(cs))
    decreases |cs|
  {
    if cs != [] {
      var front, c := cs[..|cs| - 1], cs[|cs| - 1];
      var g0 := GroupByDate(front);
      GroupKeysDistinct(front);
      var g := GroupByDate(cs);
      var k := GroupIndex(g0, c.date);
      if k == |g0| {
        assert g == g0 + [DateGroup(c.date, [c])];
        forall i, j | 0 <= i < j < |g| ensures g[i].date != g[j].date {
          assert g[i] == g0[i];
          if j < |g0| {
            assert g[j] == g0[j];
          } else {
            assert g[j].date == c.date && g0[i].date != c.date;
          }
        }
      } else {
        assert |g| == |g0| && forall i :: 0 <= i < |g| ==> g[i].date == g0[i].date;
      }
    }
  }

  /** Each date's list holds that date's confirmations in the order they were read. */
  lemma {:induction false} GroupContents(cs: seq<Confirmation>)
    ensures var g := GroupByDate(cs); forall i :: 0 <= i < |g| ==> g[i].papers == Filter(cs, DateIs(g[i].date))
    decreases |cs|
  {
    if cs != [] {
      var front, c := cs[..|cs| - 1], cs[|cs| - 1];
      var g0 := GroupByDate(front);
      GroupContents(front);
      var g := GroupByDate(cs);
      var k := GroupIndex(g0, c.date);
      if k == |g0| {
        GroupKeysAreDates(front, c.date);
        assert !HasGroup(g0, c.date);
        forall j | 0 <= j < |front| ensures !DateIs(c.date)(front[j]) {
          assert !Seen(front, c.date);
        }
        FilterNone(front, DateIs(c.date));
        forall i | 0 <= i < |g| ensures g[i].papers == Filter(cs, DateIs(g[i].date)) {
          if i < |g0| {
            assert g[i] == g0[i];
          }
        }
      } else {
        GroupKeysDistinct(front);
        forall i | 0 <= i < |g| ensures g[i].papers == Filter(cs, DateIs(g[i].date)) {
          if i == k {
            assert g[i].papers == g0[k].papers + [c];
          } else {
            assert g[i] == g0[i];
            assert g0[i].date != g0[k].date;
          }
        }
      }
    }
  }

  /** The position of the first confirmation dated `date`, or |cs| when there is none. */
  function FirstDated(cs: seq<Confirmation>, date: string): (k: nat)
    ensures k <= |cs|
    ensures k < |cs| ==> cs[k].date == date
    ensures forall j :: 0 <= j < k ==> cs[j].date != date
    decreases |cs|
  {
    if cs == [] || cs[0].date == date then 0 else 1 + FirstDated(cs[1..], date)
  }

  /** Any position with the three properties of FirstDated is FirstDated. */
  lemma FirstDatedIs(cs: seq<Confirmation>, date: string, k: nat)
    requires k <= |cs| && (k < |cs| ==> cs[k].date == date)
    requires forall j :: 0 <= j < k ==> cs[j].date != date
    ensures FirstDated(cs, date) == k
  {
  }

  /** A date already read keeps its first position when more confirmations are read. */
  lemma FirstDatedKept(front: seq<Confirmation>, c: Confirmation, date: string)
    requires Seen(front, date)
    ensures FirstDated(front, date) < |front|
    ensures FirstDated(front + [c], date) == FirstDated(front, date)
  {
    var j :| 0 <= j < |front| && front[j].date == date;
    var m := FirstDated(front, date);
    assert m <= j;
    var cs := front + [c];
    assert forall i :: 0 <= i <= m ==> cs[i] == front[i];
    FirstDatedIs(cs, date, m);
  }

  /**
   * The dictionary's dates come in the order each was first read, so iterating over it
   * meets the dates in reading order.
   */
  lemma {:induction false} GroupsInFirstSeenOrder(cs: seq<Confirmation>)
    ensures FirstSeenOrder(cs, GroupByDate(cs))
    decreases |cs|
  {
    if cs != [] {
      var front, c := cs[..|cs| - 1], cs[|cs| - 1];
      assert cs == front + [c];
      GroupsInFirstSeenOrder(front);
      EarlierDatesKept(front, c);
      var g0 := GroupByDate(front);
      if GroupIndex(g0, c.date) == |g0| {
        NewDateLast(front, c);
      } else {
        KnownDateSameKeys(front, c);
      }
    }
  }

  /** A date already grouped leaves the group dates as they were. */
  lemma KnownDateSameKeys(front: seq<Confirmation>, c: Confirmation)
    requires GroupIndex(GroupByDate(front), c.date) < |GroupByDate(front)|
    requires FirstSeenOrder(front, GroupByDate(front))
    requires var g0 := GroupByDate(front);
      forall i :: 0 <= i < |g0| ==> FirstDated(front + [c], g0[i].date) == FirstDated(front, g0[i].date)
    ensures FirstSeenOrder(front + [c], GroupByDate(front + [c]))
  {
    var cs := front + [c];
    assert cs[..|cs| - 1] == front;
    var g0 := GroupByDate(front);
    var k := GroupIndex(g0, c.date);
    var g := GroupByDate(cs);
    assert g == g0[k := DateGroup(c.date, g0[k].papers + [c])];
    assert forall i :: 0 <= i < |g| ==> g[i].date == g0[i].date;
  }

  /** The groups' dates come in the order each date was first read in `cs`. */
  predicate FirstSeenOrder(cs: seq<Confirmation>, g: seq<DateGroup>) {
    forall i, j :: 0 <= i < j < |g| ==> FirstDated(cs, g[i].date) < FirstDated(cs, g[j].date)
  }

  /** The dates grouped so far were read before the next confirmation and keep their first positions. */
  lemma EarlierDatesKept(front: seq<Confirmation>, c: Confirmation)
    ensures var g0 := GroupByDate(front);
      forall i :: 0 <= i < |g0| ==>
        FirstDated(front, g0[i].date) < |front| && FirstDated(front + [c], g0[i].date) == FirstDated(front, g0[i].date)
  {
    var g0 := GroupByDate(front);
    forall i | 0 <= i < |g0|
      ensures FirstDated(front, g0[i].date) < |front|
      ensures FirstDated(front + [c], g0[i].date) == FirstDated(front, g0[i].date)
    {
      GroupKeysAreDates(front, g0[i].date);
      assert HasGroup(g0, g0[i].date);
      FirstDatedKept(front, c, g0[i].date);
    }
  }

  /** A date read for the first time opens the last group and is first read last. */
  lemma NewDateLast(front: seq<Confirmation>, c: Confirmation)
    requires GroupIndex(GroupByDate(front), c.date) == |GroupByDate(front)|
    requires FirstSeenOrder(front, GroupByDate(front))
    requires var g0 := GroupByDate(front);
      forall i :: 0 <= i < |g0| ==>
        FirstDated(front, g0[i].date) < |front| && FirstDated(front + [c], g0[i].date) == FirstDated(front, g0[i].date)
    ensures FirstSeenOrder(front + [c], GroupByDate(front + [c]))
  {
    var cs := front + [c];
    assert cs[..|cs| - 1] == front;
    var g0 := GroupByDate(front);
    var g := GroupByDate(cs);
    assert g == g0 + [DateGroup(c.date, [c])];
    GroupKeysAreDates(front, c.date);
    assert !Seen(front, c.date);
    FirstDatedIs(cs, c.date, |front|);
    forall i, j | 0 <= i < j < |g| ensures FirstDated(cs, g[i].date) < FirstDated(cs, g[j].date) {
      assert g[i] == g0[i];
      if j < |g0| {
        assert g[j] == g0[j];
      } else {
        assert g[j].date == c.date;
      }
    }
  }

  /** Every confirmation of the dictionary, key by key in key order, each list in its order. */
  function AllConfirmations(groups: seq<DateGroup>): seq<Confirmation>
    decreases |groups|
  {
    if groups == [] then [] else AllConfirmations(groups[..|groups| - 1]) + groups[|groups| - 1].papers
  }

  lemma {:induction false} AllConfirmationsMembers(groups: seq<DateGroup>, c: Confirmation)
    ensures c in AllConfirmations(groups) <==> exists i :: 0 <= i < |groups| && c in groups[i].papers
    decreases |groups|
  {
    if groups != [] {
      var front := groups[..|groups| - 1];
      AllConfirmationsMembers(front, c);
      if exists i :: 0 <= i < |front| && c in front[i].papers {
        var i :| 0 <= i < |front| && c in front[i].papers;
        assert groups[i] == front[i];
      }
      if exists i :: 0 <= i < |groups| && c in groups[i].papers {
        var i :| 0 <= i < |groups| && c in groups[i].papers;
        if i < |front| {
          assert front[i] == groups[i];
        }
      }
    }
  }

  /** read_trade_confirmation, given the directory listing, as a value. */
  function ReadAll(files: seq<PaperFile>): Result<seq<DateGroup>> {
    match Collect(Outcomes(files))
    case Err(e) => Err(e)
    case Ok(cs) => Ok(GroupByDate(cs))
  }

  lemma OpenedAt(files: seq<PaperFile>, i: int)
    requires 0 <= i < |files|
    ensures Outcomes(files)[i] == Confirm(files[i].name, files[i].paper)
  {
  }

  /** Grouping one more confirmation files it under its date. */
  lemma GroupSnoc(cs: seq<Confirmation>, c: Confirmation)
    ensures GroupByDate(cs + [c]) == AddToGroup(GroupByDate(cs), c)
  {
    assert (cs + [c])[..|cs|] == cs;
  }

  /** read_trade_confirmation: open each file in turn and file it under its date. */
  method ReadTradeConfirmation(files: seq<PaperFile>) returns (r: Result<seq<DateGroup>>)
    ensures r == ReadAll(files)
  {
    ghost var outcomes := Outcomes(files);
    var papers: seq<DateGroup> := [];
    ghost var confirmed: seq<Confirmation> := [];
    CollectNone(outcomes);
    for i := 0 to |files|
      invariant Collect(outcomes[..i]) == Ok(confirmed)
      invariant papers == GroupByDate(confirmed)
    {
      var paper := Open(files[i].name, files[i].paper);
      OpenedAt(files, i);
      CollectNext(outcomes, i, confirmed);
      if paper.Err? {
        return Err(paper.error);
      }
      GroupSnoc(confirmed, paper.value);
      papers := AddToGroup(papers, paper.value);
      confirmed := confirmed + [paper.value];
    }
    CollectAll(outcomes);
    r := Ok(papers);
  }
}
