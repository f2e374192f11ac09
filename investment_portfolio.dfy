/**
 * The investment portfolio: the ledger rows each trade confirmation writes (fees, spent
 * values, one row per operation), saved in date order, and the derived files rebuilt from
 * the portfolio tables: the consolidated portfolio, the annual amounts, the position stories
 * and the dividend stories.
 */
module InvestmentPortfolios {
  import opened Errors
  import opened Seqs
  import opened Money
  import opened Text
  import opened Validation
  import opened TradeConfirmations
  import opened Papers
  import opened Ledger
  import opened Positions
  import opened Histories
  import opened Dividends
  import opened DividendStories

  // ---------------------------------------------------------------------------------------
  // The rows add_fees, add_spent_values and add_operation build.

  /** The value column of a fees row; the other tables have none. */
  function FeeRowValue(r: Row): real {
    if r.FeeRow? then r.value else 0.0
  }

  /** add_fees: one row per fee label, each carrying the confirmation's name, date and broker. */
  function FeeRows(tcName: string, date: string, broker: string, fees: seq<Fee>): (r: seq<Row>)
    ensures |r| == |fees|
    ensures forall i :: 0 <= i < |r| ==> r[i] == FeeRow(date, broker, fees[i].name, fees[i].value, tcName)
  {
    MapSeq((f: Fee) => FeeRow(date, broker, f.name, f.value, tcName), fees)
  }

  /** The fees rows fit the fees table, all belong to the confirmation, and sum to its fees cost. */
  lemma FeeRowsRecordFees(tcName: string, date: string, broker: string, fees: seq<Fee>)
    ensures var rows := FeeRows(tcName, date, broker, fees);
      && (forall r :: r in rows ==> Fits(FeesTable, r) && r.tcName == tcName && r.date == date)
      && Total(rows, FeeRowValue) == FeesCost(fees)
  {
    var rows := FeeRows(tcName, date, broker, fees);
    TotalMapped((f: Fee) => FeeRow(date, broker, f.name, f.value, tcName), fees, FeeRowValue, FeeValue);
  }

  /** add_spent_values: the single spent-values row of a confirmation. */
  function SpentRowOf(tcName: string, date: string, operationsValue: real, settlementAmount: real): (r: Row)
    ensures Fits(SpentValuesTable, r) && r.tcName == tcName && r.date == date
    ensures r.operationsValue == operationsValue && r.settlementAmount == settlementAmount
  {
    SpentRow(date, operationsValue, settlementAmount, tcName)
  }

  /**
   * add_operation: the portfolio row of one operation, identified by the confirmation's name
   * and the operation's counter. An operation without the keys the fee allocation adds raises
   * KeyError on "counter", the first of them read.
   */
  function OperationRowOf(tcName: string, date: string, op: Operation): (r: Result<Row>)
    ensures r.Err? <==> op.allocation.None?
    ensures r.Err? ==> r.error == MissingKey("counter")
    ensures r.Ok? ==> Fits(PortfolioTable(op.symbol), r.value) && r.value.date == date
    ensures r.Ok? ==> r.value.tcName == tcName + "-" + op.allocation.value.counter
    ensures r.Ok? ==> r.value.amount == op.amount && r.value.price == op.price && r.value.value == op.value
    ensures r.Ok? ==> var a := op.allocation.value;
      r.value.costOfFees == a.costOfFees && r.value.valueWithoutFees == a.valueWithoutFees
      && r.value.priceWithoutFees == a.priceWithoutFees
  {
    match op.allocation
    case None => Err(MissingKey("counter"))
    case Some(a) =>
      Ok(OperationRow(
        date, op.symbol, op.amount, op.price, op.value, a.costOfFees, a.valueWithoutFees,
        a.priceWithoutFees, tcName + "-" + a.counter))
  }

  /**
   * The row written for the i-th operation after the fee allocation holds the operation's
   * amount, its old value and price as the values without fees, the value with its share of
   * the fees, and the id name-(i + 1).
   */
  lemma AllocatedOperationRow(name: string, date: string, ops: seq<Operation>, operationsValue: real, feesCost: real, i: int)
    requires AllocateFees(ops, operationsValue, feesCost).Ok? && 0 <= i < |ops|
    ensures operationsValue != 0.0
    ensures var op := ops[i];
      var cost := feesCost * (op.value / operationsValue);
      var r := OperationRowOf(name, date, AllocateFees(ops, operationsValue, feesCost).value[i]);
      && r.Ok? && r.value.symbol == op.symbol && r.value.amount == op.amount
      && r.value.valueWithoutFees == op.value && r.value.priceWithoutFees == op.price
      && r.value.costOfFees == cost && r.value.value == op.value + cost
      && r.value.tcName == name + "-" + NatToString(i + 1)
  {
    AllocatedOperation(ops, operationsValue, feesCost, i);
    OperationRowOfAllocated(name, date, AllocateFees(ops, operationsValue, feesCost).value[i]);
  }

  /** The row of an operation that carries its allocation copies the allocation's fields. */
  lemma OperationRowOfAllocated(tcName: string, date: string, o: Operation)
    requires o.allocation.Some?
    ensures OperationRowOf(tcName, date, o) == Ok(OperationRow(
      date, o.symbol, o.amount, o.price, o.value, o.allocation.value.costOfFees,
      o.allocation.value.valueWithoutFees, o.allocation.value.priceWithoutFees,
      tcName + "-" + o.allocation.value.counter))
  {
  }

  // ---------------------------------------------------------------------------------------
  // Saving: each add_* call is one save_to_file into one table, or the exception before it.

  /** One save_to_file call: a table and the batch saved into it, or the error raised first. */
  datatype Step = Write(id: TableId, batch: seq<Row>) | Abort(error: Error)

  /** The ledger directory as a value: each table with its rows. */
  type Tables = map<TableId, seq<Row>>

  /** The outcome of a sequence of saves and the state it leaves behind. */
  datatype Run<S> = Run(outcome: Outcome, tables: S)

  /** get_dataframe on the tables as a value. */
  function TableIn(tables: Tables, id: TableId): seq<Row> {
    if id in tables then tables[id] else []
  }

  predicate Succeeds(step: Step) {
    step.Write? && step.batch != []
  }

  /** The error of a step that does not succeed: its exception, or the empty batch's. */
  function StepError(step: Step): Error {
    if step.Abort? then step.error else EmptyTable
  }

  /** The tables after a successful step, as TableStore.SaveToFile leaves them. */
  function Saved(tables: Tables, step: Step): Tables {
    if Succeeds(step) then tables[step.id := Upsert(TableIn(tables, step.id), step.batch)] else tables
  }

  /** One step, changing the state by `save` when it succeeds. */
  function StepRun<S>(save: (S, Step) -> S, tables: S, step: Step): (r: Run<S>)
    ensures r.outcome.Pass? <==> Succeeds(step)
    ensures r.outcome.Fail? ==> r == Run(Fail(StepError(step)), tables)
  {
    if Succeeds(step) then Run(Pass, save(tables, step)) else Run(Fail(StepError(step)), tables)
  }

  /** The steps in order, stopping at the first that raises. */
  function ReplayWith<S>(save: (S, Step) -> S, tables: S, steps: seq<Step>): (r: Run<S>)
    ensures r.outcome.Pass? <==> forall i :: 0 <= i < |steps| ==> Succeeds(steps[i])
    decreases |steps|
  {
    if steps == [] then Run(Pass, tables)
    else
      var first := StepRun(save, tables, steps[0]);
      if first.outcome.Fail? then first else ReplayWith(save, first.tables, steps[1..])
  }

  /** One save_to_file on the tables as a value. */
  function Save(tables: Tables, step: Step): Run<Tables> {
    StepRun(Saved, tables, step)
  }

  /** A sequence of save_to_file calls, stopping at the first that raises. */
  function Replay(tables: Tables, steps: seq<Step>): Run<Tables> {
    ReplayWith(Saved, tables, steps)
  }

  /** Running `a` and then `b` is running `a` and, if nothing raised, going on with `b`. */
  lemma {:induction false} ReplayAppend<S>(save: (S, Step) -> S, tables: S, a: seq<Step>, b: seq<Step>)
    ensures ReplayWith(save, tables, a + b) ==
      var ra := ReplayWith(save, tables, a);
      if ra.outcome.Fail? then ra else ReplayWith(save, ra.tables, b)
    decreases |a|
  {
    if a != [] {
      assert (a + b)[0] == a[0];
      assert (a + b)[1..] == a[1..] + b;
      var first := StepRun(save, tables, a[0]);
      if first.outcome.Pass? {
        ReplayAppend(save, first.tables, a[1..], b);
      }
    } else {
      assert a + b == b;
    }
  }

  /** After steps that all succeeded, the next ones start from the state they left. */
  lemma ContinueAfter<S>(save: (S, Step) -> S, tables: S, a: seq<Step>, b: seq<Step>, middle: S)
    requires ReplayWith(save, tables, a) == Run(Pass, middle)
    ensures ReplayWith(save, tables, a + b) == ReplayWith(save, middle, b)
  {
    ReplayAppend(save, tables, a, b);
  }

  /** Once a prefix of the steps raises, the later ones are never reached. */
  lemma FailedPrefix<S>(save: (S, Step) -> S, tables: S, p: seq<Step>, s: seq<Step>)
    requires p <= s && ReplayWith(save, tables, p).outcome.Fail?
    ensures ReplayWith(save, tables, s) == ReplayWith(save, tables, p)
  {
    assert s == p + s[|p|..];
    ReplayAppend(save, tables, p, s[|p|..]);
  }

  /** A single step replayed is that step. */
  lemma ReplayOne<S>(save: (S, Step) -> S, tables: S, step: Step)
    ensures ReplayWith(save, tables, [step]) == StepRun(save, tables, step)
  {
    assert [step][1..] == [];
  }

  /** The error reported is that of the first step that raises; the steps before it all happened. */
  lemma ReplayReportsFirstFailure<S>(save: (S, Step) -> S, tables: S, steps: seq<Step>, k: int)
    requires 0 <= k < |steps| && !Succeeds(steps[k])
    requires forall i :: 0 <= i < k ==> Succeeds(steps[i])
    ensures ReplayWith(save, tables, steps) == Run(Fail(StepError(steps[k])), ReplayWith(save, tables, steps[..k]).tables)
  {
    var before := ReplayWith(save, tables, steps[..k]);
    assert before.outcome.Pass?;
    ReplayStep(save, tables, steps, k, before.tables);
  }

  /** One step after steps that all succeeded is that step, from the state they left. */
  lemma ContinueOne<S>(save: (S, Step) -> S, tables: S, p: seq<Step>, step: Step, middle: S)
    requires ReplayWith(save, tables, p) == Run(Pass, middle)
    ensures ReplayWith(save, tables, p + [step]) == StepRun(save, middle, step)
  {
    ContinueAfter(save, tables, p, [step], middle);
    ReplayOne(save, middle, step);
  }

  /** One more step after a prefix that succeeded: the run so far, and where it stops. */
  lemma ReplayStep<S>(save: (S, Step) -> S, t0: S, steps: seq<Step>, k: int, tables: S)
    requires 0 <= k < |steps| && ReplayWith(save, t0, steps[..k]) == Run(Pass, tables)
    ensures ReplayWith(save, t0, steps[..k + 1]) == StepRun(save, tables, steps[k])
    ensures StepRun(save, tables, steps[k]).outcome.Fail? ==> ReplayWith(save, t0, steps) == StepRun(save, tables, steps[k])
  {
    PrefixSnoc(steps, k);
    ContinueOne(save, t0, steps[..k], steps[k], tables);
    if StepRun(save, tables, steps[k]).outcome.Fail? {
      FailedPrefix(save, t0, steps[..k + 1], steps);
    }
  }

  /**
   * One more confirmation of the i-th date after the dates before it and its first j
   * confirmations succeeded: the run so far, and where it stops.
   */
  lemma NestedStep<S>(save: (S, Step) -> S, t0: S, all: seq<seq<Step>>, i: int, each: seq<seq<Step>>, j: int, tables: S)
    requires 0 <= i < |all| && 0 <= j < |each| && all[i] == Flatten(each)
    requires ReplayWith(save, t0, Flatten(all[..i]) + Flatten(each[..j])) == Run(Pass, tables)
    ensures ReplayWith(save, t0, Flatten(all[..i]) + Flatten(each[..j + 1])) == ReplayWith(save, tables, each[j])
    ensures ReplayWith(save, tables, each[j]).outcome.Fail? ==> ReplayWith(save, t0, Flatten(all)) == ReplayWith(save, tables, each[j])
  {
    var done := Flatten(all[..i]);
    var before := done + Flatten(each[..j]);
    var now := done + Flatten(each[..j + 1]);
    FlattenSnoc(each, j);
    AppendAssoc(done, Flatten(each[..j]), each[j]);
    ContinueAfter(save, t0, before, each[j], tables);
    if ReplayWith(save, tables, each[j]).outcome.Fail? {
      NestedPrefix(all, i, each, j + 1);
      FailedPrefix(save, t0, now, Flatten(all));
    }
  }

  /** The pieces before the i-th, then the first j parts of the i-th, are a prefix of the whole. */
  lemma NestedPrefix<T>(all: seq<seq<T>>, i: int, each: seq<seq<T>>, j: int)
    requires 0 <= i < |all| && 0 <= j <= |each| && all[i] == Flatten(each)
    ensures Flatten(all[..i]) + Flatten(each[..j]) <= Flatten(all)
  {
    assert Flatten(each[..j]) <= all[i] by {
      FlattenPrefix(each, j);
      assert each[..|each|] == each;
    }
    assert Flatten(all[..i + 1]) == Flatten(all[..i]) + all[i] by {
      assert all[..i + 1][..i] == all[..i];
    }
    assert Flatten(all[..i + 1]) <= Flatten(all) by {
      FlattenPrefix(all, i + 1);
      assert all[..|all|] == all;
    }
  }

  /** Every row a step writes has the columns of the table it goes to. */
  predicate StepFits(step: Step) {
    step.Write? ==> forall r :: r in step.batch ==> Fits(step.id, r)
  }

  /** Saves of fitting rows keep every stored row in a table of its kind. */
  lemma {:induction false} ReplayConforms(tables: Tables, steps: seq<Step>)
    requires Conforms(tables) && forall i :: 0 <= i < |steps| ==> StepFits(steps[i])
    ensures Conforms(Replay(tables, steps).tables)
    decreases |steps|
  {
    if steps != [] {
      var first := Save(tables, steps[0]);
      if first.outcome.Pass? {
        assert Replay(tables, steps) == Replay(first.tables, steps[1..]);
        SavedConforms(tables, steps[0]);
        ReplayConforms(first.tables, steps[1..]);
      }
    }
  }

  /** A save of fitting rows keeps every stored row in a table of its kind. */
  lemma SavedConforms(tables: Tables, step: Step)
    requires Conforms(tables) && StepFits(step)
    ensures Conforms(Saved(tables, step))
  {
    if Succeeds(step) {
      var id := step.id;
      var t := Saved(tables, step);
      forall r | r in t[id] ensures Fits(id, r) {
        UpsertMembers(TableIn(tables, id), step.batch, r);
      }
    }
  }

  /** A table no save writes to is left as it was. */
  lemma {:induction false} ReplayFrame(tables: Tables, steps: seq<Step>, id: TableId)
    requires forall i :: 0 <= i < |steps| && steps[i].Write? ==> steps[i].id != id
    ensures TableIn(Replay(tables, steps).tables, id) == TableIn(tables, id)
    decreases |steps|
  {
    if steps != [] {
      var first := Save(tables, steps[0]);
      if first.outcome.Pass? {
        assert Replay(tables, steps) == Replay(first.tables, steps[1..]);
        ReplayFrame(first.tables, steps[1..], id);
      }
    }
  }

  /** Saves only ever add tables: no table disappears, and it never becomes empty. */
  lemma {:induction false} ReplayKeepsTables(tables: Tables, steps: seq<Step>)
    requires forall id :: id in tables ==> tables[id] != []
    ensures var t := Replay(tables, steps).tables;
      tables.Keys <= t.Keys && forall id :: id in t ==> t[id] != []
    decreases |steps|
  {
    if steps != [] {
      var first := Save(tables, steps[0]);
      if first.outcome.Pass? {
        var id := steps[0].id;
        var batch := steps[0].batch;
        UpsertMembers(TableIn(tables, id), batch, batch[0]);
        assert Replay(tables, steps) == Replay(first.tables, steps[1..]);
        ReplayKeepsTables(first.tables, steps[1..]);
      }
    }
  }

  // ---------------------------------------------------------------------------------------
  // The saves of a confirmation (lines 19-26): fees, spent values, then its operations.

  function FeesStep(tcName: string, date: string, broker: string, fees: seq<Fee>): Step {
    Write(FeesTable, FeeRows(tcName, date, broker, fees))
  }

  function SpentStep(tcName: string, date: string, operationsValue: real, settlementAmount: real): Step {
    Write(SpentValuesTable, [SpentRowOf(tcName, date, operationsValue, settlementAmount)])
  }

  function OperationStep(tcName: string, date: string, op: Operation): (s: Step)
    ensures s.Write? ==> s.id == PortfolioTable(op.symbol)
  {
    match OperationRowOf(tcName, date, op)
    case Err(e) => Abort(e)
    case Ok(row) => Write(PortfolioTable(op.symbol), [row])
  }

  function OperationSteps(c: Confirmation): seq<Step> {
    MapSeq((op: Operation) => OperationStep(c.name, c.date, op), c.operations)
  }

  function ConfirmationSteps(c: Confirmation): (steps: seq<Step>)
    ensures |steps| == |c.operations| + 2
    ensures steps[0] == FeesStep(c.name, c.date, c.broker, c.fees)
    ensures steps[1] == SpentStep(c.name, c.date, c.operationsValue, c.settlementAmount)
    ensures forall k :: 0 <= k < |c.operations| ==> steps[k + 2] == OperationStep(c.name, c.date, c.operations[k])
  {
    [FeesStep(c.name, c.date, c.broker, c.fees), SpentStep(c.name, c.date, c.operationsValue, c.settlementAmount)]
      + OperationSteps(c)
  }

  /** Every save of a confirmation writes rows that fit their table. */
  lemma ConfirmationStepsFit(c: Confirmation)
    ensures forall i :: 0 <= i < |ConfirmationSteps(c)| ==> StepFits(ConfirmationSteps(c)[i])
  {
    var steps := ConfirmationSteps(c);
    forall i | 0 <= i < |steps| ensures StepFits(steps[i]) {
      if i == 0 {
        FeeRowsRecordFees(c.name, c.date, c.broker, c.fees);
      } else if i >= 2 {
        var op := c.operations[i - 2];
        assert steps[i] == OperationStep(c.name, c.date, op);
        OperationStepFits(c.name, c.date, op);
      }
    }
  }

  lemma OperationStepFits(tcName: string, date: string, op: Operation)
    ensures StepFits(OperationStep(tcName, date, op))
  {
    var s := OperationStep(tcName, date, op);
    if s.Write? {
      assert s.batch == [OperationRowOf(tcName, date, op).value];
    }
  }

  /**
   * The saves of a booked confirmation all succeed exactly when it lists some fee: every
   * operation carries its allocation, and an empty fees mapping is the only batch left empty.
   */
  lemma ConfirmedSavesSucceed(name: string, paper: Paper)
    requires Confirm(name, paper).Ok?
    ensures var steps := ConfirmationSteps(Confirm(name, paper).value);
      (forall i :: 0 <= i < |steps| ==> Succeeds(steps[i])) <==> paper.fees != []
  {
    var c := Confirm(name, paper).value;
    var steps := ConfirmationSteps(c);
    if paper.fees == [] {
      assert !Succeeds(steps[0]);
    } else {
      AllocatedStepsSucceed(c, paper.operations, paper.operationsValue, FeesCost(paper.fees));
      forall i | 0 <= i < |steps| ensures Succeeds(steps[i]) {
        if i >= 2 {
          assert steps[i] == OperationStep(c.name, c.date, c.operations[i - 2]);
        }
      }
    }
  }

  /** Operations that carry their fee allocations each save one row. */
  lemma AllocatedStepsSucceed(c: Confirmation, ops: seq<Operation>, operationsValue: real, feesCost: real)
    requires AllocateFees(ops, operationsValue, feesCost).Ok?
    requires c.operations == AllocateFees(ops, operationsValue, feesCost).value
    ensures forall k :: 0 <= k < |c.operations| ==> Succeeds(OperationStep(c.name, c.date, c.operations[k]))
  {
    forall k | 0 <= k < |c.operations| ensures Succeeds(OperationStep(c.name, c.date, c.operations[k])) {
      AllocatedOperation(ops, operationsValue, feesCost, k);
      OperationRowOfAllocated(c.name, c.date, c.operations[k]);
    }
  }

  /**
   * After the saves of a confirmation succeed, the fees table holds, among the rows named
   * after it, exactly its fees rows: an earlier save of the same confirmation is replaced.
   */
  lemma RecordedFees(tables: Tables, c: Confirmation)
    requires Replay(tables, ConfirmationSteps(c)).outcome.Pass?
    ensures var fees := TableIn(Replay(tables, ConfirmationSteps(c)).tables, FeesTable);
      multiset(Filter(fees, HasName(c.name))) == multiset(FeeRows(c.name, c.date, c.broker, c.fees))
  {
    var batch := FeeRows(c.name, c.date, c.broker, c.fees);
    FeesSavedFirst(tables, c);
    FeeRowsRecordFees(c.name, c.date, c.broker, c.fees);
    UpsertReplaces(TableIn(tables, FeesTable), batch);
  }

  /** Of a confirmation's saves only the first writes to the fees table. */
  lemma FeesSavedFirst(tables: Tables, c: Confirmation)
    requires Replay(tables, ConfirmationSteps(c)).outcome.Pass?
    ensures TableIn(Replay(tables, ConfirmationSteps(c)).tables, FeesTable)
      == Upsert(TableIn(tables, FeesTable), FeeRows(c.name, c.date, c.broker, c.fees))
  {
    var steps := ConfirmationSteps(c);
    var rest := steps[1..];
    assert steps == [steps[0]] + rest;
    ReplayAppend(Saved, tables, [steps[0]], rest);
    LaterStepsSkipFees(c);
    ReplayFrame(Save(tables, steps[0]).tables, rest, FeesTable);
  }

  /** The saves after the fees one go to the spent-values table and the portfolio tables. */
  lemma LaterStepsSkipFees(c: Confirmation)
    ensures var rest := ConfirmationSteps(c)[1..];
      forall i :: 0 <= i < |rest| && rest[i].Write? ==> rest[i].id != FeesTable
  {
    var steps := ConfirmationSteps(c);
    forall i | 1 <= i < |steps| && steps[i].Write? ensures steps[i].id != FeesTable {
      if i >= 2 {
        assert steps[i] == OperationStep(c.name, c.date, c.operations[i - 2]);
      }
    }
  }

  /** Filtering a saved table on the batch's name gives back the batch, whichever rows were there. */
  lemma UpsertReplaces(table: seq<Row>, batch: seq<Row>)
    requires |batch| > 0 && forall r :: r in batch ==> r.tcName == batch[0].tcName
    ensures multiset(Filter(Upsert(table, batch), HasName(batch[0].tcName))) == multiset(batch)
  {
    var name := batch[0].tcName;
    var saved := Upsert(table, batch);
    UpsertContents(table, batch);
    forall x: Row ensures multiset(Filter(saved, HasName(name)))[x] == multiset(batch)[x] {
      FilterMultiset(saved, HasName(name), x);
      FilterMultiset(table, Not(HasName(name)), x);
      if x.tcName != name {
        assert x !in batch;
      }
    }
  }

  // ---------------------------------------------------------------------------------------
  // The processing order of __init__ (lines 17-26).

  predicate DateGroupLe(a: DateGroup, b: DateGroup) {
    StrLe(a.date, b.date)
  }

  lemma DateGroupLeTotalPreorder()
    ensures TotalPreorder(DateGroupLe)
  {
    forall a: DateGroup, b: DateGroup ensures DateGroupLe(a, b) || DateGroupLe(b, a) {
      StrLtTrichotomy(a.date, b.date);
    }
    forall a: DateGroup, b: DateGroup, c: DateGroup | DateGroupLe(a, b) && DateGroupLe(b, c) ensures DateGroupLe(a, c) {
      if a.date != b.date && b.date != c.date {
        StrLtTransitive(a.date, b.date, c.date);
      }
    }
  }

  /** sorted(trade_confirmations.keys()): the date groups by ascending date. */
  function Chronological(groups: seq<DateGroup>): (r: seq<DateGroup>)
    ensures multiset(r) == multiset(groups)
  {
    Sort(groups, DateGroupLe)
  }

  lemma ChronologicalSorted(groups: seq<DateGroup>)
    ensures SortedBy(Chronological(groups), DateGroupLe)
  {
    DateGroupLeTotalPreorder();
    SortSorted(groups, DateGroupLe);
  }

  /** The saves of one date's confirmations, in list order. */
  function GroupSteps(g: DateGroup): seq<Step> {
    Flatten(MapSeq(ConfirmationSteps, g.papers))
  }

  /** Every save __init__ makes, date after date. */
  function IngestSteps(groups: seq<DateGroup>): seq<Step> {
    Flatten(MapSeq(GroupSteps, Chronological(groups)))
  }

  /** Replaying two leading steps and then the rest, one call at a time. */
  lemma ReplayTwoThen<S>(save: (S, Step) -> S, tables: S, x: Step, y: Step, rest: seq<Step>)
    ensures var first := StepRun(save, tables, x);
      var second := StepRun(save, first.tables, y);
      ReplayWith(save, tables, [x, y] + rest) ==
        if first.outcome.Fail? then first
        else if second.outcome.Fail? then second
        else ReplayWith(save, second.tables, rest)
  {
    var steps := [x, y] + rest;
    assert steps[0] == x;
    assert steps[1..] == [y] + rest;
    assert ([y] + rest)[0] == y;
    assert ([y] + rest)[1..] == rest;
  }

  /** The saves of a confirmation: the fees, then the spent values, then the operations. */
  lemma ConfirmationReplay(tables: Tables, c: Confirmation)
    ensures var fees := Save(tables, ConfirmationSteps(c)[0]);
      var spent := Save(fees.tables, ConfirmationSteps(c)[1]);
      Replay(tables, ConfirmationSteps(c)) ==
        if fees.outcome.Fail? then fees
        else if spent.outcome.Fail? then spent
        else Replay(spent.tables, OperationSteps(c))
  {
    ReplayTwoThen(Saved, tables, FeesStep(c.name, c.date, c.broker, c.fees),
      SpentStep(c.name, c.date, c.operationsValue, c.settlementAmount), OperationSteps(c));
  }

  /** After all confirmations of the i-th date, the run has covered the first i + 1 dates. */
  lemma GroupDone(all: seq<seq<Step>>, i: int, each: seq<seq<Step>>)
    requires 0 <= i < |all| && all[i] == Flatten(each)
    ensures Flatten(all[..i]) + Flatten(each[..|each|]) == Flatten(all[..i + 1])
    ensures Flatten(all[..i]) + Flatten(each[..0]) == Flatten(all[..i])
  {
    assert each[..|each|] == each;
    assert all[..i + 1][..i] == all[..i];
    assert each[..0] == [];
  }

  // ---------------------------------------------------------------------------------------
  // The derived files: one file per listed symbol, written in listing order until one raises.

  /** The files a loop over the listing writes, and how it ended. */
  datatype Written<T> = Written(outcome: Outcome, files: map<string, T>)

  /** `listing` is a directory listing of `names`: each name once, in some order. */
  predicate Lists(listing: seq<string>, names: set<string>) {
    && Distinct(listing)
    && (forall c :: c in listing ==> c in names)
    && (forall c :: c in names ==> c in listing)
  }

  /** The files written for `listing`, each the value `f` gives, stopping at the first error. */
  function WriteEach<T>(listing: seq<string>, f: string -> Result<T>): Written<T>
    decreases |listing|
  {
    if listing == [] then Written(Pass, map[])
    else
      var before := WriteEach(listing[..|listing| - 1], f);
      var c := listing[|listing| - 1];
      if before.outcome.Fail? then before
      else match f(c)
        case Err(e) => Written(Fail(e), before.files)
        case Ok(v) => Written(Pass, before.files[c := v])
  }

  /**
   * The loop passes when every listed symbol's file can be built, and then writes one file
   * per listed symbol; every file written holds what `f` builds for its symbol.
   */
  lemma {:induction false} WriteEachFiles<T>(listing: seq<string>, f: string -> Result<T>)
    ensures var w := WriteEach(listing, f);
      && (w.outcome.Pass? <==> forall i :: 0 <= i < |listing| ==> f(listing[i]).Ok?)
      && (w.outcome.Pass? ==> forall c :: c in w.files <==> c in listing)
      && (forall c :: c in w.files ==> c in listing && f(c).Ok? && w.files[c] == f(c).value)
    decreases |listing|
  {
    if listing != [] {
      var front := listing[..|listing| - 1];
      WriteEachFiles(front, f);
      assert forall i :: 0 <= i < |front| ==> front[i] == listing[i];
      assert forall c :: c in listing <==> c in front || c == listing[|listing| - 1];
    }
  }

  /** Once a prefix of the listing raises, the rest of it is never written. */
  lemma {:induction false} WriteEachStops<T>(listing: seq<string>, f: string -> Result<T>, n: nat)
    requires n <= |listing| && WriteEach(listing[..n], f).outcome.Fail?
    ensures WriteEach(listing, f) == WriteEach(listing[..n], f)
    decreases |listing| - n
  {
    if n < |listing| {
      assert listing[..n + 1][..n] == listing[..n];
      WriteEachStops(listing, f, n + 1);
    } else {
      assert listing[..n] == listing;
    }
  }

  /** One more listed symbol: its file is added, or its error ends the loop. */
  lemma WriteNext<T>(listing: seq<string>, f: string -> Result<T>, i: int, base: map<string, T>, files: map<string, T>)
    requires 0 <= i < |listing|
    requires WriteEach(listing[..i], f).outcome.Pass?
    requires files == base + WriteEach(listing[..i], f).files
    ensures f(listing[i]).Err? ==> WriteEach(listing, f) == Written(Fail(f(listing[i]).error), WriteEach(listing[..i], f).files)
    ensures f(listing[i]).Ok? ==>
      && WriteEach(listing[..i + 1], f).outcome.Pass?
      && files[listing[i] := f(listing[i]).value] == base + WriteEach(listing[..i + 1], f).files
  {
    WriteOne(listing, f, i);
    if f(listing[i]).Err? {
      WriteEachStops(listing, f, i + 1);
    } else {
      UnionUpdate(base, WriteEach(listing[..i], f).files, listing[i], f(listing[i]).value);
    }
  }

  /** The loop's step for the i-th listed symbol, once the symbols before it were written. */
  lemma WriteOne<T>(listing: seq<string>, f: string -> Result<T>, i: int)
    requires 0 <= i < |listing|
    requires WriteEach(listing[..i], f).outcome.Pass?
    ensures WriteEach(listing[..i + 1], f) ==
      match f(listing[i])
      case Err(e) => Written(Fail(e), WriteEach(listing[..i], f).files)
      case Ok(v) => Written(Pass, WriteEach(listing[..i], f).files[listing[i] := v])
  {
    assert listing[..i + 1][..i] == listing[..i];
  }

  lemma UnionUpdate<K, V>(base: map<K, V>, m: map<K, V>, k: K, v: V)
    ensures (base + m)[k := v] == base + m[k := v]
  {
  }

  /** The error reported is that of the first listed symbol whose file cannot be built. */
  lemma WriteEachReportsFirstFailure<T>(listing: seq<string>, f: string -> Result<T>, k: int)
    requires 0 <= k < |listing| && f(listing[k]).Err?
    requires forall i :: 0 <= i < k ==> f(listing[i]).Ok?
    ensures WriteEach(listing, f).outcome == Fail(f(listing[k]).error)
    ensures forall c :: c in WriteEach(listing, f).files <==> c in listing[..k]
  {
    WriteEachFiles(listing[..k], f);
    assert forall i :: 0 <= i < k ==> listing[..k][i] == listing[i];
    WriteOne(listing, f, k);
    WriteEachStops(listing, f, k + 1);
  }

  /** The symbols of the portfolio tables: the files of portfolios/. */
  function PortfolioSymbols(tables: Tables): set<string> {
    set id | id in tables && id.PortfolioTable? :: id.symbol
  }

  /** The portfolio tables of the listed symbols, read in listing order. */
  function ListedTables(tables: Tables, listing: seq<string>): (r: seq<seq<Row>>)
    ensures |r| == |listing|
    ensures forall i :: 0 <= i < |listing| ==> r[i] == TableIn(tables, PortfolioTable(listing[i]))
  {
    MapSeq((c: string) => TableIn(tables, PortfolioTable(c)), listing)
  }

  /** The file anual_amounts/portfolio-<c>.csv. */
  function AnnualFile(tables: Tables): string -> Result<seq<AnnualRow>> {
    (c: string) => AnnualAmounts(c, TableIn(tables, PortfolioTable(c)))
  }

  /** The file stories/portfolio-<c>.csv. */
  function StoryFile(tables: Tables): string -> Result<seq<StoryRow>> {
    (c: string) => Ok(Story(c, TableIn(tables, PortfolioTable(c))))
  }

  /**
   * A dividends file read_csv can load: download_dividends wrote it from at least one earning.
   * From no earnings it writes a frame without columns, a file with no header line, and
   * read_csv of that file raises.
   */
  predicate UsableFeed(feeds: map<string, seq<DividendRow>>, c: string) {
    c in feeds && feeds[c] != []
  }

  /** The error reading an unusable dividends file raises: KeyError when absent, EmptyDataError when empty. */
  function FeedError(feeds: map<string, seq<DividendRow>>, c: string): Error {
    if c in feeds then EmptyDividendFeed(c) else MissingDividendFeed(c)
  }

  /**
   * The file stories/dividends-<c>.csv: min() of an empty story raises before the dividends
   * file is looked up, a symbol with no dividends file raises KeyError, and a dividends file
   * without a header line raises in read_csv.
   */
  function DividendFile(stories: map<string, seq<StoryRow>>, feeds: map<string, seq<DividendRow>>, c: string): (r: Result<seq<DividendStoryRow>>)
    ensures r.Err? <==> c !in stories || stories[c] == [] || !UsableFeed(feeds, c)
    ensures r.Err? && c in stories && stories[c] != [] ==> r.error == FeedError(feeds, c)
    ensures r.Ok? ==> r == DividendsStory(stories[c], feeds[c])
  {
    var story := if c in stories then stories[c] else [];
    if story == [] then Err(EmptyTable)
    else if c !in feeds then Err(MissingDividendFeed(c))
    else if feeds[c] == [] then Err(EmptyDividendFeed(c))
    else DividendsStory(story, feeds[c])
  }

  /** A dividends file download_dividends wrote from a page with no earnings makes the symbol's story raise. */
  lemma NoEarningsFeedRaises(stories: map<string, seq<StoryRow>>, feeds: map<string, seq<DividendRow>>, c: string)
    requires c in stories && stories[c] != []
    requires c in feeds && DividendTable(c, []) == Ok(feeds[c])
    ensures DividendFile(stories, feeds, c) == Err(EmptyDividendFeed(c))
  {
    assert MapSeq(DividendRowFor(c), []) == [];
  }

  function DividendFiles(stories: map<string, seq<StoryRow>>, feeds: map<string, seq<DividendRow>>): string -> Result<seq<DividendStoryRow>> {
    (c: string) => DividendFile(stories, feeds, c)
  }

  /** A portfolio table save_to_file built is never empty, so its annual amounts are always written. */
  lemma AnnualFilesWritten(tables: Tables, listing: seq<string>)
    requires forall id :: id in tables ==> tables[id] != []
    requires forall c :: c in listing ==> c in PortfolioSymbols(tables)
    ensures WriteEach(listing, AnnualFile(tables)).outcome.Pass?
  {
    forall i | 0 <= i < |listing| ensures AnnualFile(tables)(listing[i]).Ok? {
      var c := listing[i];
      assert c in PortfolioSymbols(tables);
      var id :| id in tables && id.PortfolioTable? && id.symbol == c;
      assert id == PortfolioTable(c);
    }
    WriteEachFiles(listing, AnnualFile(tables));
  }

  /** The stories of non-empty tables are non-empty, so only an absent or empty dividends file can raise. */
  lemma DividendFilesFailOnMissingFeed(stories: map<string, seq<StoryRow>>, feeds: map<string, seq<DividendRow>>, listing: seq<string>)
    requires forall c :: c in listing ==> c in stories && stories[c] != []
    ensures var w := WriteEach(listing, DividendFiles(stories, feeds));
      w.outcome.Pass? <==> forall c :: c in listing ==> UsableFeed(feeds, c)
    ensures var w := WriteEach(listing, DividendFiles(stories, feeds));
      w.outcome.Fail? ==> exists c :: c in listing && !UsableFeed(feeds, c) && w.outcome.error == FeedError(feeds, c)
  {
    var f := DividendFiles(stories, feeds);
    var w := WriteEach(listing, f);
    WriteEachFiles(listing, f);
    if w.outcome.Fail? {
      var k := FirstMissing(listing, feeds);
      forall i | 0 <= i < k ensures f(listing[i]).Ok? {
        assert listing[i] in listing;
      }
      assert listing[k] in listing;
      WriteEachReportsFirstFailure(listing, f, k);
    }
  }

  /** The place of the first listed symbol without a usable dividends file, or the listing's length. */
  function FirstMissing(listing: seq<string>, feeds: map<string, seq<DividendRow>>): (k: nat)
    ensures k <= |listing|
    ensures forall i :: 0 <= i < k ==> UsableFeed(feeds, listing[i])
    ensures k < |listing| ==> !UsableFeed(feeds, listing[k])
    decreases |listing|
  {
    if listing == [] || !UsableFeed(feeds, listing[0]) then 0 else 1 + FirstMissing(listing[1..], feeds)
  }

  /** Lists the names of a directory, in whatever order it yields them. */
  method ListDirectory(names: set<string>) returns (listing: seq<string>)
    ensures Lists(listing, names)
  {
    listing := [];
    var rest := names;
    while rest != {}
      invariant rest <= names
      invariant Distinct(listing)
      invariant forall c :: c in listing <==> c in names && c !in rest
      decreases |rest|
    {
      var c :| c in rest;
      listing := listing + [c];
      rest := rest - {c};
    }
  }

  // ---------------------------------------------------------------------------------------
  // What __init__ derives once every confirmation is saved (lines 28-31).

  /** The derived files: consolidated_portfolio.csv, anual_amounts/, and the two kinds of story. */
  datatype Outputs = Outputs(
    consolidated: seq<Holding>,
    annualAmounts: map<string, seq<AnnualRow>>,
    stories: map<string, seq<StoryRow>>,
    dividendStories: map<string, seq<DividendStoryRow>>)

  /** The order each directory scan yields: portfolios/ three times, then stories/. */
  datatype Listings = Listings(portfolios: seq<string>, annual: seq<string>, stories: seq<string>, storyFiles: seq<string>)

  datatype Derived = Derived(outcome: Outcome, outputs: Outputs)

  const NoOutputs := Outputs([], map[], map[], map[])

  /** create_portfolio's effect on the derived files. */
  function DerivePortfolio(tables: Tables, listing: seq<string>, out: Outputs): Derived {
    var c := Consolidate(ListedTables(tables, listing));
    if c.Err? then Derived(Fail(c.error), out) else Derived(Pass, out.(consolidated := c.value))
  }

  /** create_anual_amounts' effect on the derived files. */
  function DeriveAnnual(tables: Tables, listing: seq<string>, out: Outputs): Derived {
    var a := WriteEach(listing, AnnualFile(tables));
    Derived(a.outcome, out.(annualAmounts := out.annualAmounts + a.files))
  }

  /** create_story's effect on the derived files. */
  function DeriveStories(tables: Tables, listing: seq<string>, out: Outputs): Derived {
    var s := WriteEach(listing, StoryFile(tables));
    Derived(s.outcome, out.(stories := out.stories + s.files))
  }

  /** create_dividends_story's effect on the derived files. */
  function DeriveDividends(feeds: map<string, seq<DividendRow>>, listing: seq<string>, out: Outputs): Derived {
    var d := WriteEach(listing, DividendFiles(out.stories, feeds));
    Derived(d.outcome, out.(dividendStories := out.dividendStories + d.files))
  }

  /**
   * create_portfolio, create_anual_amounts, create_story and create_dividends_story in turn,
   * each writing its files until one raises, and nothing after the first that raises.
   */
  function Derive(tables: Tables, feeds: map<string, seq<DividendRow>>, ls: Listings, out: Outputs): Derived {
    var c := DerivePortfolio(tables, ls.portfolios, out);
    if c.outcome.Fail? then c
    else
      var a := DeriveAnnual(tables, ls.annual, c.outputs);
      if a.outcome.Fail? then a
      else
        var s := DeriveStories(tables, ls.stories, a.outputs);
        if s.outcome.Fail? then s
        else DeriveDividends(feeds, ls.storyFiles, s.outputs)
  }

  /** The stories/ files create_dividends_story sees: those there before and those create_story wrote. */
  function StoryNames(tables: Tables, ls: Listings, out: Outputs): set<string> {
    (out.stories + WriteEach(ls.stories, StoryFile(tables)).files).Keys
  }

  /**
   * Each listing is a scan of its directory, made when the function that scans it runs:
   * create_anual_amounts only after create_portfolio did not raise, and so on.
   */
  predicate Scans(tables: Tables, ls: Listings, out: Outputs) {
    var symbols := PortfolioSymbols(tables);
    && Lists(ls.portfolios, symbols)
    && (ls.portfolios != [] ==> Lists(ls.annual, symbols))
    && (ls.portfolios != [] && WriteEach(ls.annual, AnnualFile(tables)).outcome.Pass? ==>
          Lists(ls.stories, symbols) && Lists(ls.storyFiles, StoryNames(tables, ls, out)))
  }

  /** Only an empty portfolios/ directory or a symbol without a usable dividends file makes the derivation raise. */
  lemma DeriveOutcome(tables: Tables, feeds: map<string, seq<DividendRow>>, ls: Listings)
    requires forall id :: id in tables ==> tables[id] != []
    requires Scans(tables, ls, NoOutputs)
    ensures var d := Derive(tables, feeds, ls, NoOutputs);
      d.outcome.Pass? <==> PortfolioSymbols(tables) != {} && forall c :: c in PortfolioSymbols(tables) ==> UsableFeed(feeds, c)
    ensures var d := Derive(tables, feeds, ls, NoOutputs);
      d.outcome.Fail? && PortfolioSymbols(tables) == {} ==> d.outcome.error == NoPortfolio
    ensures var d := Derive(tables, feeds, ls, NoOutputs);
      d.outcome.Fail? && PortfolioSymbols(tables) != {} ==>
        exists c :: c in PortfolioSymbols(tables) && !UsableFeed(feeds, c) && d.outcome.error == FeedError(feeds, c)
    ensures var d := Derive(tables, feeds, ls, NoOutputs);
      d.outcome.Pass? ==> d.outputs.dividendStories.Keys == PortfolioSymbols(tables)
  {
    var symbols := PortfolioSymbols(tables);
    if ls.portfolios == [] {
      NothingListed(tables, feeds, ls);
      return;
    }
    ReachesDividends(tables, ls);
    DeriveThroughStories(tables, feeds, ls);
    var stories := WriteEach(ls.stories, StoryFile(tables)).files;
    DividendsOutcome(stories, feeds, ls.storyFiles, symbols);
  }

  /** create_dividends_story over a scan of the stories: it raises exactly for a symbol without a usable dividends file. */
  lemma DividendsOutcome(stories: map<string, seq<StoryRow>>, feeds: map<string, seq<DividendRow>>, listing: seq<string>, symbols: set<string>)
    requires Lists(listing, symbols)
    requires forall c :: c in listing ==> c in stories && stories[c] != []
    ensures var w := WriteEach(listing, DividendFiles(stories, feeds));
      && (w.outcome.Pass? <==> forall c :: c in symbols ==> UsableFeed(feeds, c))
      && (w.outcome.Fail? ==> exists c :: c in symbols && !UsableFeed(feeds, c) && w.outcome.error == FeedError(feeds, c))
      && (w.outcome.Pass? ==> w.files.Keys == symbols)
  {
    DividendFilesFailOnMissingFeed(stories, feeds, listing);
    WriteEachFiles(listing, DividendFiles(stories, feeds));
  }

  /**
   * A run over a data directory whose tables are all non-empty (a fresh one, or one an
   * earlier run left): once every confirmation is saved, only an empty portfolios/ directory
   * or a symbol without a usable dividends file stops the derived files from being written.
   */
  lemma RunOutcome(tables: Tables, groups: seq<DateGroup>, feeds: map<string, seq<DividendRow>>, ls: Listings)
    requires forall id :: id in tables ==> tables[id] != []
    requires Replay(tables, IngestSteps(groups)).outcome.Pass?
    requires Scans(Replay(tables, IngestSteps(groups)).tables, ls, NoOutputs)
    ensures var saved := Replay(tables, IngestSteps(groups)).tables;
      var symbols := PortfolioSymbols(saved);
      && tables.Keys <= saved.Keys
      && (Derive(saved, feeds, ls, NoOutputs).outcome.Pass? <==> symbols != {} && forall c :: c in symbols ==> UsableFeed(feeds, c))
  {
    ReplayKeepsTables(tables, IngestSteps(groups));
    DeriveOutcome(Replay(tables, IngestSteps(groups)).tables, feeds, ls);
  }

  /** An empty scan of portfolios/ means there is no portfolio table, and create_portfolio raises. */
  lemma NothingListed(tables: Tables, feeds: map<string, seq<DividendRow>>, ls: Listings)
    requires Lists(ls.portfolios, PortfolioSymbols(tables)) && ls.portfolios == []
    ensures PortfolioSymbols(tables) == {}
    ensures Derive(tables, feeds, ls, NoOutputs).outcome == Fail(NoPortfolio)
  {
    assert forall c :: c !in ls.portfolios;
  }

  /**
   * With some portfolio table, create_anual_amounts and create_story pass, and
   * create_dividends_story runs over a scan listing every symbol, each with a story.
   */
  lemma ReachesDividends(tables: Tables, ls: Listings)
    requires forall id :: id in tables ==> tables[id] != []
    requires Scans(tables, ls, NoOutputs) && ls.portfolios != []
    ensures var stories := WriteEach(ls.stories, StoryFile(tables));
      && PortfolioSymbols(tables) != {}
      && WriteEach(ls.annual, AnnualFile(tables)).outcome.Pass?
      && stories.outcome.Pass?
      && Lists(ls.storyFiles, PortfolioSymbols(tables))
      && (forall c :: c in ls.storyFiles ==> c in stories.files && stories.files[c] != [])
  {
    assert ls.portfolios[0] in PortfolioSymbols(tables);
    AnnualFilesWritten(tables, ls.annual);
    StoriesWritten(tables, ls.stories);
    assert StoryNames(tables, ls, NoOutputs) == PortfolioSymbols(tables);
  }

  /** Once create_anual_amounts and create_story pass, the run ends as create_dividends_story does. */
  lemma DeriveThroughStories(tables: Tables, feeds: map<string, seq<DividendRow>>, ls: Listings)
    requires ls.portfolios != []
    requires WriteEach(ls.annual, AnnualFile(tables)).outcome.Pass?
    requires WriteEach(ls.stories, StoryFile(tables)).outcome.Pass?
    ensures var stories := WriteEach(ls.stories, StoryFile(tables)).files;
      var w := WriteEach(ls.storyFiles, DividendFiles(stories, feeds));
      && Derive(tables, feeds, ls, NoOutputs).outcome == w.outcome
      && Derive(tables, feeds, ls, NoOutputs).outputs.dividendStories == w.files
  {
    var c := DerivePortfolio(tables, ls.portfolios, NoOutputs);
    PortfolioPasses(tables, ls.portfolios, NoOutputs);
    assert c.outcome.Pass? && c.outputs.stories == map[];
    var a := DeriveAnnual(tables, ls.annual, c.outputs);
    assert a.outcome.Pass? && a.outputs.stories == map[];
    var files := WriteEach(ls.stories, StoryFile(tables)).files;
    var s := DeriveStories(tables, ls.stories, a.outputs);
    assert s.outcome.Pass? && s.outputs.stories == map[] + files;
    NoneThenFiles(files);
    NoneThenFiles(WriteEach(ls.storyFiles, DividendFiles(files, feeds)).files);
    assert Derive(tables, feeds, ls, NoOutputs) == DeriveDividends(feeds, ls.storyFiles, s.outputs);
  }

  /** create_portfolio passes whenever portfolios/ lists a file. */
  lemma PortfolioPasses(tables: Tables, listing: seq<string>, out: Outputs)
    requires listing != []
    ensures DerivePortfolio(tables, listing, out).outcome.Pass?
    ensures DerivePortfolio(tables, listing, out).outputs.stories == out.stories
  {
    assert |ListedTables(tables, listing)| > 0;
  }

  lemma NoneThenFiles<K, V>(files: map<K, V>)
    ensures map[] + files == files
  {
  }

  /** create_story writes one non-empty story per portfolio table. */
  lemma StoriesWritten(tables: Tables, listing: seq<string>)
    requires forall id :: id in tables ==> tables[id] != []
    requires Lists(listing, PortfolioSymbols(tables))
    ensures var s := WriteEach(listing, StoryFile(tables));
      && s.outcome.Pass?
      && s.files.Keys == PortfolioSymbols(tables)
      && forall c :: c in s.files ==> s.files[c] != []
  {
    var s := WriteEach(listing, StoryFile(tables));
    StoriesListed(tables, listing);
    forall c | c in s.files ensures s.files[c] != [] {
      WriteEachFiles(listing, StoryFile(tables));
      StoryOfSymbol(tables, c);
    }
  }

  /** create_story never raises, and writes a story for each listed symbol. */
  lemma StoriesListed(tables: Tables, listing: seq<string>)
    requires Lists(listing, PortfolioSymbols(tables))
    ensures var s := WriteEach(listing, StoryFile(tables));
      s.outcome.Pass? && s.files.Keys == PortfolioSymbols(tables)
  {
    WriteEachFiles(listing, StoryFile(tables));
  }

  /** The story of a portfolio table that exists and is not empty has at least one day. */
  lemma StoryOfSymbol(tables: Tables, c: string)
    requires forall id :: id in tables ==> tables[id] != []
    requires c in PortfolioSymbols(tables)
    ensures StoryFile(tables)(c).Ok? && StoryFile(tables)(c).value != []
  {
    var id :| id in tables && id.PortfolioTable? && id.symbol == c;
    assert id == PortfolioTable(c);
    StoryCoversRows(c, tables[id]);
  }

  // ---------------------------------------------------------------------------------------
  // The engine itself.

  /**
   * The portfolio over its data directory: the ledger tables it saves into, and the files it
   * derives from them.
   */
  class InvestmentPortfolio {
    const store: TableStore
    var consolidated: seq<Holding>
    var annualAmounts: map<string, seq<AnnualRow>>
    var stories: map<string, seq<StoryRow>>
    var dividendStories: map<string, seq<DividendStoryRow>>

    /** create_folders: the directory with the ledger tables already in it, and no derived file yet. */
    constructor (store: TableStore)
      ensures this.store == store
      ensures consolidated == [] && annualAmounts == map[] && stories == map[] && dividendStories == map[]
    {
      this.store := store;
      consolidated := [];
      annualAmounts := map[];
      stories := map[];
      dividendStories := map[];
    }

    /** add_fees (lines 40-54). */
    method AddFees(tcName: string, date: string, broker: string, fees: seq<Fee>) returns (o: Outcome)
      modifies store
      ensures Run(o, store.tables) == Save(old(store.tables), FeesStep(tcName, date, broker, fees))
    {
      o := store.SaveToFile(FeesTable, FeeRows(tcName, date, broker, fees));
    }

    /** add_spent_values (lines 56-76). */
    method AddSpentValues(tcName: string, date: string, operationsValue: real, settlementAmount: real) returns (o: Outcome)
      modifies store
      ensures Run(o, store.tables) == Save(old(store.tables), SpentStep(tcName, date, operationsValue, settlementAmount))
    {
      o := store.SaveToFile(SpentValuesTable, [SpentRowOf(tcName, date, operationsValue, settlementAmount)]);
    }

    /** add_operation (lines 78-102): the KeyError comes before anything is saved. */
    method AddOperation(tcName: string, date: string, op: Operation) returns (o: Outcome)
      modifies store
      ensures Run(o, store.tables) == Save(old(store.tables), OperationStep(tcName, date, op))
    {
      var row := OperationRowOf(tcName, date, op);
      if row.Err? {
        return Fail(row.error);
      }
      o := store.SaveToFile(PortfolioTable(op.symbol), [row.value]);
    }

    /** The loop over a confirmation's operations (lines 23-26). */
    method AddOperations(tcName: string, date: string, ops: seq<Operation>) returns (o: Outcome)
      modifies store
      ensures Run(o, store.tables) == Replay(old(store.tables), MapSeq((op: Operation) => OperationStep(tcName, date, op), ops))
    {
      ghost var t0 := store.tables;
      ghost var steps := MapSeq((op: Operation) => OperationStep(tcName, date, op), ops);
      assert steps[..0] == [];
      for k := 0 to |ops|
        invariant Replay(t0, steps[..k]) == Run(Pass, store.tables)
      {
        ghost var before := store.tables;
        o := AddOperation(tcName, date, ops[k]);
        ReplayStep(Saved, t0, steps, k, before);
        if o.Fail? {
          return;
        }
      }
      assert steps[..|ops|] == steps;
      o := Pass;
    }

    /** The body of the loop over one date's confirmations (lines 19-26). */
    method AddConfirmation(c: Confirmation) returns (o: Outcome)
      modifies store
      ensures Run(o, store.tables) == Replay(old(store.tables), ConfirmationSteps(c))
    {
      ghost var t0 := store.tables;
      o := AddFees(c.name, c.date, c.broker, c.fees);
      ConfirmationReplay(t0, c);
      if o.Fail? {
        return;
      }
      o := AddSpentValues(c.name, c.date, c.operationsValue, c.settlementAmount);
      if o.Fail? {
        return;
      }
      o := AddOperations(c.name, c.date, c.operations);
    }

    /** The loop of __init__ (lines 17-26): the confirmations by ascending date, in list order within a date. */
    method Ingest(groups: seq<DateGroup>) returns (o: Outcome)
      modifies store
      ensures Run(o, store.tables) == Replay(old(store.tables), IngestSteps(groups))
    {
      ghost var t0 := store.tables;
      var ordered := Chronological(groups);
      ghost var all := MapSeq(GroupSteps, ordered);
      assert all[..0] == [];
      for i := 0 to |ordered|
        invariant Replay(t0, Flatten(all[..i])) == Run(Pass, store.tables)
      {
        var papers := ordered[i].papers;
        ghost var each := MapSeq(ConfirmationSteps, papers);
        GroupDone(all, i, each);
        for j := 0 to |papers|
          invariant Replay(t0, Flatten(all[..i]) + Flatten(each[..j])) == Run(Pass, store.tables)
        {
          ghost var before := store.tables;
          o := AddConfirmation(papers[j]);
          NestedStep(Saved, t0, all, i, each, j, before);
          if o.Fail? {
            return;
          }
        }
      }
      assert all[..|ordered|] == all;
      o := Pass;
    }
    /** The derived files as they stand. */
    function Files(): Outputs
      reads this
    {
      Outputs(consolidated, annualAmounts, stories, dividendStories)
    }

    /** create_portfolio (lines 125-149), over the symbols in the order portfolios/ is listed. */
    method CreatePortfolio(listing: seq<string>) returns (o: Outcome)
      modifies this`consolidated
      ensures var r := Consolidate(ListedTables(store.tables, listing));
        && (r.Err? ==> o == Fail(r.error) && consolidated == old(consolidated))
        && (r.Ok? ==> o == Pass && consolidated == r.value)
    {
      ghost var tables := ListedTables(store.tables, listing);
      var positions: seq<Position> := [];
      assert tables[..0] == [];
      for i := 0 to |listing|
        invariant positions == AllPositions(tables[..i])
        invariant consolidated == old(consolidated)
      {
        AllPositionsSnoc(tables, i);
        assert store.Table(PortfolioTable(listing[i])) == tables[i];
        positions := positions + PositionsOf(store.Table(PortfolioTable(listing[i])));
      }
      assert tables[..|listing|] == tables;
      if listing == [] {
        assert tables == [];
        return Fail(NoPortfolio);
      }
      var amountInvested := Total(positions, PositionInvestment);
      consolidated := Sort(MapSeq(WithShare(amountInvested), positions), HoldingLe);
      ConsolidateOk(tables, positions);
      o := Pass;
    }

    /** create_anual_amounts (lines 151-178): one file per listed symbol until one raises. */
    method CreateAnnualAmounts(listing: seq<string>) returns (o: Outcome)
      modifies this`annualAmounts
      ensures var w := WriteEach(listing, AnnualFile(store.tables));
        o == w.outcome && annualAmounts == old(annualAmounts) + w.files
    {
      ghost var f := AnnualFile(store.tables);
      assert listing[..0] == [];
      for i := 0 to |listing|
        invariant WriteEach(listing[..i], f).outcome.Pass?
        invariant annualAmounts == old(annualAmounts) + WriteEach(listing[..i], f).files
      {
        var c := listing[i];
        var amounts := AnnualAmounts(c, store.Table(PortfolioTable(c)));
        WriteNext(listing, f, i, old(annualAmounts), annualAmounts);
        if amounts.Err? {
          return Fail(amounts.error);
        }
        annualAmounts := annualAmounts[c := amounts.value];
      }
      assert listing[..|listing|] == listing;
      o := Pass;
    }

    /** create_story (lines 180-200): one file per listed symbol. */
    method CreateStory(listing: seq<string>) returns (o: Outcome)
      modifies this`stories
      ensures o == Pass
      ensures var w := WriteEach(listing, StoryFile(store.tables));
        o == w.outcome && stories == old(stories) + w.files
    {
      ghost var f := StoryFile(store.tables);
      assert listing[..0] == [];
      for i := 0 to |listing|
        invariant WriteEach(listing[..i], f).outcome.Pass?
        invariant stories == old(stories) + WriteEach(listing[..i], f).files
      {
        var c := listing[i];
        WriteNext(listing, f, i, old(stories), stories);
        stories := stories[c := Story(c, store.Table(PortfolioTable(c)))];
      }
      assert listing[..|listing|] == listing;
      o := Pass;
    }

    /**
     * create_dividends_story (lines 202-241), over the story files in the order stories/ is
     * listed and the dividends files of earnings-history/.
     */
    method CreateDividendsStory(listing: seq<string>, feeds: map<string, seq<DividendRow>>) returns (o: Outcome)
      modifies this`dividendStories
      ensures var w := WriteEach(listing, DividendFiles(stories, feeds));
        o == w.outcome && dividendStories == old(dividendStories) + w.files
    {
      ghost var f := DividendFiles(stories, feeds);
      assert listing[..0] == [];
      for i := 0 to |listing|
        invariant WriteEach(listing[..i], f).outcome.Pass?
        invariant dividendStories == old(dividendStories) + WriteEach(listing[..i], f).files
      {
        var c := listing[i];
        var story := DividendFile(stories, feeds, c);
        WriteNext(listing, f, i, old(dividendStories), dividendStories);
        if story.Err? {
          return Fail(story.error);
        }
        dividendStories := dividendStories[c := story.value];
      }
      assert listing[..|listing|] == listing;
      o := Pass;
    }

    /**
     * The body of __init__ (lines 15-31): save every confirmation, then derive the files from
     * the portfolio tables; the first exception ends the run.
     */
    method Process(groups: seq<DateGroup>, feeds: map<string, seq<DividendRow>>) returns (o: Outcome, ls: Listings)
      modifies store, this`consolidated, this`annualAmounts, this`stories, this`dividendStories
      ensures var ingest := Replay(old(store.tables), IngestSteps(groups));
        && store.tables == ingest.tables
        && (ingest.outcome.Fail? ==> o == ingest.outcome && Files() == old(Files()))
        && (ingest.outcome.Pass? ==>
              && Scans(store.tables, ls, old(Files()))
              && Derived(o, Files()) == Derive(store.tables, feeds, ls, old(Files())))
    {
      ls := Listings([], [], [], []);
      o := Ingest(groups);
      if o.Fail? {
        return;
      }
      o, ls := DeriveFiles(feeds);
    }

    /** Lines 28-31 of __init__: the derived files, rebuilt from the portfolio tables. */
    method DeriveFiles(feeds: map<string, seq<DividendRow>>) returns (o: Outcome, ls: Listings)
      modifies this`consolidated, this`annualAmounts, this`stories, this`dividendStories
      ensures Scans(store.tables, ls, old(Files()))
      ensures Derived(o, Files()) == Derive(store.tables, feeds, ls, old(Files()))
    {
      ghost var out0 := Files();
      var portfolios, annual;
      o, portfolios, annual := DeriveTableFiles();
      ls := Listings(portfolios, annual, [], []);
      if o.Fail? {
        return;
      }
      var storyListing, storyFiles;
      o, storyListing, storyFiles := DeriveStoryFiles(feeds);
      ls := Listings(portfolios, annual, storyListing, storyFiles);
    }

    /** create_portfolio and create_anual_amounts, each scanning portfolios/ (lines 28-29). */
    method DeriveTableFiles() returns (o: Outcome, portfolios: seq<string>, annual: seq<string>)
      modifies this`consolidated, this`annualAmounts
      ensures Lists(portfolios, PortfolioSymbols(store.tables))
      ensures portfolios != [] ==> Lists(annual, PortfolioSymbols(store.tables))
      ensures var c := DerivePortfolio(store.tables, portfolios, old(Files()));
        Derived(o, Files()) == if c.outcome.Fail? then c else DeriveAnnual(store.tables, annual, c.outputs)
    {
      annual := [];
      portfolios := ListDirectory(PortfolioSymbols(store.tables));
      o := CreatePortfolio(portfolios);
      if o.Fail? {
        return;
      }
      annual := ListDirectory(PortfolioSymbols(store.tables));
      o := CreateAnnualAmounts(annual);
    }

    /** create_story over a scan of portfolios/, then create_dividends_story over a scan of stories/ (lines 30-31). */
    method DeriveStoryFiles(feeds: map<string, seq<DividendRow>>) returns (o: Outcome, listing: seq<string>, storyFiles: seq<string>)
      modifies this`stories, this`dividendStories
      ensures Lists(listing, PortfolioSymbols(store.tables))
      ensures Lists(storyFiles, (old(stories) + WriteEach(listing, StoryFile(store.tables)).files).Keys)
      ensures var s := DeriveStories(store.tables, listing, old(Files()));
        s.outcome == Pass && Derived(o, Files()) == DeriveDividends(feeds, storyFiles, s.outputs)
    {
      listing := ListDirectory(PortfolioSymbols(store.tables));
      o := CreateStory(listing);
      storyFiles := ListDirectory(stories.Keys);
      o := CreateDividendsStory(storyFiles, feeds);
    }
  }
}
