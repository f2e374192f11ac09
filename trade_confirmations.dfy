/**
 * A trade confirmation being opened: its fields are read from the paper, checked in a fixed
 * order, and then every operation is rewritten in place to carry its share of the fees.
 */
module TradeConfirmations {
  import opened Errors
  import opened Seqs
  import opened Money
  import opened Text
  import opened Calendar
  import opened Validation

  /** The JSON document a confirmation file holds. */
  datatype Paper = Paper(
    broker: string, date: string, fees: seq<Fee>, operations: seq<Operation>,
    operationsValue: real, settlementAmount: real)

  /** A confirmation that passed every check, its operations carrying their fees. */
  datatype Confirmation = Confirmation(
    name: string, broker: string, date: string, fees: seq<Fee>, operations: seq<Operation>,
    operationsValue: real, settlementAmount: real)

  /** Allocating fees to this operation divides by zero: no operations value, or no shares. */
  predicate DividesByZero(op: Operation, operationsValue: real) {
    operationsValue == 0.0 || op.amount == 0
  }

  /** The i-th operation (from 0) once it bears its share of the fees. */
  function WithFees(op: Operation, operationsValue: real, feesCost: real, i: nat): Operation
    requires !DividesByZero(op, operationsValue)
  {
    var percentage := op.value / operationsValue;
    var cost := feesCost * percentage;
    Operation(op.symbol, op.amount, op.price + cost / op.amount as real, op.value + cost,
              Some(FeeAllocation(cost, op.value, op.price, NatToString(i + 1))))
  }

  /** The position of the first operation whose allocation divides by zero, or |ops|. */
  function FirstDivisionByZero(ops: seq<Operation>, operationsValue: real): (k: nat)
    ensures k <= |ops|
    ensures forall i :: 0 <= i < k ==> !DividesByZero(ops[i], operationsValue)
    ensures k < |ops| ==> DividesByZero(ops[k], operationsValue)
    decreases |ops|
  {
    if ops == [] || DividesByZero(ops[0], operationsValue) then 0
    else 1 + FirstDivisionByZero(ops[1..], operationsValue)
  }

  lemma FirstDivisionByZeroAt(ops: seq<Operation>, operationsValue: real, i: nat)
    requires i <= |ops|
    requires forall j :: 0 <= j < i ==> !DividesByZero(ops[j], operationsValue)
    requires i < |ops| ==> DividesByZero(ops[i], operationsValue)
    ensures FirstDivisionByZero(ops, operationsValue) == i
  {
  }

  /** The operations after the first `n` of them have been given their fees. */
  function AllocateUpTo(ops: seq<Operation>, n: nat, operationsValue: real, feesCost: real): (r: seq<Operation>)
    requires n <= |ops|
    requires forall i :: 0 <= i < n ==> !DividesByZero(ops[i], operationsValue)
    ensures |r| == |ops|
    ensures forall i :: 0 <= i < n ==> r[i] == WithFees(ops[i], operationsValue, feesCost, i)
    ensures forall i :: n <= i < |ops| ==> r[i] == ops[i]
  {
    seq(|ops|, i requires 0 <= i < |ops| && (i < n ==> !DividesByZero(ops[i], operationsValue)) =>
      if i < n then WithFees(ops[i], operationsValue, feesCost, i) else ops[i])
  }

  /** The operation with its fees, for a cost computed as value / operationsValue of the fees. */
  lemma WithFeesIs(op: Operation, operationsValue: real, feesCost: real, i: nat, cost: real)
    requires !DividesByZero(op, operationsValue)
    requires cost == feesCost * (op.value / operationsValue)
    ensures WithFees(op, operationsValue, feesCost, i) ==
      Operation(op.symbol, op.amount, op.price + cost / op.amount as real, op.value + cost,
                Some(FeeAllocation(cost, op.value, op.price, NatToString(i + 1))))
  {
    var w := WithFees(op, operationsValue, feesCost, i);
    assert w.allocation.value.costOfFees == cost;
    assert w.allocation.value.counter == NatToString(i + 1);
    assert w.allocation == Some(FeeAllocation(cost, op.value, op.price, NatToString(i + 1)));
    assert w.value == op.value + cost;
    assert w.price == op.price + cost / op.amount as real;
  }

  /** Allocating the n-th operation's share extends the allocation of the first n by one. */
  lemma AllocateNext(ops: seq<Operation>, n: nat, operationsValue: real, feesCost: real)
    requires n < |ops|
    requires forall i :: 0 <= i <= n ==> !DividesByZero(ops[i], operationsValue)
    ensures AllocateUpTo(ops, n, operationsValue, feesCost)[n := WithFees(ops[n], operationsValue, feesCost, n)]
      == AllocateUpTo(ops, n + 1, operationsValue, feesCost)
  {
    var before := AllocateUpTo(ops, n, operationsValue, feesCost);
    var after := AllocateUpTo(ops, n + 1, operationsValue, feesCost);
    var next := before[n := WithFees(ops[n], operationsValue, feesCost, n)];
    assert forall i :: 0 <= i < |ops| ==> next[i] == after[i];
  }

  /**
   * calculate_price_with_fees as a value: Python's ZeroDivisionError names the first
   * operation it is raised on.
   */
  function AllocateFees(ops: seq<Operation>, operationsValue: real, feesCost: real): (r: Result<seq<Operation>>)
    ensures r.Ok? <==> (ops == [] || operationsValue != 0.0) && forall i :: 0 <= i < |ops| ==> ops[i].amount != 0
    ensures r.Err? ==> exists k :: 0 <= k < |ops| && DividesByZero(ops[k], operationsValue) && r.error == DivisionByZero(ops[k].symbol)
    ensures r.Ok? ==> |r.value| == |ops|
  {
    var k := FirstDivisionByZero(ops, operationsValue);
    if k < |ops| then Err(DivisionByZero(ops[k].symbol)) else Ok(AllocateUpTo(ops, |ops|, operationsValue, feesCost))
  }

  /**
   * Each operation keeps its symbol and amount, records its old value and price, takes the
   * cost share value / operationsValue of the fees, and the i-th gets counter str(i + 1).
   */
  lemma AllocatedOperation(ops: seq<Operation>, operationsValue: real, feesCost: real, i: int)
    requires AllocateFees(ops, operationsValue, feesCost).Ok?
    requires 0 <= i < |ops|
    ensures var o := AllocateFees(ops, operationsValue, feesCost).value[i];
      var cost := feesCost * (ops[i].value / operationsValue);
      && o.symbol == ops[i].symbol && o.amount == ops[i].amount
      && o.allocation == Some(FeeAllocation(cost, ops[i].value, ops[i].price, NatToString(i + 1)))
      && o.value == ops[i].value + cost
      && o.price == ops[i].price + cost / ops[i].amount as real
  {
    var r := AllocateUpTo(ops, |ops|, operationsValue, feesCost);
    assert AllocateFees(ops, operationsValue, feesCost).value == r;
    var o := WithFees(ops[i], operationsValue, feesCost, i);
    assert r[i] == o;
    var cost := feesCost * (ops[i].value / operationsValue);
    assert o.allocation.value.costOfFees == cost;
    assert o.allocation.value.counter == NatToString(i + 1);
    assert o.allocation == Some(FeeAllocation(cost, ops[i].value, ops[i].price, NatToString(i + 1)));
  }

  lemma ShareArithmetic(v: real, f: real, d: real)
    requires d != 0.0
    ensures f * (v / d) == v * (f / d)
    ensures v * (f / d) * d == v * f
  {
  }

  function CostOfFees(o: Operation): real {
    if o.allocation.Some? then o.allocation.value.costOfFees else 0.0
  }

  /**
   * Fees are shared out in proportion to value: the allocated costs sum to the fees scaled by
   * the line total over the declared value, and each operation's value grows by its cost.
   */
  lemma FeeConservation(ops: seq<Operation>, operationsValue: real, feesCost: real, r: seq<Operation>)
    requires AllocateFees(ops, operationsValue, feesCost) == Ok(r)
    ensures Total(r, CostOfFees) * operationsValue == feesCost * OperationsTotal(ops)
    ensures OperationsTotal(r) == OperationsTotal(ops) + Total(r, CostOfFees)
  {
    CostsConservation(ops, operationsValue, feesCost, r);
    ValuesGrowByCosts(ops, operationsValue, feesCost, r);
  }

  /** The allocated costs are the fees scaled by the line total over the declared value. */
  lemma CostsConservation(ops: seq<Operation>, operationsValue: real, feesCost: real, r: seq<Operation>)
    requires AllocateFees(ops, operationsValue, feesCost) == Ok(r)
    ensures Total(r, CostOfFees) * operationsValue == feesCost * OperationsTotal(ops)
  {
    assert r == AllocateUpTo(ops, |ops|, operationsValue, feesCost);
    if ops == [] {
      assert r == [];
    } else {
      CostShares(ops, operationsValue, feesCost, r);
      CostsScale(ops, operationsValue, feesCost, r);
    }
  }

  /** Each operation's value grows by exactly its cost. */
  lemma ValuesGrowByCosts(ops: seq<Operation>, operationsValue: real, feesCost: real, r: seq<Operation>)
    requires AllocateFees(ops, operationsValue, feesCost) == Ok(r)
    ensures OperationsTotal(r) == OperationsTotal(ops) + Total(r, CostOfFees)
  {
    assert r == AllocateUpTo(ops, |ops|, operationsValue, feesCost);
    forall i | 0 <= i < |ops| ensures OperationValue(r[i]) == OperationValue(ops[i]) + CostOfFees(r[i]) {
      assert r[i] == WithFees(ops[i], operationsValue, feesCost, i);
    }
    TotalPointwiseAdd(ops, r, OperationValue, OperationValue, CostOfFees);
  }

  /** Costs that are each value's share of the fees add up to the fees' share of the total. */
  lemma CostsScale(ops: seq<Operation>, operationsValue: real, feesCost: real, r: seq<Operation>)
    requires operationsValue != 0.0
    requires CostsAtRate(ops, r, feesCost / operationsValue)
    ensures Total(r, CostOfFees) * operationsValue == feesCost * OperationsTotal(ops)
  {
    var total := OperationsTotal(ops);
    var costs := Total(r, CostOfFees);
    assert costs == total * (feesCost / operationsValue) by {
      ScaledTotal(ops, r, feesCost / operationsValue);
    }
    ScaleBack(total, costs, feesCost, operationsValue);
  }

  /** Each operation's cost is its value times `rate`. */
  predicate CostsAtRate(ops: seq<Operation>, r: seq<Operation>, rate: real) {
    |r| == |ops| && forall i :: 0 <= i < |ops| ==> CostOfFees(r[i]) == OperationValue(ops[i]) * rate
  }

  /** Costs that are row by row a fixed rate of the values sum to that rate of the total. */
  lemma {:induction false} ScaledTotal(ops: seq<Operation>, r: seq<Operation>, c: real)
    requires |r| == |ops|
    requires forall i :: 0 <= i < |ops| ==> CostOfFees(r[i]) == OperationValue(ops[i]) * c
    ensures Total(r, CostOfFees) == OperationsTotal(ops) * c
    decreases |ops|
  {
    if ops != [] {
      var n := |ops| - 1;
      var front := Total(r[..n], CostOfFees);
      var values := OperationsTotal(ops[..n]);
      assert front == values * c by {
        ScaledTotal(ops[..n], r[..n], c);
      }
      assert CostOfFees(r[n]) == OperationValue(ops[n]) * c;
      assert front + CostOfFees(r[n]) == (values + OperationValue(ops[n])) * c by {
        Distribute(values, OperationValue(ops[n]), c);
      }
    }
  }

  lemma Distribute(x: real, y: real, c: real)
    ensures x * c + y * c == (x + y) * c
  {
  }

  lemma ScaleBack(total: real, costs: real, feesCost: real, operationsValue: real)
    requires operationsValue != 0.0
    requires costs == total * (feesCost / operationsValue)
    ensures costs * operationsValue == feesCost * total
  {
    ShareArithmetic(total, feesCost, operationsValue);
  }

  /** Each operation's cost is its value times the fees per unit of declared value. */
  lemma CostShares(ops: seq<Operation>, operationsValue: real, feesCost: real, r: seq<Operation>)
    requires operationsValue != 0.0
    requires forall i :: 0 <= i < |ops| ==> !DividesByZero(ops[i], operationsValue)
    requires r == AllocateUpTo(ops, |ops|, operationsValue, feesCost)
    ensures CostsAtRate(ops, r, feesCost / operationsValue)
  {
    forall i | 0 <= i < |ops| ensures CostOfFees(r[i]) == OperationValue(ops[i]) * (feesCost / operationsValue) {
      assert r[i] == WithFees(ops[i], operationsValue, feesCost, i);
      ShareArithmetic(ops[i].value, feesCost, operationsValue);
    }
  }

  /** When the line items add up exactly to the declared value, exactly the fees are shared out. */
  lemma ExactFeeConservation(ops: seq<Operation>, operationsValue: real, feesCost: real)
    requires AllocateFees(ops, operationsValue, feesCost).Ok?
    requires OperationsTotal(ops) == operationsValue != 0.0
    ensures var r := AllocateFees(ops, operationsValue, feesCost).value;
      && Total(r, CostOfFees) == feesCost
      && OperationsTotal(r) == operationsValue + feesCost
  {
    ExactCosts(ops, operationsValue, feesCost);
    ValuesGrowByCosts(ops, operationsValue, feesCost, AllocateFees(ops, operationsValue, feesCost).value);
  }

  /** With the lines adding up to the declared value, the costs add up to the fees. */
  lemma ExactCosts(ops: seq<Operation>, operationsValue: real, feesCost: real)
    requires AllocateFees(ops, operationsValue, feesCost).Ok?
    requires OperationsTotal(ops) == operationsValue != 0.0
    ensures Total(AllocateFees(ops, operationsValue, feesCost).value, CostOfFees) == feesCost
  {
    var costs := Total(AllocateFees(ops, operationsValue, feesCost).value, CostOfFees);
    CostsConservation(ops, operationsValue, feesCost, AllocateFees(ops, operationsValue, feesCost).value);
    CancelFactor(costs, feesCost, OperationsTotal(ops), operationsValue);
  }

  /** x * k == y * t with t == k != 0 leaves x == y. */
  lemma CancelFactor(x: real, y: real, t: real, k: real)
    requires k != 0.0 && t == k && x * k == y * t
    ensures x == y
  {
    assert (x - y) * k == 0.0;
  }

  /** The counters are the positions 1, 2, 3, ... written out, all different. */
  lemma CountersDistinct(ops: seq<Operation>, operationsValue: real, feesCost: real, i: int, j: int)
    requires AllocateFees(ops, operationsValue, feesCost).Ok?
    requires 0 <= i < j < |ops|
    ensures var r := AllocateFees(ops, operationsValue, feesCost).value;
      r[i].allocation.value.counter != r[j].allocation.value.counter
  {
    var r := AllocateFees(ops, operationsValue, feesCost).value;
    if r[i].allocation.value.counter == r[j].allocation.value.counter {
      NatToStringInjective(i + 1, j + 1);
    }
  }

  /**
   * The gap between an operation's value and price times amount (the line's rounding) is the
   * same before and after the fees are added.
   */
  lemma RoundingResidualKept(ops: seq<Operation>, operationsValue: real, feesCost: real, i: int)
    requires AllocateFees(ops, operationsValue, feesCost).Ok?
    requires 0 <= i < |ops|
    ensures var o := AllocateFees(ops, operationsValue, feesCost).value[i];
      o.value - o.price * o.amount as real == ops[i].value - ops[i].price * ops[i].amount as real
  {
    var o := AllocateFees(ops, operationsValue, feesCost).value[i];
    var a := ops[i].amount as real;
    var cost := CostOfFees(o);
    assert (ops[i].price + cost / a) * a == ops[i].price * a + cost;
  }

  /** The whole opening sequence as a value: date, operations value, settlement, allocation. */
  function Confirm(name: string, paper: Paper): (r: Result<Confirmation>)
    ensures r.Ok? <==>
      && ParseIso(paper.date).Some?
      && CheckOperationsValue(paper.operationsValue, paper.operations).Pass?
      && CheckSettlement(paper.settlementAmount, FeesCost(paper.fees), paper.operationsValue).Pass?
      && AllocateFees(paper.operations, paper.operationsValue, FeesCost(paper.fees)).Ok?
    ensures r.Ok? ==> r.value == Confirmation(
      name, paper.broker, paper.date, paper.fees,
      AllocateFees(paper.operations, paper.operationsValue, FeesCost(paper.fees)).value,
      paper.operationsValue, paper.settlementAmount)
  {
    var feesCost := FeesCost(paper.fees);
    match ValidateDate(paper.date)
    case Err(e) => Err(e)
    case Ok(date) =>
      match CheckOperationsValue(paper.operationsValue, paper.operations)
      case Fail(e) => Err(e)
      case Pass =>
        match CheckSettlement(paper.settlementAmount, feesCost, paper.operationsValue)
        case Fail(e) => Err(e)
        case Pass =>
          match AllocateFees(paper.operations, paper.operationsValue, feesCost)
          case Err(e) => Err(e)
          case Ok(ops) => Ok(Confirmation(name, paper.broker, date, paper.fees, ops, paper.operationsValue, paper.settlementAmount))
  }

  /** The checks run in a fixed order and the first one failing is the one reported. */
  lemma ConfirmReportsFirstFailure(name: string, paper: Paper)
    ensures ParseIso(paper.date).None? ==> Confirm(name, paper) == Err(InvalidDateFormat(paper.date))
    ensures ParseIso(paper.date).Some? && CheckOperationsValue(paper.operationsValue, paper.operations).Fail? ==>
      Confirm(name, paper) == Err(CheckOperationsValue(paper.operationsValue, paper.operations).error)
    ensures (ParseIso(paper.date).Some? && CheckOperationsValue(paper.operationsValue, paper.operations).Pass? &&
             CheckSettlement(paper.settlementAmount, FeesCost(paper.fees), paper.operationsValue).Fail?) ==>
      Confirm(name, paper) == Err(SettlementMismatch(paper.settlementAmount, FeesCost(paper.fees), paper.operationsValue))
    ensures (ParseIso(paper.date).Some? && CheckOperationsValue(paper.operationsValue, paper.operations).Pass? &&
             CheckSettlement(paper.settlementAmount, FeesCost(paper.fees), paper.operationsValue).Pass? &&
             AllocateFees(paper.operations, paper.operationsValue, FeesCost(paper.fees)).Err?) ==>
      Confirm(name, paper) == Err(AllocateFees(paper.operations, paper.operationsValue, FeesCost(paper.fees)).error)
  {
  }

  /**
   * What a booked confirmation guarantees about the paper's numbers (its operations are
   * those of AllocateFees, so FeeConservation applies to them).
   */
  lemma ConfirmedBalances(name: string, paper: Paper)
    requires Confirm(name, paper).Ok?
    ensures forall i :: 0 <= i < |paper.operations| ==> LineMatches(paper.operations[i])
    ensures OperationsTotal(paper.operations) - 0.005 < paper.operationsValue <= OperationsTotal(paper.operations) + 0.005
    ensures FeesCost(paper.fees) + paper.operationsValue - 0.005 < paper.settlementAmount <= FeesCost(paper.fees) + paper.operationsValue + 0.005
  {
    assert CheckOperationsValue(paper.operationsValue, paper.operations).Pass?;
    assert CheckSettlement(paper.settlementAmount, FeesCost(paper.fees), paper.operationsValue).Pass?;
    OperationsValueTolerance(paper.operationsValue, paper.operations);
  }

  /** The confirmation object: the paper's fields, its operations rewritten once the checks pass. */
  class TradeConfirmation {
    var name: string
    var broker: string
    var date: string
    var fees: seq<Fee>
    var operations: seq<Operation>
    var operationsValue: real
    var settlementAmount: real

    /** The fields as the paper holds them, before any check. */
    constructor (name: string, paper: Paper)
      ensures this.name == name && broker == paper.broker && date == paper.date && fees == paper.fees
      ensures operations == paper.operations && operationsValue == paper.operationsValue
      ensures settlementAmount == paper.settlementAmount
    {
      this.name := name;
      broker := paper.broker;
      date := paper.date;
      fees := paper.fees;
      operations := paper.operations;
      operationsValue := paper.operationsValue;
      settlementAmount := paper.settlementAmount;
    }

    function Snapshot(): Confirmation
      reads this
    {
      Confirmation(name, broker, date, fees, operations, operationsValue, settlementAmount)
    }

    /**
     * calculate_price_with_fees: rewrites the operations one by one, stopping where Python
     * raises ZeroDivisionError (operations before that one already rewritten).
     */
    method CalculatePriceWithFees(operationsValue: real, feesCost: real) returns (o: Outcome)
      modifies this`operations
      ensures var k := FirstDivisionByZero(old(operations), operationsValue);
        && operations == AllocateUpTo(old(operations), k, operationsValue, feesCost)
        && o == if k < |old(operations)| then Fail(DivisionByZero(old(operations)[k].symbol)) else Pass
      ensures o.Pass? <==> AllocateFees(old(operations), operationsValue, feesCost) == Ok(operations)
    {
      ghost var original := operations;
      var count := 1;
      var i := 0;
      while i < |operations|
        invariant 0 <= i <= |operations| == |original|
        invariant count == i + 1
        invariant forall j :: 0 <= j < i ==> !DividesByZero(original[j], operationsValue)
        invariant operations == AllocateUpTo(original, i, operationsValue, feesCost)
      {
        var operation := operations[i];
        if operationsValue == 0.0 || operation.amount == 0 {
          FirstDivisionByZeroAt(original, operationsValue, i);
          return Fail(DivisionByZero(operation.symbol));
        }
        var percentage := operation.value / operationsValue;
        var cost := feesCost * percentage;
        var allocation := FeeAllocation(cost, operation.value, operation.price, NatToString(count));
        var next := Operation(
          operation.symbol, operation.amount, operation.price + cost / operation.amount as real,
          operation.value + cost, Some(allocation));
        assert next == WithFees(original[i], operationsValue, feesCost, i) by {
          assert operation == original[i];
          WithFeesIs(original[i], operationsValue, feesCost, i, cost);
        }
        assert operations[i := next] == AllocateUpTo(original, i + 1, operationsValue, feesCost) by {
          AllocateNext(original, i, operationsValue, feesCost);
        }
        operations := operations[i := next];
        count := count + 1;
        i := i + 1;
      }
      FirstDivisionByZeroAt(original, operationsValue, i);
      o := Pass;
    }
  }

  /** TradeConfirmation.__init__: build the object, run the checks in order, then allocate the fees. */
  method Open(name: string, paper: Paper) returns (r: Result<Confirmation>)
    ensures r == Confirm(name, paper)
  {
    var tc := new TradeConfirmation(name, paper);
    var date := ValidateDate(tc.date);
    if date.Err? {
      return Err(date.error);
    }
    var feesCost := CalculateFees(tc.fees);
    var checked := ValidateOperationsValue(tc.operationsValue, tc.operations);
    if checked.Fail? {
      return Err(checked.error);
    }
    var settled := CheckSettlement(tc.settlementAmount, feesCost, tc.operationsValue);
    if settled.Fail? {
      return Err(settled.error);
    }
    var shared := tc.CalculatePriceWithFees(tc.operationsValue, feesCost);
    if shared.Fail? {
      return Err(shared.error);
    }
    r := Ok(tc.Snapshot());
  }
}
