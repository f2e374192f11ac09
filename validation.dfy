/**
 * The checks a trade confirmation (a broker's "nota de corretagem") must pass before it is
 * booked: a well-formed date, the fee sum, the declared operations value against the line
 * items, each line item against price times amount, and the settlement amount.
 */
module Validation {
  import opened Errors
  import opened Seqs
  import opened Money
  import opened Calendar
  import opened Text

  /** One entry of the confirmation's fee mapping (label to amount charged). */
  datatype Fee = Fee(name: string, value: real)

  /** The keys the fee allocation adds to an operation. */
  datatype FeeAllocation = FeeAllocation(costOfFees: real, valueWithoutFees: real, priceWithoutFees: real, counter: string)

  /** One line item: a buy of `amount` shares of `symbol` (negative for a sale). */
  datatype Operation = Operation(symbol: string, amount: int, price: real, value: real, allocation: Option<FeeAllocation>)

  function FeeValue(f: Fee): real { f.value }

  function OperationValue(o: Operation): real { o.value }

  /** The total the confirmation charges in fees. */
  function FeesCost(fees: seq<Fee>): real {
    Total(fees, FeeValue)
  }

  /** The sum of the line items' values. */
  function OperationsTotal(ops: seq<Operation>): real {
    Total(ops, OperationValue)
  }

  /** validate_date: the argument itself when strptime accepts it as "%Y-%m-%d". */
  function ValidateDate(date: string): (r: Result<string>)
    ensures r.Ok? <==> ParseIso(date).Some?
    ensures r.Ok? ==> r.value == date
    ensures r.Err? ==> r.error == InvalidDateFormat(date)
  {
    if ParseIso(date).Some? then Ok(date) else Err(InvalidDateFormat(date))
  }

  /** Every date strftime writes is accepted unchanged. */
  lemma ValidateFormattedDate(d: Date)
    requires ValidDate(d)
    ensures ValidateDate(FormatIso(d)) == Ok(FormatIso(d))
  {
    ParseFormatIso(d);
  }

  /** strptime accepts the leap day of a leap year. */
  lemma ValidateLeapDay()
    ensures ValidateDate("2024-02-29").Ok?
  {
    var s := "2024-02-29";
    assert s[..4] == "2024" && s[5..7] == "02" && s[8..] == "29";
    assert YearToken("2024") == Some(2024) by {
      assert "2024"[..3] == "202" && "202"[..2] == "20";
      assert DigitsValue("20") == 20;
    }
    assert MonthToken("02") == Some(2) && DayToken("29") == Some(29);
  }

  /** strptime is lenient about padding: single-digit months and days are accepted. */
  lemma ValidateUnpadded()
    ensures ValidateDate("2023-1-5").Ok?
  {
    var s := "2023-1-5";
    assert s[..4] == "2023" && s[5..6] == "1" && s[7..] == "5";
    assert YearToken("2023") == Some(2023) by {
      assert "2023"[..3] == "202" && "202"[..2] == "20";
      assert DigitsValue("20") == 20;
    }
    assert MonthToken("1") == Some(1) && DayToken("5") == Some(5);
  }

  /** strptime rejects the 29th of February outside a leap year. */
  lemma ValidateRejectsMissingLeapDay()
    ensures ValidateDate("2023-02-29").Err?
  {
    var s := "2023-02-29";
    assert s[..4] == "2023" && s[5..7] == "02" && s[8..] == "29";
    assert YearToken("2023") == Some(2023) by {
      assert "2023"[..3] == "202" && "202"[..2] == "20";
      assert DigitsValue("20") == 20;
    }
    assert MonthToken("02") == Some(2) && DayToken("29") == Some(29);
  }

  /** strptime rejects a thirteenth month. */
  lemma ValidateRejectsMonth13()
    ensures ValidateDate("2023-13-01").Err?
  {
    assert "2023-13-01"[5..7] == "13";
  }

  /** strptime rejects a date in another layout. */
  lemma ValidateRejectsSlashes()
    ensures ValidateDate("01/02/2023").Err?
  {
  }

  /** calculate_fees: adds up the fee values one entry at a time. */
  method CalculateFees(fees: seq<Fee>) returns (total: real)
    ensures total == FeesCost(fees)
  {
    total := 0.0;
    for i := 0 to |fees|
      invariant total == Total(fees[..i], FeeValue)
    {
      assert fees[..i + 1][..i] == fees[..i];
      total := total + fees[i].value;
    }
    assert fees[..|fees|] == fees;
  }

  /** The fee sum does not depend on the order the mapping lists its labels in. */
  lemma FeesCostOrderIndependent(a: seq<Fee>, b: seq<Fee>)
    requires multiset(a) == multiset(b)
    ensures FeesCost(a) == FeesCost(b)
  {
    TotalPermutation(a, b, FeeValue);
  }

  /** A line item is consistent when its value is its price times amount, rounded to cents. */
  predicate LineMatches(o: Operation) {
    Round2(o.price * o.amount as real) == o.value
  }

  /** The position of the first inconsistent line item, or |ops| when there is none. */
  function FirstLineMismatch(ops: seq<Operation>): (k: nat)
    ensures k <= |ops|
    ensures forall i :: 0 <= i < k ==> LineMatches(ops[i])
    ensures k < |ops| ==> !LineMatches(ops[k])
    decreases |ops|
  {
    if ops == [] then 0
    else if !LineMatches(ops[0]) then 0
    else 1 + FirstLineMismatch(ops[1..])
  }

  /**
   * validate_operations_value as a value: the declared total (not rounded) must equal the
   * rounded sum of the line values; only then is each line checked, the first bad one reported.
   */
  function CheckOperationsValue(declared: real, ops: seq<Operation>): (o: Outcome)
    ensures o.Pass? <==> declared == Round2(OperationsTotal(ops)) && forall i :: 0 <= i < |ops| ==> LineMatches(ops[i])
    ensures declared != Round2(OperationsTotal(ops)) ==> o == Fail(OperationsValueMismatch(declared, OperationsTotal(ops)))
    ensures declared == Round2(OperationsTotal(ops)) && o.Fail? ==>
      var k := FirstLineMismatch(ops);
      k < |ops| && o == Fail(OperationValueMismatch(ops[k].symbol, ops[k].price, ops[k].amount, ops[k].value))
  {
    var total := OperationsTotal(ops);
    if declared != Round2(total) then Fail(OperationsValueMismatch(declared, total))
    else
      var k := FirstLineMismatch(ops);
      if k < |ops| then Fail(OperationValueMismatch(ops[k].symbol, ops[k].price, ops[k].amount, ops[k].value))
      else Pass
  }

  /** validate_operations_value: one loop for the total, then a scan that stops at the first bad line. */
  method ValidateOperationsValue(declared: real, ops: seq<Operation>) returns (o: Outcome)
    ensures o == CheckOperationsValue(declared, ops)
  {
    var total := 0.0;
    for i := 0 to |ops|
      invariant total == Total(ops[..i], OperationValue)
    {
      assert ops[..i + 1][..i] == ops[..i];
      total := total + ops[i].value;
    }
    assert ops[..|ops|] == ops;
    if declared != Round2(total) {
      return Fail(OperationsValueMismatch(declared, total));
    }
    for i := 0 to |ops|
      invariant forall j :: 0 <= j < i ==> LineMatches(ops[j])
    {
      if !LineMatches(ops[i]) {
        FirstMismatchAt(ops, i);
        return Fail(OperationValueMismatch(ops[i].symbol, ops[i].price, ops[i].amount, ops[i].value));
      }
    }
    FirstMismatchAt(ops, |ops|);
    o := Pass;
  }

  /** The first mismatch is the one position with only good lines before it and a bad one at it. */
  lemma FirstMismatchAt(ops: seq<Operation>, i: nat)
    requires i <= |ops|
    requires forall j :: 0 <= j < i ==> LineMatches(ops[j])
    requires i < |ops| ==> !LineMatches(ops[i])
    ensures FirstLineMismatch(ops) == i
  {
  }

  /** When both checks would fail, the total mismatch is the one reported. */
  lemma TotalCheckedFirst(declared: real, ops: seq<Operation>, i: int)
    requires 0 <= i < |ops| && !LineMatches(ops[i])
    requires declared != Round2(OperationsTotal(ops))
    ensures CheckOperationsValue(declared, ops).error.OperationsValueMismatch?
  {
  }

  /** A passing check pins the declared value to within half a cent of the line total. */
  lemma OperationsValueTolerance(declared: real, ops: seq<Operation>)
    requires CheckOperationsValue(declared, ops).Pass?
    ensures OperationsTotal(ops) - 0.005 < declared <= OperationsTotal(ops) + 0.005
  {
  }

  /** validate_settlement_amount: the settlement must equal fees plus operations, rounded to cents. */
  function CheckSettlement(settlement: real, feesCost: real, operationsValue: real): (o: Outcome)
    ensures o.Pass? <==> settlement == Round2(feesCost + operationsValue)
    ensures o.Fail? ==> o.error == SettlementMismatch(settlement, feesCost, operationsValue)
  {
    if settlement != Round2(feesCost + operationsValue) then Fail(SettlementMismatch(settlement, feesCost, operationsValue))
    else Pass
  }

  /** A settlement already in cents passes exactly when it is the rounded sum. */
  lemma SettlementInCents(k: int, feesCost: real, operationsValue: real)
    requires k as real / 100.0 - 0.005 <= feesCost + operationsValue < k as real / 100.0 + 0.005
    ensures CheckSettlement(k as real / 100.0, feesCost, operationsValue).Pass?
  {
    var x := feesCost + operationsValue;
    assert k as real <= x * 100.0 + 0.5 < k as real + 1.0;
    assert (x * 100.0 + 0.5).Floor == k;
  }
}
