/** Optional values, results and outcomes shared by every module of the model. */
module Errors {

  datatype Option<T> = None | Some(value: T)

  /** The exceptions the engine raises, each carrying the values it reports. */
  datatype Error =
    | InvalidDateFormat(date: string)                  // strptime rejected a date
    | OperationsValueMismatch(declared: real, total: real)
    | OperationValueMismatch(symbol: string, price: real, amount: int, value: real)
    | SettlementMismatch(settlement: real, feesCost: real, operationsValue: real)
    | DivisionByZero(symbol: string)                   // ZeroDivisionError in the fee allocation
    | EmptyTable                                       // a table with no rows reached the ledger store
    | NoPortfolio                                      // consolidation with no portfolio table at all
    | MissingDividendFeed(symbol: string)              // no dividends-<symbol> table for a story
    | EmptyDividendFeed(symbol: string)                // a dividends-<symbol> table written from no earnings
    | UnknownEarningType(earningType: string)
    | DateOutOfRange(date: string)                     // date arithmetic left years 1..9999
    | InvalidNumber(text: string)                      // float() rejected a text
    | UnknownCompany(symbol: string)
    | UnknownBroker(broker: string)
    | MissingKey(key: string)                          // KeyError reading an operation's fee allocation

  datatype Result<T> = Ok(value: T) | Err(error: Error)

  datatype Outcome = Pass | Fail(error: Error)

  /** The values of a run of results, or the error of the first one that failed. */
  function Collect<T>(rs: seq<Result<T>>): (r: Result<seq<T>>)
    ensures r.Ok? <==> forall i :: 0 <= i < |rs| ==> rs[i].Ok?
    ensures r.Ok? ==> |r.value| == |rs| && forall i :: 0 <= i < |rs| ==> r.value[i] == rs[i].value
    decreases |rs|
  {
    if rs == [] then Ok([])
    else
      match Collect(rs[..|rs| - 1])
      case Err(e) => Err(e)
      case Ok(vs) =>
        match rs[|rs| - 1]
        case Err(e) => Err(e)
        case Ok(v) => Ok(vs + [v])
  }

  /** The position of the first failed result, or |rs|. */
  function FirstFailure<T>(rs: seq<Result<T>>): (k: nat)
    ensures k <= |rs|
    ensures forall j :: 0 <= j < k ==> rs[j].Ok?
    ensures k < |rs| ==> rs[k].Err?
    decreases |rs|
  {
    if rs == [] || rs[0].Err? then 0 else 1 + FirstFailure(rs[1..])
  }

  lemma FirstFailureAt<T>(rs: seq<Result<T>>, k: nat)
    requires k <= |rs|
    requires forall j :: 0 <= j < k ==> rs[j].Ok?
    requires k < |rs| ==> rs[k].Err?
    ensures FirstFailure(rs) == k
  {
  }

  /** The error collected is the one of the first result that failed. */
  lemma {:induction false} CollectReportsFirstFailure<T>(rs: seq<Result<T>>)
    requires Collect(rs).Err?
    ensures FirstFailure(rs) < |rs|
    ensures Collect(rs).error == rs[FirstFailure(rs)].error
    decreases |rs|
  {
    var front := rs[..|rs| - 1];
    assert forall j :: 0 <= j < |front| ==> front[j] == rs[j];
    if Collect(front).Err? {
      CollectReportsFirstFailure(front);
      FirstFailureAt(rs, FirstFailure(front));
    } else {
      FirstFailureAt(rs, |rs| - 1);
    }
  }

  /** Collecting no results gives no values. */
  lemma CollectNone<T>(rs: seq<Result<T>>)
    ensures Collect(rs[..0]) == Ok([])
  {
    assert rs[..0] == [];
  }

  /** Collecting every result is collecting the whole sequence. */
  lemma CollectAll<T>(rs: seq<Result<T>>)
    ensures Collect(rs[..|rs|]) == Collect(rs)
  {
    assert rs[..|rs|] == rs;
  }

  /** Collecting one more result: a failure ends the run with its error, a success extends the values. */
  lemma CollectNext<T>(rs: seq<Result<T>>, i: nat, vs: seq<T>)
    requires i < |rs|
    requires Collect(rs[..i]) == Ok(vs)
    ensures rs[i].Err? ==> Collect(rs) == Err(rs[i].error)
    ensures rs[i].Ok? ==> Collect(rs[..i + 1]) == Ok(vs + [rs[i].value])
  {
    assert rs[..i + 1][..i] == rs[..i];
    if rs[i].Err? {
      CollectStopsAtFailure(rs, i + 1);
    }
  }

  /** Once a prefix of the results holds a failure, the whole run fails with the same error. */
  lemma {:induction false} CollectStopsAtFailure<T>(rs: seq<Result<T>>, i: nat)
    requires i <= |rs|
    requires Collect(rs[..i]).Err?
    ensures Collect(rs) == Collect(rs[..i])
    decreases |rs| - i
  {
    if i < |rs| {
      var front := rs[..|rs| - 1];
      assert front[..i] == rs[..i];
      CollectStopsAtFailure(front, i);
    } else {
      assert rs[..i] == rs;
    }
  }
}
