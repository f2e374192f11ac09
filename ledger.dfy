/**
 * The CSV ledger as an abstract store of tables: save_to_file replaces the rows a trade
 * confirmation wrote before by its new batch, and keeps each table sorted by date and
 * confirmation name; get_dataframe reads a missing table as an empty one.
 */
module Ledger {
  import opened Errors
  import opened Seqs
  import opened Text

  /** A row of one of the three kinds of ledger table; every kind has a date and a tc_name. */
  datatype Row =
    | FeeRow(date: string, broker: string, fee: string, value: real, tcName: string)
    | SpentRow(date: string, operationsValue: real, settlementAmount: real, tcName: string)
    | OperationRow(
        date: string, symbol: string, amount: int, price: real, value: real, costOfFees: real,
        valueWithoutFees: real, priceWithoutFees: real, tcName: string)

  /** fees.csv, spent_values.csv and portfolios/portfolio-<symbol>.csv. */
  datatype TableId = FeesTable | SpentValuesTable | PortfolioTable(symbol: string)

  /** The row has the columns of the table it is stored in. */
  predicate Fits(id: TableId, r: Row) {
    match id
    case FeesTable => r.FeeRow?
    case SpentValuesTable => r.SpentRow?
    case PortfolioTable(symbol) => r.OperationRow? && r.symbol == symbol
  }

  function RowDate(r: Row): string {
    r.date
  }

  /** The amount column of a portfolio row; the other tables have none. */
  function RowAmount(r: Row): int {
    if r.OperationRow? then r.amount else 0
  }

  /** The value column of a portfolio row: the operation's value with its share of the fees. */
  function RowValue(r: Row): real {
    if r.OperationRow? then r.value else 0.0
  }

  /** The columns save_to_file sorts on, in order. */
  datatype RowKey = RowKey(date: string, tcName: string)

  function KeyOf(r: Row): RowKey {
    RowKey(r.date, r.tcName)
  }

  /** Lexicographic order on (date, tc_name), each compared as a Python string. */
  predicate KeyLe(a: RowKey, b: RowKey) {
    StrLt(a.date, b.date) || (a.date == b.date && StrLe(a.tcName, b.tcName))
  }

  predicate RowLe(a: Row, b: Row) {
    KeyLe(KeyOf(a), KeyOf(b))
  }

  lemma KeyLeAntisymmetric()
    ensures forall x, y :: KeyLe(x, y) && KeyLe(y, x) ==> x == y
  {
    forall x: RowKey, y: RowKey | KeyLe(x, y) && KeyLe(y, x) ensures x == y {
      if StrLt(x.date, y.date) {
        StrLtAsymmetric(x.date, y.date);
      } else if StrLt(x.tcName, y.tcName) {
        StrLtAsymmetric(x.tcName, y.tcName);
      }
    }
  }

  lemma RowLeTotalPreorder()
    ensures TotalPreorder(RowLe)
  {
    forall a: Row, b: Row ensures RowLe(a, b) || RowLe(b, a) {
      StrLtTrichotomy(a.date, b.date);
      StrLtTrichotomy(a.tcName, b.tcName);
    }
    forall a: Row, b: Row, c: Row | RowLe(a, b) && RowLe(b, c) ensures RowLe(a, c) {
      if StrLt(a.date, b.date) && StrLt(b.date, c.date) {
        StrLtTransitive(a.date, b.date, c.date);
      } else if a.date == b.date == c.date && StrLt(a.tcName, b.tcName) && StrLt(b.tcName, c.tcName) {
        StrLtTransitive(a.tcName, b.tcName, c.tcName);
      }
    }
  }

  function HasName(name: string): Row -> bool {
    (r: Row) => r.tcName == name
  }

  /** The table without the rows of confirmation `name`; filtered only when there are some. */
  function Removed(table: seq<Row>, name: string): seq<Row> {
    if exists i :: 0 <= i < |table| && table[i].tcName == name then Filter(table, Not(HasName(name)))
    else table
  }

  lemma RemovedIsFilter(table: seq<Row>, name: string)
    ensures Removed(table, name) == Filter(table, Not(HasName(name)))
  {
    if !exists i :: 0 <= i < |table| && table[i].tcName == name {
      FilterAll(table, Not(HasName(name)));
    }
  }

  /** save_to_file on values: drop the rows of the batch's confirmation, append the batch, sort. */
  function Upsert(table: seq<Row>, batch: seq<Row>): seq<Row>
    requires |batch| > 0
  {
    Sort(Removed(table, batch[0].tcName) + batch, RowLe)
  }

  /** The result holds the old rows of other confirmations and the batch, nothing more. */
  lemma UpsertContents(table: seq<Row>, batch: seq<Row>)
    requires |batch| > 0
    ensures multiset(Upsert(table, batch)) == multiset(Filter(table, Not(HasName(batch[0].tcName)))) + multiset(batch)
  {
    RemovedIsFilter(table, batch[0].tcName);
  }

  /** No old row of the batch's confirmation survives; every other old row and every batch row is kept. */
  lemma UpsertMembers(table: seq<Row>, batch: seq<Row>, r: Row)
    requires |batch| > 0
    ensures r in Upsert(table, batch) <==> r in batch || (r in table && r.tcName != batch[0].tcName)
  {
    UpsertContents(table, batch);
    FilterMultiset(table, Not(HasName(batch[0].tcName)), r);
    assert r in Upsert(table, batch) <==> r in multiset(Upsert(table, batch));
  }

  lemma UpsertCount(table: seq<Row>, batch: seq<Row>)
    requires |batch| > 0
    ensures |Upsert(table, batch)| == |table| - |Filter(table, HasName(batch[0].tcName))| + |batch|
  {
    RemovedIsFilter(table, batch[0].tcName);
    FilterComplementLength(table, HasName(batch[0].tcName));
  }

  lemma UpsertSorted(table: seq<Row>, batch: seq<Row>)
    requires |batch| > 0
    ensures SortedBy(Upsert(table, batch), RowLe)
  {
    RowLeTotalPreorder();
    SortSorted(Removed(table, batch[0].tcName) + batch, RowLe);
  }

  /** A table sorted by rows has its keys sorted. */
  lemma SortedKeys(s: seq<Row>)
    requires SortedBy(s, RowLe)
    ensures SortedBy(MapSeq(KeyOf, s), KeyLe)
  {
  }

  /**
   * Saving a batch, all of whose rows belong to one confirmation, a second time changes nothing:
   * the same rows, holding the same keys in the same order.
   */
  lemma UpsertIdempotent(table: seq<Row>, batch: seq<Row>)
    requires |batch| > 0
    requires forall i :: 0 <= i < |batch| ==> batch[i].tcName == batch[0].tcName
    ensures multiset(Upsert(Upsert(table, batch), batch)) == multiset(Upsert(table, batch))
    ensures MapSeq(KeyOf, Upsert(Upsert(table, batch), batch)) == MapSeq(KeyOf, Upsert(table, batch))
  {
    var name := batch[0].tcName;
    var once := Upsert(table, batch);
    var twice := Upsert(once, batch);
    UpsertContents(table, batch);
    UpsertContents(once, batch);
    assert multiset(Filter(once, Not(HasName(name)))) == multiset(Filter(table, Not(HasName(name)))) by {
      forall x: Row ensures multiset(Filter(once, Not(HasName(name))))[x] == multiset(Filter(table, Not(HasName(name))))[x] {
        FilterMultiset(once, Not(HasName(name)), x);
        FilterMultiset(table, Not(HasName(name)), x);
        if x.tcName != name {
          assert x !in batch;
          assert multiset(batch)[x] == 0;
        }
      }
    }
    UpsertSorted(table, batch);
    UpsertSorted(once, batch);
    SameKeys(twice, once);
  }

  /** Two sorted tables holding the same rows hold the same keys in the same order. */
  lemma SameKeys(a: seq<Row>, b: seq<Row>)
    requires SortedBy(a, RowLe) && SortedBy(b, RowLe)
    requires multiset(a) == multiset(b)
    ensures MapSeq(KeyOf, a) == MapSeq(KeyOf, b)
  {
    MapPermutation(KeyOf, a, b);
    SortedKeys(a);
    SortedKeys(b);
    KeyLeAntisymmetric();
    assert AntisymmetricOn(MapSeq(KeyOf, a), KeyLe);
    SortedUnique(MapSeq(KeyOf, a), MapSeq(KeyOf, b), KeyLe);
  }

  /** Saving into a table that does not exist yet stores the batch, sorted. */
  lemma UpsertIntoEmpty(batch: seq<Row>)
    requires |batch| > 0
    ensures Upsert([], batch) == Sort(batch, RowLe)
  {
    var empty: seq<Row> := [];
    assert Removed(empty, batch[0].tcName) == empty;
    assert empty + batch == batch;
  }

  /** Every stored row has the columns of its table. */
  predicate Conforms(tables: map<TableId, seq<Row>>) {
    forall id, r :: id in tables && r in tables[id] ==> Fits(id, r)
  }

  /** The directory of CSV files, as a map from table to its rows. */
  class TableStore {
    var tables: map<TableId, seq<Row>>

    predicate Valid()
      reads this
    {
      Conforms(tables)
    }

    constructor ()
      ensures tables == map[] && Valid()
    {
      tables := map[];
    }

    /** get_dataframe: the stored rows, or an empty table when the file does not exist. */
    function Table(id: TableId): (rows: seq<Row>)
      reads this
      ensures id !in tables ==> rows == []
      ensures id in tables ==> rows == tables[id]
    {
      if id in tables then tables[id] else []
    }

    /**
     * save_to_file: the stored table becomes Upsert of it and the batch; no other table
     * changes. An empty batch has no tc_name to read and fails, changing nothing.
     */
    method SaveToFile(id: TableId, batch: seq<Row>) returns (o: Outcome)
      modifies this
      ensures batch == [] ==> o == Fail(EmptyTable) && tables == old(tables)
      ensures batch != [] ==> o == Pass && tables == old(tables)[id := Upsert(old(Table(id)), batch)]
      ensures old(Valid()) && (forall r :: r in batch ==> Fits(id, r)) ==> Valid()
    {
      if batch == [] {
        return Fail(EmptyTable);
      }
      var previous := Table(id);
      ghost var before := tables;
      tables := tables[id := Upsert(previous, batch)];
      o := Pass;
      forall r | r in tables[id] ensures old(Valid()) && (forall r :: r in batch ==> Fits(id, r)) ==> Fits(id, r) {
        UpsertMembers(previous, batch, r);
      }
    }
  }
}
