/** The beneficiary-by-year pivot: sums of quantities grouped by
    (beneficiary, year), filled with 0, with a Grand Total per row. */
module Pivot {
  import opened Records

  /** A pivot cell's coordinates: (beneficiary, year). */
  type Key = (string, int)

  /** The group a record falls in. Grouping drops rows whose beneficiary or
      year is missing, so those records belong to no group. */
  function KeyOf(r: Record): Option<Key>
  {
    if r.beneficiary.Some? && r.year.Some? then Some((r.beneficiary.value, r.year.value)) else None
  }

  /** What `r` adds to the total over the groups in `keys`. */
  function ShareIn(r: Record, keys: set<Key>): int
  {
    if KeyOf(r).Some? && KeyOf(r).value in keys then Contribution(r) else 0
  }

  /** Sum of the quantities of the records whose group lies in `keys`. */
  function SumIn(rs: seq<Record>, keys: set<Key>): int
  {
    if rs == [] then 0 else SumIn(rs[..|rs| - 1], keys) + ShareIn(rs[|rs| - 1], keys)
  }

  /** Sum of the quantities of all records that belong to some group. */
  function GroupedQuantity(rs: seq<Record>): int
  {
    if rs == [] then 0
    else GroupedQuantity(rs[..|rs| - 1]) + (if KeyOf(rs[|rs| - 1]).Some? then Contribution(rs[|rs| - 1]) else 0)
  }

  /** Sum of the quantities of the records of beneficiary `b` that have a year. */
  function BeneficiaryQuantity(rs: seq<Record>, b: string): int
  {
    if rs == [] then 0
    else
      var r := rs[|rs| - 1];
      BeneficiaryQuantity(rs[..|rs| - 1], b) + (if KeyOf(r).Some? && KeyOf(r).value.0 == b then Contribution(r) else 0)
  }

  /** The groups that occur. */
  function PairKeys(rs: seq<Record>): (keys: set<Key>)
    ensures forall k :: k in keys <==> exists r :: r in rs && KeyOf(r) == Some(k)
  {
    if rs == [] then {}
    else
      var r := rs[|rs| - 1];
      assert forall x :: x in rs <==> x in rs[..|rs| - 1] || x == r;
      PairKeys(rs[..|rs| - 1]) + if KeyOf(r).Some? then {KeyOf(r).value} else {}
  }

  /** The beneficiaries that become rows. */
  function BeneficiarySet(rs: seq<Record>): set<string>
  {
    set k | k in PairKeys(rs) :: k.0
  }

  /** The years that become columns. */
  function YearSet(rs: seq<Record>): set<int>
  {
    set k | k in PairKeys(rs) :: k.1
  }

  lemma {:induction false} SumInDisjointUnion(rs: seq<Record>, a: set<Key>, b: set<Key>)
    requires a !! b
    ensures SumIn(rs, a + b) == SumIn(rs, a) + SumIn(rs, b)
  {
    if rs != [] {
      SumInDisjointUnion(rs[..|rs| - 1], a, b);
    }
  }

  /** Groups that do not occur sum to 0. */
  lemma {:induction false} SumInAbsentKeys(rs: seq<Record>, keys: set<Key>)
    requires keys !! PairKeys(rs)
    ensures SumIn(rs, keys) == 0
  {
    if rs != [] {
      SumInAbsentKeys(rs[..|rs| - 1], keys);
    }
  }

  /** Summing over a superset of the groups that occur adds up every grouped record. */
  lemma {:induction false} SumInCoveringKeys(rs: seq<Record>, keys: set<Key>)
    requires PairKeys(rs) <= keys
    ensures SumIn(rs, keys) == GroupedQuantity(rs)
  {
    if rs != [] {
      SumInCoveringKeys(rs[..|rs| - 1], keys);
    }
  }

  /** The cells of one row, for every year of `ys`. */
  function RowKeys(b: string, ys: seq<int>): (keys: set<Key>)
    ensures forall k :: k in keys <==> k.0 == b && k.1 in ys
  {
    if ys == [] then {} else {(b, ys[0])} + RowKeys(b, ys[1..])
  }

  /** A row's groups cover every year of the beneficiary's records. */
  lemma {:induction false} SumInRowKeys(rs: seq<Record>, b: string, ys: seq<int>)
    requires forall k :: k in PairKeys(rs) ==> k.1 in ys
    ensures SumIn(rs, RowKeys(b, ys)) == BeneficiaryQuantity(rs, b)
  {
    if rs != [] {
      var init := rs[..|rs| - 1];
      var r := rs[|rs| - 1];
      assert PairKeys(init) <= PairKeys(rs);
      SumInRowKeys(init, b, ys);
      if KeyOf(r).Some? {
        var k := KeyOf(r).value;
        assert k in PairKeys(rs);

      }
    }
  }

  /** The sparse group sums, as `pivot_table` computes them before filling. */
  function CellTable(rs: seq<Record>): map<Key, int>
  {
    map k | k in PairKeys(rs) :: SumIn(rs, {k})
  }

  /** `fill_value=0`: a group that does not occur reads as 0. */
  function Cell(cells: map<Key, int>, b: string, y: int): (c: int)
    ensures (b, y) in cells ==> c == cells[(b, y)]
    ensures c != 0 ==> (b, y) in cells
  {
    if (b, y) in cells then cells[(b, y)] else 0
  }

  /** Every dense cell is the sum of quantities of its (beneficiary, year) group. */
  lemma CellIsGroupSum(rs: seq<Record>, b: string, y: int)
    ensures Cell(CellTable(rs), b, y) == SumIn(rs, {(b, y)})
  {
    if (b, y) !in PairKeys(rs) {
      SumInAbsentKeys(rs, {(b, y)});
    }
  }

  /** Running group sums of `done`, one entry per group that occurs. */
  predicate SumsSoFar(done: seq<Record>, cells: map<Key, int>)
  {
    && cells.Keys == PairKeys(done)
    && forall k :: k in cells ==> cells[k] == SumIn(done, {k})
  }

  /** Adding one record's quantity to its group's running sum keeps the sums right. */
  lemma AddToGroup(done: seq<Record>, r: Record, cells: map<Key, int>)
    requires SumsSoFar(done, cells)
    ensures KeyOf(r).None? ==> SumsSoFar(done + [r], cells)
    ensures KeyOf(r).Some? ==>
      var k := KeyOf(r).value;
      SumsSoFar(done + [r], cells[k := (if k in cells then cells[k] else 0) + Contribution(r)])
  {
    var next := done + [r];
    assert next[..|next| - 1] == done;
    if KeyOf(r).Some? && KeyOf(r).value !in cells {
      SumInAbsentKeys(done, {KeyOf(r).value});
    }
  }

  /** Sums that are right for every group that occurs are the sparse pivot. */
  lemma SumsSoFarIsCellTable(rs: seq<Record>, cells: map<Key, int>)
    requires SumsSoFar(rs, cells)
    ensures cells == CellTable(rs)
  {
  }

  /** Builds the group sums in one pass over the records, adding each record's
      quantity to its group's running sum. */
  method AccumulateCells(rs: seq<Record>) returns (cells: map<Key, int>)
    ensures cells.Keys == PairKeys(rs)
    ensures forall k :: k in cells ==> cells[k] == SumIn(rs, {k})
    ensures cells == CellTable(rs)
  {
    cells := map[];
    var i := 0;
    while i < |rs|
      invariant 0 <= i <= |rs|
      invariant SumsSoFar(rs[..i], cells)
    {
      var r := rs[i];
      AddToGroup(rs[..i], r, cells);
      assert rs[..i + 1] == rs[..i] + [r];
      if KeyOf(r).Some? {
        var k := KeyOf(r).value;
        var running := if k in cells then cells[k] else 0;
        cells := cells[k := running + Contribution(r)];
      }
      i := i + 1;
    }
    assert rs[..i] == rs;
    SumsSoFarIsCellTable(rs, cells);
  }

  predicate Increasing(ys: seq<int>)
  {
    forall i, j :: 0 <= i < j < |ys| ==> ys[i] < ys[j]
  }

  predicate Distinct<T(==)>(s: seq<T>)
  {
    forall i, j :: 0 <= i < j < |s| ==> s[i] != s[j]
  }

  lemma PrependIncreasing(y: int, ys: seq<int>)
    requires Increasing(ys)
    requires forall x :: x in ys ==> y < x
    ensures Increasing([y] + ys)
  {
    var r := [y] + ys;
    forall i, j | 0 <= i < j < |r| ensures r[i] < r[j] {
      assert r[j] == ys[j - 1] && ys[j - 1] in ys;
      if i > 0 {
        assert r[i] == ys[i - 1];
      }
    }
  }

  /** Adds `y` to an increasing list unless it is there already. */
  function InsertYear(ys: seq<int>, y: int): (r: seq<int>)
    requires Increasing(ys)
    ensures Increasing(r)
    ensures forall x :: x in r <==> x in ys || x == y
  {
    if ys == [] || y < ys[0] then [y] + ys
    else if y == ys[0] then ys
    else
      var rest := InsertYear(ys[1..], y);
      forall x | x in rest ensures ys[0] < x {
        if x != y {
          var k :| 1 <= k < |ys| && ys[k] == x;
        }
      }
      PrependIncreasing(ys[0], rest);
      [ys[0]] + rest
  }

  /** The pivot's year columns: every year that occurs in some group, ascending. */
  function ColumnYears(rs: seq<Record>): (ys: seq<int>)
    ensures Increasing(ys)
    ensures forall y :: y in ys <==> y in YearSet(rs)
  {
    if rs == [] then []
    else
      var r := rs[|rs| - 1];
      var ys := ColumnYears(rs[..|rs| - 1]);
      if KeyOf(r).Some? then InsertYear(ys, KeyOf(r).value.1) else ys
  }

  /** The pivot's row labels: every beneficiary that occurs in some group, once each. */
  function RowNames(rs: seq<Record>): (bs: seq<string>)
    ensures Distinct(bs)
    ensures forall b :: b in bs <==> b in BeneficiarySet(rs)
  {
    if rs == [] then []
    else
      var r := rs[|rs| - 1];
      var bs := RowNames(rs[..|rs| - 1]);
      if KeyOf(r).Some? && KeyOf(r).value.0 !in bs then bs + [KeyOf(r).value.0] else bs
  }

  /** A list without repeats has as many elements as the set it enumerates. */
  lemma {:induction false} DistinctCount<T>(s: seq<T>, elems: set<T>)
    requires Distinct(s)
    requires forall x :: x in s <==> x in elems
    ensures |elems| == |s|
  {
    if s != [] {
      forall x | x in s[1..] ensures x in elems - {s[0]} {
        var j :| 1 <= j < |s| && s[j] == x;
      }
      DistinctCount(s[1..], elems - {s[0]});
    }
  }

  /** One row of the pivot: the beneficiary, its cell in each year column, and
      its Grand Total. */
  datatype Row = Row(beneficiary: string, cells: seq<int>, grandTotal: int)

  function SumSeq(xs: seq<int>): int
  {
    if xs == [] then 0 else xs[0] + SumSeq(xs[1..])
  }

  /** The dense cells of beneficiary `b`, one per year of `ys`. */
  function RowCells(cells: map<Key, int>, b: string, ys: seq<int>): (cs: seq<int>)
    ensures |cs| == |ys|
    ensures forall j :: 0 <= j < |ys| ==> cs[j] == Cell(cells, b, ys[j])
  {
    if ys == [] then [] else [Cell(cells, b, ys[0])] + RowCells(cells, b, ys[1..])
  }

  /** A row with its Grand Total, the sum across the row's year cells. */
  function MakeRow(cells: map<Key, int>, b: string, ys: seq<int>): (row: Row)
    ensures row.beneficiary == b && |row.cells| == |ys|
    ensures forall j :: 0 <= j < |ys| ==> row.cells[j] == Cell(cells, b, ys[j])
    ensures row.grandTotal == SumSeq(row.cells)
  {
    var cs := RowCells(cells, b, ys);
    Row(b, cs, SumSeq(cs))
  }

  function MakeRows(cells: map<Key, int>, bs: seq<string>, ys: seq<int>): (rows: seq<Row>)
    ensures |rows| == |bs|
    ensures forall i :: 0 <= i < |bs| ==> rows[i] == MakeRow(cells, bs[i], ys)
  {
    if bs == [] then [] else [MakeRow(cells, bs[0], ys)] + MakeRows(cells, bs[1..], ys)
  }

  /** Sum of the Grand Total column. */
  function SumTotals(rows: seq<Row>): int
  {
    if rows == [] then 0 else rows[0].grandTotal + SumTotals(rows[1..])
  }

  /** The pivot of a record set, before it is sorted. */
  function UnsortedRows(rs: seq<Record>): seq<Row>
  {
    MakeRows(CellTable(rs), RowNames(rs), ColumnYears(rs))
  }

  /** The sum across a row is the sum over the row's groups. */
  lemma {:induction false} RowCellsSum(rs: seq<Record>, b: string, ys: seq<int>)
    requires Distinct(ys)
    ensures SumSeq(RowCells(CellTable(rs), b, ys)) == SumIn(rs, RowKeys(b, ys))
  {
    if ys != [] {
      var cs := RowCells(CellTable(rs), b, ys);
      assert cs[1..] == RowCells(CellTable(rs), b, ys[1..]);
      CellIsGroupSum(rs, b, ys[0]);
      RowCellsSum(rs, b, ys[1..]);
      assert ys[0] !in ys[1..];
      SumInDisjointUnion(rs, {(b, ys[0])}, RowKeys(b, ys[1..]));
    } else {
      SumInAbsentKeys(rs, {});
    }
  }

  /** A row's Grand Total is the total quantity of that beneficiary's records. */
  lemma GrandTotalIsBeneficiaryQuantity(rs: seq<Record>, b: string)
    ensures MakeRow(CellTable(rs), b, ColumnYears(rs)).grandTotal == BeneficiaryQuantity(rs, b)
  {
    var ys := ColumnYears(rs);
    RowCellsSum(rs, b, ys);
    forall k | k in PairKeys(rs) ensures k.1 in ys {
      assert k.1 in YearSet(rs);
    }
    SumInRowKeys(rs, b, ys);
  }

  /** Every (beneficiary, year) pair of the dense matrix. */
  function GridKeys(bs: seq<string>, ys: seq<int>): (keys: set<Key>)
    ensures forall k :: k in keys <==> k.0 in bs && k.1 in ys
  {
    if bs == [] then {} else RowKeys(bs[0], ys) + GridKeys(bs[1..], ys)
  }

  lemma {:induction false} RowsSum(rs: seq<Record>, bs: seq<string>, ys: seq<int>)
    requires Distinct(bs) && Distinct(ys)
    ensures SumTotals(MakeRows(CellTable(rs), bs, ys)) == SumIn(rs, GridKeys(bs, ys))
  {
    if bs != [] {
      var rows := MakeRows(CellTable(rs), bs, ys);
      assert rows[1..] == MakeRows(CellTable(rs), bs[1..], ys);
      RowCellsSum(rs, bs[0], ys);
      RowsSum(rs, bs[1..], ys);
      assert bs[0] !in bs[1..];
      SumInDisjointUnion(rs, RowKeys(bs[0], ys), GridKeys(bs[1..], ys));
    } else {
      SumInAbsentKeys(rs, {});
    }
  }

  /** The Grand Totals add up to the quantity of every record that has a
      beneficiary and a year: nothing is lost or counted twice. */
  lemma PivotConservesQuantity(rs: seq<Record>)
    ensures SumTotals(UnsortedRows(rs)) == GroupedQuantity(rs)
  {
    var bs, ys := RowNames(rs), ColumnYears(rs);
    RowsSum(rs, bs, ys);
    forall k | k in PairKeys(rs) ensures k in GridKeys(bs, ys) {
      assert k.0 in BeneficiarySet(rs) && k.1 in YearSet(rs);
    }
    SumInCoveringKeys(rs, GridKeys(bs, ys));
  }

  /** What every row of the pivot of `rs` is: a beneficiary that occurs, whose
      cells are its group sums over the year columns `ys` and whose Grand Total
      is its total quantity. */
  predicate IsPivotRow(rs: seq<Record>, ys: seq<int>, row: Row)
  {
    && row.beneficiary in BeneficiarySet(rs)
    && |row.cells| == |ys|
    && (forall j :: 0 <= j < |ys| ==> row.cells[j] == SumIn(rs, {(row.beneficiary, ys[j])}))
    && row.grandTotal == BeneficiaryQuantity(rs, row.beneficiary)
  }

  /** The unsorted pivot has one row per beneficiary that occurs, each as described by IsPivotRow. */
  lemma UnsortedRowsShape(rs: seq<Record>)
    ensures |UnsortedRows(rs)| == |BeneficiarySet(rs)|
    ensures forall row :: row in UnsortedRows(rs) ==> IsPivotRow(rs, ColumnYears(rs), row)
    ensures forall b :: b in BeneficiarySet(rs) <==> exists row :: row in UnsortedRows(rs) && row.beneficiary == b
  {
    var bs, ys := RowNames(rs), ColumnYears(rs);
    var rows := UnsortedRows(rs);
    DistinctCount(bs, BeneficiarySet(rs));
    forall row | row in rows ensures IsPivotRow(rs, ys, row) {
      var i :| 0 <= i < |rows| && rows[i] == row;
      GrandTotalIsBeneficiaryQuantity(rs, bs[i]);
      forall j | 0 <= j < |ys| ensures row.cells[j] == SumIn(rs, {(row.beneficiary, ys[j])}) {
        CellIsGroupSum(rs, bs[i], ys[j]);
      }
    }
    forall b | b in BeneficiarySet(rs) ensures exists row :: row in rows && row.beneficiary == b {
      var i :| 0 <= i < |bs| && bs[i] == b;
      assert rows[i] in rows;
    }
  }
}
