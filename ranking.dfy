/** Ordering the pivot by Grand Total and taking the leading rows for the chart. */
module Ranking {
  import opened Pivot

  predicate ByTotalDescending(rows: seq<Row>)
  {
    forall i, j :: 0 <= i < j < |rows| ==> rows[i].grandTotal >= rows[j].grandTotal
  }

  /** A row whose total bounds every total of an ordered list may go in front of it. */
  lemma PrependKeepsOrder(row: Row, rows: seq<Row>)
    requires ByTotalDescending(rows)
    requires forall x :: x in rows ==> x.grandTotal <= row.grandTotal
    ensures ByTotalDescending([row] + rows)
  {
    var r := [row] + rows;
    forall i, j | 0 <= i < j < |r| ensures r[i].grandTotal >= r[j].grandTotal {
      if i == 0 {
        assert r[j] in rows;
      } else {
        assert r[i] == rows[i - 1] && r[j] == rows[j - 1];
      }
    }
  }

  /** In an ordered list, the first row's total bounds every total. */
  lemma FirstBoundsAll(rows: seq<Row>)
    requires ByTotalDescending(rows) && rows != []
    ensures forall x :: x in rows ==> x.grandTotal <= rows[0].grandTotal
  {
    forall x | x in rows ensures x.grandTotal <= rows[0].grandTotal {
      var k :| 0 <= k < |rows| && rows[k] == x;
    }
  }

  /** Puts `row` into a list already ordered by Grand Total, descending. */
  function InsertByTotal(row: Row, rows: seq<Row>): (r: seq<Row>)
    requires ByTotalDescending(rows)
    ensures ByTotalDescending(r)
    ensures forall x :: x in r ==> x in rows || x == row
    ensures multiset(r) == multiset(rows) + multiset{row}
    ensures SumTotals(r) == row.grandTotal + SumTotals(rows)
  {
    if rows == [] then [row]
    else if row.grandTotal >= rows[0].grandTotal then
      FirstBoundsAll(rows);
      PrependKeepsOrder(row, rows);
      [row] + rows
    else
      var rest := InsertByTotal(row, rows[1..]);
      assert rows == [rows[0]] + rows[1..];
      FirstBoundsAll(rows);
      PrependKeepsOrder(rows[0], rest);
      assert ([rows[0]] + rest)[1..] == rest;
      [rows[0]] + rest
  }

  /** `sort_values('Grand Total', ascending=False)`: the same rows, ordered by
      Grand Total from largest to smallest. */
  function SortByTotal(rows: seq<Row>): (r: seq<Row>)
    ensures ByTotalDescending(r)
    ensures multiset(r) == multiset(rows)
    ensures |r| == |rows|
    ensures SumTotals(r) == SumTotals(rows)
  {
    if rows == [] then []
    else
      assert rows == [rows[0]] + rows[1..];
      InsertByTotal(rows[0], SortByTotal(rows[1..]))
  }

  /** How many rows the trend chart shows. */
  const TopCount: nat := 5

  /** `head(5)`: the first five rows, or all of them when there are fewer. Of
      rows ordered by Grand Total, no row left out has a larger total than a
      row taken. */
  function TopRows(rows: seq<Row>): (top: seq<Row>)
    ensures |top| == if |rows| < TopCount then |rows| else TopCount
    ensures forall i :: 0 <= i < |top| ==> top[i] == rows[i]
    ensures ByTotalDescending(rows) ==>
      forall i, j :: 0 <= i < |top| <= j < |rows| ==> top[i].grandTotal >= rows[j].grandTotal
  {
    if |rows| <= TopCount then rows else rows[..TopCount]
  }
}
