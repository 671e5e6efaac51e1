/** The worked example of the dashboard: three records, two beneficiaries. */
module Scenarios {
  import opened Records
  import opened Filtering
  import opened Pivot
  import opened Ranking

  function Example(): seq<Record>
  {
    [ Record(Some("A"), Some(2021), Some(10), Some("Forestry"), None, None),
      Record(Some("A"), Some(2022), Some(5), Some("Forestry"), None, None),
      Record(Some("B"), Some(2021), Some(20), Some("Renewable"), None, None) ]
  }

  lemma ExampleUnfiltered()
    ensures Filter(Example(), 2021, 2022, Unrestricted, Unrestricted, Unrestricted) == Example()
  {
    var rs := Example();
    KeepAll(rs, r => Passes(r, 2021, 2022, Unrestricted, Unrestricted, Unrestricted));
    FilterIsOneKeep(rs, 2021, 2022, Unrestricted, Unrestricted, Unrestricted);
  }

  lemma ExampleYears()
    ensures ColumnYears(Example()) == [2021, 2022]
  {
    var rs := Example();
    var p1, p2 := rs[..1], rs[..2];
    assert p2[..1] == p1 && p1[..0] == [] && rs[..|rs| - 1] == p2 && p2[..|p2| - 1] == p1;
    assert ColumnYears(p1) == [2021];
    assert ColumnYears(p2) == InsertYear([2021], 2022) == [2021, 2022];
    assert ColumnYears(rs) == InsertYear([2021, 2022], 2021);
  }

  lemma ExampleNames()
    ensures RowNames(Example()) == ["A", "B"]
  {
    var rs := Example();
    var p1, p2 := rs[..1], rs[..2];
    assert p2[..1] == p1 && p1[..0] == [] && rs[..|rs| - 1] == p2 && p2[..|p2| - 1] == p1;
    assert RowNames(p1) == ["A"];
    assert RowNames(p2) == ["A"];
  }

  lemma ExampleSums()
    ensures SumIn(Example(), {("A", 2021)}) == 10
    ensures SumIn(Example(), {("A", 2022)}) == 5
    ensures SumIn(Example(), {("B", 2021)}) == 20
    ensures SumIn(Example(), {("B", 2022)}) == 0
  {
    var rs := Example();
    var p1, p2 := rs[..1], rs[..2];
    assert p2[..1] == p1 && p1[..0] == [] && rs[..|rs| - 1] == p2 && p2[..|p2| - 1] == p1;
    forall k | k in {("A", 2021), ("A", 2022), ("B", 2021), ("B", 2022)}
      ensures SumIn(rs, {k}) == SumIn(p2, {k}) + ShareIn(rs[2], {k})
      ensures SumIn(p2, {k}) == SumIn(p1, {k}) + ShareIn(rs[1], {k})
      ensures SumIn(p1, {k}) == ShareIn(rs[0], {k})
    {
    }
  }

  lemma ExampleCells()
    ensures RowCells(CellTable(Example()), "A", [2021, 2022]) == [10, 5]
    ensures RowCells(CellTable(Example()), "B", [2021, 2022]) == [20, 0]
  {
    var rs := Example();
    ExampleSums();
    CellIsGroupSum(rs, "A", 2021);
    CellIsGroupSum(rs, "A", 2022);
    CellIsGroupSum(rs, "B", 2021);
    CellIsGroupSum(rs, "B", 2022);
  }

  lemma ExampleRows()
    ensures UnsortedRows(Example()) == [Row("A", [10, 5], 15), Row("B", [20, 0], 20)]
  {
    ExampleYears();
    ExampleNames();
    ExampleCells();
    assert SumSeq([10, 5]) == 15 && SumSeq([20, 0]) == 20;
  }

  /** Over 2021 to 2022 with no restriction, B (20 in 2021, 0 in 2022) ranks
      above A (10 and 5). */
  lemma ExamplePivot()
    ensures SortByTotal(UnsortedRows(Example())) == [Row("B", [20, 0], 20), Row("A", [10, 5], 15)]
  {
    ExampleRows();
    var rowA, rowB := Row("A", [10, 5], 15), Row("B", [20, 0], 20);
    assert [rowA, rowB][1..] == [rowB];
    assert SortByTotal([rowB]) == [rowB];
    assert InsertByTotal(rowA, [rowB]) == [rowB, rowA];
  }

  lemma ExampleForestryKeep()
    ensures Keep(Example(), r => Passes(r, 2021, 2022, RestrictedTo({"Forestry"}), Unrestricted, Unrestricted)) == Example()[..2]
  {
    var rs := Example();
    var p := r => Passes(r, 2021, 2022, RestrictedTo({"Forestry"}), Unrestricted, Unrestricted);
    var t1 := rs[1..];
    var t2 := t1[1..];
    assert t2 == [rs[2]] && t2[1..] == [];
    assert Keep(t2, p) == [] by {
      assert !p(rs[2]);
    }
    assert Keep(t1, p) == [rs[1]] by {
      assert p(rs[1]);
    }
    assert Keep(rs, p) == [rs[0], rs[1]] by {
      assert p(rs[0]);
    }
    assert rs[..2] == [rs[0], rs[1]];
  }

  /** Restricting project types to Forestry keeps A's two records only. */
  lemma ExampleForestryFilter()
    ensures Filter(Example(), 2021, 2022, RestrictedTo({"Forestry"}), Unrestricted, Unrestricted) == Example()[..2]
  {
    FilterIsOneKeep(Example(), 2021, 2022, RestrictedTo({"Forestry"}), Unrestricted, Unrestricted);
    ExampleForestryKeep();
  }

  /** ... so B gets no row at all, not a row of zeros. */
  lemma ExampleForestryRows()
    ensures BeneficiarySet(Example()[..2]) == {"A"}
    ensures |UnsortedRows(Example()[..2])| == 1 && UnsortedRows(Example()[..2])[0].beneficiary == "A"
  {
    var f := Example()[..2];
    forall k | k in PairKeys(f) ensures k.0 == "A" {
      var r :| r in f && KeyOf(r) == Some(k);
    }
    assert KeyOf(f[0]) == Some(("A", 2021));
    assert ("A", 2021) in PairKeys(f);
    assert BeneficiarySet(f) == {"A"};
    UnsortedRowsShape(f);
    assert UnsortedRows(f)[0] in UnsortedRows(f);
  }

  /** A year range that holds no record leaves nothing to pivot. */
  lemma ExampleNoData()
    ensures Filter(Example(), 2023, 2024, Unrestricted, Unrestricted, Unrestricted) == []
  {
    FilterEmptyIff(Example(), 2023, 2024, Unrestricted, Unrestricted, Unrestricted);
  }
}
