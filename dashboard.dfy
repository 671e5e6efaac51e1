/** One run of the dashboard: filter the records, build and rank the pivot,
    derive the three headline figures and the top-five trend series, or report
    that nothing matched. */
module Dashboard {
  import opened Records
  import opened Filtering
  import opened YearLabels
  import opened Pivot
  import opened Ranking

  const GrandTotal: string := "Grand Total"

  /** The pivot as displayed: the year columns' labels and the rows, each row
      carrying its Grand Total column. */
  datatype Table = Table(yearLabels: seq<string>, rows: seq<Row>)

  /** All column labels, the Grand Total column last. */
  function Columns(t: Table): seq<string>
  {
    t.yearLabels + [GrandTotal]
  }

  /** `[c for c in columns if c != 'Grand Total']`. */
  function YearColumns(cols: seq<string>): (ycs: seq<string>)
    ensures IsSubsequence(ycs, cols)
    ensures forall c :: c in ycs <==> c in cols && c != GrandTotal
    ensures forall c :: multiset(ycs)[c] == if c == GrandTotal then 0 else multiset(cols)[c]
    ensures GrandTotal !in cols ==> ycs == cols
  {
    if cols == [] then []
    else
      assert cols == [cols[0]] + cols[1..];
      if cols[0] == GrandTotal then YearColumns(cols[1..])
    else [cols[0]] + YearColumns(cols[1..])
  }

  /** Dropping "Grand Total" from the columns ignores the Grand Total column appended last. */
  lemma {:induction false} YearColumnsDropsTotal(ls: seq<string>)
    ensures YearColumns(ls + [GrandTotal]) == YearColumns(ls)
  {
    if ls == [] {
      assert YearColumns([GrandTotal]) == YearColumns([]);
    } else {
      assert (ls + [GrandTotal])[1..] == ls[1..] + [GrandTotal];
      YearColumnsDropsTotal(ls[1..]);
    }
  }

  /** No year label reads "Grand Total", so dropping that column from the
      relabelled pivot gives back exactly the year labels, in order. */
  lemma {:induction false} YearColumnsOfTable(ys: seq<int>)
    ensures YearColumns(Columns(Table(Labels(ys), []))) == Labels(ys)
  {
    if ys == [] {
      assert Columns(Table(Labels(ys), [])) == [GrandTotal];
    } else {
      var cols := Columns(Table(Labels(ys), []));
      assert GrandTotal[0] == 'G';
      assert cols[0] == ShowYear(ys[0]) != GrandTotal;
      assert cols[1..] == Columns(Table(Labels(ys[1..]), []));
      YearColumnsOfTable(ys[1..]);
    }
  }

  /** The three figures above the table. */
  datatype Metrics = Metrics(beneficiaries: nat, credits: int, yearsCovered: nat)

  /** One line of the trend chart: a beneficiary and its (year label, quantity) points. */
  datatype Series = Series(name: string, points: seq<(string, int)>)

  /** What the page shows: a warning when no record survives the filters, the
      table, figures and chart otherwise. */
  datatype View = NoData | Report(table: Table, metrics: Metrics, trends: seq<Series>)

  function Zip(labels: seq<string>, values: seq<int>): (ps: seq<(string, int)>)
    requires |labels| == |values|
    ensures |ps| == |labels|
    ensures forall j :: 0 <= j < |labels| ==> ps[j] == (labels[j], values[j])
  {
    if labels == [] then [] else [(labels[0], values[0])] + Zip(labels[1..], values[1..])
  }

  /** One series per leading row, in row order, plotting the row's year cells
      against the year labels. */
  method TrendSeries(labels: seq<string>, top: seq<Row>) returns (series: seq<Series>)
    requires forall i :: 0 <= i < |top| ==> |top[i].cells| == |labels|
    ensures |series| == |top|
    ensures forall i :: 0 <= i < |top| ==>
      series[i].name == top[i].beneficiary
      && |series[i].points| == |labels|
      && forall j :: 0 <= j < |labels| ==> series[i].points[j] == (labels[j], top[i].cells[j])
  {
    series := [];
    var i := 0;
    while i < |top|
      invariant 0 <= i <= |top|
      invariant |series| == i
      invariant forall k :: 0 <= k < i ==>
        series[k].name == top[k].beneficiary
        && |series[k].points| == |labels|
        && forall j :: 0 <= j < |labels| ==> series[k].points[j] == (labels[j], top[k].cells[j])
    {
      series := series + [Series(top[i].beneficiary, Zip(labels, top[i].cells))];
      i := i + 1;
    }
  }

  /** Builds the pivot of the filtered records: group sums filled with 0, year
      columns relabelled, Grand Total added, rows sorted by it. */
  method BuildPivot(filtered: seq<Record>) returns (t: Table)
    ensures t.yearLabels == Labels(ColumnYears(filtered))
    ensures |t.rows| == |BeneficiarySet(filtered)|
    ensures forall b :: b in BeneficiarySet(filtered) <==> exists row :: row in t.rows && row.beneficiary == b
    ensures forall row :: row in t.rows ==> IsPivotRow(filtered, ColumnYears(filtered), row)
    ensures ByTotalDescending(t.rows)
    ensures multiset(t.rows) == multiset(UnsortedRows(filtered))
    ensures SumTotals(t.rows) == GroupedQuantity(filtered)
    ensures forall row :: row in t.rows ==> row.grandTotal == SumSeq(row.cells)
  {
    var cells := AccumulateCells(filtered);
    var ys := ColumnYears(filtered);
    var unsorted := MakeRows(cells, RowNames(filtered), ys);
    UnsortedRowsShape(filtered);
    PivotConservesQuantity(filtered);
    t := Table(Labels(ys), SortByTotal(unsorted));
    forall row | row in t.rows ensures row in unsorted && row.grandTotal == SumSeq(row.cells) {
      assert row in multiset(t.rows);
      var i :| 0 <= i < |unsorted| && unsorted[i] == row;
    }
    forall b | b in BeneficiarySet(filtered) ensures exists row :: row in t.rows && row.beneficiary == b {
      var row :| row in unsorted && row.beneficiary == b;
      assert row in multiset(unsorted);
    }
  }

  /** Narrows the records step by step: the year range, then each multiselect
      whose list is non-empty. */
  method Narrow(rs: seq<Record>, lo: int, hi: int, pickedTypes: seq<string>,
                pickedMethodologies: seq<string>, pickedCountries: seq<string>) returns (filtered: seq<Record>)
    ensures filtered == Filter(rs, lo, hi, SelectionOf(pickedTypes), SelectionOf(pickedMethodologies), SelectionOf(pickedCountries))
  {
    var types, methods, countries := SelectionOf(pickedTypes), SelectionOf(pickedMethodologies), SelectionOf(pickedCountries);
    filtered := Keep(rs, r => InYearRange(r, lo, hi));
    if |pickedTypes| > 0 {
      filtered := Keep(filtered, r => Admits(types, FieldValue(r, ProjectType)));
    } else {
      KeepAll(filtered, r => Admits(types, FieldValue(r, ProjectType)));
    }
    if |pickedMethodologies| > 0 {
      filtered := Keep(filtered, r => Admits(methods, FieldValue(r, Methodology)));
    } else {
      KeepAll(filtered, r => Admits(methods, FieldValue(r, Methodology)));
    }
    if |pickedCountries| > 0 {
      filtered := Keep(filtered, r => Admits(countries, FieldValue(r, Country)));
    } else {
      KeepAll(filtered, r => Admits(countries, FieldValue(r, Country)));
    }
  }

  /** The three figures above the table: how many rows, the sum of the Grand
      Total column, and how many columns are not the Grand Total. */
  function Summarize(t: Table): (m: Metrics)
    ensures m.beneficiaries == |t.rows|
    ensures m.credits == SumTotals(t.rows)
    ensures GrandTotal !in t.yearLabels ==> m.yearsCovered == |t.yearLabels|
  {
    YearColumnsDropsTotal(t.yearLabels);
    Metrics(|t.rows|, SumTotals(t.rows), |YearColumns(Columns(t))|)
  }

  /** The pivot of the filtered records and its three figures: one row per
      beneficiary, the quantity of every grouped record, one column per year. */
  method Present(f: seq<Record>) returns (t: Table, metrics: Metrics)
    ensures PivotOf(f, t)
    ensures metrics == Summarize(t)
    ensures metrics == Metrics(|BeneficiarySet(f)|, GroupedQuantity(f), |YearSet(f)|)
  {
    t := BuildPivot(f);
    var ys := ColumnYears(f);
    YearColumnsOfTable(ys);
    assert YearColumns(Columns(t)) == Labels(ys);
    DistinctCount(ys, YearSet(f));
    metrics := Summarize(t);
  }

  /** The trend chart's series: the first five rows, each plotted against the
      year columns relabelled once more with `str(int(c))`. */
  method TopTrends(f: seq<Record>, t: Table) returns (trends: seq<Series>)
    requires t.yearLabels == Labels(ColumnYears(f))
    requires forall row :: row in t.rows ==> IsPivotRow(f, ColumnYears(f), row)
    ensures |trends| == if |t.rows| < TopCount then |t.rows| else TopCount
    ensures var ys := ColumnYears(f);
      forall i :: 0 <= i < |trends| ==>
        && trends[i].name == t.rows[i].beneficiary
        && |trends[i].points| == |ys|
        && forall j :: 0 <= j < |ys| ==> trends[i].points[j] == (ShowYear(ys[j]), SumIn(f, {(trends[i].name, ys[j])}))
  {
    var ys := ColumnYears(f);
    var top := TopRows(t.rows);
    YearColumnsOfTable(ys);
    assert YearColumns(Columns(t)) == Labels(ys);
    RelabelLabels(ys);
    var yearColumns := Relabel(YearColumns(Columns(t))).value;
    forall i | 0 <= i < |top| ensures |top[i].cells| == |yearColumns| {
      assert top[i] in t.rows;
    }
    trends := TrendSeries(yearColumns, top);
    forall i | 0 <= i < |trends|
      ensures forall j :: 0 <= j < |ys| ==> trends[i].points[j] == (ShowYear(ys[j]), SumIn(f, {(trends[i].name, ys[j])}))
    {
      assert top[i] in t.rows;
    }
  }

  /** `t` is the pivot of `f`: relabelled year columns, one row per beneficiary
      with its group sums and total, ordered by descending Grand Total. */
  ghost predicate PivotOf(f: seq<Record>, t: Table)
  {
    && t.yearLabels == Labels(ColumnYears(f))
    && ByTotalDescending(t.rows)
    && (forall row :: row in t.rows ==> IsPivotRow(f, ColumnYears(f), row))
    && |t.rows| == |BeneficiarySet(f)|
    && (forall b :: b in BeneficiarySet(f) <==> exists row :: row in t.rows && row.beneficiary == b)
    && multiset(t.rows) == multiset(UnsortedRows(f))
  }

  /** `trends` is the chart of the leading rows of `t`: one series per row,
      pairing each year label with the beneficiary's group sum for that year. */
  ghost predicate TrendsOf(f: seq<Record>, t: Table, trends: seq<Series>)
  {
    && |trends| == (if |t.rows| < TopCount then |t.rows| else TopCount)
    && forall i :: 0 <= i < |trends| ==>
      && trends[i].name == t.rows[i].beneficiary
      && |trends[i].points| == |ColumnYears(f)|
      && forall j :: 0 <= j < |ColumnYears(f)| ==>
        trends[i].points[j] == (ShowYear(ColumnYears(f)[j]), SumIn(f, {(trends[i].name, ColumnYears(f)[j])}))
  }

  /** One pass of the script: a warning when no record survives the filters,
      otherwise the table, the figures and the chart. */
  method Render(rs: seq<Record>, yearRange: (int, int), pickedTypes: seq<string>,
                pickedMethodologies: seq<string>, pickedCountries: seq<string>) returns (view: View)
    ensures view.NoData? <==>
      forall r :: r in rs ==> !Passes(r, yearRange.0, yearRange.1, SelectionOf(pickedTypes), SelectionOf(pickedMethodologies), SelectionOf(pickedCountries))
    ensures view.Report? ==>
      var f := Filter(rs, yearRange.0, yearRange.1, SelectionOf(pickedTypes), SelectionOf(pickedMethodologies), SelectionOf(pickedCountries));
      && PivotOf(f, view.table)
      && view.metrics == Metrics(|BeneficiarySet(f)|, GroupedQuantity(f), |YearSet(f)|)
      && TrendsOf(f, view.table, view.trends)
  {
    var filtered := Narrow(rs, yearRange.0, yearRange.1, pickedTypes, pickedMethodologies, pickedCountries);
    FilterEmptyIff(rs, yearRange.0, yearRange.1, SelectionOf(pickedTypes), SelectionOf(pickedMethodologies), SelectionOf(pickedCountries));
    if |filtered| > 0 {
      var t, metrics := Present(filtered);
      var trends := TopTrends(filtered, t);
      view := Report(t, metrics, trends);
      assert PivotOf(filtered, t);
      assert TrendsOf(filtered, t, trends);
    } else {
      view := NoData;
    }
  }
}
