/** The values the sidebar widgets are given: the year slider's bounds and the
    option list of each multiselect. */
module Sidebar {
  import opened Records
  import opened Filtering
  import Pivot

  /** `min()` of the year column, which skips missing years; None when all are missing. */
  function EarliestYear(rs: seq<Record>): (y: Option<int>)
    ensures y.None? <==> forall r :: r in rs ==> r.year.None?
    ensures y.Some? ==> exists r :: r in rs && r.year == y
    ensures y.Some? ==> forall r :: r in rs && r.year.Some? ==> y.value <= r.year.value
  {
    if rs == [] then None
    else
      var rest := EarliestYear(rs[1..]);
      match rs[0].year
      case None => rest
      case Some(first) => if rest.Some? && rest.value < first then rest else Some(first)
  }

  /** `max()` of the year column, which skips missing years; None when all are missing. */
  function LatestYear(rs: seq<Record>): (y: Option<int>)
    ensures y.None? <==> forall r :: r in rs ==> r.year.None?
    ensures y.Some? ==> exists r :: r in rs && r.year == y
    ensures y.Some? ==> forall r :: r in rs && r.year.Some? ==> r.year.value <= y.value
  {
    if rs == [] then None
    else
      var rest := LatestYear(rs[1..]);
      match rs[0].year
      case None => rest
      case Some(first) => if rest.Some? && rest.value > first then rest else Some(first)
  }

  /** The year slider's minimum and maximum: the earliest and latest known year,
      or 2020 and 2024 when no record has a year. */
  function SliderBounds(rs: seq<Record>): (bounds: (int, int))
    ensures bounds.0 <= bounds.1
    ensures (forall r :: r in rs ==> r.year.None?) ==> bounds == (2020, 2024)
    ensures forall r :: r in rs && r.year.Some? ==> bounds.0 <= r.year.value <= bounds.1
    ensures (exists r :: r in rs && r.year.Some?) ==>
      (exists r :: r in rs && r.year == Some(bounds.0)) && (exists r :: r in rs && r.year == Some(bounds.1))
  {
    var lo := EarliestYear(rs);
    var hi := LatestYear(rs);
    (if lo.Some? then lo.value else 2020, if hi.Some? then hi.value else 2024)
  }

  /** Over the slider's whole span the year filter drops exactly the records
      whose date did not parse. */
  lemma FullSpanKeepsDatedRecords(rs: seq<Record>)
    ensures Keep(rs, r => InYearRange(r, SliderBounds(rs).0, SliderBounds(rs).1)) == Keep(rs, (r: Record) => r.year.Some?)
  {
    var (lo, hi) := SliderBounds(rs);
    KeepTwice(rs, r => InYearRange(r, lo, hi), r => true, (r: Record) => r.year.Some?);
    KeepAll(Keep(rs, r => InYearRange(r, lo, hi)), r => true);
  }

  /** Python's ordering of strings: lexicographic by code point. */
  predicate TextBefore(a: string, b: string)
  {
    if a == [] then b != []
    else if b == [] then false
    else a[0] < b[0] || (a[0] == b[0] && TextBefore(a[1..], b[1..]))
  }

  lemma {:induction false} TextBeforeIrreflexive(a: string)
    ensures !TextBefore(a, a)
  {
    if a != [] {
      TextBeforeIrreflexive(a[1..]);
    }
  }

  lemma {:induction false} TextBeforeTransitive(a: string, b: string, c: string)
    requires TextBefore(a, b) && TextBefore(b, c)
    ensures TextBefore(a, c)
  {
    if a != [] && a[0] == b[0] && b[0] == c[0] {
      TextBeforeTransitive(a[1..], b[1..], c[1..]);
    }
  }

  lemma {:induction false} TextBeforeTotal(a: string, b: string)
    requires a != b
    ensures TextBefore(a, b) || TextBefore(b, a)
  {
    if a != [] && b != [] && a[0] == b[0] {
      assert a == [a[0]] + a[1..] && b == [b[0]] + b[1..];
      TextBeforeTotal(a[1..], b[1..]);
    }
  }

  predicate StrictlySorted(xs: seq<string>)
  {
    forall i, j :: 0 <= i < j < |xs| ==> TextBefore(xs[i], xs[j])
  }

  /** Adds `x` to a strictly sorted list unless it is there already. */
  function InsertOption(xs: seq<string>, x: string): (r: seq<string>)
    requires StrictlySorted(xs)
    ensures StrictlySorted(r)
    ensures forall v :: v in r <==> v in xs || v == x
  {
    if xs == [] then [x]
    else if x == xs[0] then xs
    else if TextBefore(x, xs[0]) then
      forall j | 0 < j < |xs| ensures TextBefore(x, xs[j]) {
        TextBeforeTransitive(x, xs[0], xs[j]);
      }
      [x] + xs
    else
      TextBeforeTotal(x, xs[0]);
      var rest := InsertOption(xs[1..], x);
      assert forall v :: v in rest ==> TextBefore(xs[0], v);
      [xs[0]] + rest
  }

  /** `sorted(df[column].dropna().unique())`: the distinct values present in a
      column, in ascending order. */
  function OptionList(rs: seq<Record>, f: Field): (opts: seq<string>)
    ensures StrictlySorted(opts)
    ensures forall v :: v in opts <==> exists r :: r in rs && FieldValue(r, f) == Some(v)
  {
    if rs == [] then []
    else
      var opts := OptionList(rs[1..], f);
      assert forall r :: r in rs <==> r == rs[0] || r in rs[1..];
      if FieldValue(rs[0], f).Some? then InsertOption(opts, FieldValue(rs[0], f).value) else opts
  }

  /** A strictly ascending list holds no value twice. */
  lemma StrictlySortedNoDuplicates(xs: seq<string>)
    requires StrictlySorted(xs)
    ensures Pivot.Distinct(xs)
  {
    forall i, j | 0 <= i < j < |xs| ensures xs[i] != xs[j] {
      TextBeforeIrreflexive(xs[i]);
    }
  }

  /** `unique()`: each value appears in the option list once. */
  lemma OptionListUnique(rs: seq<Record>, f: Field)
    ensures Pivot.Distinct(OptionList(rs, f))
  {
    StrictlySortedNoDuplicates(OptionList(rs, f));
  }

  /** Picking every option a multiselect offers is not the same as picking none:
      it still drops the records whose field is missing. (When no record has a
      value, the list is empty and picking all of it is picking none.) */
  lemma PickingAllOptionsDropsMissing(rs: seq<Record>, f: Field)
    requires exists r :: r in rs && FieldValue(r, f).Some?
    ensures Keep(rs, r => Admits(SelectionOf(OptionList(rs, f)), FieldValue(r, f))) == Keep(rs, r => FieldValue(r, f).Some?)
  {
    var opts := OptionList(rs, f);
    var all := r => Admits(SelectionOf(opts), FieldValue(r, f));
    var present := r => FieldValue(r, f).Some?;
    var w :| w in rs && FieldValue(w, f).Some?;
    assert FieldValue(w, f).value in opts;
    forall r | r in rs ensures all(r) == present(r) {
      if FieldValue(r, f).Some? {
        assert FieldValue(r, f).value in opts;
      }
    }
    KeepTwice(rs, all, r => true, present);
    KeepAll(Keep(rs, all), r => true);
  }
}
