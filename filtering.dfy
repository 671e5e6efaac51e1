/** The sidebar's filters: the year range, and a set-membership filter on each
    of project type, methodology and country. */
module Filtering {
  import opened Records

  /** What a multiselect amounts to: no restriction when nothing is picked. */
  datatype Selection = Unrestricted | RestrictedTo(chosen: set<string>)

  /** The list a multiselect returns restricts only when it is non-empty. */
  function SelectionOf(picked: seq<string>): (sel: Selection)
    ensures sel.Unrestricted? <==> picked == []
    ensures sel.RestrictedTo? ==> forall v :: v in sel.chosen <==> v in picked
  {
    if |picked| > 0 then RestrictedTo(set v | v in picked) else Unrestricted
  }

  /** Both comparisons with a missing year are false, so such a record is never in range. */
  predicate InYearRange(r: Record, lo: int, hi: int)
  {
    r.year.Some? && lo <= r.year.value && r.year.value <= hi
  }

  /** `isin` never matches a missing value. */
  predicate Admits(sel: Selection, v: Option<string>)
  {
    match sel
    case Unrestricted => true
    case RestrictedTo(chosen) => v.Some? && v.value in chosen
  }

  /** The conjunction of all four filters. */
  predicate Passes(r: Record, lo: int, hi: int, types: Selection, methods: Selection, countries: Selection)
  {
    && InYearRange(r, lo, hi)
    && Admits(types, FieldValue(r, ProjectType))
    && Admits(methods, FieldValue(r, Methodology))
    && Admits(countries, FieldValue(r, Country))
  }

  /** `a` is `b` with some elements deleted and the rest in their original order. */
  predicate IsSubsequence<T(==)>(a: seq<T>, b: seq<T>)
    decreases |b|
  {
    if a == [] then true
    else if b == [] then false
    else if a[0] == b[0] then IsSubsequence(a[1..], b[1..])
    else IsSubsequence(a, b[1..])
  }

  /** Boolean indexing of a frame: the records satisfying `p`, in order. */
  function Keep(rs: seq<Record>, p: Record -> bool): (out: seq<Record>)
    ensures IsSubsequence(out, rs)
    ensures forall r :: r in out <==> r in rs && p(r)
    ensures forall r :: multiset(out)[r] == if p(r) then multiset(rs)[r] else 0
  {
    if rs == [] then []
    else
      assert rs == [rs[0]] + rs[1..];
      if p(rs[0]) then [rs[0]] + Keep(rs[1..], p) else Keep(rs[1..], p)
  }

  /** Filtering with a predicate that holds of every record changes nothing. */
  lemma {:induction false} KeepAll(rs: seq<Record>, p: Record -> bool)
    requires forall r :: r in rs ==> p(r)
    ensures Keep(rs, p) == rs
  {
    if rs != [] {
      KeepAll(rs[1..], p);
    }
  }

  /** Filtering twice is filtering once by the conjunction. */
  lemma {:induction false} KeepTwice(rs: seq<Record>, p: Record -> bool, q: Record -> bool, both: Record -> bool)
    requires forall r :: r in rs ==> both(r) == (p(r) && q(r))
    ensures Keep(Keep(rs, p), q) == Keep(rs, both)
  {
    if rs != [] {
      KeepTwice(rs[1..], p, q, both);
    }
  }

  /** Two filters applied one after the other commute. */
  lemma {:induction false} KeepCommutes(rs: seq<Record>, p: Record -> bool, q: Record -> bool)
    ensures Keep(Keep(rs, p), q) == Keep(Keep(rs, q), p)
  {
    var both := r => p(r) && q(r);
    KeepTwice(rs, p, q, both);
    KeepTwice(rs, q, p, both);
  }

  /** The filtered frame, in the order the script narrows it: year range first,
      then project type, methodology and country. */
  function Filter(rs: seq<Record>, lo: int, hi: int, types: Selection, methods: Selection, countries: Selection): (out: seq<Record>)
    ensures IsSubsequence(out, rs)
    ensures forall r :: r in out <==> r in rs && Passes(r, lo, hi, types, methods, countries)
    ensures forall r :: multiset(out)[r] == if Passes(r, lo, hi, types, methods, countries) then multiset(rs)[r] else 0
  {
    var inRange := Keep(rs, r => InYearRange(r, lo, hi));
    var byType := Keep(inRange, r => Admits(types, FieldValue(r, ProjectType)));
    var byMethod := Keep(byType, r => Admits(methods, FieldValue(r, Methodology)));
    var out := Keep(byMethod, r => Admits(countries, FieldValue(r, Country)));
    FilterIsOneKeep(rs, lo, hi, types, methods, countries);
    out
  }

  /** The four successive narrowings select the same records as one pass with the conjunction. */
  lemma FilterIsOneKeep(rs: seq<Record>, lo: int, hi: int, types: Selection, methods: Selection, countries: Selection)
    ensures
      Keep(Keep(Keep(Keep(rs, r => InYearRange(r, lo, hi)), r => Admits(types, FieldValue(r, ProjectType))),
                r => Admits(methods, FieldValue(r, Methodology))), r => Admits(countries, FieldValue(r, Country)))
      == Keep(rs, r => Passes(r, lo, hi, types, methods, countries))
  {
    var range := r => InYearRange(r, lo, hi);
    var rt := r => InYearRange(r, lo, hi) && Admits(types, FieldValue(r, ProjectType));
    var rtm := r => InYearRange(r, lo, hi) && Admits(types, FieldValue(r, ProjectType)) && Admits(methods, FieldValue(r, Methodology));
    KeepTwice(rs, range, r => Admits(types, FieldValue(r, ProjectType)), rt);
    KeepTwice(rs, rt, r => Admits(methods, FieldValue(r, Methodology)), rtm);
    KeepTwice(rs, rtm, r => Admits(countries, FieldValue(r, Country)), r => Passes(r, lo, hi, types, methods, countries));
  }

  /** An empty multiselect leaves the records as they are; a non-empty one keeps
      exactly the records whose field is one of the picked values. */
  lemma {:induction false} SelectionOfEffect(rs: seq<Record>, f: Field, picked: seq<string>)
    ensures picked == [] ==> Keep(rs, r => Admits(SelectionOf(picked), FieldValue(r, f))) == rs
    ensures forall r :: r in Keep(rs, r => Admits(SelectionOf(picked), FieldValue(r, f)))
                    <==> r in rs && (picked == [] || (FieldValue(r, f).Some? && FieldValue(r, f).value in picked))
  {
    if picked == [] {
      KeepAll(rs, r => Admits(SelectionOf(picked), FieldValue(r, f)));
    }
  }

  /** The three categorical filters may be applied in any order: here, the
      reverse of the script's order gives the same records. */
  lemma CategoricalFiltersCommute(rs: seq<Record>, types: Selection, methods: Selection, countries: Selection)
    ensures
      Keep(Keep(Keep(rs, r => Admits(types, FieldValue(r, ProjectType))), r => Admits(methods, FieldValue(r, Methodology))),
           r => Admits(countries, FieldValue(r, Country)))
      == Keep(Keep(Keep(rs, r => Admits(countries, FieldValue(r, Country))), r => Admits(methods, FieldValue(r, Methodology))),
              r => Admits(types, FieldValue(r, ProjectType)))
  {
    var t := r => Admits(types, FieldValue(r, ProjectType));
    var m := r => Admits(methods, FieldValue(r, Methodology));
    var c := r => Admits(countries, FieldValue(r, Country));
    var all := r => t(r) && m(r) && c(r);
    KeepTwice(rs, t, m, r => t(r) && m(r));
    KeepTwice(rs, r => t(r) && m(r), c, all);
    KeepTwice(rs, c, m, r => c(r) && m(r));
    KeepTwice(rs, r => c(r) && m(r), t, all);
  }

  /** The filtered frame is empty exactly when no record passes every filter. */
  lemma {:induction false} FilterEmptyIff(rs: seq<Record>, lo: int, hi: int, types: Selection, methods: Selection, countries: Selection)
    ensures Filter(rs, lo, hi, types, methods, countries) == [] <==> forall r :: r in rs ==> !Passes(r, lo, hi, types, methods, countries)
  {
    var out := Filter(rs, lo, hi, types, methods, countries);
    if out != [] {
      assert out[0] in out;
    }
  }
}
