/** Column labels of the pivot: each year column is renamed to `str(int(year))`. */
module YearLabels {
  import opened Records

  predicate IsDigit(c: char)
  {
    '0' <= c <= '9'
  }

  function DigitChar(d: nat): (c: char)
    requires d < 10
    ensures IsDigit(c) && c as int - '0' as int == d
  {
    (('0' as int) + d) as char
  }

  /** Decimal digits of a natural number, most significant first, without leading zeros. */
  function ShowNat(n: nat): (s: string)
    ensures |s| > 0 && AllDigits(s)
    ensures n > 0 ==> s[0] != '0'
    ensures |s| > 1 ==> s[0] != '0'
  {
    if n < 10 then [DigitChar(n)] else ShowNat(n / 10) + [DigitChar(n % 10)]
  }

  /** `str(y)` of an integer year. */
  function ShowYear(y: int): (s: string)
    ensures |s| > 0 && (IsDigit(s[0]) || s[0] == '-')
    ensures s[0] == '-' <==> y < 0
    ensures y >= 0 ==> AllDigits(s) && (|s| > 1 ==> s[0] != '0')
    ensures y < 0 ==> |s| > 1 && AllDigits(s[1..]) && s[1] != '0'
  {
    if y < 0 then "-" + ShowNat(-y) else ShowNat(y)
  }

  predicate AllDigits(s: string)
  {
    forall i :: 0 <= i < |s| ==> IsDigit(s[i])
  }

  function DigitsValue(s: string): nat
    requires |s| > 0 && AllDigits(s)
  {
    var last := s[|s| - 1] as int - '0' as int;
    if |s| == 1 then last else DigitsValue(s[..|s| - 1]) * 10 + last
  }

  /** `int(s)` on a label: an optional minus sign and at least one digit;
      anything else raises, which is None here. */
  function ParseYear(s: string): Option<int>
  {
    if |s| > 1 && s[0] == '-' && AllDigits(s[1..]) then Some(-(DigitsValue(s[1..]) as int))
    else if |s| > 0 && AllDigits(s) then Some(DigitsValue(s))
    else None
  }

  lemma {:induction false} DigitsOfShowNat(n: nat)
    ensures DigitsValue(ShowNat(n)) == n
  {
    if n >= 10 {
      var s := ShowNat(n);
      assert s[..|s| - 1] == ShowNat(n / 10);
      DigitsOfShowNat(n / 10);
    }
  }

  /** Parsing a label gives back its year. */
  lemma ParseShowYear(y: int)
    ensures ParseYear(ShowYear(y)) == Some(y)
  {
    if y < 0 {
      assert ShowYear(y)[1..] == ShowNat(-y);
      DigitsOfShowNat(-y);
    } else {
      DigitsOfShowNat(y);
    }
  }

  /** Distinct years get distinct labels. */
  lemma ShowYearInjective(a: int, b: int)
    requires a != b
    ensures ShowYear(a) != ShowYear(b)
  {
    ParseShowYear(a);
    ParseShowYear(b);
  }

  /** The labels of a list of year columns, in the same order. */
  function Labels(ys: seq<int>): (ls: seq<string>)
    ensures |ls| == |ys|
    ensures forall j :: 0 <= j < |ys| ==> ls[j] == ShowYear(ys[j])
  {
    if ys == [] then [] else [ShowYear(ys[0])] + Labels(ys[1..])
  }

  /** `[str(int(c)) for c in columns]`: None when some label is not an integer. */
  function Relabel(cols: seq<string>): (r: Option<seq<string>>)
    ensures r.None? <==> exists j :: 0 <= j < |cols| && ParseYear(cols[j]).None?
    ensures r.Some? ==> |r.value| == |cols|
    ensures r.Some? ==> forall j :: 0 <= j < |cols| ==>
      ParseYear(cols[j]).Some? && r.value[j] == ShowYear(ParseYear(cols[j]).value)
  {
    if cols == [] then Some([])
    else
      match (ParseYear(cols[0]), Relabel(cols[1..]))
      case (Some(y), Some(rest)) => Some([ShowYear(y)] + rest)
      case _ => None
  }

  /** Relabelling columns that already carry year labels changes nothing. */
  lemma {:induction false} RelabelLabels(ys: seq<int>)
    ensures Relabel(Labels(ys)) == Some(Labels(ys))
  {
    if ys != [] {
      ParseShowYear(ys[0]);
      assert Labels(ys)[1..] == Labels(ys[1..]);
      RelabelLabels(ys[1..]);
    }
  }
}
