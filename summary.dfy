/** The verification summary of a run: rows per fiscal year in ascending order,
    the grand total, and the expected fiscal years that no row carries. */
module Summaries {
  import opened Wrappers
  import opened Schema
  import opened Cleaning

  /** One line of the per-year table: a fiscal year and its row count. */
  datatype YearCount = YearCount(year: int, rows: nat)

  datatype Summary = Summary(counts: seq<YearCount>, total: nat, missing: set<int>)

  /** Number of rows whose fiscal year is `y`. */
  function CountYear(t: Table, y: int): (n: nat)
    ensures n <= |t|
    ensures n == 0 <==> forall i :: 0 <= i < |t| ==> t[i].fiscalYear != Some(y)
  {
    if t == [] then 0
    else (if t[0].fiscalYear == Some(y) then 1 else 0) + CountYear(t[1..], y)
  }

  /** Counting a year over two tables placed one after the other adds the
      counts over each. */
  lemma {:induction false} CountYearAppend(a: Table, b: Table, y: int)
    ensures CountYear(a + b, y) == CountYear(a, y) + CountYear(b, y)
  {
    if a == [] {
      assert a + b == b;
    } else {
      assert (a + b)[1..] == a[1..] + b;
      CountYearAppend(a[1..], b, y);
    }
  }

  /** Number of rows whose fiscal year is null. */
  function CountNull(t: Table): (n: nat)
    ensures n <= |t|
    ensures n == 0 <==> forall i :: 0 <= i < |t| ==> t[i].fiscalYear.Some?
  {
    if t == [] then 0
    else (if t[0].fiscalYear.None? then 1 else 0) + CountNull(t[1..])
  }

  /** The non-null fiscal years that occur in the table (the group keys). */
  function ObservedYears(t: Table): (ys: set<int>)
    ensures forall y :: y in ys <==> exists i :: 0 <= i < |t| && t[i].fiscalYear == Some(y)
  {
    set i | 0 <= i < |t| && t[i].fiscalYear.Some? :: t[i].fiscalYear.value
  }

  ghost predicate StrictlyAscending(ys: seq<int>)
  {
    forall i, j :: 0 <= i < j < |ys| ==> ys[i] < ys[j]
  }

  /** Inserts `y` into a strictly ascending list unless it is already there. */
  function Insert(ys: seq<int>, y: int): (r: seq<int>)
    requires StrictlyAscending(ys)
    ensures StrictlyAscending(r)
    ensures forall x :: x in r <==> x == y || x in ys
  {
    if ys == [] then [y]
    else if y < ys[0] then
      ConsAscending(y, ys);
      [y] + ys
    else if y == ys[0] then ys
    else
      var rest := Insert(ys[1..], y);
      assert forall x :: x in ys[1..] ==> ys[0] < x;
      ConsAscending(ys[0], rest);
      [ys[0]] + rest
  }

  lemma ConsAscending(x: int, ys: seq<int>)
    requires StrictlyAscending(ys)
    requires forall y :: y in ys ==> x < y
    ensures StrictlyAscending([x] + ys)
  {
    forall i, j | 0 <= i < j < |[x] + ys| ensures ([x] + ys)[i] < ([x] + ys)[j] {
      assert ([x] + ys)[j] == ys[j - 1] && ys[j - 1] in ys;
      if i > 0 {
        assert ([x] + ys)[i] == ys[i - 1];
      }
    }
  }

  /** The group keys of `groupby("fiscal_year")` after `sort_index()`: the
      distinct non-null fiscal years in ascending order. */
  function SortedYears(t: Table): (ys: seq<int>)
    ensures StrictlyAscending(ys)
    ensures forall y :: y in ys <==> y in ObservedYears(t)
  {
    if t == [] then []
    else
      var rest := SortedYears(t[1..]);
      assert forall y :: y in ObservedYears(t) <==> t[0].fiscalYear == Some(y) || y in ObservedYears(t[1..]) by {
        forall y ensures y in ObservedYears(t) <==> t[0].fiscalYear == Some(y) || y in ObservedYears(t[1..]) {
          if y in ObservedYears(t[1..]) {
            var i :| 0 <= i < |t[1..]| && t[1..][i].fiscalYear == Some(y);
            assert t[i + 1].fiscalYear == Some(y);
          }
          if y in ObservedYears(t) && t[0].fiscalYear != Some(y) {
            var i :| 0 <= i < |t| && t[i].fiscalYear == Some(y);
            assert t[1..][i - 1].fiscalYear == Some(y);
          }
        }
      }
      match t[0].fiscalYear
      case None => rest
      case Some(y) => Insert(rest, y)
  }

  /** `range(lo, hi)`. */
  function Range(lo: int, hi: int): (r: seq<int>)
    ensures forall y :: y in r <==> lo <= y < hi
    decreases hi - lo
  {
    if lo >= hi then [] else [lo] + Range(lo + 1, hi)
  }

  /** The expected fiscal years: `set(range(2017, 2026))`. */
  function ExpectedYears(): (ys: set<int>)
    ensures forall y :: y in ys <==> FirstExpectedYear <= y < EndExpectedYear
  {
    set y | y in Range(FirstExpectedYear, EndExpectedYear)
  }

  function CountsFor(t: Table, ys: seq<int>): (cs: seq<YearCount>)
    ensures |cs| == |ys|
    ensures forall i :: 0 <= i < |cs| ==> cs[i] == YearCount(ys[i], CountYear(t, ys[i]))
  {
    seq(|ys|, i requires 0 <= i < |ys| => YearCount(ys[i], CountYear(t, ys[i])))
  }

  /** `groupby("fiscal_year").size().sort_index()`, the total and the missing years.
      Null fiscal years form no group. */
  function Summarise(t: Table): (s: Summary)
    ensures s.total == |t|
    ensures forall i, j :: 0 <= i < j < |s.counts| ==> s.counts[i].year < s.counts[j].year
    ensures forall i :: 0 <= i < |s.counts| ==> s.counts[i].rows == CountYear(t, s.counts[i].year) > 0
    ensures forall y :: y in ObservedYears(t) <==> exists i :: 0 <= i < |s.counts| && s.counts[i].year == y
    ensures forall y :: y in s.missing <==> FirstExpectedYear <= y < EndExpectedYear && CountYear(t, y) == 0
  {
    var years := SortedYears(t);
    var counts := CountsFor(t, years);
    assert forall i :: 0 <= i < |counts| ==> counts[i].year in ObservedYears(t);
    Summary(counts, |t|, ExpectedYears() - ObservedYears(t))
  }

  /** Sum of the counts of a per-year table. */
  function SumRows(cs: seq<YearCount>): nat
  {
    if cs == [] then 0 else cs[0].rows + SumRows(cs[1..])
  }

  /** Number of positions of `ys` that equal the row's fiscal year. */
  function Hits(r: CleanRow, ys: seq<int>): nat
  {
    if ys == [] then 0
    else (if r.fiscalYear == Some(ys[0]) then 1 else 0) + Hits(r, ys[1..])
  }

  ghost predicate Distinct(ys: seq<int>)
  {
    forall i, j :: 0 <= i < j < |ys| ==> ys[i] != ys[j]
  }

  lemma {:induction false} HitsOfDistinct(r: CleanRow, ys: seq<int>)
    requires Distinct(ys)
    ensures Hits(r, ys) == if r.fiscalYear.Some? && r.fiscalYear.value in ys then 1 else 0
  {
    if ys != [] {
      HitsOfDistinct(r, ys[1..]);
      assert ys[0] !in ys[1..];
      assert forall y :: y in ys <==> y == ys[0] || y in ys[1..];
    }
  }

  lemma {:induction false} SumRowsCons(r: CleanRow, t: Table, ys: seq<int>)
    ensures SumRows(CountsFor([r] + t, ys)) == Hits(r, ys) + SumRows(CountsFor(t, ys))
  {
    if ys != [] {
      SumRowsCons(r, t, ys[1..]);
      assert CountsFor([r] + t, ys)[1..] == CountsFor([r] + t, ys[1..]);
      assert CountsFor(t, ys)[1..] == CountsFor(t, ys[1..]);
      assert ([r] + t)[1..] == t;
    }
  }

  /** Counting over a duplicate-free list of years that covers every non-null
      fiscal year accounts for every row that has one. */
  lemma {:induction false} SumRowsCovering(t: Table, ys: seq<int>)
    requires Distinct(ys)
    requires forall i :: 0 <= i < |t| && t[i].fiscalYear.Some? ==> t[i].fiscalYear.value in ys
    ensures SumRows(CountsFor(t, ys)) + CountNull(t) == |t|
  {
    if t == [] {
      assert forall k :: 0 <= k < |ys| ==> CountsFor(t, ys)[k].rows == 0;
      SumRowsZero(CountsFor(t, ys));
    } else {
      SumRowsCovering(t[1..], ys);
      SumRowsCons(t[0], t[1..], ys);
      HitsOfDistinct(t[0], ys);
      assert [t[0]] + t[1..] == t;
    }
  }

  lemma {:induction false} SumRowsZero(cs: seq<YearCount>)
    requires forall k :: 0 <= k < |cs| ==> cs[k].rows == 0
    ensures SumRows(cs) == 0
  {
    if cs != [] {
      SumRowsZero(cs[1..]);
    }
  }

  /** The per-year counts add up to the total minus the rows whose fiscal year
      is null: at most the total, and equal to it exactly when no fiscal year is null. */
  lemma CountsAddUp(t: Table)
    ensures SumRows(Summarise(t).counts) + CountNull(t) == Summarise(t).total
    ensures SumRows(Summarise(t).counts) <= Summarise(t).total
    ensures SumRows(Summarise(t).counts) == Summarise(t).total <==>
              forall i :: 0 <= i < |t| ==> t[i].fiscalYear.Some?
  {
    var years := SortedYears(t);
    assert Summarise(t).counts == CountsFor(t, years);
    forall i | 0 <= i < |t| && t[i].fiscalYear.Some? ensures t[i].fiscalYear.value in years {
      assert t[i].fiscalYear.value in ObservedYears(t);
    }
    SumRowsCovering(t, years);
  }
}
