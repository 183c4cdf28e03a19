/** The summary cards above the table: counts, the mean overlap percentage and
    the area sums, all computed from the full result list. */
module StatisticsCards {
  import opened Wrappers
  import opened Seqs
  import opened Overlap

  const MajorOverlap: string := "major_overlap"
  const MinorOverlap: string := "minor_overlap"
  const SquareMetresPerHectare: real := 10000.0

  predicate IsMajor(r: OverlapResult) {
    r.errorType == MajorOverlap
  }

  predicate IsMinor(r: OverlapResult) {
    r.errorType == MinorOverlap
  }

  function OverlapPercentageOf(r: OverlapResult): real {
    r.overlapPercentage
  }

  function OverlapAreaOf(r: OverlapResult): real {
    r.totalOverlapAreaM2
  }

  function OriginalAreaOf(r: OverlapResult): real {
    r.originalAreaM2
  }

  /** `results.filter(r => r.error_type === 'major_overlap').length` */
  function MajorOverlaps(rs: seq<OverlapResult>): (n: nat)
    ensures n <= |rs|
    ensures n == 0 <==> forall i :: 0 <= i < |rs| ==> !IsMajor(rs[i])
  {
    var kept := Keep(rs, IsMajor);
    assert kept != [] ==> kept[0] in rs && IsMajor(kept[0]);
    |kept|
  }

  /** `results.filter(r => r.error_type === 'minor_overlap').length` */
  function MinorOverlaps(rs: seq<OverlapResult>): (n: nat)
    ensures n <= |rs|
    ensures n == 0 <==> forall i :: 0 <= i < |rs| ==> !IsMinor(rs[i])
  {
    var kept := Keep(rs, IsMinor);
    assert kept != [] ==> kept[0] in rs && IsMinor(kept[0]);
    |kept|
  }

  /** `rs.reduce((acc, curr) => acc + field(curr), acc)`: a left fold. */
  function FoldSum(rs: seq<OverlapResult>, field: OverlapResult -> real, acc: real): real {
    if rs == [] then acc else FoldSum(rs[1..], field, acc + field(rs[0]))
  }

  /** The sum of a field over the rows, as a reference definition. */
  function Sum(rs: seq<OverlapResult>, field: OverlapResult -> real): real {
    if rs == [] then 0.0 else field(rs[0]) + Sum(rs[1..], field)
  }

  /** The left fold starting at `acc` adds `acc` to the plain sum. */
  lemma {:induction false} FoldSumIsSum(rs: seq<OverlapResult>, field: OverlapResult -> real, acc: real)
    ensures FoldSum(rs, field, acc) == acc + Sum(rs, field)
  {
    if rs != [] {
      FoldSumIsSum(rs[1..], field, acc + field(rs[0]));
    }
  }

  function TotalOverlapArea(rs: seq<OverlapResult>): (total: real)
    ensures total == Sum(rs, OverlapAreaOf)
  {
    FoldSumIsSum(rs, OverlapAreaOf, 0.0);
    FoldSum(rs, OverlapAreaOf, 0.0)
  }

  function TotalOriginalArea(rs: seq<OverlapResult>): (total: real)
    ensures total == Sum(rs, OriginalAreaOf)
  {
    FoldSumIsSum(rs, OriginalAreaOf, 0.0);
    FoldSum(rs, OriginalAreaOf, 0.0)
  }

  /** The mean overlap percentage; `None` stands for the `0 / 0` (NaN) the
      source computes for an empty list. */
  function AvgOverlapPercentage(rs: seq<OverlapResult>): (r: Option<real>)
    ensures r.Some? <==> |rs| > 0
    ensures r.Some? ==> r.value * (|rs| as real) == Sum(rs, OverlapPercentageOf)
  {
    FoldSumIsSum(rs, OverlapPercentageOf, 0.0);
    if |rs| == 0 then None else Some(FoldSum(rs, OverlapPercentageOf, 0.0) / (|rs| as real))
  }

  /** The card's conversion from square metres to hectares. */
  function Hectares(squareMetres: real): (ha: real)
    ensures ha * SquareMetresPerHectare == squareMetres
    ensures squareMetres >= 0.0 ==> 0.0 <= ha <= squareMetres
  {
    squareMetres / SquareMetresPerHectare
  }

  datatype Statistics = Statistics(
    totalFeatures: nat,
    majorOverlaps: nat,
    minorOverlaps: nat,
    avgOverlapPercentage: Option<real>,
    totalOverlapArea: real,
    totalOriginalArea: real)
  {
    /** The value shown on the "Total Overlap Area" card, in hectares. */
    function OverlapHectares(): real {
      Hectares(totalOverlapArea)
    }

    /** The value shown on the "Total Original Area" card, in hectares. */
    function OriginalHectares(): real {
      Hectares(totalOriginalArea)
    }
  }

  /** Everything the cards display, from one result list. */
  function Compute(rs: seq<OverlapResult>): (st: Statistics)
    ensures st.totalFeatures == |rs|
    ensures st.majorOverlaps + st.minorOverlaps <= st.totalFeatures
    ensures st.avgOverlapPercentage.Some? <==> rs != []
    ensures st.totalOverlapArea == Sum(rs, OverlapAreaOf)
    ensures st.totalOriginalArea == Sum(rs, OriginalAreaOf)
  {
    MajorMinorBounded(rs);
    Statistics(|rs|, MajorOverlaps(rs), MinorOverlaps(rs), AvgOverlapPercentage(rs),
               TotalOverlapArea(rs), TotalOriginalArea(rs))
  }

  /** A row is never both kinds, so the two counts never exceed the total. */
  lemma {:induction false} MajorMinorBounded(rs: seq<OverlapResult>)
    ensures MajorOverlaps(rs) + MinorOverlaps(rs) <= |rs|
  {
    if rs != [] {
      MajorMinorBounded(rs[1..]);
      KeepAppend([rs[0]], rs[1..], IsMajor);
      KeepAppend([rs[0]], rs[1..], IsMinor);
      assert [rs[0]] + rs[1..] == rs;
    }
  }

  /** If every row is tagged with one of the two kinds, the counts add up to
      the total. */
  lemma {:induction false} MajorMinorExhaustive(rs: seq<OverlapResult>)
    requires forall i :: 0 <= i < |rs| ==> IsMajor(rs[i]) || IsMinor(rs[i])
    ensures MajorOverlaps(rs) + MinorOverlaps(rs) == |rs|
  {
    if rs != [] {
      MajorMinorExhaustive(rs[1..]);
      KeepAppend([rs[0]], rs[1..], IsMajor);
      KeepAppend([rs[0]], rs[1..], IsMinor);
      assert [rs[0]] + rs[1..] == rs;
    }
  }

  lemma {:induction false} SumMonotone(rs: seq<OverlapResult>, f: OverlapResult -> real, g: OverlapResult -> real)
    requires forall i :: 0 <= i < |rs| ==> f(rs[i]) <= g(rs[i])
    ensures Sum(rs, f) <= Sum(rs, g)
  {
    if rs != [] {
      SumMonotone(rs[1..], f, g);
    }
  }

  lemma {:induction false} SumBounds(rs: seq<OverlapResult>, f: OverlapResult -> real, lo: real, hi: real)
    requires forall i :: 0 <= i < |rs| ==> lo <= f(rs[i]) <= hi
    ensures lo * (|rs| as real) <= Sum(rs, f) <= hi * (|rs| as real)
  {
    if rs != [] {
      SumBounds(rs[1..], f, lo, hi);
    }
  }

  lemma {:induction false} SumNonNegative(rs: seq<OverlapResult>, f: OverlapResult -> real)
    requires forall i :: 0 <= i < |rs| ==> f(rs[i]) >= 0.0
    ensures Sum(rs, f) >= 0.0
  {
    if rs != [] {
      SumNonNegative(rs[1..], f);
    }
  }

  /** Area sums of non-negative areas are non-negative, in square metres and
      in hectares. */
  lemma AreaSumsNonNegative(rs: seq<OverlapResult>)
    requires forall i :: 0 <= i < |rs| ==> rs[i].totalOverlapAreaM2 >= 0.0 && rs[i].originalAreaM2 >= 0.0
    ensures TotalOverlapArea(rs) >= 0.0 && TotalOriginalArea(rs) >= 0.0
    ensures Compute(rs).OverlapHectares() >= 0.0 && Compute(rs).OriginalHectares() >= 0.0
  {
    FoldSumIsSum(rs, OverlapAreaOf, 0.0);
    FoldSumIsSum(rs, OriginalAreaOf, 0.0);
    SumNonNegative(rs, OverlapAreaOf);
    SumNonNegative(rs, OriginalAreaOf);
  }

  /** When no row overlaps more than its own area, the total overlap area is
      at most the total original area (and so in hectares). */
  lemma OverlapAreaBounded(rs: seq<OverlapResult>)
    requires forall i :: 0 <= i < |rs| ==> rs[i].totalOverlapAreaM2 <= rs[i].originalAreaM2
    ensures TotalOverlapArea(rs) <= TotalOriginalArea(rs)
    ensures Compute(rs).OverlapHectares() <= Compute(rs).OriginalHectares()
  {
    FoldSumIsSum(rs, OverlapAreaOf, 0.0);
    FoldSumIsSum(rs, OriginalAreaOf, 0.0);
    SumMonotone(rs, OverlapAreaOf, OriginalAreaOf);
  }

  /** Percentages between 0 and 100 average to a percentage between 0 and 100. */
  lemma AverageIsPercentage(rs: seq<OverlapResult>)
    requires |rs| > 0
    requires forall i :: 0 <= i < |rs| ==> 0.0 <= rs[i].overlapPercentage <= 100.0
    ensures 0.0 <= AvgOverlapPercentage(rs).value <= 100.0
  {
    SumBounds(rs, OverlapPercentageOf, 0.0, 100.0);
    var n := |rs| as real;
    var avg := AvgOverlapPercentage(rs).value;
    assert avg * n == Sum(rs, OverlapPercentageOf);
    assert (100.0 - avg) * n >= 0.0;
    assert avg * n >= 0.0;
  }

  /** An upload that returned no rows shows zero counts and zero areas. */
  lemma EmptyStatistics()
    ensures Compute([]) == Statistics(0, 0, 0, None, 0.0, 0.0)
  {
  }

  function SampleRow(id: int, errorType: string, percentage: real): OverlapResult {
    OverlapResult(errorType, id, ParseError, percentage, 0.0, 0.0, [], "")
  }

  /** Three rows tagged major 10%, minor 30% and major 50% give a mean of 30%,
      two major and one minor overlap. */
  lemma ThreeRowExample()
    ensures var st := Compute([SampleRow(1, MajorOverlap, 10.0), SampleRow(2, MinorOverlap, 30.0), SampleRow(3, MajorOverlap, 50.0)]);
      st.totalFeatures == 3 && st.majorOverlaps == 2 && st.minorOverlaps == 1 && st.avgOverlapPercentage == Some(30.0)
  {
    var rs := [SampleRow(1, MajorOverlap, 10.0), SampleRow(2, MinorOverlap, 30.0), SampleRow(3, MajorOverlap, 50.0)];
    assert rs[1..][1..][1..] == [];
    assert MajorOverlap[1] != MinorOverlap[1];
    assert FoldSum(rs[1..][1..][1..], OverlapPercentageOf, 90.0) == 90.0;
    assert FoldSum(rs[1..][1..], OverlapPercentageOf, 40.0) == 90.0;
    assert FoldSum(rs, OverlapPercentageOf, 0.0) == 90.0;
    assert Keep(rs[1..][1..][1..], IsMinor) == [];
    assert Keep(rs[1..][1..], IsMinor) == [];
    assert Keep(rs, IsMinor) == [rs[1]];
    assert Keep(rs[1..][1..], IsMajor) == [rs[2]];
    assert Keep(rs, IsMajor) == [rs[0], rs[2]];
  }
}
