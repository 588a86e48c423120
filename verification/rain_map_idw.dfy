/** The rain map's inverse-distance-weighting estimator over `Point` lists
    (`invDist` and `IDWInterpolator`): scan the points in order, answer the
    first point sitting exactly on the query, otherwise return the ratio of
    the sums of value/distance and 1/distance. */
module RainMapIdw {
  import opened Wrappers
  import opened Interpolator
  import Sums

  /** The source's exact-equality test between the query and a point. */
  predicate Matches(q: LonLat, p: Point)
  {
    q.lat == p.position.lat && q.lon == p.position.lon
  }

  /** The distance the scan computes for p, in the order (lat1, lat2, lon1, lon2). */
  function Distance(dist: Metric, q: LonLat, p: Point): real
  {
    dist(q.lat, p.position.lat, q.lon, p.position.lon)
  }

  /** The scan never divides by zero: every point it looks at before the first
      exact match (or the end of the list) is at positive distance. */
  predicate Separated(dist: Metric, q: LonLat, pts: seq<Point>)
    decreases |pts|
  {
    || |pts| == 0
    || Matches(q, pts[0])
    || (Distance(dist, q, pts[0]) > 0.0 && Separated(dist, q, pts[1..]))
  }

  /** The term 1/d that a non-matching point adds to `invDistSum`. It is made
      total by answering 0 at distance 0, which `Separated` rules out wherever
      the term is used. */
  function Weight(dist: Metric, q: LonLat, p: Point): real
  {
    var d := Distance(dist, q, p);
    if d == 0.0 then 0.0 else 1.0 / d
  }

  /** The term value/d that a non-matching point adds to `ponderedSum`. */
  function Weighted(dist: Metric, q: LonLat, p: Point): real
  {
    var d := Distance(dist, q, p);
    if d == 0.0 then 0.0 else p.value / d
  }

  function WeightOf(dist: Metric, q: LonLat): Point -> real
  {
    p => Weight(dist, q, p)
  }

  function WeightedOf(dist: Metric, q: LonLat): Point -> real
  {
    p => Weighted(dist, q, p)
  }

  /** Σ 1/d over pts. */
  function InvDistSum(dist: Metric, q: LonLat, pts: seq<Point>): real
  {
    Sums.Sum(pts, WeightOf(dist, q))
  }

  /** Σ value/d over pts. */
  function PonderedSum(dist: Metric, q: LonLat, pts: seq<Point>): real
  {
    Sums.Sum(pts, WeightedOf(dist, q))
  }

  /** The index of the first point exactly on the query, if any. */
  function FirstMatch(q: LonLat, pts: seq<Point>): (r: Option<nat>)
    ensures r.Some? ==> r.value < |pts| && Matches(q, pts[r.value])
    ensures r.Some? ==> forall j :: 0 <= j < r.value ==> !Matches(q, pts[j])
    ensures r.None? <==> forall j :: 0 <= j < |pts| ==> !Matches(q, pts[j])
    decreases |pts|
  {
    if |pts| == 0 then None
    else if Matches(q, pts[0]) then Some(0)
    else match FirstMatch(q, pts[1..])
      case None => None
      case Some(i) => Some(i + 1)
  }

  /** The estimate the scan computes, stated without the loop: the value of
      the first exact match, otherwise Σ(value/d) / Σ(1/d). */
  function Estimate(dist: Metric, q: LonLat, pts: seq<Point>): (r: Prediction)
    requires Separated(dist, q, pts)
    ensures r.NotANumber? <==> |pts| == 0
  {
    match FirstMatch(q, pts)
    case Some(i) => Number(pts[i].value)
    case None =>
      NoMatchWeightsPositive(dist, q, pts);
      Divide(PonderedSum(dist, q, pts), InvDistSum(dist, q, pts))
  }

  /** Separation with no match means every point is at positive distance. */
  lemma {:induction false} SeparatedApart(dist: Metric, q: LonLat, pts: seq<Point>)
    requires Separated(dist, q, pts)
    requires forall j :: 0 <= j < |pts| ==> !Matches(q, pts[j])
    ensures forall j :: 0 <= j < |pts| ==> Distance(dist, q, pts[j]) > 0.0
    decreases |pts|
  {
    if |pts| > 0 {
      assert forall j :: 1 <= j < |pts| ==> pts[1..][j - 1] == pts[j];
      SeparatedApart(dist, q, pts[1..]);
    }
  }

  lemma NoMatchWeightsPositive(dist: Metric, q: LonLat, pts: seq<Point>)
    requires Separated(dist, q, pts)
    requires FirstMatch(q, pts).None?
    ensures |pts| > 0 ==> InvDistSum(dist, q, pts) > 0.0
    ensures |pts| == 0 ==> InvDistSum(dist, q, pts) == 0.0
  {
    if |pts| > 0 {
      SeparatedApart(dist, q, pts);
      forall p | p in pts
        ensures WeightOf(dist, q)(p) > 0.0
      {
        var j :| 0 <= j < |pts| && pts[j] == p;
        assert Distance(dist, q, pts[j]) > 0.0;
      }
      Sums.SumPositive(pts, WeightOf(dist, q));
    }
  }

  /** The distance assumption makes every query separated from every list. */
  lemma {:induction false} SeparatedFromPositive(dist: Metric, q: LonLat, pts: seq<Point>)
    requires PositiveOffDiagonal(dist)
    ensures Separated(dist, q, pts)
    decreases |pts|
  {
    if |pts| > 0 && !Matches(q, pts[0]) {
      assert Distance(dist, q, pts[0]) > 0.0;
      SeparatedFromPositive(dist, q, pts[1..]);
    }
  }

  /** `invDist` as the source writes it: one pass with an early return. */
  method InvDist(dist: Metric, q: LonLat, points: seq<Point>) returns (r: Prediction)
    requires Separated(dist, q, points)
    ensures r == Estimate(dist, q, points)
  {
    var ponderedSum := 0.0;
    var invDistSum := 0.0;
    var i := 0;
    while i < |points|
      invariant 0 <= i <= |points|
      invariant forall j :: 0 <= j < i ==> !Matches(q, points[j])
      invariant Separated(dist, q, points[i..])
      invariant ponderedSum == PonderedSum(dist, q, points[..i])
      invariant invDistSum == InvDistSum(dist, q, points[..i])
    {
      var p := points[i];
      if q.lat == p.position.lat && q.lon == p.position.lon {
        assert FirstMatch(q, points).Some?;
        return Number(p.value);
      }
      assert points[i..][1..] == points[i + 1..];
      var d := dist(q.lat, p.position.lat, q.lon, p.position.lon);
      ponderedSum := ponderedSum + (p.value * 1.0) / d;
      invDistSum := invDistSum + 1.0 / d;
      assert points[..i + 1] == points[..i] + [p];
      Sums.SumSnoc(points[..i], p, WeightedOf(dist, q));
      Sums.SumSnoc(points[..i], p, WeightOf(dist, q));
      i := i + 1;
    }
    assert points[..i] == points;
    r := Divide(ponderedSum, invDistSum);
  }

  /** The smallest value in a non-empty list. */
  function MinValue(pts: seq<Point>): (m: real)
    requires |pts| > 0
    ensures forall j :: 0 <= j < |pts| ==> m <= pts[j].value
    ensures exists j :: 0 <= j < |pts| && m == pts[j].value
    decreases |pts|
  {
    if |pts| == 1 then pts[0].value
    else
      var m := MinValue(pts[1..]);
      assert forall j :: 1 <= j < |pts| ==> pts[1..][j - 1] == pts[j];
      if pts[0].value <= m then pts[0].value else m
  }

  /** The largest value in a non-empty list. */
  function MaxValue(pts: seq<Point>): (m: real)
    requires |pts| > 0
    ensures forall j :: 0 <= j < |pts| ==> pts[j].value <= m
    ensures exists j :: 0 <= j < |pts| && m == pts[j].value
    decreases |pts|
  {
    if |pts| == 1 then pts[0].value
    else
      var m := MaxValue(pts[1..]);
      assert forall j :: 1 <= j < |pts| ==> pts[1..][j - 1] == pts[j];
      if m <= pts[0].value then pts[0].value else m
  }

  /** The first point exactly on the query decides the estimate; the points
      after it, including later exact matches, are never looked at. */
  lemma FirstMatchWins(dist: Metric, q: LonLat, pre: seq<Point>, p: Point, post: seq<Point>)
    requires forall j :: 0 <= j < |pre| ==> !Matches(q, pre[j])
    requires Matches(q, p)
    requires Separated(dist, q, pre + [p] + post)
    ensures Estimate(dist, q, pre + [p] + post) == Number(p.value)
  {
    var pts := pre + [p] + post;
    assert pts[|pre|] == p;
    assert forall j :: 0 <= j < |pre| ==> pts[j] == pre[j];
    var k := FirstMatch(q, pts);
    assert k.Some?;
    assert k.value == |pre|;
  }

  /** Two points on the query with different values give different estimates
      depending on their order: the tie is broken by list position. */
  lemma OrderDecidesExactTies(dist: Metric, q: LonLat, a: Point, b: Point)
    requires Matches(q, a) && Matches(q, b)
    ensures Estimate(dist, q, [a, b]) == Number(a.value)
    ensures Estimate(dist, q, [b, a]) == Number(b.value)
  {
    FirstMatchWins(dist, q, [], a, [b]);
    FirstMatchWins(dist, q, [], b, [a]);
  }

  /** With no exact match the estimate is Σ(value/d) / Σ(1/d), and the
      denominator is positive. */
  lemma NoMatchIsRatio(dist: Metric, q: LonLat, pts: seq<Point>)
    requires |pts| > 0
    requires forall j :: 0 <= j < |pts| ==> !Matches(q, pts[j])
    requires Separated(dist, q, pts)
    ensures InvDistSum(dist, q, pts) > 0.0
    ensures Estimate(dist, q, pts) == Number(PonderedSum(dist, q, pts) / InvDistSum(dist, q, pts))
  {
    NoMatchWeightsPositive(dist, q, pts);
  }

  lemma ScaledBetween(v: real, d: real, lo: real, hi: real)
    requires d > 0.0
    requires lo <= v <= hi
    ensures lo * (1.0 / d) <= v / d <= hi * (1.0 / d)
  {
  }

  /** Dividing by a positive denominator keeps bounds, strict or not. */
  lemma RatioBetween(num: real, den: real, lo: real, hi: real)
    requires den > 0.0
    ensures lo * den <= num ==> lo <= num / den
    ensures lo * den < num ==> lo < num / den
    ensures num <= hi * den ==> num / den <= hi
    ensures num < hi * den ==> num / den < hi
  {
  }

  /** Whatever path the scan takes, the estimate of a non-empty list lies
      within any bounds that hold for all of its values. */
  lemma EstimateBetween(dist: Metric, q: LonLat, pts: seq<Point>, lo: real, hi: real)
    requires |pts| > 0
    requires Separated(dist, q, pts)
    requires forall j :: 0 <= j < |pts| ==> lo <= pts[j].value <= hi
    ensures Estimate(dist, q, pts).Number?
    ensures lo <= Estimate(dist, q, pts).value <= hi
  {
    if FirstMatch(q, pts).None? {
      NoMatchWeightsPositive(dist, q, pts);
      SeparatedApart(dist, q, pts);
      SumsBetween(dist, q, pts, lo, hi);
      RatioBetween(PonderedSum(dist, q, pts), InvDistSum(dist, q, pts), lo, hi);
    } else {
      var i := FirstMatch(q, pts).value;
      assert lo <= pts[i].value <= hi;
    }
  }

  lemma SumsBetween(dist: Metric, q: LonLat, pts: seq<Point>, lo: real, hi: real)
    requires forall j :: 0 <= j < |pts| ==> Distance(dist, q, pts[j]) > 0.0
    requires forall j :: 0 <= j < |pts| ==> lo <= pts[j].value <= hi
    ensures lo * InvDistSum(dist, q, pts) <= PonderedSum(dist, q, pts) <= hi * InvDistSum(dist, q, pts)
  {
    forall x | x in pts
      ensures lo * WeightOf(dist, q)(x) <= WeightedOf(dist, q)(x) <= hi * WeightOf(dist, q)(x)
    {
      var j :| 0 <= j < |pts| && pts[j] == x;
      ScaledBetween(x.value, Distance(dist, q, x), lo, hi);
    }
    Sums.SumBetween(pts, WeightOf(dist, q), WeightedOf(dist, q), lo, hi);
  }

  /** With no exact match the estimate is a weighted average: it lies between
      the smallest and the largest value. */
  lemma EstimateBounded(dist: Metric, q: LonLat, pts: seq<Point>)
    requires |pts| > 0
    requires forall j :: 0 <= j < |pts| ==> !Matches(q, pts[j])
    requires Separated(dist, q, pts)
    ensures Estimate(dist, q, pts).Number?
    ensures MinValue(pts) <= Estimate(dist, q, pts).value <= MaxValue(pts)
  {
    EstimateBetween(dist, q, pts, MinValue(pts), MaxValue(pts));
  }

  /** A single point decides every query, by the match or because the ratio
      (v/d)/(1/d) collapses to v. */
  lemma SinglePoint(dist: Metric, q: LonLat, p: Point)
    requires Separated(dist, q, [p])
    ensures Estimate(dist, q, [p]) == Number(p.value)
  {
    EstimateBetween(dist, q, [p], p.value, p.value);
  }

  /** A list whose values all equal c estimates c everywhere. */
  lemma ConstantValues(dist: Metric, q: LonLat, pts: seq<Point>, c: real)
    requires |pts| > 0
    requires forall j :: 0 <= j < |pts| ==> pts[j].value == c
    requires Separated(dist, q, pts)
    ensures Estimate(dist, q, pts) == Number(c)
  {
    EstimateBetween(dist, q, pts, c, c);
  }

  /** Points all at positive distance are separated from the query. */
  lemma {:induction false} ApartSeparated(dist: Metric, q: LonLat, pts: seq<Point>)
    requires forall j :: 0 <= j < |pts| ==> Distance(dist, q, pts[j]) > 0.0
    ensures Separated(dist, q, pts)
    decreases |pts|
  {
    if |pts| > 0 {
      assert forall j :: 1 <= j < |pts| ==> pts[1..][j - 1] == pts[j];
      ApartSeparated(dist, q, pts[1..]);
    }
  }

  /** Off the exact-match path the order of the points is irrelevant. */
  lemma PermutationInvariant(dist: Metric, q: LonLat, pts: seq<Point>, pts': seq<Point>)
    requires multiset(pts) == multiset(pts')
    requires forall j :: 0 <= j < |pts| ==> !Matches(q, pts[j])
    requires Separated(dist, q, pts)
    ensures Separated(dist, q, pts')
    ensures Estimate(dist, q, pts') == Estimate(dist, q, pts)
  {
    SeparatedApart(dist, q, pts);
    forall j | 0 <= j < |pts'|
      ensures !Matches(q, pts'[j]) && Distance(dist, q, pts'[j]) > 0.0
    {
      assert pts'[j] in multiset(pts);
      var k :| 0 <= k < |pts| && pts[k] == pts'[j];
    }
    ApartSeparated(dist, q, pts');
    Sums.SumPermutation(pts, pts', WeightOf(dist, q));
    Sums.SumPermutation(pts, pts', WeightedOf(dist, q));
  }

  /** Two gauges reading 10 and 20 at (0, 0) and (1, 1): a query between them
      that sits on neither gets an estimate strictly between the readings. */
  lemma TwoGauges(dist: Metric)
    requires Separated(dist, LonLat(0.5, 0.5), [Point(LonLat(0.0, 0.0), 10.0), Point(LonLat(1.0, 1.0), 20.0)])
    ensures Estimate(dist, LonLat(0.5, 0.5), [Point(LonLat(0.0, 0.0), 10.0), Point(LonLat(1.0, 1.0), 20.0)]).Number?
    ensures 10.0 < Estimate(dist, LonLat(0.5, 0.5), [Point(LonLat(0.0, 0.0), 10.0), Point(LonLat(1.0, 1.0), 20.0)]).value < 20.0
  {
    var q := LonLat(0.5, 0.5);
    var a := Point(LonLat(0.0, 0.0), 10.0);
    var b := Point(LonLat(1.0, 1.0), 20.0);
    var pts := [a, b];
    assert !Matches(q, pts[0]) && !Matches(q, pts[1]);
    NoMatchIsRatio(dist, q, pts);
    assert pts[1..][1..] == [];
    var wa, wb := 1.0 / Distance(dist, q, a), 1.0 / Distance(dist, q, b);
    assert wa > 0.0 && wb > 0.0;
    var num, den := PonderedSum(dist, q, pts), InvDistSum(dist, q, pts);
    assert den == wa + wb;
    assert num == 10.0 * wa + 20.0 * wb;
    assert num - 10.0 * den == 10.0 * wb;
    assert 20.0 * den - num == 10.0 * wa;
    RatioBetween(num, den, 10.0, 20.0);
  }

  /** `IDWInterpolator`: a snapshot of the points it was built with, answering
      queries with the scan above. */
  datatype IdwInterpolator = IdwInterpolator(points: seq<Point>)
  {
    method Interpolate(dist: Metric, coord: LonLat) returns (r: Prediction)
      requires Separated(dist, coord, points)
      ensures r == Estimate(dist, coord, points)
    {
      r := InvDist(dist, coord, points);
    }
  }
}
