/** The IDW layer's copy of the estimator, `invDist(lat1, long1, data)`,
    working on `[latitude, longitude, value]` rows instead of `Point`s. */
module IdwLayer {
  import opened Wrappers
  import opened Interpolator
  import RainMapIdw
  import Sums

  /** One `[lat, lon, value]` row of the layer's data. */
  datatype Row = Row(lat: real, lon: real, value: real)

  /** The row as a rain-map point: `[la, lo, v]` becomes `{position: [lo, la], value: v}`. */
  function ToPoint(row: Row): Point
  {
    Point(LonLat(row.lon, row.lat), row.value)
  }

  function ToPoints(data: seq<Row>): (pts: seq<Point>)
    ensures |pts| == |data|
    ensures forall i :: 0 <= i < |data| ==> pts[i] == ToPoint(data[i])
    decreases |data|
  {
    if |data| == 0 then [] else [ToPoint(data[0])] + ToPoints(data[1..])
  }

  /** The query `(lat1, long1)` as a rain-map coordinate. */
  function Query(lat1: real, long1: real): LonLat
  {
    LonLat(long1, lat1)
  }

  /** The scan over rows never divides by zero. */
  predicate Separated(dist: Metric, lat1: real, long1: real, data: seq<Row>)
  {
    RainMapIdw.Separated(dist, Query(lat1, long1), ToPoints(data))
  }

  /** The source's loop as a fold: `ponderedSum` and `invDistSum` are the
      accumulators, an exact match returns at once. */
  function Scan(dist: Metric, lat1: real, long1: real, data: seq<Row>,
                ponderedSum: real, invDistSum: real): Prediction
    requires Separated(dist, lat1, long1, data)
    decreases |data|
  {
    if |data| == 0 then Divide(ponderedSum, invDistSum)
    else
      var row := data[0];
      if lat1 == row.lat && long1 == row.lon then Number(row.value)
      else
        assert ToPoints(data)[0] == ToPoint(row);
        assert ToPoints(data)[1..] == ToPoints(data[1..]);
        var d := dist(lat1, row.lat, long1, row.lon);
        Scan(dist, lat1, long1, data[1..], ponderedSum + (row.value * 1.0) / d, invDistSum + 1.0 / d)
  }

  /** `invDist(lat1, long1, data)`: the scan from empty sums. NaN exactly
      when there is no data. */
  function InvDist(dist: Metric, lat1: real, long1: real, data: seq<Row>): (r: Prediction)
    requires Separated(dist, lat1, long1, data)
    ensures r.NotANumber? <==> |data| == 0
  {
    ScanIsEstimate(dist, lat1, long1, data, 0.0, 0.0);
    var r := Scan(dist, lat1, long1, data, 0.0, 0.0);
    assert r == RainMapIdw.Estimate(dist, Query(lat1, long1), ToPoints(data));
    r
  }

  /** The fold from any accumulators: the first matching row's value, or the
      accumulators plus the sums over the remaining rows, divided. */
  lemma {:induction false} ScanIsEstimate(dist: Metric, lat1: real, long1: real, data: seq<Row>,
                                          a: real, b: real)
    requires Separated(dist, lat1, long1, data)
    ensures
      var q := Query(lat1, long1);
      var pts := ToPoints(data);
      Scan(dist, lat1, long1, data, a, b) ==
        match RainMapIdw.FirstMatch(q, pts)
        case Some(i) => Number(data[i].value)
        case None => Divide(a + RainMapIdw.PonderedSum(dist, q, pts), b + RainMapIdw.InvDistSum(dist, q, pts))
    decreases |data|
  {
    var q := Query(lat1, long1);
    var pts := ToPoints(data);
    if |data| > 0 {
      var row := data[0];
      assert pts[0] == ToPoint(row);
      assert pts[1..] == ToPoints(data[1..]);
      if !(lat1 == row.lat && long1 == row.lon) {
        var d := dist(lat1, row.lat, long1, row.lon);
        ScanIsEstimate(dist, lat1, long1, data[1..], a + (row.value * 1.0) / d, b + 1.0 / d);
        assert RainMapIdw.PonderedSum(dist, q, pts)
          == row.value / d + RainMapIdw.PonderedSum(dist, q, pts[1..]);
        assert RainMapIdw.InvDistSum(dist, q, pts)
          == 1.0 / d + RainMapIdw.InvDistSum(dist, q, pts[1..]);
      }
    }
  }

  /** The two copies agree: the layer's `invDist(lat, lon, rows)` is the rain
      map's `invDist([lon, lat], points)` on the re-encoded rows. */
  lemma InvDistAgrees(dist: Metric, lat1: real, long1: real, data: seq<Row>)
    requires Separated(dist, lat1, long1, data)
    ensures InvDist(dist, lat1, long1, data)
         == RainMapIdw.Estimate(dist, Query(lat1, long1), ToPoints(data))
  {
    ScanIsEstimate(dist, lat1, long1, data, 0.0, 0.0);
  }

  /** The source's exact-equality test on a row. */
  predicate RowMatches(lat1: real, long1: real, row: Row)
  {
    lat1 == row.lat && long1 == row.lon
  }

  lemma RowMatchesAgree(lat1: real, long1: real, data: seq<Row>)
    ensures forall j :: 0 <= j < |data| ==>
      (RowMatches(lat1, long1, data[j]) <==> RainMapIdw.Matches(Query(lat1, long1), ToPoints(data)[j]))
  {
  }

  /** 1/d and value/d for a row, d = distance(lat1, lat2, long1, long2). */
  function RowWeightOf(dist: Metric, lat1: real, long1: real): Row -> real
  {
    row => RainMapIdw.Weight(dist, Query(lat1, long1), ToPoint(row))
  }

  function RowWeightedOf(dist: Metric, lat1: real, long1: real): Row -> real
  {
    row => RainMapIdw.Weighted(dist, Query(lat1, long1), ToPoint(row))
  }

  /** The sums over the rows are the sums over the re-encoded points. */
  lemma {:induction false} RowSumsAgree(dist: Metric, lat1: real, long1: real, data: seq<Row>)
    ensures Sums.Sum(data, RowWeightOf(dist, lat1, long1))
         == RainMapIdw.InvDistSum(dist, Query(lat1, long1), ToPoints(data))
    ensures Sums.Sum(data, RowWeightedOf(dist, lat1, long1))
         == RainMapIdw.PonderedSum(dist, Query(lat1, long1), ToPoints(data))
    decreases |data|
  {
    if |data| > 0 {
      assert ToPoints(data)[1..] == ToPoints(data[1..]);
      RowSumsAgree(dist, lat1, long1, data[1..]);
    }
  }

  /** The first row exactly on the query decides the result. */
  lemma FirstRowWins(dist: Metric, lat1: real, long1: real, data: seq<Row>, i: nat)
    requires i < |data| && RowMatches(lat1, long1, data[i])
    requires forall j :: 0 <= j < i ==> !RowMatches(lat1, long1, data[j])
    requires Separated(dist, lat1, long1, data)
    ensures InvDist(dist, lat1, long1, data) == Number(data[i].value)
  {
    InvDistAgrees(dist, lat1, long1, data);
    RowMatchesAgree(lat1, long1, data);
    var k := RainMapIdw.FirstMatch(Query(lat1, long1), ToPoints(data));
    assert k.Some?;
    assert k.value == i;
  }

  /** With no matching row the result is Σ(value/d) / Σ(1/d) over the rows. */
  lemma NoRowMatchIsRatio(dist: Metric, lat1: real, long1: real, data: seq<Row>)
    requires |data| > 0
    requires forall j :: 0 <= j < |data| ==> !RowMatches(lat1, long1, data[j])
    requires Separated(dist, lat1, long1, data)
    ensures Sums.Sum(data, RowWeightOf(dist, lat1, long1)) > 0.0
    ensures InvDist(dist, lat1, long1, data)
         == Number(Sums.Sum(data, RowWeightedOf(dist, lat1, long1)) / Sums.Sum(data, RowWeightOf(dist, lat1, long1)))
  {
    InvDistAgrees(dist, lat1, long1, data);
    RowMatchesAgree(lat1, long1, data);
    RowSumsAgree(dist, lat1, long1, data);
    RainMapIdw.NoMatchIsRatio(dist, Query(lat1, long1), ToPoints(data));
  }

  /** The result on non-empty data lies within any bounds that hold for all
      third entries, in particular between their minimum and maximum. */
  lemma RowsBounded(dist: Metric, lat1: real, long1: real, data: seq<Row>, lo: real, hi: real)
    requires |data| > 0
    requires forall j :: 0 <= j < |data| ==> lo <= data[j].value <= hi
    requires Separated(dist, lat1, long1, data)
    ensures InvDist(dist, lat1, long1, data).Number?
    ensures lo <= InvDist(dist, lat1, long1, data).value <= hi
  {
    InvDistAgrees(dist, lat1, long1, data);
    RainMapIdw.EstimateBetween(dist, Query(lat1, long1), ToPoints(data), lo, hi);
  }

  /** A single row decides every query. */
  lemma SingleRow(dist: Metric, lat1: real, long1: real, row: Row)
    requires Separated(dist, lat1, long1, [row])
    ensures InvDist(dist, lat1, long1, [row]) == Number(row.value)
  {
    RowsBounded(dist, lat1, long1, [row], row.value, row.value);
  }

  /** Off the exact-match path, permuting the rows changes nothing. */
  lemma RowPermutation(dist: Metric, lat1: real, long1: real, data: seq<Row>, data': seq<Row>)
    requires multiset(data) == multiset(data')
    requires forall j :: 0 <= j < |data| ==> !RowMatches(lat1, long1, data[j])
    requires Separated(dist, lat1, long1, data)
    ensures Separated(dist, lat1, long1, data')
    ensures InvDist(dist, lat1, long1, data') == InvDist(dist, lat1, long1, data)
  {
    var q := Query(lat1, long1);
    RowMatchesAgree(lat1, long1, data);
    RainMapIdw.SeparatedApart(dist, q, ToPoints(data));
    forall j | 0 <= j < |data'|
      ensures !RowMatches(lat1, long1, data'[j])
      ensures RainMapIdw.Distance(dist, q, ToPoints(data')[j]) > 0.0
    {
      assert data'[j] in multiset(data);
      var k :| 0 <= k < |data| && data[k] == data'[j];
      assert ToPoints(data)[k] == ToPoints(data')[j];
    }
    RainMapIdw.ApartSeparated(dist, q, ToPoints(data'));
    RowMatchesAgree(lat1, long1, data');
    if |data| == 0 {
      assert |data'| == |multiset(data')| == 0;
    } else {
      assert |data'| == |multiset(data')| > 0;
      Sums.SumPermutation(data, data', RowWeightOf(dist, lat1, long1));
      Sums.SumPermutation(data, data', RowWeightedOf(dist, lat1, long1));
      NoRowMatchIsRatio(dist, lat1, long1, data);
      NoRowMatchIsRatio(dist, lat1, long1, data');
    }
  }
}
