/** The shared shapes of the interpolation core: coordinates, sample points,
    the estimator's result and the abstract great-circle distance. */
module Interpolator {

  /** A coordinate as the source's `[longitude, latitude]` pair, in degrees. */
  datatype LonLat = LonLat(lon: real, lat: real)

  /** One observation: a gauge position and its accumulated rainfall. */
  datatype Point = Point(position: LonLat, value: real)

  /** What an estimator returns: a number, or NaN. The only non-finite value
      the model can reach is NaN from 0/0 on an empty point list. */
  datatype Prediction = Number(value: real) | NotANumber

  /** The Haversine distance in kilometres, taken as a parameter with the
      source's argument order `(lat1, lat2, lon1, lon2)`. Its trigonometric
      body is floating point and is not modelled. */
  type Metric = (real, real, real, real) -> real

  /** The one assumption about the distance: it is positive whenever the two
      coordinates differ. The floating-point original does not guarantee it. */
  ghost predicate PositiveOffDiagonal(dist: Metric)
  {
    forall lat1, lat2, lon1, lon2 ::
      (lat1 != lat2 || lon1 != lon2) ==> dist(lat1, lat2, lon1, lon2) > 0.0
  }

  /** The estimator's final division, with 0/0 read as NaN. */
  function Divide(num: real, den: real): (r: Prediction)
    ensures r.NotANumber? <==> den == 0.0
    ensures r.Number? ==> r.value * den == num
  {
    if den == 0.0 then NotANumber else Number(num / den)
  }
}
