/** The visualisation-selection store: which interpolation layer, which map
    division and which accumulation interval the user has chosen, with one
    pure updater per field. The reactive container around it is not modelled. */
module Viz {

  /** The interpolation layers offered (IDW, Gaussian process). */
  datatype Layer = Idw | Gp

  /** The map divisions offered (administrative regions, neighbourhoods). */
  datatype Shape = Regions | Neighborhoods

  /** The accumulation windows, in hours. */
  const Intervals: seq<nat> := [1, 3, 6, 12, 24, 48, 72, 96, 120]

  /** An accumulation window: one of `Intervals`, by construction. */
  type Interval = i: nat | i in Intervals witness 1

  datatype VizStore = VizStore(selectedLayer: Layer, selectedShape: Shape, selectedInterval: Interval)

  /** The store's value before any selection. */
  const Initial: VizStore := VizStore(Idw, Regions, 1)

  function SelectLayer(v: VizStore, layer: Layer): (r: VizStore)
    ensures r.selectedLayer == layer
    ensures r.selectedShape == v.selectedShape && r.selectedInterval == v.selectedInterval
  {
    v.(selectedLayer := layer)
  }

  function SelectShape(v: VizStore, shape: Shape): (r: VizStore)
    ensures r.selectedShape == shape
    ensures r.selectedLayer == v.selectedLayer && r.selectedInterval == v.selectedInterval
  {
    v.(selectedShape := shape)
  }

  function SelectInterval(v: VizStore, interval: Interval): (r: VizStore)
    ensures r.selectedInterval == interval
    ensures r.selectedLayer == v.selectedLayer && r.selectedShape == v.selectedShape
  {
    v.(selectedInterval := interval)
  }

  /** The initial selection and the fixed, strictly increasing list of windows. */
  lemma InitialAndIntervals()
    ensures Initial.selectedLayer == Idw && Initial.selectedShape == Regions
    ensures Initial.selectedInterval == 1 == Intervals[0]
    ensures |Intervals| == 9 && Intervals[8] == 120
    ensures forall i, j :: 0 <= i < j < |Intervals| ==> Intervals[i] < Intervals[j]
  {
  }

  /** Selecting the same thing twice is selecting it once. */
  lemma SelectorsIdempotent(v: VizStore, layer: Layer, shape: Shape, interval: Interval)
    ensures SelectLayer(SelectLayer(v, layer), layer) == SelectLayer(v, layer)
    ensures SelectShape(SelectShape(v, shape), shape) == SelectShape(v, shape)
    ensures SelectInterval(SelectInterval(v, interval), interval) == SelectInterval(v, interval)
  {
  }

  /** Selections of different fields commute. */
  lemma SelectorsCommute(v: VizStore, layer: Layer, shape: Shape, interval: Interval)
    ensures SelectLayer(SelectShape(v, shape), layer) == SelectShape(SelectLayer(v, layer), shape)
    ensures SelectLayer(SelectInterval(v, interval), layer) == SelectInterval(SelectLayer(v, layer), interval)
    ensures SelectShape(SelectInterval(v, interval), shape) == SelectInterval(SelectShape(v, shape), interval)
  {
  }

  /** One call of `selectLayer`, `selectShape` or `selectInterval`. */
  datatype Selection = ChooseLayer(layer: Layer) | ChooseShape(shape: Shape) | ChooseInterval(interval: Interval)

  function Apply(v: VizStore, s: Selection): VizStore
  {
    match s
    case ChooseLayer(l) => SelectLayer(v, l)
    case ChooseShape(sh) => SelectShape(v, sh)
    case ChooseInterval(i) => SelectInterval(v, i)
  }

  /** The store after the selections, applied in order. */
  function Run(v: VizStore, ss: seq<Selection>): VizStore
    decreases |ss|
  {
    if |ss| == 0 then v else Run(Apply(v, ss[0]), ss[1..])
  }

  /** The most recent interval chosen in ss, or `default` if none was. */
  function LatestInterval(ss: seq<Selection>, default: Interval): Interval
    decreases |ss|
  {
    if |ss| == 0 then default
    else if ss[|ss| - 1].ChooseInterval? then ss[|ss| - 1].interval
    else LatestInterval(ss[..|ss| - 1], default)
  }

  function LatestLayer(ss: seq<Selection>, default: Layer): Layer
    decreases |ss|
  {
    if |ss| == 0 then default
    else if ss[|ss| - 1].ChooseLayer? then ss[|ss| - 1].layer
    else LatestLayer(ss[..|ss| - 1], default)
  }

  function LatestShape(ss: seq<Selection>, default: Shape): Shape
    decreases |ss|
  {
    if |ss| == 0 then default
    else if ss[|ss| - 1].ChooseShape? then ss[|ss| - 1].shape
    else LatestShape(ss[..|ss| - 1], default)
  }

  lemma {:induction false} RunSnoc(v: VizStore, ss: seq<Selection>, s: Selection)
    ensures Run(v, ss + [s]) == Apply(Run(v, ss), s)
    decreases |ss|
  {
    if |ss| > 0 {
      assert (ss + [s])[1..] == ss[1..] + [s];
      RunSnoc(Apply(v, ss[0]), ss[1..], s);
    }
  }

  /** After any sequence of selections each field holds the latest value
      chosen for it, or its earlier value if it was never chosen. */
  lemma {:induction false} RunKeepsLatest(v: VizStore, ss: seq<Selection>)
    ensures Run(v, ss).selectedLayer == LatestLayer(ss, v.selectedLayer)
    ensures Run(v, ss).selectedShape == LatestShape(ss, v.selectedShape)
    ensures Run(v, ss).selectedInterval == LatestInterval(ss, v.selectedInterval)
    decreases |ss|
  {
    if |ss| > 0 {
      var init := ss[..|ss| - 1];
      assert ss == init + [ss[|ss| - 1]];
      RunSnoc(v, init, ss[|ss| - 1]);
      RunKeepsLatest(v, init);
    }
  }
}
