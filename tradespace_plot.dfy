/**
 * What `main` of the plotting script decides before it draws: the points to plot, which
 * of them carry labels, the axis bounds the shading uses, and, when shading is asked for,
 * the 2D Pareto frontier and the polygon filled above it. Drawing itself is not modelled.
 */
module TradespacePlot {
  import opened Wrappers
  import opened ParetoFront
  import opened AntichainColumns
  import opened LabelSelection
  import opened DominatedRegion

  /** The `--shade` choices. */
  datatype ShadeMode = NoShade | Projection | Slice

  /** The legend entry of the shaded region. */
  datatype ShadeLabel = ProjectionLabel | SliceLabel(timeMax: real)

  datatype Shading = Shading(frontier: seq<nat>, polygon: Polygon, legend: ShadeLabel)

  /** Everything the script puts on the figure that is not styling. */
  datatype Figure = Figure(points: Columns, labels: seq<int>, xRight: real, yTop: real, shading: Option<Shading>)

  /** Python's `max` of a nonempty list. */
  function MaxOf(s: seq<real>): (m: real)
    requires s != []
    ensures m in s && forall i :: 0 <= i < |s| ==> s[i] <= m
  {
    if |s| == 1 then s[0]
    else
      var rest := MaxOf(s[1..]);
      if s[0] >= rest then s[0] else rest
  }

  /** `[s[i] for i in idx]` */
  function Select(s: seq<real>, idx: seq<nat>): (r: seq<real>)
    requires forall m :: 0 <= m < |idx| ==> idx[m] < |s|
    ensures |r| == |idx| && forall m :: 0 <= m < |idx| ==> r[m] == s[idx[m]]
  {
    seq(|idx|, m requires 0 <= m < |idx| => s[idx[m]])
  }

  /**
   * The points `main` plots: the load antichain, rejected when empty, then the optional
   * response-time slice.
   */
  function Prepare(pts: seq<seq<real>>, timeMax: Option<real>): (r: Result<Columns, PlotError>)
    ensures pts == [] ==> r == Err(EmptyAntichain)
    ensures r.Ok? ==> |r.value.loads| == |r.value.costs| == |r.value.times| > 0
    ensures r.Ok? && timeMax.Some? ==> forall i :: 0 <= i < |r.value.times| ==> r.value.times[i] <= timeMax.value
    ensures r.Ok? && timeMax.None? ==> r == LoadAntichain(pts)
    ensures r.Ok? && timeMax.Some? ==>
      LoadAntichain(pts).Ok? && r == TimeSlice(LoadAntichain(pts).value, timeMax.value)
    ensures LoadAntichain(pts).Err? ==> r == LoadAntichain(pts)
    ensures pts != [] && LoadAntichain(pts).Ok? && timeMax.None? ==> r == LoadAntichain(pts)
    ensures pts != [] && LoadAntichain(pts).Ok? && timeMax.Some? ==>
      r == TimeSlice(LoadAntichain(pts).value, timeMax.value)
  {
    match LoadAntichain(pts)
    case Err(e) => Err(e)
    case Ok(c) =>
      LoadAntichainLengths(pts);
      if c.loads == [] then Err(EmptyAntichain)
      else if timeMax.None? then Ok(c)
      else
        var r := TimeSlice(c, timeMax.value);
        if r.Ok? then
          assert forall i :: 0 <= i < |r.value.times| ==> r.value.times[i] == Zip3(r.value)[i].time;
          r
        else r
  }

  /** `x_right` and `y_top`: 5% beyond the largest load and cost. */
  function Bound(s: seq<real>): real
    requires s != []
  {
    MaxOf(s) * 1.05
  }

  /** The shading `main` asks for with the given mode, once the slice check has passed. */
  ghost predicate ShadedAs(c: Columns, timeMax: Option<real>, shade: ShadeMode, xRight: real, yTop: real, s: Shading)
    requires |c.loads| == |c.costs|
  {
    && IsParetoFrontier(c.loads, c.costs, s.frontier)
    && IndicesValid(c.loads, c.costs, s.frontier)
    && s.frontier != []
    && s.polygon == Polygon([c.loads[s.frontier[0]]] + Select(c.loads, s.frontier) + [xRight],
                            [yTop] + Select(c.costs, s.frontier) + [yTop])
    && s.legend == (if shade == Projection || timeMax.None? then ProjectionLabel else SliceLabel(timeMax.value))
  }

  /** The figure `main` draws for the plotted columns `c`. */
  ghost predicate DrawnAs(c: Columns, timeMax: Option<real>, shade: ShadeMode, labelMax: int, fig: Figure)
    requires |c.loads| == |c.costs| > 0
  {
    && fig.points == c
    && fig.labels == LabelIndices(|c.loads|, labelMax)
    && fig.xRight == Bound(c.loads) && fig.yTop == Bound(c.costs)
    && (fig.shading.None? <==> shade == NoShade)
    && (fig.shading.Some? ==> ShadedAs(c, timeMax, shade, fig.xRight, fig.yTop, fig.shading.value))
  }

  /**
   * `main` up to drawing, with the label choice corrected: the errors in the order the
   * script raises them, otherwise the figure.
   */
  method Plan(pts: seq<seq<real>>, timeMax: Option<real>, shade: ShadeMode, labelMax: int)
    returns (r: Result<Figure, PlotError>)
    ensures Prepare(pts, timeMax).Err? ==> r == Err(Prepare(pts, timeMax).error)
    ensures Prepare(pts, timeMax).Ok? && shade == Slice && timeMax.None? ==> r == Err(SliceNeedsTimeMax)
    ensures Prepare(pts, timeMax).Ok? && !(shade == Slice && timeMax.None?) ==>
      r.Ok? && DrawnAs(Prepare(pts, timeMax).value, timeMax, shade, labelMax, r.value)
  {
    var prep := Prepare(pts, timeMax);
    if prep.Err? {
      return Err(prep.error);
    }
    var c := prep.value;
    var labels := LabelIndices(|c.loads|, labelMax);
    var xRight, yTop := Bound(c.loads), Bound(c.costs);
    var shading: Option<Shading> := None;
    if shade != NoShade {
      if shade == Slice && timeMax.None? {
        return Err(SliceNeedsTimeMax);
      }
      var front := Pareto2DMin(c.loads, c.costs);
      var fl, fc := Select(c.loads, front), Select(c.costs, front);
      ShadePolygonOfSorted(fl, fc, xRight, yTop);
      var poly := ShadePolygon(fl, fc, xRight, yTop).value.value;
      var legend := if shade == Projection then ProjectionLabel else SliceLabel(timeMax.value);
      shading := Some(Shading(front, poly, legend));
    }
    return Ok(Figure(c, labels, xRight, yTop, shading));
  }
}
