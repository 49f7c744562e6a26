/**
 * The polygon `shade_dominated_region` fills: the frontier points in load order, opened
 * up to the top of the plot above the first point and closed at the top-right corner.
 */
module DominatedRegion {
  import opened Wrappers
  import opened StableSort
  import opened AntichainColumns

  /** Vertex lists `poly_x`, `poly_y`. */
  datatype Polygon = Polygon(xs: seq<real>, ys: seq<real>)

  /** The sort key `p[0]` (the load) of a frontier point `(load, cost)`. */
  function LoadKey(p: (real, real)): Key {
    Key(p.0, 0.0, 0.0)
  }

  function Firsts(ps: seq<(real, real)>): (r: seq<real>)
    ensures |r| == |ps| && forall i :: 0 <= i < |ps| ==> r[i] == ps[i].0
  {
    seq(|ps|, i requires 0 <= i < |ps| => ps[i].0)
  }

  function Seconds(ps: seq<(real, real)>): (r: seq<real>)
    ensures |r| == |ps| && forall i :: 0 <= i < |ps| ==> r[i] == ps[i].1
  {
    seq(|ps|, i requires 0 <= i < |ps| => ps[i].1)
  }

  /**
   * `shade_dominated_region` up to the `ax.fill` call: nothing for an empty frontier,
   * an `IndexError` when the loads are given but the costs are not.
   */
  function ShadePolygon(frontierLoads: seq<real>, frontierCosts: seq<real>, xMax: real, yMax: real)
    : (r: Result<Option<Polygon>, PlotError>)
    ensures frontierLoads == [] <==> r == Ok(None)
    ensures r.Err? <==> frontierLoads != [] && frontierCosts == []
    ensures r.Err? ==> r.error == FrontierIndex
    ensures r.Ok? && r.value.Some? ==>
      var p, n := r.value.value, Min(|frontierLoads|, |frontierCosts|);
      && |p.xs| == n + 2 && |p.ys| == n + 2
      && p.xs[0] == p.xs[1] && p.xs[n + 1] == xMax
      && p.ys[0] == yMax && p.ys[n + 1] == yMax
  {
    if frontierLoads == [] then Ok(None)
    else
      var f := SortBy(LoadKey, Zip(frontierLoads, frontierCosts));
      if f == [] then Err(FrontierIndex)
      else
        var fx, fy := Firsts(f), Seconds(f);
        Ok(Some(Polygon([fx[0]] + fx + [xMax], [yMax] + fy + [yMax])))
  }

  /**
   * The polygon's inner vertices are the frontier points, rearranged into nondecreasing
   * load.
   */
  lemma ShadePolygonVertices(frontierLoads: seq<real>, frontierCosts: seq<real>, xMax: real, yMax: real)
    requires frontierLoads != [] && frontierCosts != []
    ensures var r := ShadePolygon(frontierLoads, frontierCosts, xMax, yMax);
      var n := Min(|frontierLoads|, |frontierCosts|);
      && r.Ok? && r.value.Some?
      && (forall i, j :: 1 <= i < j <= n ==> r.value.value.xs[i] <= r.value.value.xs[j])
      && multiset(Zip(r.value.value.xs[1..n + 1], r.value.value.ys[1..n + 1]))
         == multiset(Zip(frontierLoads, frontierCosts))
  {
    var z := Zip(frontierLoads, frontierCosts);
    var f := SortBy(LoadKey, z);
    SortBySorted(LoadKey, z);
    var p := ShadePolygon(frontierLoads, frontierCosts, xMax, yMax).value.value;
    var n := |f|;
    forall i, j | 1 <= i < j <= n ensures p.xs[i] <= p.xs[j] {
      assert KeyLe(LoadKey(f[i - 1]), LoadKey(f[j - 1]));
    }
    assert Zip(p.xs[1..n + 1], p.ys[1..n + 1]) == f;
  }

  /**
   * For a frontier already in nondecreasing load, as `pareto_2d_min` returns it, the
   * polygon's inner vertices are the frontier points in the given order.
   */
  lemma ShadePolygonOfSorted(frontierLoads: seq<real>, frontierCosts: seq<real>, xMax: real, yMax: real)
    requires frontierLoads != [] && |frontierLoads| == |frontierCosts|
    requires forall i, j :: 0 <= i < j < |frontierLoads| ==> frontierLoads[i] <= frontierLoads[j]
    ensures ShadePolygon(frontierLoads, frontierCosts, xMax, yMax)
         == Ok(Some(Polygon([frontierLoads[0]] + frontierLoads + [xMax], [yMax] + frontierCosts + [yMax])))
  {
    var z := Zip(frontierLoads, frontierCosts);
    forall i, j | 0 <= i < j < |z| ensures KeyLe(LoadKey(z[i]), LoadKey(z[j])) {
      assert frontierLoads[i] <= frontierLoads[j];
    }
    SortByOfSorted(LoadKey, z);
    assert Firsts(z) == frontierLoads;
    assert Seconds(z) == frontierCosts;
  }
}
