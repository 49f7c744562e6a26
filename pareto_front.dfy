/**
 * The 2D Pareto frontier for minimisation in (logistics load, total cost) that the
 * plotting script draws as the boundary of the dominated region.
 *
 * The script enumerates the points, sorts them by (load, cost) with Python's stable
 * sort, and then keeps, in sorted order, each point whose cost is strictly below the
 * best cost seen so far (initially +infinity, here `None`).
 */
module ParetoFront {
  import opened Wrappers
  import opened StableSort

  /** A point of the projection, remembering its position in the input lists. */
  datatype Point = Point(idx: nat, load: real, cost: real)

  /** Number of points `zip(loads, costs)` yields. */
  function Count(loads: seq<real>, costs: seq<real>): (n: nat)
    ensures n <= |loads| && n <= |costs|
    ensures n == |loads| || n == |costs|
  {
    Min(|loads|, |costs|)
  }

  /** `list(enumerate(zip(loads, costs)))` */
  function Enumerate(loads: seq<real>, costs: seq<real>): seq<Point> {
    seq(Count(loads, costs), i requires 0 <= i < Count(loads, costs) => Point(i, loads[i], costs[i]))
  }

  /** The sort key `(load, cost)`. */
  function PointKey(p: Point): Key {
    Key(p.load, p.cost, 0.0)
  }

  function PointIdx(p: Point): int {
    p.idx
  }

  /** Point `j` is no worse than point `k` in both coordinates and better in one. */
  ghost predicate StrictlyDominates(loads: seq<real>, costs: seq<real>, j: nat, k: nat)
    requires j < Count(loads, costs) && k < Count(loads, costs)
  {
    loads[j] <= loads[k] && costs[j] <= costs[k] && (loads[j] < loads[k] || costs[j] < costs[k])
  }

  /**
   * Point `j` makes point `k` redundant on the frontier: `j` strictly dominates `k`, or
   * the two coincide and `j` comes first in the input.
   */
  ghost predicate Beats(loads: seq<real>, costs: seq<real>, j: nat, k: nat)
    requires j < Count(loads, costs) && k < Count(loads, costs)
  {
    StrictlyDominates(loads, costs, j, k) || (loads[j] == loads[k] && costs[j] == costs[k] && j < k)
  }

  ghost predicate Unbeaten(loads: seq<real>, costs: seq<real>, k: nat)
    requires k < Count(loads, costs)
  {
    forall j :: 0 <= j < Count(loads, costs) ==> !Beats(loads, costs, j, k)
  }

  /** Every entry of `frontier` indexes both input lists. */
  predicate IndicesValid(loads: seq<real>, costs: seq<real>, frontier: seq<nat>) {
    forall m :: 0 <= m < |frontier| ==> frontier[m] < |loads| && frontier[m] < |costs|
  }

  /** `frontier` lists valid indices and holds exactly the unbeaten ones. */
  ghost predicate KeepsExactlyUnbeaten(loads: seq<real>, costs: seq<real>, frontier: seq<nat>) {
    IndicesValid(loads, costs, frontier)
    && (forall k :: 0 <= k < Count(loads, costs) ==> (k in frontier <==> Unbeaten(loads, costs, k)))
  }

  /** Along `frontier` the loads never decrease and the costs strictly decrease. */
  ghost predicate Staircase(loads: seq<real>, costs: seq<real>, frontier: seq<nat>)
    requires IndicesValid(loads, costs, frontier)
  {
    forall m1, m2 :: 0 <= m1 < m2 < |frontier| ==>
      loads[frontier[m1]] <= loads[frontier[m2]] && costs[frontier[m2]] < costs[frontier[m1]]
  }

  /** Every input point is a point of `frontier` or is weakly dominated by one. */
  ghost predicate CoversAll(loads: seq<real>, costs: seq<real>, frontier: seq<nat>)
    requires IndicesValid(loads, costs, frontier)
  {
    forall k :: 0 <= k < Count(loads, costs) ==>
      exists m :: 0 <= m < |frontier| && loads[frontier[m]] <= loads[k] && costs[frontier[m]] <= costs[k]
  }

  /**
   * What `pareto_2d_min` returns: exactly the unbeaten indices, in increasing load and
   * strictly decreasing cost, covering every input point; empty only for empty input.
   */
  ghost predicate IsParetoFrontier(loads: seq<real>, costs: seq<real>, frontier: seq<nat>) {
    KeepsExactlyUnbeaten(loads, costs, frontier)
    && Staircase(loads, costs, frontier)
    && CoversAll(loads, costs, frontier)
    && (|frontier| == 0 <==> Count(loads, costs) == 0)
  }

  /** `pareto_2d_min(loads, costs)` */
  method Pareto2DMin(loads: seq<real>, costs: seq<real>) returns (frontier: seq<nat>)
    ensures IsParetoFrontier(loads, costs, frontier)
  {
    var pts := SortBy(PointKey, Enumerate(loads, costs));
    frontier := [];
    var best: Option<real> := None;
    // Positions in `pts` of the kept points, and for every visited position the kept
    // point that covers it.
    ghost var pos: seq<nat> := [];
    ghost var cover: seq<nat> := [];
    var i := 0;
    while i < |pts|
      invariant i <= |pts|
      invariant ScanInv(pts, i, frontier, best, pos, cover)
    {
      var c := pts[i].cost;
      if best.None? || c < best.value {
        ScanKeep(pts, i, frontier, best, pos, cover);
        frontier, best := frontier + [pts[i].idx], Some(c);
        pos, cover := pos + [i], cover + [|pos|];
      } else {
        ScanDrop(pts, i, frontier, best, pos, cover);
        cover := cover + [|pos| - 1];
      }
      i := i + 1;
    }
    ScanResult(loads, costs, pts, best, pos, cover, frontier);
  }

  /**
   * The loop of `Pareto2DMin` after visiting the first `i` sorted points: `frontier` holds
   * the input indices of the visited cost records, found at positions `pos`; `best` is the
   * lowest visited cost, that of the last record; `cover[p]` is the record covering position `p`.
   */
  ghost predicate ScanInv(pts: seq<Point>, i: nat, frontier: seq<nat>, best: Option<real>, pos: seq<nat>, cover: seq<nat>) {
    i <= |pts| && |pos| == |frontier| && |cover| == i
    && (forall m {:trigger pos[m]} {:trigger frontier[m]} :: 0 <= m < |pos| ==> pos[m] < i && frontier[m] == pts[pos[m]].idx && IsRecord(pts, pos[m]))
    && (forall m1, m2 :: 0 <= m1 < m2 < |pos| ==> pos[m1] < pos[m2])
    && (best.None? <==> i == 0)
    && (best.Some? ==> |pos| > 0 && best.value == pts[pos[|pos| - 1]].cost)
    && (best.Some? ==> forall q :: 0 <= q < i ==> best.value <= pts[q].cost)
    && (forall p {:trigger cover[p]} :: 0 <= p < i ==>
          cover[p] < |pos| && pos[cover[p]] <= p && pts[pos[cover[p]]].cost <= pts[p].cost)
  }

  /** An iteration that keeps the point: its cost is below every cost visited before it. */
  lemma ScanKeep(pts: seq<Point>, i: nat, frontier: seq<nat>, best: Option<real>, pos: seq<nat>, cover: seq<nat>)
    requires ScanInv(pts, i, frontier, best, pos, cover) && i < |pts|
    requires best.None? || pts[i].cost < best.value
    ensures ScanInv(pts, i + 1, frontier + [pts[i].idx], Some(pts[i].cost), pos + [i], cover + [|pos|])
  {
    assert IsRecord(pts, i);
  }

  /** An iteration that drops the point: the last kept point covers it. */
  lemma ScanDrop(pts: seq<Point>, i: nat, frontier: seq<nat>, best: Option<real>, pos: seq<nat>, cover: seq<nat>)
    requires ScanInv(pts, i, frontier, best, pos, cover) && i < |pts|
    requires !(best.None? || pts[i].cost < best.value)
    ensures ScanInv(pts, i + 1, frontier, best, pos, cover + [|pos| - 1])
  {
  }

  /** Position `p` of the sorted list holds a strictly lower cost than every earlier position. */
  ghost predicate IsRecord(pts: seq<Point>, p: nat)
    requires p < |pts|
  {
    forall q :: 0 <= q < p ==> pts[p].cost < pts[q].cost
  }

  /** `a` precedes `b` in the stable (load, cost) order of the enumerated points. */
  predicate Precedes(a: Point, b: Point) {
    KeyLt(PointKey(a), PointKey(b)) || (PointKey(a) == PointKey(b) && a.idx < b.idx)
  }

  /** `pts` is the enumeration of the input, sorted strictly by `Precedes`. */
  ghost predicate SortedView(loads: seq<real>, costs: seq<real>, pts: seq<Point>) {
    |pts| == Count(loads, costs)
    && (forall p :: 0 <= p < |pts| ==>
          pts[p].idx < Count(loads, costs) && pts[p].load == loads[pts[p].idx] && pts[p].cost == costs[pts[p].idx])
    && (forall k :: 0 <= k < Count(loads, costs) ==> Enumerate(loads, costs)[k] in pts)
    && (forall p, q :: 0 <= p < q < |pts| ==> Precedes(pts[p], pts[q]))
  }

  lemma SortedEnumeration(loads: seq<real>, costs: seq<real>)
    ensures SortedView(loads, costs, SortBy(PointKey, Enumerate(loads, costs)))
  {
    var e := Enumerate(loads, costs);
    var pts := SortBy(PointKey, e);
    SortBySorted(PointKey, e);
    SortByStable(PointKey, PointIdx, e);
    forall p, q | 0 <= p < q < |pts| ensures Precedes(pts[p], pts[q]) {
      assert KeyLe(PointKey(pts[p]), PointKey(pts[q]));
    }
    forall p | 0 <= p < |pts|
      ensures pts[p].idx < Count(loads, costs) && pts[p].load == loads[pts[p].idx] && pts[p].cost == costs[pts[p].idx]
    {
      assert pts[p] in multiset(e);
    }
    forall k | 0 <= k < Count(loads, costs) ensures e[k] in pts {
      assert e[k] in multiset(pts);
    }
  }

  /** In the sorted view, being a cost record is the same as being unbeaten in the input. */
  lemma RecordIffUnbeaten(loads: seq<real>, costs: seq<real>, pts: seq<Point>, p: nat)
    requires SortedView(loads, costs, pts) && p < |pts|
    ensures IsRecord(pts, p) <==> Unbeaten(loads, costs, pts[p].idx)
  {
    var k := pts[p].idx;
    if !IsRecord(pts, p) {
      var q :| 0 <= q < p && pts[q].cost <= pts[p].cost;
      assert Precedes(pts[q], pts[p]);
      assert Beats(loads, costs, pts[q].idx, k);
    }
    if !Unbeaten(loads, costs, k) {
      var j :| 0 <= j < Count(loads, costs) && Beats(loads, costs, j, k);
      assert Enumerate(loads, costs)[j] in pts;
      var q :| 0 <= q < |pts| && pts[q] == Point(j, loads[j], costs[j]);
      assert q < p;
    }
  }

  /** The loop's outcome on the sorted enumeration gives the postconditions of `Pareto2DMin`. */
  lemma ScanResult(loads: seq<real>, costs: seq<real>, pts: seq<Point>, best: Option<real>, pos: seq<nat>, cover: seq<nat>, frontier: seq<nat>)
    requires pts == SortBy(PointKey, Enumerate(loads, costs))
    requires ScanInv(pts, |pts|, frontier, best, pos, cover)
    ensures IsParetoFrontier(loads, costs, frontier)
  {
    SortedEnumeration(loads, costs);
    FrontierMembers(loads, costs, pts, best, pos, cover, frontier);
    FrontierCovers(loads, costs, pts, best, pos, cover, frontier);
    FrontierIsStaircase(loads, costs, pts, best, pos, cover, frontier);
    if |frontier| > 0 {
      assert pos[0] < |pts|;
    }
  }

  lemma FrontierMembers(loads: seq<real>, costs: seq<real>, pts: seq<Point>, best: Option<real>, pos: seq<nat>, cover: seq<nat>, frontier: seq<nat>)
    requires SortedView(loads, costs, pts) && ScanInv(pts, |pts|, frontier, best, pos, cover)
    ensures KeepsExactlyUnbeaten(loads, costs, frontier)
  {
    forall k | 0 <= k < Count(loads, costs) ensures k in frontier <==> Unbeaten(loads, costs, k) {
      assert Enumerate(loads, costs)[k] in pts;
      var p :| 0 <= p < |pts| && pts[p] == Point(k, loads[k], costs[k]);
      RecordIffUnbeaten(loads, costs, pts, p);
      if k in frontier {
        var m :| 0 <= m < |frontier| && frontier[m] == k;
        assert pos[m] == p;
        assert IsRecord(pts, p);
      }
      if IsRecord(pts, p) {
        var m := cover[p];
        assert pos[m] == p;
        assert frontier[m] == k;
      }
    }
  }

  lemma FrontierCovers(loads: seq<real>, costs: seq<real>, pts: seq<Point>, best: Option<real>, pos: seq<nat>, cover: seq<nat>, frontier: seq<nat>)
    requires SortedView(loads, costs, pts) && ScanInv(pts, |pts|, frontier, best, pos, cover)
    ensures IndicesValid(loads, costs, frontier)
    ensures CoversAll(loads, costs, frontier)
  {
    forall k | 0 <= k < Count(loads, costs)
      ensures exists m :: 0 <= m < |frontier| && loads[frontier[m]] <= loads[k] && costs[frontier[m]] <= costs[k]
    {
      assert Enumerate(loads, costs)[k] in pts;
      var p :| 0 <= p < |pts| && pts[p] == Point(k, loads[k], costs[k]);
      var m := cover[p];
      if pos[m] < p {
        assert Precedes(pts[pos[m]], pts[p]);
      }
      assert loads[frontier[m]] <= loads[k] && costs[frontier[m]] <= costs[k];
    }
  }

  lemma FrontierIsStaircase(loads: seq<real>, costs: seq<real>, pts: seq<Point>, best: Option<real>, pos: seq<nat>, cover: seq<nat>, frontier: seq<nat>)
    requires SortedView(loads, costs, pts) && ScanInv(pts, |pts|, frontier, best, pos, cover)
    ensures IndicesValid(loads, costs, frontier)
    ensures Staircase(loads, costs, frontier)
  {
    forall m1, m2 | 0 <= m1 < m2 < |frontier|
      ensures loads[frontier[m1]] <= loads[frontier[m2]] && costs[frontier[m2]] < costs[frontier[m1]]
    {
      assert Precedes(pts[pos[m1]], pts[pos[m2]]);
      assert IsRecord(pts, pos[m2]);
    }
  }
}
