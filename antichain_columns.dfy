/**
 * The columns the plotting script draws: the solver's minimal resource tuples
 * `(cost, load, time)` sorted by `(load, cost, time)` and projected into three lists
 * (`load_antichain`), and the optional response-time slice taken in `main`.
 *
 * The tuples arrive as the elements of a `frozenset` whose iteration order is not
 * specified; the model takes that order as its input sequence.
 */
module AntichainColumns {
  import opened Wrappers
  import opened StableSort

  /** What the script raises; each maps to one Python exception site. */
  datatype PlotError =
    | CoordinateMissing    // IndexError: a tuple lacks a coordinate the script reads
    | EmptyAntichain       // "No Pareto points found (empty antichain)."
    | EmptySlice           // "No points remain after filtering ..."
    | SliceNeedsTimeMax    // "--shade slice requires --time-max ..."
    | ZeroDivision         // ZeroDivisionError in the label step
    | FrontierIndex        // IndexError: `fx[0]` of an empty frontier

  /** The three plotted lists. */
  datatype Columns = Columns(loads: seq<real>, costs: seq<real>, times: seq<real>)

  /** One point of the plot. */
  datatype Sample = Sample(load: real, cost: real, time: real)

  /** Every tuple has at least `k` coordinates. */
  predicate AllHave(pts: seq<seq<real>>, k: nat) {
    forall i :: 0 <= i < |pts| ==> k <= |pts[i]|
  }

  /**
   * The sort key `(p[1], p[0], p[2] if len(p) > 2 else 0.0)`. Tuples with fewer than two
   * coordinates never reach the sort (their key raises first), so their key is immaterial.
   */
  function AntichainKey(p: seq<real>): Key {
    if |p| < 2 then Key(0.0, 0.0, 0.0)
    else Key(p[1], p[0], if |p| > 2 then p[2] else 0.0)
  }

  /** `[float(p[k]) for p in pts]` */
  function Coordinate(pts: seq<seq<real>>, k: nat): (r: seq<real>)
    requires AllHave(pts, k + 1)
    ensures |r| == |pts| && forall i :: 0 <= i < |pts| ==> r[i] == pts[i][k]
  {
    seq(|pts|, i requires 0 <= i < |pts| => pts[i][k])
  }

  function Zeros(n: nat): (r: seq<real>)
    ensures |r| == n && forall i :: 0 <= i < n ==> r[i] == 0.0
  {
    seq(n, _ => 0.0)
  }

  /** `load_antichain` after the file has been read and evaluated. */
  function LoadAntichain(pts: seq<seq<real>>): Result<Columns, PlotError> {
    if pts == [] then Ok(Columns([], [], []))
    else if !AllHave(pts, 2) then Err(CoordinateMissing)
    else
      var s := SortBy(AntichainKey, pts);
      SortKeepsLengths(pts, 2);
      if |s[0]| >= 3 then
        if !AllHave(s, 3) then Err(CoordinateMissing)
        else Ok(Columns(Coordinate(s, 1), Coordinate(s, 0), Coordinate(s, 2)))
      else Ok(Columns(Coordinate(s, 1), Coordinate(s, 0), Zeros(|s|)))
  }

  /** Sorting does not change which tuples are present, hence not their lengths. */
  lemma SortKeepsLengths(pts: seq<seq<real>>, k: nat)
    ensures AllHave(SortBy(AntichainKey, pts), k) <==> AllHave(pts, k)
  {
    var s := SortBy(AntichainKey, pts);
    if AllHave(pts, k) {
      forall i | 0 <= i < |s| ensures k <= |s[i]| {
        assert s[i] in multiset(pts);
      }
    }
    if AllHave(s, k) {
      forall i | 0 <= i < |pts| ensures k <= |pts[i]| {
        assert pts[i] in multiset(s);
      }
    }
  }

  /**
   * `(cost, load)` of a tuple: the two coordinates every plotted point has (shorter tuples
   * are rejected before any projection).
   */
  function CostLoad(p: seq<real>): (real, real) {
    if |p| < 2 then (0.0, 0.0) else (p[0], p[1])
  }

  /** `list(zip(xs, ys))` */
  function Zip(xs: seq<real>, ys: seq<real>): (r: seq<(real, real)>)
    ensures |r| == Min(|xs|, |ys|)
    ensures forall i :: 0 <= i < |r| ==> r[i] == (xs[i], ys[i])
  {
    var n := Min(|xs|, |ys|);
    seq(n, i requires 0 <= i < n => (xs[i], ys[i]))
  }

  /** The shape of a successful result: projections of the sorted tuples. */
  lemma LoadAntichainShape(pts: seq<seq<real>>) returns (s: seq<seq<real>>)
    requires LoadAntichain(pts).Ok? && pts != []
    ensures s == SortBy(AntichainKey, pts) && AllHave(s, 2) && AllHave(pts, 2)
    ensures LoadAntichain(pts).value.loads == Coordinate(s, 1)
    ensures LoadAntichain(pts).value.costs == Coordinate(s, 0)
  {
    s := SortBy(AntichainKey, pts);
    SortKeepsLengths(pts, 2);
  }

  /** When `load_antichain` succeeds, the three lists have one entry per tuple. */
  lemma LoadAntichainLengths(pts: seq<seq<real>>)
    requires LoadAntichain(pts).Ok?
    ensures var c := LoadAntichain(pts).value;
      |c.loads| == |pts| && |c.costs| == |pts| && |c.times| == |pts|
  {
  }

  /**
   * The loads come out nondecreasing, equal loads in nondecreasing cost; when every tuple
   * has a time, the rows are in `(load, cost, time)` order.
   */
  lemma LoadAntichainSorted(pts: seq<seq<real>>)
    requires LoadAntichain(pts).Ok?
    ensures var c := LoadAntichain(pts).value;
      && (forall i, j :: 0 <= i < j < |c.loads| && j < |c.costs| ==>
            c.loads[i] < c.loads[j] || (c.loads[i] == c.loads[j] && c.costs[i] <= c.costs[j]))
      && (AllHave(pts, 3) ==>
            forall i, j :: 0 <= i < j < |c.loads| && j < |c.costs| && j < |c.times| ==>
              KeyLe(Key(c.loads[i], c.costs[i], c.times[i]), Key(c.loads[j], c.costs[j], c.times[j])))
  {
    SortedLoadsCosts(pts);
    if AllHave(pts, 3) {
      SortedRows(pts);
    }
  }

  lemma SortedLoadsCosts(pts: seq<seq<real>>)
    requires LoadAntichain(pts).Ok?
    ensures var c := LoadAntichain(pts).value;
      forall i, j :: 0 <= i < j < |c.loads| && j < |c.costs| ==>
        c.loads[i] < c.loads[j] || (c.loads[i] == c.loads[j] && c.costs[i] <= c.costs[j])
  {
    if pts != [] {
      var c := LoadAntichain(pts).value;
      var s := LoadAntichainShape(pts);
      SortBySorted(AntichainKey, pts);
      forall i, j | 0 <= i < j < |c.loads| && j < |c.costs|
        ensures c.loads[i] < c.loads[j] || (c.loads[i] == c.loads[j] && c.costs[i] <= c.costs[j])
      {
        assert KeyLe(AntichainKey(s[i]), AntichainKey(s[j]));
      }
    }
  }

  lemma SortedRows(pts: seq<seq<real>>)
    requires LoadAntichain(pts).Ok? && AllHave(pts, 3)
    ensures var c := LoadAntichain(pts).value;
      forall i, j :: 0 <= i < j < |c.loads| && j < |c.costs| && j < |c.times| ==>
        KeyLe(Key(c.loads[i], c.costs[i], c.times[i]), Key(c.loads[j], c.costs[j], c.times[j]))
  {
    if pts != [] {
      var c := LoadAntichain(pts).value;
      var s := LoadAntichainShape(pts);
      SortKeepsLengths(pts, 3);
      assert c.times == Coordinate(s, 2);
      SortBySorted(AntichainKey, pts);
      forall i, j | 0 <= i < j < |c.loads| && j < |c.costs| && j < |c.times|
        ensures KeyLe(Key(c.loads[i], c.costs[i], c.times[i]), Key(c.loads[j], c.costs[j], c.times[j]))
      {
        assert KeyLe(AntichainKey(s[i]), AntichainKey(s[j]));
      }
    }
  }

  /** Each tuple's `(cost, load)` appears in the columns exactly as often as the tuple occurs. */
  lemma LoadAntichainPermutes(pts: seq<seq<real>>)
    requires LoadAntichain(pts).Ok?
    ensures var c := LoadAntichain(pts).value;
      multiset(Zip(c.costs, c.loads)) == multiset(Map(CostLoad, pts))
  {
    if pts != [] {
      var s := LoadAntichainShape(pts);
      var z := Zip(Coordinate(s, 0), Coordinate(s, 1));
      forall i | 0 <= i < |s| ensures Map(CostLoad, s)[i] == z[i] {
        MapAt(CostLoad, s, i);
      }
      assert z == Map(CostLoad, s);
      MapPermutation(CostLoad, s, pts);
    }
  }

  /**
   * The times are the third coordinates of the sorted tuples when the first sorted tuple
   * has one (and then every tuple has one), else all zero.
   */
  lemma LoadAntichainTimes(pts: seq<seq<real>>)
    requires LoadAntichain(pts).Ok?
    ensures var c := LoadAntichain(pts).value;
      (forall i :: 0 <= i < |c.times| ==> c.times[i] == 0.0) || AllHave(pts, 3)
    ensures pts != [] ==>
      var s := SortBy(AntichainKey, pts);
      && (|s[0]| >= 3 ==> AllHave(s, 3) && LoadAntichain(pts).value.times == Coordinate(s, 2))
      && (|s[0]| < 3 ==> LoadAntichain(pts).value.times == Zeros(|pts|))
    ensures pts != [] && AllHave(pts, 3) ==>
      var s := SortBy(AntichainKey, pts);
      AllHave(s, 3) && LoadAntichain(pts).value.times == Coordinate(s, 2)
  {
    if pts != [] {
      SortKeepsLengths(pts, 2);
      SortKeepsLengths(pts, 3);
    }
  }

  /** The row `(load, cost, time)` of a tuple `(cost, load, time)`. */
  function LoadCostTime(p: seq<real>): Sample {
    if |p| < 3 then Sample(0.0, 0.0, 0.0) else Sample(p[1], p[0], p[2])
  }

  /**
   * When every tuple has a time, each tuple's `(load, cost, time)` row appears in the
   * columns exactly as often as the tuple occurs.
   */
  lemma LoadAntichainRowsPermute(pts: seq<seq<real>>)
    requires LoadAntichain(pts).Ok? && AllHave(pts, 3)
    ensures var c := LoadAntichain(pts).value;
      multiset(Zip3(c)) == multiset(Map(LoadCostTime, pts))
  {
    if pts != [] {
      var s := LoadAntichainShape(pts);
      LoadAntichainTimes(pts);
      var c := LoadAntichain(pts).value;
      var z := Zip3(c);
      forall i | 0 <= i < |s| ensures Map(LoadCostTime, s)[i] == z[i] {
        MapAt(LoadCostTime, s, i);
      }
      assert z == Map(LoadCostTime, s);
      MapPermutation(LoadCostTime, s, pts);
    }
  }

  /** The load antichain is rejected exactly when some tuple lacks a coordinate the script reads. */
  lemma LoadAntichainErr(pts: seq<seq<real>>)
    ensures !AllHave(pts, 2) ==> LoadAntichain(pts) == Err(CoordinateMissing)
    ensures AllHave(pts, 3) ==> LoadAntichain(pts).Ok?
    ensures LoadAntichain(pts).Err? ==> LoadAntichain(pts) == Err(CoordinateMissing) && !AllHave(pts, 3)
    ensures pts == [] ==> LoadAntichain(pts) == Ok(Columns([], [], []))
    ensures pts != [] && AllHave(pts, 2) && |SortBy(AntichainKey, pts)[0]| < 3 ==> LoadAntichain(pts).Ok?
  {
    if pts != [] {
      SortKeepsLengths(pts, 2);
      SortKeepsLengths(pts, 3);
    }
  }

  /** `zip(loads, costs, times)` */
  function Zip3(c: Columns): (r: seq<Sample>)
    ensures |r| == Min(|c.loads|, Min(|c.costs|, |c.times|))
    ensures forall i :: 0 <= i < |r| ==> r[i] == Sample(c.loads[i], c.costs[i], c.times[i])
  {
    var n := Min(|c.loads|, Min(|c.costs|, |c.times|));
    seq(n, i requires 0 <= i < n => Sample(c.loads[i], c.costs[i], c.times[i]))
  }

  /** The three projections of a list of samples. */
  function Unzip(rows: seq<Sample>): (c: Columns)
    ensures |c.loads| == |rows| && |c.costs| == |rows| && |c.times| == |rows|
    ensures Zip3(c) == rows
  {
    Columns(seq(|rows|, i requires 0 <= i < |rows| => rows[i].load),
            seq(|rows|, i requires 0 <= i < |rows| => rows[i].cost),
            seq(|rows|, i requires 0 <= i < |rows| => rows[i].time))
  }

  /** `[... for (l, c, t) in rows if t <= time_max]` */
  function Within(rows: seq<Sample>, timeMax: real): (r: seq<Sample>)
    ensures |r| <= |rows|
    ensures forall m :: 0 <= m < |r| ==> r[m].time <= timeMax
  {
    if rows == [] then []
    else if rows[0].time <= timeMax then [rows[0]] + Within(rows[1..], timeMax)
    else Within(rows[1..], timeMax)
  }

  /** `idx` lists, increasing, positions of `rows` whose rows make up `r`. */
  ghost predicate Picks(rows: seq<Sample>, r: seq<Sample>, idx: seq<nat>) {
    |idx| == |r|
    && (forall m :: 0 <= m < |idx| ==> idx[m] < |rows| && r[m] == rows[idx[m]])
    && (forall m1, m2 :: 0 <= m1 < m2 < |idx| ==> idx[m1] < idx[m2])
  }

  /** Positions one further on. */
  function Shift(idx: seq<nat>): (r: seq<nat>)
    ensures |r| == |idx| && forall m :: 0 <= m < |idx| ==> r[m] == idx[m] + 1
  {
    seq(|idx|, m requires 0 <= m < |idx| => idx[m] + 1)
  }

  lemma ShiftMembers(idx: seq<nat>, k: nat)
    ensures k in Shift(idx) <==> 1 <= k && k - 1 in idx
  {
    if 1 <= k && k - 1 in idx {
      var m :| 0 <= m < |idx| && idx[m] == k - 1;
      assert Shift(idx)[m] == k;
    }
  }

  /** Picks from the tail of `rows`, shifted, are picks from `rows`, with or without its head. */
  lemma PicksCons(rows: seq<Sample>, r: seq<Sample>, idx: seq<nat>)
    requires rows != [] && Picks(rows[1..], r, idx)
    ensures Picks(rows, r, Shift(idx))
    ensures Picks(rows, [rows[0]] + r, [0] + Shift(idx))
  {
  }

  /**
   * The slice keeps exactly the rows whose time is within the bound, in their original
   * order: `idx` lists their positions, increasing.
   */
  lemma {:induction false} WithinExactly(rows: seq<Sample>, timeMax: real) returns (idx: seq<nat>)
    ensures Picks(rows, Within(rows, timeMax), idx)
    ensures forall k :: 0 <= k < |rows| ==> (k in idx <==> rows[k].time <= timeMax)
  {
    if rows == [] {
      idx := [];
    } else {
      var rest := WithinExactly(rows[1..], timeMax);
      PicksCons(rows, Within(rows[1..], timeMax), rest);
      idx := if rows[0].time <= timeMax then [0] + Shift(rest) else Shift(rest);
      forall k | 0 <= k < |rows| ensures k in idx <==> rows[k].time <= timeMax {
        ShiftMembers(rest, k);
        if k > 0 {
          assert rows[k] == rows[1..][k - 1];
        }
      }
    }
  }

  /** `Within` is empty exactly when no row has a time within the bound. */
  lemma WithinEmpty(rows: seq<Sample>, timeMax: real)
    ensures Within(rows, timeMax) == [] <==> forall k :: 0 <= k < |rows| ==> timeMax < rows[k].time
  {
    var idx := WithinExactly(rows, timeMax);
    if Within(rows, timeMax) == [] {
      forall k | 0 <= k < |rows| ensures timeMax < rows[k].time {
        assert k !in idx;
      }
    } else {
      assert rows[idx[0]].time <= timeMax;
    }
  }

  /** The response-time slice of `main`: filter, re-project, and reject an empty result. */
  function TimeSlice(c: Columns, timeMax: real): (r: Result<Columns, PlotError>)
    ensures r.Err? <==> forall k :: 0 <= k < |Zip3(c)| ==> timeMax < Zip3(c)[k].time
    ensures r.Err? ==> r.error == EmptySlice
    ensures r.Ok? ==> (Zip3(r.value) == Within(Zip3(c), timeMax)
      && |r.value.loads| == |r.value.costs| == |r.value.times| > 0)
  {
    WithinEmpty(Zip3(c), timeMax);
    var kept := Within(Zip3(c), timeMax);
    if kept == [] then Err(EmptySlice) else Ok(Unzip(kept))
  }
}
