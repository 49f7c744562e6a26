/**
 * Which plotted points get a text label: all of them when there are at most
 * `label_max`, otherwise every `step`-th point starting from the first.
 */
module LabelSelection {
  import opened Wrappers
  import opened AntichainColumns

  /** Python's `range(start, stop, step)` for a positive step. */
  function Range(start: int, stop: int, step: nat): (r: seq<int>)
    requires step > 0
    decreases stop - start
  {
    if start >= stop then [] else [start] + Range(start + step, stop, step)
  }

  /**
   * `range` yields `start`, `start + step`, ... below `stop`: as many as make the last one
   * the final multiple of `step` before `stop`.
   */
  lemma {:induction false} RangeSpec(start: int, stop: int, step: nat)
    requires step > 0
    decreases stop - start
    ensures var r := Range(start, stop, step);
      && (forall m :: 0 <= m < |r| ==> r[m] == start + m * step && r[m] < stop)
      && (start < stop ==> (|r| - 1) * step < stop - start <= |r| * step)
      && (start < stop ==> |r| > 0 && r[0] == start)
      && (start >= stop ==> r == [])
  {
    if start < stop {
      var r := Range(start, stop, step);
      var t := Range(start + step, stop, step);
      RangeSpec(start + step, stop, step);
      assert r == [start] + t;
      forall m | 0 <= m < |r| ensures r[m] == start + m * step {
        if m > 0 {
          assert r[m] == t[m - 1];
          assert (m - 1) * step + step == m * step;
        }
      }
      if start + step < stop {
        assert (|t| - 1) * step + step == |t| * step;
        assert |t| * step + step == |r| * step;
      }
    }
  }

  /** `range(n)` is `0, 1, ..., n - 1`. */
  lemma RangeAll(n: nat)
    ensures |Range(0, n, 1)| == n
    ensures forall m :: 0 <= m < n ==> Range(0, n, 1)[m] == m
  {
    RangeSpec(0, n, 1);
  }

  /** Python's `a // b`: the quotient rounded toward minus infinity. */
  function FloorDiv(a: int, b: int): (q: int)
    requires b != 0
    ensures b * q <= a < b * q + b || b * q + b < a <= b * q
  {
    if b > 0 then a / b else (-a) / (-b)
  }

  /** The label choice of `main` as written. */
  function LabelIndicesAsWritten(n: nat, labelMax: int): Result<seq<int>, PlotError> {
    if n <= labelMax then Ok(Range(0, n, 1))
    else if labelMax == 0 then Err(ZeroDivision)
    else Ok(Range(0, n, Max(1, FloorDiv(n, labelMax))))
  }

  /**
   * As written: all points when `n <= label_max`; otherwise the labels start at the first
   * point and step by `max(1, n // label_max)`, through every multiple of the step below
   * `n`; and a zero `label_max`
   * with some points divides by zero.
   */
  lemma LabelIndicesAsWrittenSpec(n: nat, labelMax: int)
    ensures n <= labelMax ==> LabelIndicesAsWritten(n, labelMax) == Ok(Range(0, n, 1))
    ensures labelMax < n && labelMax == 0 ==> LabelIndicesAsWritten(n, labelMax) == Err(ZeroDivision)
    ensures labelMax < n && labelMax != 0 ==>
      var step := Max(1, FloorDiv(n, labelMax));
      var r := LabelIndicesAsWritten(n, labelMax);
      && r.Ok? && (0 < n ==> |r.value| > 0 && r.value[0] == 0)
      && (forall m :: 0 <= m < |r.value| ==> r.value[m] == m * step && r.value[m] < n)
      && (|r.value| - 1) * step < n <= |r.value| * step
  {
    if labelMax < n && labelMax != 0 {
      RangeSpec(0, n, Max(1, FloorDiv(n, labelMax)));
    }
  }

  /** With 26 points and the default bound of 25, the script draws 26 labels. */
  lemma LabelOverflow()
    ensures LabelIndicesAsWritten(26, 25).Ok?
    ensures |LabelIndicesAsWritten(26, 25).value| == 26 > 25
  {
    assert FloorDiv(26, 25) == 1;
    RangeAll(26);
  }

  /** `ceil(a / b)` for a positive divisor. */
  function CeilDiv(a: nat, b: nat): (q: nat)
    requires b > 0
    ensures b * q >= a && (q == 0 || b * (q - 1) < a)
  {
    (a + b - 1) / b
  }

  /**
   * The label choice with the step rounded up, so that at most `label_max` points are
   * labelled, and with no labels for a bound of zero or less.
   */
  function LabelIndices(n: nat, labelMax: int): seq<int> {
    if n <= labelMax then Range(0, n, 1)
    else if labelMax <= 0 then []
    else Range(0, n, CeilDiv(n, labelMax))
  }

  /**
   * The corrected choice labels every point when they fit, never more than `label_max`
   * points, at least one point when some may be labelled, evenly spaced from the first
   * and on to within one step of the last.
   */
  lemma LabelIndicesSpec(n: nat, labelMax: int)
    ensures var r := LabelIndices(n, labelMax);
      && |r| <= Max(labelMax, 0)
      && (n <= labelMax ==> |r| == n && forall m :: 0 <= m < n ==> r[m] == m)
      && (0 < labelMax && 0 < n ==> 0 < |r| && r[0] == 0)
      && (forall m :: 0 <= m < |r| ==> 0 <= r[m] < n)
      && (labelMax < n && 0 < labelMax ==>
            && (forall m :: 0 <= m < |r| ==> r[m] == m * CeilDiv(n, labelMax))
            && (|r| - 1) * CeilDiv(n, labelMax) < n <= |r| * CeilDiv(n, labelMax))
  {
    var r := LabelIndices(n, labelMax);
    if n <= labelMax {
      RangeAll(n);
      RangeSpec(0, n, 1);
    } else if 0 < labelMax {
      var step := CeilDiv(n, labelMax);
      RangeSpec(0, n, step);
      FewerSteps(|r|, labelMax, step);
    }
  }

  /** `k` multiples of `step` that stay below `l * step` number at most `l`. */
  lemma FewerSteps(k: int, l: int, step: int)
    requires step > 0 && (k - 1) * step < l * step
    ensures k <= l
  {
  }

  /** Whenever the script's own choice stays within the bound, the corrected choice agrees with it. */
  lemma LabelIndicesAgree(n: nat, labelMax: int)
    requires n <= labelMax
    ensures LabelIndicesAsWritten(n, labelMax) == Ok(LabelIndices(n, labelMax))
  {
  }
}
