/**
 * Consequences of the characterisation `IsParetoFrontier` that `Pareto2DMin` establishes:
 * the frontier has no repeated index, no kept point dominates another, copies of one
 * point are kept at most once (the first copy), and the frontier is uniquely determined
 * by the input.
 */
module ParetoFacts {
  import opened ParetoFront

  /** No index appears twice in the frontier. */
  lemma FrontierDistinct(loads: seq<real>, costs: seq<real>, frontier: seq<nat>)
    requires IsParetoFrontier(loads, costs, frontier)
    ensures forall m1, m2 :: 0 <= m1 < m2 < |frontier| ==> frontier[m1] != frontier[m2]
  {
    forall m1, m2 | 0 <= m1 < m2 < |frontier| ensures frontier[m1] != frontier[m2] {
      assert costs[frontier[m2]] < costs[frontier[m1]];
    }
  }

  /** The frontier is an antichain: no kept point strictly dominates another kept point. */
  lemma FrontierIsAntichain(loads: seq<real>, costs: seq<real>, frontier: seq<nat>)
    requires IsParetoFrontier(loads, costs, frontier)
    ensures forall m1, m2 :: 0 <= m1 < |frontier| && 0 <= m2 < |frontier| ==>
      !(loads[frontier[m1]] <= loads[frontier[m2]] && costs[frontier[m1]] <= costs[frontier[m2]]
        && (loads[frontier[m1]] < loads[frontier[m2]] || costs[frontier[m1]] < costs[frontier[m2]]))
  {
    forall m1, m2 | 0 <= m1 < |frontier| && 0 <= m2 < |frontier|
      ensures !(loads[frontier[m1]] <= loads[frontier[m2]] && costs[frontier[m1]] <= costs[frontier[m2]]
        && (loads[frontier[m1]] < loads[frontier[m2]] || costs[frontier[m1]] < costs[frontier[m2]]))
    {
      var j, k := frontier[m1], frontier[m2];
      assert k in frontier;
      assert Unbeaten(loads, costs, k);
      assert !Beats(loads, costs, j, k);
    }
  }

  /** A point equal in load and cost to an earlier point is never kept. */
  lemma LaterCopyDropped(loads: seq<real>, costs: seq<real>, frontier: seq<nat>, j: nat, k: nat)
    requires KeepsExactlyUnbeaten(loads, costs, frontier)
    requires j < k < Count(loads, costs) && loads[j] == loads[k] && costs[j] == costs[k]
    ensures k !in frontier
  {
    assert Beats(loads, costs, j, k);
  }

  /**
   * The first copy of a point is kept exactly when no input point strictly dominates it;
   * so among identical points the smallest index is the one kept, unless the group is
   * dominated, in which case none is.
   */
  lemma FirstCopyKept(loads: seq<real>, costs: seq<real>, frontier: seq<nat>, k: nat)
    requires KeepsExactlyUnbeaten(loads, costs, frontier)
    requires k < Count(loads, costs)
    requires forall j :: 0 <= j < k ==> !(loads[j] == loads[k] && costs[j] == costs[k])
    ensures k in frontier <==> forall j :: 0 <= j < Count(loads, costs) ==> !StrictlyDominates(loads, costs, j, k)
  {
    if forall j :: 0 <= j < Count(loads, costs) ==> !StrictlyDominates(loads, costs, j, k) {
      forall j | 0 <= j < Count(loads, costs) ensures !Beats(loads, costs, j, k) {
        assert !StrictlyDominates(loads, costs, j, k);
      }
      assert Unbeaten(loads, costs, k);
    } else {
      var j :| 0 <= j < Count(loads, costs) && StrictlyDominates(loads, costs, j, k);
      assert Beats(loads, costs, j, k);
    }
  }

  /** Along `s` every index is below `|costs|` and the costs strictly decrease. */
  ghost predicate CostsDecrease(costs: seq<real>, s: seq<nat>) {
    (forall m :: 0 <= m < |s| ==> s[m] < |costs|)
    && (forall m1, m2 :: 0 <= m1 < m2 < |s| ==> costs[s[m2]] < costs[s[m1]])
  }

  /** Of two such sequences with the same members, the heads coincide: both are the costliest member. */
  lemma SameHead(costs: seq<real>, a: seq<nat>, b: seq<nat>)
    requires CostsDecrease(costs, a) && CostsDecrease(costs, b)
    requires forall x :: x in a <==> x in b
    requires a != []
    ensures b != [] && a[0] == b[0]
  {
    assert a[0] in a;
    var p :| 0 <= p < |b| && b[p] == a[0];
    assert b[0] in b;
    var q :| 0 <= q < |a| && a[q] == b[0];
    assert p == 0;
  }

  /** Removing a common head leaves tails with the same members. */
  lemma SameTailMembers(costs: seq<real>, a: seq<nat>, b: seq<nat>)
    requires CostsDecrease(costs, a) && CostsDecrease(costs, b)
    requires forall x :: x in a <==> x in b
    requires a != [] && b != [] && a[0] == b[0]
    ensures forall x :: x in a[1..] <==> x in b[1..]
  {
    forall x ensures x in a[1..] ==> x in b[1..] {
      if x in a[1..] {
        var i :| 1 <= i < |a| && a[i] == x;
        assert x in a && x in b;
        var i' :| 0 <= i' < |b| && b[i'] == x;
        assert i' != 0;
        assert b[1..][i' - 1] == x;
      }
    }
    forall x ensures x in b[1..] ==> x in a[1..] {
      if x in b[1..] {
        var i :| 1 <= i < |b| && b[i] == x;
        assert x in b && x in a;
        var i' :| 0 <= i' < |a| && a[i'] == x;
        assert i' != 0;
        assert a[1..][i' - 1] == x;
      }
    }
  }

  /** Two sequences in strictly decreasing cost with the same members are equal. */
  lemma {:induction false} SortedByCostUnique(costs: seq<real>, a: seq<nat>, b: seq<nat>)
    requires CostsDecrease(costs, a) && CostsDecrease(costs, b)
    requires forall x :: x in a <==> x in b
    ensures a == b
  {
    if a != [] {
      SameHead(costs, a, b);
      SameTailMembers(costs, a, b);
      SortedByCostUnique(costs, a[1..], b[1..]);
      assert a == [a[0]] + a[1..] && b == [b[0]] + b[1..];
    } else if b != [] {
      SameHead(costs, b, a);
    }
  }

  /** The input determines its frontier: any two lists meeting the characterisation are equal. */
  lemma FrontierUnique(loads: seq<real>, costs: seq<real>, f1: seq<nat>, f2: seq<nat>)
    requires IsParetoFrontier(loads, costs, f1) && IsParetoFrontier(loads, costs, f2)
    ensures f1 == f2
  {
    var n := Count(loads, costs);
    forall x ensures x in f1 <==> x in f2 {
      if x in f1 {
        var m :| 0 <= m < |f1| && f1[m] == x;
        assert x < n;
      }
      if x in f2 {
        var m :| 0 <= m < |f2| && f2[m] == x;
        assert x < n;
      }
    }
    SortedByCostUnique(costs, f1, f2);
  }
}
