/** The cumulative-weight table of WeightedClusterRouteAction and the rule its
    `getCluster` scan applies to it, as functions of the configured clusters
    and of the draw. The draw `r` stands for `Math.random() * totalWeight`
    rounded down: every numerator is an integer, so `x < n` holds for a real
    `x` exactly when it holds for the floor of `x`. */
module WeightedChoice {

  datatype WeightedCluster = WeightedCluster(name: string, weight: int)

  /** One row of the table: a cluster name and the running sum of weights up to
      and including that cluster. */
  datatype ClusterChoice = ClusterChoice(name: string, numerator: int)

  /** Sum of the configured weights. */
  function TotalOf(cs: seq<WeightedCluster>): int {
    if |cs| == 0 then 0 else TotalOf(cs[..|cs| - 1]) + cs[|cs| - 1].weight
  }

  predicate NonNegativeWeights(cs: seq<WeightedCluster>) {
    forall i :: 0 <= i < |cs| ==> cs[i].weight >= 0
  }

  /** The table the constructor builds: one pushed row per cluster, in order. */
  function CumulativeTable(cs: seq<WeightedCluster>): (t: seq<ClusterChoice>)
    ensures |t| == |cs|
  {
    if |cs| == 0 then []
    else CumulativeTable(cs[..|cs| - 1]) + [ClusterChoice(cs[|cs| - 1].name, TotalOf(cs))]
  }

  /** Index of the first row whose numerator exceeds the draw, or |t| when no
      row does. */
  function FirstAbove(t: seq<ClusterChoice>, r: int): (k: nat)
    ensures k <= |t|
    ensures forall j :: 0 <= j < k ==> t[j].numerator <= r
    ensures k < |t| ==> r < t[k].numerator
  {
    if |t| == 0 || r < t[0].numerator then 0 else 1 + FirstAbove(t[1..], r)
  }

  /** The name the scan returns for draw `r`: the first row with `r < numerator`,
      or '' when there is none. */
  function Pick(t: seq<ClusterChoice>, r: int): (name: string)
    ensures (exists k :: 0 <= k < |t| && r < t[k].numerator) ==>
      exists k :: 0 <= k < |t| && name == t[k].name && r < t[k].numerator &&
        forall j :: 0 <= j < k ==> t[j].numerator <= r
    ensures (forall k :: 0 <= k < |t| ==> t[k].numerator <= r) ==> name == ""
  {
    var k := FirstAbove(t, r);
    if k < |t| then t[k].name else ""
  }

  // ---------------------------------------------------------------------------
  // The table

  lemma TotalOfStep(cs: seq<WeightedCluster>, i: nat)
    requires i < |cs|
    ensures TotalOf(cs[..i + 1]) == TotalOf(cs[..i]) + cs[i].weight
  {
    assert cs[..i + 1][..i] == cs[..i];
  }

  /** Row i carries cluster i's name and the sum of weights 0..i. */
  lemma {:induction false} TableEntry(cs: seq<WeightedCluster>, i: nat)
    requires i < |cs|
    ensures CumulativeTable(cs)[i] == ClusterChoice(cs[i].name, TotalOf(cs[..i + 1]))
  {
    var n := |cs| - 1;
    if i == n {
      assert cs[..i + 1] == cs;
    } else {
      TableEntry(cs[..n], i);
      assert cs[..n][..i + 1] == cs[..i + 1];
    }
  }

  /** Same length, same names in the same order, prefix sums as numerators. */
  lemma TableShape(cs: seq<WeightedCluster>)
    ensures |CumulativeTable(cs)| == |cs|
    ensures forall i :: 0 <= i < |cs| ==>
      CumulativeTable(cs)[i].name == cs[i].name &&
      CumulativeTable(cs)[i].numerator == TotalOf(cs[..i + 1])
  {
    forall i | 0 <= i < |cs|
      ensures CumulativeTable(cs)[i].name == cs[i].name
      ensures CumulativeTable(cs)[i].numerator == TotalOf(cs[..i + 1])
    {
      TableEntry(cs, i);
    }
  }

  lemma {:induction false} PrefixTotalsMonotone(cs: seq<WeightedCluster>, i: nat, j: nat)
    requires NonNegativeWeights(cs)
    requires i <= j <= |cs|
    ensures TotalOf(cs[..i]) <= TotalOf(cs[..j])
  {
    if i < j {
      PrefixTotalsMonotone(cs, i, j - 1);
      TotalOfStep(cs, j - 1);
    }
  }

  /** With non-negative weights the numerators never decrease, and the last
      one is the sum of all weights. */
  lemma {:induction false} NumeratorsNonDecreasing(cs: seq<WeightedCluster>)
    requires NonNegativeWeights(cs)
    ensures forall i, j :: 0 <= i <= j < |cs| ==>
      CumulativeTable(cs)[i].numerator <= CumulativeTable(cs)[j].numerator
    ensures |cs| > 0 ==> CumulativeTable(cs)[|cs| - 1].numerator == TotalOf(cs)
  {
    var t := CumulativeTable(cs);
    forall i, j | 0 <= i <= j < |cs|
      ensures t[i].numerator <= t[j].numerator
    {
      TableEntry(cs, i);
      TableEntry(cs, j);
      PrefixTotalsMonotone(cs, i + 1, j + 1);
    }
    if |cs| > 0 {
      TableEntry(cs, |cs| - 1);
      assert cs[..|cs|] == cs;
    }
  }

  // ---------------------------------------------------------------------------
  // Selection

  /** The scan falls back to '' when no row exceeds the draw; when every
      configured name is non-empty, '' means exactly that. */
  lemma {:induction false} PickEmptyExactlyWhenNoMatch(cs: seq<WeightedCluster>, r: int)
    requires forall i :: 0 <= i < |cs| ==> cs[i].name != ""
    ensures Pick(CumulativeTable(cs), r) == "" <==>
      forall j :: 0 <= j < |cs| ==> CumulativeTable(cs)[j].numerator <= r
  {
    TableShape(cs);
  }

  /** A draw in [0, sum of weights) always selects a configured cluster. */
  lemma DrawBelowTotalSelects(cs: seq<WeightedCluster>, r: int)
    requires 0 <= r < TotalOf(cs)
    ensures FirstAbove(CumulativeTable(cs), r) < |cs|
    ensures Pick(CumulativeTable(cs), r) == cs[FirstAbove(CumulativeTable(cs), r)].name
  {
    var t := CumulativeTable(cs);
    TableShape(cs);
    assert |cs| > 0;
    assert cs[..|cs|] == cs;
    assert r < t[|cs| - 1].numerator;
  }

  /** The index chosen for draw `r` is the one whose interval
      [sum of weights before it, sum including it) contains `r`. */
  lemma SelectedIndexInterval(cs: seq<WeightedCluster>, r: int)
    requires 0 <= r
    requires FirstAbove(CumulativeTable(cs), r) < |cs|
    ensures var i := FirstAbove(CumulativeTable(cs), r);
      TotalOf(cs[..i]) <= r < TotalOf(cs[..i + 1])
  {
    var t := CumulativeTable(cs);
    var i := FirstAbove(t, r);
    TableShape(cs);
    if i > 0 {
      assert t[i - 1].numerator <= r;
    }
  }

  /** With non-negative weights, every draw in cluster i's interval selects i. */
  lemma IntervalSelectsIndex(cs: seq<WeightedCluster>, i: nat, r: int)
    requires NonNegativeWeights(cs)
    requires i < |cs|
    requires TotalOf(cs[..i]) <= r < TotalOf(cs[..i + 1])
    ensures FirstAbove(CumulativeTable(cs), r) == i
  {
    var t := CumulativeTable(cs);
    var k := FirstAbove(t, r);
    TableShape(cs);
    if k < i {
      PrefixTotalsMonotone(cs, k + 1, i);
      assert false;
    }
    if k > i {
      assert false;
    }
  }

  /** A cluster of weight 0 is never chosen by a non-negative draw. */
  lemma ZeroWeightNeverChosen(cs: seq<WeightedCluster>, i: nat, r: int)
    requires i < |cs| && cs[i].weight == 0
    requires 0 <= r
    ensures FirstAbove(CumulativeTable(cs), r) != i
  {
    var t := CumulativeTable(cs);
    TableShape(cs);
    TotalOfStep(cs, i);
    if FirstAbove(t, r) == i {
      SelectedIndexInterval(cs, r);
      assert false;
    }
  }

  /** Past the sum of the weights (a declared total larger than the real sum),
      the scan finds nothing and falls back to ''. */
  lemma DrawBeyondTotalFallsBack(cs: seq<WeightedCluster>, r: int)
    requires NonNegativeWeights(cs)
    requires TotalOf(cs) <= r
    ensures FirstAbove(CumulativeTable(cs), r) == |cs|
    ensures Pick(CumulativeTable(cs), r) == ""
  {
    var t := CumulativeTable(cs);
    NumeratorsNonDecreasing(cs);
    if FirstAbove(t, r) < |cs| {
      assert false;
    }
  }

  /** How many of the draws 0 .. n-1 select row i of `t`. */
  function SelectingDraws(t: seq<ClusterChoice>, i: nat, n: nat): nat {
    if n == 0 then 0
    else SelectingDraws(t, i, n - 1) + (if FirstAbove(t, n - 1) == i then 1 else 0)
  }

  lemma {:induction false} SelectingDrawsBelow(cs: seq<WeightedCluster>, i: nat, n: nat)
    requires NonNegativeWeights(cs)
    requires i < |cs|
    ensures var lo, hi := TotalOf(cs[..i]), TotalOf(cs[..i + 1]);
      SelectingDraws(CumulativeTable(cs), i, n) ==
        if n <= lo then 0 else if n <= hi then n - lo else hi - lo
  {
    var lo, hi := TotalOf(cs[..i]), TotalOf(cs[..i + 1]);
    TotalOfStep(cs, i);
    PrefixTotalsMonotone(cs, 0, i);
    assert cs[..0] == [];
    if n > 0 {
      SelectingDrawsBelow(cs, i, n - 1);
      var r := n - 1;
      if lo <= r < hi {
        IntervalSelectsIndex(cs, i, r);
      } else if FirstAbove(CumulativeTable(cs), r) == i {
        SelectedIndexInterval(cs, r);
        assert false;
      }
    }
  }

  /** Of the draws 0 .. sum-1, exactly weight(i) select cluster i: selection is
      proportional to the configured weights. */
  lemma {:induction false} SelectingDrawsCount(cs: seq<WeightedCluster>, i: nat)
    requires NonNegativeWeights(cs)
    requires i < |cs|
    ensures TotalOf(cs) >= 0
    ensures SelectingDraws(CumulativeTable(cs), i, TotalOf(cs)) == cs[i].weight
  {
    PrefixTotalsMonotone(cs, 0, i);
    PrefixTotalsMonotone(cs, i + 1, |cs|);
    TotalOfStep(cs, i);
    assert cs[..0] == [] && cs[..|cs|] == cs;
    SelectingDrawsBelow(cs, i, TotalOf(cs));
  }

  /** Clusters [("a",1), ("b",3)]: draw 0 picks "a", draws 1..3 pick "b";
      [("a",0), ("b",5)] never picks "a". */
  lemma SplitExamples()
    ensures Pick(CumulativeTable([WeightedCluster("a", 1), WeightedCluster("b", 3)]), 0) == "a"
    ensures forall r :: 1 <= r < 4 ==>
      Pick(CumulativeTable([WeightedCluster("a", 1), WeightedCluster("b", 3)]), r) == "b"
    ensures forall r :: 0 <= r < 5 ==>
      Pick(CumulativeTable([WeightedCluster("a", 0), WeightedCluster("b", 5)]), r) == "b"
  {
    var ab := [WeightedCluster("a", 1), WeightedCluster("b", 3)];
    assert ab[..1] == [WeightedCluster("a", 1)] && ab[..2] == ab;
    assert TotalOf(ab[..1]) == 1;
    assert TotalOf(ab) == 4;
    TableShape(ab);
    assert CumulativeTable(ab) == [ClusterChoice("a", 1), ClusterChoice("b", 4)];
    var zb := [WeightedCluster("a", 0), WeightedCluster("b", 5)];
    assert zb[..1] == [WeightedCluster("a", 0)] && zb[..2] == zb;
    TableShape(zb);
    assert CumulativeTable(zb) == [ClusterChoice("a", 0), ClusterChoice("b", 5)];
  }
}
