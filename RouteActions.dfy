/** The two route-action variants of route-action.ts. Both offer the same three
    operations (`ToString`, `GetCluster`, `GetTimeout`) that the RouteAction
    interface names. */
module RouteActions {
  import Decimal
  import opened Durations
  import opened WeightedChoice

  // ---------------------------------------------------------------------------
  // Descriptions

  /** The suffix a set timeout adds to a description. */
  function TimeoutSuffix(timeout: Option<Duration>): string {
    match timeout
    case None => ""
    case Some(d) => ", timeout=" + DurationToLogString(d) + "s"
  }

  /** Shared shape of both `toString`s: `Kind(body)` or `Kind(body, timeout=…s)`. */
  function Describe(kind: string, body: string, timeout: Option<Duration>): string {
    kind + "(" + body + TimeoutSuffix(timeout) + ")"
  }

  /** Reads the timeout back out of a description whose kind and body are
      known: Some(None) for no timeout, Some(Some((seconds, millis))) for one,
      None when `s` is not such a description. */
  function DescribedTimeout(s: string, kind: string, body: string): Option<Option<(int, nat)>> {
    var head := kind + "(" + body;
    if |s| < |head| + 1 || s[..|head|] != head || s[|s| - 1] != ')' then None
    else SuffixTimeout(s[|head|..|s| - 1])
  }

  /** Reads the part of a description between the body and the closing
      parenthesis: empty for no timeout, `, timeout=<log string>s` for one. */
  function SuffixTimeout(rest: string): Option<Option<(int, nat)>> {
    if rest == "" then Some(None)
    else if |rest| >= 11 && rest[..10] == ", timeout=" && rest[|rest| - 1] == 's' then
      match ParseLogString(rest[10..|rest| - 1])
      case None => None
      case Some(p) => Some(Some(p))
    else None
  }

  /** A description whose kind and body are known is read through its suffix. */
  lemma DescribedTimeoutSplit(kind: string, body: string, rest: string)
    ensures DescribedTimeout(kind + "(" + body + rest + ")", kind, body) == SuffixTimeout(rest)
  {
    var head := kind + "(" + body;
    var s := kind + "(" + body + rest + ")";
    assert s[..|head|] == head;
    assert s[|head|..|s| - 1] == rest;
  }

  /** What reading a description back should give for `timeout`: no timeout,
      or its seconds and whole milliseconds. */
  function TimeoutAtMillis(timeout: Option<Duration>): Option<Option<(int, nat)>> {
    match timeout
    case None => Some(None)
    case Some(d) => Some(Some((d.seconds, d.nanos / NanosPerMilli)))
  }

  /** A description names its kind and body first, then carries the timeout
      exactly to the millisecond, or says there is none. */
  lemma DescribeRoundTrip(kind: string, body: string, timeout: Option<Duration>)
    ensures DescribedTimeout(Describe(kind, body, timeout), kind, body) == TimeoutAtMillis(timeout)
  {
    var rest := TimeoutSuffix(timeout);
    DescribedTimeoutSplit(kind, body, rest);
    match timeout {
      case None =>
      case Some(d) =>
        var log := DurationToLogString(d);
        assert rest[..10] == ", timeout=";
        assert rest[10..|rest| - 1] == log;
        LogStringRoundTrip(d);
    }
  }

  /** `(name:weight)` for one configured cluster. */
  function PairString(c: WeightedCluster): string {
    "(" + c.name + ":" + Decimal.IntToDecimal(c.weight) + ")"
  }

  /** The configured pairs in order, joined by ", ". */
  function ClusterListString(cs: seq<WeightedCluster>): string {
    if |cs| == 0 then ""
    else if |cs| == 1 then PairString(cs[0])
    else PairString(cs[0]) + ", " + ClusterListString(cs[1..])
  }

  /** Listing two runs of clusters one after the other is listing each and
      joining the two with ", ": the pairs keep the configured order. */
  lemma {:induction false} ClusterListConcat(a: seq<WeightedCluster>, b: seq<WeightedCluster>)
    requires |a| > 0 && |b| > 0
    ensures ClusterListString(a + b) == ClusterListString(a) + ", " + ClusterListString(b)
  {
    assert (a + b)[0] == a[0];
    if |a| == 1 {
      assert (a + b)[1..] == b;
    } else {
      assert (a + b)[1..] == a[1..] + b;
      ClusterListConcat(a[1..], b);
    }
  }

  /** Three sample renderings of descriptions. */
  lemma DescriptionExamples()
    ensures Describe("SingleCluster", "foo", Some(Duration(2, 500_000_000)))
      == "SingleCluster(foo, timeout=2.500s)"
    ensures Describe("SingleCluster", "foo", None) == "SingleCluster(foo)"
    ensures Describe("WeightedCluster",
        ClusterListString([WeightedCluster("a", 1), WeightedCluster("b", 2)]), None)
      == "WeightedCluster((a:1), (b:2))"
  {
    MillisNotPadded();
    var ab := [WeightedCluster("a", 1), WeightedCluster("b", 2)];
    assert ab[1..] == [WeightedCluster("b", 2)];
    assert Decimal.IntToDecimal(1) == "1" && Decimal.IntToDecimal(2) == "2";
  }

  // ---------------------------------------------------------------------------
  // SingleClusterRouteAction

  /** Routes every request to one fixed cluster. */
  class SingleClusterRouteAction {
    const cluster: string
    const timeout: Option<Duration>

    constructor (cluster: string, timeout: Option<Duration>)
      ensures GetCluster() == cluster
      ensures GetTimeout() == timeout
      ensures ToString() == Describe("SingleCluster", cluster, timeout)
    {
      this.cluster := cluster;
      this.timeout := timeout;
    }

    function GetCluster(): string {
      cluster
    }

    function GetTimeout(): Option<Duration> {
      timeout
    }

    /** `SingleCluster(cluster)`, with the timeout to the millisecond when set. */
    function ToString(): (s: string)
      ensures DescribedTimeout(s, "SingleCluster", cluster) == TimeoutAtMillis(timeout)
    {
      DescribeRoundTrip("SingleCluster", cluster, timeout);
      Describe("SingleCluster", cluster, timeout)
    }
  }

  // ---------------------------------------------------------------------------
  // WeightedClusterRouteAction

  /** Splits requests across clusters in proportion to their weights, through a
      cumulative-weight table built once by the constructor. */
  class WeightedClusterRouteAction {
    const clusters: seq<WeightedCluster>
    const totalWeight: int
    const timeout: Option<Duration>
    /** The weighted cluster choices, as a running-sum (CDF) table. */
    var clusterChoices: seq<ClusterChoice>

    ghost predicate Valid()
      reads this
    {
      clusterChoices == CumulativeTable(clusters)
    }

    constructor (clusters: seq<WeightedCluster>, totalWeight: int, timeout: Option<Duration>)
      ensures this.clusters == clusters && this.totalWeight == totalWeight
      ensures GetTimeout() == timeout
      ensures Valid()
      ensures |clusterChoices| == |clusters|
      ensures forall i :: 0 <= i < |clusters| ==>
        clusterChoices[i].name == clusters[i].name &&
        clusterChoices[i].numerator == TotalOf(clusters[..i + 1])
    {
      this.clusters := clusters;
      this.totalWeight := totalWeight;
      this.timeout := timeout;
      clusterChoices := [];
      new;
      var lastNumerator := 0;
      var i := 0;
      while i < |clusters|
        invariant 0 <= i <= |clusters|
        invariant lastNumerator == TotalOf(clusters[..i])
        invariant clusterChoices == CumulativeTable(clusters[..i])
      {
        TotalOfStep(clusters, i);
        assert clusters[..i + 1][..i] == clusters[..i];
        lastNumerator := lastNumerator + clusters[i].weight;
        clusterChoices := clusterChoices + [ClusterChoice(clusters[i].name, lastNumerator)];
        i := i + 1;
      }
      assert clusters[..i] == clusters;
      TableShape(clusters);
    }

    /** Scans the table for the first row whose numerator exceeds the draw
        `r` (the random number scaled to `totalWeight`, rounded down), and
        falls back to '' when there is none. A draw below a `totalWeight`
        that matches the configured weights always lands on a configured
        cluster of positive weight. */
    method GetCluster(r: int) returns (name: string)
      requires Valid()
      ensures name == Pick(CumulativeTable(clusters), r)
      ensures 0 <= r < totalWeight == TotalOf(clusters) ==>
        exists i :: 0 <= i < |clusters| && clusters[i].weight > 0 && name == clusters[i].name
    {
      name := "";
      var i := 0;
      while i < |clusterChoices|
        invariant 0 <= i <= |clusterChoices|
        invariant forall j :: 0 <= j < i ==> clusterChoices[j].numerator <= r
      {
        if r < clusterChoices[i].numerator {
          name := clusterChoices[i].name;
          break;
        }
        i := i + 1;
      }
      assert i == FirstAbove(clusterChoices, r);
      if 0 <= r < totalWeight == TotalOf(clusters) {
        DrawBelowTotalSelects(clusters, r);
        SelectedIndexInterval(clusters, r);
        TotalOfStep(clusters, i);
      }
    }

    function GetTimeout(): Option<Duration> {
      timeout
    }

    /** `WeightedCluster(pairs)`, with the timeout to the millisecond when set. */
    function ToString(): (s: string)
      ensures DescribedTimeout(s, "WeightedCluster", ClusterListString(clusters)) == TimeoutAtMillis(timeout)
    {
      DescribeRoundTrip("WeightedCluster", ClusterListString(clusters), timeout);
      Describe("WeightedCluster", ClusterListString(clusters), timeout)
    }
  }
}
