# Route-action resolution of the gRPC xDS client, in Dafny

This project models `packages/grpc-js-xds/src/route-action.ts` of grpc-js-xds.
That file is where a request that already matched a routing rule gets its
destination cluster and its configured timeout. It has two variants:

- `SingleClusterRouteAction` always answers with one fixed cluster.
- `WeightedClusterRouteAction` has a constructor that turns the configured
  `(name, weight)` list into a cumulative-weight table: each row holds a running
  sum of weights, called its numerator. `getCluster` then scans the table for the
  first row whose numerator is greater than a random draw in `[0, totalWeight)`.
  If no row qualifies, it returns `''`.

Both variants also render a diagnostic string. The timeout appears in it as
`seconds` or `seconds.millis`.

Files:

- `Decimal.dfy` renders integers in decimal, the way JavaScript turns an
  integral number into a string. It also parses that text back.
- `Durations.dfy` holds the `Duration` record, `Option` (for
  `Duration | undefined`) and `durationToLogString` with its parse-back partner.
- `WeightedChoice.dfy` holds the cumulative table and the selection rule as
  functions of the configured clusters and the draw. It also holds the
  properties of that rule: table shape, monotonicity, totality, exclusion of
  zero weights, the selection interval, and proportional selection.
- `RouteActions.dfy` holds the two classes and the description strings.
  - The weighted constructor is a loop that appends to the `clusterChoices`
    field. Its invariant is that the running sum equals the prefix sum of the
    weights.
  - `GetCluster` is a read-only scan loop, proved against the selection function.

The random draw is a parameter. `r` stands for `Math.random() * totalWeight`
rounded down. Every numerator is a sum of integer weights, so for a real `x`,
`x < numerator` holds exactly when `floor(x) < numerator`. Rounding the draw
down therefore changes nothing in the scan.

Two behaviours of the code are easy to misread:

- The table's last numerator is the sum of the configured weights. It is not
  `totalWeight`, which the constructor never reads. The two agree only when
  the configuration is consistent.
- `getCluster` returns a configured name even when that name is `''`. So `''`
  means "no row matched" only when all names are non-empty. The lemma about
  the fallback states this as a precondition.

## Model

| member | source | states |
|---|---|---|
| Durations.DurationToLogString | packages/grpc-js-xds/src/route-action.ts:26-33 | the rendering has a fractional part exactly when the duration has at least one whole millisecond |
| Durations.LogStringRoundTrip | packages/grpc-js-xds/src/route-action.ts:26-33 | reading the rendering back gives the exact seconds and `floor(nanos / 1_000_000)` milliseconds; sub-millisecond precision is dropped |
| Durations.MillisNeverZeroPadded | packages/grpc-js-xds/src/route-action.ts:27-29 | for every duration with at least one whole millisecond, the character after the dot is never `0`: the millisecond count is printed without zero-padding |
| Durations.MillisNotPadded | packages/grpc-js-xds/src/route-action.ts:27-29 | 5 ms renders as `2.5`, 500 ms as `2.500`, and under 1 ms as plain seconds |
| Decimal.IntToDecimalRoundTrip | packages/grpc-js-xds/src/route-action.ts:29 | the decimal text of an integer, minus sign included, reads back as the same integer |
| WeightedChoice.CumulativeTable | packages/grpc-js-xds/src/route-action.ts:71-76 | the table has one row per configured cluster |
| WeightedChoice.TableShape | packages/grpc-js-xds/src/route-action.ts:71-76 | same length as the cluster list, same names in the same order, and row i's numerator is the sum of weights 0..i |
| WeightedChoice.NumeratorsNonDecreasing | packages/grpc-js-xds/src/route-action.ts:72-76 | with non-negative weights the numerators never decrease, and the last one equals the sum of all weights |
| WeightedChoice.FirstAbove | packages/grpc-js-xds/src/route-action.ts:81-85 | the scan stops at the first row with `r < numerator`: every earlier row has `numerator <= r`; it returns the length when no row qualifies |
| WeightedChoice.Pick | packages/grpc-js-xds/src/route-action.ts:81-87 | when some row's numerator exceeds the draw, the result is the name of a row that exceeds it, and every earlier row does not; when none does, the result is `''` |
| WeightedChoice.PickEmptyExactlyWhenNoMatch | packages/grpc-js-xds/src/route-action.ts:81-87 | with non-empty names, the result is `''` if and only if no numerator exceeds the draw |
| WeightedChoice.DrawBelowTotalSelects | packages/grpc-js-xds/src/route-action.ts:80-87 | a draw in `[0, sum of weights)` always selects a configured cluster, never the fallback |
| WeightedChoice.ZeroWeightNeverChosen | packages/grpc-js-xds/src/route-action.ts:73-84 | a cluster of weight 0 is never chosen by any non-negative draw |
| WeightedChoice.SelectedIndexInterval | packages/grpc-js-xds/src/route-action.ts:74-83 | the chosen index i satisfies `sum(w_0..w_(i-1)) <= r < sum(w_0..w_i)` |
| WeightedChoice.IntervalSelectsIndex | packages/grpc-js-xds/src/route-action.ts:74-83 | the converse: with non-negative weights, every draw in that interval selects i |
| WeightedChoice.SelectingDrawsCount | packages/grpc-js-xds/src/route-action.ts:79-88 | of the draws `0 .. sum-1`, exactly `w_i` select cluster i, so selection is proportional to weight |
| WeightedChoice.DrawBeyondTotalFallsBack | packages/grpc-js-xds/src/route-action.ts:86-87 | when the declared total exceeds the real sum, draws at or past the sum get `''` |
| WeightedChoice.SplitExamples | packages/grpc-js-xds/src/route-action.ts:70-88 | `[(a,1),(b,3)]` sends draw 0 to a and draws 1..3 to b; `[(a,0),(b,5)]` sends every draw in 0..4 to b and none to a (for all non-negative draws, see `ZeroWeightNeverChosen`) |
| RouteActions.DescribedTimeoutSplit | packages/grpc-js-xds/src/route-action.ts:42-47 | a description is read back through the part between the body and the closing parenthesis, whatever the kind and body |
| RouteActions.DescribeRoundTrip | packages/grpc-js-xds/src/route-action.ts:42-47 | a description starts with `Kind(` and the body; reading it back gives "no timeout", or the timeout exactly to the millisecond |
| RouteActions.ClusterListConcat | packages/grpc-js-xds/src/route-action.ts:91 | the `(name:weight)` pairs are listed in configured order and joined by `", "` |
| RouteActions.DescriptionExamples | packages/grpc-js-xds/src/route-action.ts:90-96 | `SingleCluster(foo, timeout=2.500s)`, `SingleCluster(foo)` and `WeightedCluster((a:1), (b:2))` |
| RouteActions.SingleClusterRouteAction.constructor | packages/grpc-js-xds/src/route-action.ts:36-52 | `GetCluster` always returns the given cluster and `GetTimeout` the given timeout; the fields are immutable, so nothing changes them |
| RouteActions.SingleClusterRouteAction.GetCluster | packages/grpc-js-xds/src/route-action.ts:38-40 | no contract of its own: a function of the immutable `cluster` field, so the constructor's `ensures GetCluster() == cluster` holds for the object's whole lifetime |
| RouteActions.SingleClusterRouteAction.GetTimeout | packages/grpc-js-xds/src/route-action.ts:50-52 | no contract of its own: the constructor's `ensures GetTimeout() == timeout` holds for the object's whole lifetime |
| RouteActions.SingleClusterRouteAction.ToString | packages/grpc-js-xds/src/route-action.ts:42-47 | the description is `SingleCluster(` plus the cluster name, and reading it back gives "no timeout" or the timeout to the millisecond |
| RouteActions.WeightedClusterRouteAction.constructor | packages/grpc-js-xds/src/route-action.ts:70-77 | the construction loop leaves `clusterChoices` with the configured names in order and prefix sums as numerators; `GetTimeout` returns the given timeout |
| RouteActions.WeightedClusterRouteAction.GetCluster | packages/grpc-js-xds/src/route-action.ts:79-88 | the scan returns the selection function's answer for the draw; when the draw is below a consistent total, the result is the name of a configured cluster of positive weight |
| RouteActions.WeightedClusterRouteAction.GetTimeout | packages/grpc-js-xds/src/route-action.ts:99-101 | no contract of its own: the constructor's `ensures GetTimeout() == timeout` holds for the object's whole lifetime |
| RouteActions.WeightedClusterRouteAction.ToString | packages/grpc-js-xds/src/route-action.ts:90-96 | the description is `WeightedCluster(` plus the configured pairs in order (`ClusterListConcat`), and reading it back gives "no timeout" or the timeout to the millisecond |

## Left out

- `packages/grpc-js-xds/src/generated/envoy/config/core/v3/HealthStatus.ts` holds generated enumeration constants with no behaviour, and is not part of this model.
- `Math.random()` and the floating-point multiply at line 80 are not modelled. The draw is a parameter. Randomness and the statistical convergence of frequencies are replaced by the exact count of selecting draws (`SelectingDrawsCount`).
- `experimental.Duration` from `@grpc/grpc-js` is external. It is modelled as integer seconds with natural nanoseconds, so a negative `nanos` is not modelled.
- JavaScript number-to-string coercion is modelled only for integers. Fractional weights, exponent notation for very large magnitudes and `-0` are not modelled.
- The configured cluster list and the timeout are treated as immutable values. The source holds references to the caller's `clusters` array and `Duration` object. If a caller mutates the array after construction, the source's `toString` (line 91) reflects the change but its selection table (lines 71-76, copied once) does not, and `getTimeout` returns the caller's object itself. The model does not capture this aliasing.
- The `RouteAction` interface has no separate type. It has no behaviour of its own, and both classes offer its three operations under the same names.
- WeightedChoice.PickEmptyExactlyWhenNoMatch: assumes non-empty cluster names, because the code can also return a configured empty name, and then `''` does not mean "no match".
- Timeout enforcement, configuration validation and route matching do not happen in this file.
