# Fuzzy tipping inference in C, modelled in Dafny

The repository ships three small C programs. Together they implement the classic fuzzy tipping
example with piecewise-linear membership functions.

- `src/toccodefuzzy2.c` (float) does the whole pipeline:
  - `max` and `min`;
  - trapezoid and triangle evaluators written as independent `if` statements, where the last test
    that holds wins and a value no test assigns stays undefined;
  - its `main` fuzzifies a service and a food rating, builds the input and output universes
    (step 0.1), samples three triangular tip terms, combines each rule's premises with `max`,
    clips each term with `min`, aggregates with `max`, and defuzzifies by the weighted mean.
- `src/toccodefuzzy.c` (double) has a buffer trapezoid evaluator written as a chained
  `if`/`else`, where the first match wins. It also has the triangle as a degenerate trapezoid and
  a trapezoid-rule centroid.
- `src/ccode.c` has a stand-alone triangle with a worked example.

The model works over exact `real` numbers:

- `Results` defines `Option` and `Result` and the error cases. `UnassignedMembership` means a
  membership no test assigned. `ZeroDenominator` means a division by a zero sum.
- `RealFacts` holds sign and quotient facts about reals.
- `Curves` holds the shape conditions on sampled curves (non-negative heights, non-decreasing or
  strictly increasing abscissae) that both defuzzifiers rely on.
- `ScalarMembership` models the float `max`, `min`, `own_trap` and `own_tri`. The un-chained tests
  are written out in source order, last write wins, and `None` stands for "never assigned".
- `TippingPipeline` models every stage of the float `main`:
  - fuzzification;
  - the rule premises;
  - the universe builder;
  - term sampling;
  - min-implication;
  - max-aggregation;
  - the whole inference: `Infer` as written and `InferCorrected` with the finding below
    repaired.

  The stages that fill arrays are methods with loop invariants. `TipOf` is the closed form both
  inference methods are proved to compute.
- `WeightedMean` models the defuzzification loop. Its accumulators are specified by recursive
  partial sums, and the lemmas bound the mean between the universe endpoints.
- `BufferMembership` models the double `own_trap`/`own_tri`, which fill `mf` in place, and
  `own_centroid`.
- `TriangleExample` models `own_Tri` and its `main`.
- `MembershipAgreement` proves where the three evaluators agree, and where they do not.

## Model

| member | source | states |
|---|---|---|
| ScalarMembership.Max | src/toccodefuzzy2.c:4-10 | the result is at least both arguments and equals one of them |
| ScalarMembership.Min | src/toccodefuzzy2.c:12-18 | the result is at most both arguments and equals one of them |
| ScalarMembership.OwnTrap | src/toccodefuzzy2.c:28-52 | for a <= b <= c <= d, the value is assigned exactly when X >= 0 or X >= a, and an assigned value lies in [0, 1] |
| ScalarMembership.OwnTri | src/toccodefuzzy2.c:54-58 | for a <= b <= c, the triangle is assigned exactly when X >= 0 or X >= a, with a value in [0, 1] |
| ScalarMembership.OwnTrapByRange | src/toccodefuzzy2.c:28-52 | the value is 0 on [0,a), (X-a)/(b-a) on [a,b), 1 on [b,c), (X-d)/(c-d) on [c,d) and 0 for X >= d; it is unassigned for X < 0 and X < a; so for ordered parameters exactly the test whose range holds decides the value |
| ScalarMembership.OwnTriPeak | src/toccodefuzzy2.c:43-58 | for a <= b < c, the triangle is exactly 1 at b, through the falling-edge branch with c = b |
| ScalarMembership.OwnTrapEdges | src/toccodefuzzy2.c:35-46 | the rising and falling edges are the straight lines through the corner points |
| TippingPipeline.FuzzifyServiceAsWritten | src/toccodefuzzy2.c:75-77 | service memberships as written, with "excellent" centred at 0; values lie in [0, 1] for a Gaussian with values in [0, 1] |
| TippingPipeline.FuzzifyService | src/toccodefuzzy.c:49-51 | the corrected half of the finding on src/toccodefuzzy2.c:77: service memberships with "excellent" centred at 10, as the double program has it; values lie in [0, 1] for a Gaussian with values in [0, 1] |
| TippingPipeline.ExcellentAsWrittenIsPoor | src/toccodefuzzy2.c:77 | as written, "excellent" equals "poor": it is full at rating 0 and not full at rating 10 |
| TippingPipeline.ExcellentPeaksAtTop | src/toccodefuzzy.c:49-51 | with centre 10, "excellent" is full exactly at rating 10 and "poor" exactly at 0 |
| TippingPipeline.FuzzifyFood | src/toccodefuzzy2.c:79-80 | both food memberships are assigned exactly when food >= 0, and then lie in [0, 1] |
| TippingPipeline.Triggers | src/toccodefuzzy2.c:140-142 | each OR of two premises is at least each premise and equals one; strengths from [0, 1] inputs stay in [0, 1] |
| TippingPipeline.BuildUniverse | src/toccodefuzzy2.c:83-103 | the fresh universe of n points has element i equal to i/10, and it is strictly increasing |
| TippingPipeline.SampleTri | src/toccodefuzzy2.c:109-137 | every sample is the assigned value of `own_tri` at the universe point, and lies in [0, 1] |
| TippingPipeline.Implication | src/toccodefuzzy2.c:146-165 | each output is min(strength, term[i]): at most both and equal to one of them |
| TippingPipeline.Aggregate | src/toccodefuzzy2.c:168-173 | each output is the max of the three clipped samples: at least each of them and equal to one of them |
| TippingPipeline.AggregatedAtFacts | src/toccodefuzzy2.c:146-173 | the aggregate at a point is non-negative, zero when no rule fires, and at least a rule's strength where its term is full |
| TippingPipeline.TipOfFacts | src/toccodefuzzy2.c:79-185 | for service levels in [0, 1], the closed-form tip is UnassignedMembership exactly for a negative food rating, ZeroDenominator exactly when no rule fires, and otherwise lies in [0, 30] |
| TippingPipeline.InferFromLevels | src/toccodefuzzy2.c:79-185 | the food fuzzification, universes, sampling, rules, clipping, aggregation and defuzzification compose to the closed-form tip `TipOf` |
| TippingPipeline.Infer | src/toccodefuzzy2.c:61-185 | `main` as written (excellent centred at 0) computes `TipOf` of the as-written service levels; UnassignedMembership exactly for a negative food rating, ZeroDenominator exactly when no rule fires, and a defined tip lies in [0, 30] |
| TippingPipeline.InferCorrected | src/toccodefuzzy2.c:61-185 | the same pipeline with excellent centred at 10 computes `TipOf` of the corrected service levels, with the same failure cases and range |
| WeightedMean.WeightSumFacts | src/toccodefuzzy2.c:183 | non-negative weights have a non-negative sum, which is zero exactly when every weight is zero |
| WeightedMean.WeightedAbovePivot | src/toccodefuzzy2.c:180-184 | with non-negative weights, the weighted sum is at least the weight sum times any point at or below every abscissa |
| WeightedMean.WeightedBelowPivot | src/toccodefuzzy2.c:180-184 | with non-negative weights, the weighted sum is at most the weight sum times any point at or above every abscissa |
| WeightedMean.MeanBounds | src/toccodefuzzy2.c:185 | with non-negative weights of positive sum over a non-decreasing abscissa, the weighted mean lies between the first and the last abscissa |
| WeightedMean.MeanOfFacts | src/toccodefuzzy2.c:177-185 | with non-negative weights, the mean is undefined exactly for all-zero weights; over a non-decreasing abscissa a defined mean is bounded by the first and the last abscissa |
| WeightedMean.Defuzzify | src/toccodefuzzy2.c:177-185 | from zero-initialised accumulators, the result is the weighted mean or ZeroDenominator; with non-negative weights, the error occurs exactly for an all-zero curve, and over a non-decreasing abscissa a result lies in [Y[0], Y[n-1]] |
| BufferMembership.TrapSample | src/toccodefuzzy.c:10-18 | the chained sample is defined for every x and lies in [0, 1]; it is 1 exactly on [b, c] and 0 exactly outside [b, c], (a, b) and (c, d) |
| BufferMembership.TriSample | src/toccodefuzzy.c:22-24 | the triangle sample lies in [0, 1] and is 1 exactly at b |
| BufferMembership.TriSampleZero | src/toccodefuzzy.c:10-24 | for a <= b <= c, the triangle sample is 0 exactly away from b and outside (a, c) |
| BufferMembership.OwnTrap | src/toccodefuzzy.c:8-20 | writes the sample of each X[i] into mf[i] for i < length and nothing else; X is unchanged unless it is mf |
| BufferMembership.OwnTri | src/toccodefuzzy.c:22-24 | the buffer triangle, with the same frame as the trapezoid |
| BufferMembership.MomentSplit | src/toccodefuzzy.c:31 | the moment is the moment about any pivot plus the area with heights scaled by the pivot |
| BufferMembership.AreaFacts | src/toccodefuzzy.c:32 | over a strictly increasing abscissa with non-negative heights, the area is non-negative, and with at least one segment it is zero exactly for an all-zero curve |
| BufferMembership.MomentAbovePivot | src/toccodefuzzy.c:29-33 | over a strictly increasing abscissa with non-negative heights, the moment is at least the area times any point at or left of y[0] |
| BufferMembership.MomentBelowPivot | src/toccodefuzzy.c:29-33 | ... and at most the area times any point at or right of y[k] |
| BufferMembership.PositiveCentroid | src/toccodefuzzy.c:34 | over a strictly increasing abscissa with non-negative heights and a positive area, moment / area lies in [y[0], y[k]] |
| BufferMembership.CentroidOfFacts | src/toccodefuzzy.c:26-35 | over a strictly increasing abscissa with non-negative heights and at least one segment, the centroid fails exactly for an all-zero curve, and otherwise lies between the first and the last abscissa |
| BufferMembership.Centroid | src/toccodefuzzy.c:26-35 | the accumulators end as the trapezoid-rule moment and area; fewer than two samples or a zero area gives ZeroDenominator; for at least two samples over a strictly increasing abscissa with non-negative heights, the error occurs exactly when all heights are 0, and a result lies in [y[0], y[length-1]] |
| TriangleExample.OwnTri | src/ccode.c:2-22 | for a <= b <= c, the value is assigned exactly when X >= 0 or X >= a, and then lies in [0, 1] |
| TriangleExample.OwnTriByRange | src/ccode.c:5-20 | the value is 0 on [0,a), (X-a)/(b-a) on [a,b), (X-c)/(b-c) on [b,c) and 0 for X >= c; it is unassigned for X < 0 and X < a |
| TriangleExample.WorkedExample | src/ccode.c:23-28 | own_Tri(3, 0, 5, 10) is 0.6 |
| MembershipAgreement.TrianglesCoincide | src/ccode.c:2-22 | `own_Tri` and the float `own_tri` are the same function for every argument |
| MembershipAgreement.TrapezoidsAgree | src/toccodefuzzy2.c:28-52 | for ordered parameters on the defined domain, and unless c == d at x == c, the un-chained trapezoid equals the chained sample |
| MembershipAgreement.TrapezoidsDisagreeAtDegenerateEdge | src/toccodefuzzy2.c:43-50 | for every a <= b <= c with d == c, at x == c the un-chained trapezoid gives 0 and the chained one gives 1 |
| MembershipAgreement.TrianglesDisagreeAtDegenerateEdge | src/ccode.c:13-20 | for every a <= b with c == b, at x == b both un-chained triangles give 0 and the chained one gives 1 |
| MembershipAgreement.TrianglesAgree | src/ccode.c:2-22 | for a <= b < c on the defined domain, all three triangles agree |

## Left out

- `own_gauss`, in both programs, rests on `exp` and `pow`. It is the function-typed parameter
  `Gaussian`. `Infer` asks only that its values lie in [0, 1] for every positive width.
- Float and double rounding are out: every quantity is a `real`, and the step 0.1 is exactly one
  tenth. The float/double width difference between the programs is not modelled.
- Terminal I/O is out: `scanf`, `printf`, the commented-out print loops, and the `main` of
  `src/toccodefuzzy.c`, which only prints two Gaussian values. That `main` contributes its
  service centres, used by the finding below.
- The source writes `X[101]` and `Y[301]`, one past each array's end. `BuildUniverse` stops at the
  last element. The input universe `X` is built but never used by a later stage, as in the source.
- For undefined behaviour the model takes an explicit value or failure:
  - uninitialised `result` in the un-chained evaluators is `None`;
  - in `Infer`, an unassigned food membership is `Err(UnassignedMembership)`, returned before
    the universe stages, where the source would carry on with an indeterminate value;
  - uninitialised `integration_sum`/`aggregated_sum` start at zero;
  - a zero denominator in the defuzzification and in `own_centroid` is `Err(ZeroDenominator)`.
- The source combines comparisons with `&`. On 0/1 operands without side effects this is `&&`,
  and the model writes `&&`.
- For X < 0 and X < a no test in the un-chained evaluators assigns `result`; the model returns
  `None` there.
- The un-chained and chained trapezoids differ when c == d, at x == c, and likewise the triangles
  when b == c, at x == b; this is why `MembershipAgreement.TrianglesAgree` needs b < c. It is
  stated by `MembershipAgreement.TrapezoidsDisagreeAtDegenerateEdge` and
  `MembershipAgreement.TrianglesDisagreeAtDegenerateEdge` rather than treated as a defect.
- `BufferMembership.Centroid`: the undefined-exactly-for-a-zero-curve and range properties are
  proved for at least two samples over a strictly increasing abscissa with non-negative heights.
  Fewer than two samples always give ZeroDenominator; for other inputs only the closed form
  (moment over area) is stated.
- `WeightedMean.Defuzzify`: the error-exactly-for-an-all-zero-curve property is proved for
  non-negative weights, and the range for non-negative weights over a non-decreasing abscissa;
  with signed weights the sum can vanish for a non-zero curve. `TipOfFacts` establishes both conditions for the tipping universe.

## Findings

| source | as written | input that shows it | evidently intended | confidence | as-written member | corrected member |
|---|---|---|---|---|---|---|
| src/toccodefuzzy2.c:77 | `service_excellent` uses `own_gauss(service, 1.5, 0)`, the same centre as `service_poor` | service 10 with any Gaussian that is 1 only at its centre: "excellent" is not full; service 0: "excellent" is full | centre 10, as src/toccodefuzzy.c:51 has it; `TippingPipeline.InferCorrected` runs the pipeline with it | not executed | TippingPipeline.ExcellentAsWrittenIsPoor | TippingPipeline.ExcellentPeaksAtTop |
