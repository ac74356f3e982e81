/** The Mamdani tipping pipeline in `main` of the float program: fuzzify the
    service and food ratings, build the universes, sample the three tip
    terms, combine the premises of each rule with `max`, clip each term by
    its rule's strength with `min`, aggregate the clipped terms with `max`
    and defuzzify by the weighted mean. */
module TippingPipeline {
  import opened Results
  import opened ScalarMembership
  import opened WeightedMean
  import opened Curves

  /** A Gaussian membership, with the arguments in the source's order
      (x, sigma, centre).  Its closed form rests on `exp` and is a parameter
      of the model. */
  type Gaussian = (real, real, real) -> real

  predicate InUnit(v: real) {
    0.0 <= v <= 1.0
  }

  /** For every positive width, every value of the Gaussian lies in
      [0, 1]. */
  ghost predicate UnitValued(gauss: Gaussian) {
    forall x, sigma, centre :: sigma > 0.0 ==> 0.0 <= gauss(x, sigma, centre) <= 1.0
  }

  /** For every positive width, the Gaussian reaches 1 exactly at its
      centre, as `exp(0) == 1` does. */
  ghost predicate PeaksAtCentre(gauss: Gaussian) {
    forall x, sigma, centre :: sigma > 0.0 ==> (gauss(x, sigma, centre) == 1.0 <==> x == centre)
  }

  datatype ServiceLevels = ServiceLevels(poor: real, good: real, excellent: real)

  datatype FoodLevels = FoodLevels(rancid: real, delicious: real)

  /** The firing strengths of the three rules: poor service or rancid food
      gives a cheap tip, good service an average tip, excellent service or
      delicious food a generous tip. */
  datatype RuleStrengths = RuleStrengths(r1: real, r2: real, r3: real)

  /** Stage 1 for the service rating as the float program writes it: the
      "excellent" Gaussian is centred at 0, the same as "poor". */
  function FuzzifyServiceAsWritten(service: real, gauss: Gaussian): (s: ServiceLevels)
    ensures UnitValued(gauss) ==> InUnit(s.poor) && InUnit(s.good) && InUnit(s.excellent)
  {
    ServiceLevels(gauss(service, 1.5, 0.0), gauss(service, 1.5, 5.0), gauss(service, 1.5, 0.0))
  }

  /** Stage 1 for the service rating with "excellent" centred at 10, the
      centre the double program uses: the corrected reading, used by
      `InferCorrected`. */
  function FuzzifyService(service: real, gauss: Gaussian): (s: ServiceLevels)
    ensures UnitValued(gauss) ==> InUnit(s.poor) && InUnit(s.good) && InUnit(s.excellent)
  {
    ServiceLevels(gauss(service, 1.5, 0.0), gauss(service, 1.5, 5.0), gauss(service, 1.5, 10.0))
  }

  /** As written, "excellent service" is the same level as "poor service":
      it is full for a rating of 0 and, for a Gaussian peaking only at its
      centre, not full for the top rating 10. */
  lemma ExcellentAsWrittenIsPoor(service: real, gauss: Gaussian)
    requires PeaksAtCentre(gauss)
    ensures FuzzifyServiceAsWritten(service, gauss).excellent == FuzzifyServiceAsWritten(service, gauss).poor
    ensures FuzzifyServiceAsWritten(0.0, gauss).excellent == 1.0
    ensures FuzzifyServiceAsWritten(10.0, gauss).excellent != 1.0
  {
    assert gauss(0.0, 1.5, 0.0) == 1.0;
    assert gauss(10.0, 1.5, 0.0) != 1.0;
  }

  /** With the centre at 10, "excellent service" is full exactly for the
      top rating. */
  lemma ExcellentPeaksAtTop(service: real, gauss: Gaussian)
    requires PeaksAtCentre(gauss)
    ensures FuzzifyService(service, gauss).excellent == 1.0 <==> service == 10.0
    ensures FuzzifyService(service, gauss).poor == 1.0 <==> service == 0.0
  {
    assert gauss(service, 1.5, 10.0) == 1.0 <==> service == 10.0;
    assert gauss(service, 1.5, 0.0) == 1.0 <==> service == 0.0;
  }

  /** Stage 1 for the food rating: two trapezoids.  "Delicious" starts at 7,
      so for a negative rating neither of its tests that start at 0 or at 7
      holds and its value is undefined; the membership is then missing. */
  function FuzzifyFood(food: real): (f: Option<FoodLevels>)
    ensures f.Some? <==> food >= 0.0
    ensures f.Some? ==> InUnit(f.value.rancid) && InUnit(f.value.delicious)
  {
    var rancid := OwnTrap(food, -2.0, 0.0, 1.0, 3.0);
    var delicious := OwnTrap(food, 7.0, 9.0, 10.0, 12.0);
    if rancid.Some? && delicious.Some? then Some(FoodLevels(rancid.value, delicious.value)) else None
  }

  /** Stage 2: the disjunctive premises.  A rule with two premises fires at
      least as strongly as each premise and exactly as strongly as one of
      them; strengths of memberships in [0, 1] stay in [0, 1]. */
  function Triggers(s: ServiceLevels, f: FoodLevels): (t: RuleStrengths)
    ensures t.r1 >= s.poor && t.r1 >= f.rancid && (t.r1 == s.poor || t.r1 == f.rancid)
    ensures t.r2 == s.good
    ensures t.r3 >= s.excellent && t.r3 >= f.delicious && (t.r3 == s.excellent || t.r3 == f.delicious)
    ensures InUnit(s.poor) && InUnit(s.good) && InUnit(s.excellent) && InUnit(f.rancid) && InUnit(f.delicious)
            ==> InUnit(t.r1) && InUnit(t.r2) && InUnit(t.r3)
  {
    RuleStrengths(Max(s.poor, f.rancid), s.good, Max(s.excellent, f.delicious))
  }

  /** No rule fires. */
  predicate Quiet(t: RuleStrengths) {
    t.r1 == 0.0 && t.r2 == 0.0 && t.r3 == 0.0
  }

  /** Sizes of the input universe (0 to 10) and the output universe (0 to
      30), both in steps of 0.1. */
  const InputPoints: nat := 101
  const OutputPoints: nat := 301

  /** The universe of `n` points from 0 in steps of one tenth. */
  function Universe(n: nat): seq<real> {
    seq(n, i => i as real / 10.0)
  }

  /** Builds a universe of `n` points starting at 0, each 0.1 above the
      previous one (0.1 read as exactly one tenth).  The loop stops at the
      last element. */
  method BuildUniverse(n: nat) returns (u: array<real>)
    requires n > 0
    ensures fresh(u) && u.Length == n
    ensures forall i :: 0 <= i < n ==> u[i] == i as real / 10.0
    ensures u[..] == Universe(n)
    ensures StrictlyIncreasing(u[..], n)
  {
    u := new real[n];
    u[0] := 0.0;
    var i := 0;
    while i < n - 1
      invariant 0 <= i < n
      invariant forall j :: 0 <= j <= i ==> u[j] == j as real / 10.0
    {
      u[i + 1] := u[i] + 0.1;
      i := i + 1;
    }
  }

  /** Samples a triangular tip term at every point of the universe.  Every
      point is non-negative, so every sample is defined, and lies in [0, 1]. */
  method SampleTri(Y: array<real>, a: real, b: real, c: real) returns (mu: array<real>)
    requires a <= b <= c
    requires forall i :: 0 <= i < Y.Length ==> Y[i] >= 0.0
    ensures fresh(mu) && mu.Length == Y.Length
    ensures forall i :: 0 <= i < Y.Length ==> OwnTri(Y[i], a, b, c) == Some(mu[i])
    ensures forall i :: 0 <= i < Y.Length ==> InUnit(mu[i])
  {
    mu := new real[Y.Length];
    var i := 0;
    while i < Y.Length
      invariant 0 <= i <= Y.Length
      invariant forall j :: 0 <= j < i ==> OwnTri(Y[j], a, b, c) == Some(mu[j])
      invariant forall j :: 0 <= j < i ==> InUnit(mu[j])
    {
      mu[i] := OwnTri(Y[i], a, b, c).value;
      i := i + 1;
    }
  }

  /** Stage 3, min-implication: clips a term at the rule's strength, so
      every clipped sample is at most the strength and at most the term's
      own sample, and equal to one of them. */
  method Implication(strength: real, term: array<real>) returns (out: array<real>)
    ensures fresh(out) && out.Length == term.Length
    ensures forall i :: 0 <= i < term.Length ==> out[i] == Min(strength, term[i])
    ensures forall i :: 0 <= i < term.Length ==> out[i] <= strength && out[i] <= term[i]
    ensures forall i :: 0 <= i < term.Length ==> out[i] == strength || out[i] == term[i]
  {
    out := new real[term.Length];
    var i := 0;
    while i < term.Length
      invariant 0 <= i <= term.Length
      invariant forall j :: 0 <= j < i ==> out[j] == Min(strength, term[j])
    {
      out[i] := Min(strength, term[i]);
      i := i + 1;
    }
  }

  /** Stage 4, max-aggregation of the three clipped terms: every aggregated
      sample is at least each clipped sample and equal to one of them. */
  method Aggregate(r1: array<real>, r2: array<real>, r3: array<real>) returns (agg: array<real>)
    requires r1.Length == r2.Length == r3.Length
    ensures fresh(agg) && agg.Length == r1.Length
    ensures forall i :: 0 <= i < r1.Length ==> agg[i] == Max(Max(r1[i], r2[i]), r3[i])
    ensures forall i :: 0 <= i < r1.Length ==> agg[i] >= r1[i] && agg[i] >= r2[i] && agg[i] >= r3[i]
    ensures forall i :: 0 <= i < r1.Length ==> agg[i] == r1[i] || agg[i] == r2[i] || agg[i] == r3[i]
  {
    agg := new real[r1.Length];
    var i := 0;
    while i < r1.Length
      invariant 0 <= i <= r1.Length
      invariant forall j :: 0 <= j < i ==> agg[j] == Max(Max(r1[j], r2[j]), r3[j])
    {
      agg[i] := Max(Max(r1[i], r2[i]), r3[i]);
      i := i + 1;
    }
  }

  /** The aggregated value at one point, from the rule strengths and the
      three term samples there. */
  function AggregatedAt(t: RuleStrengths, cheap: real, average: real, generous: real): real
  {
    Max(Max(Min(t.r1, cheap), Min(t.r2, average)), Min(t.r3, generous))
  }

  /** With strengths and samples in [0, 1], the aggregate at a point is
      non-negative, zero everywhere when no rule fires, and at least a
      rule's strength where that rule's term is full. */
  lemma AggregatedAtFacts(t: RuleStrengths, cheap: real, average: real, generous: real)
    requires InUnit(t.r1) && InUnit(t.r2) && InUnit(t.r3)
    requires InUnit(cheap) && InUnit(average) && InUnit(generous)
    ensures AggregatedAt(t, cheap, average, generous) >= 0.0
    ensures Quiet(t) ==> AggregatedAt(t, cheap, average, generous) == 0.0
    ensures cheap == 1.0 ==> AggregatedAt(t, cheap, average, generous) >= t.r1
    ensures average == 1.0 ==> AggregatedAt(t, cheap, average, generous) >= t.r2
    ensures generous == 1.0 ==> AggregatedAt(t, cheap, average, generous) >= t.r3
  {
  }

  /** A triangular tip term sampled at point i of the output universe;
      every point is non-negative, so the sample is defined. */
  function TermAt(i: nat, a: real, b: real, c: real): real
    requires a <= b <= c
  {
    OwnTri(i as real / 10.0, a, b, c).value
  }

  /** The aggregated output curve for given rule strengths: the three tip
      terms, clipped and combined, at every point of the output universe. */
  function AggregatedCurve(t: RuleStrengths): seq<real> {
    seq(OutputPoints, i requires 0 <= i =>
      AggregatedAt(t, TermAt(i, 0.0, 5.0, 10.0), TermAt(i, 10.0, 15.0, 20.0), TermAt(i, 20.0, 25.0, 30.0)))
  }

  /** What the inference yields for given service levels and a food
      rating: a missing membership when the food rating leaves one undefined,
      otherwise the weighted mean of the aggregated curve. */
  function TipOf(levels: ServiceLevels, food: real): Result<real> {
    var f := FuzzifyFood(food);
    if f.None? then Err(UnassignedMembership)
    else MeanOf(AggregatedCurve(Triggers(levels, f.value)), Universe(OutputPoints), OutputPoints)
  }

  /** For service levels in [0, 1]: a membership is missing exactly for a
      negative food rating; otherwise the tip is undefined exactly when no
      rule fires, and a defined tip lies in the output universe [0, 30]. */
  lemma TipOfFacts(levels: ServiceLevels, food: real)
    requires InUnit(levels.poor) && InUnit(levels.good) && InUnit(levels.excellent)
    ensures TipOf(levels, food) == Err(UnassignedMembership) <==> food < 0.0
    ensures food >= 0.0 ==>
              (TipOf(levels, food) == Err(ZeroDenominator) <==> Quiet(Triggers(levels, FuzzifyFood(food).value)))
    ensures TipOf(levels, food).Ok? ==> 0.0 <= TipOf(levels, food).value <= 30.0
  {
    if food >= 0.0 {
      var t := Triggers(levels, FuzzifyFood(food).value);
      var curve, u := AggregatedCurve(t), Universe(OutputPoints);
      forall i | 0 <= i < OutputPoints
        ensures curve[i] >= 0.0 && (Quiet(t) ==> curve[i] == 0.0)
      {
        AggregatedAtFacts(t, TermAt(i, 0.0, 5.0, 10.0), TermAt(i, 10.0, 15.0, 20.0), TermAt(i, 20.0, 25.0, 30.0));
      }
      assert NonDecreasing(u, OutputPoints);
      MeanOfFacts(curve, u, OutputPoints);
      if !Quiet(t) {
        OwnTriPeak(0.0, 5.0, 10.0);
        OwnTriPeak(10.0, 15.0, 20.0);
        OwnTriPeak(20.0, 25.0, 30.0);
        AggregatedAtFacts(t, TermAt(50, 0.0, 5.0, 10.0), TermAt(50, 10.0, 15.0, 20.0), TermAt(50, 20.0, 25.0, 30.0));
        AggregatedAtFacts(t, TermAt(150, 0.0, 5.0, 10.0), TermAt(150, 10.0, 15.0, 20.0), TermAt(150, 20.0, 25.0, 30.0));
        AggregatedAtFacts(t, TermAt(250, 0.0, 5.0, 10.0), TermAt(250, 10.0, 15.0, 20.0), TermAt(250, 20.0, 25.0, 30.0));
        assert curve[50] != 0.0 || curve[150] != 0.0 || curve[250] != 0.0;
      }
    }
  }

  /** Stages 1 (food) to 5 of `main` for given service levels: fuzzify the
      food rating, build both universes, sample the tip terms, fire the
      rules, clip, aggregate and defuzzify.  A negative food rating leaves a
      food membership undefined; the model stops there. */
  method InferFromLevels(levels: ServiceLevels, food: real) returns (tip: Result<real>)
    requires InUnit(levels.poor) && InUnit(levels.good) && InUnit(levels.excellent)
    ensures tip == TipOf(levels, food)
  {
    var foodLevels := FuzzifyFood(food);
    if foodLevels.None? {
      return Err(UnassignedMembership);
    }
    var X := BuildUniverse(InputPoints);
    var Y := BuildUniverse(OutputPoints);
    var cheap := SampleTri(Y, 0.0, 5.0, 10.0);
    var average := SampleTri(Y, 10.0, 15.0, 20.0);
    var generous := SampleTri(Y, 20.0, 25.0, 30.0);
    var t := Triggers(levels, foodLevels.value);
    var r1Out := Implication(t.r1, cheap);
    var r2Out := Implication(t.r2, average);
    var r3Out := Implication(t.r3, generous);
    var aggregated := Aggregate(r1Out, r2Out, r3Out);
    tip := Defuzzify(aggregated, Y);
    forall i | 0 <= i < OutputPoints
      ensures aggregated[i] == AggregatedCurve(t)[i]
    {
      assert Y[i] == i as real / 10.0;
    }
    assert aggregated[..] == AggregatedCurve(t);
  }

  /** The whole inference of `main` as written, with "excellent service"
      centred at 0.  A negative food rating leaves a food membership
      undefined; otherwise the tip is undefined exactly when no rule fires,
      and a defined tip lies in the output universe [0, 30]. */
  method Infer(service: real, food: real, gauss: Gaussian) returns (tip: Result<real>)
    requires UnitValued(gauss)
    ensures tip == TipOf(FuzzifyServiceAsWritten(service, gauss), food)
    ensures tip == Err(UnassignedMembership) <==> food < 0.0
    ensures food >= 0.0 ==>
              (tip == Err(ZeroDenominator) <==> Quiet(Triggers(FuzzifyServiceAsWritten(service, gauss), FuzzifyFood(food).value)))
    ensures tip.Ok? ==> 0.0 <= tip.value <= 30.0
  {
    var levels := FuzzifyServiceAsWritten(service, gauss);
    tip := InferFromLevels(levels, food);
    TipOfFacts(levels, food);
  }

  /** The same inference with "excellent service" centred at 10. */
  method InferCorrected(service: real, food: real, gauss: Gaussian) returns (tip: Result<real>)
    requires UnitValued(gauss)
    ensures tip == TipOf(FuzzifyService(service, gauss), food)
    ensures tip == Err(UnassignedMembership) <==> food < 0.0
    ensures food >= 0.0 ==>
              (tip == Err(ZeroDenominator) <==> Quiet(Triggers(FuzzifyService(service, gauss), FuzzifyFood(food).value)))
    ensures tip.Ok? ==> 0.0 <= tip.value <= 30.0
  {
    var levels := FuzzifyService(service, gauss);
    tip := InferFromLevels(levels, food);
    TipOfFacts(levels, food);
  }
}
