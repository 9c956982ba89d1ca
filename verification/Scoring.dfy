/** The scoring engine: benefit over a penalty denominator, with unknown weight redistributed. */
module Scoring {
  import opened Wrappers
  import opened Rounding
  import opened Vocabulary
  import opened Weights

  /** The usable factors; an unknown dimension is absent. */
  type Values = map<Dimension, real>

  /**
   All numbers are quantised half up: `overall` counts hundredths, the effective weights millionths,
   the others ten-thousandths. An unknown dimension is absent.
   */
  datatype ScoreResult = ScoreResult(
    overall: int, confidence: int, recommendation: Recommendation, version: string,
    dimensions: map<Dimension, int>, effectiveWeights: map<Dimension, int>, contributions: map<Dimension, int>,
    benefit: int, cost: int)

  const CONFIDENCE_FLOOR := 4500

  // ---- The factors ------------------------------------------------------------

  /** Out-of-range numbers are clamped; anything unusable is unknown. */
  function ClampUnit(v: Input): (r: Option<real>)
    ensures r.Some? <==> v.Number?
    ensures r.Some? ==> 0.0 <= r.value <= 1.0
  {
    if v.Number? then Some(Clip(v.value, 1.0)) else None
  }

  function Clip(x: real, top: real): real {
    var low := if x >= 0.0 then x else 0.0;
    if low <= top then low else top
  }

  function Known(factors: map<Dimension, Input>): Values {
    map d | d in factors && factors[d].Number? :: ClampUnit(factors[d]).value
  }

  predicate InUnit(v: Values) {
    forall d :: d in v ==> 0.0 <= v[d] <= 1.0
  }

  // ---- The arithmetic ------------------------------------------------------------

  /** The weight of the known dimensions among `dims`. */
  function KnownWeight(w: map<Dimension, real>, v: Values, dims: seq<Dimension>): real
    requires forall d :: d in dims ==> d in w
  {
    if dims == [] then 0.0
    else (if dims[0] in v then w[dims[0]] else 0.0) + KnownWeight(w, v, dims[1..])
  }

  /** The weighted sum of the known values among `dims`. */
  function WeightedSum(w: map<Dimension, real>, v: Values, dims: seq<Dimension>): real
    requires forall d :: d in dims ==> d in w
  {
    if dims == [] then 0.0
    else Term(w, v, dims[0]) + WeightedSum(w, v, dims[1..])
  }

  function Term(w: map<Dimension, real>, v: Values, d: Dimension): real
    requires d in w
  {
    if d in v then Product(w[d], v[d]) else 0.0
  }

  /** Products and quotients are named so that proofs can treat them as atoms. */
  function Product(a: real, b: real): real {
    a * b
  }

  function Quotient(a: real, b: real): real
    requires b > 0.0
  {
    a / b
  }

  function Weight(w: WeightVector, v: Values): real
    requires ValidVector(w)
  {
    KnownWeight(w.benefit, v, BENEFIT)
  }

  function Benefit(w: WeightVector, v: Values): real
    requires ValidVector(w)
  {
    if Weight(w, v) > 0.0 then Quotient(WeightedSum(w.benefit, v, BENEFIT), Weight(w, v)) else 0.0
  }

  function At(v: Values, d: Dimension): real {
    if d in v then v[d] else 0.0
  }

  function Cost(w: WeightVector, v: Values): real {
    1.0 + Product(w.effort, At(v, Effort)) + Product(w.risk, At(v, Risk))
  }

  function Overall(w: WeightVector, v: Values): int
    requires ValidVector(w)
  {
    HalfUp(Clip(RawOverall(Benefit(w, v), Cost(w, v)), 100.0), 100)
  }

  function RawOverall(benefit: real, cost: real): real {
    if cost > 0.0 then Quotient(100.0 * benefit, cost) else 0.0
  }

  function KnownTotal(w: WeightVector, v: Values): real
    requires ValidVector(w)
  {
    Weight(w, v) + (if Effort in v then w.effort else 0.0) + (if Risk in v then w.risk else 0.0)
  }

  function Confidence(w: WeightVector, v: Values): int
    requires ValidVector(w)
  {
    HalfUp(Quotient(KnownTotal(w, v), 1.0 + w.effort + w.risk), 10000)
  }

  /** Maps a score to a verdict; thresholds in hundredths. */
  function Recommend(overall: int, confidence: int, eligible: Option<bool>): Recommendation {
    if eligible == Some(false) then Ineligible
    else
      var verdict :=
        if overall >= 8200 then StronglyPursue
        else if overall >= 6600 then Pursue
        else if overall >= 4500 then Consider
        else if overall >= 2800 then LowPriority
        else Ignore;
      if confidence < CONFIDENCE_FLOOR && verdict in {StronglyPursue, Pursue} then Wait else verdict
  }

  // ---- Sums over the dimensions ------------------------------------------------------

  lemma {:induction false} SumsBounded(w: map<Dimension, real>, v: Values, dims: seq<Dimension>, lo: real, hi: real)
    requires forall d :: d in dims ==> d in w && w[d] >= 0.0
    requires forall d :: d in dims && d in v ==> lo <= v[d] <= hi
    ensures KnownWeight(w, v, dims) >= 0.0
    ensures Product(lo, KnownWeight(w, v, dims)) <= WeightedSum(w, v, dims) <= Product(hi, KnownWeight(w, v, dims))
  {
    if dims != [] {
      SumsBounded(w, v, dims[1..], lo, hi);
      assert dims[0] in dims;
      if dims[0] in v {
        AddBounded(w[dims[0]], v[dims[0]], KnownWeight(w, v, dims[1..]), WeightedSum(w, v, dims[1..]), lo, hi);
      }
    }
  }

  lemma Scaled(w: real, x: real, y: real)
    requires w >= 0.0 && x <= y
    ensures Product(w, x) <= Product(w, y) && Product(x, w) <= Product(y, w)
  {}

  lemma Distribute(a: real, b: real, c: real)
    ensures Product(a, b + c) == Product(a, b) + Product(a, c)
    ensures Product(b, a) == Product(a, b)
  {}

  lemma AddBounded(w: real, x: real, weight: real, sum: real, lo: real, hi: real)
    requires w >= 0.0 && lo <= x <= hi && Product(lo, weight) <= sum <= Product(hi, weight)
    ensures Product(lo, w + weight) <= Product(w, x) + sum <= Product(hi, w + weight)
  {
    Scaled(w, lo, x);
    Scaled(w, x, hi);
    Distribute(lo, w, weight);
    Distribute(hi, w, weight);
    Distribute(x, w, weight);
  }

  lemma TermMonotone(w: map<Dimension, real>, v: Values, v': Values, d: Dimension)
    requires d in w && w[d] >= 0.0 && (d in v <==> d in v') && (d in v ==> v[d] <= v'[d])
    ensures Term(w, v, d) <= Term(w, v', d)
  {
    if d in v {
      Scaled(w[d], v[d], v'[d]);
    }
  }

  /** Raising known values raises the weighted sum and leaves the known weight alone. */
  lemma {:induction false} SumsMonotone(w: map<Dimension, real>, v: Values, v': Values, dims: seq<Dimension>)
    requires forall d :: d in dims ==> d in w && w[d] >= 0.0
    requires forall d :: d in dims ==> (d in v <==> d in v') && (d in v ==> v[d] <= v'[d])
    ensures KnownWeight(w, v, dims) == KnownWeight(w, v', dims)
    ensures WeightedSum(w, v, dims) <= WeightedSum(w, v', dims)
  {
    if dims != [] {
      assert dims[0] in dims;
      SumsMonotone(w, v, v', dims[1..]);
      TermMonotone(w, v, v', dims[0]);
    }
  }

  lemma {:induction false} SumsOutside(w: map<Dimension, real>, v: Values, dims: seq<Dimension>, d: Dimension, x: real)
    requires forall e :: e in dims ==> e in w
    requires d !in dims
    ensures KnownWeight(w, v[d := x], dims) == KnownWeight(w, v, dims)
    ensures WeightedSum(w, v[d := x], dims) == WeightedSum(w, v, dims)
  {
    if dims != [] {
      assert dims[0] in dims;
      SumsOutside(w, v, dims[1..], d, x);
    }
  }

  /** Revealing an unknown dimension adds its weight and its weighted value. */
  lemma {:induction false} SumsReveal(w: map<Dimension, real>, v: Values, dims: seq<Dimension>, d: Dimension, x: real)
    requires forall e :: e in dims ==> e in w
    requires forall i, j :: 0 <= i < j < |dims| ==> dims[i] != dims[j]
    requires d in dims && d !in v
    ensures KnownWeight(w, v[d := x], dims) == KnownWeight(w, v, dims) + w[d]
    ensures WeightedSum(w, v[d := x], dims) == WeightedSum(w, v, dims) + Product(w[d], x)
  {
    assert dims == [dims[0]] + dims[1..];
    if dims[0] == d {
      SumsOutside(w, v, dims[1..], d, x);
    } else {
      SumsReveal(w, v, dims[1..], d, x);
    }
  }

  // ---- The engine ------------------------------------------------------------------------

  /** The share of each known dimension after redistribution, and what it contributes. */
  predicate IsRedistribution(effective: map<Dimension, real>, contributions: map<Dimension, real>,
    w: WeightVector, v: Values)
    requires ValidVector(w)
  {
    && effective.Keys == contributions.Keys
    && (forall d :: d in effective <==> d in BENEFIT && d in v && Weight(w, v) > 0.0)
    && (forall d :: d in effective ==>
      effective[d] == Quotient(w.benefit[d], Weight(w, v)) && contributions[d] == Product(effective[d], v[d]))
  }

  /** The loop over the known dimensions. */
  method Redistribute(w: WeightVector, v: Values)
    returns (effective: map<Dimension, real>, contributions: map<Dimension, real>, benefit: real)
    requires ValidVector(w)
    ensures IsRedistribution(effective, contributions, w, v)
    ensures benefit == Benefit(w, v)
  {
    var knownWeight := Weight(w, v);
    effective, contributions, benefit := map[], map[], 0.0;
    if knownWeight > 0.0 {
      for i := 0 to |BENEFIT|
        invariant effective.Keys == contributions.Keys
        invariant forall d :: d in effective <==> d in BENEFIT[..i] && d in v
        invariant forall d :: d in effective ==>
          effective[d] == Quotient(w.benefit[d], knownWeight) && contributions[d] == Product(effective[d], v[d])
        invariant benefit == Quotient(WeightedSum(w.benefit, v, BENEFIT[..i]), knownWeight)
      {
        var d := BENEFIT[i];
        assert BENEFIT[..i + 1] == BENEFIT[..i] + [d];
        ShareAdded(w.benefit, v, BENEFIT[..i], d, knownWeight);
        if d in v {
          var share := Quotient(w.benefit[d], knownWeight);
          effective := effective[d := share];
          contributions := contributions[d := Product(share, v[d])];
          benefit := benefit + Product(share, v[d]);
        }
      }
      assert BENEFIT[..|BENEFIT|] == BENEFIT;
    }
  }

  /** Scores one opportunity against one weight vector. */
  method Score(factors: map<Dimension, Input>, w: WeightVector, eligible: Option<bool>) returns (r: ScoreResult)
    requires ValidVector(w)
    ensures var v := Known(factors);
      && InUnit(v)
      && r.overall == Overall(w, v) && r.confidence == Confidence(w, v)
      && r.recommendation == Recommend(r.overall, r.confidence, eligible)
      && r.version == w.version
      && r.dimensions == Shown(v, 10000)
      && r.effectiveWeights == Shown(ExactShares(w, v), 1000000)
      && r.contributions == Shown(ExactContributions(w, v), 10000)
      && r.benefit == HalfUp(Benefit(w, v), 10000) && r.cost == HalfUp(Cost(w, v), 10000)
  {
    var values := Known(factors);
    var effective, contributions, benefit := Redistribute(w, values);
    IsExact(effective, contributions, w, values);
    var cost := Cost(w, values);
    var overall := HalfUp(Clip(RawOverall(benefit, cost), 100.0), 100);
    var confidence := Confidence(w, values);
    r := ScoreResult(
      overall, confidence, Recommend(overall, confidence, eligible), w.version, Shown(values, 10000),
      Shown(effective, 1000000), Shown(contributions, 10000), HalfUp(benefit, 10000), HalfUp(cost, 10000));
  }

  /** The quantised form of some numbers. */
  function Shown(m: map<Dimension, real>, scale: int): map<Dimension, int> {
    map d | d in m :: HalfUp(m[d], scale)
  }

  /** The weights after redistribution: none when no weight is known. */
  function ExactShares(w: WeightVector, v: Values): map<Dimension, real>
    requires ValidVector(w)
  {
    map d | d in BENEFIT && d in v && Weight(w, v) > 0.0 :: Quotient(w.benefit[d], Weight(w, v))
  }

  function ExactContributions(w: WeightVector, v: Values): map<Dimension, real>
    requires ValidVector(w)
  {
    map d | d in ExactShares(w, v) :: Product(ExactShares(w, v)[d], v[d])
  }

  lemma IsExact(effective: map<Dimension, real>, contributions: map<Dimension, real>, w: WeightVector, v: Values)
    requires ValidVector(w) && IsRedistribution(effective, contributions, w, v)
    ensures effective == ExactShares(w, v) && contributions == ExactContributions(w, v)
  {
    assert effective == ExactShares(w, v);
    assert contributions == ExactContributions(w, v);
  }

  lemma {:induction false} WeightedSumSnoc(w: map<Dimension, real>, v: Values, dims: seq<Dimension>, d: Dimension)
    requires d in w && forall e :: e in dims ==> e in w
    ensures WeightedSum(w, v, dims + [d]) == WeightedSum(w, v, dims) + Term(w, v, d)
  {
    if dims == [] {
      assert dims + [d] == [d];
    } else {
      assert (dims + [d])[1..] == dims[1..] + [d];
      WeightedSumSnoc(w, v, dims[1..], d);
    }
  }

  /** One more known dimension adds its contribution to the mean; an unknown one adds nothing. */
  lemma ShareAdded(w: map<Dimension, real>, v: Values, dims: seq<Dimension>, d: Dimension, total: real)
    requires d in w && (forall e :: e in dims ==> e in w) && total > 0.0
    ensures Quotient(WeightedSum(w, v, dims + [d]), total) ==
      Quotient(WeightedSum(w, v, dims), total) + if d in v then Product(Quotient(w[d], total), v[d]) else 0.0
  {
    WeightedSumSnoc(w, v, dims, d);
    if d in v {
      AddShare(w[d], v[d], WeightedSum(w, v, dims), total);
    }
  }

  lemma AddShare(w: real, x: real, sum: real, total: real)
    requires total > 0.0
    ensures Quotient(sum, total) + Product(Quotient(w, total), x) == Quotient(sum + Product(w, x), total)
  {}

  // ---- Benefit ---------------------------------------------------------------------------

  /** Dividing a bounded sum by its weight. */
  lemma MeanBounded(sum: real, weight: real, lo: real, hi: real)
    requires weight > 0.0 && Product(lo, weight) <= sum <= Product(hi, weight)
    ensures lo <= Quotient(sum, weight) <= hi
  {}

  /** The benefit lies between any bounds on the known values: it is their convex combination. */
  lemma BenefitIsConvex(w: WeightVector, v: Values, lo: real, hi: real)
    requires ValidVector(w) && Weight(w, v) > 0.0
    requires forall d :: d in BENEFIT && d in v ==> lo <= v[d] <= hi
    ensures lo <= Benefit(w, v) <= hi
  {
    SumsBounded(w.benefit, v, BENEFIT, lo, hi);
    MeanBounded(WeightedSum(w.benefit, v, BENEFIT), Weight(w, v), lo, hi);
  }

  /** The shares of the known dimensions among `dims`. */
  function Shares(w: map<Dimension, real>, v: Values, dims: seq<Dimension>, total: real): real
    requires total > 0.0 && forall d :: d in dims ==> d in w
  {
    if dims == [] then 0.0
    else (if dims[0] in v then Quotient(w[dims[0]], total) else 0.0) + Shares(w, v, dims[1..], total)
  }

  lemma {:induction false} SharesAreRatios(w: map<Dimension, real>, v: Values, dims: seq<Dimension>, total: real)
    requires total > 0.0 && forall d :: d in dims ==> d in w
    ensures Shares(w, v, dims, total) == Quotient(KnownWeight(w, v, dims), total)
  {
    if dims != [] {
      SharesAreRatios(w, v, dims[1..], total);
      AddRatios(if dims[0] in v then w[dims[0]] else 0.0, KnownWeight(w, v, dims[1..]), total);
    }
  }

  /** Redistribution hands out exactly the whole weight. */
  lemma SharesSumToOne(w: WeightVector, v: Values)
    requires ValidVector(w) && Weight(w, v) > 0.0
    ensures Shares(w.benefit, v, BENEFIT, Weight(w, v)) == 1.0
  {
    SharesAreRatios(w.benefit, v, BENEFIT, Weight(w, v));
    SelfRatio(Weight(w, v));
  }

  lemma BenefitInUnit(w: WeightVector, v: Values)
    requires ValidVector(w) && InUnit(v)
    ensures 0.0 <= Benefit(w, v) <= 1.0
  {
    if Weight(w, v) > 0.0 {
      BenefitIsConvex(w, v, 0.0, 1.0);
    }
  }

  lemma QuotientTimes(a: real, b: real)
    requires b > 0.0
    ensures Product(Quotient(a, b), b) == a
  {}

  /** A weighted mean of an old mean and a new value lies between them. */
  lemma MeanBetween(sum: real, weight: real, w: real, x: real)
    requires weight > 0.0 && w >= 0.0
    ensures var before, after := Quotient(sum, weight), Quotient(sum + Product(w, x), weight + w);
      (before <= x ==> before <= after <= x) && (x <= before ==> x <= after <= before)
  {
    var mean := Quotient(sum, weight);
    QuotientTimes(sum, weight);
    Distribute(mean, weight, w);
    Distribute(x, weight, w);
    Distribute(x, w, weight);
    if mean <= x {
      Scaled(w, mean, x);
      Scaled(weight, mean, x);
      MeanBounded(sum + Product(w, x), weight + w, mean, x);
    }
    if x <= mean {
      Scaled(w, x, mean);
      Scaled(weight, x, mean);
      MeanBounded(sum + Product(w, x), weight + w, x, mean);
    }
  }

  /** Without weight there is no weighted sum. */
  lemma {:induction false} ZeroWeightSum(w: map<Dimension, real>, v: Values, dims: seq<Dimension>)
    requires forall d :: d in dims ==> d in w && w[d] >= 0.0
    ensures KnownWeight(w, v, dims) >= 0.0
    ensures KnownWeight(w, v, dims) == 0.0 ==> WeightedSum(w, v, dims) == 0.0
  {
    if dims != [] {
      assert dims[0] in dims;
      ZeroWeightSum(w, v, dims[1..]);
    }
  }

  /**
   Revealing a benefit dimension moves the benefit towards the revealed value, never past it; when no
   weight was known before and the dimension has some, the benefit becomes that value.
   */
  lemma RevealingMovesBenefit(w: WeightVector, v: Values, d: Dimension, x: real)
    requires ValidVector(w) && d in BENEFIT && d !in v
    ensures var before, after := Benefit(w, v), Benefit(w, v[d := x]);
      && (Weight(w, v) > 0.0 && before <= x ==> before <= after <= x)
      && (Weight(w, v) > 0.0 && x <= before ==> x <= after <= before)
      && (Weight(w, v) == 0.0 ==> after == if w.benefit[d] > 0.0 then x else 0.0)
  {
    SumsReveal(w.benefit, v, BENEFIT, d, x);
    assert w.benefit[d] >= 0.0 && Weight(w, v[d := x]) == Weight(w, v) + w.benefit[d];
    var sum, weight := WeightedSum(w.benefit, v, BENEFIT), Weight(w, v);
    if weight > 0.0 {
      MeanBetween(sum, weight, w.benefit[d], x);
    } else {
      ZeroWeightSum(w.benefit, v, BENEFIT);
      if w.benefit[d] > 0.0 {
        QuotientOfProduct(w.benefit[d], x);
      }
    }
  }

  lemma QuotientOfProduct(w: real, x: real)
    requires w > 0.0
    ensures Quotient(Product(w, x), w) == x
  {}

  // ---- Overall ----------------------------------------------------------------------------

  lemma CostAtLeastOne(w: WeightVector, v: Values)
    requires ValidVector(w) && InUnit(v)
    ensures Cost(w, v) >= 1.0
  {
    Scaled(w.effort, 0.0, At(v, Effort));
    Scaled(w.risk, 0.0, At(v, Risk));
  }

  lemma OverallInRange(w: WeightVector, v: Values)
    requires ValidVector(w)
    ensures 0 <= Overall(w, v) <= 10000
  {
    var c := Clip(RawOverall(Benefit(w, v), Cost(w, v)), 100.0);
    HalfUpMonotone(0.0, c, 100);
    HalfUpMonotone(c, 100.0, 100);
  }

  lemma QuotientMonotone(a: real, b: real, c: real, e: real)
    requires 0.0 <= a <= b && c >= e >= 1.0
    ensures Quotient(a, c) <= Quotient(b, e)
  {
    QuotientAntitone(a, c, e);
    DivideMonotone(a, b, e);
  }

  lemma QuotientAntitone(a: real, c: real, e: real)
    requires 0.0 <= a && c >= e > 0.0
    ensures Quotient(a, c) <= Quotient(a, e)
  {
    var q := Quotient(a, c);
    QuotientTimes(a, c);
    Scaled(q, e, c);
    MeanBounded(a, e, q, Quotient(a, e));
  }

  /** At least as good in every known benefit, at most as much effort and risk. */
  predicate AtLeastAsGood(v: Values, v': Values) {
    && (forall d :: d in BENEFIT ==> (d in v <==> d in v') && (d in v ==> v[d] <= v'[d]))
    && At(v', Effort) <= At(v, Effort) && At(v', Risk) <= At(v, Risk)
  }

  lemma BenefitMonotone(w: WeightVector, v: Values, v': Values)
    requires ValidVector(w) && AtLeastAsGood(v, v')
    ensures Benefit(w, v) <= Benefit(w, v')
  {
    SumsMonotone(w.benefit, v, v', BENEFIT);
    if Weight(w, v) > 0.0 {
      DivideMonotone(WeightedSum(w.benefit, v, BENEFIT), WeightedSum(w.benefit, v', BENEFIT), Weight(w, v));
    }
  }

  lemma CostMonotone(w: WeightVector, v: Values, v': Values)
    requires ValidVector(w) && At(v', Effort) <= At(v, Effort) && At(v', Risk) <= At(v, Risk)
    ensures Cost(w, v') <= Cost(w, v)
  {
    Scaled(w.effort, At(v', Effort), At(v, Effort));
    Scaled(w.risk, At(v', Risk), At(v, Risk));
  }

  lemma RawOverallMonotone(a: real, b: real, c: real, e: real)
    requires 0.0 <= a <= b && c >= e >= 1.0
    ensures HalfUp(Clip(RawOverall(a, c), 100.0), 100) <= HalfUp(Clip(RawOverall(b, e), 100.0), 100)
  {
    QuotientMonotone(100.0 * a, 100.0 * b, c, e);
    HalfUpMonotone(Clip(RawOverall(a, c), 100.0), Clip(RawOverall(b, e), 100.0), 100);
  }

  /** The overall score never falls when a known benefit rises or effort or risk falls. */
  lemma OverallMonotone(w: WeightVector, v: Values, v': Values)
    requires ValidVector(w) && InUnit(v) && InUnit(v') && AtLeastAsGood(v, v')
    ensures Overall(w, v) <= Overall(w, v')
  {
    BenefitMonotone(w, v, v');
    CostMonotone(w, v, v');
    BenefitInUnit(w, v);
    CostAtLeastOne(w, v');
    RawOverallMonotone(Benefit(w, v), Benefit(w, v'), Cost(w, v), Cost(w, v'));
  }

  lemma DivideMonotone(a: real, b: real, c: real)
    requires c > 0.0 && a <= b
    ensures Quotient(a, c) <= Quotient(b, c)
  {}

  // ---- Confidence ---------------------------------------------------------------------------

  lemma RevealingAddsWeight(w: WeightVector, v: Values, d: Dimension, x: real)
    requires ValidVector(w) && d !in v
    ensures KnownTotal(w, v) <= KnownTotal(w, v[d := x])
  {
    if d in BENEFIT {
      BenefitRevealed(w, v, d, x);
    } else {
      SumsOutside(w.benefit, v, BENEFIT, d, x);
    }
  }

  lemma BenefitRevealed(w: WeightVector, v: Values, d: Dimension, x: real)
    requires ValidVector(w) && d !in v && d in BENEFIT
    ensures Weight(w, v) <= Weight(w, v[d := x])
  {
    SumsReveal(w.benefit, v, BENEFIT, d, x);
    assert w.benefit[d] >= 0.0;
  }

  /** Revealing any dimension never lowers confidence. */
  lemma RevealingRaisesConfidence(w: WeightVector, v: Values, d: Dimension, x: real)
    requires ValidVector(w) && d !in v
    ensures Confidence(w, v) <= Confidence(w, v[d := x])
  {
    RevealingAddsWeight(w, v, d, x);
    var total := 1.0 + w.effort + w.risk;
    var a, b := KnownTotal(w, v), KnownTotal(w, v[d := x]);
    DivideMonotone(a, b, total);
    HalfUpMonotone(Quotient(a, total), Quotient(b, total), 10000);
  }

  lemma {:induction false} KnownWeightBelowSum(w: map<Dimension, real>, v: Values, dims: seq<Dimension>)
    requires forall d :: d in dims ==> d in w && w[d] >= 0.0
    ensures 0.0 <= KnownWeight(w, v, dims) <= Sum(w, dims)
  {
    if dims != [] {
      assert dims[0] in dims;
      KnownWeightBelowSum(w, v, dims[1..]);
    }
  }

  /** Confidence is in [0, 1] for every vector the constructor admits, also one that sums to a little over one. */
  lemma ConfidenceInRange(w: WeightVector, v: Values)
    requires ValidVector(w)
    ensures 0 <= Confidence(w, v) <= 10000
  {
    KnownWeightBelowSum(w.benefit, v, BENEFIT);
    var total := 1.0 + w.effort + w.risk;
    var share := Quotient(KnownTotal(w, v), total);
    assert KnownTotal(w, v) <= 1.000001 * total by {
      Scaled(0.000001, 1.0, total);
    }
    MeanBounded(KnownTotal(w, v), total, 0.0, 1.000001);
    HalfUpMonotone(0.0, share, 10000);
    HalfUpMonotone(share, 1.000001, 10000);
  }

  // ---- Verdicts --------------------------------------------------------------------------------

  /** A better opportunity, equally well known, never gets a less enthusiastic verdict. */
  lemma VerdictMonotone(w: WeightVector, v: Values, v': Values, eligible: Option<bool>)
    requires ValidVector(w) && InUnit(v) && InUnit(v') && AtLeastAsGood(v, v')
    requires (Effort in v <==> Effort in v') && (Risk in v <==> Risk in v')
    ensures Enthusiasm(Recommend(Overall(w, v), Confidence(w, v), eligible)) <=
      Enthusiasm(Recommend(Overall(w, v'), Confidence(w, v'), eligible))
  {
    OverallMonotone(w, v, v');
    SumsMonotone(w.benefit, v, v', BENEFIT);
  }

  /** An enthusiastic verdict needs the score, the confidence and no known ineligibility. */
  lemma EnthusiasmIsEarned(overall: int, confidence: int, eligible: Option<bool>)
    ensures Recommend(overall, confidence, eligible) in {StronglyPursue, Pursue} <==>
      overall >= 6600 && confidence >= CONFIDENCE_FLOOR && eligible != Some(false)
  {}
}
