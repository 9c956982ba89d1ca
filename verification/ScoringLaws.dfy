/** What the numbers of a score are, told by what moves them and by how much. */
module ScoringLaws {
  import opened Wrappers
  import opened Rounding
  import opened Vocabulary
  import opened Weights
  import opened Scoring

  // ---- The penalty denominator -----------------------------------------------------

  /** A revealed effort adds its own weight times its value to the cost, so does a risk, and nothing else. */
  lemma CostOfRevealing(w: WeightVector, v: Values, d: Dimension, x: real)
    requires d !in v
    ensures d == Effort ==> Cost(w, v[d := x]) == Cost(w, v) + w.effort * x
    ensures d == Risk ==> Cost(w, v[d := x]) == Cost(w, v) + w.risk * x
    ensures d in BENEFIT ==> Cost(w, v[d := x]) == Cost(w, v)
  {
    assert d == Effort ==> At(v[d := x], Risk) == At(v, Risk) && At(v, Effort) == 0.0;
    assert d == Risk ==> At(v[d := x], Effort) == At(v, Effort) && At(v, Risk) == 0.0;
  }

  /** Effort and risk do not touch the benefit. */
  lemma BenefitIgnoresCosts(w: WeightVector, v: Values, d: Dimension, x: real)
    requires ValidVector(w) && d !in BENEFIT
    ensures Benefit(w, v[d := x]) == Benefit(w, v) && Weight(w, v[d := x]) == Weight(w, v)
  {
    SumsOutside(w.benefit, v, BENEFIT, d, x);
  }

  /** A cost that weighs nothing makes no difference to the score. */
  lemma WeightlessCost(w: WeightVector, v: Values, d: Dimension, x: real)
    requires ValidVector(w) && d !in v
    requires (d == Effort && w.effort == 0.0) || (d == Risk && w.risk == 0.0)
    ensures Overall(w, v[d := x]) == Overall(w, v)
  {
    CostOfRevealing(w, v, d, x);
    BenefitIgnoresCosts(w, v, d, x);
  }

  /** A quotient rounded half up, multiplied out. */
  lemma RoundedRatio(a: real, c: real, scale: int)
    requires c > 0.0
    ensures var o := HalfUp(Quotient(a, c), scale) as real;
      -0.5 * c < o * c - scale as real * a <= 0.5 * c
  {
    var q := Quotient(a, c);
    HalfUpIs(q, scale, HalfUp(q, scale));
    QuotientTimes(a, c);
    MultipliedOut(HalfUp(q, scale) as real, q, a, c, scale as real);
  }

  lemma MultipliedOut(o: real, q: real, a: real, c: real, s: real)
    requires c > 0.0 && Product(q, c) == a && -0.5 < o - q * s <= 0.5
    ensures -0.5 * c < o * c - s * a <= 0.5 * c
  {
    Regroup(q, s, c);
    BoundedTimes(o - q * s, c);
    DifferenceTimes(o, q * s, c);
  }

  lemma DifferenceTimes(x: real, y: real, c: real)
    ensures Product(x - y, c) == x * c - y * c
  {}

  lemma BoundedTimes(e: real, c: real)
    requires c > 0.0 && -0.5 < e <= 0.5
    ensures -0.5 * c < Product(e, c) <= 0.5 * c
  {}

  lemma Regroup(q: real, s: real, c: real)
    ensures (q * s) * c == s * Product(q, c)
  {}

  /**
   The overall score, in hundredths, is ten thousand times benefit over cost, rounded half up. Without a
   known cost the cost is one.
   */
  lemma OverallIsRatio(w: WeightVector, v: Values)
    requires ValidVector(w) && InUnit(v)
    ensures var o, b, c := Overall(w, v) as real, Benefit(w, v), Cost(w, v);
      c >= 1.0 && -0.5 * c < o * c - 10000.0 * b <= 0.5 * c
    ensures Effort !in v && Risk !in v ==> Cost(w, v) == 1.0
  {
    var b, c := Benefit(w, v), Cost(w, v);
    CostAtLeastOne(w, v);
    BenefitInUnit(w, v);
    RatioInRange(100.0 * b, c);
    RoundedRatio(100.0 * b, c, 100);
  }

  lemma RatioInRange(a: real, c: real)
    requires 0.0 <= a <= 100.0 && c >= 1.0
    ensures Clip(Quotient(a, c), 100.0) == Quotient(a, c)
  {
    MeanBounded(a, c, 0.0, 100.0);
  }

  lemma RevealedSums(w: WeightVector, v: Values, d: Dimension, x: real, v': Values)
    requires ValidVector(w) && d in BENEFIT && d !in v && v' == v[d := x]
    ensures Weight(w, v') == Weight(w, v) + w.benefit[d] >= Weight(w, v)
    ensures WeightedSum(w.benefit, v', BENEFIT) == WeightedSum(w.benefit, v, BENEFIT) + Product(w.benefit[d], x)
  {
    SumsReveal(w.benefit, v, BENEFIT, d, x);
    assert w.benefit[d] >= 0.0;
  }

  /** The benefit is the weighted mean: a revealed dimension enters with exactly its weight. */
  lemma RevealingIsWeighted(w: WeightVector, v: Values, d: Dimension, x: real, v': Values)
    requires ValidVector(w) && d in BENEFIT && d !in v && v' == v[d := x] && Weight(w, v) > 0.0
    ensures Weight(w, v') == Weight(w, v) + w.benefit[d] > 0.0
    ensures Product(Benefit(w, v'), Weight(w, v')) == Product(Benefit(w, v), Weight(w, v)) + Product(w.benefit[d], x)
  {
    RevealedSums(w, v, d, x, v');
    SumsAreMeans(w, v, v', w.benefit[d], x);
  }

  lemma SumsAreMeans(w: WeightVector, v: Values, v': Values, wd: real, x: real)
    requires ValidVector(w) && Weight(w, v) > 0.0 && Weight(w, v') > 0.0
    requires WeightedSum(w.benefit, v', BENEFIT) == WeightedSum(w.benefit, v, BENEFIT) + Product(wd, x)
    ensures Product(Benefit(w, v'), Weight(w, v')) == Product(Benefit(w, v), Weight(w, v)) + Product(wd, x)
  {
    MeanTimesWeight(w, v);
    MeanTimesWeight(w, v');
  }

  lemma MeanTimesWeight(w: WeightVector, v: Values)
    requires ValidVector(w) && Weight(w, v) > 0.0
    ensures Product(Benefit(w, v), Weight(w, v)) == WeightedSum(w.benefit, v, BENEFIT)
  {
    QuotientTimes(WeightedSum(w.benefit, v, BENEFIT), Weight(w, v));
  }

  // ---- Confidence ---------------------------------------------------------------------

  /** What a dimension weighs in the confidence. */
  function WeightOf(w: WeightVector, d: Dimension): real
    requires ValidVector(w)
  {
    if d == Effort then w.effort else if d == Risk then w.risk else if d in w.benefit then w.benefit[d] else 0.0
  }

  /** Revealing any dimension adds exactly its own weight to the known weight. */
  lemma RevealingAddsItsWeight(w: WeightVector, v: Values, d: Dimension, x: real)
    requires ValidVector(w) && d !in v
    ensures KnownTotal(w, v[d := x]) == KnownTotal(w, v) + WeightOf(w, d)
  {
    if d in BENEFIT {
      RevealedSums(w, v, d, x, v[d := x]);
    } else {
      BenefitIgnoresCosts(w, v, d, x);
      assert d == Effort || d == Risk;
    }
  }

  lemma {:induction false} NothingKnown(w: map<Dimension, real>, dims: seq<Dimension>)
    requires forall d :: d in dims ==> d in w
    ensures KnownWeight(w, map[], dims) == 0.0
  {
    if dims != [] {
      NothingKnown(w, dims[1..]);
    }
  }

  lemma {:induction false} AllKnown(w: map<Dimension, real>, v: Values, dims: seq<Dimension>)
    requires forall d :: d in dims ==> d in w && d in v
    ensures KnownWeight(w, v, dims) == Sum(w, dims)
  {
    if dims != [] {
      assert dims[0] in dims;
      AllKnown(w, v, dims[1..]);
    }
  }

  lemma WholeRatio(t: real)
    requires t > 0.0
    ensures Quotient(t, t) == 1.0
  {}

  /** Confidence is the known share of all weight, rounded half up. */
  lemma ConfidenceIsShare(w: WeightVector, v: Values)
    requires ValidVector(w)
    ensures var c, t, k := Confidence(w, v) as real, 1.0 + w.effort + w.risk, KnownTotal(w, v);
      -0.5 * t < c * t - 10000.0 * k <= 0.5 * t
  {
    RoundedRatio(KnownTotal(w, v), 1.0 + w.effort + w.risk, 10000);
  }

  /** Nothing known is no confidence, everything known is full confidence. */
  lemma ConfidenceExtremes(w: WeightVector, v: Values)
    requires ValidVector(w)
    ensures v == map[] ==> Confidence(w, v) == 0
    ensures Sum(w.benefit, BENEFIT) == 1.0 && (forall d: Dimension :: d in v) ==> Confidence(w, v) == 10000
  {
    if v == map[] {
      NothingKnown(w.benefit, BENEFIT);
    }
    if Sum(w.benefit, BENEFIT) == 1.0 && forall d: Dimension :: d in v {
      AllKnown(w.benefit, v, BENEFIT);
      WholeRatio(1.0 + w.effort + w.risk);
    }
  }

  // ---- Verdicts -----------------------------------------------------------------------

  /** The verdict of an eligible row by bands of the score; thin evidence turns the two upper bands into WAIT. */
  lemma VerdictBands(overall: int, confidence: int, eligible: Option<bool>)
    ensures var r := Recommend(overall, confidence, eligible);
      && (r == Ineligible <==> eligible == Some(false))
      && (eligible != Some(false) ==>
        && (r == StronglyPursue <==> 8200 <= overall && 4500 <= confidence)
        && (r == Pursue <==> 6600 <= overall < 8200 && 4500 <= confidence)
        && (r == Wait <==> 6600 <= overall && confidence < 4500)
        && (r == Consider <==> 4500 <= overall < 6600)
        && (r == LowPriority <==> 2800 <= overall < 4500)
        && (r == Ignore <==> overall < 2800))
  {}

  // ---- What is accepted -----------------------------------------------------------------

  /** Numbers are capped to [0, 1], anything else is unknown. */
  lemma ClampIs(v: Input)
    ensures v.Number? && 0.0 <= v.value <= 1.0 ==> ClampUnit(v) == Some(v.value)
    ensures v.Number? && v.value < 0.0 ==> ClampUnit(v) == Some(0.0)
    ensures v.Number? && v.value > 1.0 ==> ClampUnit(v) == Some(1.0)
    ensures !v.Number? ==> ClampUnit(v) == None
  {}

  /** A dimension is known exactly when it is supplied with a number. */
  lemma KnownIs(factors: map<Dimension, Input>, d: Dimension)
    ensures d in Known(factors) <==> d in factors && factors[d].Number?
    ensures d in Known(factors) ==> Some(Known(factors)[d]) == ClampUnit(factors[d])
  {}

  /** A weight is a number that is not negative. */
  lemma WeightIs(v: Input)
    ensures ToWeight(v).Ok? <==> v.Number? && v.value >= 0.0
    ensures ToWeight(v).Ok? ==> ToWeight(v).value == v.value
  {}
}
