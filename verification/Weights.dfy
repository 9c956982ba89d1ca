/** Benefit weight vectors: normalising, quantising and repairing the rounding drift. */
module Weights {
  import opened Wrappers
  import opened Rounding

  datatype Dimension =
    | Fit | Value | Probability | Strategic | TimeSensitivity | Learning | Network | LongTerm | Effort | Risk

  const BENEFIT: seq<Dimension> :=
    [Fit, Value, Probability, Strategic, TimeSensitivity, Learning, Network, LongTerm]

  /** A key of user-supplied JSON: a dimension name, or anything else. */
  datatype KeyName = Named(dimension: Dimension) | UnknownName(text: string)

  /** A value of user-supplied JSON, as far as it matters to a Decimal. */
  datatype Input = Missing | Boolean | NotANumber | NotFinite | Number(value: real)

  datatype Error = UnknownDimension | CostDimension | BadWeight | NoPositiveWeight | MalformedVector

  datatype WeightVector = WeightVector(version: string, benefit: map<Dimension, real>, effort: real, risk: real)

  type Entry = (KeyName, Input)

  function Abs(x: real): real {
    if x < 0.0 then -x else x
  }

  function Sum(m: map<Dimension, real>, dims: seq<Dimension>): real {
    if dims == [] then 0.0 else (if dims[0] in m then m[dims[0]] else 0.0) + Sum(m, dims[1..])
  }

  function SumUnits(m: map<Dimension, int>, dims: seq<Dimension>): int {
    if dims == [] then 0 else (if dims[0] in m then m[dims[0]] else 0) + SumUnits(m, dims[1..])
  }

  /** The checks of the constructor. */
  predicate ValidVector(w: WeightVector) {
    && (forall d :: d in BENEFIT ==> d in w.benefit)
    && (forall d :: d in w.benefit ==> w.benefit[d] >= 0.0)
    && w.effort >= 0.0 && w.risk >= 0.0
    && Sum(w.benefit, BENEFIT) > 0.0
    && Abs(Sum(w.benefit, BENEFIT) - 1.0) <= 0.000001
  }

  function ToWeight(v: Input): Result<real, Error> {
    if v.Number? && v.value >= 0.0 then Ok(v.value) else Err(BadWeight)
  }

  // ---- What a build is given ------------------------------------------------

  predicate GoodEntry(e: Entry) {
    e.0.Named? && e.0.dimension in BENEFIT && ToWeight(e.1).Ok?
  }

  /** The raw weight of each named dimension: its last entry. */
  function Raw(entries: seq<Entry>): map<Dimension, real>
    requires forall i :: 0 <= i < |entries| ==> GoodEntry(entries[i])
  {
    if entries == [] then map[]
    else
      var last := entries[|entries| - 1];
      assert GoodEntry(last);
      Raw(entries[..|entries| - 1])[last.0.dimension := last.1.value]
  }

  /** The named dimensions in the order of their first entries. */
  function NamedOrder(entries: seq<Entry>): seq<Dimension> {
    if entries == [] then []
    else
      var n := |entries| - 1;
      var rest, last := NamedOrder(entries[..n]), entries[n].0;
      if last.UnknownName? || last.dimension in rest then rest else rest + [last.dimension]
  }

  /** Those of some dimensions that are not listed. */
  function Unlisted(listed: seq<Dimension>, dims: seq<Dimension>): seq<Dimension> {
    if dims == [] then []
    else
      var n := |dims| - 1;
      Unlisted(listed, dims[..n]) + if dims[n] in listed then [] else [dims[n]]
  }

  /** The order of the dictionary: as named, then the missing ones in their standard order. */
  function FullOrder(entries: seq<Entry>): seq<Dimension> {
    NamedOrder(entries) + Unlisted(NamedOrder(entries), BENEFIT)
  }

  /** Position `i` holds the first of the dimensions whose quantised ratio is greatest. */
  predicate IsFirstHeaviest(exact: map<Dimension, real>, order: seq<Dimension>, i: nat) {
    && i < |order| && (forall d :: d in order ==> d in exact)
    && (forall j :: 0 <= j < i ==> HalfEven(exact[order[j]], UNITS) < HalfEven(exact[order[i]], UNITS))
    && (forall j :: i <= j < |order| ==> HalfEven(exact[order[j]], UNITS) <= HalfEven(exact[order[i]], UNITS))
  }

  /** Every weight but the heaviest is just its rounded ratio. */
  predicate RoundedExcept(benefit: map<Dimension, real>, exact: map<Dimension, real>, heaviest: Dimension) {
    forall d :: d in BENEFIT && d != heaviest ==>
      d in benefit && d in exact && benefit[d] == HalfEven(exact[d], UNITS) as real / UNITS as real
  }

  /** The rounding drift is in the first heaviest weight alone. */
  predicate DriftInHeaviest(benefit: map<Dimension, real>, exact: map<Dimension, real>, order: seq<Dimension>) {
    exists i :: 0 <= i < |order| && IsFirstHeaviest(exact, order, i) && RoundedExcept(benefit, exact, order[i])
  }

  /** With unnamed dimensions weighing nothing. */
  function Complete(raw: map<Dimension, real>): map<Dimension, real> {
    map d | d in BENEFIT :: if d in raw then raw[d] else 0.0
  }

  /** The first dimension of greatest weight. */
  function Heaviest(m: map<Dimension, int>, dims: seq<Dimension>): (r: Dimension)
    requires dims != [] && forall d :: d in dims ==> d in m
    ensures r in dims && forall d :: d in dims ==> m[d] <= m[r]
  {
    if |dims| == 1 then dims[0]
    else
      var rest := Heaviest(m, dims[..|dims| - 1]);
      assert dims == dims[..|dims| - 1] + [dims[|dims| - 1]];
      if m[dims[|dims| - 1]] > m[rest] then dims[|dims| - 1] else rest
  }

  /** One unit is the quantum 0.00000001. */
  const UNITS := 100_000_000

  /** What a build promises about the vector it returns, in terms of the exact ratios of the raw weights. */
  predicate Normalised(benefit: map<Dimension, real>, exact: map<Dimension, real>) {
    && (forall d :: d in BENEFIT ==> d in benefit && d in exact)
    && Sum(benefit, BENEFIT) == 1.0
    && (forall d :: d in BENEFIT ==> EntryOk(benefit[d], exact[d]))
  }

  /** A weight is not negative, zero where the exact ratio is, and within 4.5 units of it. */
  predicate EntryOk(weight: real, exact: real) {
    weight >= 0.0 && (exact == 0.0 ==> weight == 0.0) && Abs(weight - exact) <= 0.000000045
  }

  /** Non-negative ratios that sum to one. */
  predicate AreShares(exact: map<Dimension, real>) {
    && (forall d :: d in exact <==> d in BENEFIT)
    && (forall d :: d in exact ==> exact[d] >= 0.0)
    && Sum(exact, BENEFIT) == 1.0
  }

  // ---- Sums ------------------------------------------------------------------

  /** The ratios of a total. */
  function Ratios(m: map<Dimension, real>, total: real): map<Dimension, real>
    requires total != 0.0
  {
    map d | d in m :: m[d] / total
  }

  lemma {:induction false} SumRatios(m: map<Dimension, real>, dims: seq<Dimension>, total: real)
    requires total != 0.0
    ensures Sum(Ratios(m, total), dims) == Sum(m, dims) / total
  {
    if dims != [] {
      SumRatios(m, dims[1..], total);
      AddRatios(if dims[0] in m then m[dims[0]] else 0.0, Sum(m, dims[1..]), total);
    }
  }

  lemma AddRatios(a: real, b: real, total: real)
    requires total != 0.0
    ensures a / total + b / total == (a + b) / total
  {}

  predicate QuantisedFrom(q: map<Dimension, int>, exact: map<Dimension, real>, dims: seq<Dimension>) {
    forall d :: d in dims ==> d in exact && d in q && q[d] == HalfEven(exact[d], UNITS)
  }

  function Quantised(exact: map<Dimension, real>): map<Dimension, int> {
    map d | d in exact :: HalfEven(exact[d], UNITS)
  }

  lemma QuantisedAll(exact: map<Dimension, real>, dims: seq<Dimension>)
    requires forall d :: d in dims ==> d in exact
    ensures QuantisedFrom(Quantised(exact), exact, dims)
  {}

  /** Quantising each weight moves the sum by at most half a unit a weight. */
  lemma {:induction false} SumQuantised(exact: map<Dimension, real>, q: map<Dimension, int>, dims: seq<Dimension>)
    requires QuantisedFrom(q, exact, dims)
    ensures -0.5 * |dims| as real <= SumUnits(q, dims) as real - Sum(exact, dims) * UNITS as real
      <= 0.5 * |dims| as real
  {
    if dims != [] {
      assert dims[0] in dims;
      SumQuantised(exact, q, dims[1..]);
      HalfEvenClose(exact[dims[0]], UNITS);
      assert (exact[dims[0]] + Sum(exact, dims[1..])) * UNITS as real ==
        exact[dims[0]] * UNITS as real + Sum(exact, dims[1..]) * UNITS as real;
    }
  }

  lemma {:induction false} SumBelowMax(m: map<Dimension, int>, dims: seq<Dimension>, top: int)
    requires forall d :: d in dims ==> d in m && m[d] <= top
    ensures SumUnits(m, dims) <= |dims| * top
  {
    if dims != [] {
      assert dims[0] in dims;
      SumBelowMax(m, dims[1..], top);
    }
  }

  lemma {:induction false} SumUnitsOutside(m: map<Dimension, int>, dims: seq<Dimension>, h: Dimension, x: int)
    requires h !in dims
    ensures SumUnits(m[h := x], dims) == SumUnits(m, dims)
  {
    if dims != [] {
      assert dims[0] in dims;
      SumUnitsOutside(m, dims[1..], h, x);
    }
  }

  /** Changing one weight changes the sum by as much. */
  lemma {:induction false} SumUnitsUpdate(m: map<Dimension, int>, dims: seq<Dimension>, h: Dimension, x: int)
    requires h in dims && h in m
    requires forall i, j :: 0 <= i < j < |dims| ==> dims[i] != dims[j]
    ensures SumUnits(m[h := x], dims) == SumUnits(m, dims) - m[h] + x
  {
    assert dims == [dims[0]] + dims[1..];
    if dims[0] == h {
      SumUnitsOutside(m, dims[1..], h, x);
    } else {
      SumUnitsUpdate(m, dims[1..], h, x);
    }
  }

  lemma {:induction false} SumOfUnits(m: map<Dimension, int>, dims: seq<Dimension>)
    ensures Sum(map d | d in m :: m[d] as real / UNITS as real, dims) == SumUnits(m, dims) as real / UNITS as real
  {
    if dims != [] {
      SumOfUnits(m, dims[1..]);
    }
  }

  lemma {:induction false} SumPositive(m: map<Dimension, real>, dims: seq<Dimension>)
    requires forall d :: d in m ==> m[d] >= 0.0
    ensures Sum(m, dims) >= 0.0
    ensures forall d :: d in dims && d in m ==> m[d] <= Sum(m, dims)
  {
    if dims != [] {
      SumPositive(m, dims[1..]);
      assert dims == [dims[0]] + dims[1..];
    }
  }

  // ---- Building --------------------------------------------------------------

  function Total(entries: seq<Entry>): real
    requires AllGood(entries)
  {
    Sum(Complete(Raw(entries)), BENEFIT)
  }

  predicate AllGood(entries: seq<Entry>) {
    forall i :: 0 <= i < |entries| ==> GoodEntry(entries[i])
  }

  /** What a build accepts: benefit dimensions with usable weights, one of them positive, and usable cost weights. */
  predicate Accepts(entries: seq<Entry>, effort: Input, risk: Input) {
    && AllGood(entries) && Total(entries) > 0.0
    && ToWeight(effort).Ok? && ToWeight(risk).Ok?
  }

  lemma {:induction false} RawNonNegative(entries: seq<Entry>)
    requires AllGood(entries)
    ensures forall d :: d in Raw(entries) ==> d in BENEFIT && Raw(entries)[d] >= 0.0
  {
    if entries != [] {
      assert GoodEntry(entries[|entries| - 1]);
      RawNonNegative(entries[..|entries| - 1]);
    }
  }

  /** The quantised ratios, with the drift given to `h`. */
  function Repaired(q: map<Dimension, int>, h: Dimension): map<Dimension, int>
    requires h in q
  {
    q[h := q[h] + (UNITS - SumUnits(q, BENEFIT))]
  }

  function InUnits(m: map<Dimension, int>): map<Dimension, real> {
    map d | d in m :: m[d] as real / UNITS as real
  }

  lemma BenefitDistinct()
    ensures forall i, j :: 0 <= i < j < |BENEFIT| ==> BENEFIT[i] != BENEFIT[j]
  {}

  lemma SelfRatio(x: real)
    requires x != 0.0
    ensures x / x == 1.0
  {}

  /** The drift is at most four units, and the heaviest weight is worth far more than that. */
  lemma DriftIsSmall(exact: map<Dimension, real>, q: map<Dimension, int>, h: Dimension)
    requires QuantisedFrom(q, exact, BENEFIT) && Sum(exact, BENEFIT) == 1.0
    requires h in BENEFIT && forall d :: d in BENEFIT ==> q[d] <= q[h]
    ensures -4 <= UNITS - SumUnits(q, BENEFIT) <= 4
    ensures q[h] > 4
  {
    SumQuantised(exact, q, BENEFIT);
    SumBelowMax(q, BENEFIT, q[h]);
  }

  /** An entry within half a unit, shifted by at most four, is within 4.5 units of its exact ratio. */
  lemma ShiftedEntry(q: int, shift: int, exact: real)
    requires -4 <= shift <= 4 && -0.5 <= q as real - exact * UNITS as real <= 0.5
    ensures Abs((q + shift) as real / UNITS as real - exact) <= 0.000000045
  {}

  /** One repaired entry: non-negative, zero where the exact ratio is, and close to it. */
  lemma RepairedEntry(exact: real, q: int, shift: int)
    requires 0.0 <= exact && q == HalfEven(exact, UNITS)
    requires shift == 0 || (-4 <= shift <= 4 && q > 4)
    ensures EntryOk((q + shift) as real / UNITS as real, exact)
  {
    HalfEvenMonotone(0.0, exact, UNITS);
    HalfEvenClose(exact, UNITS);
    ShiftedEntry(q, shift, exact);
  }

  /** Giving away the drift makes the sum exact. */
  lemma RepairedSum(q: map<Dimension, int>, h: Dimension)
    requires h in BENEFIT && h in q
    ensures Sum(InUnits(Repaired(q, h)), BENEFIT) == 1.0
  {
    var fixed := Repaired(q, h);
    BenefitDistinct();
    SumUnitsUpdate(q, BENEFIT, h, fixed[h]);
    SumOfUnits(fixed, BENEFIT);
    SelfRatio(UNITS as real);
  }

  lemma RepairedIsNormalised(exact: map<Dimension, real>, q: map<Dimension, int>, h: Dimension)
    requires AreShares(exact) && QuantisedFrom(q, exact, BENEFIT)
    requires h in BENEFIT && forall d :: d in BENEFIT ==> q[d] <= q[h]
    ensures Normalised(InUnits(Repaired(q, h)), exact)
  {
    RepairedSum(q, h);
    DriftIsSmall(exact, q, h);
    forall d | d in BENEFIT
      ensures EntryOk(InUnits(Repaired(q, h))[d], exact[d])
    {
      RepairedEntry(exact[d], q[d], Repaired(q, h)[d] - q[d]);
    }
  }

  /** The position of the heaviest dimension. */
  lemma {:induction false} HeaviestIsFirst(m: map<Dimension, int>, dims: seq<Dimension>) returns (i: nat)
    requires dims != [] && forall d :: d in dims ==> d in m
    ensures i < |dims| && dims[i] == Heaviest(m, dims)
    ensures forall j :: 0 <= j < i ==> m[dims[j]] < m[dims[i]]
  {
    var n := |dims| - 1;
    if n == 0 {
      i := 0;
    } else {
      var front := dims[..n];
      i := HeaviestIsFirst(m, front);
      assert forall j :: 0 <= j < n ==> dims[j] == front[j] && front[j] in front;
      if m[dims[n]] > m[dims[i]] {
        i := n;
      }
    }
  }

  lemma RoundedButOne(exact: map<Dimension, real>, q: map<Dimension, int>, h: Dimension)
    requires q == Quantised(exact) && h in q && forall d :: d in BENEFIT ==> d in exact
    ensures RoundedExcept(InUnits(Repaired(q, h)), exact, h)
  {}

  lemma FirstHeaviest(exact: map<Dimension, real>, q: map<Dimension, int>, order: seq<Dimension>) returns (i: nat)
    requires q == Quantised(exact) && order != [] && forall d :: d in order ==> d in q
    ensures IsFirstHeaviest(exact, order, i) && order[i] == Heaviest(q, order)
  {
    i := HeaviestIsFirst(q, order);
    assert forall j :: 0 <= j < |order| ==> order[j] in order;
  }

  lemma DriftToHeaviest(exact: map<Dimension, real>, order: seq<Dimension>)
    requires order != [] && (forall d :: d in order ==> d in Quantised(exact))
    requires forall d :: d in BENEFIT ==> d in exact
    ensures var q := Quantised(exact);
      DriftInHeaviest(InUnits(Repaired(q, Heaviest(q, order))), exact, order)
  {
    var q := Quantised(exact);
    var i := FirstHeaviest(exact, q, order);
    RoundedButOne(exact, q, order[i]);
  }

  lemma NormalisedByHeaviest(exact: map<Dimension, real>, order: seq<Dimension>)
    requires AreShares(exact) && forall d :: d in order <==> d in BENEFIT
    ensures order != [] && forall d :: d in order ==> d in Quantised(exact)
    ensures var h := Heaviest(Quantised(exact), order);
      && Normalised(InUnits(Repaired(Quantised(exact), h)), exact)
      && forall d :: d in BENEFIT <==> d in InUnits(Repaired(Quantised(exact), h))
  {
    assert Fit in BENEFIT;
    QuantisedAll(exact, BENEFIT);
    RepairedIsNormalised(exact, Quantised(exact), Heaviest(Quantised(exact), order));
  }

  /** The ratios of non-negative weights to their positive sum are shares. */
  lemma RatiosAreShares(raw: map<Dimension, real>)
    requires forall d :: d in raw <==> d in BENEFIT
    requires forall d :: d in raw ==> raw[d] >= 0.0
    requires Sum(raw, BENEFIT) > 0.0
    ensures AreShares(Ratios(raw, Sum(raw, BENEFIT)))
  {
    SumRatios(raw, BENEFIT, Sum(raw, BENEFIT));
    SelfRatio(Sum(raw, BENEFIT));
  }

  /** Reads the supplied entries into a dictionary, keeping its insertion order. */
  method ReadEntries(entries: seq<Entry>) returns (r: Result<map<Dimension, real>, Error>, order: seq<Dimension>)
    ensures r.Ok? <==> AllGood(entries)
    ensures r.Ok? ==> r.value == Raw(entries) && forall d :: d in order <==> d in r.value
    ensures r.Ok? ==> order == NamedOrder(entries)
    ensures r != Err(MalformedVector)
  {
    var raw: map<Dimension, real> := map[];
    order := [];
    for i := 0 to |entries|
      invariant AllGood(entries[..i]) && raw == Raw(entries[..i])
      invariant forall d :: d in order <==> d in raw
      invariant order == NamedOrder(entries[..i])
    {
      assert entries[..i + 1][..i] == entries[..i];
      var (key, value) := entries[i];
      var entry := entries[i];
      if key.UnknownName? {
        return Err(UnknownDimension), order;
      }
      if key.dimension !in BENEFIT {
        return Err(CostDimension), order;
      }
      var number := ToWeight(value);
      if number.Err? {
        return Err(BadWeight), order;
      }
      if key.dimension !in order {
        order := order + [key.dimension];
      }
      raw := raw[key.dimension := number.value];
      assert entries[..i + 1] == entries[..i] + [entry] && GoodEntry(entry);
    }
    assert entries[..|entries|] == entries;
    r := Ok(raw);
  }

  /** The `setdefault` loop. */
  method FillMissing(given: map<Dimension, real>, listed: seq<Dimension>)
    returns (raw: map<Dimension, real>, order: seq<Dimension>)
    requires forall d :: d in given ==> d in BENEFIT
    requires forall d :: d in listed <==> d in given
    ensures raw == Complete(given)
    ensures forall d :: d in order <==> d in BENEFIT
    ensures order == listed + Unlisted(listed, BENEFIT)
  {
    BenefitDistinct();
    raw, order := FillFrom(given, listed, BENEFIT);
  }

  method FillFrom(given: map<Dimension, real>, listed: seq<Dimension>, dims: seq<Dimension>)
    returns (raw: map<Dimension, real>, order: seq<Dimension>)
    requires (forall d :: d in given ==> d in dims) && forall d :: d in listed <==> d in given
    requires forall i, j :: 0 <= i < j < |dims| ==> dims[i] != dims[j]
    ensures forall d :: d in raw <==> d in dims
    ensures forall d :: d in raw ==> raw[d] == if d in given then given[d] else 0.0
    ensures forall d :: d in order <==> d in dims
    ensures order == listed + Unlisted(listed, dims)
  {
    raw, order := given, listed;
    for i := 0 to |dims|
      invariant raw == WithDefaults(given, dims[..i])
      invariant order == listed + Unlisted(listed, dims[..i])
    {
      NextUnlisted(listed, dims, i);
      DefaultsStep(given, dims, i);
      if dims[i] !in raw {
        raw := raw[dims[i] := 0.0];
        order := order + [dims[i]];
      }
    }
    assert dims[..|dims|] == dims;
    DefaultsAre(given, dims);
    OrderCovers(listed, dims);
  }

  /** Some weights, and zero for the other dimensions. */
  function WithDefaults(given: map<Dimension, real>, dims: seq<Dimension>): map<Dimension, real> {
    if dims == [] then given
    else
      var n := |dims| - 1;
      var rest := WithDefaults(given, dims[..n]);
      if dims[n] in rest then rest else rest[dims[n] := 0.0]
  }

  lemma {:induction false} DefaultsAre(given: map<Dimension, real>, dims: seq<Dimension>)
    ensures forall d :: d in WithDefaults(given, dims) <==> d in given || d in dims
    ensures forall d :: d in WithDefaults(given, dims) ==>
      WithDefaults(given, dims)[d] == if d in given then given[d] else 0.0
  {
    if dims != [] {
      var n := |dims| - 1;
      DefaultsAre(given, dims[..n]);
      assert dims == dims[..n] + [dims[n]];
    }
  }

  lemma DefaultsStep(given: map<Dimension, real>, dims: seq<Dimension>, i: nat)
    requires i < |dims| && forall i, j :: 0 <= i < j < |dims| ==> dims[i] != dims[j]
    ensures var rest := WithDefaults(given, dims[..i]);
      && WithDefaults(given, dims[..i + 1]) == (if dims[i] in rest then rest else rest[dims[i] := 0.0])
      && (dims[i] in rest <==> dims[i] in given)
  {
    assert dims[..i + 1][..i] == dims[..i];
    DefaultsAre(given, dims[..i]);
    assert dims[i] !in dims[..i];
  }

  lemma {:induction false} OrderCovers(listed: seq<Dimension>, dims: seq<Dimension>)
    ensures forall d :: d in listed + Unlisted(listed, dims) <==> d in listed || d in dims
  {
    if dims != [] {
      var n := |dims| - 1;
      OrderCovers(listed, dims[..n]);
      assert dims == dims[..n] + [dims[n]];
    }
  }

  lemma NextUnlisted(listed: seq<Dimension>, dims: seq<Dimension>, i: nat)
    requires i < |dims| && forall i, j :: 0 <= i < j < |dims| ==> dims[i] != dims[j]
    ensures dims[i] !in dims[..i] && dims[..i + 1] == dims[..i] + [dims[i]]
    ensures Unlisted(listed, dims[..i + 1]) ==
      Unlisted(listed, dims[..i]) + if dims[i] in listed then [] else [dims[i]]
  {
    assert dims[..i + 1][..i] == dims[..i];
  }

  /** Quantises the ratios and gives the drift to the heaviest entry. */
  method Quantise(normalised: map<Dimension, real>, order: seq<Dimension>) returns (benefit: map<Dimension, real>)
    requires AreShares(normalised) && forall d :: d in order <==> d in BENEFIT
    ensures Normalised(benefit, normalised) && DriftInHeaviest(benefit, normalised, order)
    ensures forall d :: d in BENEFIT <==> d in benefit
  {
    var quantised := Quantised(normalised);
    NormalisedByHeaviest(normalised, order);
    DriftToHeaviest(normalised, order);
    var drift := UNITS - SumUnits(quantised, BENEFIT);
    var heaviest := Heaviest(quantised, order);
    quantised := quantised[heaviest := quantised[heaviest] + drift];
    benefit := InUnits(quantised);
  }

  /**
   Normalises raw weights. Succeeds exactly on acceptable input; the result sums to exactly one,
   has no negative entry, keeps zero weights zero, and is within 4.5 quanta of the exact ratios,
   so that none of the constructor's checks can fail.
   */
  method Build(version: string, entries: seq<Entry>, effort: Input, risk: Input)
    returns (r: Result<WeightVector, Error>)
    ensures r.Ok? <==> Accepts(entries, effort, risk)
    ensures r.Ok? ==>
      && ValidVector(r.value) && r.value.version == version
      && Normalised(r.value.benefit, Ratios(Complete(Raw(entries)), Total(entries)))
      && DriftInHeaviest(r.value.benefit, Ratios(Complete(Raw(entries)), Total(entries)), FullOrder(entries))
      && r.value.effort == effort.value && r.value.risk == risk.value
    ensures r != Err(MalformedVector)
  {
    var given, listed := ReadEntries(entries);
    if given.Err? {
      return Err(given.error);
    }
    RawNonNegative(entries);
    var raw, order := FillMissing(given.value, listed);
    r := BuildFrom(version, raw, order, effort, risk);
  }

  /** What follows once the raw weights are complete. */
  method BuildFrom(version: string, raw: map<Dimension, real>, order: seq<Dimension>, effort: Input, risk: Input)
    returns (r: Result<WeightVector, Error>)
    requires (forall d :: d in raw <==> d in BENEFIT) && forall d :: d in raw ==> raw[d] >= 0.0
    requires forall d :: d in order <==> d in BENEFIT
    ensures r.Ok? <==> Sum(raw, BENEFIT) > 0.0 && ToWeight(effort).Ok? && ToWeight(risk).Ok?
    ensures r.Ok? ==>
      && ValidVector(r.value) && r.value.version == version
      && Normalised(r.value.benefit, Ratios(raw, Sum(raw, BENEFIT)))
      && DriftInHeaviest(r.value.benefit, Ratios(raw, Sum(raw, BENEFIT)), order)
      && r.value.effort == effort.value && r.value.risk == risk.value
    ensures r != Err(MalformedVector)
  {
    var total := Sum(raw, BENEFIT);
    if total <= 0.0 {
      return Err(NoPositiveWeight);
    }
    RatiosAreShares(raw);
    r := BuildShares(version, Ratios(raw, total), order, effort, risk);
  }

  method BuildShares(version: string, exact: map<Dimension, real>, order: seq<Dimension>, effort: Input, risk: Input)
    returns (r: Result<WeightVector, Error>)
    requires AreShares(exact) && forall d :: d in order <==> d in BENEFIT
    ensures r.Ok? <==> ToWeight(effort).Ok? && ToWeight(risk).Ok?
    ensures r.Ok? ==>
      && ValidVector(r.value) && r.value.version == version
      && Normalised(r.value.benefit, exact) && DriftInHeaviest(r.value.benefit, exact, order)
      && r.value.effort == effort.value && r.value.risk == risk.value
    ensures r != Err(MalformedVector)
  {
    var benefit := Quantise(exact, order);
    r := Construct(version, benefit, effort, risk);
  }

  /** The cost weights and the constructor's own checks. */
  method Construct(version: string, benefit: map<Dimension, real>, effort: Input, risk: Input)
    returns (r: Result<WeightVector, Error>)
    requires (forall d :: d in BENEFIT <==> d in benefit) && forall d :: d in benefit ==> benefit[d] >= 0.0
    requires Sum(benefit, BENEFIT) == 1.0
    ensures r.Ok? <==> ToWeight(effort).Ok? && ToWeight(risk).Ok?
    ensures r.Ok? ==> r.value == WeightVector(version, benefit, effort.value, risk.value) && ValidVector(r.value)
    ensures r != Err(MalformedVector)
  {
    var e, k := ToWeight(effort), ToWeight(risk);
    if e.Err? || k.Err? {
      return Err(BadWeight);
    }
    var w := WeightVector(version, benefit, e.value, k.value);
    if !ValidVector(w) {
      return Err(MalformedVector);
    }
    r := Ok(w);
  }

  // ---- Overrides ---------------------------------------------------------------

  /** A vector that a build returned. */
  predicate Built(w: WeightVector) {
    ValidVector(w) && forall d :: d in w.benefit ==> d in BENEFIT
  }

  function BaseEntries(w: WeightVector): seq<Entry>
    requires Built(w)
  {
    seq(|BENEFIT|, i requires 0 <= i < |BENEFIT| => (Named(BENEFIT[i]), Number(w.benefit[BENEFIT[i]])))
  }

  /** The entries of an override that name a benefit weight. */
  function BenefitPart(override: seq<Entry>): seq<Entry> {
    if override == [] then []
    else
      var n := |override| - 1;
      BenefitPart(override[..n]) + if IsCost(override[n].0) then [] else [override[n]]
  }

  predicate IsCost(k: KeyName) {
    k == Named(Effort) || k == Named(Risk)
  }

  /** The last value an override gives a cost weight, or the base value. */
  function CostPart(override: seq<Entry>, d: Dimension, base: real): Input {
    if override == [] then Number(base)
    else
      var n := |override| - 1;
      if override[n].0 == Named(d) then override[n].1 else CostPart(override[..n], d, base)
  }

  predicate AllNamed(override: seq<Entry>) {
    forall i :: 0 <= i < |override| ==> override[i].0.Named?
  }

  /**
   A partial override on top of a vector. Unknown keys and unusable weights are errors; otherwise the
   overridden raw weights replace the base weights and the whole vector is normalised again.
   */
  method WithOverride(base: WeightVector, override: seq<Entry>, version: string)
    returns (r: Result<WeightVector, Error>)
    requires Built(base)
    ensures override == [] ==> r == Ok(base)
    ensures override != [] ==>
      var entries := BaseEntries(base) + BenefitPart(override);
      var effort, risk := CostPart(override, Effort, base.effort), CostPart(override, Risk, base.risk);
      && (r.Ok? <==> AllNamed(override) && Accepts(entries, effort, risk))
      && (r.Ok? ==>
        && ValidVector(r.value) && r.value.version == version
        && Normalised(r.value.benefit, Ratios(Complete(Raw(entries)), Total(entries)))
        && r.value.effort == effort.value && r.value.risk == risk.value)
  {
    if override == [] {
      return Ok(base);
    }
    var merged := BaseEntries(base);
    var effort, risk := Number(base.effort), Number(base.risk);
    for i := 0 to |override|
      invariant AllNamed(override[..i])
      invariant merged == BaseEntries(base) + BenefitPart(override[..i])
      invariant effort == CostPart(override[..i], Effort, base.effort)
      invariant risk == CostPart(override[..i], Risk, base.risk)
    {
      var (key, value) := override[i];
      assert override[..i + 1][..i] == override[..i] && override[..i + 1][i] == override[i];
      if key == Named(Effort) {
        effort := value;
      } else if key == Named(Risk) {
        risk := value;
      } else if key.UnknownName? {
        return Err(UnknownDimension);
      } else {
        merged := merged + [override[i]];
      }
    }
    assert override[..|override|] == override;
    r := Build(version, merged, effort, risk);
  }
}
