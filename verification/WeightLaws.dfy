/**
 What an override does to the raw weights: it replaces exactly those it names, by the last value it
 gives them.
 */
module WeightLaws {
  import opened Wrappers
  import opened Weights

  /** The last value that some entries give a dimension. */
  function LastValue(entries: seq<Entry>, d: Dimension): Option<Input> {
    if entries == [] then None
    else
      var n := |entries| - 1;
      if entries[n].0 == Named(d) then Some(entries[n].1) else LastValue(entries[..n], d)
  }

  lemma {:induction false} LastOfConcat(a: seq<Entry>, b: seq<Entry>, d: Dimension)
    ensures LastValue(a + b, d) == if LastValue(b, d).Some? then LastValue(b, d) else LastValue(a, d)
  {
    if b == [] {
      assert a + b == a;
    } else {
      var n := |b| - 1;
      assert (a + b)[..|a| + n] == a + b[..n];
      LastOfConcat(a, b[..n], d);
    }
  }

  /** A raw weight is the last value given, and absent without one. */
  lemma {:induction false} RawIsLast(entries: seq<Entry>, d: Dimension)
    requires AllGood(entries)
    ensures d in Raw(entries) <==> LastValue(entries, d).Some?
    ensures d in Raw(entries) ==> LastValue(entries, d) == Some(Number(Raw(entries)[d]))
  {
    if entries != [] {
      var n := |entries| - 1;
      assert GoodEntry(entries[n]);
      RawIsLast(entries[..n], d);
    }
  }

  lemma {:induction false} LastOfBenefitPart(override: seq<Entry>, d: Dimension)
    requires d in BENEFIT
    ensures LastValue(BenefitPart(override), d) == LastValue(override, d)
  {
    if override != [] {
      var n := |override| - 1;
      LastOfBenefitPart(override[..n], d);
      if !IsCost(override[n].0) {
        LastOfConcat(BenefitPart(override[..n]), [override[n]], d);
        assert [override[n]][..0] == [];
      } else {
        assert BenefitPart(override) == BenefitPart(override[..n]);
      }
    }
  }

  lemma {:induction false} LastOfDistinct(entries: seq<Entry>, i: nat, d: Dimension)
    requires i < |entries| && entries[i].0 == Named(d)
    requires forall j :: i < j < |entries| ==> entries[j].0 != Named(d)
    ensures LastValue(entries, d) == Some(entries[i].1)
  {
    if i < |entries| - 1 {
      LastOfDistinct(entries[..|entries| - 1], i, d);
    }
  }

  lemma LastOfBase(base: WeightVector, d: Dimension)
    requires Built(base) && d in BENEFIT
    ensures LastValue(BaseEntries(base), d) == Some(Number(base.benefit[d]))
  {
    var i :| 0 <= i < |BENEFIT| && BENEFIT[i] == d;
    BenefitDistinct();
    LastOfDistinct(BaseEntries(base), i, d);
  }

  /** An override replaces exactly the weights it names, by the last value it gives them. */
  lemma OverriddenRaw(base: WeightVector, override: seq<Entry>, d: Dimension)
    requires Built(base) && d in BENEFIT && AllGood(BaseEntries(base) + BenefitPart(override))
    ensures var raw := Raw(BaseEntries(base) + BenefitPart(override));
      && d in raw
      && Number(raw[d]) ==
        if LastValue(override, d).Some? then LastValue(override, d).value else Number(base.benefit[d])
  {
    var entries := BaseEntries(base) + BenefitPart(override);
    RawIsLast(entries, d);
    LastOfConcat(BaseEntries(base), BenefitPart(override), d);
    LastOfBenefitPart(override, d);
    LastOfBase(base, d);
  }

  /** So do the cost weights. */
  lemma {:induction false} OverriddenCost(override: seq<Entry>, d: Dimension, base: real)
    ensures CostPart(override, d, base) ==
      if LastValue(override, d).Some? then LastValue(override, d).value else Number(base)
  {
    if override != [] {
      OverriddenCost(override[..|override| - 1], d, base);
    }
  }
}
