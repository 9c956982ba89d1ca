/** The last stages of an investigation: stress-testing the top candidates and deciding on them. */
module Decisions {
  import opened Wrappers
  import opened Vocabulary
  import opened StableSort

  // ---- The gates -------------------------------------------------------------------

  const CONFIDENCE_FLOOR := 0.35

  function ApplyConfidenceFloor(r: Recommendation, confidence: real): Recommendation {
    if confidence < CONFIDENCE_FLOOR && r in {StronglyPursue, Pursue} then Consider else r
  }

  /** The outcome of the gates, and whether the verdict changed. */
  datatype Gated = Gated(recommendation: Recommendation, confidence: real, changed: bool)

  /** Downgrades by the verdict pressure of a counter-analysis, if there is one. */
  method ApplyContrarianPressure(r: Recommendation, confidence: real, pressure: Option<real>) returns (g: Gated)
    ensures g == Gate(r, confidence, pressure)
  {
    var updated := ApplyConfidenceFloor(r, confidence);
    var adjusted := confidence;
    if pressure.None? {
      return Gated(updated, adjusted, updated != r);
    }
    var p := pressure.value;
    if p >= 0.75 && updated == StronglyPursue {
      updated := Pursue;
      adjusted := adjusted * 0.85;
    } else if p >= 0.55 && updated in {StronglyPursue, Pursue} {
      updated := Consider;
      adjusted := adjusted * 0.75;
    } else if p >= 0.4 && updated == StronglyPursue {
      updated := Pursue;
      adjusted := adjusted * 0.9;
    }
    g := Gated(updated, adjusted, updated != r);
  }

  /** The verdict a pressure leads to, and the factor it costs, after the confidence floor. */
  function Downgrade(r: Recommendation, p: real): (Recommendation, real) {
    match r
    case StronglyPursue =>
      if p >= 0.75 then (Pursue, 0.85)
      else if p >= 0.55 then (Consider, 0.75)
      else if p >= 0.4 then (Pursue, 0.9)
      else (r, 1.0)
    case Pursue => if p >= 0.55 then (Consider, 0.75) else (r, 1.0)
    case _ => (r, 1.0)
  }

  function Gate(r: Recommendation, confidence: real, pressure: Option<real>): Gated {
    var floored := ApplyConfidenceFloor(r, confidence);
    match pressure
    case None => Gated(floored, confidence, floored != r)
    case Some(p) =>
      var (verdict, factor) := Downgrade(floored, p);
      Gated(verdict, confidence * factor, verdict != r)
  }

  /** The gates only ever downgrade, only ever cost confidence, and never call anything ineligible or eligible. */
  lemma GatesNeverUpgrade(r: Recommendation, confidence: real, pressure: Option<real>)
    requires 0.0 <= confidence <= 1.0
    ensures var g := Gate(r, confidence, pressure);
      && Enthusiasm(g.recommendation) <= Enthusiasm(r)
      && 0.0 <= g.confidence <= confidence
      && (g.recommendation == Ineligible <==> r == Ineligible)
      && (g.changed <==> Enthusiasm(g.recommendation) < Enthusiasm(r))
      && (g.recommendation in {StronglyPursue, Pursue} ==> confidence >= CONFIDENCE_FLOOR)
  {}

  /**
   More pressure does not always downgrade further: it does so exactly unless it moves a strongly
   recommended candidate from the middle band, which lands on CONSIDER, to the top one, which lands on PURSUE.
   */
  lemma PressureMonotoneIff(r: Recommendation, confidence: real, p: real, q: real)
    requires p <= q
    ensures var more, less := Gate(r, confidence, Some(q)).recommendation, Gate(r, confidence, Some(p)).recommendation;
      Enthusiasm(more) <= Enthusiasm(less) <==>
      !(r == StronglyPursue && confidence >= CONFIDENCE_FLOOR && 0.55 <= p < 0.75 <= q)
  {}

  /** The exception is real: with pressure 0.8 a confident strong recommendation ends higher than with 0.6. */
  lemma MorePressureCanBeMilder()
    ensures Gate(StronglyPursue, 0.9, Some(0.6)).recommendation == Consider
    ensures Gate(StronglyPursue, 0.9, Some(0.8)).recommendation == Pursue
    ensures Enthusiasm(Consider) < Enthusiasm(Pursue)
  {}

  /** What a downgrade by pressure costs, band by band, for a confidence that clears the floor. */
  lemma PressureBands(confidence: real, p: real)
    requires confidence >= CONFIDENCE_FLOOR
    ensures var strong, plain := Gate(StronglyPursue, confidence, Some(p)), Gate(Pursue, confidence, Some(p));
      && (p < 0.4 ==> strong.recommendation == StronglyPursue && strong.confidence == confidence)
      && (0.4 <= p < 0.55 ==> strong.recommendation == Pursue && strong.confidence == confidence * 0.9)
      && (0.55 <= p < 0.75 ==> strong.recommendation == Consider && strong.confidence == confidence * 0.75)
      && (0.75 <= p ==> strong.recommendation == Pursue && strong.confidence == confidence * 0.85)
      && (p < 0.55 ==> plain.recommendation == Pursue && plain.confidence == confidence)
      && (0.55 <= p ==> plain.recommendation == Consider && plain.confidence == confidence * 0.75)
  {}

  /** Below the floor an enthusiastic verdict becomes CONSIDER, and pressure does no more. */
  lemma FloorComesFirst(r: Recommendation, confidence: real, pressure: Option<real>)
    requires confidence < CONFIDENCE_FLOOR || r !in {StronglyPursue, Pursue}
    ensures var g := Gate(r, confidence, pressure);
      && g.confidence == confidence
      && g.recommendation == if r in {StronglyPursue, Pursue} then Consider else r
  {}

  // ---- Scores ------------------------------------------------------------------------

  /** One entry of the score dictionary, in insertion order. */
  datatype Entry = Entry(id: nat, overall: real, confidence: real, recommendation: Recommendation)

  predicate DistinctIds(scores: seq<Entry>) {
    forall i, j :: 0 <= i < j < |scores| ==> scores[i].id != scores[j].id
  }

  predicate Confident(scores: seq<Entry>) {
    forall i :: 0 <= i < |scores| ==> 0.0 <= scores[i].confidence <= 1.0
  }

  /** `sorted(..., reverse=True)` by overall score, which is stable. */
  function ByOverall(scores: seq<Entry>): (r: seq<Entry>)
    ensures multiset(r) == multiset(scores)
  {
    SortDesc(scores, OverallOf)
  }

  function OverallOf(e: Entry): real {
    e.overall
  }

  function TopFive(scores: seq<Entry>): seq<Entry> {
    var sorted := ByOverall(scores);
    if |sorted| <= 5 then sorted else sorted[..5]
  }

  /** The ids of the entries that belong to a candidate. */
  function CandidateIds(entries: seq<Entry>, candidates: set<nat>): seq<nat> {
    if entries == [] then []
    else
      var n := |entries| - 1;
      CandidateIds(entries[..n], candidates) + if entries[n].id in candidates then [entries[n].id] else []
  }

  // ---- Stress test -----------------------------------------------------------------------

  /** The verdict pressure an agent reports for a candidate: anything in [0, 1]. */
  type Pressure = nat -> real

  ghost predicate IsPressure(pressure: Pressure) {
    forall id :: 0.0 <= pressure(id) <= 1.0
  }

  /** What a counter-analysis does to a score entry. */
  function Pressed(e: Entry, p: real): Entry {
    if p >= 0.4 then
      var c := e.confidence * (1.0 - p * 0.25);
      e.(confidence := if c >= 0.0 then c else 0.0)
    else e
  }

  /** Pressure of at least 0.4 takes a quarter of itself from the confidence; less changes nothing. */
  lemma PressedExactly(e: Entry, p: real)
    requires 0.0 <= e.confidence <= 1.0 && 0.0 <= p <= 1.0
    ensures var after := Pressed(e, p);
      && after == e.(confidence := after.confidence)
      && (p < 0.4 ==> after == e)
      && (p >= 0.4 ==> after.confidence == e.confidence - e.confidence * p / 4.0)
      && (p >= 0.4 && e.confidence > 0.0 ==> after.confidence < e.confidence)
  {
    var cut := e.confidence * p;
    assert 0.0 <= cut <= e.confidence;
    assert e.confidence * (1.0 - p * 0.25) == e.confidence - cut / 4.0;
    assert p > 0.0 && e.confidence > 0.0 ==> cut > 0.0;
  }

  function Adjust(e: Entry, touched: seq<nat>, pressure: Pressure): Entry {
    if e.id in touched then Pressed(e, pressure(e.id)) else e
  }

  function AdjustAll(scores: seq<Entry>, touched: seq<nat>, pressure: Pressure): (r: seq<Entry>)
    ensures |r| == |scores|
  {
    seq(|scores|, i requires 0 <= i < |scores| => Adjust(scores[i], touched, pressure))
  }

  /** Position of the entry of an id. */
  method IndexOf(scores: seq<Entry>, id: nat) returns (i: nat)
    requires exists k :: 0 <= k < |scores| && scores[k].id == id
    ensures i < |scores| && scores[i].id == id
  {
    i := 0;
    while scores[i].id != id
      invariant i < |scores|
      invariant forall k :: 0 <= k < i ==> scores[k].id != id
      decreases |scores| - i
    {
      i := i + 1;
    }
  }

  lemma TopIsScored(scores: seq<Entry>, k: nat)
    requires k < |TopFive(scores)|
    ensures TopFive(scores)[k] in scores
  {
    assert TopFive(scores)[k] in multiset(ByOverall(scores));
  }

  /** One stress-tested candidate more. */
  lemma AdjustStep(scores: seq<Entry>, touched: seq<nat>, pressure: Pressure, i: nat)
    requires DistinctIds(scores) && i < |scores| && scores[i].id !in touched
    ensures AdjustAll(scores, touched + [scores[i].id], pressure) ==
      AdjustAll(scores, touched, pressure)[i := Pressed(scores[i], pressure(scores[i].id))]
  {
    forall k | 0 <= k < |scores|
      ensures Adjust(scores[k], touched + [scores[i].id], pressure) ==
        if k == i then Pressed(scores[i], pressure(scores[i].id)) else Adjust(scores[k], touched, pressure)
    {
      assert k != i ==> scores[k].id != scores[i].id;
    }
  }

  /** Stress-tests the top five candidates; the scores keep their order and lose only confidence. */
  method ContrarianNode(scores: seq<Entry>, candidates: set<nat>, pressure: Pressure)
    returns (counterpoints: seq<nat>, adjusted: seq<Entry>)
    requires DistinctIds(scores)
    ensures counterpoints == CandidateIds(TopFive(scores), candidates)
    ensures adjusted == AdjustAll(scores, counterpoints, pressure)
  {
    var ranked := TopFive(scores);
    TopIsDistinct(scores);
    counterpoints, adjusted := [], scores;
    for k := 0 to |ranked|
      invariant counterpoints == CandidateIds(ranked[..k], candidates)
      invariant adjusted == AdjustAll(scores, counterpoints, pressure)
    {
      var e := ranked[k];
      assert ranked[..k + 1][..k] == ranked[..k];
      if e.id in candidates {
        TopIsScored(scores, k);
        var i := IndexOf(scores, e.id);
        SameId(scores, i, e);
        NotYet(ranked, k, candidates);
        AdjustStep(scores, counterpoints, pressure, i);
        counterpoints := counterpoints + [e.id];
        adjusted := adjusted[i := Pressed(e, pressure(e.id))];
      }
    }
    assert ranked[..|ranked|] == ranked;
  }

  lemma SameId(scores: seq<Entry>, i: nat, e: Entry)
    requires DistinctIds(scores) && i < |scores| && e in scores && scores[i].id == e.id
    ensures scores[i] == e
  {}

  lemma {:induction false} CandidateIdsMembers(entries: seq<Entry>, candidates: set<nat>)
    ensures forall id :: id in CandidateIds(entries, candidates) ==>
      exists k :: 0 <= k < |entries| && entries[k].id == id
  {
    if entries != [] {
      var n := |entries| - 1;
      CandidateIdsMembers(entries[..n], candidates);
    }
  }

  lemma NotYet(ranked: seq<Entry>, k: nat, candidates: set<nat>)
    requires DistinctIds(ranked) && k < |ranked|
    ensures ranked[k].id !in CandidateIds(ranked[..k], candidates)
  {
    CandidateIdsMembers(ranked[..k], candidates);
  }

  lemma {:induction false} SortKeepsIds(scores: seq<Entry>)
    requires DistinctIds(scores)
    ensures DistinctIds(ByOverall(scores))
  {
    if scores != [] {
      var n := |scores| - 1;
      SortKeepsIds(scores[..n]);
      forall k | 0 <= k < |ByOverall(scores[..n])|
        ensures ByOverall(scores[..n])[k].id != scores[n].id
      {
        assert ByOverall(scores[..n])[k] in multiset(scores[..n]);
      }
      InsertKeepsIds(scores[n], ByOverall(scores[..n]));
    }
  }

  lemma {:induction false} InsertKeepsIds(e: Entry, sorted: seq<Entry>)
    requires DistinctIds(sorted) && forall k :: 0 <= k < |sorted| ==> sorted[k].id != e.id
    ensures DistinctIds(InsertDesc(e, sorted, OverallOf))
  {
    if sorted != [] && sorted[|sorted| - 1].overall < e.overall {
      var n := |sorted| - 1;
      InsertKeepsIds(e, sorted[..n]);
      var front := InsertDesc(e, sorted[..n], OverallOf);
      forall k | 0 <= k < |front|
        ensures front[k].id != sorted[n].id
      {
        assert front[k] in multiset(front);
        assert front[k] == e || front[k] in multiset(sorted[..n]);
      }
    }
  }

  lemma TopIsDistinct(scores: seq<Entry>)
    requires DistinctIds(scores)
    ensures DistinctIds(TopFive(scores))
  {
    SortKeepsIds(scores);
  }

  /** The top five are the best: as many as there are up to five, and no other entry scores more than any of them. */
  lemma TopFiveAreBest(scores: seq<Entry>, k: nat, e: Entry)
    requires DistinctIds(scores) && k < |TopFive(scores)| && e in scores && e !in TopFive(scores)
    ensures |TopFive(scores)| == 5
    ensures e.overall <= TopFive(scores)[k].overall
  {
    var sorted := ByOverall(scores);
    SortDescRanked(scores, OverallOf);
    assert e in multiset(sorted);
    assert forall i :: 0 <= i < |TopFive(scores)| ==> sorted[i] == TopFive(scores)[i] && sorted[i] != e;
    var j :| 0 <= j < |sorted| && sorted[j] == e;
    assert Precedes(sorted[k], sorted[j], scores, OverallOf);
  }

  lemma TopFiveSize(scores: seq<Entry>)
    ensures |TopFive(scores)| == if |scores| <= 5 then |scores| else 5
    ensures forall i, j :: 0 <= i < j < |TopFive(scores)| ==> TopFive(scores)[i].overall >= TopFive(scores)[j].overall
  {
    var sorted := ByOverall(scores);
    SortDescRanked(scores, OverallOf);
    assert |multiset(sorted)| == |multiset(scores)|;
    forall i, j | 0 <= i < j < |TopFive(scores)|
      ensures TopFive(scores)[i].overall >= TopFive(scores)[j].overall
    {
      assert Precedes(sorted[i], sorted[j], scores, OverallOf);
    }
  }

  // ---- Decision -----------------------------------------------------------------------------

  datatype Decision = Decision(id: nat, recommendation: Recommendation, confidence: real)

  /** What is decided about one entry. */
  function DecisionOf(e: Entry, ineligible: bool, pressure: Option<real>): Decision {
    var g := Gate(if ineligible then Ineligible else e.recommendation, e.confidence, pressure);
    Decision(e.id, g.recommendation, g.confidence)
  }

  function PressureOn(id: nat, counterpoints: seq<nat>, pressure: Pressure): Option<real> {
    if id in counterpoints then Some(pressure(id)) else None
  }

  function Decided(
    entries: seq<Entry>, candidates: set<nat>, ineligible: set<nat>, counterpoints: seq<nat>, pressure: Pressure)
    : seq<Decision>
  {
    if entries == [] then []
    else
      var n := |entries| - 1;
      var e := entries[n];
      Decided(entries[..n], candidates, ineligible, counterpoints, pressure) +
        if e.id in candidates then [DecisionOf(e, e.id in ineligible, PressureOn(e.id, counterpoints, pressure))]
        else []
  }

  /** Decides on the top five of the adjusted scores. */
  method DecideNode(
    scores: seq<Entry>, candidates: set<nat>, ineligible: set<nat>, counterpoints: seq<nat>, pressure: Pressure)
    returns (decisions: seq<Decision>)
    ensures decisions == Decided(TopFive(scores), candidates, ineligible, counterpoints, pressure)
  {
    var ranked := TopFive(scores);
    decisions := [];
    for k := 0 to |ranked|
      invariant decisions == Decided(ranked[..k], candidates, ineligible, counterpoints, pressure)
    {
      var e := ranked[k];
      assert ranked[..k + 1][..k] == ranked[..k];
      if e.id !in candidates {
        continue;
      }
      var recommendation := if e.id in ineligible then Ineligible else e.recommendation;
      var g := ApplyContrarianPressure(recommendation, e.confidence, PressureOn(e.id, counterpoints, pressure));
      decisions := decisions + [Decision(e.id, g.recommendation, g.confidence)];
    }
    assert ranked[..|ranked|] == ranked;
  }

  // ---- Both together --------------------------------------------------------------------------

  /** Adjusting entries, which leaves the overall scores alone, commutes with the stable sort. */
  lemma {:induction false} SortAdjusted(scores: seq<Entry>, touched: seq<nat>, pressure: Pressure)
    ensures ByOverall(AdjustAll(scores, touched, pressure)) == AdjustAll(ByOverall(scores), touched, pressure)
  {
    if scores != [] {
      var n := |scores| - 1;
      var adjusted := AdjustAll(scores, touched, pressure);
      assert adjusted[..n] == AdjustAll(scores[..n], touched, pressure);
      SortAdjusted(scores[..n], touched, pressure);
      InsertAdjusted(scores[n], ByOverall(scores[..n]), touched, pressure);
    }
  }

  lemma AdjustSnoc(entries: seq<Entry>, e: Entry, touched: seq<nat>, pressure: Pressure)
    ensures AdjustAll(entries + [e], touched, pressure) ==
      AdjustAll(entries, touched, pressure) + [Adjust(e, touched, pressure)]
  {}

  lemma {:induction false} InsertAdjusted(e: Entry, sorted: seq<Entry>, touched: seq<nat>, pressure: Pressure)
    ensures InsertDesc(Adjust(e, touched, pressure), AdjustAll(sorted, touched, pressure), OverallOf) ==
      AdjustAll(InsertDesc(e, sorted, OverallOf), touched, pressure)
  {
    if sorted != [] {
      var n := |sorted| - 1;
      var front, last := sorted[..n], sorted[n];
      assert sorted == front + [last];
      InsertAdjusted(e, front, touched, pressure);
      InsertAdjustedSnoc(e, front, last, touched, pressure);
    }
  }

  lemma InsertAdjustedSnoc(e: Entry, front: seq<Entry>, last: Entry, touched: seq<nat>, pressure: Pressure)
    requires InsertDesc(Adjust(e, touched, pressure), AdjustAll(front, touched, pressure), OverallOf) ==
      AdjustAll(InsertDesc(e, front, OverallOf), touched, pressure)
    ensures InsertDesc(Adjust(e, touched, pressure), AdjustAll(front + [last], touched, pressure), OverallOf) ==
      AdjustAll(InsertDesc(e, front + [last], OverallOf), touched, pressure)
  {
    InsertSnoc(e, front, last, OverallOf);
    InsertSnoc(
      Adjust(e, touched, pressure), AdjustAll(front, touched, pressure), Adjust(last, touched, pressure), OverallOf);
    AdjustSnoc(front, last, touched, pressure);
    AdjustSnoc(front + [last], e, touched, pressure);
    AdjustSnoc(InsertDesc(e, front, OverallOf), last, touched, pressure);
  }

  lemma TopAdjusted(scores: seq<Entry>, touched: seq<nat>, pressure: Pressure)
    ensures TopFive(AdjustAll(scores, touched, pressure)) == AdjustAll(TopFive(scores), touched, pressure)
  {
    SortAdjusted(scores, touched, pressure);
  }

  function Ids(decisions: seq<Decision>): seq<nat> {
    seq(|decisions|, i requires 0 <= i < |decisions| => decisions[i].id)
  }

  /**
   The engine's entry for an id is no less enthusiastic and no less confident than the decision, which is
   INELIGIBLE exactly when the engine or the eligibility assessment said so.
   */
  predicate NotUpgraded(d: Decision, e: Entry, ineligible: set<nat>) {
    && d.id == e.id
    && (d.recommendation == Ineligible <==> d.id in ineligible || e.recommendation == Ineligible)
    && (d.recommendation == Ineligible || Enthusiasm(d.recommendation) <= Enthusiasm(e.recommendation))
    && 0.0 <= d.confidence <= e.confidence
  }

  lemma PressedBounds(e: Entry, p: real)
    requires 0.0 <= e.confidence <= 1.0 && 0.0 <= p <= 1.0
    ensures 0.0 <= Pressed(e, p).confidence <= e.confidence
  {
    var factor := 1.0 - p * 0.25;
    assert 0.0 <= factor <= 1.0;
    assert 0.0 <= e.confidence * factor <= e.confidence;
  }

  lemma {:induction false} DecidedFromAdjusted(
    entries: seq<Entry>, candidates: set<nat>, ineligible: set<nat>, counterpoints: seq<nat>, pressure: Pressure)
    requires IsPressure(pressure) && Confident(entries)
    ensures var ds := Decided(AdjustAll(entries, counterpoints, pressure),
      candidates, ineligible, counterpoints, pressure);
      && Ids(ds) == CandidateIds(entries, candidates)
      && forall k :: 0 <= k < |ds| ==> exists i :: 0 <= i < |entries| && NotUpgraded(ds[k], entries[i], ineligible)
  {
    if entries != [] {
      var n := |entries| - 1;
      var adjusted := AdjustAll(entries, counterpoints, pressure);
      assert adjusted[..n] == AdjustAll(entries[..n], counterpoints, pressure);
      DecidedFromAdjusted(entries[..n], candidates, ineligible, counterpoints, pressure);
      var before := Decided(adjusted[..n], candidates, ineligible, counterpoints, pressure);
      var ds := Decided(adjusted, candidates, ineligible, counterpoints, pressure);
      OneDecision(entries[n], ineligible, counterpoints, pressure);
      forall k | 0 <= k < |ds|
        ensures exists i :: 0 <= i < |entries| && NotUpgraded(ds[k], entries[i], ineligible)
      {
        if k < |before| {
          var i :| 0 <= i < n && NotUpgraded(before[k], entries[..n][i], ineligible);
          assert NotUpgraded(ds[k], entries[i], ineligible);
        } else {
          assert NotUpgraded(ds[k], entries[n], ineligible);
        }
      }
    }
  }

  lemma OneDecision(e: Entry, ineligible: set<nat>, counterpoints: seq<nat>, pressure: Pressure)
    requires IsPressure(pressure) && 0.0 <= e.confidence <= 1.0
    ensures var against := PressureOn(e.id, counterpoints, pressure);
      NotUpgraded(DecisionOf(Adjust(e, counterpoints, pressure), e.id in ineligible, against), e, ineligible)
  {
    PressedBounds(e, pressure(e.id));
    var a := Adjust(e, counterpoints, pressure);
    GatesNeverUpgrade(if e.id in ineligible then Ineligible else a.recommendation, a.confidence,
      PressureOn(e.id, counterpoints, pressure));
  }

  /**
   Every decision was stress-tested and none was upgraded: deciding on the adjusted scores re-sorts
   them into the same top five, so the decisions are about exactly the stress-tested candidates in the
   same order, and each is ineligible or no more enthusiastic, and no more confident, than the engine.
   */
  lemma DecisionsAreStressTested(scores: seq<Entry>, candidates: set<nat>, ineligible: set<nat>, pressure: Pressure)
    requires IsPressure(pressure) && Confident(scores)
    ensures var counterpoints := CandidateIds(TopFive(scores), candidates);
      var adjusted := AdjustAll(scores, counterpoints, pressure);
      var ds := Decided(TopFive(adjusted), candidates, ineligible, counterpoints, pressure);
      && Ids(ds) == counterpoints
      && forall k :: 0 <= k < |ds| ==> exists e :: e in scores && NotUpgraded(ds[k], e, ineligible)
  {
    var counterpoints := CandidateIds(TopFive(scores), candidates);
    var ds := Decided(AdjustAll(TopFive(scores), counterpoints, pressure),
      candidates, ineligible, counterpoints, pressure);
    TopAdjusted(scores, counterpoints, pressure);
    forall i | 0 <= i < |TopFive(scores)|
      ensures TopFive(scores)[i] in scores && 0.0 <= TopFive(scores)[i].confidence <= 1.0
    {
      TopIsScored(scores, i);
    }
    DecidedFromAdjusted(TopFive(scores), candidates, ineligible, counterpoints, pressure);
    forall k | 0 <= k < |ds|
      ensures exists e :: e in scores && NotUpgraded(ds[k], e, ineligible)
    {
      var i :| 0 <= i < |TopFive(scores)| && NotUpgraded(ds[k], TopFive(scores)[i], ineligible);
      assert TopFive(scores)[i] in scores;
    }
  }
}
