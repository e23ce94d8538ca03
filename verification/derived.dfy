/** The operations built on top of the pipeline (src/lib/engine/generate.ts):
    re-ranking by an objective, similar materials from a catalog, and the
    more recyclable alternative to a candidate. */
module Derived {
  import opened Js
  import opened Types
  import opened Normalize
  import opened Score
  import opened Sorting
  import opened Generate

  /** The objectives of `rerankByObjective`. */
  datatype Objective = MinCo2 | MinCost | MaxDurability

  /** The objective's bonus: the CO2 figure read on a 0..10 kg scale
      inverted, or the cost or durability prediction, each over 100. */
  function ObjectiveBonus(c: Candidate, objective: Objective): real
  {
    match objective
    case MinCo2 => (100.0 - c.lca.co2 * 10.0) / 100.0
    case MinCost => At(c.predicted, Cost) / 100.0
    case MaxDurability => At(c.predicted, Durability) / 100.0
  }

  /** A candidate's score blended 80/20 with the bonus, to 4 decimals. */
  function Rescored(c: Candidate, objective: Objective): (r: Candidate)
    ensures r.(score := c.score) == c
    ensures OnGrid(r.score, 4)
    ensures -0.00005 <= r.score - (c.score * 0.8 + ObjectiveBonus(c, objective) * 0.2) <= 0.00005
  {
    RoundToErrorSmall(c.score * 0.8 + ObjectiveBonus(c, objective) * 0.2);
    RoundToGrid(c.score * 0.8 + ObjectiveBonus(c, objective) * 0.2, 4);
    c.(score := RoundTo(c.score * 0.8 + ObjectiveBonus(c, objective) * 0.2, 4))
  }

  function RescoreAll(cs: seq<Candidate>, objective: Objective): (r: seq<Candidate>)
    ensures |r| == |cs|
    ensures forall i :: 0 <= i < |cs| ==> r[i] == Rescored(cs[i], objective)
  {
    seq(|cs|, i requires 0 <= i < |cs| => Rescored(cs[i], objective))
  }

  /** `rerankByObjective`: every candidate rescored, then sorted best first
      and numbered from 1. The result is a reordering of the rescored
      candidates. */
  function RerankByObjective(cs: seq<Candidate>, objective: Objective): (r: seq<Candidate>)
    ensures |r| == |cs|
    ensures forall i :: 0 <= i < |r| ==> r[i].rank == i + 1
    ensures SortedDesc(r, Sorting.Score)
    ensures exists p :: multiset(p) == multiset(RescoreAll(cs, objective)) && r == AssignRanks(p)
  {
    SortAndRank(RescoreAll(cs, objective))
  }

  /** Every re-ranked candidate is an input candidate with only its score
      and rank replaced, and the score is the blended one. */
  lemma RerankFromInputs(cs: seq<Candidate>, objective: Objective, i: nat)
    requires i < |cs|
    ensures exists j :: (0 <= j < |cs| && RerankByObjective(cs, objective)[i] == Rescored(cs[j], objective).(rank := i + 1))
  {
    var s := RescoreAll(cs, objective);
    SortAndRankFrom(s, i);
    var j :| 0 <= j < |s| && SortAndRank(s)[i] == s[j].(rank := i + 1);
    assert s[j] == Rescored(cs[j], objective);
    assert RerankByObjective(cs, objective) == SortAndRank(s);
  }

  /** Every input candidate comes out, rescored and ranked. */
  lemma RerankKeepsEveryInput(cs: seq<Candidate>, objective: Objective, j: nat)
    requires j < |cs|
    ensures exists i :: (0 <= i < |RerankByObjective(cs, objective)| &&
      RerankByObjective(cs, objective)[i] == Rescored(cs[j], objective).(rank := i + 1))
  {
    var s := RescoreAll(cs, objective);
    SortAndRankKeeps(s, j);
    var i :| 0 <= i < |s| && SortAndRank(s)[i] == s[j].(rank := i + 1);
    assert RerankByObjective(cs, objective)[i] == Rescored(cs[j], objective).(rank := i + 1);
  }

  /** `catalog.find((m) => m.id === id)`: the first material with that id. */
  function FindById(catalog: seq<Material>, id: string): (r: Option<Material>)
    ensures r.None? <==> forall i :: 0 <= i < |catalog| ==> catalog[i].id != id
    ensures r.Some? ==> exists i :: (0 <= i < |catalog| && catalog[i] == r.value && r.value.id == id
      && forall j :: 0 <= j < i ==> catalog[j].id != id)
  {
    if |catalog| == 0 then None
    else if catalog[0].id == id then
      Some(catalog[0])
    else
      var r := FindById(catalog[1..], id);
      if r.Some? then
        var i :| 0 <= i < |catalog[1..]| && catalog[1..][i] == r.value && r.value.id == id
          && forall j :: 0 <= j < i ==> catalog[1..][j].id != id;
        assert catalog[i + 1] == r.value;
        assert forall j :: 0 <= j < i + 1 ==> catalog[j].id != id by {
          forall j | 0 <= j < i + 1 ensures catalog[j].id != id {
            if j > 0 { assert catalog[j] == catalog[1..][j - 1]; }
          }
        }
        r
      else
        assert forall i :: 0 <= i < |catalog| ==> catalog[i].id != id by {
          forall i | 0 <= i < |catalog| ensures catalog[i].id != id {
            if i > 0 { assert catalog[i] == catalog[1..][i - 1]; }
          }
        }
        r
  }

  /** The catalog without the materials of one id, in order. */
  function Others(catalog: seq<Material>, id: string): (r: seq<Material>)
    ensures |r| <= |catalog|
    ensures forall m :: m in r <==> m in catalog && m.id != id
  {
    if |catalog| == 0 then []
    else
      var rest := Others(catalog[..|catalog| - 1], id);
      var m := catalog[|catalog| - 1];
      assert catalog == catalog[..|catalog| - 1] + [m];
      if m.id != id then rest + [m] else rest
  }

  /** Dropping one id keeps the order and splits over concatenation:
      filtering a + b is filtering a, then b. */
  lemma {:induction false} OthersAppend(a: seq<Material>, b: seq<Material>, id: string)
    ensures Others(a + b, id) == Others(a, id) + Others(b, id)
    decreases |b|
  {
    if |b| == 0 {
      assert a + b == a;
    } else {
      var b' := b[..|b| - 1];
      assert (a + b)[..|a + b| - 1] == a + b';
      assert (a + b)[|a + b| - 1] == b[|b| - 1];
      OthersAppend(a, b', id);
    }
  }

  /** A single material is kept exactly when it passes. */
  lemma OthersSingle(x: Material, id: string)
    ensures Others([x], id) == (if x.id != id then [x] else [])
  {
    assert [x][..0] == [];
  }

  /** `findSimilarMaterialsFromCatalog`: for a known id, the other materials
      of the catalog, most similar first, cut by `slice(0, limit)`; for an
      unknown id, nothing. */
  function FindSimilarMaterialsFromCatalog(catalog: seq<Material>, targetId: string, limit: int, sqrt: real -> real): (r: seq<Material>)
    requires IsSqrt(sqrt)
    ensures FindById(catalog, targetId).None? ==> r == []
    ensures forall i :: 0 <= i < |r| ==> r[i] in catalog && r[i].id != targetId
    ensures 0 <= limit ==> |r| <= limit
    ensures FindById(catalog, targetId).Some? && 0 <= limit ==>
      |r| == if limit < |Others(catalog, targetId)| then limit else |Others(catalog, targetId)|
    ensures FindById(catalog, targetId).Some? ==>
      var source := FindById(catalog, targetId).value.properties;
      && (forall i, j :: 0 <= i < j < |r| ==>
            CosineSimilarity(source, r[i].properties, sqrt) >= CosineSimilarity(source, r[j].properties, sqrt))
      && (forall m :: m in Others(catalog, targetId) && m !in r && |r| > 0 ==>
            CosineSimilarity(source, m.properties, sqrt) <= CosineSimilarity(source, r[|r| - 1].properties, sqrt))
  {
    var found := FindById(catalog, targetId);
    if found.None? then []
    else
      MostSimilar(Others(catalog, found.value.id), found.value.properties, limit, sqrt)
  }

  /** The similar materials are drawn from the catalog without the target,
      each at most as often as it is listed there. */
  lemma FindSimilarWithin(catalog: seq<Material>, targetId: string, limit: int, sqrt: real -> real)
    requires IsSqrt(sqrt)
    ensures FindById(catalog, targetId).Some? ==>
      multiset(FindSimilarMaterialsFromCatalog(catalog, targetId, limit, sqrt)) <= multiset(Others(catalog, targetId))
  {
    if FindById(catalog, targetId).Some? {
      FoundCarriesId(catalog, targetId);
    }
  }

  lemma FoundCarriesId(catalog: seq<Material>, id: string)
    requires FindById(catalog, id).Some?
    ensures FindById(catalog, id).value.id == id
  {}

  /** `performanceDistance`: the mean absolute gap over the six
      performance metrics. */
  function PerformanceDistance(a: Candidate, b: Candidate): (r: real)
    ensures r >= 0.0
  {
    var gaps := Gaps(a.predicted, b.predicted, PerformanceMetrics);
    AvgBounds(gaps, 0.0, GapBound(gaps));
    Avg(gaps)
  }

  function Gaps(x: MetricRecord, y: MetricRecord, keys: seq<Metric>): (r: seq<real>)
    ensures |r| == |keys|
    ensures forall i :: 0 <= i < |keys| ==> r[i] == Abs(At(x, keys[i]) - At(y, keys[i]))
  {
    seq(|keys|, i requires 0 <= i < |keys| => Abs(At(x, keys[i]) - At(y, keys[i])))
  }

  /** An upper bound of a list of non-negative gaps. */
  function GapBound(gaps: seq<real>): (b: real)
    ensures b >= 0.0
    ensures forall i :: 0 <= i < |gaps| ==> gaps[i] <= b
  {
    if |gaps| == 0 then 0.0
    else Max(GapBound(gaps[..|gaps| - 1]), gaps[|gaps| - 1])
  }

  /** The distance is symmetric and zero from a candidate to itself. */
  lemma PerformanceDistanceSymmetric(a: Candidate, b: Candidate)
    ensures PerformanceDistance(a, b) == PerformanceDistance(b, a)
    ensures PerformanceDistance(a, a) == 0.0
  {
    assert Gaps(a.predicted, b.predicted, PerformanceMetrics) == Gaps(b.predicted, a.predicted, PerformanceMetrics);
    SumBounds(Gaps(a.predicted, a.predicted, PerformanceMetrics), 0.0, 0.0);
  }

  /** Performance predictions on 0..100 are at most 100 apart on average. */
  lemma PerformanceDistanceBounds(a: Candidate, b: Candidate)
    requires forall m | m in MetricSet :: 0.0 <= a.predicted[m] <= 100.0 && 0.0 <= b.predicted[m] <= 100.0
    ensures 0.0 <= PerformanceDistance(a, b) <= 100.0
  {
    var gaps := Gaps(a.predicted, b.predicted, PerformanceMetrics);
    forall i | 0 <= i < |gaps| ensures 0.0 <= gaps[i] <= 100.0 {
      MetricInSet(PerformanceMetrics[i]);
    }
    AvgBounds(gaps, 0.0, 100.0);
  }

  /** The input of the alternative run: weights re-normalised with
      recyclability at 4 and biodegradability and microplastic risk at 2.5,
      and the microplastic ceiling set to medium. */
  function AlternativeInput(input: SessionInput): (r: SessionInput)
    ensures r.(weights := input.weights, constraints := input.constraints) == input
    ensures r.constraints.Some?
    ensures r.constraints.value == input.constraints.GetOr(NoConstraints).(maxMicroplasticRisk := Some(Medium))
    ensures r.weights == Some(BoostedWeights(input.weights))
  {
    input.(
      weights := Some(BoostedWeights(input.weights)),
      constraints := Some(input.constraints.GetOr(NoConstraints).(maxMicroplasticRisk := Some(Medium))))
  }

  /** The raw weight of a metric after the boost. */
  function BoostValue(weights: Option<PartialRecord>, m: Metric): real
  {
    if m == Recyclability then 4.0
    else if m == Biodegradability || m == MicroplasticRisk then 2.5
    else RawWeight(weights, m)
  }

  /** `{ ...(weights ?? {}), recyclability: 4, biodegradability: 2.5,
      microplastic_risk: 2.5 }`. */
  function BoostedRaw(weights: Option<PartialRecord>): (raw: PartialRecord)
    ensures forall m :: RawWeight(Some(raw), m) == BoostValue(weights, m)
  {
    weights.GetOr(map[])[Recyclability := 4.0][Biodegradability := 2.5][MicroplasticRisk := 2.5]
  }

  /** The boosted weights, normalised. */
  function BoostedWeights(weights: Option<PartialRecord>): (w: MetricRecord)
    ensures Total(w) == 1.0
    ensures forall m | m in MetricSet :: w[m] > 0.0
  {
    NormalizeWeights(Some(BoostedRaw(weights)))
  }

  /** The boosted weights rank the metrics exactly as the boosted raw
      values do: recyclability (4) above biodegradability and microplastic
      risk (2.5 each, tied), and every other metric by its clamped input
      weight. */
  lemma BoostedOrder(weights: Option<PartialRecord>, a: Metric, b: Metric)
    requires a in MetricSet && b in MetricSet
    ensures BoostedWeights(weights)[a] < BoostedWeights(weights)[b] <==> BoostValue(weights, a) < BoostValue(weights, b)
    ensures BoostedWeights(weights)[a] == BoostedWeights(weights)[b] <==> BoostValue(weights, a) == BoostValue(weights, b)
  {
    var raw := Some(BoostedRaw(weights));
    NormalizeWeightsOrder(raw, a, b);
    assert RawWeight(raw, a) == BoostValue(weights, a) && RawWeight(raw, b) == BoostValue(weights, b);
  }

  /** One alternative with its performance gap to the base candidate and
      its circularity gain over it. */
  datatype Ranked = Ranked(candidate: Candidate, perfGap: real, circularGain: real)

  function Measure(c: Candidate, base: Candidate): Ranked
  {
    Ranked(c, PerformanceDistance(base, c), c.circularity.circularityScore - base.circularity.circularityScore)
  }

  /** The filter: a gain above 0.4 at a gap of at most 16. */
  predicate Eligible(x: Ranked)
  {
    x.circularGain > 0.4 && x.perfGap <= 16.0
  }

  /** The comparator `b.circularGain - a.circularGain || a.perfGap -
      b.perfGap`: x sorts strictly before y. */
  predicate Before(x: Ranked, y: Ranked)
  {
    x.circularGain > y.circularGain || (x.circularGain == y.circularGain && x.perfGap < y.perfGap)
  }

  /** The head of the stable sort of the eligible alternatives: the first
      one that no other one sorts before. */
  function Best(xs: seq<Ranked>): (r: Option<nat>)
    ensures r.None? <==> forall i :: 0 <= i < |xs| ==> !Eligible(xs[i])
    ensures r.Some? ==> r.value < |xs| && Eligible(xs[r.value])
    ensures r.Some? ==> forall i :: 0 <= i < |xs| && Eligible(xs[i]) ==> !Before(xs[i], xs[r.value])
    ensures r.Some? ==> forall i :: 0 <= i < r.value && Eligible(xs[i]) ==> Before(xs[r.value], xs[i])
  {
    if |xs| == 0 then None
    else
      var prev := Best(xs[..|xs| - 1]);
      var last := |xs| - 1;
      if !Eligible(xs[last]) then prev
      else if prev.None? then Some(last)
      else if Before(xs[last], xs[prev.value]) then Some(last)
      else prev
  }

  /** `suggestMoreRecyclableAlternative` on the outcome of the alternative
      run: none when no candidate gains more than 0.4 in circularity within
      a performance gap of 16, otherwise the first best one, its
      explanation prefixed with the base candidate's rank. A failed run
      fails the suggestion. */
  function PickAlternative(alts: Result<seq<Candidate>, GenerateError>, base: Candidate): (r: Result<Option<Candidate>, GenerateError>)
    ensures r.Err? <==> alts.Err?
    ensures alts.Ok? && r.Ok? ==>
      var xs := MeasureAll(alts.value, base);
      && (r.value.None? <==> forall i :: 0 <= i < |xs| ==> !Eligible(xs[i]))
      && (r.value.Some? ==> exists k :: (0 <= k < |xs|
            && Eligible(xs[k])
            && (forall i :: 0 <= i < |xs| && Eligible(xs[i]) ==> !Before(xs[i], xs[k]))
            && (forall i :: 0 <= i < k && Eligible(xs[i]) ==> Before(xs[k], xs[i]))
            && r.value.value == alts.value[k].(explanation := RecyclableAlternativeTo(base.rank, alts.value[k].explanation))))
    ensures r.Ok? && r.value.Some? ==>
      && r.value.value.circularity.circularityScore > base.circularity.circularityScore + 0.4
      && PerformanceDistance(base, r.value.value) <= 16.0
      && r.value.value.explanation == RecyclableAlternativeTo(base.rank, alts.value[Best(MeasureAll(alts.value, base)).value].explanation)
  {
    if alts.Err? then Err(alts.error)
    else
      var xs := MeasureAll(alts.value, base);
      var best := Best(xs);
      if best.None? then Ok(None)
      else
        var picked := alts.value[best.value];
        PerformanceDistanceIgnoresExplanation(base, picked, RecyclableAlternativeTo(base.rank, picked.explanation));
        Ok(Some(picked.(explanation := RecyclableAlternativeTo(base.rank, picked.explanation))))
  }

  function MeasureAll(cs: seq<Candidate>, base: Candidate): (r: seq<Ranked>)
    ensures |r| == |cs|
    ensures forall i :: 0 <= i < |cs| ==> r[i] == Measure(cs[i], base) && r[i].candidate == cs[i]
  {
    seq(|cs|, i requires 0 <= i < |cs| => Measure(cs[i], base))
  }

  /** `suggestMoreRecyclableAlternative`: the alternative run on the
      boosted input, then the pick. */
  function SuggestMoreRecyclableAlternative(input: SessionInput, base: Candidate, materials: seq<Material>,
                                            sqrt: real -> real, stringify: SessionInput -> seq<bv16>)
    : (r: Result<Option<Candidate>, GenerateError>)
    requires IsSqrt(sqrt)
    ensures r.Ok? && r.value.Some? ==>
      && r.value.value.circularity.circularityScore > base.circularity.circularityScore + 0.4
      && PerformanceDistance(base, r.value.value) <= 16.0
      && r.value.value.explanation.RecyclableAlternativeTo? && r.value.value.explanation.baseRank == base.rank
  {
    var alts := GenerateCandidates(AlternativeInput(input), materials, sqrt, stringify);
    PickAlternative(alts, base)
  }

  lemma PerformanceDistanceIgnoresExplanation(a: Candidate, b: Candidate, e: Explanation)
    ensures PerformanceDistance(a, b.(explanation := e)) == PerformanceDistance(a, b)
  {}
}
