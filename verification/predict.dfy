/** Linear blend prediction (src/lib/engine/predict.ts). */
module Predict {
  import opened Js
  import opened Types
  import opened Rules

  /** What `predictBlend` returns. */
  datatype Prediction = Prediction(properties: MetricRecord, lca: Lca, feasibility: Feasibility)

  /** A material's value for one metric. */
  function PropertyOf(m: Metric): Material -> real
  {
    (mat: Material) => At(mat.properties, m)
  }

  function Co2Of(mat: Material): real { mat.lca.co2 }
  function WaterOf(mat: Material): real { mat.lca.water }
  function EnergyOf(mat: Material): real { mat.lca.energy }

  /** `metricOut`: every metric blended by pct/100 over the known parts. */
  function Blend(comp: seq<CompositionPart>, index: MaterialIndex): (r: MetricRecord)
    ensures forall m | m in MetricSet :: r[m] == WeightedSum(comp, index, PropertyOf(m))
  {
    map m | m in MetricSet :: WeightedSum(comp, index, PropertyOf(m))
  }

  /** A single known material at 100% blends to its own figures. */
  lemma BlendPure(p: CompositionPart, index: MaterialIndex)
    requires p.materialId in index && p.pct == 100.0
    ensures forall m | m in MetricSet :: Blend([p], index)[m] == At(index[p.materialId].properties, m)
  {
    forall m | m in MetricSet ensures Blend([p], index)[m] == At(index[p.materialId].properties, m) {
      WeightedSumSingle(p, index, PropertyOf(m));
    }
  }

  /** Blending is additive: the blend of two part lists together is the sum
      of their blends, metric by metric. */
  lemma BlendAppend(a: seq<CompositionPart>, b: seq<CompositionPart>, index: MaterialIndex)
    ensures forall m | m in MetricSet :: Blend(a + b, index)[m] == Blend(a, index)[m] + Blend(b, index)[m]
  {
    forall m | m in MetricSet ensures Blend(a + b, index)[m] == Blend(a, index)[m] + Blend(b, index)[m] {
      WeightedSumAppend(a, b, index, PropertyOf(m));
    }
  }

  /** The final pass of `predictBlend` over the metrics: round to one
      decimal, then clamp to 0..100. */
  function RoundAndClamp(v: MetricRecord): (r: MetricRecord)
    ensures InRange(r)
    ensures InRange(v) ==> forall m | m in MetricSet :: r[m] == RoundTo(v[m], 1) && -0.05 <= r[m] - v[m] <= 0.05
  {
    var r: MetricRecord := map m | m in MetricSet :: Clamp(RoundTo(v[m], 1), 0.0, 100.0);
    if InRange(v) then
      assert forall m | m in MetricSet :: r[m] == RoundTo(v[m], 1) && -0.05 <= r[m] - v[m] <= 0.05 by {
        forall m | m in MetricSet
          ensures r[m] == RoundTo(v[m], 1) && -0.05 <= r[m] - v[m] <= 0.05
        {
          RoundToWithin(v[m], 0, 100, 1);
          RoundToErrorSmall(v[m]);
        }
      }
      r
    else r
  }

  /** The LCA figures on grids of 0.01, 1 and 0.1, each within half a
      step of the exact figure. */
  function RoundLca(co2: real, water: real, energy: real): (r: Lca)
    ensures OnGrid(r.co2, 2) && OnGrid(r.water, 0) && OnGrid(r.energy, 1)
    ensures -0.005 <= r.co2 - co2 <= 0.005
    ensures -0.5 <= r.water - water <= 0.5
    ensures -0.05 <= r.energy - energy <= 0.05
  {
    RoundToErrorSmall(co2);
    RoundToErrorSmall(water);
    RoundToErrorSmall(energy);
    RoundToGrid(co2, 2);
    RoundToGrid(water, 0);
    RoundToGrid(energy, 1);
    Lca(RoundTo(co2, 2), RoundTo(water, 0), RoundTo(energy, 1))
  }

  /** `predictBlend`: the blend passed through the synergy rules, rounded to
      one decimal and clamped to 0..100; the LCA figures and the TRL are
      blended the same way and rounded to 2, 0, 1 and 1 decimals, each
      within half a rounding step of the exact blend. */
  function PredictBlend(comp: seq<CompositionPart>, index: MaterialIndex): (r: Prediction)
    ensures InRange(r.properties)
    ensures -0.005 <= r.lca.co2 - WeightedSum(comp, index, Co2Of) <= 0.005
    ensures -0.5 <= r.lca.water - WeightedSum(comp, index, WaterOf) <= 0.5
    ensures -0.05 <= r.lca.energy - WeightedSum(comp, index, EnergyOf) <= 0.05
    ensures -0.05 <= r.feasibility.trlEst - WeightedTrl(comp, index) <= 0.05
    ensures r.feasibility.supplyRisk == EstimateSupplyRisk(comp, index)
  {
    var synergy := ApplySynergyRules(Blend(comp, index), comp, index);
    var trl := WeightedTrl(comp, index);
    RoundToErrorSmall(trl);
    Prediction(
      RoundAndClamp(synergy),
      RoundLca(WeightedSum(comp, index, Co2Of), WeightedSum(comp, index, WaterOf), WeightedSum(comp, index, EnergyOf)),
      Feasibility(RoundTo(trl, 1), EstimateSupplyRisk(comp, index)))
  }

  /** Materials whose every metric lies on 0..100. */
  predicate CatalogInRange(index: MaterialIndex)
  {
    forall id | id in index :: InRange(index[id].properties)
  }

  predicate NonNegativePcts(comp: seq<CompositionPart>)
  {
    forall i :: 0 <= i < |comp| ==> comp[i].pct >= 0.0
  }

  /** A blend of in-range materials over at most the whole is in range. */
  lemma BlendInRange(comp: seq<CompositionPart>, index: MaterialIndex)
    requires NonNegativePcts(comp) && CatalogInRange(index)
    requires KnownShare(comp, index) <= 1.0
    ensures InRange(Blend(comp, index))
  {
    var b := Blend(comp, index);
    forall m | m in MetricSet
      ensures 0.0 <= b[m] <= 100.0
    {
      WeightedSumBounds(comp, index, PropertyOf(m), 0.0, 100.0);
    }
  }

  /** For in-range materials and percentages summing to at most 100 the
      clamp never fires: every predicted metric is the synergy value
      rounded to one decimal, within 0.05 of it. */
  lemma PredictClampInactive(comp: seq<CompositionPart>, index: MaterialIndex)
    requires NonNegativePcts(comp) && CatalogInRange(index)
    requires KnownShare(comp, index) <= 1.0
    ensures var synergy := ApplySynergyRules(Blend(comp, index), comp, index);
      forall m | m in MetricSet ::
        && PredictBlend(comp, index).properties[m] == RoundTo(synergy[m], 1)
        && -0.05 <= PredictBlend(comp, index).properties[m] - synergy[m] <= 0.05
  {
    BlendInRange(comp, index);
  }

  lemma {:induction false} BlendSkipsUnknown(comp: seq<CompositionPart>, index: MaterialIndex)
    ensures Blend(comp, index) == Blend(KnownParts(comp, index), index)
  {
    var k := KnownParts(comp, index);
    forall m | m in MetricSet
      ensures Blend(comp, index)[m] == Blend(k, index)[m]
    {
      WeightedSumSkipsUnknown(comp, index, PropertyOf(m));
    }
  }

  /** Parts whose material id is unknown contribute nothing at all. */
  lemma PredictSkipsUnknown(comp: seq<CompositionPart>, index: MaterialIndex)
    ensures PredictBlend(comp, index) == PredictBlend(KnownParts(comp, index), index)
  {
    var k := KnownParts(comp, index);
    BlendSkipsUnknown(comp, index);
    SynergySkipsUnknown(Blend(comp, index), comp, index);
    KnownPartsIdempotent(comp, index);
    SynergySkipsUnknown(Blend(comp, index), k, index);
    WeightedSumSkipsUnknown(comp, index, Co2Of);
    WeightedSumSkipsUnknown(comp, index, WaterOf);
    WeightedSumSkipsUnknown(comp, index, EnergyOf);
    WeightedSumSkipsUnknown(comp, index, MaterialTrl);
    SupplyRiskSkipsUnknown(comp, index);
  }
}
