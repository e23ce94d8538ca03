/** Synergy and supply-risk rules (src/lib/engine/rules.ts). */
module Rules {
  import opened Js
  import opened Types
  import opened Text

  /** The parts of a composition whose material the index knows; every loop
      over a composition skips the others. */
  function KnownParts(comp: seq<CompositionPart>, index: MaterialIndex): (r: seq<CompositionPart>)
    ensures |r| <= |comp|
    ensures forall i :: 0 <= i < |r| ==> r[i].materialId in index && r[i] in comp
    ensures forall i :: 0 <= i < |comp| && comp[i].materialId in index ==> comp[i] in r
  {
    if |comp| == 0 then []
    else
      var rest := KnownParts(comp[..|comp| - 1], index);
      var p := comp[|comp| - 1];
      assert forall i :: 0 <= i < |comp| - 1 ==> comp[..|comp| - 1][i] == comp[i];
      if p.materialId in index then rest + [p] else rest
  }

  lemma KnownPartsIdempotent(comp: seq<CompositionPart>, index: MaterialIndex)
    ensures KnownParts(KnownParts(comp, index), index) == KnownParts(comp, index)
  {
    var r := KnownParts(comp, index);
    AllKnown(r, index);
  }

  lemma {:induction false} AllKnown(comp: seq<CompositionPart>, index: MaterialIndex)
    requires forall i :: 0 <= i < |comp| ==> comp[i].materialId in index
    ensures KnownParts(comp, index) == comp
  {
    if |comp| > 0 {
      AllKnown(comp[..|comp| - 1], index);
      assert comp[..|comp| - 1] + [comp[|comp| - 1]] == comp;
    }
  }

  /** Dropping the unknown parts keeps the order and splits over concatenation:
      filtering a + b is filtering a, then b. */
  lemma {:induction false} KnownPartsAppend(a: seq<CompositionPart>, b: seq<CompositionPart>, index: MaterialIndex)
    ensures KnownParts(a + b, index) == KnownParts(a, index) + KnownParts(b, index)
    decreases |b|
  {
    if |b| == 0 {
      assert a + b == a;
    } else {
      var b' := b[..|b| - 1];
      assert (a + b)[..|a + b| - 1] == a + b';
      assert (a + b)[|a + b| - 1] == b[|b| - 1];
      KnownPartsAppend(a, b', index);
    }
  }

  /** A single part is kept exactly when it passes. */
  lemma KnownPartsSingle(x: CompositionPart, index: MaterialIndex)
    ensures KnownParts([x], index) == (if x.materialId in index then [x] else [])
  {
    assert [x][..0] == [];
  }

  /** The hemp rule fires for a part of at least 20% whose lower-cased
      material name contains "hemp". */
  predicate HempFires(mat: Material, part: CompositionPart)
  {
    Includes(Lower(mat.name), "hemp") && part.pct >= 20.0
  }

  /** The elastane rule fires for a part of at least 8% whose lower-cased
      material name contains "elastane". */
  predicate ElastaneFires(mat: Material, part: CompositionPart)
  {
    Includes(Lower(mat.name), "elastane") && part.pct >= 8.0
  }

  /** The metrics the synergy rules may touch. */
  const SynergyMetrics: set<Metric> := {Durability, Softness, Elasticity, Biodegradability, MicroplasticRisk}

  /** Whether a part's material is known and fires the hemp rule. */
  predicate HempHit(part: CompositionPart, index: MaterialIndex)
  {
    part.materialId in index && HempFires(index[part.materialId], part)
  }

  /** Whether a part's material is known and fires the elastane rule. */
  predicate ElastaneHit(part: CompositionPart, index: MaterialIndex)
  {
    part.materialId in index && ElastaneFires(index[part.materialId], part)
  }

  /** One iteration of the loop of `applySynergyRules`. */
  function SynergyStep(v: MetricRecord, part: CompositionPart, index: MaterialIndex): (r: MetricRecord)
    ensures r[Durability] == if HempHit(part, index) then Min(100.0, v[Durability] + 5.0) else v[Durability]
    ensures r[Softness] == if HempHit(part, index) then Max(0.0, v[Softness] - 4.0) else v[Softness]
    ensures r[Elasticity] == if ElastaneHit(part, index) then Min(100.0, v[Elasticity] + 8.0) else v[Elasticity]
    ensures r[Biodegradability] ==
      if ElastaneHit(part, index) then Max(0.0, v[Biodegradability] - 8.0) else v[Biodegradability]
    ensures r[MicroplasticRisk] ==
      if ElastaneHit(part, index) then Max(0.0, v[MicroplasticRisk] - 6.0) else v[MicroplasticRisk]
  {
    var v1: MetricRecord :=
      if HempHit(part, index)
      then v[Durability := Min(100.0, v[Durability] + 5.0)][Softness := Max(0.0, v[Softness] - 4.0)]
      else v;
    if ElastaneHit(part, index)
    then v1[Elasticity := Min(100.0, v1[Elasticity] + 8.0)]
           [Biodegradability := Max(0.0, v1[Biodegradability] - 8.0)]
           [MicroplasticRisk := Max(0.0, v1[MicroplasticRisk] - 6.0)]
    else v1
  }

  /** One iteration leaves the metrics outside the five untouched. */
  lemma SynergyStepFrame(v: MetricRecord, part: CompositionPart, index: MaterialIndex)
    ensures forall m | m in MetricSet && m !in SynergyMetrics :: SynergyStep(v, part, index)[m] == v[m]
  {
  }

  /** One iteration keeps every metric on 0..100. */
  lemma SynergyStepInRange(v: MetricRecord, part: CompositionPart, index: MaterialIndex)
    ensures InRange(v) ==> InRange(SynergyStep(v, part, index))
  {
    if InRange(v) {
      var r := SynergyStep(v, part, index);
      forall m | m in MetricSet ensures 0.0 <= r[m] <= 100.0 {
        assert 0.0 <= v[m] <= 100.0;
      }
    }
  }

  predicate InRange(v: MetricRecord)
  {
    forall m | m in MetricSet :: 0.0 <= v[m] <= 100.0
  }

  /** `applySynergyRules`: the rules applied part by part, in order. Metrics
      outside the five the rules name never change, and values on 0..100
      stay on 0..100. */
  function ApplySynergyRules(base: MetricRecord, comp: seq<CompositionPart>, index: MaterialIndex): (r: MetricRecord)
    ensures forall m | m in MetricSet && m !in SynergyMetrics :: r[m] == base[m]
    ensures InRange(base) ==> InRange(r)
  {
    if |comp| == 0 then base
    else
      var prev := ApplySynergyRules(base, comp[..|comp| - 1], index);
      SynergyStepInRange(prev, comp[|comp| - 1], index);
      SynergyStepFrame(prev, comp[|comp| - 1], index);
      SynergyStep(prev, comp[|comp| - 1], index)
  }

  /** The number of parts that fire the hemp rule. */
  function HempCount(comp: seq<CompositionPart>, index: MaterialIndex): nat
  {
    if |comp| == 0 then 0
    else
      var p := comp[|comp| - 1];
      HempCount(comp[..|comp| - 1], index) + (if HempHit(p, index) then 1 else 0)
  }

  /** The number of parts that fire the elastane rule. */
  function ElastaneCount(comp: seq<CompositionPart>, index: MaterialIndex): nat
  {
    if |comp| == 0 then 0
    else
      var p := comp[|comp| - 1];
      ElastaneCount(comp[..|comp| - 1], index) + (if ElastaneHit(p, index) then 1 else 0)
  }

  /** x raised n times by d, capped at 100 after each raise. */
  function Raised(x: real, d: real, n: nat): real
  {
    if n == 0 then x else Min(100.0, x + d * n as real)
  }

  /** x lowered n times by d, floored at 0 after each step. */
  function Lowered(x: real, d: real, n: nat): real
  {
    if n == 0 then x else Max(0.0, x - d * n as real)
  }

  lemma RaisedStep(x: real, d: real, n: nat)
    requires d > 0.0
    ensures Min(100.0, Raised(x, d, n) + d) == Raised(x, d, n + 1)
  {
    assert d * (n + 1) as real == d * n as real + d;
  }

  lemma LoweredStep(x: real, d: real, n: nat)
    requires d > 0.0
    ensures Max(0.0, Lowered(x, d, n) - d) == Lowered(x, d, n + 1)
  {
    assert d * (n + 1) as real == d * n as real + d;
  }

  /** Clamping after every step equals clamping once: after h firing hemp
      parts durability has risen by 5h and softness fallen by 4h, each
      clamped once. */
  lemma {:induction false} HempClosedForm(base: MetricRecord, comp: seq<CompositionPart>, index: MaterialIndex)
    ensures ApplySynergyRules(base, comp, index)[Durability] == Raised(base[Durability], 5.0, HempCount(comp, index))
    ensures ApplySynergyRules(base, comp, index)[Softness] == Lowered(base[Softness], 4.0, HempCount(comp, index))
  {
    if |comp| > 0 {
      var init := comp[..|comp| - 1];
      HempClosedForm(base, init, index);
      RaisedStep(base[Durability], 5.0, HempCount(init, index));
      LoweredStep(base[Softness], 4.0, HempCount(init, index));
    }
  }

  /** Likewise after e firing elastane parts: elasticity up by 8e,
      biodegradability down by 8e and microplastic risk down by 6e. */
  lemma {:induction false} ElastaneClosedForm(base: MetricRecord, comp: seq<CompositionPart>, index: MaterialIndex)
    ensures ApplySynergyRules(base, comp, index)[Elasticity] == Raised(base[Elasticity], 8.0, ElastaneCount(comp, index))
    ensures ApplySynergyRules(base, comp, index)[Biodegradability]
      == Lowered(base[Biodegradability], 8.0, ElastaneCount(comp, index))
    ensures ApplySynergyRules(base, comp, index)[MicroplasticRisk]
      == Lowered(base[MicroplasticRisk], 6.0, ElastaneCount(comp, index))
  {
    if |comp| > 0 {
      var init := comp[..|comp| - 1];
      ElastaneClosedForm(base, init, index);
      RaisedStep(base[Elasticity], 8.0, ElastaneCount(init, index));
      LoweredStep(base[Biodegradability], 8.0, ElastaneCount(init, index));
      LoweredStep(base[MicroplasticRisk], 6.0, ElastaneCount(init, index));
    }
  }

  /** Parts with an unknown material id have no effect. */
  lemma {:induction false} SynergySkipsUnknown(base: MetricRecord, comp: seq<CompositionPart>, index: MaterialIndex)
    ensures ApplySynergyRules(base, comp, index) == ApplySynergyRules(base, KnownParts(comp, index), index)
  {
    if |comp| > 0 {
      var init := comp[..|comp| - 1];
      var p := comp[|comp| - 1];
      SynergySkipsUnknown(base, init, index);
      var k := KnownParts(init, index);
      if p.materialId in index {
        assert (k + [p])[..|k + [p]| - 1] == k;
      }
    }
  }

  /** `riskValue`: the microplastic class as 1, 2 or 3. */
  function RiskValue(l: Level): real
  {
    LevelOrder(l) as real
  }

  /** The pct/100-weighted sum of a material figure over the known parts,
      the accumulation every loop over a composition performs. */
  function WeightedSum(comp: seq<CompositionPart>, index: MaterialIndex, f: Material -> real): real
  {
    if |comp| == 0 then 0.0
    else
      var p := comp[|comp| - 1];
      WeightedSum(comp[..|comp| - 1], index, f) + Contribution(p, index, f)
  }

  /** One part's term: its share of the figure, 0 for an unknown material. */
  function Contribution(p: CompositionPart, index: MaterialIndex, f: Material -> real): real
  {
    if p.materialId in index then f(index[p.materialId]) * (p.pct / 100.0) else 0.0
  }

  /** The weighted sum adds up over concatenation of compositions. */
  lemma {:induction false} WeightedSumAppend(a: seq<CompositionPart>, b: seq<CompositionPart>, index: MaterialIndex, f: Material -> real)
    ensures WeightedSum(a + b, index, f) == WeightedSum(a, index, f) + WeightedSum(b, index, f)
    decreases |b|
  {
    if |b| == 0 {
      assert a + b == a;
    } else {
      var b' := b[..|b| - 1];
      assert (a + b)[..|a + b| - 1] == a + b';
      assert (a + b)[|a + b| - 1] == b[|b| - 1];
      WeightedSumAppend(a, b', index, f);
    }
  }

  /** A one-part composition contributes that part's term alone. */
  lemma WeightedSumSingle(p: CompositionPart, index: MaterialIndex, f: Material -> real)
    ensures WeightedSum([p], index, f) == Contribution(p, index, f)
  {
    assert [p][..0] == [];
  }

  lemma {:induction false} WeightedSumSkipsUnknown(comp: seq<CompositionPart>, index: MaterialIndex, f: Material -> real)
    ensures WeightedSum(comp, index, f) == WeightedSum(KnownParts(comp, index), index, f)
  {
    if |comp| > 0 {
      var init := comp[..|comp| - 1];
      var p := comp[|comp| - 1];
      WeightedSumSkipsUnknown(init, index, f);
      var k := KnownParts(init, index);
      if p.materialId in index {
        assert KnownParts(comp, index) == k + [p];
        assert (k + [p])[..|k + [p]| - 1] == k;
        assert WeightedSum(k + [p], index, f) == WeightedSum(k, index, f) + Contribution(p, index, f);
      } else {
        assert KnownParts(comp, index) == k;
        assert Contribution(p, index, f) == 0.0;
      }
    }
  }

  /** With non-negative percentages and figures in [lo, hi], the weighted sum
      lies between lo and hi times the known share, taken as a fraction. */
  lemma {:induction false} WeightedSumBounds(comp: seq<CompositionPart>, index: MaterialIndex, f: Material -> real, lo: real, hi: real)
    requires forall i :: 0 <= i < |comp| ==> comp[i].pct >= 0.0
    requires forall id | id in index :: lo <= f(index[id]) <= hi
    ensures lo * KnownShare(comp, index) <= WeightedSum(comp, index, f) <= hi * KnownShare(comp, index)
  {
    if |comp| > 0 {
      var init := comp[..|comp| - 1];
      var p := comp[|comp| - 1];
      WeightedSumBounds(init, index, f, lo, hi);
      var ks, ws := KnownShare(init, index), WeightedSum(init, index, f);
      var w, c := Contribution(p, index, Unit), Contribution(p, index, f);
      assert KnownShare(comp, index) == ks + w;
      assert WeightedSum(comp, index, f) == ws + c;
      ContributionBounds(p, index, f, lo, hi);
      Distribute(lo, ks, w);
      Distribute(hi, ks, w);
    }
  }

  lemma ContributionBounds(p: CompositionPart, index: MaterialIndex, f: Material -> real, lo: real, hi: real)
    requires p.pct >= 0.0
    requires forall id | id in index :: lo <= f(index[id]) <= hi
    ensures lo * Contribution(p, index, Unit) <= Contribution(p, index, f) <= hi * Contribution(p, index, Unit)
  {
    if p.materialId in index {
      var x := f(index[p.materialId]);
      var w := p.pct / 100.0;
      MulMonotone(lo, x, w);
      MulMonotone(x, hi, w);
    }
  }

  lemma Distribute(a: real, b: real, c: real)
    ensures a * (b + c) == a * b + a * c
  {}

  /** The known parts' share of the whole, as a fraction (pct/100 summed). */
  function KnownShare(comp: seq<CompositionPart>, index: MaterialIndex): real
  {
    WeightedSum(comp, index, Unit)
  }

  function Unit(m: Material): real { 1.0 }

  function MaterialTrl(m: Material): real { m.trl }

  function MaterialRisk(m: Material): real { RiskValue(m.constraints.microplastic) }

  /** The pct-weighted TRL of the known parts. */
  function WeightedTrl(comp: seq<CompositionPart>, index: MaterialIndex): real
  {
    WeightedSum(comp, index, MaterialTrl)
  }

  /** The pct-weighted microplastic-risk value of the known parts. */
  function WeightedRisk(comp: seq<CompositionPart>, index: MaterialIndex): real
  {
    WeightedSum(comp, index, MaterialRisk)
  }

  /** The thresholds of `estimateSupplyRisk`. */
  function SupplyRiskClass(trl: real, risk: real): (r: Level)
    ensures r == Low <==> trl >= 8.0 && risk <= 1.4
    ensures r == Medium <==> trl >= 6.0 && !(trl >= 8.0 && risk <= 1.4)
    ensures r == High <==> trl < 6.0
  {
    if trl >= 8.0 && risk <= 1.4 then Low
    else if trl >= 6.0 then Medium
    else High
  }

  /** `estimateSupplyRisk`. */
  function EstimateSupplyRisk(comp: seq<CompositionPart>, index: MaterialIndex): Level
  {
    SupplyRiskClass(WeightedTrl(comp, index), WeightedRisk(comp, index))
  }

  /** With the risk fixed, a higher TRL never gives a worse class. */
  lemma SupplyRiskMonotone(trl: real, trl': real, risk: real)
    requires trl <= trl'
    ensures LevelOrder(SupplyRiskClass(trl', risk)) <= LevelOrder(SupplyRiskClass(trl, risk))
  {}

  /** Parts with an unknown material id do not affect the supply risk. */
  lemma SupplyRiskSkipsUnknown(comp: seq<CompositionPart>, index: MaterialIndex)
    ensures EstimateSupplyRisk(comp, index) == EstimateSupplyRisk(KnownParts(comp, index), index)
  {
    WeightedSumSkipsUnknown(comp, index, MaterialTrl);
    WeightedSumSkipsUnknown(comp, index, MaterialRisk);
  }
}
