/** The circularity and end-of-life assessment of a blend
    (`hasElastomer` and `evaluateCircularity` in src/lib/engine/generate.ts). */
module Circularity {
  import opened Js
  import opened Types
  import opened Text
  import opened Rules

  /** A material name that, lower-cased, mentions an elastomer. */
  predicate HasElastomer(name: string)
  {
    var n := Lower(name);
    Includes(n, "elastane") || Includes(n, "spandex") || Includes(n, "lycra") || Includes(n, "tpu")
  }

  /** The sum of the percentages of the known parts whose material passes p. */
  function ShareOf(comp: seq<CompositionPart>, index: MaterialIndex, p: Material -> bool): real
  {
    if |comp| == 0 then 0.0
    else
      var q := comp[|comp| - 1];
      ShareOf(comp[..|comp| - 1], index, p) + (if q.materialId in index && p(index[q.materialId]) then q.pct else 0.0)
  }

  predicate IsSyntheticMaterial(m: Material) { m.category == Synthetic || m.category == BioPolymer }

  predicate IsElastomerMaterial(m: Material) { HasElastomer(m.name) }

  /** The microplastic class on the 0..10 scale: 2, 5 or 9. */
  function MappedRisk(m: Material): real
  {
    match m.constraints.microplastic
    case Low => 2.0
    case Medium => 5.0
    case High => 9.0
  }

  /** The number of parts with a positive percentage, known or not. */
  function Components(comp: seq<CompositionPart>): (n: nat)
    ensures n <= |comp|
  {
    if |comp| == 0 then 0 else Components(comp[..|comp| - 1]) + (if comp[|comp| - 1].pct > 0.0 then 1 else 0)
  }

  /** Counting non-empty parts adds up over concatenation. */
  lemma {:induction false} ComponentsAppend(a: seq<CompositionPart>, b: seq<CompositionPart>)
    ensures Components(a + b) == Components(a) + Components(b)
    decreases |b|
  {
    if |b| == 0 {
      assert a + b == a;
    } else {
      var b' := b[..|b| - 1];
      assert (a + b)[..|a + b| - 1] == a + b';
      assert (a + b)[|a + b| - 1] == b[|b| - 1];
      ComponentsAppend(a, b');
    }
  }

  /** A single part counts once exactly when its percentage is positive. */
  lemma ComponentsSingle(p: CompositionPart)
    ensures Components([p]) == (if p.pct > 0.0 then 1 else 0)
  {
    assert [p][..0] == [];
  }

  /** The condition for industrial composting: mostly biodegradable, little
      synthetic content, low microplastic risk. */
  predicate CompostFits(biodeg: real, syntheticShare: real, microplastic: real)
  {
    biodeg >= 75.0 && syntheticShare < 25.0 && microplastic <= 4.0
  }

  /** The condition for mechanical recycling: recyclable and easy to separate. */
  predicate MechanicalFits(recyclability: real, separation: real)
  {
    recyclability >= 7.0 && separation <= 5.0
  }

  /** The condition for chemical recycling: recyclable and mostly synthetic. */
  predicate ChemicalFits(recyclability: real, syntheticShare: real)
  {
    recyclability >= 6.0 && syntheticShare >= 50.0
  }

  /** The landfill-risk causes: some elastomer, or hard separation. */
  predicate LandfillCause(elastomerShare: real, separation: real)
  {
    elastomerShare > 0.0 || separation >= 7.5
  }

  /** The first pathway whose condition holds, in the source's order: each
      pathway is chosen exactly when its own condition holds and none of the
      earlier ones does. */
  function ChoosePathway(biodeg: real, syntheticShare: real, elastomerShare: real,
                         microplastic: real, recyclability: real, separation: real): (r: EolPathway)
    ensures r == IndustrialCompost <==> CompostFits(biodeg, syntheticShare, microplastic)
    ensures r == MechanicalRecycling <==>
      !CompostFits(biodeg, syntheticShare, microplastic) && MechanicalFits(recyclability, separation)
    ensures r == ChemicalRecycling <==>
      && !CompostFits(biodeg, syntheticShare, microplastic)
      && !MechanicalFits(recyclability, separation)
      && ChemicalFits(recyclability, syntheticShare)
    ensures r == LandfillRisk <==>
      && !CompostFits(biodeg, syntheticShare, microplastic)
      && !MechanicalFits(recyclability, separation)
      && !ChemicalFits(recyclability, syntheticShare)
      && LandfillCause(elastomerShare, separation)
    ensures r == UnknownPathway <==>
      && !CompostFits(biodeg, syntheticShare, microplastic)
      && !MechanicalFits(recyclability, separation)
      && !ChemicalFits(recyclability, syntheticShare)
      && !LandfillCause(elastomerShare, separation)
  {
    if biodeg >= 75.0 && syntheticShare < 25.0 && microplastic <= 4.0 then IndustrialCompost
    else if recyclability >= 7.0 && separation <= 5.0 then MechanicalRecycling
    else if recyclability >= 6.0 && syntheticShare >= 50.0 then ChemicalRecycling
    else if elastomerShare > 0.0 || separation >= 7.5 then LandfillRisk
    else UnknownPathway
  }

  /** A mostly synthetic blend that is hard to separate but recyclable
      enough goes to chemical recycling, not to landfill: the earlier rule
      wins over the landfill cause. */
  lemma ChemicalBeforeLandfill()
    ensures ChoosePathway(10.0, 80.0, 0.0, 9.0, 6.5, 8.0) == ChemicalRecycling
    ensures ChoosePathway(10.0, 80.0, 5.0, 9.0, 5.9, 8.0) == LandfillRisk
  {}

  lemma PenaltyOnGrid()
    ensures OnGrid(2.5, 1) && OnGrid(1.2, 1)
  {
    assert Pow10(1) == 10;
  }

  /** The elastomer penalty on the recyclability score and its note: 2.5
      points from 8% elastomer on, 1.2 points below, none without elastomer,
      each rounded to one decimal and floored at 0. The two penalties never
      both apply. */
  function ElastomerPenalty(recyclability: real, elastomerShare: real): (r: (real, seq<CircularityNote>))
    ensures r.0 <= recyclability || r.0 == 0.0
    ensures elastomerShare <= 0.0 ==> r == (recyclability, [])
    ensures elastomerShare >= 8.0 ==> r.1 == [ElastomerSignificant]
    ensures 0.0 < elastomerShare < 8.0 ==> r.1 == [ElastomerSmall]
    ensures elastomerShare > 0.0 ==> r.0 >= 0.0
    ensures elastomerShare >= 8.0 ==> recyclability - 2.55 <= r.0 <= Max(0.0, recyclability - 2.45)
    ensures 0.0 < elastomerShare < 8.0 ==> recyclability - 1.25 <= r.0 <= Max(0.0, recyclability - 1.15)
    ensures OnGrid(recyclability, 1) && elastomerShare >= 8.0 ==> r.0 == Max(0.0, recyclability - 2.5)
    ensures OnGrid(recyclability, 1) && 0.0 < elastomerShare < 8.0 ==> r.0 == Max(0.0, recyclability - 1.2)
  {
    if elastomerShare >= 8.0 then
      RoundToMonotone(recyclability - 2.5, recyclability, 1);
      RoundToErrorSmall(recyclability - 2.5);
      PenaltyOnGrid();
      RoundToShift(recyclability, 2.5, 1);
      (Max(0.0, RoundTo(recyclability - 2.5, 1)), [ElastomerSignificant])
    else if elastomerShare > 0.0 then
      RoundToMonotone(recyclability - 1.2, recyclability, 1);
      RoundToErrorSmall(recyclability - 1.2);
      PenaltyOnGrid();
      RoundToShift(recyclability, 1.2, 1);
      (Max(0.0, RoundTo(recyclability - 1.2, 1)), [ElastomerSmall])
    else (recyclability, [])
  }

  /** `evaluateCircularity`. The three scores it clamps lie on 0..10, and so
      does the recyclability score whenever the predicted recyclability lies
      on 0..100; the notes are never empty. */
  function EvaluateCircularity(comp: seq<CompositionPart>, index: MaterialIndex, predicted: MetricRecord): (r: Circularity)
    ensures 0.0 <= r.separationDifficulty <= 10.0
    ensures 0.0 <= r.microplasticRisk <= 10.0
    ensures 0.0 <= r.circularityScore <= 10.0
    ensures 0.0 <= predicted[Recyclability] <= 100.0 ==> 0.0 <= r.recyclabilityScore <= 10.0
    ensures |r.notes| > 0
    ensures r.recyclabilityScore <= RoundTo(predicted[Recyclability] / 10.0, 1) || r.recyclabilityScore == 0.0
  {
    var syntheticShare := ShareOf(comp, index, IsSyntheticMaterial);
    var elastomerShare := ShareOf(comp, index, IsElastomerMaterial);
    var microWeighted := WeightedSum(comp, index, MappedRisk);
    var components := Components(comp);
    var separation := Clamp(RoundTo(components as real * 2.0 + syntheticShare * 0.05 + elastomerShare * 0.12, 1), 0.0, 10.0);
    var baseRecyclability := RoundTo(predicted[Recyclability] / 10.0, 1);
    var microplastic := Clamp(RoundTo(microWeighted, 1), 0.0, 10.0);
    var penalty := ElastomerPenalty(baseRecyclability, elastomerShare);
    var recyclability := penalty.0;
    var notes := penalty.1 + (if components >= 3 then [MultiMaterial] else []);
    var pathway := ChoosePathway(predicted[Biodegradability], syntheticShare, elastomerShare, microplastic, recyclability, separation);
    var score := Clamp(RoundTo(recyclability * 0.5 + (10.0 - separation) * 0.3 + (10.0 - microplastic) * 0.2, 1), 0.0, 10.0);
    if 0.0 <= predicted[Recyclability] <= 100.0 then
      RecyclabilityInRange(predicted[Recyclability]);
      Circularity(recyclability, separation, microplastic, pathway, score, if |notes| == 0 then [ViablePathways] else notes)
    else
      Circularity(recyclability, separation, microplastic, pathway, score, if |notes| == 0 then [ViablePathways] else notes)
  }

  lemma RecyclabilityInRange(x: real)
    requires 0.0 <= x <= 100.0
    ensures 0.0 <= RoundTo(x / 10.0, 1) <= 10.0
  {
    RoundToWithin(x / 10.0, 0, 10, 1);
  }

  /** The notes: an elastomer note exactly when some elastomer is present
      (the significant one from 8% on), the multi-material note exactly with
      three or more non-empty parts, and the fallback note alone otherwise. */
  lemma CircularityNotes(comp: seq<CompositionPart>, index: MaterialIndex, predicted: MetricRecord)
    ensures var r := EvaluateCircularity(comp, index, predicted);
      var e := ShareOf(comp, index, IsElastomerMaterial);
      var n := Components(comp);
      && (ElastomerSignificant in r.notes <==> e >= 8.0)
      && (ElastomerSmall in r.notes <==> 0.0 < e < 8.0)
      && (MultiMaterial in r.notes <==> n >= 3)
      && (ViablePathways in r.notes <==> e <= 0.0 && n < 3)
      && (ViablePathways in r.notes ==> r.notes == [ViablePathways])
  {
  }

  /** A landfill-risk verdict always has a cause: some elastomer, or a
      separation difficulty of at least 7.5. */
  lemma LandfillHasCause(comp: seq<CompositionPart>, index: MaterialIndex, predicted: MetricRecord)
    ensures var r := EvaluateCircularity(comp, index, predicted);
      r.eolPathway == LandfillRisk ==>
        ShareOf(comp, index, IsElastomerMaterial) > 0.0 || r.separationDifficulty >= 7.5
  {
  }
}
