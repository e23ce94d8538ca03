/** The helpers of the candidate pipeline that tie a session to its use case
    (src/lib/engine/generate.ts): cost scoring, constraint filtering and
    merging, weight biasing, the use-case objective, penalties and bonuses,
    and the display scores. */
module UseCaseScoring {
  import opened Js
  import opened Types
  import opened Text
  import opened UseCaseTypes
  import opened Normalize
  import opened Circularity
  import opened UseCaseTable

  /** `clampCostToScore`: a price in EUR/kg, clamped to 1..25, mapped
      linearly onto 100..0 and rounded to one decimal. */
  function ClampCostToScore(eurKg: real): (r: real)
    ensures 0.0 <= r <= 100.0
    ensures eurKg <= 1.0 ==> r == 100.0
    ensures eurKg >= 25.0 ==> r == 0.0
  {
    var normalized := CostFraction(eurKg);
    var x := 100.0 - normalized * 100.0;
    RoundToWithin(x, 0, 100, 1);
    RoundToInteger(100, 1);
    RoundToInteger(0, 1);
    RoundTo(x, 1)
  }

  /** Where the clamped price sits between 1 and 25, as a fraction. */
  function CostFraction(eurKg: real): (n: real)
    ensures 0.0 <= n <= 1.0
    ensures eurKg <= 1.0 ==> n == 0.0
    ensures eurKg >= 25.0 ==> n == 1.0
  {
    (Min(25.0, Max(1.0, eurKg)) - 1.0) / 24.0
  }

  /** A dearer blend never scores better on cost. */
  lemma ClampCostMonotone(a: real, b: real)
    requires a <= b
    ensures ClampCostToScore(b) <= ClampCostToScore(a)
  {
    var na, nb := CostFraction(a), CostFraction(b);
    DivMonotone(Min(25.0, Max(1.0, a)) - 1.0, Min(25.0, Max(1.0, b)) - 1.0, 24.0);
    RoundToMonotone(100.0 - nb * 100.0, 100.0 - na * 100.0, 1);
  }

  /** Whether a material breaks one of the active hard constraints. A flag
      is active only when it is `true`; a class ceiling compares the order
      low < medium < high. */
  predicate Violates(c: GenerateConstraints, m: Material)
  {
    || (IsSet(c.mustBiodegradable) && m.constraints.biodegradability == Low)
    || (IsSet(c.noAnimalFibers) && m.constraints.animalFiber)
    || (c.maxMicroplasticRisk.Some? && LevelOrder(m.constraints.microplastic) > LevelOrder(c.maxMicroplasticRisk.value))
    || (c.maxCost.Some? && m.costMin > c.maxCost.value)
  }

  predicate Admissible(constraints: Option<GenerateConstraints>, m: Material)
  {
    constraints.None? || !Violates(constraints.value, m)
  }

  /** `filterMaterials`: the admissible materials, in catalog order. */
  function FilterMaterials(constraints: Option<GenerateConstraints>, ms: seq<Material>): (r: seq<Material>)
    ensures |r| <= |ms|
    ensures forall m :: m in r <==> m in ms && Admissible(constraints, m)
  {
    if |ms| == 0 then []
    else
      var rest := FilterMaterials(constraints, ms[..|ms| - 1]);
      var m := ms[|ms| - 1];
      assert ms == ms[..|ms| - 1] + [m];
      if Admissible(constraints, m) then rest + [m] else rest
  }

  /** Filtering by the constraints keeps the order and splits over concatenation:
      filtering a + b is filtering a, then b. */
  lemma {:induction false} FilterMaterialsAppend(constraints: Option<GenerateConstraints>, a: seq<Material>, b: seq<Material>)
    ensures FilterMaterials(constraints, a + b) == FilterMaterials(constraints, a) + FilterMaterials(constraints, b)
    decreases |b|
  {
    if |b| == 0 {
      assert a + b == a;
    } else {
      var b' := b[..|b| - 1];
      assert (a + b)[..|a + b| - 1] == a + b';
      assert (a + b)[|a + b| - 1] == b[|b| - 1];
      FilterMaterialsAppend(constraints, a, b');
    }
  }

  /** A single material is kept exactly when it passes. */
  lemma FilterMaterialsSingle(constraints: Option<GenerateConstraints>, x: Material)
    ensures FilterMaterials(constraints, [x]) == (if Admissible(constraints, x) then [x] else [])
  {
    assert [x][..0] == [];
  }

  /** A catalog whose every material is admissible passes unchanged, in
      particular when no constraint is active. */
  lemma {:induction false} FilterKeepsAdmissible(constraints: Option<GenerateConstraints>, ms: seq<Material>)
    requires forall i :: 0 <= i < |ms| ==> Admissible(constraints, ms[i])
    ensures FilterMaterials(constraints, ms) == ms
  {
    if |ms| > 0 {
      FilterKeepsAdmissible(constraints, ms[..|ms| - 1]);
      assert ms == ms[..|ms| - 1] + [ms[|ms| - 1]];
    }
  }

  lemma FilterWithoutConstraints(ms: seq<Material>)
    ensures FilterMaterials(None, ms) == ms
    ensures FilterMaterials(Some(NoConstraints), ms) == ms
  {
    FilterKeepsAdmissible(None, ms);
    FilterKeepsAdmissible(Some(NoConstraints), ms);
  }

  /** Filtering twice is filtering once. */
  lemma FilterIdempotent(constraints: Option<GenerateConstraints>, ms: seq<Material>)
    ensures FilterMaterials(constraints, FilterMaterials(constraints, ms)) == FilterMaterials(constraints, ms)
  {
    var r := FilterMaterials(constraints, ms);
    assert forall i :: 0 <= i < |r| ==> r[i] in r;
    FilterKeepsAdmissible(constraints, r);
  }

  /** `categoryFamily`: the family name a preference list refers to. */
  function CategoryFamily(c: Category): (r: string)
    ensures forall i :: 0 <= i < |r| ==> IsUpperAscii(r[i])
  {
    match c
    case MMCF => "CELLULOSIC"
    case Bast => "BAST"
    case Natural => "NATURAL"
    case Synthetic => "SYNTHETIC"
    case BioPolymer => "BIOPOLYMER"
    case Protein => "PROTEIN"
  }

  /** The six categories have six distinct family names. */
  lemma CategoryFamilyInjective(a: Category, b: Category)
    ensures CategoryFamily(a) == CategoryFamily(b) <==> a == b
  {
    if a != b {
      var x, y := CategoryFamily(a), CategoryFamily(b);
      assert |x| != |y| || x[0] != y[0];
    }
  }

  /** The class a numeric microplastic ceiling stands for. */
  function CeilingClass(risk: real): (l: Level)
    ensures l == Low <==> risk <= 4.0
    ensures l == Medium <==> 4.0 < risk <= 7.0
    ensures l == High <==> risk > 7.0
  {
    if risk <= 4.0 then Low else if risk <= 7.0 then Medium else High
  }

  /** `mergeConstraints`: the session's constraints with the use case's
      microplastic ceiling folded in; the stricter class wins and nothing
      else changes. */
  function MergeConstraints(input: Option<GenerateConstraints>, useCase: Option<EolConstraint>): (r: GenerateConstraints)
    ensures var given := input.GetOr(NoConstraints);
      r.(maxMicroplasticRisk := given.maxMicroplasticRisk) == given
    ensures var given := input.GetOr(NoConstraints);
      (useCase.None? || useCase.value.maxMicroplasticRisk.None?) ==> r == given
    ensures var given := input.GetOr(NoConstraints);
      useCase.Some? && useCase.value.maxMicroplasticRisk.Some? ==>
        var mapped := CeilingClass(useCase.value.maxMicroplasticRisk.value);
        && r.maxMicroplasticRisk.Some?
        && LevelOrder(r.maxMicroplasticRisk.value) <= LevelOrder(mapped)
        && (given.maxMicroplasticRisk.Some? ==>
              LevelOrder(r.maxMicroplasticRisk.value) <= LevelOrder(given.maxMicroplasticRisk.value))
        && (r.maxMicroplasticRisk.value == mapped || r.maxMicroplasticRisk == given.maxMicroplasticRisk)
  {
    var merged := input.GetOr(NoConstraints);
    if useCase.Some? && useCase.value.maxMicroplasticRisk.Some? then
      var mapped := CeilingClass(useCase.value.maxMicroplasticRisk.value);
      var existing := merged.maxMicroplasticRisk;
      if existing.None? || LevelOrder(mapped) < LevelOrder(existing.value) then
        merged.(maxMicroplasticRisk := Some(mapped))
      else merged
    else merged
  }

  /** `1 + max(0, min(1.5, bias))` for a biased metric, 1 otherwise. */
  function BiasFactor(bias: PropertyBias, m: Metric): (f: real)
    ensures 1.0 <= f <= 2.5
    ensures m !in bias ==> f == 1.0
  {
    if m in bias then 1.0 + Max(0.0, Min(1.5, bias[m])) else 1.0
  }

  /** The bias factor of every metric. */
  function Factors(bias: PropertyBias): (f: MetricRecord)
    ensures forall m | m in MetricSet :: f[m] == BiasFactor(bias, m)
  {
    map m | m in MetricSet :: BiasFactor(bias, m)
  }

  /** Every base weight times its factor. */
  function Biased(base: MetricRecord, f: MetricRecord): (r: MetricRecord)
    ensures forall m | m in MetricSet :: r[m] == base[m] * f[m]
  {
    map m | m in MetricSet :: base[m] * f[m]
  }

  /** `adjustWeightsForUseCase`: scale each weight by its bias factor and
      renormalise to sum 1; a non-positive sum returns the input. */
  function AdjustWeightsForUseCase(base: MetricRecord, useCase: UseCaseConfig): (r: MetricRecord)
    ensures var out := Biased(base, Factors(useCase.propertyBias));
      && (Total(out) <= 0.0 ==> r == base)
      && (Total(out) > 0.0 ==> Total(r) == 1.0 && forall m | m in MetricSet :: r[m] == out[m] / Total(out))
  {
    var out := Biased(base, Factors(useCase.propertyBias));
    var sum := Total(out);
    if sum <= 0.0 then base
    else
      SelfQuotient(sum);
      Scale(out, sum)
  }

  /** Scaling positive weights by positive factors keeps them positive. */
  lemma BiasedPositive(base: MetricRecord, f: MetricRecord)
    requires forall m | m in MetricSet :: base[m] > 0.0 && f[m] > 0.0
    ensures forall m | m in MetricSet :: Biased(base, f)[m] > 0.0
  {
    forall m | m in MetricSet ensures Biased(base, f)[m] > 0.0 {
      MulPositive(base[m], f[m]);
    }
  }

  /** Positive weights stay positive and are renormalised to sum 1. */
  lemma AdjustWeightsPositive(base: MetricRecord, useCase: UseCaseConfig)
    requires forall m | m in MetricSet :: base[m] > 0.0
    ensures Total(AdjustWeightsForUseCase(base, useCase)) == 1.0
    ensures forall m | m in MetricSet :: AdjustWeightsForUseCase(base, useCase)[m] > 0.0
  {
    var out := Biased(base, Factors(useCase.propertyBias));
    BiasedPositive(base, Factors(useCase.propertyBias));
    SumOverPositive(out, AllMetrics);
    var s := Total(out);
    forall m | m in MetricSet ensures AdjustWeightsForUseCase(base, useCase)[m] > 0.0 {
      PositiveQuotient(out[m], s);
    }
  }

  lemma MulPositive(a: real, b: real)
    requires a > 0.0 && b > 0.0
    ensures a * b > 0.0
  {}

  /** Factors of 1 leave the weights alone. */
  lemma BiasedByOne(base: MetricRecord, f: MetricRecord)
    requires forall m | m in MetricSet :: f[m] == 1.0
    ensures Biased(base, f) == base
  {
    assert forall m | m in MetricSet :: Biased(base, f)[m] == base[m];
  }

  /** A use case without biases leaves weights that already sum to 1
      alone. */
  lemma AdjustWithoutBias(base: MetricRecord, useCase: UseCaseConfig)
    requires useCase.propertyBias == map[]
    requires Total(base) == 1.0
    ensures AdjustWeightsForUseCase(base, useCase) == base
  {
    BiasedByOne(base, Factors(useCase.propertyBias));
    var r := AdjustWeightsForUseCase(base, useCase);
    assert forall m | m in MetricSet :: r[m] == base[m];
  }

  /** The values of a record at the given metrics, in order. */
  function Values(v: MetricRecord, keys: seq<Metric>): (r: seq<real>)
    ensures |r| == |keys|
    ensures forall i :: 0 <= i < |keys| ==> r[i] == At(v, keys[i])
  {
    seq(|keys|, i requires 0 <= i < |keys| => At(v, keys[i]))
  }

  /** The averaged performance, sustainability and feasibility figures of a
      prediction, each on 0..100 when the prediction is. */
  function PerformanceAverage(v: MetricRecord): real { Avg(Values(v, PerformanceMetrics)) }

  function SustainabilityAverage(v: MetricRecord): real { Avg(Values(v, SustainabilityMetrics)) }

  function FeasibilityRaw(v: MetricRecord, trl: real): real
  {
    Avg([At(v, Scalability), At(v, Cost)]) * 0.6 + (trl / 9.0) * 100.0 * 0.4
  }

  lemma AveragesInRange(v: MetricRecord, trl: real)
    requires forall m | m in MetricSet :: 0.0 <= v[m] <= 100.0
    requires 0.0 <= trl <= 9.0
    ensures 0.0 <= PerformanceAverage(v) <= 100.0
    ensures 0.0 <= SustainabilityAverage(v) <= 100.0
    ensures 0.0 <= FeasibilityRaw(v, trl) <= 100.0
  {
    MetricGroups();
    AvgBounds(Values(v, PerformanceMetrics), 0.0, 100.0);
    AvgBounds(Values(v, SustainabilityMetrics), 0.0, 100.0);
    FeasibilityInRange(v, trl);
  }

  lemma FeasibilityInRange(v: MetricRecord, trl: real)
    requires forall m | m in MetricSet :: 0.0 <= v[m] <= 100.0
    requires 0.0 <= trl <= 9.0
    ensures 0.0 <= FeasibilityRaw(v, trl) <= 100.0
  {
    AvgBounds([At(v, Scalability), At(v, Cost)], 0.0, 100.0);
    MulMonotone(0.0, trl / 9.0, 100.0);
    MulMonotone(trl / 9.0, 1.0, 100.0);
  }

  /** `candidateUseCaseObjective`: the use case's five weights applied to
      the candidate's figures, each brought to 0..1. */
  function CandidateUseCaseObjective(c: Candidate, useCase: UseCaseConfig): real
  {
    var p := c.predicted;
    WeightedFigures(useCase.scoreWeights,
      PerformanceAverage(p) / 100.0,
      SustainabilityAverage(p) / 100.0,
      c.circularity.circularityScore / 10.0,
      At(p, Cost) / 100.0,
      FeasibilityRaw(p, c.feasibility.trlEst) / 100.0)
  }

  function WeightedFigures(w: ScoreWeights, perf: real, sust: real, circ: real, cost: real, feas: real): real
  {
    w.performance * perf + w.sustainability * sust + w.circularity * circ + w.cost * cost + w.feasibility * feas
  }

  predicate NonNegativeScoreWeights(w: ScoreWeights)
  {
    w.performance >= 0.0 && w.sustainability >= 0.0 && w.circularity >= 0.0 && w.cost >= 0.0 && w.feasibility >= 0.0
  }

  lemma WeightedUnit(w: real, x: real) returns (y: real)
    requires w >= 0.0 && 0.0 <= x <= 1.0
    ensures y == w * x && 0.0 <= y <= w
  {
    y := w * x;
    assert w - y == w * (1.0 - x);
  }

  /** Figures on 0..1 under non-negative weights give 0..total. */
  lemma WeightedFiguresBounds(w: ScoreWeights, perf: real, sust: real, circ: real, cost: real, feas: real)
    requires NonNegativeScoreWeights(w)
    requires 0.0 <= perf <= 1.0 && 0.0 <= sust <= 1.0 && 0.0 <= circ <= 1.0 && 0.0 <= cost <= 1.0 && 0.0 <= feas <= 1.0
    ensures 0.0 <= WeightedFigures(w, perf, sust, circ, cost, feas) <= w.Total()
  {
    var a := WeightedUnit(w.performance, perf);
    var b := WeightedUnit(w.sustainability, sust);
    var c := WeightedUnit(w.circularity, circ);
    var d := WeightedUnit(w.cost, cost);
    var e := WeightedUnit(w.feasibility, feas);
    BoundedSum(a, b, c, d, e, w);
  }

  lemma BoundedSum(a: real, b: real, c: real, d: real, e: real, w: ScoreWeights)
    requires 0.0 <= a <= w.performance && 0.0 <= b <= w.sustainability && 0.0 <= c <= w.circularity
    requires 0.0 <= d <= w.cost && 0.0 <= e <= w.feasibility
    ensures 0.0 <= a + b + c + d + e <= w.Total()
  {}

  /** With figures in range and non-negative weights, the objective lies
      between 0 and the weights' total. */
  lemma ObjectiveBounds(c: Candidate, useCase: UseCaseConfig)
    requires forall m | m in MetricSet :: 0.0 <= c.predicted[m] <= 100.0
    requires 0.0 <= c.circularity.circularityScore <= 10.0
    requires 0.0 <= c.feasibility.trlEst <= 9.0
    requires NonNegativeScoreWeights(useCase.scoreWeights)
    ensures 0.0 <= CandidateUseCaseObjective(c, useCase) <= useCase.scoreWeights.Total()
  {
    var p := c.predicted;
    AveragesInRange(p, c.feasibility.trlEst);
    MetricInSet(Cost);
    WeightedFiguresBounds(useCase.scoreWeights,
      PerformanceAverage(p) / 100.0,
      SustainabilityAverage(p) / 100.0,
      c.circularity.circularityScore / 10.0,
      At(p, Cost) / 100.0,
      FeasibilityRaw(p, c.feasibility.trlEst) / 100.0);
  }

  /** Some part's name mentions an elastomer. */
  predicate AnyElastomer(comp: seq<CompositionPart>)
  {
    exists i :: 0 <= i < |comp| && HasElastomer(comp[i].name)
  }

  /** How far x lies above a bound, or 0. */
  function Excess(x: real, bound: real): (e: real)
    ensures e >= 0.0
    ensures e > 0.0 <==> x > bound
  {
    if x - bound > 0.0 then x - bound else 0.0
  }

  /** The candidate breaks one of the end-of-life constraints: an elastomer
      under `no_elastane`, more than two components under
      `prefer_monomaterial`, a recyclability score below the minimum, or a
      microplastic risk above the maximum. */
  predicate BreaksEol(c: Candidate, k: EolConstraint)
  {
    || (IsSet(k.noElastane) && AnyElastomer(c.composition))
    || (IsSet(k.preferMonomaterial) && Components(c.composition) > 2)
    || (k.mustBeRecyclableMin.Some? && k.mustBeRecyclableMin.value > c.circularity.recyclabilityScore)
    || (k.maxMicroplasticRisk.Some? && c.circularity.microplasticRisk > k.maxMicroplasticRisk.value)
  }

  /** The penalties of the use case's end-of-life constraints: 0.12 for an
      elastomer under `no_elastane`, 0.05 for more than two components
      under `prefer_monomaterial`, and 0.03 per point of recyclability
      shortfall and of microplastic excess. */
  function ConstraintPenalty(c: Candidate, constraints: Option<EolConstraint>): (d: real)
    ensures d <= 0.0
    ensures constraints.None? ==> d == 0.0
    ensures d < 0.0 <==> constraints.Some? && BreaksEol(c, constraints.value)
    ensures constraints.Some? && IsSet(constraints.value.noElastane) && AnyElastomer(c.composition) ==> d <= -0.12
    ensures constraints.Some? && IsSet(constraints.value.preferMonomaterial) && Components(c.composition) > 2 ==> d <= -0.05
  {
    if constraints.None? then 0.0
    else
      var k := constraints.value;
      var elastane := if IsSet(k.noElastane) && AnyElastomer(c.composition) then -0.12 else 0.0;
      var mono := if IsSet(k.preferMonomaterial) && Components(c.composition) > 2 then -0.05 else 0.0;
      var recyc := if k.mustBeRecyclableMin.Some?
        then -(Excess(k.mustBeRecyclableMin.value, c.circularity.recyclabilityScore) * 0.03) else 0.0;
      var micro := if k.maxMicroplasticRisk.Some?
        then -(Excess(c.circularity.microplasticRisk, k.maxMicroplasticRisk.value) * 0.03) else 0.0;
      elastane + mono + recyc + micro
  }

  /** A preference list, upper-cased (`new Set(list.map(toUpperCase))`). */
  function UpperAll(names: seq<string>): (r: seq<string>)
    ensures |r| == |names|
    ensures forall i :: 0 <= i < |names| ==> r[i] == Upper(names[i])
  {
    if |names| == 0 then [] else [Upper(names[0])] + UpperAll(names[1..])
  }

  /** The percentage of the known parts whose family is listed. */
  function FamilyShare(comp: seq<CompositionPart>, index: MaterialIndex, families: seq<string>): (r: real)
    ensures |families| == 0 ==> r == 0.0
  {
    if |comp| == 0 then 0.0
    else
      var p := comp[|comp| - 1];
      FamilyShare(comp[..|comp| - 1], index, families)
        + (if p.materialId in index && CategoryFamily(index[p.materialId].category) in families then p.pct else 0.0)
  }

  lemma {:induction false} FamilyShareBounds(comp: seq<CompositionPart>, index: MaterialIndex, families: seq<string>)
    requires forall i :: 0 <= i < |comp| ==> comp[i].pct >= 0.0
    ensures 0.0 <= FamilyShare(comp, index, families) <= TotalPct(comp)
  {
    if |comp| > 0 {
      FamilyShareBounds(comp[..|comp| - 1], index, families);
    }
  }

  /** `+0.09` per whole blend of preferred families, `-0.1` per whole blend
      of discouraged ones. */
  function PreferenceAdjustment(comp: seq<CompositionPart>, index: MaterialIndex, prefs: Option<MaterialPreference>): real
  {
    var preferred := UpperAll(if prefs.Some? then prefs.value.preferredFamilies.GetOr([]) else []);
    var discouraged := UpperAll(if prefs.Some? then prefs.value.discouragedFamilies.GetOr([]) else []);
    (FamilyShare(comp, index, preferred) / 100.0) * 0.09 - (FamilyShare(comp, index, discouraged) / 100.0) * 0.1
  }

  /** On a blend whose percentages are non-negative and total at most 100,
      the preference adjustment lies in [-0.1, 0.09]. */
  lemma PreferenceAdjustmentBounds(comp: seq<CompositionPart>, index: MaterialIndex, prefs: Option<MaterialPreference>)
    requires forall i :: 0 <= i < |comp| ==> comp[i].pct >= 0.0
    requires TotalPct(comp) <= 100.0
    ensures -0.1 <= PreferenceAdjustment(comp, index, prefs) <= 0.09
  {
    var preferred := UpperAll(if prefs.Some? then prefs.value.preferredFamilies.GetOr([]) else []);
    var discouraged := UpperAll(if prefs.Some? then prefs.value.discouragedFamilies.GetOr([]) else []);
    FamilyShareBounds(comp, index, preferred);
    FamilyShareBounds(comp, index, discouraged);
  }

  /** The family share adds up over concatenation of compositions. */
  lemma {:induction false} FamilyShareAppend(a: seq<CompositionPart>, b: seq<CompositionPart>, index: MaterialIndex, families: seq<string>)
    ensures FamilyShare(a + b, index, families) == FamilyShare(a, index, families) + FamilyShare(b, index, families)
    decreases |b|
  {
    if |b| == 0 {
      assert a + b == a;
    } else {
      var b' := b[..|b| - 1];
      assert (a + b)[..|a + b| - 1] == a + b';
      assert (a + b)[|a + b| - 1] == b[|b| - 1];
      FamilyShareAppend(a, b', index, families);
    }
  }

  /** A single part counts with its percentage exactly when its material is
      known and of a listed family. */
  lemma FamilyShareSingle(p: CompositionPart, index: MaterialIndex, families: seq<string>)
    ensures FamilyShare([p], index, families) ==
      if p.materialId in index && CategoryFamily(index[p.materialId].category) in families then p.pct else 0.0
  {
    assert [p][..0] == [];
  }

  /** A one-part blend of a preferred, not discouraged family earns 0.09
      per whole blend; of a discouraged, not preferred family it loses 0.1
      per whole blend; of a family in neither list nothing. */
  lemma PreferenceOfPart(p: CompositionPart, index: MaterialIndex, preferred: seq<string>, discouraged: seq<string>)
    requires p.materialId in index
    ensures var prefs := Some(MaterialPreference(Some(preferred), Some(discouraged)));
      var f := CategoryFamily(index[p.materialId].category);
      && (f in UpperAll(preferred) && f !in UpperAll(discouraged) ==>
            PreferenceAdjustment([p], index, prefs) == (p.pct / 100.0) * 0.09)
      && (f !in UpperAll(preferred) && f in UpperAll(discouraged) ==>
            PreferenceAdjustment([p], index, prefs) == -((p.pct / 100.0) * 0.1))
      && (f !in UpperAll(preferred) && f !in UpperAll(discouraged) ==>
            PreferenceAdjustment([p], index, prefs) == 0.0)
  {
    FamilyShareSingle(p, index, UpperAll(preferred));
    FamilyShareSingle(p, index, UpperAll(discouraged));
  }

  lemma UpperAllFixed(names: seq<string>)
    requires forall i :: 0 <= i < |names| ==> Upper(names[i]) == names[i]
    ensures UpperAll(names) == names
  {}

  /** The family names are their own upper case. */
  lemma FamilyNamesUpper()
    ensures Upper("CELLULOSIC") == "CELLULOSIC" && Upper("BIOPOLYMER") == "BIOPOLYMER" && Upper("PROTEIN") == "PROTEIN"
    ensures Upper("NATURAL") == "NATURAL" && Upper("BAST") == "BAST" && Upper("SYNTHETIC") == "SYNTHETIC"
  {
    UpperUnchanged("CELLULOSIC");
    UpperUnchanged("BIOPOLYMER");
    UpperUnchanged("PROTEIN");
    UpperUnchanged("NATURAL");
    UpperUnchanged("BAST");
    UpperUnchanged("SYNTHETIC");
  }

  /** The sportswear profile prefers cellulosic and biopolymer fibres and
      discourages protein fibres: a pure man-made cellulosic blend earns
      +0.09, a pure protein blend loses 0.1, a pure synthetic one neither. */
  lemma SportswearPreferences(p: CompositionPart, index: MaterialIndex)
    requires p.materialId in index && p.pct == 100.0
    ensures index[p.materialId].category == MMCF ==>
      PreferenceAdjustment([p], index, Sportswear.materialPreferences) == 0.09
    ensures index[p.materialId].category == Protein ==>
      PreferenceAdjustment([p], index, Sportswear.materialPreferences) == -0.1
    ensures index[p.materialId].category == Synthetic ==>
      PreferenceAdjustment([p], index, Sportswear.materialPreferences) == 0.0
  {
    assert Sportswear.materialPreferences == Some(MaterialPreference(Some(["CELLULOSIC", "BIOPOLYMER"]), Some(["PROTEIN"])));
    FamilyNamesUpper();
    UpperAllFixed(["CELLULOSIC", "BIOPOLYMER"]);
    UpperAllFixed(["PROTEIN"]);
    PreferenceOfPart(p, index, ["CELLULOSIC", "BIOPOLYMER"], ["PROTEIN"]);
  }

  /** The biodegradable-products profile prefers natural, cellulosic and
      bast fibres and discourages synthetic and biopolymer ones; protein
      fibres are in neither list. */
  lemma BiodegradablePreferences(p: CompositionPart, index: MaterialIndex)
    requires p.materialId in index && p.pct == 100.0
    ensures index[p.materialId].category == Natural ==>
      PreferenceAdjustment([p], index, BiodegradableProducts.materialPreferences) == 0.09
    ensures index[p.materialId].category == Synthetic ==>
      PreferenceAdjustment([p], index, BiodegradableProducts.materialPreferences) == -0.1
    ensures index[p.materialId].category == Protein ==>
      PreferenceAdjustment([p], index, BiodegradableProducts.materialPreferences) == 0.0
  {
    assert BiodegradableProducts.materialPreferences ==
      Some(MaterialPreference(Some(["NATURAL", "CELLULOSIC", "BAST"]), Some(["SYNTHETIC", "BIOPOLYMER"])));
    FamilyNamesUpper();
    UpperAllFixed(["NATURAL", "CELLULOSIC", "BAST"]);
    UpperAllFixed(["SYNTHETIC", "BIOPOLYMER"]);
    PreferenceOfPart(p, index, ["NATURAL", "CELLULOSIC", "BAST"], ["SYNTHETIC", "BIOPOLYMER"]);
  }

  /** The monomaterial bonus for at most two components, and the
      low-microplastic bonus at a microplastic risk of at most 4, both in
      hundredths. */
  function UseCaseBonus(c: Candidate, bonuses: Option<Bonuses>): (b: real)
    ensures bonuses.None? ==> b == 0.0
  {
    var mono := if bonuses.Some? then bonuses.value.monomaterialBonus.GetOr(0.0) else 0.0;
    var low := if bonuses.Some? then bonuses.value.lowMicroplasticBonus.GetOr(0.0) else 0.0;
    (if Components(c.composition) <= 2 then mono / 100.0 else 0.0)
      + (if c.circularity.microplasticRisk <= 4.0 then low / 100.0 else 0.0)
  }

  /** `applyUseCasePenaltiesAndBonuses`: the score adjustment of a use case.
      Its end-of-life constraints only ever lower the score, and they lower
      it exactly when the candidate breaks one of them; a use case with no
      constraints, preferences or bonuses changes nothing. */
  function ApplyUseCasePenaltiesAndBonuses(c: Candidate, useCase: UseCaseConfig, index: MaterialIndex): (d: real)
    ensures d <= PreferenceAdjustment(c.composition, index, useCase.materialPreferences) + UseCaseBonus(c, useCase.bonuses)
    ensures d < PreferenceAdjustment(c.composition, index, useCase.materialPreferences) + UseCaseBonus(c, useCase.bonuses)
      <==> useCase.constraints.Some? && BreaksEol(c, useCase.constraints.value)
    ensures useCase.constraints.Some? && IsSet(useCase.constraints.value.noElastane) && AnyElastomer(c.composition) ==>
      d <= PreferenceAdjustment(c.composition, index, useCase.materialPreferences) + UseCaseBonus(c, useCase.bonuses) - 0.12
    ensures useCase.constraints.None? && useCase.materialPreferences.None? && useCase.bonuses.None? ==> d == 0.0
  {
    ConstraintPenalty(c, useCase.constraints)
      + PreferenceAdjustment(c.composition, index, useCase.materialPreferences)
      + UseCaseBonus(c, useCase.bonuses)
  }

  /** `to10`: a 0..100 figure, clamped, on 0..10 to one decimal. */
  function To10(score: real): (r: real)
    ensures 0.0 <= r <= 10.0
  {
    var x := Max(0.0, Min(100.0, score)) / 10.0;
    RoundToWithin(x, 0, 10, 1);
    RoundTo(x, 1)
  }

  lemma To10Monotone(a: real, b: real)
    requires a <= b
    ensures To10(a) <= To10(b)
  {
    var x, y := Max(0.0, Min(100.0, a)), Max(0.0, Min(100.0, b));
    DivMonotone(x, y, 10.0);
    RoundToMonotone(x / 10.0, y / 10.0, 1);
  }

  /** `computeCompositeScores`: the display scores. They never feed the
      ranking. */
  function ComputeCompositeScores(c: Candidate): (r: CompositeScores)
    ensures 0.0 <= r.performance <= 10.0 && 0.0 <= r.sustainability <= 10.0 && 0.0 <= r.feasibility <= 10.0
  {
    var p := c.predicted;
    var perf := PerformanceAverage(p);
    var sust := SustainabilityAverage(p);
    var feas := FeasibilityRaw(p, c.feasibility.trlEst);
    CompositeScores(To10(perf), To10(sust), To10(feas), RoundTo(perf * 0.45 + sust * 0.35 + feas * 0.2, 1))
  }

  /** With figures in range the overall display score lies on 0..100. */
  lemma OverallInRange(c: Candidate)
    requires forall m | m in MetricSet :: 0.0 <= c.predicted[m] <= 100.0
    requires 0.0 <= c.feasibility.trlEst <= 9.0
    ensures 0.0 <= ComputeCompositeScores(c).overall <= 100.0
  {
    var p := c.predicted;
    AveragesInRange(p, c.feasibility.trlEst);
    var perf, sust, feas := PerformanceAverage(p), SustainabilityAverage(p), FeasibilityRaw(p, c.feasibility.trlEst);
    RoundToWithin(perf * 0.45 + sust * 0.35 + feas * 0.2, 0, 100, 1);
  }
}
