/** The metric vocabulary and the records the engine works on
    (src/lib/types.ts). */
module Types {
  import opened Js

  /** The 14 measurable properties, each scored on 0..100. */
  datatype Metric =
    | Breathability | Elasticity | Durability | Softness | ThermalRegulation | WeightLightness
    | Co2 | Water | Energy | Biodegradability | MicroplasticRisk | Recyclability
    | Cost | Scalability

  /** The property key the source uses for a metric. */
  function MetricKey(m: Metric): string
  {
    match m
    case Breathability => "breathability"
    case Elasticity => "elasticity"
    case Durability => "durability"
    case Softness => "softness"
    case ThermalRegulation => "thermal_regulation"
    case WeightLightness => "weight_lightness"
    case Co2 => "co2"
    case Water => "water"
    case Energy => "energy"
    case Biodegradability => "biodegradability"
    case MicroplasticRisk => "microplastic_risk"
    case Recyclability => "recyclability"
    case Cost => "cost"
    case Scalability => "scalability"
  }

  const PerformanceMetrics: seq<Metric> :=
    [Breathability, Elasticity, Durability, Softness, ThermalRegulation, WeightLightness]
  const SustainabilityMetrics: seq<Metric> :=
    [Co2, Water, Energy, Biodegradability, MicroplasticRisk, Recyclability]
  const EconomicMetrics: seq<Metric> := [Cost, Scalability]

  /** `ALL_METRICS`: the three groups in order. */
  const AllMetrics: seq<Metric> := PerformanceMetrics + SustainabilityMetrics + EconomicMetrics

  const MetricSet: set<Metric> :=
    { Breathability, Elasticity, Durability, Softness, ThermalRegulation, WeightLightness,
      Co2, Water, Energy, Biodegradability, MicroplasticRisk, Recyclability, Cost, Scalability }

  const PerformanceSet: set<Metric> :=
    { Breathability, Elasticity, Durability, Softness, ThermalRegulation, WeightLightness }

  /** Every metric belongs to the vocabulary. */
  lemma MetricInSet(m: Metric)
    ensures m in MetricSet && m in AllMetrics
  {}

  lemma MetricGroups()
    ensures |PerformanceMetrics| == 6 && |SustainabilityMetrics| == 6 && |EconomicMetrics| == 2
    ensures |AllMetrics| == 14
    ensures forall i :: 0 <= i < 6 ==> AllMetrics[i] == PerformanceMetrics[i]
    ensures forall i :: 0 <= i < 6 ==> AllMetrics[6 + i] == SustainabilityMetrics[i]
    ensures forall i :: 0 <= i < 2 ==> AllMetrics[12 + i] == EconomicMetrics[i]
    ensures forall m :: m in AllMetrics <==> m in MetricSet
    ensures forall m :: m in PerformanceMetrics <==> m in PerformanceSet
  {}

  /** The 14 metrics, and their source keys, are pairwise distinct. */
  lemma {:induction false} MetricsDistinct()
    ensures forall i, j :: 0 <= i < j < |AllMetrics| ==> AllMetrics[i] != AllMetrics[j]
    ensures forall i, j :: 0 <= i < j < |AllMetrics| ==> MetricKey(AllMetrics[i]) != MetricKey(AllMetrics[j])
  {
    forall i, j | 0 <= i < j < |AllMetrics|
      ensures MetricKey(AllMetrics[i]) != MetricKey(AllMetrics[j])
    {
      MetricKeyInjective(AllMetrics[i], AllMetrics[j]);
    }
  }

  /** Keys of the same length already differ in their first letter. */
  lemma MetricKeyInjective(a: Metric, b: Metric)
    requires a != b
    ensures MetricKey(a) != MetricKey(b)
  {
    var x, y := MetricKey(a), MetricKey(b);
    assert |x| != |y| || x[0] != y[0];
  }

  /** `Record<MetricKey, number>`: a value for every metric. */
  type MetricRecord = v: map<Metric, real> | v.Keys == MetricSet
    witness map m | m in MetricSet :: 50.0

  /** `Partial<Record<MetricKey, number>>`: sliders and weights as sent. */
  type PartialRecord = map<Metric, real>

  /** `v[m] ?? default`: the value of an optional metric entry, or a default. */
  function ValueOr(v: PartialRecord, m: Metric, default: real): real
  {
    if m in v then v[m] else default
  }

  /** `v[m]` on a complete record. */
  function At(v: MetricRecord, m: Metric): real
  {
    MetricInSet(m);
    v[m]
  }

  /** A record with the same value for every metric. */
  function Uniform(x: real): (r: MetricRecord)
    ensures forall m | m in MetricSet :: r[m] == x
  {
    map m | m in MetricSet :: x
  }

  datatype Category = MMCF | Bast | Natural | Synthetic | BioPolymer | Protein

  /** A three-valued class: biodegradability class, microplastic-risk class
      and supply risk all use low/medium/high. */
  datatype Level = Low | Medium | High

  /** `{ low: 1, medium: 2, high: 3 }`, the order every comparison of
      classes uses. */
  function LevelOrder(l: Level): (r: int)
    ensures 1 <= r <= 3
  {
    match l
    case Low => 1
    case Medium => 2
    case High => 3
  }

  lemma LevelOrderInjective(a: Level, b: Level)
    ensures LevelOrder(a) == LevelOrder(b) <==> a == b
  {}

  datatype Lca = Lca(co2: real, water: real, energy: real)

  datatype MaterialConstraints =
    MaterialConstraints(biodegradability: Level, microplastic: Level, animalFiber: bool)

  datatype Material = Material(
    id: string,
    name: string,
    category: Category,
    properties: MetricRecord,
    lca: Lca,
    constraints: MaterialConstraints,
    costMin: real,
    costMax: real,
    trl: real)

  /** `Map<string, Material>` keyed by material id. */
  type MaterialIndex = map<string, Material>

  /** The optional hard constraints of a session. */
  datatype GenerateConstraints = GenerateConstraints(
    mustBiodegradable: Option<bool>,
    noAnimalFibers: Option<bool>,
    maxMicroplasticRisk: Option<Level>,
    maxCost: Option<real>)

  const NoConstraints := GenerateConstraints(None, None, None, None)

  /** The payload of one generation call; `useCaseId` is the optional
      `use_case_id` field that use-case resolution reads first. */
  datatype SessionInput = SessionInput(
    useCase: string,
    useCaseId: Option<string>,
    sliders: PartialRecord,
    weights: Option<PartialRecord>,
    constraints: Option<GenerateConstraints>)

  datatype CompositionPart = CompositionPart(materialId: string, name: string, pct: real)

  /** Display-only scores: three on 0..10 and an overall on 0..100. */
  datatype CompositeScores =
    CompositeScores(performance: real, sustainability: real, feasibility: real, overall: real)

  datatype Feasibility = Feasibility(trlEst: real, supplyRisk: Level)

  datatype EolPathway =
    MechanicalRecycling | ChemicalRecycling | IndustrialCompost | LandfillRisk | UnknownPathway

  /** The fixed English notes of the circularity assessment. */
  datatype CircularityNote = ElastomerSignificant | ElastomerSmall | MultiMaterial | ViablePathways

  datatype Circularity = Circularity(
    recyclabilityScore: real,
    separationDifficulty: real,
    microplasticRisk: real,
    eolPathway: EolPathway,
    circularityScore: real,
    notes: seq<CircularityNote>)

  /** The free-text explanation, kept only as what it was built from. */
  datatype Explanation = BlendSummary | RecyclableAlternativeTo(baseRank: int, original: Explanation)

  datatype Candidate = Candidate(
    rank: int,
    score: real,
    scores: CompositeScores,
    composition: seq<CompositionPart>,
    predicted: MetricRecord,
    lca: Lca,
    feasibility: Feasibility,
    circularity: Circularity,
    explanation: Explanation)

  /** Sum of the percentages of a composition. */
  function TotalPct(parts: seq<CompositionPart>): real
  {
    if |parts| == 0 then 0.0 else TotalPct(parts[..|parts| - 1]) + parts[|parts| - 1].pct
  }

  /** The ids of a catalog, with the lookup `new Map(ms.map(m => [m.id, m]))`:
      a later entry with the same id replaces an earlier one. */
  function IndexById(ms: seq<Material>): (r: map<string, Material>)
    ensures forall id :: id in r <==> exists i :: 0 <= i < |ms| && ms[i].id == id
    ensures forall id | id in r :: r[id] in ms && r[id].id == id
  {
    if |ms| == 0 then map[]
    else
      var r := IndexById(ms[..|ms| - 1]);
      assert forall i :: 0 <= i < |ms| - 1 ==> ms[..|ms| - 1][i] == ms[i];
      r[ms[|ms| - 1].id := ms[|ms| - 1]]
  }

  /** The lookup keeps, for each id, the last entry carrying it. */
  lemma {:induction false} IndexByIdLastWins(ms: seq<Material>, id: string)
    requires id in IndexById(ms)
    ensures LastWithId(ms, id, IndexById(ms)[id])
  {
    var init, last := ms[..|ms| - 1], ms[|ms| - 1];
    assert ms == init + [last];
    if id == last.id {
      LastWithIdOwn(init, last);
    } else {
      IndexByIdLastWins(init, id);
      LastWithIdExtend(init, last, id, IndexById(init)[id]);
    }
  }

  lemma LastWithIdOwn(init: seq<Material>, last: Material)
    ensures LastWithId(init + [last], last.id, last)
  {
    assert LastAt(init + [last], last.id, last, |init|);
  }

  lemma LastWithIdExtend(init: seq<Material>, last: Material, id: string, m: Material)
    requires id != last.id && LastWithId(init, id, m)
    ensures LastWithId(init + [last], id, m)
  {
    var i :| 0 <= i < |init| && LastAt(init, id, m, i);
    assert LastAt(init + [last], id, m, i);
  }

  /** m is the last entry of ms with the given id. */
  predicate LastWithId(ms: seq<Material>, id: string, m: Material)
  {
    exists i :: 0 <= i < |ms| && LastAt(ms, id, m, i)
  }

  /** ms[i] is m, and no entry after position i carries the id. */
  predicate LastAt(ms: seq<Material>, id: string, m: Material, i: int)
  {
    0 <= i < |ms| && ms[i] == m && forall j :: i < j < |ms| ==> ms[j].id != id
  }
}
