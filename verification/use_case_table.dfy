/** The use-case registry (src/lib/config/useCases.ts): the 18 profiles,
    their score-weight normalisation, the id lookup and the default. */
module UseCaseTable {
  import opened Js
  import opened Types
  import opened UseCaseTypes

  /** The five score weights scaled by one factor, each rounded to 4 decimals. */
  function RoundedShares(w: ScoreWeights, total: real): (r: ScoreWeights)
    requires total > 0.0
    ensures OnGrid(r.performance, 4) && OnGrid(r.sustainability, 4) && OnGrid(r.circularity, 4)
    ensures OnGrid(r.cost, 4) && OnGrid(r.feasibility, 4)
    ensures -0.00005 <= r.performance - w.performance / total <= 0.00005
    ensures -0.00005 <= r.sustainability - w.sustainability / total <= 0.00005
    ensures -0.00005 <= r.circularity - w.circularity / total <= 0.00005
    ensures -0.00005 <= r.cost - w.cost / total <= 0.00005
    ensures -0.00005 <= r.feasibility - w.feasibility / total <= 0.00005
  {
    RoundToErrorSmall(w.performance / total);
    RoundToErrorSmall(w.sustainability / total);
    RoundToErrorSmall(w.circularity / total);
    RoundToErrorSmall(w.cost / total);
    RoundToErrorSmall(w.feasibility / total);
    RoundToGrid(w.performance / total, 4);
    RoundToGrid(w.sustainability / total, 4);
    RoundToGrid(w.circularity / total, 4);
    RoundToGrid(w.cost / total, 4);
    RoundToGrid(w.feasibility / total, 4);
    ScoreWeights(
      RoundTo(w.performance / total, 4),
      RoundTo(w.sustainability / total, 4),
      RoundTo(w.circularity / total, 4),
      RoundTo(w.cost / total, 4),
      RoundTo(w.feasibility / total, 4))
  }

  /** Five quotients by the sum of their numerators add up to one. */
  lemma SharesSumToOne(a: real, b: real, c: real, d: real, e: real)
    requires a + b + c + d + e > 0.0
    ensures var t := a + b + c + d + e; a / t + b / t + c / t + d / t + e / t == 1.0
  {
    var t := a + b + c + d + e;
    assert a / t + b / t + c / t + d / t + e / t == (a + b + c + d + e) / t;
  }

  /** `normalizeScoreWeights`: a profile whose weights total at most 0 is kept
      as is; otherwise each weight becomes its share of the total to 4
      decimals and nothing else in the profile changes. */
  function NormalizeScoreWeights(c: UseCaseConfig): (r: UseCaseConfig)
    ensures c.scoreWeights.Total() <= 0.0 ==> r == c
    ensures r.(scoreWeights := c.scoreWeights) == c
    ensures c.scoreWeights.Total() > 0.0 ==>
      var w, t := c.scoreWeights, c.scoreWeights.Total();
      && OnGrid(r.scoreWeights.performance, 4) && OnGrid(r.scoreWeights.sustainability, 4)
      && OnGrid(r.scoreWeights.circularity, 4) && OnGrid(r.scoreWeights.cost, 4)
      && OnGrid(r.scoreWeights.feasibility, 4)
      && -0.00005 <= r.scoreWeights.performance - w.performance / t <= 0.00005
      && -0.00005 <= r.scoreWeights.sustainability - w.sustainability / t <= 0.00005
      && -0.00005 <= r.scoreWeights.circularity - w.circularity / t <= 0.00005
      && -0.00005 <= r.scoreWeights.cost - w.cost / t <= 0.00005
      && -0.00005 <= r.scoreWeights.feasibility - w.feasibility / t <= 0.00005
    ensures c.scoreWeights.Total() > 0.0 ==> -0.00025 <= r.scoreWeights.Total() - 1.0 <= 0.00025
  {
    var total := c.scoreWeights.Total();
    if total <= 0.0 then c
    else
      var w := c.scoreWeights;
      SharesSumToOne(w.performance, w.sustainability, w.circularity, w.cost, w.feasibility);
      c.(scoreWeights := RoundedShares(w, total))
  }

  /** The profiles as written, before normalisation. */
  const Sportswear: UseCaseConfig :=
    UseCaseConfig(
      "sportswear", "Sportswear", ApparelPerformance,
      "High breathability and elasticity with balanced circularity.",
      ScoreWeights(0.4, 0.2, 0.2, 0.08, 0.12),
      map[Breathability := 1.0, Elasticity := 1.0, WeightLightness := 0.35, Durability := 0.3], None,
      Some(EolConstraint(None, None, None, Some(6.5))),
      Some(MaterialPreference(Some(["CELLULOSIC", "BIOPOLYMER"]), Some(["PROTEIN"]))),
      None)

  const CyclingApparel: UseCaseConfig :=
    UseCaseConfig(
      "cycling-apparel", "Cycling Apparel", ApparelPerformance,
      "Breathability, lightness, and elasticity for high-motion cycling gear.",
      ScoreWeights(0.44, 0.16, 0.14, 0.08, 0.18),
      map[Breathability := 0.8, WeightLightness := 1.0, Elasticity := 0.95, Durability := 0.4], None,
      Some(EolConstraint(None, None, None, Some(7.0))),
      Some(MaterialPreference(Some(["CELLULOSIC", "BIOPOLYMER"]), Some(["PROTEIN"]))),
      None)

  const OutdoorTechnical: UseCaseConfig :=
    UseCaseConfig(
      "outdoor-technical", "Outdoor Technical", ApparelPerformance,
      "Max durability and thermal regulation with stronger feasibility pressure.",
      ScoreWeights(0.42, 0.14, 0.12, 0.08, 0.24),
      map[Durability := 1.0, ThermalRegulation := 0.9, WeightLightness := 0.35], None,
      Some(EolConstraint(None, None, None, Some(7.5))),
      Some(MaterialPreference(Some(["CELLULOSIC", "BAST", "BIOPOLYMER"]), None)),
      None)

  const RunningApparel: UseCaseConfig :=
    UseCaseConfig(
      "running-apparel", "Running Apparel", ApparelPerformance,
      "Max weight lightness and breathability with moderate cost sensitivity.",
      ScoreWeights(0.41, 0.16, 0.14, 0.12, 0.17),
      map[WeightLightness := 1.0, Breathability := 0.95, Elasticity := 0.5], None,
      Some(EolConstraint(None, None, None, Some(6.5))),
      Some(MaterialPreference(Some(["CELLULOSIC", "NATURAL"]), Some(["PROTEIN"]))),
      None)

  const BaseLayers: UseCaseConfig :=
    UseCaseConfig(
      "base-layers", "Base Layers", ApparelPerformance,
      "Softness and thermal regulation with capped microplastic risk.",
      ScoreWeights(0.37, 0.2, 0.17, 0.09, 0.17),
      map[Softness := 1.0, ThermalRegulation := 0.95, Breathability := 0.35], None,
      Some(EolConstraint(None, None, None, Some(5.5))),
      Some(MaterialPreference(Some(["CELLULOSIC", "NATURAL"]), Some(["SYNTHETIC"]))),
      None)

  const LuxuryFashion: UseCaseConfig :=
    UseCaseConfig(
      "luxury-fashion", "Luxury Fashion", ApparelFashion,
      "Softness and handfeel oriented profile with low cost weight.",
      ScoreWeights(0.38, 0.24, 0.16, 0.04, 0.18),
      map[Softness := 1.0, ThermalRegulation := 0.55, Breathability := 0.35], None,
      Some(EolConstraint(None, None, None, Some(5.0))),
      Some(MaterialPreference(Some(["CELLULOSIC", "NATURAL"]), None)),
      Some(Bonuses(None, Some(5.0))))

  const FastFashion: UseCaseConfig :=
    UseCaseConfig(
      "fast-fashion", "Fast Fashion", ApparelFashion,
      "High cost and feasibility priority with acceptable mid durability.",
      ScoreWeights(0.24, 0.14, 0.08, 0.31, 0.23),
      map[Durability := 0.35, Softness := 0.2], None,
      Some(EolConstraint(None, None, None, Some(7.5))),
      Some(MaterialPreference(Some(["NATURAL", "CELLULOSIC"]), None)),
      None)

  const TailoringFormal: UseCaseConfig :=
    UseCaseConfig(
      "tailoring-formal", "Tailoring Formal", ApparelFashion,
      "Durability and structure with low elasticity preference.",
      ScoreWeights(0.36, 0.18, 0.14, 0.11, 0.21),
      map[Durability := 0.85, Elasticity := 0.05, ThermalRegulation := 0.2], None,
      Some(EolConstraint(None, None, None, Some(6.5))),
      Some(MaterialPreference(Some(["NATURAL", "CELLULOSIC"]), Some(["BIOPOLYMER"]))),
      None)

  const Knitwear: UseCaseConfig :=
    UseCaseConfig(
      "knitwear", "Knitwear", ApparelFashion,
      "Softness and elasticity with medium durability.",
      ScoreWeights(0.36, 0.2, 0.16, 0.09, 0.19),
      map[Softness := 1.0, Elasticity := 0.75, Durability := 0.35], None,
      Some(EolConstraint(None, None, None, Some(6.0))),
      Some(MaterialPreference(Some(["CELLULOSIC", "NATURAL"]), None)),
      None)

  const Denim: UseCaseConfig :=
    UseCaseConfig(
      "denim", "Denim", ApparelFashion,
      "Very high durability with low to medium elasticity.",
      ScoreWeights(0.4, 0.17, 0.13, 0.1, 0.2),
      map[Durability := 1.0, Elasticity := 0.25, Softness := 0.15], None,
      Some(EolConstraint(None, None, None, Some(6.5))),
      Some(MaterialPreference(Some(["BAST", "NATURAL", "CELLULOSIC"]), None)),
      None)

  const Upholstery: UseCaseConfig :=
    UseCaseConfig(
      "upholstery", "Upholstery", Interior,
      "Very high durability, recyclable threshold, and capped microplastic risk.",
      ScoreWeights(0.33, 0.17, 0.2, 0.14, 0.16),
      map[Durability := 1.0, Softness := 0.25], None,
      Some(EolConstraint(None, Some(true), Some(5.5), Some(6.0))),
      Some(MaterialPreference(Some(["NATURAL", "CELLULOSIC"]), Some(["BIOPOLYMER"]))),
      Some(Bonuses(Some(6.0), None)))

  const BeddingLinens: UseCaseConfig :=
    UseCaseConfig(
      "bedding-linens", "Bedding Linens", Interior,
      "Softness and breathability focus with moderate circularity pressure.",
      ScoreWeights(0.34, 0.2, 0.18, 0.1, 0.18),
      map[Softness := 1.0, Breathability := 0.85, ThermalRegulation := 0.25], None,
      Some(EolConstraint(None, None, None, Some(5.5))),
      Some(MaterialPreference(Some(["CELLULOSIC", "NATURAL"]), None)),
      None)

  const CurtainsDrapery: UseCaseConfig :=
    UseCaseConfig(
      "curtains-drapery", "Curtains Drapery", Interior,
      "Lightness and softness with medium durability targets.",
      ScoreWeights(0.31, 0.2, 0.18, 0.13, 0.18),
      map[WeightLightness := 1.0, Softness := 0.8, Durability := 0.35], None,
      Some(EolConstraint(None, None, None, Some(6.5))),
      Some(MaterialPreference(Some(["CELLULOSIC", "NATURAL"]), None)),
      None)

  const Workwear: UseCaseConfig :=
    UseCaseConfig(
      "workwear", "Workwear", Technical,
      "Highest durability and feasibility with low elasticity bias.",
      ScoreWeights(0.36, 0.12, 0.12, 0.13, 0.27),
      map[Durability := 1.0, Elasticity := 0.1, ThermalRegulation := 0.25], None,
      Some(EolConstraint(None, None, None, Some(7.0))),
      Some(MaterialPreference(Some(["BAST", "CELLULOSIC"]), Some(["PROTEIN"]))),
      None)

  const MedicalTextiles: UseCaseConfig :=
    UseCaseConfig(
      "medical-textiles", "Medical Textiles", Technical,
      "Durability and low microplastic profile with medium circularity.",
      ScoreWeights(0.34, 0.2, 0.18, 0.08, 0.2),
      map[Durability := 0.8, Softness := 0.35, Breathability := 0.25], None,
      Some(EolConstraint(None, None, Some(5.5), Some(4.5))),
      Some(MaterialPreference(Some(["CELLULOSIC", "NATURAL"]), Some(["SYNTHETIC"]))),
      Some(Bonuses(None, Some(6.0))))

  const AutomotiveTextiles: UseCaseConfig :=
    UseCaseConfig(
      "automotive-textiles", "Automotive Textiles", Technical,
      "High durability and feasibility, medium cost pressure.",
      ScoreWeights(0.34, 0.13, 0.12, 0.17, 0.24),
      map[Durability := 1.0, ThermalRegulation := 0.25, WeightLightness := 0.3], None,
      Some(EolConstraint(None, None, None, Some(7.5))),
      Some(MaterialPreference(Some(["CELLULOSIC", "BIOPOLYMER"]), None)),
      None)

  const CircularDesign: UseCaseConfig :=
    UseCaseConfig(
      "circular-design", "Circular Design", SustainabilityFocus,
      "Max circularity profile with strict monomaterial and no-elastane constraints.",
      ScoreWeights(0.2, 0.25, 0.37, 0.07, 0.11),
      map[Durability := 0.35, Breathability := 0.2], None,
      Some(EolConstraint(Some(true), Some(true), Some(6.0), Some(4.5))),
      Some(MaterialPreference(Some(["CELLULOSIC", "BAST", "NATURAL"]), Some(["SYNTHETIC"]))),
      Some(Bonuses(Some(8.0), Some(8.0))))

  const BiodegradableProducts: UseCaseConfig :=
    UseCaseConfig(
      "biodegradable-products", "Biodegradable Products", SustainabilityFocus,
      "High circularity profile discouraging synthetics with capped microplastic risk.",
      ScoreWeights(0.24, 0.28, 0.28, 0.08, 0.12),
      map[Softness := 0.25, Breathability := 0.2, Durability := 0.3], None,
      Some(EolConstraint(None, None, Some(6.0), Some(4.8))),
      Some(MaterialPreference(Some(["NATURAL", "CELLULOSIC", "BAST"]), Some(["SYNTHETIC", "BIOPOLYMER"]))),
      Some(Bonuses(None, Some(7.0))))

  /** The table as written, in order. */
  const Raw: seq<UseCaseConfig> := [
    Sportswear, CyclingApparel, OutdoorTechnical, RunningApparel,
    BaseLayers, LuxuryFashion, FastFashion, TailoringFormal,
    Knitwear, Denim, Upholstery, BeddingLinens,
    CurtainsDrapery, Workwear, MedicalTextiles, AutomotiveTextiles,
    CircularDesign, BiodegradableProducts]

  /** `USE_CASES`: the table with every profile normalised, in order. */
  function NormalizeAll(cs: seq<UseCaseConfig>): (r: seq<UseCaseConfig>)
    ensures |r| == |cs|
    ensures forall i :: 0 <= i < |cs| ==> r[i] == NormalizeScoreWeights(cs[i])
  {
    if |cs| == 0 then [] else [NormalizeScoreWeights(cs[0])] + NormalizeAll(cs[1..])
  }

  const UseCases: seq<UseCaseConfig> := NormalizeAll(Raw)

  /** `DEFAULT_USE_CASE_ID`. */
  const DefaultUseCaseId: string := "sportswear"

  /** `USE_CASES_BY_ID.get(id)` over a list: the last entry with that id, as
      `new Map(entries)` keeps the last write. */
  function LookupIn(cs: seq<UseCaseConfig>, id: string): (r: Option<UseCaseConfig>)
    ensures r.Some? <==> exists i :: 0 <= i < |cs| && cs[i].id == id
    ensures r.Some? ==> r.value in cs && r.value.id == id
    ensures r.Some? ==>
      exists i :: 0 <= i < |cs| && cs[i] == r.value && (forall j :: i < j < |cs| ==> cs[j].id != id)
  {
    if |cs| == 0 then None
    else if cs[|cs| - 1].id == id then Some(cs[|cs| - 1])
    else
      var r := LookupIn(cs[..|cs| - 1], id);
      assert forall i :: 0 <= i < |cs| - 1 ==> cs[..|cs| - 1][i] == cs[i];
      r
  }

  /** The ids of the table, in order. */
  const Ids: seq<string> := [
    "sportswear", "cycling-apparel", "outdoor-technical", "running-apparel",
    "base-layers", "luxury-fashion", "fast-fashion", "tailoring-formal",
    "knitwear", "denim", "upholstery", "bedding-linens",
    "curtains-drapery", "workwear", "medical-textiles", "automotive-textiles",
    "circular-design", "biodegradable-products"]

  lemma RawIds()
    ensures |Raw| == |Ids| == 18
    ensures forall i | 0 <= i < |Raw| :: Raw[i].id == Ids[i]
  {}

  /** Eighteen ids, no two alike: (length, first two letters) already
      tells them apart. */
  lemma IdsDistinct()
    ensures forall i, j :: 0 <= i < j < |Ids| ==> Ids[i] != Ids[j]
  {
    forall i, j | 0 <= i < j < |Ids| ensures Ids[i] != Ids[j] {
      var a, b := Ids[i], Ids[j];
      assert |a| != |b| || a[0] != b[0] || a[1] != b[1];
    }
  }

  /** The keys of `USE_CASES_BY_ID`. */
  predicate IsRegistered(id: string)
  {
    id in Ids
  }

  /** The table holds 18 profiles whose ids are exactly `Ids`, in order and
      pairwise distinct, so the id map keeps every one of them. */
  lemma UseCaseIds()
    ensures |UseCases| == 18
    ensures forall i | 0 <= i < |UseCases| :: UseCases[i].id == Ids[i]
    ensures forall i, j :: 0 <= i < j < |UseCases| ==> UseCases[i].id != UseCases[j].id
    ensures forall id :: IsRegistered(id) <==> exists i :: 0 <= i < |UseCases| && UseCases[i].id == id
  {
    RawIds();
    IdsDistinct();
    assert forall i | 0 <= i < |UseCases| :: UseCases[i].id == Ids[i];
  }

  /** `USE_CASES_BY_ID.get(id)`. */
  function Lookup(id: string): (r: Option<UseCaseConfig>)
    ensures r.Some? <==> IsRegistered(id)
    ensures r.Some? ==> r.value in UseCases && r.value.id == id
  {
    UseCaseIds();
    LookupIn(UseCases, id)
  }

  /** A profile of the table is determined by its id. */
  lemma SameIdSameProfile(a: UseCaseConfig, b: UseCaseConfig)
    requires a in UseCases && b in UseCases && a.id == b.id
    ensures a == b
  {
    UseCaseIds();
    IdDetermines(UseCases, a, b);
  }

  /** In a list with pairwise distinct ids, an id picks out one entry. */
  lemma IdDetermines(cs: seq<UseCaseConfig>, a: UseCaseConfig, b: UseCaseConfig)
    requires forall i, j :: 0 <= i < j < |cs| ==> cs[i].id != cs[j].id
    requires a in cs && b in cs && a.id == b.id
    ensures a == b
  {
    var i :| 0 <= i < |cs| && cs[i] == a;
    var j :| 0 <= j < |cs| && cs[j] == b;
    assert !(i < j) && !(j < i);
  }

  /** The empty string is not an id of the table. */
  lemma EmptyIdUnregistered()
    ensures !IsRegistered("")
  {
    forall i | 0 <= i < |Ids| ensures Ids[i] != "" {
      assert |Ids[i]| > 0;
    }
  }

  /** The default id names a profile of the table. */
  lemma DefaultIsRegistered()
    ensures IsRegistered(DefaultUseCaseId)
    ensures Lookup(DefaultUseCaseId).Some?
  {}

  /** The profile the engine falls back to: `USE_CASES_BY_ID.get(DEFAULT)`,
      which is the first entry since ids are distinct. */
  function DefaultUseCase(): (r: UseCaseConfig)
    ensures r in UseCases && r.id == DefaultUseCaseId
  {
    UseCaseIds();
    UseCases[0]
  }

  /** Every bias of a profile lies in 0..1. */
  predicate BiasInUnitRange(c: UseCaseConfig)
  {
    forall m | m in c.propertyBias :: 0.0 <= c.propertyBias[m] <= 1.0
  }

  lemma SportswearBias() ensures BiasInUnitRange(Sportswear) {}
  lemma CyclingApparelBias() ensures BiasInUnitRange(CyclingApparel) {}
  lemma OutdoorTechnicalBias() ensures BiasInUnitRange(OutdoorTechnical) {}
  lemma RunningApparelBias() ensures BiasInUnitRange(RunningApparel) {}
  lemma BaseLayersBias() ensures BiasInUnitRange(BaseLayers) {}
  lemma LuxuryFashionBias() ensures BiasInUnitRange(LuxuryFashion) {}
  lemma FastFashionBias() ensures BiasInUnitRange(FastFashion) {}
  lemma TailoringFormalBias() ensures BiasInUnitRange(TailoringFormal) {}
  lemma KnitwearBias() ensures BiasInUnitRange(Knitwear) {}
  lemma DenimBias() ensures BiasInUnitRange(Denim) {}
  lemma UpholsteryBias() ensures BiasInUnitRange(Upholstery) {}
  lemma BeddingLinensBias() ensures BiasInUnitRange(BeddingLinens) {}
  lemma CurtainsDraperyBias() ensures BiasInUnitRange(CurtainsDrapery) {}
  lemma WorkwearBias() ensures BiasInUnitRange(Workwear) {}
  lemma MedicalTextilesBias() ensures BiasInUnitRange(MedicalTextiles) {}
  lemma AutomotiveTextilesBias() ensures BiasInUnitRange(AutomotiveTextiles) {}
  lemma CircularDesignBias() ensures BiasInUnitRange(CircularDesign) {}
  lemma BiodegradableProductsBias() ensures BiasInUnitRange(BiodegradableProducts) {}

  lemma RawBiases()
    ensures forall i | 0 <= i < |Raw| :: BiasInUnitRange(Raw[i])
  {
    SportswearBias();
    CyclingApparelBias();
    OutdoorTechnicalBias();
    RunningApparelBias();
    BaseLayersBias();
    LuxuryFashionBias();
    FastFashionBias();
    TailoringFormalBias();
    KnitwearBias();
    DenimBias();
    UpholsteryBias();
    BeddingLinensBias();
    CurtainsDraperyBias();
    WorkwearBias();
    MedicalTextilesBias();
    AutomotiveTextilesBias();
    CircularDesignBias();
    BiodegradableProductsBias();
  }

  /** Every bias of the table lies in 0..1, inside the 0..1.5 clamp the
      engine applies to it. */
  lemma BiasesInUnitRange()
    ensures forall i, m | 0 <= i < |UseCases| && m in UseCases[i].propertyBias ::
      0.0 <= UseCases[i].propertyBias[m] <= 1.0
  {
    RawBiases();
    forall i | 0 <= i < |UseCases| ensures BiasInUnitRange(UseCases[i]) {
      assert BiasInUnitRange(Raw[i]);
      assert UseCases[i].propertyBias == Raw[i].propertyBias;
    }
  }

  /** Every raw weight total is positive, so every profile of the table has
      its weights rescaled to sum to 1 up to rounding. */
  lemma WeightsNormalised()
    ensures forall i | 0 <= i < |UseCases| :: -0.00025 <= UseCases[i].scoreWeights.Total() - 1.0 <= 0.00025
  {
    RawTotalsPositive();
    forall i | 0 <= i < |UseCases|
      ensures -0.00025 <= UseCases[i].scoreWeights.Total() - 1.0 <= 0.00025
    {
      NormalizedNearOne(Raw[i], UseCases[i]);
    }
  }

  /** The raw weights of a profile have a positive total, so they can be normalised. */
  predicate TotalPositive(c: UseCaseConfig)
  {
    c.scoreWeights.Total() > 0.0
  }

  /** Every registered profile's raw weights have a positive total. */
  lemma RawTotalsPositive()
    ensures forall i | 0 <= i < |Raw| :: TotalPositive(Raw[i])
  {
  }

  /** Normalising weights with a positive total gives weights adding up to 1 within rounding. */
  lemma NormalizedNearOne(raw: UseCaseConfig, c: UseCaseConfig)
    requires TotalPositive(raw) && c == NormalizeScoreWeights(raw)
    ensures -0.00025 <= c.scoreWeights.Total() - 1.0 <= 0.00025
  {
  }

  /** `USE_CASE_CATEGORY_LABELS`. */
  function CategoryLabel(c: UseCaseCategory): string
  {
    match c
    case ApparelPerformance => "Apparel Performance"
    case ApparelFashion => "Apparel Fashion"
    case Interior => "Interior"
    case Technical => "Technical"
    case SustainabilityFocus => "Sustainability"
  }

  /** Each of the five categories has its own non-empty label. */
  lemma CategoryLabelsDistinct(a: UseCaseCategory, b: UseCaseCategory)
    ensures |CategoryLabel(a)| > 0
    ensures CategoryLabel(a) == CategoryLabel(b) <==> a == b
  {
  }
}
