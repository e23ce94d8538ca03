/** The shape of a use-case profile (src/lib/types/useCase.ts). */
module UseCaseTypes {
  import opened Js
  import opened Types

  datatype UseCaseCategory =
    ApparelPerformance | ApparelFashion | Interior | Technical | SustainabilityFocus

  /** The category as the source spells it. */
  function CategoryKey(c: UseCaseCategory): string
  {
    match c
    case ApparelPerformance => "APPAREL_PERFORMANCE"
    case ApparelFashion => "APPAREL_FASHION"
    case Interior => "INTERIOR"
    case Technical => "TECHNICAL"
    case SustainabilityFocus => "SUSTAINABILITY"
  }

  /** End-of-life constraints; every field is optional and the microplastic
      ceiling is a number on 0..10, not a class. */
  datatype EolConstraint = EolConstraint(
    preferMonomaterial: Option<bool>,
    noElastane: Option<bool>,
    mustBeRecyclableMin: Option<real>,
    maxMicroplasticRisk: Option<real>)

  datatype MaterialPreference = MaterialPreference(
    preferredFamilies: Option<seq<string>>,
    discouragedFamilies: Option<seq<string>>)

  /** Slider-weight multipliers, keyed by performance metrics only. */
  type PropertyBias = b: map<Metric, real> | b.Keys <= PerformanceSet

  /** The five score dimensions of a use case. */
  datatype ScoreWeights = ScoreWeights(
    performance: real,
    sustainability: real,
    circularity: real,
    cost: real,
    feasibility: real)
  {
    function Total(): real
    {
      performance + sustainability + circularity + cost + feasibility
    }
  }

  datatype Bonuses = Bonuses(monomaterialBonus: Option<real>, lowMicroplasticBonus: Option<real>)

  datatype UseCaseConfig = UseCaseConfig(
    id: string,
    displayName: string,
    category: UseCaseCategory,
    description: string,
    scoreWeights: ScoreWeights,
    propertyBias: PropertyBias,
    targetHint: Option<PartialRecord>,
    constraints: Option<EolConstraint>,
    materialPreferences: Option<MaterialPreference>,
    bonuses: Option<Bonuses>)

  /** Whether an optional flag is set to true (`constraints?.flag`). */
  predicate IsSet(flag: Option<bool>)
  {
    flag == Some(true)
  }
}
