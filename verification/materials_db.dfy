/** Turning database rows into catalog materials (src/lib/materials-db.ts):
    the legacy table already holds 0..100 properties, while the Sustaid
    table holds free-text levels and ranges that are scored here. Values the
    source passes through `Number(...)` arrive already converted, as `Num`. */
module MaterialsDb {
  import opened Js
  import opened Text
  import opened Types
  import opened Numerals

  /** `clamp100(value, fallback)`: non-finite numbers become the fallback,
      finite ones are clamped to 0..100. */
  function Clamp100(value: Num, fallback: real): (r: real)
    ensures value.NonFinite? ==> r == fallback
    ensures value.Finite? ==> 0.0 <= r <= 100.0
    ensures value.Finite? && 0.0 <= value.value <= 100.0 ==> r == value.value
    ensures value.Finite? && value.value < 0.0 ==> r == 0.0
    ensures value.Finite? && value.value > 100.0 ==> r == 100.0
  {
    match value
    case NonFinite => fallback
    case Finite(x) => Clamp(x, 0.0, 100.0)
  }

  /** Clamping to 0..100 keeps the order of finite inputs. */
  lemma Clamp100Monotone(x: real, y: real, fallback: real)
    requires x <= y
    ensures Clamp100(Finite(x), fallback) <= Clamp100(Finite(y), fallback)
  {
    ClampMonotone(x, y, 0.0, 100.0);
  }

  /** Applying the clamp twice changes nothing. */
  lemma Clamp100Idempotent(value: Num, fallback: real)
    requires 0.0 <= fallback <= 100.0
    ensures Clamp100(Finite(Clamp100(value, fallback)), fallback) == Clamp100(value, fallback)
  {}

  /** `parseMidRange`: no text (null, undefined or "") and text without a
      number give None; one number is returned as is; otherwise the mean of
      the first two numbers found. */
  function ParseMidRange(raw: Option<string>): (r: Option<real>)
    ensures r.None? <==> raw.None? || NoDigits(raw.value)
    ensures r.Some? ==> r.value >= 0.0
  {
    if raw.None? || raw.value == "" then None
    else
      var nums := Matches(raw.value);
      MatchesEmptyIffNoDigit(raw.value);
      if |nums| == 0 then None
      else if |nums| == 1 then Some(nums[0])
      else Some((nums[0] + nums[1]) / 2.0)
  }

  /** A single whole number is read back as itself. */
  lemma MidRangeOfNumber(n: nat)
    ensures ParseMidRange(Some(DecimalString(n))) == Some(n as real)
  {
    MatchesOfWholeNumber(n);
  }

  /** A range such as "10-20" or "10 to 20" is read as its midpoint. */
  lemma MidRangeOfRange(a: nat, sep: string, b: nat)
    requires |sep| >= 1 && NoDigits(sep) && sep[0] != '.'
    ensures ParseMidRange(Some(DecimalString(a) + sep + DecimalString(b))) == Some((a + b) as real / 2.0)
  {
    MatchesOfRange(a, sep, b);
  }

  /** A number with a fraction such as "2.5" is read back as itself. */
  lemma MidRangeOfDecimal(a: string, f: string)
    requires |a| >= 1 && |f| >= 1 && AllDigits(a) && AllDigits(f)
    ensures ParseMidRange(Some(a + "." + f)) == Some(DecimalValue(a, f))
  {
    MatchesOfDecimal(a, f);
  }

  /** A range of numbers with fractions such as "1.5-2.5" is read as its
      midpoint. */
  lemma MidRangeOfDecimalRange(a: string, f: string, sep: string, b: string, g: string)
    requires |a| >= 1 && |f| >= 1 && AllDigits(a) && AllDigits(f)
    requires |b| >= 1 && |g| >= 1 && AllDigits(b) && AllDigits(g)
    requires |sep| >= 1 && NoDigits(sep)
    ensures ParseMidRange(Some(a + "." + f + sep + b + "." + g)) == Some((DecimalValue(a, f) + DecimalValue(b, g)) / 2.0)
  {
    MatchesOfDecimalRange(a, f, sep, b, g);
  }

  /** "1.5-2.5" reads as 2. */
  lemma MidRangeExample()
    ensures ParseMidRange(Some("1.5-2.5")) == Some(2.0)
  {
    assert "1.5-2.5" == "1" + "." + "5" + "-" + "2" + "." + "5";
    MidRangeOfDecimalRange("1", "5", "-", "2", "5");
    DecimalExamples();
  }

  /** The two decimals of the example, digit by digit. */
  lemma DecimalExamples()
    ensures DecimalValue("1", "5") == 1.5 && DecimalValue("2", "5") == 2.5
  {
    assert DigitsValue("1") == 1 && DigitsValue("5") == 5 && DigitsValue("2") == 2;
    assert Pow10(1) == 10;
  }

  /** The score a lower-cased level text names, or None when it names no
      level; the checks run in the source's order. */
  function LevelScore(v: string): (r: Option<real>)
    ensures r.Some? ==> r.value in {92.0, 85.0, 75.0, 55.0, 40.0, 25.0}
  {
    if Contains(v, "very high") then Some(92.0)
    else if Contains(v, "high") then (if Contains(v, "medium") then Some(75.0) else Some(85.0))
    else if Contains(v, "medium") then
      (if Contains(v, "low") then Some(40.0) else if Contains(v, "high") then Some(65.0) else Some(55.0))
    else if Contains(v, "low") then Some(25.0)
    else None
  }

  /** Text that mentions "very high" also mentions "high". */
  lemma VeryHighMentionsHigh(v: string)
    requires Contains(v, "very high")
    ensures Contains(v, "high")
  {
    ContainsIsIncludes(v, "very high");
    ContainsIsIncludes(v, "high");
    var i :| 0 <= i <= |v| - |"very high"| && OccursAt(v, "very high", i);
    assert v[i + 5..i + 9] == v[i..i + 9][5..9];
    assert OccursAt(v, "high", i + 5);
  }

  /** A level text scores nothing exactly when it mentions none of "high",
      "medium" and "low". */
  lemma LevelScoreNoneIff(v: string)
    ensures LevelScore(v).None? <==> !Contains(v, "high") && !Contains(v, "medium") && !Contains(v, "low")
  {
    if Contains(v, "very high") {
      VeryHighMentionsHigh(v);
    }
  }

  /** `levelToScore(raw, fallback)`: the score of the lower-cased text, or
      the fallback for missing or empty text and for text naming no level.
      The 65 of the source's chain is unreachable: text mentioning "high"
      has already been scored by then. */
  function LevelToScore(raw: Option<string>, fallback: real): (r: real)
    ensures raw.None? || raw == Some("") ==> r == fallback
    ensures r == fallback || r in {92.0, 85.0, 75.0, 55.0, 40.0, 25.0}
    ensures r == 65.0 ==> fallback == 65.0
    ensures 0.0 <= fallback <= 100.0 ==> 0.0 <= r <= 100.0
  {
    if raw.None? || raw.value == "" then fallback
    else LevelScore(Lower(raw.value)).GetOr(fallback)
  }

  /** `x * 100` on a JavaScript number. */
  function Times100(x: Num): (r: Num)
    ensures r.Finite? <==> x.Finite?
  {
    match x
    case Finite(v) => Finite(v * 100.0)
    case NonFinite => NonFinite
  }

  /** `inverseToScore(value, min, max)`: the value is clamped into the
      range and its distance below max is scaled to 0..100. */
  function InverseToScore(value: real, min: real, max: real): real
  {
    var n := Max(min, Min(max, value));
    Clamp100(Times100(Divide(max - n, max - min)), 50.0)
  }

  lemma SelfQuotient(d: real)
    requires d != 0.0
    ensures d / d == 1.0
  {}

  /** A share of a positive whole lies in 0..1. */
  lemma UnitQuotient(a: real, b: real)
    requires 0.0 <= a <= b && b > 0.0
    ensures 0.0 <= a / b <= 1.0
    ensures a == b ==> a / b == 1.0
    ensures a == 0.0 ==> a / b == 0.0
  {
    DivMonotone(0.0, a, b);
    DivMonotone(a, b, b);
  }

  /** 100 at or below min, 0 at or above max, within 0..100 in between. An
      empty range (min == max) divides 0 by 0 and so falls back to 50; a
      reversed range always scores 100. */
  lemma InverseToScoreRange(value: real, min: real, max: real)
    ensures min == max ==> InverseToScore(value, min, max) == 50.0
    ensures min > max ==> InverseToScore(value, min, max) == 100.0
    ensures min < max ==> 0.0 <= InverseToScore(value, min, max) <= 100.0
    ensures min < max && value <= min ==> InverseToScore(value, min, max) == 100.0
    ensures min < max && value >= max ==> InverseToScore(value, min, max) == 0.0
  {
    var n := Max(min, Min(max, value));
    if min < max {
      UnitQuotient(max - n, max - min);
    } else if min > max {
      assert n == min;
      SelfQuotient(max - min);
    }
  }

  /** A score on the line from 100 at min down to 0 at max. */
  predicate OnScoreLine(score: real, value: real, min: real, max: real)
  {
    score * (max - min) == (max - value) * 100.0
  }

  /** Within the range the score is the linear interpolation from 100 down
      to 0. */
  lemma InverseToScoreLinear(value: real, min: real, max: real)
    requires min <= value <= max && min < max
    ensures OnScoreLine(InverseToScore(value, min, max), value, min, max)
  {
    assert InverseToScore(value, min, max) == ((max - value) / (max - min)) * 100.0 by {
      UnitQuotient(max - value, max - min);
    }
    ScoreLineOf(InverseToScore(value, min, max), value, min, max);
  }

  lemma ScoreLineOf(s: real, value: real, min: real, max: real)
    requires min < max && s == ((max - value) / (max - min)) * 100.0
    ensures OnScoreLine(s, value, min, max)
  {}

  /** A higher raw value never scores better. */
  lemma InverseToScoreAntitone(v1: real, v2: real, min: real, max: real)
    requires v1 <= v2 && min < max
    ensures InverseToScore(v2, min, max) <= InverseToScore(v1, min, max)
  {
    var n1, n2 := Max(min, Min(max, v1)), Max(min, Min(max, v2));
    DivMonotone(max - n2, max - n1, max - min);
    MulMonotone((max - n2) / (max - min), (max - n1) / (max - min), 100.0);
    Clamp100Monotone(((max - n2) / (max - min)) * 100.0, ((max - n1) / (max - min)) * 100.0, 50.0);
  }

  /** The six valid category names, spelled as the catalog spells them. */
  function CategoryName(c: Category): string
  {
    match c
    case MMCF => "MMCF"
    case Bast => "Bast"
    case Natural => "Natural"
    case Synthetic => "Synthetic"
    case BioPolymer => "BioPolymer"
    case Protein => "Protein"
  }

  /** `validCategory.has(raw)`: the category named exactly by raw. */
  function ExactCategory(raw: string): (r: Option<Category>)
    ensures r.Some? ==> CategoryName(r.value) == raw
    ensures r.None? ==> forall c :: CategoryName(c) != raw
  {
    if raw == "MMCF" then Some(MMCF)
    else if raw == "Bast" then Some(Bast)
    else if raw == "Natural" then Some(Natural)
    else if raw == "Synthetic" then Some(Synthetic)
    else if raw == "BioPolymer" then Some(BioPolymer)
    else if raw == "Protein" then Some(Protein)
    else None
  }

  /** The keyword chain on the lower-cased name; Natural when no keyword
      matches. */
  function KeywordCategory(lc: string): Category
  {
    if Contains(lc, "cellulosic") || Contains(lc, "mmcf") then MMCF
    else if Contains(lc, "bast") then Bast
    else if Contains(lc, "synthetic") || Contains(lc, "polyester") || Contains(lc, "nylon") then Synthetic
    else if Contains(lc, "protein") || Contains(lc, "wool") || Contains(lc, "silk") then Protein
    else if Contains(lc, "bio") || Contains(lc, "polymer") then BioPolymer
    else Natural
  }

  /** `mapCategory`: an exact category name is kept, anything else is
      classified by keywords. */
  function MapCategory(raw: string): (r: Category)
    ensures ExactCategory(raw).Some? ==> r == ExactCategory(raw).value
    ensures ExactCategory(raw).None? ==> r == KeywordCategory(Lower(raw))
  {
    match ExactCategory(raw)
    case Some(c) => c
    case None => KeywordCategory(Lower(raw))
  }

  /** Every valid name maps back to its own category. */
  lemma MapCategoryRoundTrip(c: Category)
    ensures MapCategory(CategoryName(c)) == c
  {
  }

  /** Every valid name starts with a capital letter, so no lower-cased
      text is a valid name. */
  lemma LowerIsNeverExact(raw: string)
    ensures ExactCategory(Lower(raw)).None?
  {
    forall c ensures CategoryName(c) != Lower(raw) {
      var name := CategoryName(c);
      assert IsUpperAscii(name[0]);
      if |raw| > 0 {
        assert !IsUpperAscii(Lower(raw)[0]);
      }
    }
  }

  /** Apart from the exact names, the mapping ignores letter case. */
  lemma MapCategoryIgnoresCase(raw: string)
    requires ExactCategory(raw).None?
    ensures MapCategory(Lower(raw)) == MapCategory(raw)
  {
    LowerIsNeverExact(raw);
    LowerIdempotent(raw);
  }

  /** A row of the legacy materials table. JSON columns that are null or
      lack a key show up as absent entries. The two class columns are free
      text in the table and are only cast to a level, never checked; the
      model takes them to hold one of low, medium or high. */
  datatype LegacyRow = LegacyRow(
    id: string,
    name: string,
    category: string,
    properties: map<Metric, Num>,
    co2: Option<real>,
    water: Option<real>,
    energy: Option<real>,
    biodegradabilityClass: Option<Level>,
    microplasticRisk: Option<Level>,
    animalFiber: Option<bool>,
    minCost: Option<real>,
    maxCost: Option<real>,
    trl: Option<real>)

  /** The legacy `properties` loop: each metric clamped to 0..100, with
      50 for a missing or non-numeric entry. */
  function LegacyProperties(json: map<Metric, Num>): (r: MetricRecord)
    ensures forall m | m in MetricSet :: 0.0 <= r[m] <= 100.0
    ensures forall m | m in MetricSet && m !in json :: r[m] == 50.0
    ensures forall m | m in MetricSet && m in json && json[m].Finite? && 0.0 <= json[m].value <= 100.0
              :: r[m] == json[m].value
    ensures forall m | m in MetricSet && m in json && json[m].NonFinite? :: r[m] == 50.0
    ensures forall m | m in MetricSet && m in json && json[m].Finite? && json[m].value < 0.0 :: r[m] == 0.0
    ensures forall m | m in MetricSet && m in json && json[m].Finite? && json[m].value > 100.0 :: r[m] == 100.0
  {
    map m | m in MetricSet :: Clamp100(if m in json then json[m] else NonFinite, 50.0)
  }

  /** `toLegacyMaterial`: the row's own values where present, and the
      defaults 5 kg CO2, 2000 l water, 40 MJ energy, medium classes, no
      animal fiber, cost 3 to 8 and TRL 6 where not. */
  function ToLegacyMaterial(row: LegacyRow): (r: Material)
    ensures r.id == row.id && r.name == row.name
    ensures r.category == MapCategory(row.category)
    ensures forall m | m in MetricSet :: 0.0 <= r.properties[m] <= 100.0
    ensures r.properties == LegacyProperties(row.properties)
    ensures forall m | m in MetricSet && m !in row.properties :: r.properties[m] == 50.0
    ensures forall m | m in MetricSet && m in row.properties && row.properties[m].Finite?
              && 0.0 <= row.properties[m].value <= 100.0 :: r.properties[m] == row.properties[m].value
    ensures r.constraints.biodegradability == row.biodegradabilityClass.GetOr(Medium)
    ensures r.constraints.microplastic == row.microplasticRisk.GetOr(Medium)
    ensures r.lca == Lca(row.co2.GetOr(5.0), row.water.GetOr(2000.0), row.energy.GetOr(40.0))
    ensures r.constraints.animalFiber <==> row.animalFiber == Some(true)
    ensures r.costMin == row.minCost.GetOr(3.0) && r.costMax == row.maxCost.GetOr(8.0)
    ensures r.trl == row.trl.GetOr(6.0)
  {
    Material(
      row.id,
      row.name,
      MapCategory(row.category),
      LegacyProperties(row.properties),
      Lca(row.co2.GetOr(5.0), row.water.GetOr(2000.0), row.energy.GetOr(40.0)),
      MaterialConstraints(
        row.biodegradabilityClass.GetOr(Medium),
        row.microplasticRisk.GetOr(Medium),
        row.animalFiber.GetOr(false)),
      row.minCost.GetOr(3.0),
      row.maxCost.GetOr(8.0),
      row.trl.GetOr(6.0))
  }

  /** A row with nothing filled in becomes the all-defaults material. */
  lemma EmptyLegacyRow(id: string, name: string, category: string)
    ensures var r := ToLegacyMaterial(LegacyRow(id, name, category, map[], None, None, None, None, None, None, None, None, None));
      && r.properties == Uniform(50.0)
      && r.lca == Lca(5.0, 2000.0, 40.0)
      && r.constraints == MaterialConstraints(Medium, Medium, false)
      && r.costMin == 3.0 && r.costMax == 8.0 && r.trl == 6.0
  {}

  /** A row of the Sustaid materials table: free-text levels and ranges.
      `sustainabilityScore` is the `Number(...)` of the score column, None
      when the column is null. */
  datatype SustaidRow = SustaidRow(
    materialId: string,
    materialName: string,
    category: string,
    sustainabilityScore: Option<Num>,
    ghgEmissions: Option<string>,
    waterConsumption: Option<string>,
    energyUse: Option<string>,
    biodegradability: Option<string>,
    durability: Option<string>,
    tensileStrength: Option<string>,
    moistureAbsorption: Option<string>,
    temperatureResistance: Option<string>,
    elasticity: Option<string>,
    dyeability: Option<string>,
    comfortLevel: Option<string>,
    costRange: Option<string>,
    primaryApplications: Option<string>,
    sustainabilityRating: Option<string>)

  /** JavaScript truthiness of a parsed mid-range: null and 0 are false. */
  predicate Truthy(x: Option<real>)
  {
    x.Some? && x.value != 0.0
  }

  /** `clamp100(Number(score ?? 2.5) * 20, 50)`: the 0..5 score on 0..100. */
  function SustainabilityScore(score: Option<Num>): (r: real)
    ensures 0.0 <= r <= 100.0
    ensures score.None? ==> r == 50.0
  {
    match score
    case None => Clamp100(Finite(2.5 * 20.0), 50.0)
    case Some(NonFinite) => 50.0
    case Some(Finite(x)) => Clamp100(Finite(x * 20.0), 50.0)
  }

  /** A measured impact scored against its range when the text gave a
      non-zero number, and the overall sustainability score otherwise. */
  function ImpactScore(mid: Option<real>, min: real, max: real, otherwise: real): (r: real)
    ensures !Truthy(mid) ==> r == otherwise
  {
    if Truthy(mid) then InverseToScore(mid.value, min, max) else otherwise
  }

  lemma ImpactScoreRange(mid: Option<real>, min: real, max: real, otherwise: real)
    requires min < max && 0.0 <= otherwise <= 100.0
    ensures 0.0 <= ImpactScore(mid, min, max, otherwise) <= 100.0
  {
    if Truthy(mid) {
      InverseToScoreRange(mid.value, min, max);
    }
  }

  /** The scores `toSustaidMaterial` derives before building the record. */
  datatype SustaidScores = SustaidScores(
    sustainability: real,
    biodegradability: real,
    durability: real,
    elasticity: real,
    comfort: real,
    co2Mid: Option<real>,
    waterMid: Option<real>,
    energyMid: Option<real>,
    costMid: Option<real>,
    tensileMid: Option<real>,
    tempMid: Option<real>,
    category: Category,
    scalability: real)

  /** The level and sustainability scores are on 0..100, and the parsed
      cost midpoint is not negative. */
  predicate ScoresInRange(s: SustaidScores)
  {
    && 0.0 <= s.sustainability <= 100.0
    && 0.0 <= s.biodegradability <= 100.0
    && 0.0 <= s.durability <= 100.0
    && 0.0 <= s.elasticity <= 100.0
    && 0.0 <= s.comfort <= 100.0
    && 0.0 <= s.scalability <= 100.0
    && (s.costMid.Some? ==> s.costMid.value >= 0.0)
  }

  function Scores(row: SustaidRow): (s: SustaidScores)
    ensures s.category == MapCategory(row.category)
    ensures ScoresInRange(s)
  {
    SustaidScores(
      SustainabilityScore(row.sustainabilityScore),
      LevelToScore(row.biodegradability, 55.0),
      LevelToScore(row.durability, 55.0),
      LevelToScore(row.elasticity, 50.0),
      LevelToScore(row.comfortLevel, 60.0),
      ParseMidRange(row.ghgEmissions),
      ParseMidRange(row.waterConsumption),
      ParseMidRange(row.energyUse),
      ParseMidRange(row.costRange),
      ParseMidRange(row.tensileStrength),
      ParseMidRange(row.temperatureResistance),
      MapCategory(row.category),
      LevelToScore(row.sustainabilityRating, 55.0))
  }

  /** One property of a Sustaid material, as the `properties` literal
      computes it; always on 0..100. */
  function SustaidProperty(s: SustaidScores, m: Metric): (r: real)
    requires ScoresInRange(s)
    ensures 0.0 <= r <= 100.0
  {
    match m
    case Breathability => Clamp100(Finite(s.comfort + 5.0), 60.0)
    case Elasticity => s.elasticity
    case Durability =>
      Clamp100(Finite((s.durability + Clamp100(Finite(s.tensileMid.GetOr(120.0) / 3.0), 50.0)) / 2.0), 55.0)
    case Softness => s.comfort
    case ThermalRegulation => Clamp100(Finite(s.tempMid.GetOr(170.0) / 3.0), 56.0)
    case WeightLightness => 60.0
    case Co2 => ImpactScoreRange(s.co2Mid, 1.0, 25.0, s.sustainability); ImpactScore(s.co2Mid, 1.0, 25.0, s.sustainability)
    case Water => ImpactScoreRange(s.waterMid, 300.0, 6000.0, s.sustainability); ImpactScore(s.waterMid, 300.0, 6000.0, s.sustainability)
    case Energy => ImpactScoreRange(s.energyMid, 20.0, 250.0, s.sustainability); ImpactScore(s.energyMid, 20.0, 250.0, s.sustainability)
    case Biodegradability => s.biodegradability
    case MicroplasticRisk => if s.category == Synthetic then 20.0 else 85.0
    case Recyclability => s.sustainability
    case Cost => ImpactScoreRange(s.costMid, 1.0, 30.0, 50.0); ImpactScore(s.costMid, 1.0, 30.0, 50.0)
    case Scalability => s.scalability
  }

  /** The property record of a Sustaid row. */
  function SustaidProperties(s: SustaidScores): (r: MetricRecord)
    requires ScoresInRange(s)
    ensures forall m | m in MetricSet :: r[m] == SustaidProperty(s, m) && 0.0 <= r[m] <= 100.0
  {
    map m | m in MetricSet :: SustaidProperty(s, m)
  }

  /** `biodegradabilityScore >= 70 ? "high" : ... >= 45 ? "medium" : "low"`. */
  function BiodegradabilityClass(score: real): (l: Level)
    ensures l == High <==> score >= 70.0
    ensures l == Medium <==> 45.0 <= score < 70.0
    ensures l == Low <==> score < 45.0
  {
    if score >= 70.0 then High else if score >= 45.0 then Medium else Low
  }

  /** The classes of a Sustaid material: high microplastic risk exactly
      for synthetics (low otherwise), animal fiber exactly for proteins,
      and the biodegradability class by the 70/45 thresholds. */
  function SustaidConstraints(category: Category, biodegradability: real): (c: MaterialConstraints)
    ensures c.microplastic == High <==> category == Synthetic
    ensures c.microplastic == Low <==> category != Synthetic
    ensures c.animalFiber <==> category == Protein
    ensures c.biodegradability == BiodegradabilityClass(biodegradability)
  {
    MaterialConstraints(
      BiodegradabilityClass(biodegradability),
      if category == Synthetic then High else Low,
      category == Protein)
  }

  /** `Math.max(3, Math.min(9, Math.round(scalability / 100 * 9)))`: a
      whole readiness level from 3 to 9, rising with scalability. */
  function TrlFromScalability(scalability: real): (t: int)
    ensures 3 <= t <= 9
  {
    var k := MathRound(scalability / 100.0 * 9.0);
    if k > 9 then 9 else if k < 3 then 3 else k
  }

  lemma TrlMonotone(a: real, b: real)
    requires a <= b
    ensures TrlFromScalability(a) <= TrlFromScalability(b)
  {
    DivMonotone(a, b, 100.0);
    MulMonotone(a / 100.0, b / 100.0, 9.0);
    FloorMonotone(a / 100.0 * 9.0 + 0.5, b / 100.0 * 9.0 + 0.5);
  }

  /** The cost band 0.8 to 1.2 times the midpoint (6 when none was
      parsed), each rounded to cents; never inverted for a non-negative
      midpoint. */
  function CostBand(mid: Option<real>): (band: (real, real))
    ensures (mid.None? || mid.value >= 0.0) ==> band.0 <= band.1
  {
    var c := mid.GetOr(6.0);
    if c >= 0.0 then
      MulMonotone(0.8, 1.2, c);
      RoundToMonotone(c * 0.8, c * 1.2, 2);
      (RoundTo(c * 0.8, 2), RoundTo(c * 1.2, 2))
    else
      (RoundTo(c * 0.8, 2), RoundTo(c * 1.2, 2))
  }

  /** `toSustaidMaterial`: every property on 0..100, an ordered cost band,
      a whole TRL from 3 to 9 and classes derived from category and
      biodegradability score. */
  function ToSustaidMaterial(row: SustaidRow): (r: Material)
    ensures r.id == row.materialId && r.name == row.materialName
    ensures r.category == MapCategory(row.category)
    ensures forall m | m in MetricSet :: 0.0 <= r.properties[m] <= 100.0
    ensures r.costMin <= r.costMax
    ensures 3.0 <= r.trl <= 9.0 && r.trl == r.trl.Floor as real
    ensures r.constraints.microplastic == High <==> r.category == Synthetic
    ensures r.constraints.animalFiber <==> r.category == Protein
    ensures r.constraints.biodegradability == High <==> r.properties[Biodegradability] >= 70.0
    ensures r.constraints.biodegradability == Low <==> r.properties[Biodegradability] < 45.0
  {
    var s := Scores(row);
    var props := SustaidProperties(s);
    var band := CostBand(s.costMid);
    MetricInSet(Biodegradability);
    Material(
      row.materialId,
      row.materialName,
      s.category,
      props,
      Lca(RoundTo(s.co2Mid.GetOr(6.0), 2), RoundTo(s.waterMid.GetOr(2000.0), 0), RoundTo(s.energyMid.GetOr(90.0), 1)),
      SustaidConstraints(s.category, props[Biodegradability]),
      band.0,
      band.1,
      TrlFromScalability(props[Scalability]) as real)
  }

  /** A range that parses to 0 is falsy: the score falls back to the overall
      sustainability score while the LCA figure keeps the 0. */
  lemma ZeroEmissionsFallsBack(row: SustaidRow)
    requires ParseMidRange(row.ghgEmissions) == Some(0.0)
    ensures ToSustaidMaterial(row).properties[Co2] == SustainabilityScore(row.sustainabilityScore)
    ensures ToSustaidMaterial(row).lca.co2 == 0.0
  {
    var s := Scores(row);
    var r := ToSustaidMaterial(row);
    assert s.co2Mid == Some(0.0) && !Truthy(s.co2Mid);
    MetricInSet(Co2);
    assert r.properties == SustaidProperties(s);
    assert r.lca.co2 == RoundTo(0.0, 2) by {
      assert r.lca.co2 == RoundTo(s.co2Mid.GetOr(6.0), 2);
    }
    RoundToInteger(0, 2);
  }
}
