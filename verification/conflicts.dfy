/** Slider conflict warnings (src/lib/conflicts.ts): three fixed pairs of
    goals that pull against each other, each flagged when both sliders of
    the pair are pushed high. */
module Conflicts {
  import opened Js
  import opened Types

  /** The three known tensions, in the order the source checks them. */
  datatype Conflict = ElasticityBio | DurabilityLightness | CostCo2

  /** A warning object `{ id, title, detail, severity }`. All four fields
      are fixed by the conflict, so the warning is kept as its conflict and
      the fields are read through the members below. */
  datatype ConflictWarning = Warning(conflict: Conflict) {
    function id(): string { WarningId(conflict) }
    function title(): string { Title(conflict) }
    function detail(): string { Detail(conflict) }
    function severity(): Level { Severity(conflict) }
  }

  /** `v(sliders, key)`: a slider value, 50 when the slider is absent. */
  function SliderValue(sliders: PartialRecord, m: Metric): (r: real)
    ensures m in sliders ==> r == sliders[m]
    ensures m !in sliders ==> r == 50.0
  {
    ValueOr(sliders, m, 50.0)
  }

  /** The two sliders a conflict compares. */
  function Sides(c: Conflict): (Metric, Metric)
  {
    match c
    case ElasticityBio => (Elasticity, Biodegradability)
    case DurabilityLightness => (Durability, WeightLightness)
    case CostCo2 => (Cost, Co2)
  }

  /** The level both sliders must reach. */
  function Threshold(c: Conflict): real
  {
    match c
    case ElasticityBio => 75.0
    case DurabilityLightness => 80.0
    case CostCo2 => 80.0
  }

  /** Where a conflict sits in the fixed check order. */
  function Position(c: Conflict): nat
  {
    match c
    case ElasticityBio => 0
    case DurabilityLightness => 1
    case CostCo2 => 2
  }

  /** Both sliders of the pair are at or above the threshold. */
  predicate Triggered(sliders: PartialRecord, c: Conflict)
  {
    SliderValue(sliders, Sides(c).0) >= Threshold(c)
    && SliderValue(sliders, Sides(c).1) >= Threshold(c)
  }

  function WarningId(c: Conflict): string
  {
    match c
    case ElasticityBio => "elasticity-bio"
    case DurabilityLightness => "durability-lightness"
    case CostCo2 => "cost-co2"
  }

  function Title(c: Conflict): string
  {
    match c
    case ElasticityBio => "Elasticity vs biodegradability"
    case DurabilityLightness => "Durability vs lightness"
    case CostCo2 => "Low cost vs very low CO2"
  }

  function Detail(c: Conflict): string
  {
    match c
    case ElasticityBio => "High stretch often requires elastomer content that can reduce biodegradability."
    case DurabilityLightness => "Very light constructions can make it harder to maximize long-term durability."
    case CostCo2 => "Aggressive cost targets can conflict with the lowest-impact material pathways."
  }

  /** Only the elasticity/biodegradability conflict is rated high. */
  function Severity(c: Conflict): (r: Level)
    ensures r == High <==> c == ElasticityBio
    ensures r != Low
  {
    if c == ElasticityBio then High else Medium
  }

  /** Each conflict has its own id, so warnings can be told apart by id. */
  lemma WarningIdsDistinct(a: Conflict, b: Conflict)
    ensures Warning(a).id() == Warning(b).id() <==> a == b
  {
    if a != b {
      assert |WarningId(a)| != |WarningId(b)|;
    }
  }

  /** The conflicts `detectConflicts` reports, as the source checks them. */
  function Triggers(sliders: PartialRecord): (r: seq<Conflict>)
    ensures |r| <= 3
    ensures forall c :: c in r <==> Triggered(sliders, c)
    ensures forall i, j | 0 <= i < j < |r| :: Position(r[i]) < Position(r[j])
  {
    (if Triggered(sliders, ElasticityBio) then [ElasticityBio] else [])
    + (if Triggered(sliders, DurabilityLightness) then [DurabilityLightness] else [])
    + (if Triggered(sliders, CostCo2) then [CostCo2] else [])
  }

  /** `detectConflicts`: the warnings of the triggered conflicts, in the
      fixed order elasticity-bio, durability-lightness, cost-co2. */
  function DetectConflicts(sliders: PartialRecord): (r: seq<ConflictWarning>)
    ensures |r| == |Triggers(sliders)| <= 3
    ensures forall i | 0 <= i < |r| :: r[i] == Warning(Triggers(sliders)[i])
  {
    var ks := Triggers(sliders);
    seq(|ks|, i requires 0 <= i < |ks| => Warning(ks[i]))
  }

  /** A warning is reported exactly when both sliders of its pair reach
      the threshold, and nothing else is reported. */
  lemma DetectConflictsExactly(sliders: PartialRecord, c: Conflict)
    ensures Warning(c) in DetectConflicts(sliders) <==> Triggered(sliders, c)
  {
    var r, ks := DetectConflicts(sliders), Triggers(sliders);
    if Triggered(sliders, c) {
      var i :| 0 <= i < |ks| && ks[i] == c;
      assert r[i] == Warning(c);
    }
  }

  /** No two warnings of one call share an id, and they come in the fixed
      check order. */
  lemma DetectIdsDistinct(sliders: PartialRecord)
    ensures var r := DetectConflicts(sliders);
      forall i, j | 0 <= i < j < |r| :: r[i].id() != r[j].id()
  {
    var r, ks := DetectConflicts(sliders), Triggers(sliders);
    forall i, j | 0 <= i < j < |r| ensures r[i].id() != r[j].id() {
      WarningIdsDistinct(ks[i], ks[j]);
    }
  }

  /** The only high-severity warning is the elasticity/biodegradability one. */
  lemma HighSeverityIsElasticity(sliders: PartialRecord, w: ConflictWarning)
    requires w in DetectConflicts(sliders)
    ensures w.severity() == High <==> w == Warning(ElasticityBio)
  {
    var r, ks := DetectConflicts(sliders), Triggers(sliders);
    var i :| 0 <= i < |r| && r[i] == w;
    assert w == Warning(ks[i]);
  }

  /** Sliders left at their defaults (or balanced below 75) raise nothing. */
  lemma BalancedHasNoConflicts(sliders: PartialRecord)
    requires forall m | m in sliders :: sliders[m] < 75.0
    ensures DetectConflicts(sliders) == []
  {
    forall c ensures !Triggered(sliders, c) {
      assert SliderValue(sliders, Sides(c).0) < 75.0;
    }
  }

  lemma EmptyHasNoConflicts()
    ensures DetectConflicts(map[]) == []
  {
    BalancedHasNoConflicts(map[]);
  }

  /** Raising sliders never clears a warning. */
  lemma DetectMonotone(lo: PartialRecord, hi: PartialRecord, c: Conflict)
    requires forall m :: SliderValue(lo, m) <= SliderValue(hi, m)
    requires Warning(c) in DetectConflicts(lo)
    ensures Warning(c) in DetectConflicts(hi)
  {
    DetectConflictsExactly(lo, c);
    assert SliderValue(lo, Sides(c).0) <= SliderValue(hi, Sides(c).0);
    assert SliderValue(lo, Sides(c).1) <= SliderValue(hi, Sides(c).1);
    DetectConflictsExactly(hi, c);
  }
}
