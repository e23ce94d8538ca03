/** Target and weight normalisation (src/lib/normalize.ts). */
module Normalize {
  import opened Js
  import opened Types

  /** Sum of a record's values over a list of metrics. */
  function SumOver(v: map<Metric, real>, keys: seq<Metric>): real
    requires forall i :: 0 <= i < |keys| ==> keys[i] in v
  {
    if |keys| == 0 then 0.0 else SumOver(v, keys[..|keys| - 1]) + v[keys[|keys| - 1]]
  }

  /** Sum of a complete record over all 14 metrics. */
  function Total(v: MetricRecord): real
  {
    SumOver(v, AllMetrics)
  }

  lemma {:induction false} SumOverPositive(v: map<Metric, real>, keys: seq<Metric>)
    requires forall i :: 0 <= i < |keys| ==> keys[i] in v && v[keys[i]] > 0.0
    ensures |keys| > 0 ==> SumOver(v, keys) > 0.0
    ensures SumOver(v, keys) >= 0.0
  {
    if |keys| > 0 {
      SumOverPositive(v, keys[..|keys| - 1]);
    }
  }

  /** Dividing every entry by c divides the sum by c. */
  lemma {:induction false} SumOverScaled(u: map<Metric, real>, v: map<Metric, real>, keys: seq<Metric>, c: real)
    requires c != 0.0
    requires forall i :: 0 <= i < |keys| ==> keys[i] in u && keys[i] in v && u[keys[i]] == v[keys[i]] / c
    ensures SumOver(u, keys) == SumOver(v, keys) / c
  {
    if |keys| > 0 {
      SumOverScaled(u, v, keys[..|keys| - 1], c);
      var k := keys[|keys| - 1];
      assert SumOver(v, keys[..|keys| - 1]) / c + v[k] / c == (SumOver(v, keys[..|keys| - 1]) + v[k]) / c;
    }
  }

  /** `normalizeSliders`: every metric gets its slider, 50 when missing,
      clamped to 0..100. */
  function NormalizeSliders(sliders: PartialRecord): (r: MetricRecord)
    ensures forall m | m in MetricSet :: 0.0 <= r[m] <= 100.0
    ensures forall m | m in MetricSet && m !in sliders :: r[m] == 50.0
    ensures forall m | m in MetricSet && m in sliders && 0.0 <= sliders[m] <= 100.0 :: r[m] == sliders[m]
    ensures forall m | m in MetricSet && m in sliders && sliders[m] < 0.0 :: r[m] == 0.0
    ensures forall m | m in MetricSet && m in sliders && sliders[m] > 100.0 :: r[m] == 100.0
  {
    map m | m in MetricSet :: Clamp(ValueOr(sliders, m, 50.0), 0.0, 100.0)
  }

  /** Normalising an already normalised target changes nothing. */
  lemma NormalizeSlidersIdempotent(sliders: PartialRecord)
    ensures NormalizeSliders(NormalizeSliders(sliders)) == NormalizeSliders(sliders)
  {
    var once := NormalizeSliders(sliders);
    var twice := NormalizeSliders(once);
    assert forall m | m in MetricSet :: twice[m] == once[m];
  }

  /** The clamped raw weight of one metric, 1 when missing. */
  function RawWeight(weights: Option<PartialRecord>, m: Metric): (w: real)
    ensures 0.01 <= w <= 1000.0
  {
    var given := if weights.Some? && m in weights.value then weights.value[m] else 1.0;
    Clamp(given, 0.01, 1000.0)
  }

  function RawWeights(weights: Option<PartialRecord>): (r: MetricRecord)
    ensures forall m | m in MetricSet :: r[m] == RawWeight(weights, m)
  {
    map m | m in MetricSet :: RawWeight(weights, m)
  }

  /** Every entry divided by c. */
  function Scale(v: MetricRecord, c: real): (r: MetricRecord)
    requires c != 0.0
    ensures forall m | m in MetricSet :: r[m] == v[m] / c
    ensures Total(r) == Total(v) / c
  {
    var r: MetricRecord := map m | m in MetricSet :: v[m] / c;
    SumOverScaled(r, v, AllMetrics, c);
    r
  }

  lemma {:induction false} SumOverConstant(v: map<Metric, real>, keys: seq<Metric>, c: real)
    requires forall i :: 0 <= i < |keys| ==> keys[i] in v && v[keys[i]] == c
    ensures SumOver(v, keys) == |keys| as real * c
  {
    if |keys| > 0 {
      SumOverConstant(v, keys[..|keys| - 1], c);
    }
  }

  /** `normalizeWeights`: clamped raw weights divided by their sum. */
  function NormalizeWeights(weights: Option<PartialRecord>): (r: MetricRecord)
    ensures Total(RawWeights(weights)) > 0.0
    ensures forall m | m in MetricSet :: r[m] == RawWeight(weights, m) / Total(RawWeights(weights))
    ensures forall m | m in MetricSet :: r[m] > 0.0
    ensures Total(r) == 1.0
  {
    var raw := RawWeights(weights);
    SumOverPositive(raw, AllMetrics);
    var s := Total(raw);
    var r := Scale(raw, s);
    assert forall m | m in MetricSet :: r[m] > 0.0 by {
      forall m | m in MetricSet ensures r[m] > 0.0 {
        PositiveQuotient(raw[m], s);
      }
    }
    assert Total(r) == 1.0 by { SelfQuotient(s); }
    r
  }

  lemma PositiveQuotient(a: real, b: real)
    requires a > 0.0 && b > 0.0
    ensures a / b > 0.0
  {}

  lemma SelfQuotient(a: real)
    requires a != 0.0
    ensures a / a == 1.0
  {}

  /** Within one call, a larger raw weight gives a larger normalised one. */
  lemma NormalizeWeightsMonotone(weights: Option<PartialRecord>, a: Metric, b: Metric)
    requires a in MetricSet && b in MetricSet
    requires RawWeight(weights, a) < RawWeight(weights, b)
    ensures NormalizeWeights(weights)[a] < NormalizeWeights(weights)[b]
  {
    var r := NormalizeWeights(weights);
    var s := Total(RawWeights(weights));
    DivMonotone(RawWeight(weights, a), RawWeight(weights, b), s);
    DivInjective(RawWeight(weights, a), RawWeight(weights, b), s);
  }

  /** Normalising keeps the order of the raw weights, both ways, and ties
      stay ties. */
  lemma NormalizeWeightsOrder(weights: Option<PartialRecord>, a: Metric, b: Metric)
    requires a in MetricSet && b in MetricSet
    ensures NormalizeWeights(weights)[a] < NormalizeWeights(weights)[b] <==> RawWeight(weights, a) < RawWeight(weights, b)
    ensures NormalizeWeights(weights)[a] == NormalizeWeights(weights)[b] <==> RawWeight(weights, a) == RawWeight(weights, b)
  {
    if RawWeight(weights, a) < RawWeight(weights, b) {
      NormalizeWeightsMonotone(weights, a, b);
    } else if RawWeight(weights, b) < RawWeight(weights, a) {
      NormalizeWeightsMonotone(weights, b, a);
    }
  }

  lemma DivInjective(a: real, b: real, p: real)
    requires p > 0.0 && a != b
    ensures a / p != b / p
  {
    assert (a / p) * p == a && (b / p) * p == b;
  }

  /** An unweighted session gives every metric the same share, 1/14. */
  lemma NormalizeWeightsDefault()
    ensures forall m | m in MetricSet :: NormalizeWeights(None)[m] == 1.0 / 14.0
  {
    var raw := RawWeights(None);
    SumOverConstant(raw, AllMetrics, 1.0);
  }
}
