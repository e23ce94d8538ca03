/** Similarity between metric vectors (src/lib/engine/score.ts). */
module Score {
  import opened Js
  import opened Types

  /** What the model needs of `Math.sqrt`: on non-negative arguments it
      returns the non-negative root. */
  ghost predicate IsSqrt(sqrt: real -> real)
  {
    forall x: real :: x >= 0.0 ==> sqrt(x) >= 0.0 && sqrt(x) * sqrt(x) == x
  }

  /** Sum over the metrics in `dom`, visited in `keys` order, of the
      products of x and y, a missing entry reading as 0. The loop of
      `cosineSimilarity` visits the keys of its first argument. */
  function Inner(dom: set<Metric>, x: PartialRecord, y: PartialRecord, keys: seq<Metric>): real
  {
    if |keys| == 0 then 0.0
    else
      var k := keys[|keys| - 1];
      Inner(dom, x, y, keys[..|keys| - 1])
        + (if k in dom then ValueOr(x, k, 0.0) * ValueOr(y, k, 0.0) else 0.0)
  }

  /** A sum of squares is never negative. */
  lemma {:induction false} InnerSquareNonNegative(dom: set<Metric>, x: PartialRecord, keys: seq<Metric>)
    ensures Inner(dom, x, x, keys) >= 0.0
  {
    if |keys| > 0 {
      InnerSquareNonNegative(dom, x, keys[..|keys| - 1]);
      var v := ValueOr(x, keys[|keys| - 1], 0.0);
      assert v * v >= 0.0;
    }
  }

  /** Only the entries on `dom`, read with the default 0, matter. */
  predicate AgreeOn(dom: set<Metric>, x: PartialRecord, x': PartialRecord)
  {
    forall m | m in dom :: ValueOr(x, m, 0.0) == ValueOr(x', m, 0.0)
  }

  lemma {:induction false} InnerCongruent(dom: set<Metric>, x: PartialRecord, y: PartialRecord,
                                          x': PartialRecord, y': PartialRecord, keys: seq<Metric>)
    requires AgreeOn(dom, x, x') && AgreeOn(dom, y, y')
    ensures Inner(dom, x, y, keys) == Inner(dom, x', y', keys)
  {
    if |keys| > 0 {
      InnerCongruent(dom, x, y, x', y', keys[..|keys| - 1]);
    }
  }

  /** The cosine of two vectors given their dot product and squared norms:
      0 when either norm is 0. */
  function CosineOf(dot: real, n1: real, n2: real, sqrt: real -> real): (r: real)
    requires IsSqrt(sqrt) && n1 >= 0.0 && n2 >= 0.0
    ensures n1 == 0.0 || n2 == 0.0 ==> r == 0.0
    ensures n1 != 0.0 && n2 != 0.0 ==> r * (sqrt(n1) * sqrt(n2)) == dot
  {
    if n1 == 0.0 || n2 == 0.0 then 0.0
    else
      RootProductPositive(sqrt, n1, n2);
      Quotient(dot, sqrt(n1) * sqrt(n2))
  }

  /** `cosineSimilarity(a, b)` with `sqrt` standing for `Math.sqrt`: the dot
      product and both squared norms are taken over the keys of a only. */
  function CosineSimilarity(a: PartialRecord, b: PartialRecord, sqrt: real -> real): real
    requires IsSqrt(sqrt)
  {
    InnerSquareNonNegative(a.Keys, a, AllMetrics);
    InnerSquareNonNegative(a.Keys, b, AllMetrics);
    CosineOf(Inner(a.Keys, a, b, AllMetrics), Inner(a.Keys, a, a, AllMetrics), Inner(a.Keys, b, b, AllMetrics), sqrt)
  }

  /** `x / d` for a positive d. */
  function Quotient(x: real, d: real): (q: real)
    requires d > 0.0
    ensures q * d == x
  {
    x / d
  }

  lemma RootProductPositive(sqrt: real -> real, x: real, y: real)
    requires IsSqrt(sqrt) && x > 0.0 && y > 0.0
    ensures sqrt(x) * sqrt(y) > 0.0
  {
    RootPositive(sqrt, x);
    RootPositive(sqrt, y);
  }

  lemma RootPositive(sqrt: real -> real, x: real)
    requires IsSqrt(sqrt) && x > 0.0
    ensures sqrt(x) > 0.0
  {
    assert sqrt(x) * sqrt(x) == x;
  }

  /** An all-zero vector (on its own keys) is similar to nothing. */
  lemma CosineZero(a: PartialRecord, b: PartialRecord, sqrt: real -> real)
    requires IsSqrt(sqrt)
    requires Inner(a.Keys, a, a, AllMetrics) == 0.0 || Inner(a.Keys, b, b, AllMetrics) == 0.0
    ensures CosineSimilarity(a, b, sqrt) == 0.0
  {
    InnerSquareNonNegative(a.Keys, a, AllMetrics);
    InnerSquareNonNegative(a.Keys, b, AllMetrics);
  }

  /** A non-zero vector is fully similar to itself. */
  lemma CosineSelf(a: PartialRecord, sqrt: real -> real)
    requires IsSqrt(sqrt)
    requires Inner(a.Keys, a, a, AllMetrics) != 0.0
    ensures CosineSimilarity(a, a, sqrt) == 1.0
  {
    var n := Inner(a.Keys, a, a, AllMetrics);
    InnerSquareNonNegative(a.Keys, a, AllMetrics);
    var r := CosineOf(n, n, n, sqrt);
    var t := sqrt(n) * sqrt(n);
    assert r * t == n;
    assert t == n;
    UnitFactor(r, t, n);
  }

  lemma UnitFactor(r: real, t: real, n: real)
    requires n != 0.0 && t == n && r * t == n
    ensures r == 1.0
  {
    calc {
      r;
    == (r * n) / n;
    == n / n;
    }
  }

  /** Only the keys of the first argument are visited: entries of b outside
      them are ignored, and a key of a missing from b counts as 0. */
  lemma CosineReadsKeysOfFirst(a: PartialRecord, b: PartialRecord, b': PartialRecord, sqrt: real -> real)
    requires IsSqrt(sqrt)
    requires AgreeOn(a.Keys, b, b')
    ensures CosineSimilarity(a, b, sqrt) == CosineSimilarity(a, b', sqrt)
  {
    InnerCongruent(a.Keys, a, b, a, b', AllMetrics);
    InnerCongruent(a.Keys, b, b, b', b', AllMetrics);

  }

  lemma CosineMissingIsZero(a: PartialRecord, b: PartialRecord, m: Metric, sqrt: real -> real)
    requires IsSqrt(sqrt)
    requires m !in b
    ensures CosineSimilarity(a, b, sqrt) == CosineSimilarity(a, b[m := 0.0], sqrt)
  {
    CosineReadsKeysOfFirst(a, b, b[m := 0.0], sqrt);
  }

  /** The per-metric closeness `1 - min(|actual - target|, 100) / 100`. */
  function Closeness(actual: real, target: real): (c: real)
    ensures 0.0 <= c <= 1.0
    ensures c == 1.0 <==> actual == target
  {
    var diff := if actual >= target then actual - target else target - actual;
    1.0 - Min(diff, 100.0) / 100.0
  }

  /** `weightedCloseness`: over the keys of the target, visited in `keys`
      order, the weight times the closeness, a missing actual reading as 50. */
  function ClosenessOver(actual: PartialRecord, target: PartialRecord, weights: MetricRecord, keys: seq<Metric>): real
  {
    if |keys| == 0 then 0.0
    else ClosenessOver(actual, target, weights, keys[..|keys| - 1]) + ClosenessTerm(actual, target, weights, keys[|keys| - 1])
  }

  /** One key's term: the weight times the closeness on a target key, else 0. */
  function ClosenessTerm(actual: PartialRecord, target: PartialRecord, weights: MetricRecord, k: Metric): real
  {
    if k in target then At(weights, k) * Closeness(ValueOr(actual, k, 50.0), target[k]) else 0.0
  }

  function WeightedCloseness(actual: PartialRecord, target: PartialRecord, weights: MetricRecord): real
  {
    ClosenessOver(actual, target, weights, AllMetrics)
  }

  /** The sum of the weights over the target's keys. */
  function WeightOver(target: PartialRecord, weights: MetricRecord, keys: seq<Metric>): real
  {
    if |keys| == 0 then 0.0
    else WeightOver(target, weights, keys[..|keys| - 1]) + WeightTerm(target, weights, keys[|keys| - 1])
  }

  /** One key's weight: its weight on a target key, else 0. */
  function WeightTerm(target: PartialRecord, weights: MetricRecord, k: Metric): real
  {
    if k in target then At(weights, k) else 0.0
  }

  predicate NonNegativeWeights(weights: MetricRecord)
  {
    forall m | m in MetricSet :: weights[m] >= 0.0
  }

  lemma {:induction false} ClosenessSumBounds(actual: PartialRecord, target: PartialRecord, weights: MetricRecord, keys: seq<Metric>)
    requires NonNegativeWeights(weights)
    ensures 0.0 <= ClosenessOver(actual, target, weights, keys) <= WeightOver(target, weights, keys)
  {
    if |keys| > 0 {
      var init, k := keys[..|keys| - 1], keys[|keys| - 1];
      ClosenessSumBounds(actual, target, weights, init);
      TermBounds(actual, target, weights, k);
      assert ClosenessOver(actual, target, weights, keys)
        == ClosenessOver(actual, target, weights, init) + ClosenessTerm(actual, target, weights, k);
      assert WeightOver(target, weights, keys) == WeightOver(target, weights, init) + WeightTerm(target, weights, k);
    }
  }

  /** One key's term lies between 0 and that key's weight. */
  lemma TermBounds(actual: PartialRecord, target: PartialRecord, weights: MetricRecord, k: Metric)
    requires NonNegativeWeights(weights)
    ensures 0.0 <= ClosenessTerm(actual, target, weights, k) <= WeightTerm(target, weights, k)
  {
    if k in target {
      var w := At(weights, k);
      var c := Closeness(ValueOr(actual, k, 50.0), target[k]);
      assert w >= 0.0 by { MetricInSet(k); }
      TermOfParts(w, c, ClosenessTerm(actual, target, weights, k), WeightTerm(target, weights, k));
    }
  }

  /** A weight times a closeness lies between 0 and the weight. */
  lemma TermOfParts(w: real, c: real, term: real, weight: real)
    requires w >= 0.0 && 0.0 <= c <= 1.0
    requires term == w * c && weight == w
    ensures 0.0 <= term <= weight
  {
    ScaleBelow(w, c);
  }

  lemma ScaleBelow(w: real, c: real)
    requires w >= 0.0 && 0.0 <= c <= 1.0
    ensures 0.0 <= w * c <= w
  {
    MulMonotone(c, 1.0, w);
    MulMonotone(0.0, c, w);
  }

  /** With non-negative weights the score lies between 0 and the total
      weight of the target's metrics. */
  lemma WeightedClosenessBounds(actual: PartialRecord, target: PartialRecord, weights: MetricRecord)
    requires NonNegativeWeights(weights)
    ensures 0.0 <= WeightedCloseness(actual, target, weights) <= WeightOver(target, weights, AllMetrics)
  {
    ClosenessSumBounds(actual, target, weights, AllMetrics);
  }

  lemma {:induction false} ClosenessSumExact(actual: PartialRecord, target: PartialRecord, weights: MetricRecord, keys: seq<Metric>)
    requires forall m | m in target :: m in actual && actual[m] == target[m]
    ensures ClosenessOver(actual, target, weights, keys) == WeightOver(target, weights, keys)
  {
    if |keys| > 0 {
      ClosenessSumExact(actual, target, weights, keys[..|keys| - 1]);
    }
  }

  /** Hitting the target on every target metric scores the full weight. */
  lemma WeightedClosenessExact(actual: PartialRecord, target: PartialRecord, weights: MetricRecord)
    requires forall m | m in target :: m in actual && actual[m] == target[m]
    ensures WeightedCloseness(actual, target, weights) == WeightOver(target, weights, AllMetrics)
  {
    ClosenessSumExact(actual, target, weights, AllMetrics);
  }

  lemma {:induction false} ClosenessSumCongruent(actual: PartialRecord, actual': PartialRecord, target: PartialRecord,
                                                weights: MetricRecord, keys: seq<Metric>)
    requires forall m | m in target :: ValueOr(actual, m, 50.0) == ValueOr(actual', m, 50.0)
    ensures ClosenessOver(actual, target, weights, keys) == ClosenessOver(actual', target, weights, keys)
  {
    if |keys| > 0 {
      ClosenessSumCongruent(actual, actual', target, weights, keys[..|keys| - 1]);
    }
  }

  /** A missing actual value is read as 50, and metrics outside the target
      are never looked at. */
  lemma WeightedClosenessMissingIsFifty(actual: PartialRecord, target: PartialRecord, weights: MetricRecord, m: Metric)
    requires m !in actual
    ensures WeightedCloseness(actual, target, weights) == WeightedCloseness(actual[m := 50.0], target, weights)
  {
    ClosenessSumCongruent(actual, actual[m := 50.0], target, weights, AllMetrics);
  }

  lemma WeightedClosenessIgnoresOtherMetrics(actual: PartialRecord, target: PartialRecord, weights: MetricRecord, m: Metric, x: real)
    requires m !in target
    ensures WeightedCloseness(actual, target, weights) == WeightedCloseness(actual[m := x], target, weights)
  {
    ClosenessSumCongruent(actual, actual[m := x], target, weights, AllMetrics);
  }
}
