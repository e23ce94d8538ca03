/** Composition synthesis and the six-candidate pipeline of
    `generateCandidates` (src/lib/engine/generate.ts). */
module Generate {
  import opened Js
  import opened Types
  import opened UseCaseTypes
  import opened UseCaseTable
  import opened UseCaseLookup
  import opened Normalize
  import opened Score
  import opened Rules
  import opened Predict
  import opened Circularity
  import opened Sorting
  import opened Prng
  import opened UseCaseScoring

  /** A whole number of percent. */
  predicate IsWhole(x: real) { x == x.Floor as real }

  lemma MathRoundWhole(x: real)
    requires IsWhole(x)
    ensures MathRound(x) as real == x
  {
    FloorOfHalfAbove(x.Floor);
  }

  /** Every percentage `Math.round`ed. */
  function RoundParts(parts: seq<CompositionPart>): (r: seq<CompositionPart>)
    ensures |r| == |parts|
    ensures forall i :: 0 <= i < |parts| ==> r[i] == parts[i].(pct := MathRound(parts[i].pct) as real)
  {
    seq(|parts|, i requires 0 <= i < |parts| => parts[i].(pct := MathRound(parts[i].pct) as real))
  }

  /** Changing the first percentage changes the total by the difference. */
  lemma {:induction false} TotalPctUpdateFirst(s: seq<CompositionPart>, x: real)
    requires |s| > 0
    ensures TotalPct(s[0 := s[0].(pct := x)]) == TotalPct(s) - s[0].pct + x
  {
    var t := s[0 := s[0].(pct := x)];
    if |s| > 1 {
      var init := s[..|s| - 1];
      assert t[..|t| - 1] == init[0 := init[0].(pct := x)];
      TotalPctUpdateFirst(init, x);
    } else {
      assert t[..|t| - 1] == [] && s[..|s| - 1] == [];
    }
  }

  /** `roundComposition`: every percentage rounded to a whole number, the
      first part absorbing the rounding remainder. The total is exactly 100
      and only percentages change. */
  function RoundComposition(parts: seq<CompositionPart>): (r: seq<CompositionPart>)
    requires |parts| > 0
    ensures |r| == |parts|
    ensures TotalPct(r) == 100.0
    ensures forall i :: 0 <= i < |r| ==> r[i].materialId == parts[i].materialId && r[i].name == parts[i].name
    ensures forall i :: 0 < i < |r| ==> IsWhole(r[i].pct) && -0.5 < r[i].pct - parts[i].pct <= 0.5
  {
    var rounded := RoundParts(parts);
    var delta := 100.0 - TotalPct(rounded);
    TotalPctUpdateFirst(rounded, rounded[0].pct + delta);
    rounded[0 := rounded[0].(pct := rounded[0].pct + delta)]
  }

  /** Whole percentages that already total 100 pass unchanged. */
  lemma RoundCompositionWhole(parts: seq<CompositionPart>)
    requires |parts| > 0
    requires forall i :: 0 <= i < |parts| ==> IsWhole(parts[i].pct)
    requires TotalPct(parts) == 100.0
    ensures RoundComposition(parts) == parts
  {
    var rounded := RoundParts(parts);
    forall i | 0 <= i < |parts| ensures rounded[i] == parts[i] {
      MathRoundWhole(parts[i].pct);
    }
    assert rounded == parts;
  }

  function Part(m: Material, pct: int): CompositionPart
  {
    CompositionPart(m.id, m.name, pct as real)
  }

  /** The secondary share's bounds for a base share b: at most 40 and at
      most 95 - b, at least 20 or that maximum. */
  function SecondaryMax(b: int): int { if 40 <= 95 - b then 40 else 95 - b }

  function SecondaryMin(b: int): int { if 20 <= SecondaryMax(b) then 20 else SecondaryMax(b) }

  /** The whole-number split of `makeComposition` for the words of its two
      draws. */
  function Split(w1: nat, w2: nat): (r: (int, int, int))
    requires w1 < TwoTo32 && w2 < TwoTo32
    ensures 50 <= r.0 <= 70
    ensures 20 <= r.1 <= 40 && r.1 <= 95 - r.0
    ensures r.2 >= 5 && r.0 + r.1 + r.2 == 100
  {
    var b := 50 + PickIndex(w1, 21);
    var s := SecondaryMin(b) + PickIndex(w2, SecondaryMax(b) - SecondaryMin(b) + 1);
    (b, s, 100 - b - s)
  }

  /** `makeComposition`: base 50..70%, secondary 20..min(40, 95 - base)%,
      the additive the rest (at least 5%), whole numbers totalling 100. */
  function MakeComposition(base: Material, secondary: Material, additive: Material, w1: nat, w2: nat): (r: seq<CompositionPart>)
    requires w1 < TwoTo32 && w2 < TwoTo32
    ensures |r| == 3
    ensures r[0].materialId == base.id && r[1].materialId == secondary.id && r[2].materialId == additive.id
    ensures r[0].name == base.name && r[1].name == secondary.name && r[2].name == additive.name
    ensures TotalPct(r) == 100.0
    ensures 50.0 <= r[0].pct <= 70.0
    ensures 20.0 <= r[1].pct <= 40.0 && r[1].pct <= 95.0 - r[0].pct
    ensures r[2].pct >= 5.0
    ensures forall i :: 0 <= i < 3 ==> IsWhole(r[i].pct)
  {
    var split := Split(w1, w2);
    var parts := [Part(base, split.0), Part(secondary, split.1), Part(additive, split.2)];
    TotalPctThree(parts);
    RoundCompositionWhole(parts);
    RoundComposition(parts)
  }

  lemma TotalPctThree(parts: seq<CompositionPart>)
    requires |parts| == 3
    ensures TotalPct(parts) == parts[0].pct + parts[1].pct + parts[2].pct
  {
    assert parts[..2][..1] == [parts[0]] && parts[..2][..1][..0] == [];
    assert TotalPct(parts[..2][..1]) == parts[0].pct;
  }

  /** Every base share 50..70 is drawn by some word. */
  lemma EveryBaseShareReachable(b: int)
    requires 50 <= b <= 70
    ensures exists w :: 0 <= w < TwoTo32 && 50 + PickIndex(w, 21) == b
  {
    var k := b - 50;
    var w := (k * TwoTo32 + 20) / 21;
    assert 0 <= w < TwoTo32;
    assert k * TwoTo32 <= w * 21 < (k + 1) * TwoTo32;
    assert PickIndex(w, 21) == k;
  }

  /** The mid-price of a material, averaged over the blend as
      `avgCost`. */
  function MidCost(m: Material): real { (m.costMin + m.costMax) / 2.0 }

  /** The prediction with the cost and scalability the pipeline writes over
      it. */
  function Overwritten(p: Prediction, comp: seq<CompositionPart>, index: MaterialIndex): (r: MetricRecord)
    ensures r[Cost] == ClampCostToScore(WeightedSum(comp, index, MidCost))
    ensures r[Scalability] == RoundTo(p.feasibility.trlEst * 11.11, 1)
    ensures forall m | m in MetricSet && m != Cost && m != Scalability :: r[m] == p.properties[m]
  {
    p.properties[Cost := ClampCostToScore(WeightedSum(comp, index, MidCost))]
                [Scalability := RoundTo(p.feasibility.trlEst * 11.11, 1)]
  }

  /** The engine's own penalties: 0.08 for a high supply risk, 0.05 below
      TRL 6, 0.012 per missing circularity point and 0.06 for a
      landfill-risk pathway. */
  function EnginePenalty(f: Feasibility, c: Types.Circularity): (d: real)
    ensures c.circularityScore <= 10.0 ==> d <= 0.0
    ensures 0.0 <= c.circularityScore ==> d >= -0.31
  {
    (if f.supplyRisk == High then -0.08 else 0.0)
      + (if f.trlEst < 6.0 then -0.05 else 0.0)
      - (10.0 - c.circularityScore) * 0.012
      + (if c.eolPathway == LandfillRisk then -0.06 else 0.0)
  }

  /** No engine penalty exactly for a blend with low or medium supply
      risk, TRL at least 6, full circularity and no landfill risk. */
  lemma EnginePenaltyZero(f: Feasibility, c: Types.Circularity)
    requires 0.0 <= c.circularityScore <= 10.0
    ensures EnginePenalty(f, c) == 0.0 <==>
      f.supplyRisk != High && f.trlEst >= 6.0 && c.circularityScore == 10.0 && c.eolPathway != LandfillRisk
  {}

  const NoScores := CompositeScores(0.0, 0.0, 0.0, 0.0)

  /** What one iteration of the loop fixes before composing: the resolved
      use case, target, weights, admissible catalog, its id lookup, the
      most similar materials and the additive pool. */
  datatype Context = Context(
    useCase: UseCaseConfig,
    target: MetricRecord,
    weights: MetricRecord,
    filtered: seq<Material>,
    index: MaterialIndex,
    top: seq<Material>,
    pool: seq<Material>)

  predicate ValidContext(ctx: Context)
  {
    && |ctx.top| > 0
    && (forall i :: 0 <= i < |ctx.top| ==> ctx.top[i] in ctx.filtered)
    && (forall i :: 0 <= i < |ctx.pool| ==> ctx.pool[i] in ctx.filtered)
    && (forall m :: m in ctx.filtered ==> m.id in ctx.index)
  }

  lemma IndexCovers(ms: seq<Material>)
    ensures forall m :: m in ms ==> m.id in IndexById(ms)
  {
    forall m | m in ms ensures m.id in IndexById(ms) {
      var i :| 0 <= i < |ms| && ms[i] == m;
    }
  }

  /** What every generated composition satisfies: three whole-number parts
      of admissible materials totalling 100 within the share bounds, the
      additive drawn from the pool whenever that is not empty. */
  predicate SoundComposition(comp: seq<CompositionPart>, ctx: Context)
  {
    && |comp| == 3
    && TotalPct(comp) == 100.0
    && 50.0 <= comp[0].pct <= 70.0
    && 20.0 <= comp[1].pct <= 40.0
    && comp[2].pct >= 5.0
    && (forall k :: 0 <= k < 3 ==> IsWhole(comp[k].pct))
    && (forall k :: 0 <= k < 3 ==> comp[k].materialId in ctx.index)
    && (|ctx.pool| > 0 ==> exists m :: m in ctx.pool && m.id == comp[2].materialId)
  }

  /** The figures of every generated candidate lie on their scales. */
  predicate SoundFigures(c: Candidate)
  {
    && 0.0 <= c.predicted[Cost] <= 100.0
    && 0.0 <= c.scores.performance <= 10.0 && 0.0 <= c.scores.sustainability <= 10.0
    && 0.0 <= c.scores.feasibility <= 10.0
    && 0.0 <= c.circularity.circularityScore <= 10.0
    && 0.0 <= c.circularity.separationDifficulty <= 10.0
    && 0.0 <= c.circularity.microplasticRisk <= 10.0
    && |c.circularity.notes| > 0
  }

  predicate Sound(c: Candidate, ctx: Context)
  {
    SoundComposition(c.composition, ctx) && SoundFigures(c)
  }

  /** One candidate of rank `rank` for a composition: prediction, cost and
      scalability, circularity, then the score, finished to 4 decimals. */
  function Assess(rank: int, comp: seq<CompositionPart>, ctx: Context): (c: Candidate)
    ensures c.rank == rank && c.composition == comp && c.explanation == BlendSummary
    ensures SoundFigures(c)
  {
    var pred := PredictBlend(comp, ctx.index);
    var predicted := Overwritten(pred, comp, ctx.index);
    var circularity := EvaluateCircularity(comp, ctx.index, predicted);
    var closeness := WeightedCloseness(predicted, ctx.target, ctx.weights);
    var draft := Candidate(rank, closeness, NoScores, comp, predicted, pred.lca, pred.feasibility, circularity, BlendSummary);
    var score := closeness * 0.55 + CandidateUseCaseObjective(draft, ctx.useCase) * 0.45
      + EnginePenalty(pred.feasibility, circularity);
    var scored := draft.(score := RoundTo(score + ApplyUseCasePenaltiesAndBonuses(draft.(score := score), ctx.useCase, ctx.index), 4));
    scored.(scores := ComputeCompositeScores(scored))
  }

  /** The additive of iteration i: drawn from the pool, or the top list's
      fourth neighbour when the pool is empty. */
  function Additive(i: nat, ctx: Context, w: nat): (m: Material)
    requires ValidContext(ctx) && w < TwoTo32
    ensures m in ctx.filtered
    ensures |ctx.pool| > 0 ==> m in ctx.pool
  {
    if |ctx.pool| > 0 then ctx.pool[PickIndex(w, |ctx.pool|)] else ctx.top[(i + 3) % |ctx.top|]
  }

  /** The composition of iteration i: base and secondary from the top list,
      two places apart, and the additive. */
  function Composed(i: nat, ctx: Context, w1: nat, w2: nat, w3: nat): (comp: seq<CompositionPart>)
    requires ValidContext(ctx) && w1 < TwoTo32 && w2 < TwoTo32 && w3 < TwoTo32
    ensures SoundComposition(comp, ctx)
  {
    var base := ctx.top[i % |ctx.top|];
    var secondary := ctx.top[(i + 2) % |ctx.top|];
    var additive := Additive(i, ctx, w1);
    var comp := MakeComposition(base, secondary, additive, w2, w3);
    assert base in ctx.filtered && secondary in ctx.filtered && additive in ctx.filtered;
    assert forall k :: 0 <= k < 3 ==> comp[k].materialId in ctx.index;
    assert |ctx.pool| > 0 ==> additive in ctx.pool && additive.id == comp[2].materialId;
    comp
  }

  /** The six iterations of the loop, each advancing the generator three
      times: once for the additive, twice for the composition. Nothing in
      the assessment of a candidate draws from the generator, so the
      compositions can be drawn first and assessed afterwards. */
  function Compositions(state: bv32, ctx: Context): (r: seq<seq<CompositionPart>>)
    requires ValidContext(ctx)
    ensures |r| == 6
    ensures forall k :: 0 <= k < |r| ==> SoundComposition(r[k], ctx)
  {
    ComposeFrom(Words(state, 18).0, ctx)
  }

  /** The compositions of the six iterations from their eighteen words. */
  function ComposeFrom(ws: seq<nat>, ctx: Context): (r: seq<seq<CompositionPart>>)
    requires ValidContext(ctx) && |ws| == 18
    requires forall k :: 0 <= k < |ws| ==> ws[k] < TwoTo32
    ensures |r| == 6
    ensures forall k :: 0 <= k < |r| ==> SoundComposition(r[k], ctx)
  {
    seq(6, k requires 0 <= k < 6 => Composed(k, ctx, ws[3 * k], ws[3 * k + 1], ws[3 * k + 2]))
  }

  /** The candidates of the loop, ranked by iteration from 1. */
  function AssessAll(comps: seq<seq<CompositionPart>>, ctx: Context): (r: seq<Candidate>)
    requires forall k :: 0 <= k < |comps| ==> SoundComposition(comps[k], ctx)
    ensures |r| == |comps| && AllSound(r, ctx)
    ensures forall k :: 0 <= k < |r| ==> r[k].rank == k + 1 && r[k].composition == comps[k]
  {
    seq(|comps|, k requires 0 <= k < |comps| => AssessNth(comps, k, ctx))
  }

  /** The candidate of the k-th composition, ranked k + 1. */
  function AssessNth(comps: seq<seq<CompositionPart>>, k: nat, ctx: Context): (c: Candidate)
    requires k < |comps| && SoundComposition(comps[k], ctx)
    ensures c.rank == k + 1 && c.composition == comps[k] && Sound(c, ctx)
  {
    AssessSound(k + 1, comps[k], ctx)
  }

  /** Assess, for a composition drawn from the context: the candidate is sound. */
  function AssessSound(rank: int, comp: seq<CompositionPart>, ctx: Context): (c: Candidate)
    requires SoundComposition(comp, ctx)
    ensures c.rank == rank && c.composition == comp && Sound(c, ctx)
  {
    Assess(rank, comp, ctx)
  }

  /** The loop's output: six sound candidates. */
  function Iterate(state: bv32, ctx: Context): (r: seq<Candidate>)
    requires ValidContext(ctx)
    ensures |r| == 6 && AllSound(r, ctx)
  {
    AssessAll(Compositions(state, ctx), ctx)
  }

  predicate AllSound(cs: seq<Candidate>, ctx: Context)
  {
    forall k :: 0 <= k < |cs| ==> Sound(cs[k], ctx)
  }

  /** A material paired with its similarity to the target. */
  function SimOf(e: (Material, real)): real { e.1 }

  function Similarities(ms: seq<Material>, target: MetricRecord, sqrt: real -> real): (r: seq<(Material, real)>)
    requires IsSqrt(sqrt)
    ensures |r| == |ms|
    ensures forall i :: 0 <= i < |ms| ==> r[i] == (ms[i], CosineSimilarity(target, ms[i].properties, sqrt))
  {
    seq(|ms|, i requires 0 <= i < |ms| => (ms[i], CosineSimilarity(target, ms[i].properties, sqrt)))
  }

  function Firsts(ps: seq<(Material, real)>): (r: seq<Material>)
    ensures |r| == |ps|
    ensures forall i :: 0 <= i < |ps| ==> r[i] == ps[i].0
  {
    seq(|ps|, i requires 0 <= i < |ps| => ps[i].0)
  }

  /** `Math.max(8, Math.min(14, n))`. */
  function TopCount(n: int): int { if n >= 14 then 14 else if n >= 8 then n else 8 }

  /** The most similar admissible materials, best first: all of them up to
      14. */
  function Top(filtered: seq<Material>, target: MetricRecord, sqrt: real -> real): (r: seq<Material>)
    requires IsSqrt(sqrt)
    ensures |r| == if |filtered| < 14 then |filtered| else 14
    ensures forall i :: 0 <= i < |r| ==> r[i] in filtered
    ensures multiset(r) <= multiset(filtered)
    ensures forall i, j :: 0 <= i < j < |r| ==>
      CosineSimilarity(target, r[i].properties, sqrt) >= CosineSimilarity(target, r[j].properties, sqrt)
  {
    MostSimilar(filtered, target, TopCount(|filtered|), sqrt)
  }

  /** The materials sorted by similarity to the target, best first, cut by
      `slice(0, limit)`: a prefix of the ranking, so nothing left out is
      more similar than the last one kept. */
  function MostSimilar(ms: seq<Material>, target: MetricRecord, limit: int, sqrt: real -> real): (r: seq<Material>)
    requires IsSqrt(sqrt)
    ensures 0 <= limit ==> |r| == if limit < |ms| then limit else |ms|
    ensures forall i :: 0 <= i < |r| ==> r[i] in ms
    ensures multiset(r) <= multiset(ms)
    ensures forall i, j :: 0 <= i < j < |r| ==>
      CosineSimilarity(target, r[i].properties, sqrt) >= CosineSimilarity(target, r[j].properties, sqrt)
    ensures forall m :: m in ms && m !in r && |r| > 0 ==>
      CosineSimilarity(target, m.properties, sqrt) <= CosineSimilarity(target, r[|r| - 1].properties, sqrt)
  {
    var kept := Kept(ms, target, sqrt, limit);
    KeptSound(ms, target, sqrt, limit);
    KeptSorted(ms, target, sqrt, limit);
    KeptBeatsRest(ms, target, sqrt, limit);
    KeptWithin(ms, target, sqrt, limit);
    Firsts(kept)
  }

  lemma FirstsAppend(a: seq<(Material, real)>, b: seq<(Material, real)>)
    ensures Firsts(a + b) == Firsts(a) + Firsts(b)
  {
    assert forall i | 0 <= i < |a + b| :: Firsts(a + b)[i] == (Firsts(a) + Firsts(b))[i];
  }

  /** Reordering pairs reorders their materials the same way. */
  lemma {:induction false} FirstsPerm(a: seq<(Material, real)>, b: seq<(Material, real)>)
    requires multiset(a) == multiset(b)
    ensures multiset(Firsts(a)) == multiset(Firsts(b))
    decreases |a|
  {
    if |a| == 0 {
      assert |b| == |multiset(b)| == 0;
    } else {
      var x, rest := a[0], a[1..];
      assert a == [x] + rest;
      var left, right := TakeOut(b, x);
      assert multiset(rest) == multiset(a) - multiset{x};
      FirstsPerm(rest, left + right);
      FirstsCons(x, rest);
      FirstsAround(left, x, right);
      calc {
        multiset(Firsts(a));
        multiset(Firsts(rest)) + multiset{x.0};
        multiset(Firsts(left + right)) + multiset{x.0};
        multiset(Firsts(b));
      }
    }
  }

  /** An element of b splits it around one of its occurrences. */
  lemma TakeOut<T>(b: seq<T>, x: T) returns (left: seq<T>, right: seq<T>)
    requires x in multiset(b)
    ensures b == left + [x] + right
    ensures multiset(left + right) == multiset(b) - multiset{x}
  {
    var j :| 0 <= j < |b| && b[j] == x;
    left, right := b[..j], b[j + 1..];
    assert b == left + [x] + right;
  }

  lemma FirstsCons(x: (Material, real), t: seq<(Material, real)>)
    ensures multiset(Firsts([x] + t)) == multiset(Firsts(t)) + multiset{x.0}
  {
    FirstsAppend([x], t);
  }

  lemma FirstsAround(left: seq<(Material, real)>, x: (Material, real), right: seq<(Material, real)>)
    ensures multiset(Firsts(left + [x] + right)) == multiset(Firsts(left + right)) + multiset{x.0}
  {
    FirstsAppend(left + [x], right);
    FirstsAppend(left, [x]);
    FirstsAppend(left, right);
  }

  /** A prefix holds no element more often than the whole. */
  lemma PrefixWithin<T>(s: seq<T>, n: nat)
    requires n <= |s|
    ensures multiset(s[..n]) <= multiset(s)
  {
    assert s == s[..n] + s[n..];
  }

  /** `MostSimilar` keeps each material at most as often as it is listed. */
  lemma KeptWithin(ms: seq<Material>, target: MetricRecord, sqrt: real -> real, limit: int)
    requires IsSqrt(sqrt)
    ensures multiset(Firsts(Kept(ms, target, sqrt, limit))) <= multiset(ms)
  {
    var pairs := Similarities(ms, target, sqrt);
    var sorted := SortDesc(pairs, SimOf);
    var n := |Kept(ms, target, sqrt, limit)|;
    assert Firsts(pairs) == ms;
    FirstsPerm(sorted, pairs);
    assert Kept(ms, target, sqrt, limit) == sorted[..n];
    FirstsPrefix(sorted, n);
    PrefixWithin(Firsts(sorted), n);
  }

  lemma FirstsPrefix(s: seq<(Material, real)>, n: nat)
    requires n <= |s|
    ensures Firsts(s[..n]) == Firsts(s)[..n]
  {
    assert forall i | 0 <= i < n :: Firsts(s[..n])[i] == Firsts(s)[..n][i];
  }

  /** The best-first prefix of the scored materials that `MostSimilar`
      keeps. */
  function Kept(ms: seq<Material>, target: MetricRecord, sqrt: real -> real, limit: int): seq<(Material, real)>
    requires IsSqrt(sqrt)
  {
    SliceTo(SortDesc(Similarities(ms, target, sqrt), SimOf), limit)
  }

  /** Every kept material comes from the input, paired with its own
      similarity. */
  lemma KeptSound(ms: seq<Material>, target: MetricRecord, sqrt: real -> real, limit: int)
    requires IsSqrt(sqrt)
    ensures var kept := Kept(ms, target, sqrt, limit);
      forall i :: 0 <= i < |kept| ==>
        kept[i].0 in ms && kept[i].1 == CosineSimilarity(target, kept[i].0.properties, sqrt)
  {
    var sorted := SortDesc(Similarities(ms, target, sqrt), SimOf);
    PairsSound(ms, target, sqrt, sorted);
    var kept := Kept(ms, target, sqrt, limit);
    assert forall i | 0 <= i < |kept| :: kept[i] == sorted[i];
  }

  /** The kept pairs are best first. */
  lemma KeptSorted(ms: seq<Material>, target: MetricRecord, sqrt: real -> real, limit: int)
    requires IsSqrt(sqrt)
    ensures SortedDesc(Kept(ms, target, sqrt, limit), SimOf)
  {
    var sorted := SortDesc(Similarities(ms, target, sqrt), SimOf);
    PrefixSorted(sorted, SimOf, |Kept(ms, target, sqrt, limit)|);
  }

  /** Nothing left behind is more similar than the last pair kept. */
  lemma KeptBeatsRest(ms: seq<Material>, target: MetricRecord, sqrt: real -> real, limit: int)
    requires IsSqrt(sqrt)
    ensures var kept := Kept(ms, target, sqrt, limit);
      forall m :: m in ms && m !in Firsts(kept) && |kept| > 0 ==>
        CosineSimilarity(target, m.properties, sqrt) <= kept[|kept| - 1].1
  {
    var sorted := SortDesc(Similarities(ms, target, sqrt), SimOf);
    PrefixBeatsRest(ms, target, sqrt, sorted, |Kept(ms, target, sqrt, limit)|);
  }

  /** Nothing outside a best-first prefix of the scored materials is more
      similar than the prefix's last pair. */
  lemma PrefixBeatsRest(ms: seq<Material>, target: MetricRecord, sqrt: real -> real, sorted: seq<(Material, real)>, n: nat)
    requires IsSqrt(sqrt)
    requires multiset(sorted) == multiset(Similarities(ms, target, sqrt)) && SortedDesc(sorted, SimOf)
    requires n <= |sorted|
    ensures forall m :: m in ms && m !in Firsts(sorted[..n]) && n > 0 ==>
      CosineSimilarity(target, m.properties, sqrt) <= sorted[..n][n - 1].1
  {
    forall m | m in ms && m !in Firsts(sorted[..n]) && n > 0
      ensures CosineSimilarity(target, m.properties, sqrt) <= sorted[..n][n - 1].1
    {
      LeftBehind(ms, target, sqrt, sorted, n, m);
    }
  }

  /** A reordering of the scored materials pairs each one with its own
      similarity. */
  lemma PairsSound(ms: seq<Material>, target: MetricRecord, sqrt: real -> real, sorted: seq<(Material, real)>)
    requires IsSqrt(sqrt)
    requires multiset(sorted) == multiset(Similarities(ms, target, sqrt))
    ensures forall i :: 0 <= i < |sorted| ==>
      sorted[i].0 in ms && sorted[i].1 == CosineSimilarity(target, sorted[i].0.properties, sqrt)
  {
    forall i | 0 <= i < |sorted|
      ensures sorted[i].0 in ms && sorted[i].1 == CosineSimilarity(target, sorted[i].0.properties, sqrt)
    {
      assert sorted[i] in multiset(Similarities(ms, target, sqrt));
    }
  }

  /** A material whose pair lies beyond a best-first prefix is no more
      similar than the prefix's last pair. */
  lemma LeftBehind(ms: seq<Material>, target: MetricRecord, sqrt: real -> real, sorted: seq<(Material, real)>, n: nat, m: Material)
    requires IsSqrt(sqrt)
    requires multiset(sorted) == multiset(Similarities(ms, target, sqrt)) && SortedDesc(sorted, SimOf)
    requires 0 < n <= |sorted| && m in ms && m !in Firsts(sorted[..n])
    ensures CosineSimilarity(target, m.properties, sqrt) <= sorted[n - 1].1
  {
    var pairs := Similarities(ms, target, sqrt);
    var k :| 0 <= k < |ms| && ms[k] == m;
    assert pairs[k] in multiset(sorted);
    forall i | 0 <= i < n ensures sorted[..n][i] != pairs[k] {
      assert Firsts(sorted[..n])[i] == sorted[..n][i].0;
    }
    PrefixBound(sorted, SimOf, n, pairs[k]);
  }

  /** The pool of additives: bio-polymers, synthetics and man-made
      cellulosics, without elastomers when the use case forbids them. */
  predicate AdditiveKind(m: Material, noElastane: bool)
  {
    (m.category == BioPolymer || m.category == Synthetic || m.category == MMCF)
      && !(noElastane && HasElastomer(m.name))
  }

  function AdditivePool(ms: seq<Material>, noElastane: bool): (r: seq<Material>)
    ensures forall m :: m in r <==> m in ms && AdditiveKind(m, noElastane)
  {
    if |ms| == 0 then []
    else
      var rest := AdditivePool(ms[..|ms| - 1], noElastane);
      var m := ms[|ms| - 1];
      assert ms == ms[..|ms| - 1] + [m];
      if AdditiveKind(m, noElastane) then rest + [m] else rest
  }

  /** The additive pool keeps the order and splits over concatenation:
      filtering a + b is filtering a, then b. */
  lemma {:induction false} AdditivePoolAppend(a: seq<Material>, b: seq<Material>, noElastane: bool)
    ensures AdditivePool(a + b, noElastane) == AdditivePool(a, noElastane) + AdditivePool(b, noElastane)
    decreases |b|
  {
    if |b| == 0 {
      assert a + b == a;
    } else {
      var b' := b[..|b| - 1];
      assert (a + b)[..|a + b| - 1] == a + b';
      assert (a + b)[|a + b| - 1] == b[|b| - 1];
      AdditivePoolAppend(a, b', noElastane);
    }
  }

  /** A single material is kept exactly when it passes. */
  lemma AdditivePoolSingle(x: Material, noElastane: bool)
    ensures AdditivePool([x], noElastane) == (if AdditiveKind(x, noElastane) then [x] else [])
  {
    assert [x][..0] == [];
  }

  /** The profile generation runs under. */
  function UseCaseOf(input: SessionInput): UseCaseConfig
  {
    GetUseCaseById(Some(ResolveUseCaseId(input.useCaseId, Some(input.useCase))))
  }

  /** The catalog after the session's and the use case's constraints. */
  function Admitted(useCase: UseCaseConfig, input: SessionInput, materials: seq<Material>): seq<Material>
  {
    FilterMaterials(Some(MergeConstraints(input.constraints, useCase.constraints)), materials)
  }

  function NoElastane(u: UseCaseConfig): bool
  {
    u.constraints.Some? && IsSet(u.constraints.value.noElastane)
  }

  /** The loop's fixed inputs: normalised sliders as the target, the
      normalised weights biased for the use case, the admissible catalog,
      its lookup, its most similar materials and the additive pool. */
  function ContextOf(useCase: UseCaseConfig, input: SessionInput, materials: seq<Material>, sqrt: real -> real): (ctx: Context)
    requires IsSqrt(sqrt)
    requires |Admitted(useCase, input, materials)| >= 3
    ensures ValidContext(ctx)
    ensures ctx.useCase == useCase
    ensures ctx.filtered == Admitted(useCase, input, materials)
    ensures ctx.index == IndexById(ctx.filtered)
  {
    ContextFrom(useCase, NormalizeSliders(input.sliders),
      AdjustWeightsForUseCase(NormalizeWeights(input.weights), useCase),
      Admitted(useCase, input, materials), sqrt)
  }

  function ContextFrom(useCase: UseCaseConfig, target: MetricRecord, weights: MetricRecord,
                       filtered: seq<Material>, sqrt: real -> real): (ctx: Context)
    requires IsSqrt(sqrt)
    requires |filtered| >= 3
    ensures ValidContext(ctx)
    ensures ctx.useCase == useCase && ctx.filtered == filtered
    ensures ctx.index == IndexById(filtered)
  {
    IndexCovers(filtered);
    var pool := AdditivePool(filtered, NoElastane(useCase));
    PoolAdmitted(filtered, NoElastane(useCase));
    Context(useCase, target, weights, filtered, IndexById(filtered), Top(filtered, target, sqrt), pool)
  }

  lemma PoolAdmitted(ms: seq<Material>, noElastane: bool)
    ensures forall i :: 0 <= i < |AdditivePool(ms, noElastane)| ==> AdditivePool(ms, noElastane)[i] in ms
  {
    var pool := AdditivePool(ms, noElastane);
    forall i | 0 <= i < |pool| ensures pool[i] in ms {
      assert pool[i] in pool;
    }
  }

  datatype GenerateError = NotEnoughMaterials

  /** Six sound candidates, best first, ranked 1 to 6. */
  predicate Generated(r: seq<Candidate>, ctx: Context)
  {
    && |r| == 6
    && SortedDesc(r, Sorting.Score)
    && (forall i :: 0 <= i < |r| ==> r[i].rank == i + 1)
    && AllSound(r, ctx)
  }

  /** The loop and the final ranking, for a fixed context and seed. */
  function GenerateIn(ctx: Context, seed: bv32): (r: seq<Candidate>)
    requires ValidContext(ctx)
    ensures Generated(r, ctx)
  {
    Finish(Iterate(seed, ctx), ctx)
  }

  /** The last step: sort by score, keep six, number them from 1. */
  function Finish(out: seq<Candidate>, ctx: Context): (r: seq<Candidate>)
    requires |out| == 6 && AllSound(out, ctx)
    ensures Generated(r, ctx)
  {
    var sorted := SortDesc(out, Sorting.Score);
    assert SliceTo(sorted, 6) == sorted;
    RankingKeepsSound(out, ctx);
    AssignRanks(SliceTo(sorted, 6))
  }

  /** `generateCandidates` once the use case is resolved and the seed
      hashed. */
  function GenerateWith(useCase: UseCaseConfig, input: SessionInput, materials: seq<Material>,
                        sqrt: real -> real, seed: bv32): (r: Result<seq<Candidate>, GenerateError>)
    requires IsSqrt(sqrt)
    ensures r.Err? <==> |Admitted(useCase, input, materials)| < 3
    ensures r.Ok? ==> Generated(r.value, ContextOf(useCase, input, materials, sqrt))
  {
    if |Admitted(useCase, input, materials)| < 3 then Err(NotEnoughMaterials)
    else Ok(GenerateIn(ContextOf(useCase, input, materials, sqrt), seed))
  }

  /** `generateCandidates`. It fails exactly when fewer than three materials
      survive the constraints; otherwise it returns six sound candidates,
      best first, ranked 1 to 6. `sqrt` is `Math.sqrt` and `stringify` is
      `JSON.stringify`, as UTF-16 code units. */
  function GenerateCandidates(input: SessionInput, materials: seq<Material>,
                              sqrt: real -> real, stringify: SessionInput -> seq<bv16>): (r: Result<seq<Candidate>, GenerateError>)
    requires IsSqrt(sqrt)
    ensures var u := UseCaseOf(input);
      && (r.Err? <==> |Admitted(u, input, materials)| < 3)
      && (r.Ok? ==> Generated(r.value, ContextOf(u, input, materials, sqrt)))
  {
    GenerateWith(UseCaseOf(input), input, materials, sqrt, Seed(stringify(input)))
  }

  /** Sorting and ranking keep every candidate's soundness. */
  lemma RankingKeepsSound(out: seq<Candidate>, ctx: Context)
    requires AllSound(out, ctx)
    ensures AllSound(SortAndRank(out), ctx)
  {
    var ranked := SortAndRank(out);
    var p :| multiset(p) == multiset(out) && ranked == AssignRanks(p);
    forall i | 0 <= i < |ranked| ensures Sound(ranked[i], ctx) {
      assert p[i] in multiset(out);
    }
  }
}
