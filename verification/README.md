# Composer engine in Dafny

A model of the candidate generation and scoring engine of Composer, a tool for
designing textile fibre blends. A user sets target sliders (0–100) for 14
material metrics and may add weights, hard constraints and a use-case
profile. The engine then:

- normalises the targets and weights;
- filters a material catalog;
- picks the most similar materials by cosine similarity;
- draws six three-part blends with a seeded mulberry32 generator;
- predicts each blend's properties, life-cycle figures, feasibility and
  circularity;
- scores each blend against the targets and the use case;
- returns six ranked candidates.

Around that core, the model covers these pure helpers:

- re-ranking by objective;
- similar-material search;
- the "more recyclable alternative";
- use-case id resolution and the grouped use-case list;
- slider conflict warnings;
- the in-memory session history;
- the mapping of the two database row formats to materials;
- the composer page's slider, priority and compare-selection state.

The modules follow the source files:

| module | models |
|---|---|
| `Js` | JavaScript numeric helpers: `Math.round`, `toFixed`, clamping, averaging, `slice` |
| `Text` | `toLowerCase`, `toUpperCase`, `includes`, `replaceAll`, `trim` |
| `Types` | `src/lib/types.ts`, and `src/lib/types/useCase.ts` (together with `UseCaseTypes`) |
| `Normalize` | `src/lib/normalize.ts` |
| `Score` | `src/lib/engine/score.ts` |
| `Rules` | `src/lib/engine/rules.ts` |
| `Predict` | `src/lib/engine/predict.ts` |
| `Prng` | mulberry32 and `hashInput` |
| `Circularity` | `evaluateCircularity` |
| `UseCaseScoring` | the use-case filters, weights, objective, penalties and composite scores of `generate.ts` |
| `Sorting` | the stable descending sort and ranking |
| `Generate` | composition drawing and `generateCandidates` |
| `Derived` | `rerankByObjective`, `findSimilarMaterialsFromCatalog`, `suggestMoreRecyclableAlternative` |
| `UseCaseTable` | `src/lib/config/useCases.ts` |
| `UseCaseLookup` | `src/lib/use-cases.ts` |
| `Conflicts` | `src/lib/conflicts.ts` |
| `SessionStore` | `src/lib/store.ts` |
| `Numerals` | the number scan used by `parseMidRange` |
| `MaterialsDb` | `src/lib/materials-db.ts` |
| `PageState` | the state helpers of `src/app/page.tsx` |

Modelling conventions:

- **Numbers.** They are mathematical reals, not IEEE doubles. A value that
  may be non-finite (the result of `Number(...)` or of a division) is the
  datatype `Num`, with `Finite(x)` and `NonFinite`.
- **`toFixed(k)`** is `RoundTo(x, k)`: it rounds half away from zero at k
  decimals. **`Math.round`** is `floor(x + 0.5)`.
- **32-bit arithmetic** of the generator and the hash is done on `bv32`.
- **`Math.sqrt` and `JSON.stringify`** are function parameters. A lemma that
  needs a real square root requires `IsSqrt(sqrt)`.

## Model

| member | source | states |
|---|---|---|
| Js.Clamp | src/lib/normalize.ts:3 | the result lies in [lo, hi]; it equals x inside the range and the nearer bound outside it |
| Js.MathRound | src/lib/engine/generate.ts:159 | `Math.round(x)` is the integer within half a unit of x, with ties going up |
| Js.RoundToError | src/lib/engine/generate.ts:27 | `toFixed(k)` moves a value by at most half a unit in the k-th decimal place |
| Js.RoundToGrid | src/lib/engine/generate.ts:27 | `toFixed(k)` always lands on the grid of 10^-k |
| Js.RoundToOnGrid | src/lib/engine/generate.ts:203 | a value already on the grid of 10^-k is unchanged |
| Js.RoundToShift | src/lib/engine/generate.ts:254-257 | the difference of two values on the grid is on the grid, so rounding it changes nothing |
| Js.RoundToNearest | src/lib/engine/generate.ts:27 | no grid point is nearer to the value than the rounded one, and on a tie the rounded one is the one farther from zero |
| Js.RoundToMonotone | src/lib/engine/generate.ts:203 | rounding to k decimals never reverses the order of two values |
| Js.RoundToInteger | src/lib/engine/generate.ts:203 | rounding leaves a whole number unchanged |
| Js.AvgBounds | src/lib/engine/generate.ts:197-200 | the mean of a non-empty list lies between any lower and upper bound of its elements |
| Js.SliceTo | src/lib/store.ts:19-21 | `slice(0, n)` is a prefix: n elements when 0 <= n, counted from the end when n is negative |
| Text.Lower | src/lib/use-cases.ts:28 | lower-casing maps every character through the ASCII case map, position by position, leaving no ASCII capital |
| Text.LowerIdempotent | src/lib/use-cases.ts:28 | lower-casing twice is the same as lower-casing once |
| Text.ContainsIsIncludes | src/lib/engine/rules.ts:20 | the executable substring search holds exactly when some position of the text starts with the pattern |
| Text.Trim | src/lib/use-cases.ts:28 | the result is the slice of the input that starts at the first non-whitespace character; everything before and after it is JavaScript whitespace, and it neither starts nor ends with whitespace |
| Text.TrimIdempotent | src/lib/use-cases.ts:52 | trimming a trimmed string changes nothing |
| Text.TrimUnique | src/lib/use-cases.ts:52 | a string without surrounding whitespace, padded with whitespace on both sides, trims back to itself |
| Types.MetricGroups | src/lib/types.ts:1-21 | there are 6 performance, 6 sustainability and 2 economic metrics; the 14-metric list is their concatenation in that order |
| Types.MetricsDistinct | src/lib/types.ts:1-21 | the 14 metrics and their JSON keys are pairwise distinct |
| Types.LevelOrderInjective | src/lib/engine/generate.ts:17-21 | the low/medium/high order 1/2/3 tells the levels apart |
| Types.IndexById | src/lib/engine/generate.ts:354 | the id map has exactly the ids of the list, and each id maps to a listed material carrying that id |
| Types.IndexByIdLastWins | src/lib/engine/generate.ts:354 | as for a `Map` built from entries, the material an id maps to is the last one in the list with that id |
| Normalize.NormalizeSliders | src/lib/normalize.ts:5-11 | every metric gets a value in 0..100: 50 when the slider is missing, the slider itself when in range, otherwise the nearer bound |
| Normalize.NormalizeSlidersIdempotent | src/lib/normalize.ts:5-11 | normalising normalised sliders changes nothing |
| Normalize.NormalizeWeights | src/lib/normalize.ts:13-28 | each weight is the clamped raw weight over the sum of the clamped weights; all are positive and they add up to 1 |
| Normalize.NormalizeWeightsOrder | src/lib/normalize.ts:13-28 | normalising keeps both the strict order and the equality between any two metrics' raw weights |
| Normalize.NormalizeWeightsMonotone | src/lib/normalize.ts:13-28 | a metric with the larger clamped raw weight gets the larger normalised weight |
| Normalize.NormalizeWeightsDefault | src/lib/normalize.ts:13-28 | without weights, every metric weighs 1/14 |
| Score.CosineOf | src/lib/engine/score.ts:16-17 | it is 0 when either norm is 0, and otherwise the quotient of the dot product by the product of the norms |
| Score.CosineZero | src/lib/engine/score.ts:16 | a vector with zero norm has cosine similarity 0 with everything |
| Score.CosineSelf | src/lib/engine/score.ts:3-18 | a non-zero vector has cosine similarity 1 with itself |
| Score.CosineReadsKeysOfFirst | src/lib/engine/score.ts:8-10 | only the keys of the first vector are read; the second may differ anywhere else |
| Score.CosineMissingIsZero | src/lib/engine/score.ts:10 | a key missing from the second vector counts as 0 |
| Score.Closeness | src/lib/engine/score.ts:28-29 | per-metric closeness lies in [0, 1] and is 1 exactly when actual equals target |
| Score.WeightedClosenessBounds | src/lib/engine/score.ts:20-33 | with non-negative weights, the score lies between 0 and the total weight of the targeted metrics |
| Score.ClosenessSumBounds | src/lib/engine/score.ts:20-33 | with non-negative weights, the closeness sum over any list of metrics lies between 0 and their total weight |
| Score.WeightedClosenessExact | src/lib/engine/score.ts:20-33 | hitting every target exactly scores the full weight of the targeted metrics |
| Score.WeightedClosenessMissingIsFifty | src/lib/engine/score.ts:28 | a metric missing from the actual values is read as 50 |
| Score.WeightedClosenessIgnoresOtherMetrics | src/lib/engine/score.ts:26 | metrics without a target do not influence the score |
| Rules.KnownParts | src/lib/engine/rules.ts:17-18 | keeps exactly the composition parts whose material the catalog knows, and only those |
| Rules.KnownPartsIdempotent | src/lib/engine/rules.ts:17-18 | filtering twice keeps the same parts as filtering once |
| Rules.KnownPartsAppend | src/lib/engine/rules.ts:17-18 | filtering a concatenation is the concatenation of the filtered halves |
| Rules.KnownPartsSingle | src/lib/engine/rules.ts:17-18 | a single part is kept exactly when its material is known |
| Rules.SynergyStep | src/lib/engine/rules.ts:20-29 | hemp at 20 % or more adds 5 durability (capped at 100) and removes 4 softness (floored at 0); elastane at 8 % or more adds 8 elasticity and removes 8 biodegradability and 6 microplastic risk |
| Rules.SynergyStepFrame | src/lib/engine/rules.ts:20-29 | a step leaves every metric outside those five unchanged |
| Rules.ApplySynergyRules | src/lib/engine/rules.ts:9-33 | the rules change only the five synergy metrics and keep a 0..100 profile within 0..100 |
| Rules.HempClosedForm | src/lib/engine/rules.ts:16-23 | after all parts, durability and softness equal the base moved by 5 and 4 per qualifying hemp part, clamped at each step |
| Rules.ElastaneClosedForm | src/lib/engine/rules.ts:25-29 | after all parts, elasticity, biodegradability and microplastic risk equal the base moved by 8, 8 and 6 per qualifying elastane part, clamped at each step |
| Rules.SynergySkipsUnknown | src/lib/engine/rules.ts:17-18 | parts with unknown materials have no effect on the synergy rules |
| Rules.WeightedSumSkipsUnknown | src/lib/engine/rules.ts:39-44 | percentage-weighted sums ignore parts with unknown materials |
| Rules.WeightedSumBounds | src/lib/engine/rules.ts:39-44 | a weighted sum over non-negative shares lies between the smallest and the largest material value times the known share |
| Rules.WeightedSumAppend | src/lib/engine/rules.ts:39-44 | the weighted sum over a concatenation is the sum over each half |
| Rules.WeightedSumSingle | src/lib/engine/rules.ts:39-44 | the weighted sum over one part is that part's contribution |
| Rules.SupplyRiskClass | src/lib/engine/rules.ts:46-48 | low exactly when TRL >= 8 and risk <= 1.4; medium exactly when TRL >= 6 and not low; high exactly when TRL < 6 |
| Rules.SupplyRiskMonotone | src/lib/engine/rules.ts:46-48 | a higher TRL never yields a worse supply-risk class |
| Rules.SupplyRiskSkipsUnknown | src/lib/engine/rules.ts:35-49 | the supply-risk estimate ignores parts with unknown materials |
| Predict.Blend | src/lib/engine/predict.ts:20-26 | each blended metric is the percentage-weighted sum of the known materials' values |
| Predict.BlendInRange | src/lib/engine/predict.ts:20-26 | a blend of 0..100 catalog values with at most 100 % known share stays within 0..100 |
| Predict.BlendPure | src/lib/engine/predict.ts:20-26 | a single known material at 100 % blends to its own figures |
| Predict.BlendAppend | src/lib/engine/predict.ts:20-26 | blending is additive: the blend of two part lists together is the sum of their blends, metric by metric |
| Predict.RoundAndClamp | src/lib/engine/predict.ts:37 | the result is within 0..100; for in-range input it is the one-decimal rounding, at most 0.05 away |
| Predict.RoundLca | src/lib/engine/predict.ts:42-46 | CO2, water and energy lie on the grids of 0.01, 1 and 0.1, each within half a step of the exact value |
| Predict.PredictBlend | src/lib/engine/predict.ts:4-52 | properties are within 0..100; CO2, water, energy and TRL are within rounding error of the weighted sums; supply risk is the estimate of `estimateSupplyRisk` |
| Predict.PredictClampInactive | src/lib/engine/predict.ts:34-38 | for in-range catalogs the clamp never fires: each property is the rounded synergy value |
| Predict.BlendSkipsUnknown | src/lib/engine/predict.ts:21-22 | parts with unknown materials add nothing to the blend |
| Predict.PredictSkipsUnknown | src/lib/engine/predict.ts:4-52 | the whole prediction is the same with the unknown parts removed |
| Prng.Words | src/lib/engine/generate.ts:138-146 | n draws of mulberry32 give n 32-bit words |
| Prng.Fraction | src/lib/engine/generate.ts:144 | each draw, divided by 2^32, is a fraction in [0, 1) |
| Prng.PickIndex | src/lib/engine/generate.ts:371 | `Math.floor(rand() * k)` is an index below k, or 0 when k is 0 |
| Prng.ShiftSubtractIsMultiply | src/lib/engine/generate.ts:152 | `(h << 5) - h + c` is `31 * h + c` modulo 2^32 |
| Prng.HashInput | src/lib/engine/generate.ts:148-156 | the seed lies in 1..2^31; it is 42 exactly when the hash is 0, 42 or -42 |
| Circularity.ChoosePathway | src/lib/engine/generate.ts:265-275 | compost exactly when biodegradability >= 75, synthetic share < 25 and microplastic risk <= 4; otherwise mechanical exactly when recyclability >= 7 and separation <= 5; otherwise chemical exactly when recyclability >= 6 and synthetic share >= 50; otherwise landfill risk exactly when there is elastomer or separation >= 7.5; otherwise unknown |
| Circularity.ChemicalBeforeLandfill | src/lib/engine/generate.ts:269-275 | a synthetic blend with elastomer and recyclability 6.5 goes to chemical recycling; at 5.9 it goes to landfill risk |
| Circularity.ElastomerPenalty | src/lib/engine/generate.ts:253-259 | without elastomer, nothing changes and no note is added; with 8 % or more, the significant note and 2.5 points off; below 8 %, the small note and 1.2 points off; floored at 0, exact for scores on the 0.1 grid and within 0.05 otherwise |
| Circularity.PenaltyOnGrid | src/lib/engine/generate.ts:254-257 | the two penalty steps, 2.5 and 1.2, lie on the 0.1 grid |
| Circularity.ComponentsAppend | src/lib/engine/generate.ts:248 | the count of non-zero parts of a concatenation is the sum of the halves' counts |
| Circularity.ComponentsSingle | src/lib/engine/generate.ts:248 | one part counts exactly when its share is positive |
| Circularity.EvaluateCircularity | src/lib/engine/generate.ts:227-297 | separation, microplastic and circularity scores lie in 0..10; recyclability lies in 0..10 for in-range predictions; there is always at least one note |
| Circularity.CircularityNotes | src/lib/engine/generate.ts:253-287 | each note appears exactly under its condition; the viable-pathways note appears exactly when no other does, and then alone |
| Circularity.LandfillHasCause | src/lib/engine/generate.ts:273-275 | a landfill-risk pathway always has an elastomer share or a separation difficulty of at least 7.5 |
| UseCaseScoring.ClampCostToScore | src/lib/engine/generate.ts:23-28 | the cost score lies in 0..100: 100 at 1 EUR/kg or less, 0 at 25 EUR/kg or more |
| UseCaseScoring.ClampCostMonotone | src/lib/engine/generate.ts:23-28 | a dearer material never gets a better cost score |
| UseCaseScoring.FilterMaterials | src/lib/engine/generate.ts:30-43 | keeps exactly the catalog materials that break none of the four constraints |
| UseCaseScoring.FilterKeepsAdmissible | src/lib/engine/generate.ts:30-43 | a catalog that meets the constraints passes the filter unchanged |
| UseCaseScoring.FilterWithoutConstraints | src/lib/engine/generate.ts:31-41 | without constraints, nothing is filtered out |
| UseCaseScoring.FilterIdempotent | src/lib/engine/generate.ts:30-43 | filtering twice gives the same list as filtering once |
| UseCaseScoring.FilterMaterialsAppend | src/lib/engine/generate.ts:30-43 | filtering a concatenation is the concatenation of the filtered halves |
| UseCaseScoring.FilterMaterialsSingle | src/lib/engine/generate.ts:30-43 | a single material is kept exactly when it breaks no constraint |
| UseCaseScoring.CategoryFamilyInjective | src/lib/engine/generate.ts:45-52 | the six categories map to six distinct family names |
| UseCaseScoring.CeilingClass | src/lib/engine/generate.ts:58 | a numeric risk ceiling maps to low (<= 4), medium (<= 7) or high |
| UseCaseScoring.MergeConstraints | src/lib/engine/generate.ts:54-65 | keeps every input constraint except the microplastic ceiling, which becomes the stricter of the input's and the use case's |
| UseCaseScoring.BiasFactor | src/lib/engine/generate.ts:71 | a bias factor lies in [1, 2.5] and is 1 for unbiased metrics |
| UseCaseScoring.AdjustWeightsForUseCase | src/lib/engine/generate.ts:67-77 | the biased weights are renormalised to sum 1; if their sum is not positive, the base weights are returned |
| UseCaseScoring.AdjustWeightsPositive | src/lib/engine/generate.ts:67-77 | positive base weights give positive adjusted weights summing to 1 |
| UseCaseScoring.AdjustWithoutBias | src/lib/engine/generate.ts:67-77 | a use case without bias leaves normalised weights unchanged |
| UseCaseScoring.AveragesInRange | src/lib/engine/generate.ts:207-211 | with in-range properties and TRL, the performance, sustainability and feasibility figures lie in 0..100 |
| UseCaseScoring.ObjectiveBounds | src/lib/engine/generate.ts:79-96 | the use-case objective lies between 0 and the sum of the use case's score weights |
| UseCaseScoring.Excess | src/lib/engine/generate.ts:108-113 | the shortfall is non-negative and positive exactly when the bound is exceeded |
| UseCaseScoring.ConstraintPenalty | src/lib/engine/generate.ts:105-114 | the penalty is never positive; it is negative exactly when the candidate breaks one of the four end-of-life constraints; it is 0 without constraints, at least 0.12 for a forbidden elastomer and at least 0.05 for a non-monomaterial blend |
| UseCaseScoring.FamilyShareBounds | src/lib/engine/generate.ts:121-127 | a family share lies between 0 and the composition total |
| UseCaseScoring.PreferenceAdjustmentBounds | src/lib/engine/generate.ts:116-130 | the preferred/discouraged adjustment lies in [-0.1, 0.09] |
| UseCaseScoring.FamilyShareAppend | src/lib/engine/generate.ts:121-127 | the family share of a concatenation is the sum of the halves' shares |
| UseCaseScoring.FamilyShareSingle | src/lib/engine/generate.ts:121-127 | one part adds its percentage exactly when its material is known and its family is listed |
| UseCaseScoring.PreferenceOfPart | src/lib/engine/generate.ts:116-130 | one known part of a preferred family adds pct/100 × 0.09, of a discouraged one subtracts pct/100 × 0.1, and of an unlisted one adds nothing |
| UseCaseScoring.SportswearPreferences | src/lib/config/useCases.ts:28 | under the sportswear profile a pure cellulosic blend gains 0.09, a pure protein blend loses 0.1 and a pure synthetic one is unchanged |
| UseCaseScoring.BiodegradablePreferences | src/lib/config/useCases.ts:203 | under the biodegradable-products profile a pure natural blend gains 0.09, a pure synthetic one loses 0.1 and a pure protein one is unchanged |
| UseCaseScoring.ApplyUseCasePenaltiesAndBonuses | src/lib/engine/generate.ts:98-136 | the adjustment is below the preference adjustment plus the bonuses exactly when an end-of-life constraint is broken, and by at least 0.12 for a forbidden elastomer; it is 0 for a use case with no constraints, preferences or bonuses |
| UseCaseScoring.To10Monotone | src/lib/engine/generate.ts:202-204 | the 0..10 rescaling keeps order |
| UseCaseScoring.ComputeCompositeScores | src/lib/engine/generate.ts:206-220 | the three sub-scores lie in 0..10 |
| UseCaseScoring.OverallInRange | src/lib/engine/generate.ts:212 | the overall score lies in 0..100 for in-range candidates |
| Sorting.SortDesc | src/lib/engine/generate.ts:447-448 | the sort is a permutation ordered by decreasing key |
| Sorting.SortDescStable | src/lib/engine/generate.ts:447-448 | items with equal keys keep their relative order |
| Sorting.SortAndRank | src/lib/engine/generate.ts:447-450 | the result is the input reordered by decreasing score, with ranks 1, 2, … in order |
| Sorting.SortAndRankFrom | src/lib/engine/generate.ts:447-450 | every ranked candidate is an input candidate with only its rank replaced |
| Sorting.SortAndRankKeeps | src/lib/engine/generate.ts:447-450 | every input candidate appears in the ranking |
| Sorting.PrefixBound | src/lib/engine/generate.ts:359 | an item cut off by a prefix of a descending list is no better than the last kept item |
| Generate.RoundComposition | src/lib/engine/generate.ts:158-164 | rounding keeps ids and names and makes the shares total exactly 100; every share but the first is whole and within half a point |
| Generate.RoundCompositionWhole | src/lib/engine/generate.ts:158-164 | whole shares that already total 100 are left unchanged |
| Generate.Split | src/lib/engine/generate.ts:167-171 | base share 50..70, secondary share 20..40 leaving at least 5 for the additive, total 100 |
| Generate.MakeComposition | src/lib/engine/generate.ts:166-178 | three parts naming base, secondary and additive, with whole shares in those bands, summing to 100 |
| Generate.EveryBaseShareReachable | src/lib/engine/generate.ts:167 | every base share from 50 to 70 is produced by some draw |
| Generate.Overwritten | src/lib/engine/generate.ts:376-382 | cost becomes the cost score of the mean price; scalability becomes TRL × 11.11 to one decimal; the rest is the prediction |
| Generate.EnginePenalty | src/lib/engine/generate.ts:403-406 | the engine penalty is never positive and at most 0.31 for circularity in 0..10 |
| Generate.EnginePenaltyZero | src/lib/engine/generate.ts:403-406 | no penalty exactly when supply risk is not high, TRL >= 6, circularity is 10 and the pathway is not landfill |
| Generate.Assess | src/lib/engine/generate.ts:374-444 | a candidate keeps its rank and composition and has every figure on its scale |
| Generate.Additive | src/lib/engine/generate.ts:366-371 | the additive is an admitted material, taken from the pool whenever the pool is not empty |
| Generate.Composed | src/lib/engine/generate.ts:363-373 | each drawn composition is sound: three admitted parts, shares in their bands, total 100 |
| Generate.Compositions | src/lib/engine/generate.ts:363-373 | the loop draws six sound compositions |
| Generate.Top | src/lib/engine/generate.ts:356-359 | keeps min(14, n) admitted materials, each at most as often as it is admitted, in decreasing similarity to the target |
| Generate.MostSimilar | src/lib/engine/generate.ts:356-359 | keeps the requested number of materials, a sub-multiset of the input, in decreasing similarity; no material left out beats the last one kept |
| Generate.KeptBeatsRest | src/lib/engine/generate.ts:358-359 | no dropped material is more similar than the last kept one |
| Generate.KeptWithin | src/lib/engine/generate.ts:356-359 | the kept materials form a sub-multiset of the input list |
| Generate.FirstsPerm | src/lib/engine/generate.ts:357-358 | sorting the (material, similarity) pairs permutes the materials they carry |
| Generate.AdditivePool | src/lib/engine/generate.ts:366-370 | the pool is exactly the bio-polymers, synthetics and cellulosics, without elastomers when the use case forbids elastane |
| Generate.AdditivePoolAppend | src/lib/engine/generate.ts:366-370 | the pool of a concatenation is the concatenation of the halves' pools |
| Generate.AdditivePoolSingle | src/lib/engine/generate.ts:366-370 | a single material enters the pool exactly when it is an admissible additive |
| Generate.GenerateCandidates | src/lib/engine/generate.ts:341-451 | fails exactly when fewer than three materials pass the constraints; otherwise returns six sound candidates, best first, ranked 1 to 6 |
| Generate.RankingKeepsSound | src/lib/engine/generate.ts:447-450 | sorting and ranking keeps every candidate sound |
| Derived.Rescored | src/lib/engine/generate.ts:300-311 | only the score changes; the new score lies on the 0.0001 grid within half a step of 0.8 × old score + 0.2 × objective bonus |
| Derived.RerankByObjective | src/lib/engine/generate.ts:299-316 | the rescored candidates, reordered by decreasing new score and ranked 1, 2, … |
| Derived.RerankFromInputs | src/lib/engine/generate.ts:299-316 | every reranked entry is some input rescored and renumbered |
| Derived.RerankKeepsEveryInput | src/lib/engine/generate.ts:299-316 | every input appears in the reranking |
| Derived.FindById | src/lib/engine/generate.ts:330-331 | returns the first material with the id, and None exactly when there is none |
| Derived.FindSimilarMaterialsFromCatalog | src/lib/engine/generate.ts:329-339 | empty for an unknown id; otherwise up to `limit` other materials in decreasing similarity, none of the rest beating the last one |
| Derived.FindSimilarWithin | src/lib/engine/generate.ts:329-339 | for a known id, the similar materials form a sub-multiset of the other catalog materials |
| Derived.OthersAppend | src/lib/engine/generate.ts:334 | leaving out the target id distributes over concatenation |
| Derived.OthersSingle | src/lib/engine/generate.ts:334 | a single material is kept exactly when its id differs from the target's |
| Derived.PerformanceDistanceSymmetric | src/lib/engine/generate.ts:453-457 | the performance distance is symmetric and zero from a candidate to itself |
| Derived.PerformanceDistanceBounds | src/lib/engine/generate.ts:453-457 | for in-range properties, the distance lies in 0..100 |
| Derived.AlternativeInput | src/lib/engine/generate.ts:464-481 | the input is unchanged except for the boosted weights and a microplastic ceiling of medium |
| Derived.BoostedOrder | src/lib/engine/generate.ts:464-469 | the boosted weights order metrics exactly as their boosted raw values |
| Derived.Best | src/lib/engine/generate.ts:489-493 | None exactly when no alternative is eligible; otherwise the first eligible one that no other eligible one beats |
| Derived.PickAlternative | src/lib/engine/generate.ts:483-497 | the pick gains more than 0.4 in circularity, is within 16 performance points and is the best such, the earliest among ties; none exactly when none qualifies |
| Derived.SuggestMoreRecyclableAlternative | src/lib/engine/generate.ts:459-498 | an alternative, when found, is more circular by over 0.4, within 16 performance points, and its explanation names the base candidate's rank |
| UseCaseTable.NormalizeScoreWeights | src/lib/config/useCases.ts:3-17 | each score weight becomes a value on the 0.0001 grid within half a step of its share of the total, so the weights add up to 1 within 0.00025; a non-positive total leaves the profile unchanged |
| UseCaseTable.LookupIn | src/lib/config/useCases.ts:209 | a `Map` built from the list finds an id exactly when the list has it, and returns the last entry with that id |
| UseCaseTable.UseCaseIds | src/lib/config/useCases.ts:19-209 | there are 18 profiles with distinct ids, and registered ids are exactly theirs |
| UseCaseTable.EmptyIdUnregistered | src/lib/config/useCases.ts:19-209 | the empty string is not a registered id |
| UseCaseTable.Lookup | src/lib/config/useCases.ts:209 | lookup succeeds exactly for registered ids, returning the profile with that id |
| UseCaseTable.DefaultUseCase | src/lib/config/useCases.ts:211 | the default id "sportswear" names a registered profile |
| UseCaseTable.BiasesInUnitRange | src/lib/config/useCases.ts:19-205 | every configured property bias lies in [0, 1] |
| UseCaseTable.WeightsNormalised | src/lib/config/useCases.ts:207 | every registered profile's score weights add up to 1 within rounding |
| UseCaseTable.CategoryLabelsDistinct | src/lib/config/useCases.ts:213-219 | the five category labels are non-empty and distinct |
| UseCaseLookup.NormalizeLegacyKey | src/lib/use-cases.ts:27-29 | the key has the length of the trimmed input; each of its characters is a dash where the trimmed input has an underscore or a space, and the lower-cased input character elsewhere |
| UseCaseLookup.NormalizeLegacyKeyIdempotent | src/lib/use-cases.ts:27-29 | normalising a normalised key changes nothing |
| UseCaseLookup.TableTargetsRegistered | src/lib/use-cases.ts:4-25 | every legacy and alias target is a registered use-case id |
| UseCaseLookup.OnlyConstructorReachable | src/lib/use-cases.ts:33-34 | the only inherited property a normalised key can reach is `constructor` |
| UseCaseLookup.ConstructorLabelLeaks | src/lib/use-cases.ts:31-35 | as written, a label that normalises to "constructor" yields the inherited `Object` function, not an id |
| UseCaseLookup.MapLegacyUseCaseId | src/lib/use-cases.ts:31-35 | empty or missing gives the default; a legacy key gives its mapping; anything else gives the default; the result is always a registered id |
| UseCaseLookup.MapLegacyAgrees | src/lib/use-cases.ts:31-35 | the corrected mapping agrees with the code as written whenever that returns a string, and gives the default where it leaks |
| UseCaseLookup.LongLabelIsDefault | src/lib/use-cases.ts:31-35 | any label whose normalised key is longer than 10 characters maps to the default |
| UseCaseLookup.ResolveUseCaseId | src/lib/use-cases.ts:37-44 | a registered id wins, then an alias of the id, then the legacy mapping of the label; the result is always registered |
| UseCaseLookup.ResolveAgrees | src/lib/use-cases.ts:37-44 | the corrected resolution agrees with the code as written wherever that yields a string |
| UseCaseLookup.ResolveLeaks | src/lib/use-cases.ts:37-44 | as written, resolving without an id and with a label that normalises to "constructor" returns a non-string |
| UseCaseLookup.GetUseCaseById | src/lib/use-cases.ts:46-49 | a registered id gives its profile; anything else gives the default profile |
| UseCaseLookup.ResolvedProfileAgrees | src/lib/use-cases.ts:46-49 | the profile looked up is the same for the leaking and the corrected resolution |
| UseCaseLookup.SearchNormalize | src/lib/use-cases.ts:51-53 | a normalised query has no dash, underscore or ASCII capital, and no surrounding whitespace |
| UseCaseLookup.SearchNormalizeCuts | src/lib/use-cases.ts:51-53 | the normalised query is the lower-cased text with dashes and underscores blanked, cut where the leading and trailing blanks end; everything cut away is blank |
| UseCaseLookup.SearchCharsReplace | src/lib/use-cases.ts:52 | the per-character map equals lower-casing followed by the two `replaceAll` calls |
| UseCaseLookup.SearchCharBlank | src/lib/use-cases.ts:52 | a character becomes whitespace exactly when it is whitespace, a dash or an underscore |
| UseCaseLookup.FilterUseCases | src/lib/use-cases.ts:62-68 | keeps exactly the profiles of the chosen category whose text contains the query, and only those |
| UseCaseLookup.FilterUseCasesAppend | src/lib/use-cases.ts:62-68 | filtering a concatenation is the concatenation of the filtered halves |
| UseCaseLookup.FilterUseCasesSingle | src/lib/use-cases.ts:62-68 | a single profile is kept exactly when it matches the category and the query |
| UseCaseLookup.FilterKeepsAll | src/lib/use-cases.ts:62-68 | with "ALL" and an empty query, every profile is kept in order |
| UseCaseLookup.GroupByCategoryCorrect | src/lib/use-cases.ts:70-77 | groups have distinct categories; they list exactly the categories present, in order of first appearance; each group holds its category's items in list order |
| UseCaseLookup.InExactlyOneGroup | src/lib/use-cases.ts:70-77 | each listed profile is in its own category's group and in no other |
| UseCaseLookup.GetUseCaseGroups | src/lib/use-cases.ts:55-78 | the result is the grouping of the filtered profiles |
| UseCaseLookup.EmptyQueryListsAll | src/lib/use-cases.ts:55-78 | without options, every registered profile appears in exactly its category's group |
| Conflicts.SliderValue | src/lib/conflicts.ts:10-13 | a slider reads as its value, or 50 when absent |
| Conflicts.Severity | src/lib/conflicts.ts:25-47 | only the elasticity/biodegradability warning is high; none is low |
| Conflicts.WarningIdsDistinct | src/lib/conflicts.ts:22-44 | two warnings share an id exactly when they are the same conflict |
| Conflicts.Triggers | src/lib/conflicts.ts:15-51 | a conflict is reported exactly when both of its sliders reach its threshold, in the fixed check order |
| Conflicts.DetectConflicts | src/lib/conflicts.ts:15-51 | one warning per triggered conflict, in check order, at most three |
| Conflicts.DetectConflictsExactly | src/lib/conflicts.ts:18-49 | a warning is present exactly when both sliders of its pair reach the threshold (75, 80, 80) |
| Conflicts.DetectIdsDistinct | src/lib/conflicts.ts:15-51 | no two warnings of one call share an id |
| Conflicts.HighSeverityIsElasticity | src/lib/conflicts.ts:20-26 | a reported warning is high-severity exactly when it is the elasticity/biodegradability one |
| Conflicts.BalancedHasNoConflicts | src/lib/conflicts.ts:20-42 | sliders all below 75 raise no warning |
| Conflicts.DetectMonotone | src/lib/conflicts.ts:20-42 | raising sliders never clears a warning |
| SessionStore.Save | src/lib/store.ts:14-17 | the new record comes first, followed by the older ones; the list is cut to 50, dropping the oldest |
| SessionStore.History | src/lib/store.ts:19-21 | a history page is the newest `limit` sessions, or all of them |
| SessionStore.FindById | src/lib/store.ts:23-25 | returns the first (newest) session with the id, and None exactly when there is none |
| SessionStore.SaveKeepsBound | src/lib/store.ts:14-17 | the store never holds more than 50 sessions; it is full after a save exactly when it held 49 or more |
| SessionStore.SaveIntoFullDropsOldest | src/lib/store.ts:14-17 | saving into a full store forgets exactly the oldest session |
| SessionStore.SaveBelowCapKeepsAll | src/lib/store.ts:14-17 | below the cap, a save keeps every older session |
| SessionStore.FindAfterSave | src/lib/store.ts:14-25 | right after a save, looking up its id returns that record, even if an older record shares the id |
| SessionStore.FindOtherAfterSave | src/lib/store.ts:14-25 | below the cap, a save does not change what other ids resolve to |
| SessionStore.HistoryStartsWithLatest | src/lib/store.ts:14-21 | the newest session heads every non-empty history page |
| SessionStore.DefaultHistory | src/lib/store.ts:19-21 | the default page holds the 20 newest sessions |
| Numerals.Matches | src/lib/materials-db.ts:49 | every number found in the text is non-negative |
| Numerals.MatchesEmptyIffNoDigit | src/lib/materials-db.ts:49-50 | the scan finds nothing exactly when the text has no digit |
| Numerals.MatchesOfWholeNumber | src/lib/materials-db.ts:49 | the decimal text of n yields exactly [n] |
| Numerals.MatchesOfRange | src/lib/materials-db.ts:49 | "a-b"-style text with a digit-free separator yields exactly [a, b] |
| Numerals.MatchesOfDecimal | src/lib/materials-db.ts:49 | a decimal "a.f" is read as one number, a plus f over ten to the length of f |
| Numerals.MatchesOfDecimalRange | src/lib/materials-db.ts:49 | two decimals with a digit-free separator between them yield exactly those two numbers |
| MaterialsDb.Clamp100 | src/lib/materials-db.ts:41-45 | a non-finite value gives the fallback; a finite one is clamped into 0..100 |
| MaterialsDb.Clamp100Monotone | src/lib/materials-db.ts:41-45 | clamping keeps order |
| MaterialsDb.Clamp100Idempotent | src/lib/materials-db.ts:41-45 | clamping a clamped value changes nothing |
| MaterialsDb.ParseMidRange | src/lib/materials-db.ts:47-53 | None exactly when the text is missing or has no digit; otherwise a non-negative number |
| MaterialsDb.MidRangeOfNumber | src/lib/materials-db.ts:51 | a single number reads as itself |
| MaterialsDb.MidRangeOfRange | src/lib/materials-db.ts:52 | a range "a–b" reads as its midpoint |
| MaterialsDb.MidRangeOfDecimal | src/lib/materials-db.ts:51 | a single decimal "a.f" reads as its value |
| MaterialsDb.MidRangeOfDecimalRange | src/lib/materials-db.ts:52 | a range of two decimals reads as their midpoint |
| MaterialsDb.MidRangeExample | src/lib/materials-db.ts:49-52 | "1.5-2.5" reads as 2.0 |
| MaterialsDb.LevelScoreNoneIff | src/lib/materials-db.ts:57-62 | a level text scores nothing exactly when it mentions none of high, medium or low |
| MaterialsDb.LevelToScore | src/lib/materials-db.ts:55-63 | a missing or empty text gives the fallback; otherwise one of 92, 85, 75, 55, 40 or 25, or the fallback; 65 never arises from a text |
| MaterialsDb.InverseToScoreRange | src/lib/materials-db.ts:65-68 | 100 at or below min and 0 at or above max; in 0..100 between them; 50 when min = max |
| MaterialsDb.InverseToScoreLinear | src/lib/materials-db.ts:65-68 | between min and max the score lies on the line from 100 at min to 0 at max: score × (max − min) = (max − value) × 100 |
| MaterialsDb.InverseToScoreAntitone | src/lib/materials-db.ts:65-68 | a larger impact never scores better |
| MaterialsDb.ExactCategory | src/lib/materials-db.ts:72 | an exact category name is recognised, and nothing else is |
| MaterialsDb.MapCategory | src/lib/materials-db.ts:70-79 | an exact name maps to itself; any other text maps by keyword on its lower-case form |
| MaterialsDb.MapCategoryRoundTrip | src/lib/materials-db.ts:70-79 | every category's own name maps back to it |
| MaterialsDb.MapCategoryIgnoresCase | src/lib/materials-db.ts:71-78 | apart from exact names, case does not matter |
| MaterialsDb.LegacyProperties | src/lib/materials-db.ts:82-85 | every property lies in 0..100: 50 when missing, the stored value when in range |
| MaterialsDb.ToLegacyMaterial | src/lib/materials-db.ts:81-106 | keeps id and name; maps the category; each property is the stored value when in range and 50 when missing, clamped otherwise; the classes default to medium; defaults LCA to 5/2000/40, costs to 3/8 and TRL to 6; an animal fibre only when stored as true |
| MaterialsDb.EmptyLegacyRow | src/lib/materials-db.ts:84-104 | an empty row becomes a material with all properties 50 and all defaults |
| MaterialsDb.SustainabilityScore | src/lib/materials-db.ts:117 | the 0–5 rating times 20, clamped into 0..100, is 50 when missing |
| MaterialsDb.ImpactScoreRange | src/lib/materials-db.ts:131-133 | impact-based scores lie in 0..100 |
| MaterialsDb.SustaidProperties | src/lib/materials-db.ts:124-139 | every derived property lies in 0..100 |
| MaterialsDb.BiodegradabilityClass | src/lib/materials-db.ts:146-147 | high exactly at >= 70, medium exactly in [45, 70), low exactly below 45 |
| MaterialsDb.SustaidConstraints | src/lib/materials-db.ts:141-147 | microplastic risk is high exactly for synthetics; an animal fibre exactly for proteins |
| MaterialsDb.TrlMonotone | src/lib/materials-db.ts:166 | a higher scalability never gives a lower TRL |
| MaterialsDb.CostBand | src/lib/materials-db.ts:164-165 | the cost band's minimum never exceeds its maximum |
| MaterialsDb.ToSustaidMaterial | src/lib/materials-db.ts:108-168 | keeps id and name; all properties in 0..100; cost band ordered; TRL a whole number in 3..9; risk and animal fibre follow the category; the biodegradability class follows its score |
| MaterialsDb.ZeroEmissionsFallsBack | src/lib/materials-db.ts:131 | a stated emission of 0 is falsy, so the CO2 score falls back to the sustainability score, while the LCA keeps 0 |
| PageState.ClampPercent | src/app/page.tsx:63-66 | non-finite gives 0; otherwise the rounded value clamped into 0..100 |
| PageState.ClampPercentIdempotent | src/app/page.tsx:63-66 | clamping a clamped percentage changes nothing |
| PageState.ClampPercentMonotone | src/app/page.tsx:63-66 | clamping keeps order |
| PageState.BuildWeights | src/app/page.tsx:76-83 | weights exist only in advanced mode: 3 for priorities, 1 elsewhere |
| PageState.PrioritiesWeighMore | src/app/page.tsx:76-83 | after normalisation, a priority weighs three times a non-priority, and priorities weigh the same |
| PageState.Remove | src/app/page.tsx:87 | removing keeps exactly the other elements, keeps distinctness, and shortens a distinct list by one |
| PageState.RemoveKeepsOrder | src/app/page.tsx:95 | removing from an ascending list leaves it ascending |
| PageState.TogglePriority | src/app/page.tsx:85-91 | the metric's membership flips; no foreign metric enters; at most three priorities; no duplicates; a new metric is appended after the old list, minus its oldest entry when three were held |
| PageState.TogglePriorityKeepsOthers | src/app/page.tsx:85-91 | other metrics stay, except the oldest one when a fourth is added |
| PageState.TogglePriorityTwice | src/app/page.tsx:85-91 | toggling a new metric twice, below the cap, restores the list |
| PageState.SortAscending | src/app/page.tsx:97 | the sort is an ascending permutation |
| PageState.ToggleCompare | src/app/page.tsx:93-99 | keeps the selection distinct, ascending and at most four; the rank is selected exactly when it was not and room remained; other ranks are unchanged |
| PageState.TwoSelectionsCompare | src/app/page.tsx:93-99 | selecting two ranks in either order gives them ascending, enough to compare |

## Left out

- I/O is not modelled: the API routes, Supabase queries, `localStorage`, `fetch` and React rendering. These include `getMaterialCatalog` and the database fallback, and the JSX of `page.tsx`, whose pure helpers are modelled.
- `findSimilarMaterials` is not modelled. It is `findSimilarMaterialsFromCatalog` over the built-in catalog, and `src/lib/materials.ts` is not part of this model.
- `buildExplanation` text, manufacturing notes, risks and circularity notes are kept as tags, not strings. Their wording carries no logic.
- IEEE doubles, `NaN` and `Infinity` are not modelled beyond the `Num` datatype. Floating-point rounding of intermediate sums is ignored, so `toFixed` is applied to exact reals.
- `Number(string)` parsing of database fields is not modelled. The row fields arrive already parsed, as `Num` or `Option<real>`.
- `Math.sqrt` and `JSON.stringify` are not modelled. Both are passed in as parameters.
- Zod schemas and route-level validation are not modelled. The model's inputs are well typed.
- The `dyeability`, `moisture_absorption` and `primary_applications` fields of a Sustaid row are read by the source but never affect the resulting material, so they are dropped.
- Generate.RoundComposition: requires a non-empty list. On an empty list the source throws when it writes `rounded[0]`, and `makeComposition` always passes three parts.
- Generate.GenerateCandidates: states soundness, order and ranking of the six candidates, not the exact score formula. The formula appears only in `Assess`'s body.
- UseCaseScoring.ApplyUseCasePenaltiesAndBonuses: states exactly when the constraints lower the adjustment and the elastane amount, but not the exact sum. The preference part is stated per part by `PreferenceOfPart`, and additivity of the family shares by `FamilyShareAppend`.
- UseCaseScoring.ConstraintPenalty: gives lower bounds for the elastane and monomaterial rules only. The two gap penalties of 0.03 per point appear only as negative contributions that occur exactly when the gap is positive.
- Text.Lower: maps ASCII letters only. JavaScript's `toLowerCase` also maps other scripts, and its full Unicode mapping can change the length: U+0130 becomes two code units, and the Kelvin sign U+212A becomes "k". The keys and queries it is applied to here are ASCII in the source's tables, so only free-text queries with such characters would differ.
- Text.Upper: maps ASCII letters only, for the same reason. The family names it is applied to are ASCII.
- Circularity.EvaluateCircularity: the recyclability bound needs an in-range prediction, as the source's own inputs are.
- Derived.SuggestMoreRecyclableAlternative: generation is done once, with the same seed procedure. The model does not state which of the six candidates is chosen; `PickAlternative` does.
- SessionStore: the `LocalStore` class wraps the three operations with mutable state. Its contracts use `old` and `modifies`, so the properties are stated on the pure `Save`, `History` and `FindById`.
- MaterialsDb.ToLegacyMaterial: the two class columns of a legacy row are free text that the source only casts to a level, so the model takes them to hold low, medium or high. Other stored text, such as "High", would become the material's class in the source and pass every class filter: `=== "low"` is false for it and its microplastic order is `undefined`. `Level` cannot represent such a value.
- Default parameters (`limit = 20`, `fallback = 50`) are modelled as explicit arguments plus a lemma for the default.

## Findings

| source | as written | input that shows it | evidently intended | confidence | as-written member | corrected member |
|---|---|---|---|---|---|---|
| src/lib/use-cases.ts:31-35 | `legacyMap[normalized] ?? DEFAULT_USE_CASE_ID` reads a plain object literal, so a key such as `constructor` finds the inherited `Object` function, which is not nullish | `use_case: "Constructor"` (or `" constructor "`) with no `use_case_id` | unknown labels fall back to `"sportswear"`, so the function always returns a use-case id | not executed | UseCaseLookup.ConstructorLabelLeaks | UseCaseLookup.MapLegacyUseCaseId |

The leak does not change which profile generation uses: `getUseCaseById` misses on the function and falls back to the default, as `UseCaseLookup.ResolvedProfileAgrees` states. It does break the string return type of `mapLegacyUseCaseId` and `resolveUseCaseId` (`UseCaseLookup.ResolveLeaks`). The rest of the model uses the corrected `MapLegacyUseCaseId`.

A few points of the source that the model follows closely:

- the hemp and elastane synergy rules clamp to 0..100 after every adjustment, not once at the end (src/lib/engine/rules.ts:19-28);
- a candidate's scalability is the TRL estimate times 11.11, rounded with `toFixed(1)` and not clamped (src/lib/engine/generate.ts:382);
- candidates with the same composition are all kept: the six best are sorted and sliced with no merging step (src/lib/engine/generate.ts:447-450);
- each predicted property is rounded with `toFixed(1)` first and clamped to 0..100 after (src/lib/engine/predict.ts:37).
