/** The pure state updates of the composer page (src/app/page.tsx): slider
    clamping, the advanced-mode weights, and the two bounded selections
    (priority metrics and candidates to compare). */
module PageState {
  import opened Js
  import opened Types
  import opened Normalize
  import opened Sorting

  /** `clampPercent`: non-finite input becomes 0, anything else is rounded
      and clamped to a whole percentage. */
  function ClampPercent(value: Num): (r: int)
    ensures 0 <= r <= 100
    ensures value.NonFinite? ==> r == 0
    ensures value.Finite? && 0 <= MathRound(value.value) <= 100 ==> r == MathRound(value.value)
    ensures value.Finite? && MathRound(value.value) < 0 ==> r == 0
    ensures value.Finite? && MathRound(value.value) > 100 ==> r == 100
  {
    match value
    case NonFinite => 0
    case Finite(x) =>
      var k := MathRound(x);
      if k > 100 then 100 else if k < 0 then 0 else k
  }

  /** A clamped slider value is a fixed point of the clamp. */
  lemma ClampPercentIdempotent(value: Num)
    ensures ClampPercent(Finite(ClampPercent(value) as real)) == ClampPercent(value)
  {
    FloorOfHalfAbove(ClampPercent(value));
  }

  /** Sliding further never lowers the stored value. */
  lemma ClampPercentMonotone(x: real, y: real)
    requires x <= y
    ensures ClampPercent(Finite(x)) <= ClampPercent(Finite(y))
  {
    FloorMonotone(x + 0.5, y + 0.5);
  }

  /** `buildWeights`: no weights outside advanced mode; otherwise 1 for
      every metric and 3 for each selected priority. */
  function BuildWeights(advanced: bool, priorities: seq<Metric>): (r: Option<MetricRecord>)
    ensures r.Some? <==> advanced
    ensures r.Some? ==> forall m | m in MetricSet :: r.value[m] == if m in priorities then 3.0 else 1.0
  {
    if !advanced then None
    else Some(map m | m in MetricSet :: if m in priorities then 3.0 else 1.0)
  }

  /** After normalisation a priority metric weighs three times as much as
      any other metric, and all priorities weigh the same. */
  lemma PrioritiesWeighMore(priorities: seq<Metric>, a: Metric, b: Metric)
    ensures var w := NormalizeWeights(BuildWeights(true, priorities));
      && (a in priorities && b !in priorities ==> w[a] == 3.0 * w[b])
      && (a in priorities && b in priorities ==> w[a] == w[b])
  {
    var weights := BuildWeights(true, priorities);
    MetricInSet(a);
    MetricInSet(b);
    var t := Total(RawWeights(weights));
    var w := NormalizeWeights(weights);
    assert RawWeight(weights, a) == if a in priorities then 3.0 else 1.0;
    assert RawWeight(weights, b) == if b in priorities then 3.0 else 1.0;
    if a in priorities && b !in priorities {
      assert w[a] == 3.0 / t && w[b] == 1.0 / t;
      ThirdOf(t);
    }
  }

  lemma ThirdOf(t: real)
    requires t > 0.0
    ensures 3.0 / t == 3.0 * (1.0 / t)
  {}

  /** No value occurs twice. */
  predicate Distinct<T(==)>(s: seq<T>)
  {
    forall i, j | 0 <= i < j < |s| :: s[i] != s[j]
  }

  /** `s.filter((y) => y !== x)`. */
  function Remove<T(==,!new)>(s: seq<T>, x: T): (r: seq<T>)
    ensures |r| <= |s|
    ensures forall y :: y in r <==> y in s && y != x
    ensures Distinct(s) ==> Distinct(r)
    ensures x !in s ==> r == s
    ensures x in s && Distinct(s) ==> |r| == |s| - 1
  {
    if |s| == 0 then []
    else if s[0] == x then
      assert Distinct(s) ==> x !in s[1..];
      Remove(s[1..], x)
    else
      var rest := Remove(s[1..], x);
      assert s[0] !in rest ==> Distinct(s[1..]) ==> Distinct([s[0]] + rest);
      assert Distinct(s) ==> s[0] !in s[1..];
      [s[0]] + rest
  }

  predicate Ascending(s: seq<int>)
  {
    forall i, j | 0 <= i < j < |s| :: s[i] < s[j]
  }

  /** Removing keeps the relative order of what is left. */
  lemma {:induction false} RemoveKeepsOrder(s: seq<int>, x: int)
    requires Ascending(s)
    ensures Ascending(Remove(s, x))
  {
    if |s| > 0 {
      assert Ascending(s[1..]);
      RemoveKeepsOrder(s[1..], x);
      var rest := Remove(s[1..], x);
      if s[0] != x {
        var r := [s[0]] + rest;
        assert Remove(s, x) == r;
        forall i, j | 0 <= i < j < |r| ensures r[i] < r[j] {
          if i == 0 {
            assert rest[j - 1] in rest;
            HeadBelowRest(s, rest[j - 1]);
            assert r[0] == s[0] && r[j] == rest[j - 1];
          } else {
            assert r[i] == rest[i - 1] && r[j] == rest[j - 1];
            assert rest[i - 1] < rest[j - 1];
          }
        }
      } else {
        assert Remove(s, x) == rest;
      }
    }
  }

  lemma HeadBelowRest(s: seq<int>, y: int)
    requires |s| > 0 && Ascending(s)
    requires y in s[1..]
    ensures s[0] < y
  {
    var k :| 0 <= k < |s[1..]| && s[1..][k] == y;
    assert s[k + 1] == y;
  }

  /** At most this many priority metrics are kept. */
  const MaxPriorities: nat := 3

  /** `togglePriority`: a selected metric is deselected; a new one is
      appended, pushing out the oldest selection when three are held. */
  function TogglePriority(prev: seq<Metric>, metric: Metric): (r: seq<Metric>)
    ensures metric in r <==> metric !in prev
    ensures forall m | m != metric && m in r :: m in prev
    ensures |prev| <= MaxPriorities ==> |r| <= MaxPriorities
    ensures Distinct(prev) ==> Distinct(r)
    ensures metric !in prev ==>
      && |r| > 0 && r[|r| - 1] == metric
      && r[..|r| - 1] == (if |prev| >= MaxPriorities then prev[1..] else prev)
  {
    if metric in prev then Remove(prev, metric)
    else if |prev| >= MaxPriorities then prev[1..] + [metric]
    else prev + [metric]
  }

  /** Toggling a metric only adds or removes that metric, except that
      adding to a full selection drops its oldest entry. */
  lemma TogglePriorityKeepsOthers(prev: seq<Metric>, metric: Metric, m: Metric)
    requires m != metric && Distinct(prev)
    ensures m in TogglePriority(prev, metric) <==>
      m in prev && !(metric !in prev && |prev| >= MaxPriorities && m == prev[0])
  {
    if metric !in prev && |prev| >= MaxPriorities && m in prev && m != prev[0] {
      var i :| 0 <= i < |prev| && prev[i] == m;
      assert prev[1..][i - 1] == m;
    }
  }

  /** Toggling twice restores a selection that had room for the metric. */
  lemma TogglePriorityTwice(prev: seq<Metric>, metric: Metric)
    requires metric !in prev && |prev| < MaxPriorities
    ensures TogglePriority(TogglePriority(prev, metric), metric) == prev
  {
    RemoveAppended(prev, metric);
  }

  lemma {:induction false} RemoveAppended<T(!new)>(s: seq<T>, x: T)
    requires x !in s
    ensures Remove(s + [x], x) == s
  {
    if |s| > 0 {
      assert (s + [x])[1..] == s[1..] + [x];
      RemoveAppended(s[1..], x);
    }
  }

  /** At most this many candidates can be compared. */
  const MaxCompare: nat := 4

  /** A compare selection: at most four ranks, strictly ascending. */
  predicate CompareValid(s: seq<int>)
  {
    |s| <= MaxCompare && Ascending(s)
  }

  function NegRank(r: int): real { -(r as real) }

  /** `[...xs].sort((a, b) => a - b)`: ascending order, as a stable
      descending sort on the negated value. */
  function SortAscending(xs: seq<int>): (r: seq<int>)
    ensures multiset(r) == multiset(xs)
    ensures forall x :: x in r <==> x in xs
    ensures forall i, j | 0 <= i < j < |r| :: r[i] <= r[j]
  {
    var r := SortDesc(xs, NegRank);
    assert forall i, j | 0 <= i < j < |r| :: NegRank(r[i]) >= NegRank(r[j]);
    assert forall x :: x in r <==> x in multiset(xs);
    r
  }

  /** A value occurs at most once in a duplicate-free sequence. */
  lemma {:induction false} DistinctCount<T>(s: seq<T>, x: T)
    requires Distinct(s)
    ensures multiset(s)[x] <= 1
  {
    if |s| > 0 {
      assert s == [s[0]] + s[1..];
      assert Distinct(s[1..]);
      DistinctCount(s[1..], x);
      if x == s[0] {
        assert x !in s[1..];
      }
    }
  }

  /** A value that occurs at two positions is counted twice. */
  lemma TwiceCounted<T>(b: seq<T>, i: nat, j: nat)
    requires i < j < |b| && b[i] == b[j]
    ensures multiset(b)[b[i]] >= 2
  {
    assert b == b[..j] + b[j..];
    assert b[i] in multiset(b[..j]);
    assert b[j] in multiset(b[j..]);
  }

  /** A rearrangement of a duplicate-free sequence has no duplicates. */
  lemma DistinctPermutation<T>(a: seq<T>, b: seq<T>)
    requires multiset(a) == multiset(b) && Distinct(a)
    ensures Distinct(b)
  {
    forall i, j | 0 <= i < j < |b| ensures b[i] != b[j] {
      DistinctCount(a, b[i]);
      if b[i] == b[j] {
        TwiceCounted(b, i, j);
      }
    }
  }

  /** Adding a new rank to a valid selection with room keeps it valid. */
  lemma AddRankValid(prev: seq<int>, rank: int)
    requires CompareValid(prev) && rank !in prev && |prev| < MaxCompare
    ensures CompareValid(SortAscending(prev + [rank]))
  {
    var xs := prev + [rank];
    var r := SortAscending(xs);
    assert Distinct(xs);
    DistinctPermutation(xs, r);
    assert |r| == |multiset(r)| == |multiset(xs)| == |xs|;
  }

  /** `toggleCompare`: a selected rank is deselected; a new one is ignored
      when four are held and otherwise added, keeping the list sorted. */
  function ToggleCompare(prev: seq<int>, rank: int): (r: seq<int>)
    ensures CompareValid(prev) ==> CompareValid(r)
    ensures CompareValid(prev) ==> (rank in r <==> rank !in prev && |prev| < MaxCompare)
    ensures forall x | x != rank :: x in r <==> x in prev
    ensures rank !in prev && |prev| < MaxCompare ==> |r| == |prev| + 1
  {
    if rank in prev then
      if CompareValid(prev) then
        RemoveKeepsOrder(prev, rank);
        Remove(prev, rank)
      else Remove(prev, rank)
    else if |prev| >= MaxCompare then prev
    else if CompareValid(prev) then
      AddRankValid(prev, rank);
      SortAscending(prev + [rank])
    else SortAscending(prev + [rank])
  }

  /** `canCompare`: two to four candidates are selected. */
  predicate CanCompare(ranks: seq<int>)
  {
    2 <= |ranks| <= MaxCompare
  }

  lemma PairInOrder(s: seq<int>, a: int, b: int)
    requires |s| == 2 && s[0] < s[1] && a in s && b in s && a != b
    ensures s == if a < b then [a, b] else [b, a]
  {
    if a < b {
      assert s[0] == a && s[1] == b;
    } else {
      assert s[0] == b && s[1] == a;
    }
  }

  /** The first selection is just that candidate. */
  lemma FirstSelection(a: int)
    ensures ToggleCompare([], a) == [a]
  {
    var s1 := ToggleCompare([], a);
    assert |s1| == 1 && a in s1;
  }

  /** Selecting two different candidates from nothing enables the compare
      view, in ascending order whatever the click order. */
  lemma TwoSelectionsCompare(a: int, b: int)
    requires a != b
    ensures var s := ToggleCompare(ToggleCompare([], a), b);
      CanCompare(s) && s == (if a < b then [a, b] else [b, a])
  {
    FirstSelection(a);
    var s := ToggleCompare([a], b);
    assert CompareValid([a]);
    assert |s| == 2 && a in s && b in s;
    PairInOrder(s, a, b);
  }
}
