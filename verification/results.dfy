/** The `Results` aggregator of one_max_genetic_algorithm_python/results.py:
    the outcomes of repeated runs of one configuration, their averages and a
    weighted score. */
module Aggregate {
  import opened Sums
  import opened Fitness

  /** The weights of the four score terms (results.py lines 39-42). */
  const WeightBestFitness: real := 0.4
  const WeightAvgGenerationFitness: real := 0.3
  const WeightAvgBestFitness: real := 0.2
  const WeightAvgGeneration: real := 0.1

  /** A `Results` object: the three histories and the summaries derived from
      them. */
  datatype Results = Results(
    maxGenerations: int,
    maxFitness: real,
    generations: seq<int>,
    generationFitnesses: seq<real>,
    bestFitnesses: seq<real>,
    totalGenerations: nat,
    avgGeneration: real,
    avgGenerationFitness: real,
    avgBestFitness: real,
    bestFitness: real,
    score: real)

  /** The constructor and every summary divide by these two. */
  predicate ValidLimits(maxGenerations: int, maxFitness: real) {
    maxGenerations != 0 && maxFitness != 0.0
  }

  /** `calculate_ponderate_score`: the weighted sum of the normalised best
      fitness, the inverted and scaled average generation, the average
      generation fitness and the normalised average best fitness. */
  function PonderateScore(maxGenerations: int, maxFitness: real, bestFitness: real,
                          avgGeneration: real, avgGenerationFitness: real, avgBestFitness: real): real
    requires ValidLimits(maxGenerations, maxFitness)
  {
    WeightBestFitness * (bestFitness / maxFitness)
    + WeightAvgGeneration * (1.0 - (avgGeneration - 1.0) / (maxGenerations as real))
    + WeightAvgGenerationFitness * avgGenerationFitness
    + WeightAvgBestFitness * (avgBestFitness / maxFitness)
  }

  /** `avg` is `total` spread evenly over `n` records. */
  predicate Averages(avg: real, total: real, n: nat) {
    avg * (n as real) == total
  }

  /** `total / n`, or `fallback` when there are no records. */
  function Mean(total: real, n: nat, fallback: real): (avg: real)
    ensures n > 0 ==> Averages(avg, total, n)
    ensures n == 0 ==> avg == fallback
  {
    if n > 0 then total / (n as real) else fallback
  }

  /** `set_overall_values`: recompute every summary from the histories. The
      averages divide by the number of recorded generations; with no results
      the average generation is `max_generations` and the other summaries 0. */
  function SetOverallValues(r: Results): (s: Results)
    requires ValidLimits(r.maxGenerations, r.maxFitness)
    ensures s.maxGenerations == r.maxGenerations && s.maxFitness == r.maxFitness
    ensures s.generations == r.generations
    ensures s.generationFitnesses == r.generationFitnesses
    ensures s.bestFitnesses == r.bestFitnesses
    ensures s.totalGenerations == |r.generations|
    ensures |r.generations| > 0 ==>
              && Averages(s.avgGeneration, SumInt(r.generations) as real, |r.generations|)
              && Averages(s.avgGenerationFitness, SumReal(r.generationFitnesses), |r.generations|)
              && Averages(s.avgBestFitness, SumReal(r.bestFitnesses), |r.generations|)
    ensures |r.generations| == 0 ==>
              && s.avgGeneration == r.maxGenerations as real
              && s.avgGenerationFitness == 0.0 && s.avgBestFitness == 0.0
    ensures |r.bestFitnesses| == 0 ==> s.bestFitness == 0.0
    ensures |r.bestFitnesses| > 0 ==>
              && s.bestFitness in r.bestFitnesses
              && forall i :: 0 <= i < |r.bestFitnesses| ==> r.bestFitnesses[i] <= s.bestFitness
    ensures s.score == PonderateScore(s.maxGenerations, s.maxFitness, s.bestFitness,
                                      s.avgGeneration, s.avgGenerationFitness, s.avgBestFitness)
  {
    var n := |r.generations|;
    var avgGeneration := Mean(SumInt(r.generations) as real, n, r.maxGenerations as real);
    var avgGenerationFitness := Mean(SumReal(r.generationFitnesses), n, 0.0);
    var avgBestFitness := Mean(SumReal(r.bestFitnesses), n, 0.0);
    var bestFitness := BestFitness(r.bestFitnesses);
    r.(totalGenerations := n,
       avgGeneration := avgGeneration,
       avgGenerationFitness := avgGenerationFitness,
       avgBestFitness := avgBestFitness,
       bestFitness := bestFitness,
       score := PonderateScore(r.maxGenerations, r.maxFitness, bestFitness,
                               avgGeneration, avgGenerationFitness, avgBestFitness))
  }

  /** A value whose summaries are up to date with its histories, as every
      `Results` is after its constructor and after each `add_result`. */
  predicate Settled(r: Results)
    requires ValidLimits(r.maxGenerations, r.maxFitness)
  {
    SetOverallValues(r) == r
  }

  /** `Results(max_generations, max_fitness)`: empty histories and, since the
      `score = 0` for empty histories is overwritten by the formula, the score
      of a fresh aggregate is `0.1 / max_generations`, not 0. */
  function NewResults(maxGenerations: int, maxFitness: real): (r: Results)
    requires ValidLimits(maxGenerations, maxFitness)
    ensures r.maxGenerations == maxGenerations && r.maxFitness == maxFitness
    ensures r.generations == [] && r.generationFitnesses == [] && r.bestFitnesses == []
    ensures r.totalGenerations == 0 && r.bestFitness == 0.0
    ensures r.avgGeneration == maxGenerations as real
    ensures r.score == WeightAvgGeneration / (maxGenerations as real)
    ensures Settled(r)
  {
    var m := maxGenerations as real;
    assert (m - 1.0) / m == 1.0 - 1.0 / m;
    SetOverallValues(Results(maxGenerations, maxFitness, [], [], [], 0, 0.0, 0.0, 0.0, 0.0, 0.0))
  }

  /** `add_result`: exactly one entry is appended to each history, so the
      histories keep equal lengths, and the summaries are recomputed. */
  function AddResult(r: Results, generation: int, generationFitness: real, bestFitness: real): (s: Results)
    requires ValidLimits(r.maxGenerations, r.maxFitness)
    ensures s.maxGenerations == r.maxGenerations && s.maxFitness == r.maxFitness
    ensures s.generations == r.generations + [generation]
    ensures s.generationFitnesses == r.generationFitnesses + [generationFitness]
    ensures s.bestFitnesses == r.bestFitnesses + [bestFitness]
    ensures |r.generations| == |r.generationFitnesses| == |r.bestFitnesses| ==>
              |s.generations| == |s.generationFitnesses| == |s.bestFitnesses|
    ensures s.totalGenerations == |r.generations| + 1
    ensures Settled(s)
  {
    SetOverallValues(r.(generations := r.generations + [generation],
                        generationFitnesses := r.generationFitnesses + [generationFitness],
                        bestFitnesses := r.bestFitnesses + [bestFitness]))
  }

  /** `set_overall_values` depends only on the stored histories: calling it
      again without new results changes nothing. */
  lemma SetOverallValuesIdempotent(r: Results)
    requires ValidLimits(r.maxGenerations, r.maxFitness)
    ensures Settled(SetOverallValues(r))
  {
  }

  /** The weights sum to 1: an aggregate whose runs all reached the maximum
      fitness in generation 1 scores exactly 1. */
  lemma WeightsSumToOne(maxGenerations: int, maxFitness: real)
    requires ValidLimits(maxGenerations, maxFitness)
    ensures PonderateScore(maxGenerations, maxFitness, maxFitness, 1.0, 1.0, maxFitness) == 1.0
  {
  }

  /** With normalised terms in [0, 1] (fitnesses in [0, max_fitness], average
      generation in [1, max_generations + 1]) the score lies in [0, 1]. */
  lemma ScoreBounds(maxGenerations: int, maxFitness: real, bestFitness: real,
                    avgGeneration: real, avgGenerationFitness: real, avgBestFitness: real)
    requires maxGenerations > 0 && maxFitness > 0.0
    requires 0.0 <= bestFitness <= maxFitness && 0.0 <= avgBestFitness <= maxFitness
    requires 0.0 <= avgGenerationFitness <= 1.0
    requires 1.0 <= avgGeneration <= maxGenerations as real + 1.0
    ensures 0.0 <= PonderateScore(maxGenerations, maxFitness, bestFitness,
                                  avgGeneration, avgGenerationFitness, avgBestFitness) <= 1.0
  {
    var m := maxGenerations as real;
    UnitRatio(bestFitness, maxFitness);
    UnitRatio(avgBestFitness, maxFitness);
    UnitRatio(avgGeneration - 1.0, m);
  }

  /** `0 <= x <= y` with `y > 0` gives `0 <= x / y <= 1`. */
  lemma UnitRatio(x: real, y: real)
    requires y > 0.0 && 0.0 <= x <= y
    ensures 0.0 <= x / y <= 1.0
  {
  }

  /** Dividing by a positive constant keeps the order. */
  lemma DivideMonotone(x: real, x': real, y: real)
    requires y > 0.0 && x <= x'
    ensures x / y <= x' / y
  {
  }

  /** More generations on average never raise the score: the generation term
      is non-increasing in `avg_generation`. */
  lemma ScoreAntitoneInAvgGeneration(maxGenerations: int, maxFitness: real, bestFitness: real,
                                     avgGeneration: real, avgGeneration': real,
                                     avgGenerationFitness: real, avgBestFitness: real)
    requires maxGenerations > 0 && maxFitness != 0.0
    requires avgGeneration <= avgGeneration'
    ensures PonderateScore(maxGenerations, maxFitness, bestFitness, avgGeneration', avgGenerationFitness, avgBestFitness)
            <= PonderateScore(maxGenerations, maxFitness, bestFitness, avgGeneration, avgGenerationFitness, avgBestFitness)
  {
    DivideMonotone(avgGeneration - 1.0, avgGeneration' - 1.0, maxGenerations as real);
  }

  /** A higher best fitness, average generation fitness or average best
      fitness never lowers the score. */
  lemma ScoreMonotoneInFitness(maxGenerations: int, maxFitness: real, avgGeneration: real,
                               bestFitness: real, bestFitness': real,
                               avgGenerationFitness: real, avgGenerationFitness': real,
                               avgBestFitness: real, avgBestFitness': real)
    requires maxGenerations != 0 && maxFitness > 0.0
    requires bestFitness <= bestFitness'
    requires avgGenerationFitness <= avgGenerationFitness'
    requires avgBestFitness <= avgBestFitness'
    ensures PonderateScore(maxGenerations, maxFitness, bestFitness, avgGeneration, avgGenerationFitness, avgBestFitness)
            <= PonderateScore(maxGenerations, maxFitness, bestFitness', avgGeneration, avgGenerationFitness', avgBestFitness')
  {
    DivideMonotone(bestFitness, bestFitness', maxFitness);
    DivideMonotone(avgBestFitness, avgBestFitness', maxFitness);
  }

  /** An up-to-date aggregate of runs that each stopped within
      `max_generations` with non-negative fitnesses scores strictly above 0:
      the generation term alone contributes at least `0.1 / max_generations`. */
  lemma ScorePositive(r: Results)
    requires r.maxGenerations > 0 && r.maxFitness > 0.0
    requires Settled(r)
    requires forall i :: 0 <= i < |r.generations| ==> 0 <= r.generations[i] <= r.maxGenerations
    requires forall i :: 0 <= i < |r.generationFitnesses| ==> 0.0 <= r.generationFitnesses[i]
    requires forall i :: 0 <= i < |r.bestFitnesses| ==> 0.0 <= r.bestFitnesses[i]
    ensures r.score > 0.0
  {
    SummaryTerms(r);
    TermsPositive(r.maxGenerations, r.maxFitness, r.bestFitness,
                  r.avgGeneration, r.avgGenerationFitness, r.avgBestFitness);
  }

  /** The summaries of runs within the limits: no fitness is negative and the
      mean generation count does not exceed the limit. */
  lemma SummaryTerms(r: Results)
    requires forall i :: 0 <= i < |r.generations| ==> 0 <= r.generations[i] <= r.maxGenerations
    requires forall i :: 0 <= i < |r.generationFitnesses| ==> 0.0 <= r.generationFitnesses[i]
    requires forall i :: 0 <= i < |r.bestFitnesses| ==> 0.0 <= r.bestFitnesses[i]
    requires |r.generations| > 0 ==>
               && Averages(r.avgGeneration, SumInt(r.generations) as real, |r.generations|)
               && Averages(r.avgGenerationFitness, SumReal(r.generationFitnesses), |r.generations|)
               && Averages(r.avgBestFitness, SumReal(r.bestFitnesses), |r.generations|)
    requires |r.generations| == 0 ==>
               && r.avgGeneration == r.maxGenerations as real
               && r.avgGenerationFitness == 0.0 && r.avgBestFitness == 0.0
    requires |r.bestFitnesses| == 0 ==> r.bestFitness == 0.0
    requires |r.bestFitnesses| > 0 ==> r.bestFitness in r.bestFitnesses
    ensures r.bestFitness >= 0.0 && r.avgGenerationFitness >= 0.0 && r.avgBestFitness >= 0.0
    ensures r.avgGeneration <= r.maxGenerations as real
  {
    var n := |r.generations|;
    if n > 0 {
      AverageAtMost(r.generations, r.avgGeneration, r.maxGenerations);
      AverageNonNegative(r.generationFitnesses, n, r.avgGenerationFitness);
      AverageNonNegative(r.bestFitnesses, n, r.avgBestFitness);
    }
    if |r.bestFitnesses| > 0 {
      MemberNonNegative(r.bestFitnesses, r.bestFitness);
    }
  }

  /** The average of integers in [0, m] is at most m. */
  lemma AverageAtMost(xs: seq<int>, avg: real, m: int)
    requires |xs| > 0 && Averages(avg, SumInt(xs) as real, |xs|)
    requires forall i :: 0 <= i < |xs| ==> 0 <= xs[i] <= m
    ensures avg <= m as real
  {
    SumIntAtMost(xs, m);
    AtMostByCount(avg, m as real, |xs| as real);
  }

  /** A non-negative sum divided by a positive count is non-negative. */
  lemma AverageNonNegative(xs: seq<real>, n: nat, avg: real)
    requires n > 0 && Averages(avg, SumReal(xs), n)
    requires forall i :: 0 <= i < |xs| ==> 0.0 <= xs[i]
    ensures avg >= 0.0
  {
    SumRealNonNegative(xs);
    NonNegativeByCount(avg, n as real);
  }

  lemma MemberNonNegative(xs: seq<real>, x: real)
    requires x in xs && forall i :: 0 <= i < |xs| ==> 0.0 <= xs[i]
    ensures x >= 0.0
  {
  }

  /** The arithmetic behind `ScorePositive`: an average generation of at most
      `max_generations` and non-negative fitness terms give a positive score. */
  lemma TermsPositive(maxGenerations: int, maxFitness: real, bestFitness: real,
                      avgGeneration: real, avgGenerationFitness: real, avgBestFitness: real)
    requires maxGenerations > 0 && maxFitness > 0.0
    requires bestFitness >= 0.0 && avgGenerationFitness >= 0.0 && avgBestFitness >= 0.0
    requires avgGeneration <= maxGenerations as real
    ensures PonderateScore(maxGenerations, maxFitness, bestFitness,
                           avgGeneration, avgGenerationFitness, avgBestFitness) > 0.0
  {
    var m := maxGenerations as real;
    DivideMonotone(avgGeneration - 1.0, m - 1.0, m);
    assert (m - 1.0) / m == 1.0 - 1.0 / m;
    DivideMonotone(0.0, bestFitness, maxFitness);
    DivideMonotone(0.0, avgBestFitness, maxFitness);
  }

  /** `a * n <= m * n` with `n > 0` gives `a <= m`. */
  lemma AtMostByCount(a: real, m: real, n: real)
    requires n > 0.0 && a * n <= m * n
    ensures a <= m
  {
  }

  /** `a * n >= 0` with `n > 0` gives `a >= 0`. */
  lemma NonNegativeByCount(a: real, n: real)
    requires n > 0.0 && a * n >= 0.0
    ensures a >= 0.0
  {
  }

  /** The aggregate of the test suite (tests/test_results.py lines 20-37):
      two runs ending at generations 1 and 2 give averages 1.5, 0.825 and
      0.91, best 0.92, and score 0.897. */
  lemma TwoRunsExample()
    ensures var r := AddResult(AddResult(NewResults(100, 1.0), 1, 0.8, 0.9), 2, 0.85, 0.92);
            && r.totalGenerations == 2
            && r.avgGeneration == 1.5
            && r.avgGenerationFitness == 0.825
            && r.avgBestFitness == 0.91
            && r.bestFitness == 0.92
            && r.score == 0.897
  {
    var r0 := NewResults(100, 1.0);
    var r1 := AddResult(r0, 1, 0.8, 0.9);
    var r := AddResult(r1, 2, 0.85, 0.92);
    assert r.generations == [1, 2];
    assert [1, 2][..1] == [1];
    assert SumInt([1, 2]) == 3;
    assert r.generationFitnesses == [0.8, 0.85];
    assert [0.8, 0.85][..1] == [0.8];
    assert r.bestFitnesses == [0.9, 0.92];
    assert [0.9, 0.92][..1] == [0.9];
  }
}
