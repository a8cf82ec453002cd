/** Genomes, populations and the fitness statistics of
    src/one_max_genetic_algorithm_vanilla.py (lines 13-30). */
module Fitness {
  import opened Sums

  /** One gene; `random.randint(0, 1)` only ever produces these. */
  type Bit = b: int | 0 <= b <= 1

  type Genome = seq<Bit>

  type Population = seq<Genome>

  /** `get_target_fitness()`: the fitness of the all-ones genome. */
  const TargetFitness: real := 1.0

  /** Every genome of `pop` has length `len`. */
  predicate Uniform(pop: Population, len: nat) {
    forall i :: 0 <= i < |pop| ==> |pop[i]| == len
  }

  predicate AllOnes(g: Genome) {
    forall i :: 0 <= i < |g| ==> g[i] == 1
  }

  predicate AllZeros(g: Genome) {
    forall i :: 0 <= i < |g| ==> g[i] == 0
  }

  /** The sum of a bit genome is its number of ones; it is |g| exactly when all
      bits are set and 0 exactly when none is. */
  lemma {:induction false} BitSum(g: Genome)
    ensures SumInt(g) == multiset(g)[1]
    ensures 0 <= SumInt(g) <= |g|
    ensures SumInt(g) == |g| <==> AllOnes(g)
    ensures SumInt(g) == 0 <==> AllZeros(g)
    decreases |g|
  {
    if |g| > 0 {
      var init := g[..|g| - 1];
      BitSum(init);
      assert g == init + [g[|g| - 1]];
      assert multiset(g) == multiset(init) + multiset{g[|g| - 1]};
      if AllOnes(g) {
        assert AllOnes(init) by {
          forall i | 0 <= i < |init| ensures init[i] == 1 {
            assert init[i] == g[i];
          }
        }
      }
      if AllZeros(g) {
        assert AllZeros(init) by {
          forall i | 0 <= i < |init| ensures init[i] == 0 {
            assert init[i] == g[i];
          }
        }
      }
    }
  }

  /** `get_genome_fitness`: `sum(genome) / len(genome)`. The source divides by
      the length, so an empty genome is a caller error. */
  function GenomeFitness(g: Genome): (r: real)
    requires |g| > 0
    ensures 0.0 <= r <= 1.0
    ensures r * (|g| as real) == multiset(g)[1] as real
    ensures r == TargetFitness <==> AllOnes(g)
    ensures r == 0.0 <==> AllZeros(g)
  {
    BitSum(g);
    Fraction(SumInt(g), |g|);
    (SumInt(g) as real) / (|g| as real)
  }

  /** The ratio of `k` out of `n > 0`. */
  lemma Fraction(k: int, n: int)
    requires 0 <= k <= n && n > 0
    ensures var r := (k as real) / (n as real);
            && 0.0 <= r <= 1.0
            && r * (n as real) == k as real
            && (r == 1.0 <==> k == n)
            && (r == 0.0 <==> k == 0)
  {
    var r := (k as real) / (n as real);
    assert r * (n as real) == k as real;
    DivideBounds(k as real, n as real, 1.0);
  }

  /** `calculate_population_fitnesses`: one fitness per genome, in order. */
  function PopulationFitnesses(pop: Population): (fs: seq<real>)
    requires forall i :: 0 <= i < |pop| ==> |pop[i]| > 0
    ensures |fs| == |pop|
    ensures forall i :: 0 <= i < |pop| ==> fs[i] == GenomeFitness(pop[i])
    decreases |pop|
  {
    if |pop| == 0 then [] else [GenomeFitness(pop[0])] + PopulationFitnesses(pop[1..])
  }

  /** `get_best_fitness`: `max(fitness_values)`, or 0.0 for an empty vector. */
  function BestFitness(fs: seq<real>): (r: real)
    ensures |fs| == 0 ==> r == 0.0
    ensures |fs| > 0 ==> r in fs
    ensures forall i :: 0 <= i < |fs| ==> fs[i] <= r
    decreases |fs|
  {
    if |fs| == 0 then 0.0
    else if |fs| == 1 then fs[0]
    else
      var m := BestFitness(fs[..|fs| - 1]);
      if fs[|fs| - 1] > m then fs[|fs| - 1] else m
  }

  /** `get_generation_fitness`: the fitness sum divided by the intended
      population size (not by the vector's length), 0 when that size is 0. */
  function GenerationFitness(fs: seq<real>, populationSize: int): (r: real)
    ensures populationSize != 0 ==> r * (populationSize as real) == SumReal(fs)
    ensures populationSize == 0 ==> r == 0.0
  {
    if populationSize != 0 then SumReal(fs) / (populationSize as real) else 0.0
  }

  /** For a full population (or none) the generation mean lies in [0, 1] and never
      exceeds the best individual fitness. */
  lemma MeanBounds(fs: seq<real>)
    requires forall i :: 0 <= i < |fs| ==> 0.0 <= fs[i] <= 1.0
    ensures 0.0 <= GenerationFitness(fs, |fs|) <= BestFitness(fs) <= 1.0
  {
    if |fs| > 0 {
      var best := BestFitness(fs);
      MemberBounds(fs, best);
      SumWithin(fs, best);
      MeanAtMost(fs, best);
    }
  }

  /** A vector of values in [0, best] sums to between 0 and |fs| * best. */
  lemma SumWithin(fs: seq<real>, best: real)
    requires forall i :: 0 <= i < |fs| ==> 0.0 <= fs[i] <= best
    ensures 0.0 <= SumReal(fs) <= (|fs| as real) * best
  {
    SumRealNonNegative(fs);
    SumRealBounds(fs, 0.0, best);
  }

  /** A member of a vector of fitnesses in [0, 1] lies in [0, 1]. */
  lemma MemberBounds(fs: seq<real>, x: real)
    requires forall i :: 0 <= i < |fs| ==> 0.0 <= fs[i] <= 1.0
    requires x in fs
    ensures 0.0 <= x <= 1.0
  {
  }

  lemma MeanAtMost(fs: seq<real>, best: real)
    requires |fs| > 0
    requires 0.0 <= SumReal(fs) <= (|fs| as real) * best
    ensures 0.0 <= GenerationFitness(fs, |fs|) <= best
  {
    var n := |fs| as real;
    var total := SumReal(fs);
    assert GenerationFitness(fs, |fs|) == total / n;
    DivideBounds(total, n, best);
  }

  /** 0 <= a <= n*b with n > 0 gives 0 <= a/n <= b. */
  lemma DivideBounds(a: real, n: real, b: real)
    requires n > 0.0
    requires 0.0 <= a <= n * b
    ensures 0.0 <= a / n <= b
  {
  }

  /** The mean of a vector of non-negative fitnesses is non-negative, whatever
      population size it is divided by. */
  lemma MeanNonNegative(fs: seq<real>, populationSize: nat)
    requires forall i :: 0 <= i < |fs| ==> 0.0 <= fs[i]
    ensures GenerationFitness(fs, populationSize) >= 0.0
  {
    SumRealBounds(fs, 0.0, 1.0 + BestFitness(fs));
  }

  /** The best fitness of a population reaches the target exactly when some
      genome in it is all ones. */
  lemma BestIsTargetIff(pop: Population)
    requires forall i :: 0 <= i < |pop| ==> |pop[i]| > 0
    ensures BestFitness(PopulationFitnesses(pop)) == TargetFitness <==>
            exists i :: 0 <= i < |pop| && AllOnes(pop[i])
  {
    var fs := PopulationFitnesses(pop);
    if exists i :: 0 <= i < |pop| && AllOnes(pop[i]) {
      var i :| 0 <= i < |pop| && AllOnes(pop[i]);
      assert fs[i] == TargetFitness;
    }
    if BestFitness(fs) == TargetFitness {
      var i :| 0 <= i < |fs| && fs[i] == BestFitness(fs);
      assert AllOnes(pop[i]);
    }
  }
}
