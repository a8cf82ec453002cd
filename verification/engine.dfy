/** Population replacement and the generational loop of
    src/one_max_genetic_algorithm_vanilla.py (lines 90-162). The random
    initial population and every draw of every generation are parameters. */
module Engine {
  import opened Options
  import opened Sums
  import opened Tracking
  import opened Fitness
  import opened Selection
  import opened Variation

  /** The arguments of `genetic_algorithm`, minus `verbose`. */
  datatype Config = Config(
    populationSize: nat,
    genomeLength: nat,
    maxGenerations: nat,
    mutationRate: real,
    crossoverRate: real,
    selectMode: string,
    targetGenerationFitness: real)

  /** A non-empty population needs non-empty genomes: fitness divides by the
      genome length. */
  predicate ValidConfig(cfg: Config) {
    cfg.populationSize > 0 ==> cfg.genomeLength > 0
  }

  /** `populationSize` genomes of the configured length. */
  predicate WellFormed(cfg: Config, pop: Population) {
    |pop| == cfg.populationSize && Uniform(pop, cfg.genomeLength)
  }

  /** The draws behind one pair of children: two selections, one crossover,
      two mutations. */
  datatype PairDraw = PairDraw(
    parent1: SelectionDraw,
    parent2: SelectionDraw,
    crossDraw: real,
    cut: int,
    mutation1: seq<real>,
    mutation2: seq<real>)

  /** The draws behind the extra child of an odd-sized population. */
  datatype LoneDraw = LoneDraw(parent: SelectionDraw, mutation: seq<real>)

  /** Everything one call of `create_new_population` draws. */
  datatype GenerationDraws = GenerationDraws(pairs: seq<PairDraw>, lone: Option<LoneDraw>)

  predicate ValidPairDraw(cfg: Config, d: PairDraw) {
    && ValidDraw(ParseMode(cfg.selectMode), cfg.populationSize, d.parent1)
    && ValidDraw(ParseMode(cfg.selectMode), cfg.populationSize, d.parent2)
    && ValidCrossoverDraw(cfg.genomeLength, cfg.crossoverRate, d.crossDraw, d.cut)
    && ValidMutationDraws(cfg.genomeLength, d.mutation1)
    && ValidMutationDraws(cfg.genomeLength, d.mutation2)
  }

  /** One pair per `range(population_size // 2)` iteration and, for an odd
      size, the draws of the lone parent. */
  predicate ValidGenerationDraws(cfg: Config, d: GenerationDraws) {
    && |d.pairs| == cfg.populationSize / 2
    && (forall k :: 0 <= k < |d.pairs| ==> ValidPairDraw(cfg, d.pairs[k]))
    && (cfg.populationSize % 2 != 0 ==>
          && d.lone.Some?
          && ValidDraw(ParseMode(cfg.selectMode), cfg.populationSize, d.lone.value.parent)
          && ValidMutationDraws(cfg.genomeLength, d.lone.value.mutation))
  }

  /** One iteration of the pair loop: select two parents, cross them, mutate
      both offspring. */
  function Breed(cfg: Config, pop: Population, fits: seq<real>, d: PairDraw): (children: seq<Genome>)
    requires WellFormed(cfg, pop) && |fits| == |pop| && |pop| >= 1
    requires ValidPairDraw(cfg, d)
    ensures |children| == 2 && Uniform(children, cfg.genomeLength)
  {
    var parent1 := SelectParent(pop, fits, cfg.selectMode, d.parent1);
    var parent2 := SelectParent(pop, fits, cfg.selectMode, d.parent2);
    var (offspring1, offspring2) := Crossover(parent1, parent2, cfg.crossoverRate, d.crossDraw, d.cut);
    [Mutate(offspring1, cfg.mutationRate, d.mutation1), Mutate(offspring2, cfg.mutationRate, d.mutation2)]
  }

  /** The children of all pairs, in draw order. */
  function Offspring(cfg: Config, pop: Population, fits: seq<real>, pairs: seq<PairDraw>): (children: Population)
    requires WellFormed(cfg, pop) && |fits| == |pop|
    requires |pairs| > 0 ==> |pop| >= 1
    requires forall k :: 0 <= k < |pairs| ==> ValidPairDraw(cfg, pairs[k])
    ensures |children| == 2 * |pairs|
    ensures Uniform(children, cfg.genomeLength)
    decreases |pairs|
  {
    if |pairs| == 0 then []
    else Breed(cfg, pop, fits, pairs[0]) + Offspring(cfg, pop, fits, pairs[1..])
  }

  /** `create_new_population`: exactly `population_size` genomes of the same
      length, the pairs first and, for an odd size, one mutated lone parent
      last. */
  function CreateNewPopulation(cfg: Config, pop: Population, fits: seq<real>, d: GenerationDraws): (next: Population)
    requires WellFormed(cfg, pop) && |fits| == |pop|
    requires ValidGenerationDraws(cfg, d)
    ensures WellFormed(cfg, next)
  {
    var paired := Offspring(cfg, pop, fits, d.pairs);
    if cfg.populationSize % 2 != 0 then
      var parent := SelectParent(pop, fits, cfg.selectMode, d.lone.value.parent);
      paired + [Mutate(parent, cfg.mutationRate, d.lone.value.mutation)]
    else
      paired
  }

  /** With both rates 0 a pair's children are copies of its two parents. */
  lemma {:induction false} NoVariationPairs(cfg: Config, pop: Population, fits: seq<real>, pairs: seq<PairDraw>)
    requires WellFormed(cfg, pop) && |fits| == |pop|
    requires |pairs| > 0 ==> |pop| >= 1
    requires forall k :: 0 <= k < |pairs| ==> ValidPairDraw(cfg, pairs[k])
    requires cfg.mutationRate == 0.0 && cfg.crossoverRate == 0.0
    ensures forall g :: g in Offspring(cfg, pop, fits, pairs) ==> g in pop
    decreases |pairs|
  {
    if |pairs| > 0 {
      var pd := pairs[0];
      var parent1 := SelectParent(pop, fits, cfg.selectMode, pd.parent1);
      var parent2 := SelectParent(pop, fits, cfg.selectMode, pd.parent2);
      MutateZeroRate(parent1, pd.mutation1);
      MutateZeroRate(parent2, pd.mutation2);
      assert Breed(cfg, pop, fits, pd) == [parent1, parent2];
      NoVariationPairs(cfg, pop, fits, pairs[1..]);
    }
  }

  /** The population after one generation step: `create_new_population`
      applied to `pop` and its fitness vector. */
  function NextPopulation(cfg: Config, pop: Population, d: GenerationDraws): (next: Population)
    requires ValidConfig(cfg) && WellFormed(cfg, pop)
    requires ValidGenerationDraws(cfg, d)
    ensures WellFormed(cfg, next)
  {
    assert forall i :: 0 <= i < |pop| ==> |pop[i]| > 0;
    CreateNewPopulation(cfg, pop, PopulationFitnesses(pop), d)
  }

  /** With both rates 0 no variation happens: every genome of the new
      population is a copy of one of the old population. */
  lemma NoVariationOnlyCopies(cfg: Config, pop: Population, d: GenerationDraws)
    requires ValidConfig(cfg) && WellFormed(cfg, pop)
    requires ValidGenerationDraws(cfg, d)
    requires cfg.mutationRate == 0.0 && cfg.crossoverRate == 0.0
    ensures forall g :: g in NextPopulation(cfg, pop, d) ==> g in pop
  {
    assert forall i :: 0 <= i < |pop| ==> |pop[i]| > 0;
    var fits := PopulationFitnesses(pop);
    NoVariationPairs(cfg, pop, fits, d.pairs);
    if cfg.populationSize % 2 != 0 {
      var parent := SelectParent(pop, fits, cfg.selectMode, d.lone.value.parent);
      MutateZeroRate(parent, d.lone.value.mutation);
    }
  }

  /** The population of generation `k` (0-based), built from the initial
      population by `k + 1` replacements. */
  function PopulationAt(cfg: Config, init: Population, gens: seq<GenerationDraws>, k: nat): (pop: Population)
    requires ValidConfig(cfg) && WellFormed(cfg, init) && k < |gens|
    requires forall i :: 0 <= i < |gens| ==> ValidGenerationDraws(cfg, gens[i])
    ensures WellFormed(cfg, pop)
    decreases k
  {
    if k == 0 then NextPopulation(cfg, init, gens[0])
    else NextPopulation(cfg, PopulationAt(cfg, init, gens, k - 1), gens[k])
  }

  /** The two statistics the loop reads from one generation. */
  datatype GenStats = GenStats(mean: real, best: real)

  /** `get_generation_fitness` and `get_best_fitness` of a population. */
  function Stats(cfg: Config, pop: Population): (s: GenStats)
    requires ValidConfig(cfg) && WellFormed(cfg, pop)
    ensures 0.0 <= s.mean <= s.best <= 1.0
    ensures s.best == TargetFitness <==> exists i :: 0 <= i < |pop| && AllOnes(pop[i])
  {
    var fs := PopulationFitnesses(pop);
    BestIsTargetIff(pop);
    MeanBounds(fs);
    GenStats(GenerationFitness(fs, cfg.populationSize), BestFitness(fs))
  }

  /** The statistics of every generation, in order. */
  function StatsOf(cfg: Config, init: Population, gens: seq<GenerationDraws>): (stats: seq<GenStats>)
    requires ValidConfig(cfg) && WellFormed(cfg, init)
    requires forall i :: 0 <= i < |gens| ==> ValidGenerationDraws(cfg, gens[i])
    ensures |stats| == |gens|
    ensures forall k :: 0 <= k < |gens| ==> stats[k] == Stats(cfg, PopulationAt(cfg, init, gens, k))
  {
    seq(|gens|, k requires 0 <= k < |gens| => Stats(cfg, PopulationAt(cfg, init, gens, k)))
  }

  /** The early-return test: the mean reaches the target generation fitness
      and the best genome is all ones. */
  predicate Converged(s: GenStats, target: real) {
    s.mean >= target && s.best == TargetFitness
  }

  /** A generation converges exactly when its mean fitness reaches the target
      and some genome of its population is all ones. */
  lemma ConvergedIff(cfg: Config, pop: Population, target: real)
    requires ValidConfig(cfg) && WellFormed(cfg, pop)
    ensures Converged(Stats(cfg, pop), target) <==>
              && GenerationFitness(PopulationFitnesses(pop), cfg.populationSize) >= target
              && exists i :: 0 <= i < |pop| && AllOnes(pop[i])
  {
  }

  /** What the loop records when a generation's mean ties or beats the best
      mean so far: `best_generation` and `best_fitness`. */
  datatype Snapshot = Snapshot(generation: nat, bestFitness: real)

  /** The triple `genetic_algorithm` returns. */
  datatype Outcome = Outcome(generation: int, generationFitness: real, bestFitness: real)

  /** The offers the loop makes to its tracker, one per generation. */
  function Entries(stats: seq<GenStats>): (es: seq<Entry<Snapshot>>)
    ensures |es| == |stats|
    ensures forall k :: 0 <= k < |stats| ==> es[k] == Entry(stats[k].mean, Snapshot(k, stats[k].best))
  {
    seq(|stats|, k requires 0 <= k < |stats| => Entry(stats[k].mean, Snapshot(k, stats[k].best)))
  }

  /** After the first `n` generations the tracker holds the LAST generation
      with the highest mean (ties go to the later one), and its mean is that
      highest mean. */
  lemma TrackedGeneration(stats: seq<GenStats>, n: nat)
    requires 1 <= n <= |stats|
    requires forall i :: 0 <= i < |stats| ==> stats[i].mean >= 0.0
    ensures var t := OfferAll(Start(), Entries(stats)[..n]);
            && t.item.Some?
            && t.item.value.generation < n
            && var j := t.item.value.generation;
               && t.item.value.bestFitness == stats[j].best
               && t.score == stats[j].mean
               && (forall i :: 0 <= i < n ==> stats[i].mean <= stats[j].mean)
               && (forall i :: j < i < n ==> stats[i].mean < stats[j].mean)
  {
    var es := Entries(stats)[..n];
    OfferAllSpec(Start(), es);
    assert es[0].score >= 0.0;
    var j :| IsLastMax(es, j) && OfferAll(Start(), es) == Best(es[j].score, Some(es[j].item));
    forall i | 0 <= i < n
      ensures stats[i].mean <= stats[j].mean
    {
      assert es[i].score <= es[j].score;
    }
    forall i | j < i < n
      ensures stats[i].mean < stats[j].mean
    {
      assert es[i].score < es[j].score;
    }
  }

  /** The loop body from generation `k` on, `tracked` holding what the first
      `k` generations left in the tracker. */
  function LoopFrom(stats: seq<GenStats>, target: real, k: nat, tracked: Best<Snapshot>): (r: Outcome)
    requires 1 <= |stats| && k <= |stats|
    requires forall i :: 0 <= i < |stats| ==> stats[i].mean >= 0.0
    requires tracked == OfferAll(Start(), Entries(stats)[..k])
    ensures k <= r.generation <= |stats|
    ensures forall i :: k <= i < r.generation && i < |stats| ==> !Converged(stats[i], target)
    ensures r.generation < |stats| ==>
              Converged(stats[r.generation], target) && r.generationFitness == stats[r.generation].mean
    ensures var n := if r.generation < |stats| then r.generation + 1 else |stats|;
            var t := OfferAll(Start(), Entries(stats)[..n]);
            && t.item.Some?
            && r.bestFitness == t.item.value.bestFitness
            && (r.generation == |stats| ==> r.generationFitness == t.score)
    decreases |stats| - k
  {
    if k == |stats| then
      TrackedGeneration(stats, k);
      Outcome(|stats|, tracked.score, tracked.item.value.bestFitness)
    else
      var es := Entries(stats);
      assert es[..k + 1][..k] == es[..k];
      var t := Offer(tracked, es[k]);
      TrackedGeneration(stats, k + 1);
      if Converged(stats[k], target) then
        Outcome(k, stats[k].mean, t.item.value.bestFitness)
      else
        LoopFrom(stats, target, k + 1, t)
  }

  /** The `for generation in range(max_generations)` loop over the statistics
      of each generation. It returns at the first converged generation `g`,
      with that generation's mean and the tracked best fitness; otherwise it
      returns `max_generations` with the tracked (highest) mean and the best
      fitness of the last generation reaching that mean. */
  function GenerationLoop(stats: seq<GenStats>, target: real): (r: Outcome)
    requires |stats| >= 1
    requires forall i :: 0 <= i < |stats| ==> stats[i].mean >= 0.0
    ensures 0 <= r.generation <= |stats|
    ensures forall i :: 0 <= i < r.generation && i < |stats| ==> !Converged(stats[i], target)
    ensures r.generation < |stats| ==>
              Converged(stats[r.generation], target) && r.generationFitness == stats[r.generation].mean
    ensures var n := if r.generation < |stats| then r.generation + 1 else |stats|;
            exists j :: 0 <= j < n
              && r.bestFitness == stats[j].best
              && (forall i :: 0 <= i < n ==> stats[i].mean <= stats[j].mean)
              && (forall i :: j < i < n ==> stats[i].mean < stats[j].mean)
              && (r.generation == |stats| ==> r.generationFitness == stats[j].mean)
  {
    assert Entries(stats)[..0] == [];
    var r := LoopFrom(stats, target, 0, Start());
    var n := if r.generation < |stats| then r.generation + 1 else |stats|;
    TrackedGeneration(stats, n);
    r
  }

  /** `genetic_algorithm`, given its initial population and all its draws. */
  function GeneticAlgorithm(cfg: Config, init: Population, gens: seq<GenerationDraws>): (r: Outcome)
    requires ValidConfig(cfg) && cfg.maxGenerations >= 1
    requires WellFormed(cfg, init)
    requires |gens| == cfg.maxGenerations
    requires forall k :: 0 <= k < |gens| ==> ValidGenerationDraws(cfg, gens[k])
    ensures 0 <= r.generation <= cfg.maxGenerations
    ensures 0.0 <= r.generationFitness <= 1.0 && 0.0 <= r.bestFitness <= 1.0
    ensures r.generation < cfg.maxGenerations ==>
              && r.generationFitness >= cfg.targetGenerationFitness
              && exists i :: 0 <= i < cfg.populationSize && AllOnes(PopulationAt(cfg, init, gens, r.generation)[i])
  {
    GenerationLoop(StatsOf(cfg, init, gens), cfg.targetGenerationFitness)
  }
}
