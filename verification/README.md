# OneMax genetic algorithm with a rate sweep, modelled in Dafny

This project models the deterministic core of a program that solves the OneMax
problem with a genetic algorithm. OneMax asks for a bit string of all ones,
and a genome's fitness is its fraction of ones. The model has three layers.

- **GA operators and the generational loop**
  (`src/one_max_genetic_algorithm_vanilla.py`):
  - genome and population fitness, the best fitness and the mean fitness;
  - tournament and roulette parent selection;
  - single-point crossover and bit-flip mutation;
  - replacement of a population by a new one of exactly the same size;
  - the loop that tracks the best generation and returns early once a
    generation converges.
- **The trial aggregator** (`one_max_genetic_algorithm_python/results.py`).
  A `Results` value keeps three parallel histories of run outcomes and
  recomputes from them the averages, the best fitness and a fixed-weight
  score.
- **The parameter sweep** (`process_genetic_algorithm` in `src/main.py`):
  - a row-major walk over the (mutation rate, crossover rate) grid;
  - a fresh aggregate per cell, fed exactly `RUN_TIMES` outcomes;
  - best-cell tracking with a `>=` tie-break;
  - the 0.9 row-pruning rule;
  - the global stop after a row.

Every random choice is an explicit parameter with a precondition stating the
values `random` can produce:
- `random.random()` draws in [0, 1);
- the crossover cut point in [1, len - 1];
- the tournament-size draw in [int(0.6 n), int(0.8 n)];
- the tournament sample, as distinct positions;
- the roulette draw, as a [0, 1] factor of the total fitness.

The initial population is a parameter. The outcomes of each cell's runs are
also parameters of the sweep.

Files:
- `options.dfy`: the `Option` type.
- `sums.dfy`: sums of integer and real sequences.
- `tracking.dfy`: the running-best bookkeeping shared by the loop and the
  sweep.
- `fitness.dfy`, `selection.dfy`, `variation.dfy`, `engine.dfy`: the GA.
- `results.dfy`: the aggregator.
- `sweep.dfy`: the sweep.

Paths below are relative to the repository root.

## Model

| member | source | states |
|---|---|---|
| Fitness.BitSum | src/one_max_genetic_algorithm_vanilla.py:13-14 | The sum of a bit genome is its number of ones. It is the genome's length exactly when every bit is 1, and 0 exactly when every bit is 0. |
| Fitness.GenomeFitness | src/one_max_genetic_algorithm_vanilla.py:13-14 | The fitness times the length is the number of ones, and lies in [0, 1]. It is 1 (the target fitness) exactly for the all-ones genome and 0 exactly for the all-zeros genome. An empty genome is excluded because the source divides by its length. |
| Fitness.PopulationFitnesses | src/one_max_genetic_algorithm_vanilla.py:17-18 | One fitness per genome, index-aligned with the population; an empty population gives an empty vector. |
| Fitness.BestFitness | src/one_max_genetic_algorithm_vanilla.py:25-26 | 0.0 for an empty vector; otherwise an element of the vector that is at least every element. |
| Fitness.GenerationFitness | src/one_max_genetic_algorithm_vanilla.py:29-30 | The mean times the population size is the fitness sum, for a non-zero size; for size 0 the mean is 0. |
| Fitness.MeanBounds | src/one_max_genetic_algorithm_vanilla.py:25-30 | For a full population of fitnesses in [0, 1]: 0 <= mean <= best fitness <= 1. |
| Fitness.MeanNonNegative | src/one_max_genetic_algorithm_vanilla.py:29-30 | Non-negative fitnesses give a non-negative mean, whatever size they are divided by. |
| Fitness.BestIsTargetIff | src/one_max_genetic_algorithm_vanilla.py:21-26 | A population's best fitness equals the target fitness (1) if and only if some genome in it is all ones. |
| Selection.ParseMode | src/one_max_genetic_algorithm_vanilla.py:33-40 | Roulette is selected if and only if the lower-cased mode is "roulette"; every other string selects by tournament. |
| Selection.UnknownModeIsTournament | tests/test_one_max_genetic_algorithm_vanilla.py:145-147 | The unknown mode "gibberish" selects by tournament, and "Roulette" selects the roulette. |
| Selection.TournamentSize | src/one_max_genetic_algorithm_vanilla.py:35-36 | The clamped size is at least 1 and at least the draw. It is either the draw or 1, and never above a non-empty population's size. |
| Selection.FirstBest | src/one_max_genetic_algorithm_vanilla.py:48 | A position in the sample whose candidate's fitness is at least every sampled fitness; every earlier candidate's fitness is strictly lower (Python's `max` keeps the first maximum). |
| Selection.SelectTournament | src/one_max_genetic_algorithm_vanilla.py:43-49 | The winner is a member of the population, and it is the first sampled candidate of maximal fitness. |
| Selection.RouletteFrom | src/one_max_genetic_algorithm_vanilla.py:56-61 | The walk from any position returns the first later position whose running sum exceeds the pick. If there is none, it returns 0. |
| Selection.RouletteIndex | src/one_max_genetic_algorithm_vanilla.py:52-61 | The chosen position is the first whose running fitness sum strictly exceeds the pick, or 0 when no running sum does. |
| Selection.SelectRoulette | src/one_max_genetic_algorithm_vanilla.py:52-61 | The result is a member of the population, at the roulette position for the pick `u * total`. |
| Selection.RouletteLandsOnPositive | src/one_max_genetic_algorithm_vanilla.py:54-60 | With non-negative fitnesses and a pick below the total, the wheel stops where the running sum exceeds the pick. That individual has positive fitness. |
| Selection.RouletteFallback | src/one_max_genetic_algorithm_vanilla.py:57-61 | When the pick reaches the total (all fitnesses 0, or a pick equal to the total), the first individual is returned. |
| Selection.SelectParent | src/one_max_genetic_algorithm_vanilla.py:33-40 | The parent is a population member. In tournament mode it wins the sampled tournament; in roulette mode it is the wheel's choice. |
| Variation.Crossover | src/one_max_genetic_algorithm_vanilla.py:64-72 | At or above the rate, the children are the parents. For parents of equal length, each child has its parent's length and at each index the two children hold the parents' two genes; below the rate, the genes before the cut come from the own parent and the rest from the other parent. |
| Variation.CrossoverKeepsGenes | src/one_max_genetic_algorithm_vanilla.py:64-72 | The two children together hold exactly the parents' genes (equal multisets). |
| Variation.CutSwapKeepsGenes | src/one_max_genetic_algorithm_vanilla.py:67-70 | Swapping the tails of two genomes at a cut keeps the genes of both together (equal multisets). |
| Variation.CrossoverConservesOnes | src/one_max_genetic_algorithm_vanilla.py:64-72 | The children's total number of ones equals the parents' total. |
| Variation.CrossoverMixes | tests/test_one_max_genetic_algorithm_vanilla.py:187-202 | Crossing parents that differ at both ends changes both children, and the children differ from each other. |
| Variation.Mutate | src/one_max_genetic_algorithm_vanilla.py:75-79 | Mutation preserves the length and changes gene i exactly when draw i is below the rate; a changed gene is inverted. |
| Variation.MutateZeroRate | tests/test_one_max_genetic_algorithm_vanilla.py:210-211 | Rate 0 leaves every genome unchanged. |
| Variation.MutateFullRate | tests/test_one_max_genetic_algorithm_vanilla.py:204-208 | Rate 1 inverts every gene, so a genome with k ones out of L ends with L - k ones. |
| Variation.MutateInvolution | src/one_max_genetic_algorithm_vanilla.py:75-79 | Mutating twice with the same draws restores the genome. |
| Engine.Breed | src/one_max_genetic_algorithm_vanilla.py:101-104 | One pair iteration yields two children of the configured genome length. |
| Engine.Offspring | src/one_max_genetic_algorithm_vanilla.py:98-104 | The pair loop yields exactly two children per pair, all of the configured genome length. |
| Engine.CreateNewPopulation | src/one_max_genetic_algorithm_vanilla.py:90-110 | The new population has exactly `population_size` genomes, all of the configured genome length. This covers odd sizes too. |
| Engine.NoVariationPairs | src/one_max_genetic_algorithm_vanilla.py:99-104 | With both rates 0, every child of the pair loop is a genome of the old population. |
| Engine.NextPopulation | src/one_max_genetic_algorithm_vanilla.py:133-136 | One generation step keeps the population size and the genome length. |
| Engine.NoVariationOnlyCopies | src/one_max_genetic_algorithm_vanilla.py:90-110 | With both rates 0, every genome of the new population, including the lone parent of an odd size, is a genome of the old population. |
| Engine.PopulationAt | src/one_max_genetic_algorithm_vanilla.py:125-136 | The population of every generation has the configured size and genome length. |
| Engine.Stats | src/one_max_genetic_algorithm_vanilla.py:136-138 | For a generation, 0 <= mean <= best <= 1. The best is the target fitness if and only if some genome is all ones. |
| Engine.Converged | src/one_max_genetic_algorithm_vanilla.py:151 | The early-return test: the generation's mean reaches the target generation fitness and its best fitness equals the target fitness 1. Its consequences are stated by ConvergedIff, LoopFrom and GenerationLoop. |
| Engine.ConvergedIff | src/one_max_genetic_algorithm_vanilla.py:136-151 | A generation converges if and only if its mean fitness reaches the target and some genome of its population is all ones. |
| Engine.TrackedGeneration | src/one_max_genetic_algorithm_vanilla.py:129-149 | After n generations, the `>=` update (starting from 0.0) holds the last generation with the highest mean, its mean and its best fitness. |
| Engine.LoopFrom | src/one_max_genetic_algorithm_vanilla.py:131-162 | From generation k on, the loop stops at the first converged generation, with that generation's mean and the tracked best fitness. Otherwise it ends after the last generation with the tracked mean. |
| Engine.GenerationLoop | src/one_max_genetic_algorithm_vanilla.py:129-162 | No generation before the returned one converged. An early return is at a converged generation, with its own mean. The best fitness is that of the last generation reaching the running maximum mean. Without an early return, the result is `max_generations` with that maximum mean. |
| Engine.GeneticAlgorithm | src/one_max_genetic_algorithm_vanilla.py:113-162 | The returned generation is at most `max_generations`, and both fitnesses lie in [0, 1]. An early return has a mean at least the target, and its population holds an all-ones genome. |
| Tracking.Offer | src/main.py:79-83 | One `>=` comparison. The new score is at least both the old score and the offered score, and it is one of the two. The entry is recorded, with its score, if and only if its score reaches the old score. Below the old score nothing changes. |
| Tracking.OfferAllSpec | src/main.py:79-83 | After a run of `>=` offers, the score is the maximum of the start threshold and every offered score. Nothing changes when no offer reaches the threshold. Otherwise the last entry holding the maximum is recorded. |
| Aggregate.SetOverallValues | one_max_genetic_algorithm_python/results.py:26-32 | Histories and limits are kept, and the count is the history length. Each average times the count is the history's sum. With no results, the defaults are `max_generations`, 0 and 0. The best fitness is 0 when empty, otherwise a recorded value at least every recorded value. The score is the weighted formula of these summaries. |
| Aggregate.NewResults | one_max_genetic_algorithm_python/results.py:5-18 | A fresh aggregate has empty histories and average generation `max_generations`. Its score is 0.1 / `max_generations` (the formula overwrites the 0), and its summaries are up to date. |
| Aggregate.AddResult | one_max_genetic_algorithm_python/results.py:20-24 | Exactly one entry is appended to each history, and equal history lengths stay equal. The count grows by one, and the summaries are recomputed. |
| Aggregate.SetOverallValuesIdempotent | one_max_genetic_algorithm_python/results.py:26-32 | Recomputing the summaries of an up-to-date aggregate changes nothing. |
| Aggregate.PonderateScore | one_max_genetic_algorithm_python/results.py:34-55 | The weighted score of the summaries. It carries no contract of its own: WeightsSumToOne, ScoreBounds, ScoreAntitoneInAvgGeneration, ScoreMonotoneInFitness and ScorePositive state its properties. |
| Aggregate.WeightsSumToOne | one_max_genetic_algorithm_python/results.py:38-55 | The weights sum to 1: runs all at maximum fitness ending in generation 1 score exactly 1. |
| Aggregate.ScoreBounds | one_max_genetic_algorithm_python/results.py:44-55 | With fitnesses in [0, max_fitness], a mean in [0, 1] and an average generation in [1, max_generations + 1], the score lies in [0, 1]. |
| Aggregate.ScoreAntitoneInAvgGeneration | one_max_genetic_algorithm_python/results.py:46-55 | A larger average generation never raises the score. |
| Aggregate.ScoreMonotoneInFitness | one_max_genetic_algorithm_python/results.py:45-55 | Larger best, average generation and average best fitnesses never lower the score. |
| Aggregate.ScorePositive | one_max_genetic_algorithm_python/results.py:26-55 | An up-to-date aggregate of runs that stopped within `max_generations` with non-negative fitnesses scores strictly above 0. |
| Aggregate.SummaryTerms | one_max_genetic_algorithm_python/results.py:26-31 | For any summaries that satisfy the averaging and maximum relations over histories within the limits, the best fitness and both fitness averages are non-negative and the average generation is at most `max_generations`. |
| Aggregate.TwoRunsExample | tests/test_results.py:20-37 | Runs ending at generations 1 and 2 give averages 1.5, 0.825 and 0.91, best fitness 0.92 and score 0.897. |
| Sweep.Feed | src/main.py:73-75 | Feeding a list of outcomes appends exactly their generations, means and best fitnesses to the three histories, in order. An up-to-date aggregate stays up to date. |
| Sweep.CellResults | src/main.py:56-75 | A cell's aggregate has limits 400 and 1.0 and holds exactly its runs' outcomes. Its summaries are up to date. |
| Sweep.ValidTraceSteps | src/main.py:51-94 | A valid visiting order starts at cell (0, 0), and each cell follows its predecessor. The next cell is the next column unless the row ended. After a row ends, it is the next row's first cell, and only while the best score is below 0.999. |
| Sweep.Visit | src/main.py:77-83 | Scoring a cell appends it to the visited cells, and the tracker still agrees with the `>=` fold over all visited scores. |
| Sweep.Prunes | src/main.py:85 | The pruning test: not the first column, and the previous column's score is below 0.9 times this cell's score. Its effect on the walk is stated by RowStep and ValidTraceSteps. |
| Sweep.RowStep | src/main.py:77-89 | Scoring column j extends a valid trace. The row ends there exactly when `prev_local_score < 0.9 * score` with j != 0, or j is the last column. Otherwise `prev_local_score` becomes this score for column j + 1. |
| Sweep.VisitRow | src/main.py:53-90 | The inner loop keeps the trace valid and the tracker consistent, and it stops at a cell of its row that ends the row. |
| Sweep.VisitRows | src/main.py:51-94 | The outer loop leaves a valid and complete trace. It stops after a row only when that row is the last one or the best score reached 0.999. |
| Sweep.TrackedBest | src/main.py:77-83 | For a tracker that agrees with the `>=` fold over the visited scores, a cell is recorded if and only if some visited score reached 0.0, and the recorded cell is the last visited one of maximal score. |
| Sweep.RunSweep | src/main.py:47-94 | The trace is valid and complete. A best cell is recorded if and only if some visited score is at least 0.0. The rates are 0.0 when none is recorded. Otherwise the result and rates come from the last visited cell of maximal score. |
| Sweep.BestCellIsTableCell | src/main.py:56-83 | The recorded result is the aggregate of some grid cell's runs, with that cell's two rates. |
| Sweep.ProcessGeneticAlgorithm | src/main.py:32-96 | The sweep over the cells' aggregates visits cells in a valid, complete order. A recorded result is some cell's aggregate with that cell's rates. |
| Sweep.FirstCellPositive | src/main.py:56-77 | A cell whose runs returned what `genetic_algorithm` can return scores above 0. |
| Sweep.BestResultDefined | src/main.py:47-96 | For a grid with at least one cell and possible run outcomes, a best result is always recorded, so `best_result` is bound when line 96 reads it. |

## Left out

- Random number generation: every draw, the initial population and the outcomes of each cell's runs are parameters.
- The statistical assertions of the test suite, such as averages near 0.5, are not modelled.
- The worker pool (`ProcessPoolExecutor`), tqdm progress accounting, argparse, timing decorators, `verbose` printing and `print_best_values` are left out. They do not affect the values computed.
- `best_population` is not modelled: it serves only the verbose output. `best_generation` is recorded as `Snapshot.generation`, and TrackedGeneration and GenerationLoop characterise it, but like the source the loop does not return it.
- IEEE floating point is modelled as exact `real` arithmetic, so the test's expected score 0.897 is exact here.
- `int(n * 0.6)` and `int(n * 0.8)` are modelled as `n * 6 / 10` and `n * 8 / 10`.
- `src/utils.py` and `helper.py` (rounded, evenly spaced rate values) are not part of this model. The sweep takes the two rate lists as given.
- Selection.Lower: lower-cases ASCII letters only, not the full Unicode mapping of Python's `str.lower`.
- Variation.Mutate: returns a new genome. The source mutates in place, and for an odd population the lone parent's mutation also changes that genome inside the old population. Heap aliasing is not modelled.
- Aggregate.ValidLimits: excludes `max_generations == 0` and `max_fitness == 0.0`. With those, `calculate_ponderate_score` raises ZeroDivisionError at `one_max_genetic_algorithm_python/results.py:45-46`, already in the constructor through line 18.
- Engine.ValidConfig: excludes a genome length of 0 with a non-empty population. There `get_genome_fitness` raises ZeroDivisionError at `src/one_max_genetic_algorithm_vanilla.py:14`.
- Selection.SelectParent: requires a non-empty population, because `random.sample` at `src/one_max_genetic_algorithm_vanilla.py:47` and `population[0]` at line 61 raise on an empty one.
- Selection.SelectRoulette: requires a non-empty population, because `population[0]` at `src/one_max_genetic_algorithm_vanilla.py:61` raises on an empty one.
- Variation.Crossover: a parent shorter than 2 with a draw below the rate is excluded by precondition, because `random.randint(1, 0)` raises there.
- Engine.GeneticAlgorithm: takes the draws of all `max_generations` generations, even when the loop returns early. The pure model gives the same outcome as stopping early, because later draws are never read.
- Engine.GeneticAlgorithm: requires `max_generations >= 1`, because with 0 generations the source returns the unbound `best_fitness`.
- Engine.NoVariationOnlyCopies: only the one-step property is proved. The claim that a run without variation never creates an all-ones genome it did not start with, over all generations, is not stated.
- Sweep.ProcessGeneticAlgorithm: `best_result` is modelled as an `Option`, since the source leaves it unbound when no cell was scored.
- Sweep.ProcessGeneticAlgorithm: `results.get_score()` is read as the `score` field.
- The copies of the algorithm in `main.py`, `one_max_genetic_algorithm_python/main.py`, `one_max_genetic_algorithm_python/one_max_genetic_algorithm.py` and `one_max_genetic_algorithm_python/one_max_genetic_algorithm_numpy.py` are not part of this model. They are older variants of the same operators and sweep.
- The pruning comment at `src/main.py:85` says the row is skipped when the score "is not improving". The code prunes when the previous score is below 0.9 times the new score, that is, when the score jumps up. The model follows the code.
- A fresh `Results` scores 0.1 / `max_generations`, not 0. The `score = 0` at `results.py:35-36` is overwritten by the formula, and the model follows the code.
