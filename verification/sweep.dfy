/** The parameter sweep of `process_genetic_algorithm` in src/main.py (lines
    32-96): every (mutation rate, crossover rate) cell is scored from a fresh
    `Results` fed the outcomes of its runs, the best cell is tracked, a row is
    cut short when a cell's score jumps past its predecessor's, and the sweep
    stops after a row once the best score reaches the target. The runs
    themselves are inputs: `outcomes[i][j]` holds what the eight runs of cell
    `(i, j)` returned. */
module Sweep {
  import opened Options
  import opened Tracking
  import opened Engine
  import opened Aggregate

  /** Module constants of src/main.py (lines 13-25). */
  const RunTimes: nat := 8
  const Generations: int := 400
  const MaxFitness: real := 1.0
  const TargetProblemFitness: real := 0.999
  /** The factor of the row-pruning test (line 85). */
  const PruneFactor: real := 0.9

  /** One list of `RUN_TIMES` run outcomes per (mutation rate, crossover
      rate) cell, rows by mutation rate. */
  predicate ValidOutcomes(mutationRates: seq<real>, crossoverRates: seq<real>, outcomes: seq<seq<seq<Outcome>>>) {
    && |outcomes| == |mutationRates|
    && forall i :: 0 <= i < |outcomes| ==>
         && |outcomes[i]| == |crossoverRates|
         && forall j :: 0 <= j < |outcomes[i]| ==> |outcomes[i][j]| == RunTimes
  }

  /** The two rate lists and the finished `Results` of every cell. */
  datatype Grid = Grid(
    mutationRates: seq<real>,
    crossoverRates: seq<real>,
    cells: seq<seq<Results>>)

  predicate ValidGrid(g: Grid) {
    && |g.cells| == |g.mutationRates|
    && forall i :: 0 <= i < |g.cells| ==> |g.cells[i]| == |g.crossoverRates|
  }

  /** A cell: row `row` (mutation rate), column `col` (crossover rate). */
  datatype Pos = Pos(row: nat, col: nat)

  predicate InGrid(g: Grid, p: Pos) {
    p.row < |g.mutationRates| && p.col < |g.crossoverRates|
  }

  /** The three components of a list of outcomes. */
  function GenerationsOf(os: seq<Outcome>): (xs: seq<int>)
    ensures |xs| == |os| && forall k :: 0 <= k < |os| ==> xs[k] == os[k].generation
  {
    seq(|os|, k requires 0 <= k < |os| => os[k].generation)
  }

  function GenerationFitnessesOf(os: seq<Outcome>): (xs: seq<real>)
    ensures |xs| == |os| && forall k :: 0 <= k < |os| ==> xs[k] == os[k].generationFitness
  {
    seq(|os|, k requires 0 <= k < |os| => os[k].generationFitness)
  }

  function BestFitnessesOf(os: seq<Outcome>): (xs: seq<real>)
    ensures |xs| == |os| && forall k :: 0 <= k < |os| ==> xs[k] == os[k].bestFitness
  {
    seq(|os|, k requires 0 <= k < |os| => os[k].bestFitness)
  }

  /** `results.add_result` for each outcome, in order: the histories grow by
      exactly the outcomes' components. */
  function Feed(r: Results, os: seq<Outcome>): (s: Results)
    requires ValidLimits(r.maxGenerations, r.maxFitness)
    ensures s.maxGenerations == r.maxGenerations && s.maxFitness == r.maxFitness
    ensures s.generations == r.generations + GenerationsOf(os)
    ensures s.generationFitnesses == r.generationFitnesses + GenerationFitnessesOf(os)
    ensures s.bestFitnesses == r.bestFitnesses + BestFitnessesOf(os)
    ensures Settled(r) ==> Settled(s)
    decreases |os|
  {
    if |os| == 0 then
      assert GenerationsOf(os) == [] && GenerationFitnessesOf(os) == [] && BestFitnessesOf(os) == [];
      assert r.generations + [] == r.generations;
      assert r.generationFitnesses + [] == r.generationFitnesses;
      assert r.bestFitnesses + [] == r.bestFitnesses;
      r
    else
      var init := os[..|os| - 1];
      var last := os[|os| - 1];
      ComponentsSnoc(os);
      ConcatAssoc(r.generations, GenerationsOf(init), [last.generation]);
      ConcatAssoc(r.generationFitnesses, GenerationFitnessesOf(init), [last.generationFitness]);
      ConcatAssoc(r.bestFitnesses, BestFitnessesOf(init), [last.bestFitness]);
      AddResult(Feed(r, init), last.generation, last.generationFitness, last.bestFitness)
  }

  lemma ConcatAssoc<T>(a: seq<T>, b: seq<T>, c: seq<T>)
    ensures (a + b) + c == a + (b + c)
  {
  }

  /** The components of a non-empty list: those of all but the last
      outcome, then the last outcome's. */
  lemma ComponentsSnoc(os: seq<Outcome>)
    requires |os| > 0
    ensures var init := os[..|os| - 1];
            var last := os[|os| - 1];
            && GenerationsOf(os) == GenerationsOf(init) + [last.generation]
            && GenerationFitnessesOf(os) == GenerationFitnessesOf(init) + [last.generationFitness]
            && BestFitnessesOf(os) == BestFitnessesOf(init) + [last.bestFitness]
  {
  }

  /** The `Results(max_generations=GENERATIONS, max_fitness=1.0)` of a cell
      after its `RUN_TIMES` runs: its histories are exactly the runs'
      outcomes, and its summaries are up to date. */
  function CellResults(os: seq<Outcome>): (r: Results)
    requires |os| == RunTimes
    ensures r.maxGenerations == Generations && r.maxFitness == MaxFitness
    ensures r.generations == GenerationsOf(os)
    ensures r.generationFitnesses == GenerationFitnessesOf(os)
    ensures r.bestFitnesses == BestFitnessesOf(os)
    ensures Settled(r)
  {
    Feed(NewResults(Generations, MaxFitness), os)
  }

  /** The `Results` of every cell. */
  function CellTable(mutationRates: seq<real>, crossoverRates: seq<real>, outcomes: seq<seq<seq<Outcome>>>): (g: Grid)
    requires ValidOutcomes(mutationRates, crossoverRates, outcomes)
    ensures ValidGrid(g) && g.mutationRates == mutationRates && g.crossoverRates == crossoverRates
    ensures forall i, j :: 0 <= i < |outcomes| && 0 <= j < |crossoverRates| ==>
              g.cells[i][j] == CellResults(outcomes[i][j])
  {
    Grid(mutationRates, crossoverRates,
         seq(|outcomes|, i requires 0 <= i < |outcomes| =>
           seq(|crossoverRates|, j requires 0 <= j < |crossoverRates| => CellResults(outcomes[i][j]))))
  }

  /** `results.get_score()` of a cell. */
  function Score(g: Grid, p: Pos): real
    requires ValidGrid(g) && InGrid(g, p)
  {
    g.cells[p.row][p.col].score
  }

  /** The pruning test at `p`: not the first cell of its row, and the score
      of the cell before it is below 0.9 times the score of `p`. */
  predicate Prunes(g: Grid, p: Pos)
    requires ValidGrid(g) && InGrid(g, p)
  {
    p.col != 0 && Score(g, Pos(p.row, p.col - 1)) < Score(g, p) * PruneFactor
  }

  /** `p` is the last cell visited in its row: the row is exhausted or pruned. */
  predicate RowEnds(g: Grid, p: Pos)
    requires ValidGrid(g) && InGrid(g, p)
  {
    p.col == |g.crossoverRates| - 1 || Prunes(g, p)
  }

  /** The tracker entries of a list of visited cells, in visiting order. */
  function Entries(g: Grid, ps: seq<Pos>): (es: seq<Entry<Pos>>)
    requires ValidGrid(g) && forall k :: 0 <= k < |ps| ==> InGrid(g, ps[k])
    ensures |es| == |ps|
    ensures forall k :: 0 <= k < |ps| ==> es[k] == Entry(Score(g, ps[k]), ps[k])
  {
    seq(|ps|, k requires 0 <= k < |ps| => Entry(Score(g, ps[k]), ps[k]))
  }

  /** `prev_best_score` after visiting `ps`. */
  function BestSoFar(g: Grid, ps: seq<Pos>): real
    requires ValidGrid(g) && forall k :: 0 <= k < |ps| ==> InGrid(g, ps[k])
  {
    OfferAll(Start(), Entries(g, ps)).score
  }

  /** The cell visited after `p`, given the best score once `p` was scored:
      the next column, unless `p` ends its row; then the first column of the
      next row, and only while the best score is below the target. */
  predicate Follows(g: Grid, p: Pos, q: Pos, bestSoFar: real)
    requires ValidGrid(g) && InGrid(g, p)
  {
    if RowEnds(g, p) then bestSoFar < TargetProblemFitness && q == Pos(p.row + 1, 0)
    else q == Pos(p.row, p.col + 1)
  }

  predicate AllInGrid(g: Grid, ps: seq<Pos>) {
    forall k :: 0 <= k < |ps| ==> InGrid(g, ps[k])
  }

  /** A visiting order that starts at the first cell and moves by `Follows`:
      each cell follows its predecessor given the best score over the cells
      up to and including that predecessor. */
  predicate ValidTrace(g: Grid, ps: seq<Pos>)
    requires ValidGrid(g)
    decreases |ps|
  {
    && AllInGrid(g, ps)
    && (|ps| == 1 ==> ps[0] == Pos(0, 0))
    && (|ps| >= 2 ==>
          && ValidTrace(g, ps[..|ps| - 1])
          && Follows(g, ps[|ps| - 2], ps[|ps| - 1], BestSoFar(g, ps[..|ps| - 1])))
  }

  /** The recursive definition, unrolled: the trace starts at the first cell
      and every consecutive pair is related by `Follows`. */
  lemma {:induction false} ValidTraceSteps(g: Grid, ps: seq<Pos>)
    requires ValidGrid(g) && ValidTrace(g, ps)
    ensures |ps| > 0 ==> ps[0] == Pos(0, 0)
    ensures forall k :: 0 <= k < |ps| - 1 ==> Follows(g, ps[k], ps[k + 1], BestSoFar(g, ps[..k + 1]))
    decreases |ps|
  {
    if |ps| >= 2 {
      var init := ps[..|ps| - 1];
      ValidTraceSteps(g, init);
      forall k | 0 <= k < |ps| - 2
        ensures Follows(g, ps[k], ps[k + 1], BestSoFar(g, ps[..k + 1]))
      {
        assert init[..k + 1] == ps[..k + 1];
        assert init[k] == ps[k] && init[k + 1] == ps[k + 1];
      }
    }
  }

  /** A visiting order that cannot go on: the grid has no cell, or the last
      cell ends its row and is in the last row or the target was reached. */
  predicate Complete(g: Grid, ps: seq<Pos>)
    requires ValidGrid(g) && AllInGrid(g, ps)
  {
    if |ps| == 0 then |g.mutationRates| == 0 || |g.crossoverRates| == 0
    else
      var last := ps[|ps| - 1];
      && RowEnds(g, last)
      && (last.row == |g.mutationRates| - 1 || BestSoFar(g, ps) >= TargetProblemFitness)
  }

  /** The loop state: the tracker (`prev_best_score` with the best cell) and
      the cells visited so far. */
  datatype State = State(best: Best<Pos>, visited: seq<Pos>)

  /** The tracker agrees with the visited cells. */
  predicate Tracked(g: Grid, s: State)
    requires ValidGrid(g)
  {
    && AllInGrid(g, s.visited)
    && s.best == OfferAll(Start(), Entries(g, s.visited))
  }

  /** The entries of a trace extended by one cell. */
  lemma EntriesSnoc(g: Grid, ps: seq<Pos>, p: Pos)
    requires ValidGrid(g) && InGrid(g, p) && forall k :: 0 <= k < |ps| ==> InGrid(g, ps[k])
    ensures Entries(g, ps + [p]) == Entries(g, ps) + [Entry(Score(g, p), p)]
  {
  }

  /** Scoring cell `p`: the `score >= prev_best_score` update, then the cell
      is recorded as visited. */
  function Visit(g: Grid, s: State, p: Pos): (t: State)
    requires ValidGrid(g) && InGrid(g, p) && Tracked(g, s)
    ensures t.visited == s.visited + [p]
    ensures Tracked(g, t)
  {
    var t := State(Offer(s.best, Entry(Score(g, p), p)), s.visited + [p]);
    EntriesSnoc(g, s.visited, p);
    assert Entries(g, t.visited)[..|s.visited|] == Entries(g, s.visited);
    t
  }

  /** Appending a cell that follows the last one keeps a trace valid. */
  lemma TraceSnoc(g: Grid, ps: seq<Pos>, q: Pos)
    requires ValidGrid(g) && ValidTrace(g, ps) && InGrid(g, q)
    requires |ps| == 0 ==> q == Pos(0, 0)
    requires |ps| > 0 ==> Follows(g, ps[|ps| - 1], q, BestSoFar(g, ps))
    ensures ValidTrace(g, ps + [q])
  {
    var qs := ps + [q];
    assert qs[..|qs| - 1] == ps;
  }

  /** What holds before column `j` of row `i` is scored: the state is
      consistent, and the cell before it (the previous column, or the last
      cell of the previous row, or none) lets the sweep reach `(i, j)`. */
  predicate RowInvariant(g: Grid, i: nat, j: nat, prevLocal: real, s: State)
    requires ValidGrid(g)
  {
    && Tracked(g, s) && ValidTrace(g, s.visited)
    && (j == 0 ==> prevLocal == 0.0)
    && (j == 0 && |s.visited| == 0 ==> i == 0 || |g.crossoverRates| == 0)
    && (j == 0 && |s.visited| > 0 ==>
          var last := s.visited[|s.visited| - 1];
          && RowEnds(g, last) && last.row + 1 == i && s.best.score < TargetProblemFitness)
    && (j > 0 ==>
          && i < |g.mutationRates| && j - 1 < |g.crossoverRates|
          && |s.visited| > 0
          && s.visited[|s.visited| - 1] == Pos(i, j - 1)
          && prevLocal == Score(g, Pos(i, j - 1))
          && !RowEnds(g, Pos(i, j - 1)))
  }

  /** Scoring cell `(i, j)` keeps the state consistent, extends the trace, and
      the source's pruning test is exactly `Prunes`; when the row goes on, the
      invariant holds before the next column. */
  lemma RowStep(g: Grid, i: nat, j: nat, prevLocal: real, s: State)
    requires ValidGrid(g) && i < |g.mutationRates| && j < |g.crossoverRates|
    requires RowInvariant(g, i, j, prevLocal, s)
    ensures var p := Pos(i, j);
            var next := Visit(g, s, p);
            && Tracked(g, next) && ValidTrace(g, next.visited)
            && |next.visited| > 0 && next.visited[|next.visited| - 1] == p
            && (RowEnds(g, p) <==> (prevLocal < Score(g, p) * PruneFactor && j != 0) || j + 1 == |g.crossoverRates|)
            && (!RowEnds(g, p) ==> RowInvariant(g, i, j + 1, Score(g, p), next))
  {
    var p := Pos(i, j);
    TraceSnoc(g, s.visited, p);
    var next := Visit(g, s, p);
    assert next.visited[|next.visited| - 1] == p;
  }

  /** The inner `for i, crossover_rate in enumerate(...)` loop of row `i`
      from column `j` on, `prevLocal` being `prev_local_score`. */
  function VisitRow(g: Grid, i: nat, j: nat, prevLocal: real, s: State): (t: State)
    requires ValidGrid(g) && i < |g.mutationRates| && j < |g.crossoverRates|
    requires RowInvariant(g, i, j, prevLocal, s)
    ensures Tracked(g, t) && ValidTrace(g, t.visited)
    ensures |t.visited| > 0
    ensures t.visited[|t.visited| - 1].row == i && RowEnds(g, t.visited[|t.visited| - 1])
    decreases |g.crossoverRates| - j
  {
    var p := Pos(i, j);
    var score := Score(g, p);
    RowStep(g, i, j, prevLocal, s);
    var next := Visit(g, s, p);
    if (prevLocal < score * PruneFactor && j != 0) || j + 1 == |g.crossoverRates| then
      next
    else
      VisitRow(g, i, j + 1, score, next)
  }

  /** The outer `for mutation_rate in ...` loop from row `i` on, with the
      global stop after each row. */
  function VisitRows(g: Grid, i: nat, s: State): (t: State)
    requires ValidGrid(g) && i <= |g.mutationRates|
    requires Tracked(g, s) && ValidTrace(g, s.visited)
    requires |s.visited| == 0 ==> i == 0 || |g.crossoverRates| == 0
    requires |s.visited| > 0 ==>
               var last := s.visited[|s.visited| - 1];
               && RowEnds(g, last) && last.row + 1 == i && s.best.score < TargetProblemFitness
    ensures Tracked(g, t) && ValidTrace(g, t.visited) && Complete(g, t.visited)
    decreases |g.mutationRates| - i
  {
    if i == |g.mutationRates| then
      s
    else
      var next := if |g.crossoverRates| == 0 then s else VisitRow(g, i, 0, 0.0, s);
      if next.best.score >= TargetProblemFitness then next
      else VisitRows(g, i + 1, next)
  }

  /** What the sweep leaves behind: the best rates (0.0 when no cell was
      recorded), the best cell's `Results` (unbound in the source when no
      cell was recorded) and the cells visited, in order. */
  datatype SweepResult = SweepResult(
    bestMutationRate: real,
    bestCrossoverRate: real,
    bestResult: Option<Results>,
    visited: seq<Pos>)

  /** The sweep over a grid of finished cells: the cells are visited row by
      row exactly as `Follows` prescribes until `Complete`; the recorded cell
      is the last visited cell of maximal score, recorded iff some score
      reached 0.0. */
  function RunSweep(g: Grid): (r: SweepResult)
    requires ValidGrid(g)
    ensures ValidTrace(g, r.visited) && Complete(g, r.visited)
    ensures r.bestResult.Some? <==> exists k :: 0 <= k < |r.visited| && Score(g, r.visited[k]) >= 0.0
    ensures r.bestResult.None? ==> r.bestMutationRate == 0.0 && r.bestCrossoverRate == 0.0
    ensures r.bestResult.Some? ==>
              exists k :: && IsLastMax(Entries(g, r.visited), k)
                          && var p := r.visited[k];
                             && r.bestResult.value == g.cells[p.row][p.col]
                             && r.bestMutationRate == g.mutationRates[p.row]
                             && r.bestCrossoverRate == g.crossoverRates[p.col]
  {
    var t := VisitRows(g, 0, State(Start(), []));
    TrackedBest(g, t);
    match t.best.item
    case None => SweepResult(0.0, 0.0, None, t.visited)
    case Some(p) =>
      SweepResult(g.mutationRates[p.row], g.crossoverRates[p.col], Some(g.cells[p.row][p.col]), t.visited)
  }

  /** What a tracked state holds: a cell is recorded iff some visited score
      reached 0.0, and the recorded cell is the last visited one of maximal
      score. */
  lemma TrackedBest(g: Grid, t: State)
    requires ValidGrid(g) && Tracked(g, t)
    ensures t.best.item.Some? <==> exists k :: 0 <= k < |t.visited| && Score(g, t.visited[k]) >= 0.0
    ensures t.best.item.Some? ==>
              exists k :: IsLastMax(Entries(g, t.visited), k) && t.best.item.value == t.visited[k]
  {
    var es := Entries(g, t.visited);
    OfferAllSpec(Start(), es);
    if t.best.item.Some? {
      assert exists k :: 0 <= k < |es| && es[k].score >= 0.0;
    }
  }

  /** `process_genetic_algorithm`, given the outcomes of every cell's runs:
      each cell's `Results` is a fresh aggregate fed exactly its runs, and the
      sweep runs over those cells. */
  function ProcessGeneticAlgorithm(mutationRates: seq<real>, crossoverRates: seq<real>,
                                   outcomes: seq<seq<seq<Outcome>>>): (r: SweepResult)
    requires ValidOutcomes(mutationRates, crossoverRates, outcomes)
    ensures var g := CellTable(mutationRates, crossoverRates, outcomes);
            && ValidTrace(g, r.visited) && Complete(g, r.visited)
    ensures r.bestResult.Some? ==>
              exists i, j :: && 0 <= i < |mutationRates| && 0 <= j < |crossoverRates|
                             && r.bestResult.value == CellResults(outcomes[i][j])
                             && r.bestMutationRate == mutationRates[i]
                             && r.bestCrossoverRate == crossoverRates[j]
  {
    var r := RunSweep(CellTable(mutationRates, crossoverRates, outcomes));
    BestCellIsTableCell(mutationRates, crossoverRates, outcomes, r);
    r
  }

  /** The cell a sweep of the table records is the aggregate of one grid
      position's runs, with that position's rates. */
  lemma BestCellIsTableCell(mutationRates: seq<real>, crossoverRates: seq<real>,
                            outcomes: seq<seq<seq<Outcome>>>, r: SweepResult)
    requires ValidOutcomes(mutationRates, crossoverRates, outcomes)
    requires r == RunSweep(CellTable(mutationRates, crossoverRates, outcomes))
    ensures r.bestResult.Some? ==>
              exists i, j :: && 0 <= i < |mutationRates| && 0 <= j < |crossoverRates|
                             && r.bestResult.value == CellResults(outcomes[i][j])
                             && r.bestMutationRate == mutationRates[i]
                             && r.bestCrossoverRate == crossoverRates[j]
  {
    var g := CellTable(mutationRates, crossoverRates, outcomes);
    if r.bestResult.Some? {
      var k :| && IsLastMax(Entries(g, r.visited), k)
               && var p := r.visited[k];
                  && r.bestResult.value == g.cells[p.row][p.col]
                  && r.bestMutationRate == g.mutationRates[p.row]
                  && r.bestCrossoverRate == g.crossoverRates[p.col];
      var p := r.visited[k];
      assert InGrid(g, p);
      assert g.cells[p.row][p.col] == CellResults(outcomes[p.row][p.col]);
    }
  }

  /** What a run of `genetic_algorithm` with `GENERATIONS` generations can
      return. */
  predicate PossibleOutcome(o: Outcome) {
    && 0 <= o.generation <= Generations
    && 0.0 <= o.generationFitness <= 1.0
    && 0.0 <= o.bestFitness <= 1.0
  }

  /** `best_result` is always bound after the sweep (line 96 reads it) when
      the grid has a cell and every run returned what `genetic_algorithm`
      can return: the first cell's score is positive, so it beats the
      initial best score of 0.0. */
  lemma BestResultDefined(mutationRates: seq<real>, crossoverRates: seq<real>,
                          outcomes: seq<seq<seq<Outcome>>>)
    requires ValidOutcomes(mutationRates, crossoverRates, outcomes)
    requires |mutationRates| > 0 && |crossoverRates| > 0
    requires forall i, j, k :: 0 <= i < |outcomes| && 0 <= j < |outcomes[i]| && 0 <= k < |outcomes[i][j]| ==>
               PossibleOutcome(outcomes[i][j][k])
    ensures ProcessGeneticAlgorithm(mutationRates, crossoverRates, outcomes).bestResult.Some?
  {
    var g := CellTable(mutationRates, crossoverRates, outcomes);
    var r := RunSweep(g);
    assert ProcessGeneticAlgorithm(mutationRates, crossoverRates, outcomes) == r;
    ValidTraceSteps(g, r.visited);
    assert r.visited[0] == Pos(0, 0);
    FirstCellPositive(outcomes[0][0]);
    assert Score(g, r.visited[0]) > 0.0;
  }

  /** A cell fed possible outcomes scores above 0. */
  lemma FirstCellPositive(os: seq<Outcome>)
    requires |os| == RunTimes
    requires forall k :: 0 <= k < |os| ==> PossibleOutcome(os[k])
    ensures CellResults(os).score > 0.0
  {
    ComponentsPossible(os);
    ScorePositive(CellResults(os));
  }

  lemma ComponentsPossible(os: seq<Outcome>)
    requires forall k :: 0 <= k < |os| ==> PossibleOutcome(os[k])
    ensures forall k :: 0 <= k < |GenerationsOf(os)| ==> 0 <= GenerationsOf(os)[k] <= Generations
    ensures forall k :: 0 <= k < |GenerationFitnessesOf(os)| ==> 0.0 <= GenerationFitnessesOf(os)[k]
    ensures forall k :: 0 <= k < |BestFitnessesOf(os)| ==> 0.0 <= BestFitnessesOf(os)[k]
  {
  }
}
