/** Parent selection of src/one_max_genetic_algorithm_vanilla.py (lines 33-61).
    Every random choice is a parameter: the tournament-size draw, the
    tournament sample (distinct positions, as `random.sample` gives) and the
    roulette draw `u` from `random.random()`. */
module Selection {
  import opened Sums
  import opened Fitness

  /** The two strategies behind the source's mode string. */
  datatype SelectMode = Tournament | Roulette

  /** ASCII lower-casing of one character. */
  function LowerChar(c: char): char {
    if 'A' <= c <= 'Z' then (c as int + 32) as char else c
  }

  /** `s.lower()`, restricted to ASCII letters. */
  function Lower(s: string): string {
    seq(|s|, i requires 0 <= i < |s| => LowerChar(s[i]))
  }

  /** The dispatch test of `select_parent`: "tournament", and every string that
      is neither "roulette" nor "tournament", selects by tournament. */
  function ParseMode(mode: string): (m: SelectMode)
    ensures m == Roulette <==> Lower(mode) == "roulette"
  {
    var lower := Lower(mode);
    if lower == "tournament" || lower !in ["roulette", "tournament"] then Tournament else Roulette
  }

  /** `int(n * 0.6)`, the smallest tournament-size draw. */
  function SizeLow(n: nat): nat {
    n * 6 / 10
  }

  /** `int(n * 0.8)`, the largest tournament-size draw. */
  function SizeHigh(n: nat): nat {
    n * 8 / 10
  }

  /** The tournament size after the clamp `size if size > 1 else 1`: never
      below one and never above the population size. */
  function TournamentSize(n: nat, draw: int): (k: nat)
    requires SizeLow(n) <= draw <= SizeHigh(n)
    ensures 1 <= k && draw <= k
    ensures n >= 1 ==> k <= n
    ensures k == draw || k == 1
  {
    if draw > 1 then draw else 1
  }

  /** What `random.sample` of `k` items out of `n` can return: `k` distinct
      positions below `n`. */
  predicate ValidSample(n: nat, k: nat, sample: seq<nat>) {
    && |sample| == k
    && (forall t :: 0 <= t < |sample| ==> sample[t] < n)
    && (forall t, u :: 0 <= t < u < |sample| ==> sample[t] != sample[u])
  }

  /** `max(candidates, key=fitness)` over the sampled positions: the position in
      the sample of the first candidate of maximal fitness. */
  function FirstBest(fits: seq<real>, sample: seq<nat>): (j: nat)
    requires |sample| >= 1
    requires forall t :: 0 <= t < |sample| ==> sample[t] < |fits|
    ensures j < |sample|
    ensures forall t :: 0 <= t < |sample| ==> fits[sample[t]] <= fits[sample[j]]
    ensures forall t :: 0 <= t < j ==> fits[sample[t]] < fits[sample[j]]
    decreases |sample|
  {
    if |sample| == 1 then 0
    else
      var j := FirstBest(fits, sample[..|sample| - 1]);
      if fits[sample[|sample| - 1]] > fits[sample[j]] then |sample| - 1 else j
  }

  /** `r` is the genome of the first sampled candidate whose fitness is at
      least that of every sampled candidate. */
  ghost predicate WinsTournament(pop: Population, fits: seq<real>, sample: seq<nat>, r: Genome)
    requires |fits| == |pop|
    requires forall t :: 0 <= t < |sample| ==> sample[t] < |pop|
  {
    exists j :: 0 <= j < |sample| && r == pop[sample[j]]
      && (forall t :: 0 <= t < |sample| ==> fits[sample[t]] <= fits[sample[j]])
      && (forall t :: 0 <= t < j ==> fits[sample[t]] < fits[sample[j]])
  }

  /** `select_parent_tournament`. */
  function SelectTournament(pop: Population, fits: seq<real>, size: nat, sample: seq<nat>): (r: Genome)
    requires |fits| == |pop|
    requires size >= 1 && ValidSample(|pop|, size, sample)
    ensures r in pop
    ensures WinsTournament(pop, fits, sample, r)
  {
    var j := FirstBest(fits, sample);
    pop[sample[j]]
  }

  /** The running fitness total after individual `i`, `current` in the source. */
  function RunningSum(fits: seq<real>, i: nat): real
    requires i < |fits|
  {
    SumReal(fits[..i + 1])
  }

  /** The roulette walk from position `k` on, `current` being the total so far. */
  function RouletteFrom(fits: seq<real>, pick: real, k: nat, current: real): (r: nat)
    requires |fits| >= 1 && k <= |fits|
    requires current == SumReal(fits[..k])
    requires forall i :: 0 <= i < k ==> RunningSum(fits, i) <= pick
    ensures r < |fits|
    ensures (exists i :: k <= i < |fits| && RunningSum(fits, i) > pick) ==>
              RunningSum(fits, r) > pick && forall i :: 0 <= i < r ==> RunningSum(fits, i) <= pick
    ensures (forall i :: k <= i < |fits| ==> RunningSum(fits, i) <= pick) ==> r == 0
    decreases |fits| - k
  {
    if k == |fits| then 0
    else
      assert fits[..k + 1][..k] == fits[..k];
      if current + fits[k] > pick then k
      else RouletteFrom(fits, pick, k + 1, current + fits[k])
  }

  /** The position `select_parent_roulette` returns for a given pick: the first
      individual whose running total strictly exceeds the pick, or the first
      individual when none does. */
  function RouletteIndex(fits: seq<real>, pick: real): (r: nat)
    requires |fits| >= 1
    ensures r < |fits|
    ensures (exists i :: 0 <= i < |fits| && RunningSum(fits, i) > pick) ==>
              RunningSum(fits, r) > pick && forall i :: 0 <= i < r ==> RunningSum(fits, i) <= pick
    ensures (forall i :: 0 <= i < |fits| ==> RunningSum(fits, i) <= pick) ==> r == 0
  {
    RouletteFrom(fits, pick, 0, 0.0)
  }

  /** `random.uniform(0, total)` for the draw `u` of `random.random()`:
      `0 + (total - 0) * u`. */
  function Pick(fits: seq<real>, u: real): real {
    u * SumReal(fits)
  }

  /** `select_parent_roulette`. */
  function SelectRoulette(pop: Population, fits: seq<real>, u: real): (r: Genome)
    requires |pop| >= 1 && |fits| == |pop|
    requires 0.0 <= u <= 1.0
    ensures r in pop
    ensures r == pop[RouletteIndex(fits, Pick(fits, u))]
  {
    pop[RouletteIndex(fits, Pick(fits, u))]
  }

  /** With non-negative fitnesses a pick below the total lands on an individual
      of positive fitness: zero-fitness genomes are never chosen by the wheel. */
  lemma RouletteLandsOnPositive(fits: seq<real>, pick: real)
    requires |fits| >= 1
    requires forall i :: 0 <= i < |fits| ==> 0.0 <= fits[i]
    requires 0.0 <= pick < SumReal(fits)
    ensures RunningSum(fits, RouletteIndex(fits, pick)) > pick
    ensures fits[RouletteIndex(fits, pick)] > 0.0
  {
    var n := |fits|;
    assert fits[..n] == fits;
    assert RunningSum(fits, n - 1) > pick;
    var r := RouletteIndex(fits, pick);
    if r > 0 {
      assert RunningSum(fits, r - 1) <= pick;
      assert fits[..r + 1][..r] == fits[..r];
    }
  }

  /** The fallback: when the pick reaches the total (every fitness 0, or a
      pick equal to the total) no running sum exceeds it and the first
      individual is returned. */
  lemma RouletteFallback(fits: seq<real>, pick: real)
    requires |fits| >= 1
    requires forall i :: 0 <= i < |fits| ==> 0.0 <= fits[i]
    requires SumReal(fits) <= pick
    ensures RouletteIndex(fits, pick) == 0
  {
    forall i | 0 <= i < |fits|
      ensures RunningSum(fits, i) <= pick
    {
      assert fits == fits[..i + 1] + fits[i + 1..];
      SumRealConcat(fits[..i + 1], fits[i + 1..]);
      SumRealNonNegative(fits[i + 1..]);
    }
  }

  /** The random choices one call of `select_parent` consumes. */
  datatype SelectionDraw =
    | TournamentDraw(sizeDraw: int, sample: seq<nat>)
    | RouletteDraw(u: real)

  /** The draws `random` can produce for a population of `n` under `mode`. */
  predicate ValidDraw(mode: SelectMode, n: nat, d: SelectionDraw) {
    match mode
    case Tournament =>
      && d.TournamentDraw?
      && SizeLow(n) <= d.sizeDraw <= SizeHigh(n)
      && ValidSample(n, TournamentSize(n, d.sizeDraw), d.sample)
    case Roulette =>
      d.RouletteDraw? && 0.0 <= d.u <= 1.0
  }

  /** `select_parent`: dispatch on the mode string, tournament by default. */
  function SelectParent(pop: Population, fits: seq<real>, mode: string, d: SelectionDraw): (r: Genome)
    requires |pop| >= 1 && |fits| == |pop|
    requires ValidDraw(ParseMode(mode), |pop|, d)
    ensures r in pop
    ensures ParseMode(mode) == Tournament ==> WinsTournament(pop, fits, d.sample, r)
    ensures ParseMode(mode) == Roulette ==>
              r == pop[RouletteIndex(fits, Pick(fits, d.u))]
  {
    match ParseMode(mode)
    case Tournament => SelectTournament(pop, fits, TournamentSize(|pop|, d.sizeDraw), d.sample)
    case Roulette => SelectRoulette(pop, fits, d.u)
  }

  /** An unknown mode string selects by tournament (tests/test_one_max_genetic_algorithm_vanilla.py line 145). */
  lemma UnknownModeIsTournament()
    ensures ParseMode("gibberish") == Tournament
    ensures ParseMode("Roulette") == Roulette
  {
    assert Lower("gibberish") == "gibberish";
    assert Lower("Roulette") == "roulette";
  }
}
