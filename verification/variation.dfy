/** Crossover and mutation of src/one_max_genetic_algorithm_vanilla.py
    (lines 64-79). The draws of `random.random()` and the cut point of
    `random.randint(1, len - 1)` are parameters. */
module Variation {
  import opened Sums
  import opened Fitness

  /** Python's `s[:k]` for k >= 0: clamped at the end of the list. */
  function Head<T>(s: seq<T>, k: nat): seq<T> {
    if k <= |s| then s[..k] else s
  }

  /** Python's `s[k:]` for k >= 0: empty past the end of the list. */
  function Tail<T>(s: seq<T>, k: nat): seq<T> {
    if k <= |s| then s[k..] else []
  }

  /** The draws one `crossover` call can see: `random.random()` in [0, 1) and,
      only when that draw is below the rate, a cut point in [1, len - 1]
      (`randint(1, len - 1)` raises for a parent shorter than 2). */
  predicate ValidCrossoverDraw(len: int, rate: real, draw: real, cut: int) {
    && 0.0 <= draw < 1.0
    && (draw < rate ==> 1 <= cut <= len - 1)
  }

  /** `crossover`: single-point tail swap when `draw < rate`, otherwise copies
      of the parents. */
  function Crossover<T>(p1: seq<T>, p2: seq<T>, rate: real, draw: real, cut: int): (children: (seq<T>, seq<T>))
    requires ValidCrossoverDraw(|p1|, rate, draw, cut)
    ensures draw >= rate ==> children == (p1, p2)
    ensures |p1| == |p2| ==> |children.0| == |p1| && |children.1| == |p2|
    ensures |p1| == |p2| ==> forall i :: 0 <= i < |p1| ==>
              multiset{children.0[i], children.1[i]} == multiset{p1[i], p2[i]}
    ensures draw < rate && |p1| == |p2| ==> forall i :: 0 <= i < |p1| ==>
              && children.0[i] == (if i < cut then p1[i] else p2[i])
              && children.1[i] == (if i < cut then p2[i] else p1[i])
  {
    if draw < rate then
      SwappedTails(p1, p2, cut);
      (Head(p1, cut) + Tail(p2, cut), Head(p2, cut) + Tail(p1, cut))
    else
      (p1, p2)
  }

  /** Gene by gene, the tail swap at `cut` of two equally long parents. */
  lemma SwappedTails<T>(p1: seq<T>, p2: seq<T>, cut: int)
    requires 0 <= cut <= |p1|
    ensures var c1, c2 := Head(p1, cut) + Tail(p2, cut), Head(p2, cut) + Tail(p1, cut);
            |p1| == |p2| ==>
              && |c1| == |p1| && |c2| == |p2|
              && forall i :: 0 <= i < |p1| ==>
                   && c1[i] == (if i < cut then p1[i] else p2[i])
                   && c2[i] == (if i < cut then p2[i] else p1[i])
                   && multiset{c1[i], c2[i]} == multiset{p1[i], p2[i]}
  {
    if |p1| == |p2| {
      var c1, c2 := p1[..cut] + p2[cut..], p2[..cut] + p1[cut..];
      forall i | 0 <= i < |p1|
        ensures c1[i] == (if i < cut then p1[i] else p2[i])
        ensures c2[i] == (if i < cut then p2[i] else p1[i])
      {
        if i >= cut {
          assert c1[i] == p2[cut..][i - cut];
          assert c2[i] == p1[cut..][i - cut];
        }
      }
    }
  }

  /** Crossover neither creates nor destroys genes: the two children together
      hold exactly the parents' genes. */
  lemma CrossoverKeepsGenes<T>(p1: seq<T>, p2: seq<T>, rate: real, draw: real, cut: int)
    requires |p1| == |p2|
    requires ValidCrossoverDraw(|p1|, rate, draw, cut)
    ensures var (c1, c2) := Crossover(p1, p2, rate, draw, cut);
            multiset(c1) + multiset(c2) == multiset(p1) + multiset(p2)
  {
    var cs := Crossover(p1, p2, rate, draw, cut);
    if draw < rate {
      assert cs == (p1[..cut] + p2[cut..], p2[..cut] + p1[cut..]);
      CutSwapKeepsGenes(p1, p2, cut);
    } else {
      assert cs == (p1, p2);
    }
  }

  /** Swapping the tails of two lists at a common cut keeps their joint
      contents. */
  lemma CutSwapKeepsGenes<T>(p1: seq<T>, p2: seq<T>, cut: int)
    requires 0 <= cut <= |p1| && cut <= |p2|
    ensures multiset(p1[..cut] + p2[cut..]) + multiset(p2[..cut] + p1[cut..])
            == multiset(p1) + multiset(p2)
  {
    var a, b, c, d := p1[..cut], p1[cut..], p2[..cut], p2[cut..];
    assert p1 == a + b && p2 == c + d;
    SwapTailsKeepsGenes(a, b, c, d);
  }

  /** Exchanging the tails of two lists keeps their joint contents. */
  lemma SwapTailsKeepsGenes<T>(a: seq<T>, b: seq<T>, c: seq<T>, d: seq<T>)
    ensures multiset(a + d) + multiset(c + b) == multiset(a + b) + multiset(c + d)
  {
    assert multiset(a + d) == multiset(a) + multiset(d);
    assert multiset(c + b) == multiset(c) + multiset(b);
    assert multiset(a + b) == multiset(a) + multiset(b);
    assert multiset(c + d) == multiset(c) + multiset(d);
  }

  /** Hence the children carry the parents' total number of ones. */
  lemma CrossoverConservesOnes(p1: Genome, p2: Genome, rate: real, draw: real, cut: int)
    requires |p1| == |p2|
    requires ValidCrossoverDraw(|p1|, rate, draw, cut)
    ensures var (c1, c2) := Crossover(p1, p2, rate, draw, cut);
            SumInt(c1) + SumInt(c2) == SumInt(p1) + SumInt(p2)
  {
    var (c1, c2) := Crossover(p1, p2, rate, draw, cut);
    CrossoverKeepsGenes(p1, p2, rate, draw, cut);
    BitSum(c1);
    BitSum(c2);
    BitSum(p1);
    BitSum(p2);
    assert (multiset(c1) + multiset(c2))[1] == (multiset(p1) + multiset(p2))[1];
  }

  /** Crossing parents that differ at both ends always changes both children
      (the deterministic content of
      tests/test_one_max_genetic_algorithm_vanilla.py lines 187-202). */
  lemma CrossoverMixes<T>(p1: seq<T>, p2: seq<T>, rate: real, draw: real, cut: int)
    requires |p1| == |p2| >= 2
    requires ValidCrossoverDraw(|p1|, rate, draw, cut) && draw < rate
    requires p1[0] != p2[0] && p1[|p1| - 1] != p2[|p2| - 1]
    ensures var (c1, c2) := Crossover(p1, p2, rate, draw, cut);
            c1 != p1 && c2 != p2 && c1 != c2
  {
    var (c1, c2) := Crossover(p1, p2, rate, draw, cut);
    var last := |p1| - 1;
    assert c1[last] == p2[last] && c2[last] == p1[last];
    assert c1[0] == p1[0] && c2[0] == p2[0];
  }

  /** `abs(bit - 1)`. */
  function Flip(b: Bit): Bit {
    var d := b - 1;
    if d < 0 then -d else d
  }

  /** One `random.random()` draw per gene. */
  predicate ValidMutationDraws(len: nat, draws: seq<real>) {
    && |draws| == len
    && (forall i :: 0 <= i < |draws| ==> 0.0 <= draws[i] < 1.0)
  }

  /** `mutate`: gene `i` is flipped exactly when its draw is below the rate. */
  function Mutate(g: Genome, rate: real, draws: seq<real>): (r: Genome)
    requires |draws| == |g|
    ensures |r| == |g|
    ensures forall i :: 0 <= i < |g| ==> (r[i] != g[i] <==> draws[i] < rate)
    ensures forall i :: 0 <= i < |g| ==> r[i] == (if draws[i] < rate then 1 - g[i] else g[i])
    decreases |g|
  {
    if |g| == 0 then []
    else [if draws[0] < rate then Flip(g[0]) else g[0]] + Mutate(g[1..], rate, draws[1..])
  }

  /** Rate 0 never flips (tests/test_one_max_genetic_algorithm_vanilla.py line 210). */
  lemma MutateZeroRate(g: Genome, draws: seq<real>)
    requires ValidMutationDraws(|g|, draws)
    ensures Mutate(g, 0.0, draws) == g
  {
  }

  /** Rate 1 inverts every gene, so a genome with k ones ends with L - k ones
      (tests/test_one_max_genetic_algorithm_vanilla.py lines 204-208). */
  lemma MutateFullRate(g: Genome, draws: seq<real>)
    requires ValidMutationDraws(|g|, draws)
    ensures forall i :: 0 <= i < |g| ==> Mutate(g, 1.0, draws)[i] == 1 - g[i]
    ensures SumInt(Mutate(g, 1.0, draws)) == |g| - SumInt(g)
  {
    ComplementSum(g, Mutate(g, 1.0, draws));
  }

  /** A bitwise complement holds the other genes' count of ones. */
  lemma {:induction false} ComplementSum(g: Genome, r: Genome)
    requires |r| == |g|
    requires forall i :: 0 <= i < |g| ==> r[i] == 1 - g[i]
    ensures SumInt(r) == |g| - SumInt(g)
    decreases |g|
  {
    if |g| > 0 {
      ComplementSum(g[..|g| - 1], r[..|r| - 1]);
    }
  }

  /** Mutating twice with the same draws restores the genome: mutation is its
      own inverse for a fixed set of draws. */
  lemma MutateInvolution(g: Genome, rate: real, draws: seq<real>)
    requires |draws| == |g|
    ensures Mutate(Mutate(g, rate, draws), rate, draws) == g
  {
  }
}
