/**
 * The generational evolution engine: lazy hand-out of candidate genomes,
 * uniform crossover, clamped Gaussian mutation, tournament selection and the
 * construction of the next generation.  Every random draw is a parameter; the
 * two sorts by fitness are given as permutations.
 */
module Evolution {
  import opened Genomes
  import opened World

  const MutRate: real := 0.3
  const MutVar: real := 0.1
  const TournSize: nat := 5
  const EliteClones: nat := 0
  /** A gene pair is swapped when its draw is below one half. */
  const SwapRate: real := 0.5

  /** The two conditional assignments that keep a mutated gene inside [0,1]. */
  function Clamp01(x: real): (r: real)
    ensures InUnit(r)
    ensures InUnit(x) ==> r == x
    ensures x > 1.0 ==> r == 1.0
    ensures x < 0.0 ==> r == 0.0
  {
    var y := if x > 1.0 then 1.0 else x;
    if y < 0.0 then 0.0 else y
  }

  /** Index at which a left-to-right scan with a strict `>` test keeps its winner. */
  function FirstMaxIndex(f: seq<real>): (k: nat)
    requires |f| > 0
    ensures k < |f|
    ensures forall j :: 0 <= j < |f| ==> f[j] <= f[k]
    ensures forall j :: 0 <= j < k ==> f[j] < f[k]
  {
    if |f| == 1 then 0 else
      var k := FirstMaxIndex(f[..|f| - 1]);
      if f[|f| - 1] > f[k] then |f| - 1 else k
  }

  lemma FirstMaxIndexStep(f: seq<real>, i: nat)
    requires 0 < i < |f|
    ensures FirstMaxIndex(f[..i + 1]) ==
      (var k := FirstMaxIndex(f[..i]); if f[i] > f[k] then i else k)
  {
    assert f[..i + 1][..i] == f[..i];
  }

  /** The fitness of each tournament contestant, in draw order. */
  function Fitnesses(pop: seq<Genome>, picks: seq<int>): (r: seq<real>)
    reads set g | g in pop
    requires forall k :: 0 <= k < |picks| ==> 0 <= picks[k] < |pop|
    ensures |r| == |picks|
    ensures forall k :: 0 <= k < |picks| ==> r[k] == pop[picks[k]].fitness
  {
    if picks == [] then [] else Fitnesses(pop, picks[..|picks| - 1]) + [pop[picks[|picks| - 1]].fitness]
  }

  predicate IsPermutation(order: seq<int>, n: nat) {
    && |order| == n
    && (forall i :: 0 <= i < n ==> 0 <= order[i] < n)
    && (forall i, j :: 0 <= i < j < n ==> order[i] != order[j])
    && (forall v :: 0 <= v < n ==> v in order)
  }

  /** `s` rearranged: position i holds `s[order[i]]`. */
  function Permuted<T>(s: seq<T>, order: seq<int>): (r: seq<T>)
    requires forall i :: 0 <= i < |order| ==> 0 <= order[i] < |s|
    ensures |r| == |order|
    ensures forall i :: 0 <= i < |order| ==> r[i] == s[order[i]]
  {
    seq(|order|, i requires 0 <= i < |order| => s[order[i]])
  }

  /** A permutation of 0..n with the position holding n taken out is a permutation of 0..n-1. */
  lemma PermutationWithout(order: seq<int>, n: nat, k: nat)
    requires IsPermutation(order, n + 1) && k < |order| && order[k] == n
    ensures IsPermutation(order[..k] + order[k + 1..], n)
  {
    var rest := order[..k] + order[k + 1..];
    assert forall i :: 0 <= i < |rest| ==> rest[i] == if i < k then order[i] else order[i + 1];
    forall v | 0 <= v < n
      ensures v in rest
    {
      assert v in order;
      var i :| 0 <= i < |order| && order[i] == v;
      if i < k { assert rest[i] == v; } else { assert rest[i - 1] == v; }
    }
  }

  /** Taking out the position that holds the last element: the rest of `s`, rearranged by the rest of `order`. */
  lemma PermutedWithout<T>(s: seq<T>, order: seq<int>, k: nat)
    requires IsPermutation(order, |s|) && k < |order| && order[k] == |s| - 1
    requires IsPermutation(order[..k] + order[k + 1..], |s| - 1)
    ensures var r := Permuted(s, order);
      Permuted(s[..|s| - 1], order[..k] + order[k + 1..]) == r[..k] + r[k + 1..] && r[k] == s[|s| - 1]
  {
    var rest := order[..k] + order[k + 1..];
    assert forall i :: 0 <= i < |rest| ==> rest[i] == if i < k then order[i] else order[i + 1];
  }

  /** Putting back the element taken out at `k` restores the multiset. */
  lemma MultisetSplice<T>(r: seq<T>, k: nat, without: seq<T>, s: seq<T>)
    requires k < |r| && s != [] && without == r[..k] + r[k + 1..] && r[k] == s[|s| - 1]
    requires multiset(without) == multiset(s[..|s| - 1])
    ensures multiset(r) == multiset(s)
  {
    assert r == r[..k] + [r[k]] + r[k + 1..];
    assert s == s[..|s| - 1] + [s[|s| - 1]];
  }

  /** Rearranging by a permutation keeps the multiset of elements. */
  lemma {:induction false} PermutedMultiset<T>(s: seq<T>, order: seq<int>)
    requires IsPermutation(order, |s|)
    ensures multiset(Permuted(s, order)) == multiset(s)
    decreases |s|
  {
    if s != [] {
      var r := Permuted(s, order);
      var n := |s| - 1;
      assert n in order;
      var k :| 0 <= k < |order| && order[k] == n;
      var rest := order[..k] + order[k + 1..];
      PermutationWithout(order, n, k);
      PermutedMultiset(s[..n], rest);
      PermutedWithout(s, order, k);
      MultisetSplice(r, k, Permuted(s[..n], rest), s);
    }
  }

  /** Rearranging by a permutation keeps exactly the same elements, each as often. */
  lemma PermutedSameElements<T>(s: seq<T>, order: seq<int>)
    requires IsPermutation(order, |s|)
    ensures multiset(Permuted(s, order)) == multiset(s)
    ensures forall i :: 0 <= i < |s| ==> s[i] in Permuted(s, order)
    ensures forall i :: 0 <= i < |s| ==> Permuted(s, order)[i] in s
  {
    PermutedMultiset(s, order);
    SameMultisetSameElements(s, Permuted(s, order));
  }

  /** Sequences with the same multiset have the same elements. */
  lemma SameMultisetSameElements<T>(a: seq<T>, b: seq<T>)
    requires multiset(a) == multiset(b)
    ensures forall i :: 0 <= i < |a| ==> a[i] in b
    ensures forall i :: 0 <= i < |b| ==> b[i] in a
  {
    forall i | 0 <= i < |a|
      ensures a[i] in b
    {
      assert a[i] in multiset(a);
    }
    forall i | 0 <= i < |b|
      ensures b[i] in a
    {
      assert b[i] in multiset(b);
    }
  }

  /**
   * The genes of the first parent after uniform crossover: at index i it takes
   * the other parent's gene when `d[i]` is below one half (an index with no
   * partner gene or no draw keeps its own).
   */
  function Crossed(x: seq<real>, y: seq<real>, d: seq<real>): seq<real> {
    seq(|x|, i requires 0 <= i < |x| => if i < |y| && i < |d| && d[i] < SwapRate then y[i] else x[i])
  }

  /**
   * The genes after mutation: a gene whose draw is below MutRate moves by
   * `g[i] * MutVar` and is clamped (an index with no draw is left alone).
   */
  function Mutated(x: seq<real>, d: seq<real>, g: seq<real>): seq<real> {
    seq(|x|, i requires 0 <= i < |x| =>
      if i < |d| && i < |g| && d[i] < MutRate then Clamp01(x[i] + g[i] * MutVar) else x[i])
  }

  /** A child of the ordered pair (x, y): crossed with y, then mutated. */
  function Child(x: seq<real>, y: seq<real>, cross: seq<real>, d: seq<real>, g: seq<real>): seq<real> {
    Mutated(Crossed(x, y, cross), d, g)
  }

  /**
   * A child of pair `p` of the next generation bred from the gene vectors
   * `sel`: the pair is `sel[2p]` with the vector after it, or with `first`
   * when the selection is used up, and is crossed with row p of `cross`.
   * Child 2p (`second` false) is the first parent's side and child 2p+1 the
   * partner's; child j is mutated with row j of `mut` and `gauss`.
   */
  function Kid(sel: seq<seq<real>>, first: seq<real>, cross: seq<seq<real>>,
               mut: seq<seq<real>>, gauss: seq<seq<real>>, p: nat, second: bool): seq<real>
    requires 2 * p < |sel| && |cross| >= |sel| && |mut| >= 2 * |sel| && |gauss| >= 2 * |sel|
  {
    var x := sel[2 * p];
    var y := if 2 * p + 1 < |sel| then sel[2 * p + 1] else first;
    if second then Child(y, x, cross[p], mut[2 * p + 1], gauss[2 * p + 1])
    else Child(x, y, cross[p], mut[2 * p], gauss[2 * p])
  }

  /**
   * The gene vectors of the whole next generation bred from the selection
   * genes `sel`: child j is child `j % 2` of pair `j / 2`, and an odd
   * selection gets one extra child.
   */
  function Brood(sel: seq<seq<real>>, first: seq<real>, cross: seq<seq<real>>,
                     mut: seq<seq<real>>, gauss: seq<seq<real>>): (r: seq<seq<real>>)
    requires |cross| >= |sel| && |mut| >= 2 * |sel| && |gauss| >= 2 * |sel|
    ensures |r| == |sel| + |sel| % 2
  {
    seq(|sel| + |sel| % 2, j requires 0 <= j < |sel| + |sel| % 2 =>
      Kid(sel, first, cross, mut, gauss, j / 2, j % 2 == 1))
  }

  /** A generation whose every pair p holds the two kids of pair p is the brood of the selection. */
  lemma {:induction false} PairsAreBrood(kids: seq<Genome>, sel: seq<seq<real>>, first: seq<real>,
                                         cross: seq<seq<real>>, mut: seq<seq<real>>, gauss: seq<seq<real>>)
    requires |cross| >= |sel| && |mut| >= 2 * |sel| && |gauss| >= 2 * |sel|
    requires |kids| == |sel| + |sel| % 2
    requires forall p: nat :: 2 * p + 1 < |kids| ==>
      && kids[2 * p].genes[..] == Kid(sel, first, cross, mut, gauss, p, false)
      && kids[2 * p + 1].genes[..] == Kid(sel, first, cross, mut, gauss, p, true)
    ensures forall j :: 0 <= j < |kids| ==> kids[j].genes[..] == Brood(sel, first, cross, mut, gauss)[j]
  {
    var r := Brood(sel, first, cross, mut, gauss);
    forall j | 0 <= j < |kids| ensures kids[j].genes[..] == r[j] {
      var p: nat := j / 2;
      if j % 2 == 0 {
        assert j == 2 * p && 2 * p + 1 < |kids|;
      } else {
        assert j == 2 * p + 1;
      }
    }
  }

  /** The parity of an even number and of its odd successor. */
  lemma Halves(p: nat)
    ensures (2 * p) % 2 == 0 && (2 * p + 1) % 2 == 1
  {
  }

  /** Crossover only redistributes genes: at every index the pair holds the parents' two genes. */
  lemma CrossKeepsGenePool(x: seq<real>, y: seq<real>, d: seq<real>)
    requires |x| == |y| && |x| <= |d|
    ensures |Crossed(x, y, d)| == |Crossed(y, x, d)| == |x|
    ensures forall i :: 0 <= i < |x| ==>
      multiset{Crossed(x, y, d)[i], Crossed(y, x, d)[i]} == multiset{x[i], y[i]}
  {
  }

  /** Crossing the two children again with the same draws gives the parents back. */
  lemma CrossInvolution(x: seq<real>, y: seq<real>, d: seq<real>)
    requires |x| == |y| && |x| <= |d|
    ensures Crossed(Crossed(x, y, d), Crossed(y, x, d), d) == x
  {
  }

  /** A child of two gene vectors in [0,1] has its genes in [0,1], and the same number of them. */
  lemma ChildInUnit(x: seq<real>, y: seq<real>, cross: seq<real>, d: seq<real>, g: seq<real>)
    requires |x| == |y| && |x| <= |cross| && |x| <= |d| && |x| <= |g|
    requires forall i :: 0 <= i < |x| ==> InUnit(x[i]) && InUnit(y[i])
    ensures |Child(x, y, cross, d, g)| == |x|
    ensures forall i :: 0 <= i < |x| ==> InUnit(Child(x, y, cross, d, g)[i])
  {
  }

  ghost predicate AllValid(s: seq<Genome>)
    reads set g | g in s, set g | g in s :: g.genes
  {
    forall g :: g in s ==> g.Valid()
  }

  /** Genomes whose gene arrays are pairwise distinct objects. */
  ghost predicate DistinctGenes(s: seq<Genome>) {
    forall i, j :: 0 <= i < j < |s| ==> s[i].genes != s[j].genes
  }

  /** Valid genomes whose fitness has not been measured yet. */
  ghost predicate Newborn(s: seq<Genome>)
    reads set g | g in s, set g | g in s :: g.genes
  {
    forall g :: g in s ==> g.Valid() && g.fitness == 0.0
  }

  /** Reordering genomes reorders their gene vectors the same way. */
  lemma GenesPermuted(s: seq<Genome>, order: seq<int>, C: seq<seq<real>>)
    requires IsPermutation(order, |s|) && |C| == |s|
    requires forall r :: 0 <= r < |s| ==> s[r].genes[..] == C[r]
    ensures forall r :: 0 <= r < |s| ==> Permuted(s, order)[r].genes[..] == Permuted(C, order)[r]
  {
  }

  /** A valid, unmeasured genome with a gene array of its own can join newborn genomes with distinct arrays. */
  lemma NewbornAppend(s: seq<Genome>, w: Genome)
    requires Newborn(s) && DistinctGenes(s) && w.Valid() && w.fitness == 0.0
    requires forall g :: g in s ==> g.genes != w.genes
    ensures Newborn(s + [w]) && DistinctGenes(s + [w])
  {
  }

  /** Rearranging genomes keeps them valid, unmeasured and with distinct gene arrays. */
  lemma PermutedGenomes(s: seq<Genome>, order: seq<int>)
    requires IsPermutation(order, |s|)
    ensures AllValid(s) ==> AllValid(Permuted(s, order))
    ensures Newborn(s) ==> Newborn(Permuted(s, order))
    ensures DistinctGenes(s) ==> DistinctGenes(Permuted(s, order))
    ensures forall g :: g in Permuted(s, order) ==> g in s
  {
    PermutedSameElements(s, order);
  }

  class Genetic {
    var lastPop: Option<seq<Genome>>
    var pop: seq<Genome>
    var nextCand: int
    var generation: int

    /** The hand-out cursor never passes the population; every genome is valid. */
    ghost predicate Valid()
      reads this, set g | g in pop, set g | g in pop :: g.genes
    {
      0 <= nextCand <= |pop| && AllValid(pop)
    }

    /** The state the engine starts from when no earlier knowledge is available. */
    constructor ()
      ensures Valid()
      ensures pop == [] && lastPop.None? && nextCand == 0 && generation == 0
    {
      lastPop := None;
      pop := [];
      nextCand := 0;
      generation := 0;
    }

    /**
     * Hands out the genome under the cursor, first appending a fresh random
     * genome (built from `draws`) when the cursor is at the end.
     */
    method GetNextCandidate(draws: seq<real>) returns (cand: Genome)
      requires Valid()
      requires |draws| == GeneCount
      requires forall i :: 0 <= i < |draws| ==> 0.0 <= draws[i] < 1.0
      modifies this
      ensures Valid()
      ensures nextCand == old(nextCand) + 1 && cand == pop[old(nextCand)]
      ensures old(nextCand) < old(|pop|) ==> pop == old(pop)
      ensures old(nextCand) == old(|pop|) ==>
        pop == old(pop) + [cand] && fresh(cand) && cand.genes[..] == draws && cand.fitness == 0.0
      ensures generation == old(generation) && lastPop == old(lastPop)
    {
      if |pop| <= nextCand {
        var g := new Genome(draws);
        pop := pop + [g];
      }
      cand := pop[nextCand];
      nextCand := nextCand + 1;
    }

    /** Uniform crossover: the genes at index i are exchanged when `draws[i]` is below one half. */
    static method Cross(a: Genome, b: Genome, draws: seq<real>)
      requires a.genes.Length <= b.genes.Length
      requires |draws| >= a.genes.Length
      modifies a.genes, b.genes
      ensures forall i :: 0 <= i < a.genes.Length ==>
        if draws[i] < SwapRate
        then a.genes[i] == old(b.genes[i]) && b.genes[i] == old(a.genes[i])
        else a.genes[i] == old(a.genes[i]) && b.genes[i] == old(b.genes[i])
      ensures forall i :: a.genes.Length <= i < b.genes.Length ==> b.genes[i] == old(b.genes[i])
      ensures old(a.Valid() && b.Valid()) ==> a.Valid() && b.Valid()
    {
      var i := 0;
      while i < a.genes.Length
        invariant 0 <= i <= a.genes.Length
        invariant forall j :: 0 <= j < i ==>
          if draws[j] < SwapRate
          then a.genes[j] == old(b.genes[j]) && b.genes[j] == old(a.genes[j])
          else a.genes[j] == old(a.genes[j]) && b.genes[j] == old(b.genes[j])
        invariant forall j :: i <= j < a.genes.Length ==> a.genes[j] == old(a.genes[j])
        invariant forall j :: i <= j < b.genes.Length ==> b.genes[j] == old(b.genes[j])
      {
        if draws[i] < SwapRate {
          var temp := a.genes[i];
          a.genes[i] := b.genes[i];
          b.genes[i] := temp;
        }
        i := i + 1;
      }
    }

    /**
     * Mutation: a gene whose draw is below MutRate moves by `gauss[i] * MutVar`
     * and is clamped into [0,1]; every other gene is left alone.
     */
    static method Mutate(gen: Genome, draws: seq<real>, gauss: seq<real>)
      requires |draws| >= gen.genes.Length && |gauss| >= gen.genes.Length
      modifies gen.genes
      ensures forall i :: 0 <= i < gen.genes.Length ==>
        gen.genes[i] == if draws[i] < MutRate then Clamp01(old(gen.genes[i]) + gauss[i] * MutVar)
                        else old(gen.genes[i])
      ensures forall i :: 0 <= i < gen.genes.Length && draws[i] < MutRate ==> InUnit(gen.genes[i])
      ensures old(gen.Valid()) ==> gen.Valid()
    {
      var genes := gen.genes;
      for i := 0 to genes.Length
        invariant forall j :: 0 <= j < i ==>
          genes[j] == if draws[j] < MutRate then Clamp01(old(genes[j]) + gauss[j] * MutVar)
                      else old(genes[j])
        invariant forall j :: i <= j < genes.Length ==> genes[j] == old(genes[j])
      {
        if draws[i] < MutRate {
          genes[i] := genes[i] + gauss[i] * MutVar;
          genes[i] := if genes[i] > 1.0 then 1.0 else genes[i];
          genes[i] := if genes[i] < 0.0 then 0.0 else genes[i];
        }
      }
    }

    /** The genes of the tournament winner among `pop[picks[k]]`: the first of strictly greatest fitness. */
    ghost function Champion(picks: seq<int>): seq<real>
      reads this, set g | g in pop, set g | g in pop :: g.genes
      requires |picks| > 0 && forall k :: 0 <= k < |picks| ==> 0 <= picks[k] < |pop|
    {
      pop[picks[FirstMaxIndex(Fitnesses(pop, picks))]].genes[..]
    }

    /** The genes of the champion of every row of `picks`, in row order. */
    ghost function Champions(picks: seq<seq<int>>): (r: seq<seq<real>>)
      reads this, set g | g in pop, set g | g in pop :: g.genes
      requires forall r :: 0 <= r < |picks| ==> |picks[r]| == TournSize
      requires forall r, k :: 0 <= r < |picks| && 0 <= k < |picks[r]| ==> 0 <= picks[r][k] < |pop|
      ensures |r| == |picks| && forall i :: 0 <= i < |picks| ==> r[i] == Champion(picks[i])
    {
      if picks == [] then [] else Champions(picks[..|picks| - 1]) + [Champion(picks[|picks| - 1])]
    }

    /**
     * Tournament: contestants `pop[picks[k]]` are drawn with replacement; the
     * first one with strictly greatest fitness wins and a copy of its genes is
     * returned as a new genome.
     */
    method Tourn(picks: seq<int>) returns (w: Genome)
      requires Valid() && |pop| > 0
      requires |picks| == TournSize
      requires forall k :: 0 <= k < |picks| ==> 0 <= picks[k] < |pop|
      ensures fresh(w) && fresh(w.genes) && w.fitness == 0.0 && w.Valid()
      ensures w.genes[..] == Champion(picks)
    {
      ghost var fits := Fitnesses(pop, picks);
      var winner := pop[picks[0]];
      var best := winner.fitness;
      ghost var k := 0;
      for i := 1 to TournSize
        invariant k == FirstMaxIndex(fits[..i])
        invariant winner == pop[picks[k]] && best == winner.fitness
      {
        var contestant := pop[picks[i]];
        FirstMaxIndexStep(fits, i);
        if contestant.fitness > best {
          winner := contestant;
          best := contestant.fitness;
          k := i;
        }
      }
      assert fits[..TournSize] == fits;
      assert winner.Valid();
      w := new Genome.Clone(winner.genes[..]);
      assert forall i :: 0 <= i < w.genes.Length ==> w.genes[i] == w.genes[..][i] == winner.genes[i];
    }

    /** The selection: one tournament winner per row of `picks`, each a new genome. */
    method Select(picks: seq<seq<int>>) returns (sel: seq<Genome>)
      requires Valid() && |pop| > 0
      requires forall r :: 0 <= r < |picks| ==> |picks[r]| == TournSize
      requires forall r, k :: 0 <= r < |picks| && 0 <= k < |picks[r]| ==> 0 <= picks[r][k] < |pop|
      ensures |sel| == |picks|
      ensures forall g :: g in sel ==> fresh(g) && fresh(g.genes)
      ensures Newborn(sel) && DistinctGenes(sel)
      ensures forall r :: 0 <= r < |sel| ==> sel[r].genes[..] == old(Champion(picks[r]))
    {
      sel := [];
      for r := 0 to |picks|
        invariant |sel| == r
        invariant forall g :: g in sel ==> fresh(g) && fresh(g.genes)
        invariant Newborn(sel) && DistinctGenes(sel)
        invariant forall q :: 0 <= q < r ==> sel[q].genes[..] == old(Champion(picks[q]))
      {
        var w := Tourn(picks[r]);
        assert Champion(picks[r]) == old(Champion(picks[r]));
        NewbornAppend(sel, w);
        sel := sel + [w];
      }
    }

    /**
     * The breeding loop: pairs are taken from the front of the selection (a
     * copy of the first genome of the population standing in for a missing
     * partner), crossed, mutated and appended until the new generation is at
     * least as large as the population.
     */
    static method Breed(parents: seq<Genome>, sel: seq<Genome>, crossDraws: seq<seq<real>>,
                        mutDraws: seq<seq<real>>, gauss: seq<seq<real>>,
                        ghost G: seq<seq<real>>, ghost F: seq<real>) returns (nextGen: seq<Genome>)
      requires AllValid(parents) && |sel| == |parents|
      requires Newborn(sel) && DistinctGenes(sel)
      requires forall x, y :: x in parents && y in sel ==> x.genes != y.genes
      requires |crossDraws| >= |sel| && |mutDraws| >= 2 * |sel| && |gauss| >= 2 * |sel|
      requires forall r :: 0 <= r < |crossDraws| ==> |crossDraws[r]| >= GeneCount
      requires forall r :: 0 <= r < |mutDraws| ==> |mutDraws[r]| >= GeneCount
      requires forall r :: 0 <= r < |gauss| ==> |gauss[r]| >= GeneCount
      requires |G| == |sel| && forall j :: 0 <= j < |sel| ==> sel[j].genes[..] == G[j]
      requires |parents| > 0 ==> F == parents[0].genes[..]
      modifies set g | g in sel :: g.genes
      ensures |nextGen| == |sel| + |sel| % 2
      ensures forall j :: 0 <= j < |sel| ==> nextGen[j] == sel[j]
      ensures |sel| % 2 == 1 ==> fresh(nextGen[|sel|])
      ensures forall g :: g in nextGen ==> g in sel || fresh(g)
      ensures Newborn(nextGen)
      ensures forall p: nat :: 2 * p + 1 < |nextGen| ==>
        && nextGen[2 * p].genes[..] == Kid(G, F, crossDraws, mutDraws, gauss, p, false)
        && nextGen[2 * p + 1].genes[..] == Kid(G, F, crossDraws, mutDraws, gauss, p, true)
    {
      var taken, pairs := BreedPairs(parents, sel, crossDraws, mutDraws, gauss, G, F);
      Halves(pairs);
      nextGen := sel;
      if taken < |sel| {
        var a, b, next := BreedPair(parents, sel, taken, crossDraws[pairs], mutDraws[taken], gauss[taken],
                                    mutDraws[taken + 1], gauss[taken + 1]);
        nextGen := sel + [b];
        assert a.genes[..] == Kid(G, F, crossDraws, mutDraws, gauss, pairs, false);
        assert b.genes[..] == Kid(G, F, crossDraws, mutDraws, gauss, pairs, true);
      }
    }

    /**
     * The breeding loop over the whole pairs of the selection: each pair is
     * crossed and mutated in place; what is left is at most one genome.
     */
    static method BreedPairs(parents: seq<Genome>, sel: seq<Genome>, crossDraws: seq<seq<real>>,
                             mutDraws: seq<seq<real>>, gauss: seq<seq<real>>,
                             ghost G: seq<seq<real>>, ghost F: seq<real>) returns (taken: nat, pairs: nat)
      requires AllValid(parents) && |sel| == |parents|
      requires Newborn(sel) && DistinctGenes(sel)
      requires forall x, y :: x in parents && y in sel ==> x.genes != y.genes
      requires |crossDraws| >= |sel| && |mutDraws| >= 2 * |sel| && |gauss| >= 2 * |sel|
      requires forall r :: 0 <= r < |crossDraws| ==> |crossDraws[r]| >= GeneCount
      requires forall r :: 0 <= r < |mutDraws| ==> |mutDraws[r]| >= GeneCount
      requires forall r :: 0 <= r < |gauss| ==> |gauss[r]| >= GeneCount
      requires |G| == |sel| && forall j :: 0 <= j < |sel| ==> sel[j].genes[..] == G[j]
      requires |parents| > 0 ==> F == parents[0].genes[..]
      modifies set g | g in sel :: g.genes
      ensures taken == 2 * pairs && taken <= |sel| <= taken + 1
      ensures Newborn(sel) && AllValid(parents) && (|sel| > 0 ==> parents[0].genes[..] == F)
      ensures forall p: nat :: p < pairs ==>
        && sel[2 * p].genes[..] == Kid(G, F, crossDraws, mutDraws, gauss, p, false)
        && sel[2 * p + 1].genes[..] == Kid(G, F, crossDraws, mutDraws, gauss, p, true)
      ensures forall j :: taken <= j < |sel| ==> sel[j].genes[..] == G[j]
    {
      var n := |sel|;
      taken, pairs := 0, 0;
      while taken + 1 < n
        invariant taken == 2 * pairs <= n
        invariant Newborn(sel) && DistinctGenes(sel)
        invariant AllValid(parents) && (n > 0 ==> parents[0].genes[..] == F)
        invariant forall p: nat :: p < pairs ==>
          && sel[2 * p].genes[..] == Kid(G, F, crossDraws, mutDraws, gauss, p, false)
          && sel[2 * p + 1].genes[..] == Kid(G, F, crossDraws, mutDraws, gauss, p, true)
        invariant forall j :: taken <= j < n ==> sel[j].genes[..] == G[j]
      {
        BreedStep(parents, sel, crossDraws, mutDraws, gauss, G, F, pairs);
        taken, pairs := taken + 2, pairs + 1;
      }
    }

    /**
     * Breeding from the tournament winners put in the given sort order: the
     * result is the brood of the winners' genes `C` reordered by `selOrder`.
     */
    static method BreedInOrder(parents: seq<Genome>, won: seq<Genome>, selOrder: seq<int>,
                               crossDraws: seq<seq<real>>, mutDraws: seq<seq<real>>, gauss: seq<seq<real>>,
                               ghost C: seq<seq<real>>, ghost F: seq<real>) returns (nextGen: seq<Genome>)
      requires AllValid(parents) && |won| == |parents|
      requires Newborn(won) && DistinctGenes(won)
      requires forall x, y :: x in parents && y in won ==> x.genes != y.genes
      requires IsPermutation(selOrder, |won|)
      requires |crossDraws| >= |won| && |mutDraws| >= 2 * |won| && |gauss| >= 2 * |won|
      requires forall r :: 0 <= r < |crossDraws| ==> |crossDraws[r]| >= GeneCount
      requires forall r :: 0 <= r < |mutDraws| ==> |mutDraws[r]| >= GeneCount
      requires forall r :: 0 <= r < |gauss| ==> |gauss[r]| >= GeneCount
      requires |C| == |won| && forall r :: 0 <= r < |won| ==> won[r].genes[..] == C[r]
      requires |parents| > 0 ==> F == parents[0].genes[..]
      modifies set g | g in won :: g.genes
      ensures Newborn(nextGen) && |nextGen| == |won| + |won| % 2
      ensures forall g :: g in nextGen ==> g in won || fresh(g)
      ensures forall j :: 0 <= j < |nextGen| ==>
        nextGen[j].genes[..] == Brood(Permuted(C, selOrder), F, crossDraws, mutDraws, gauss)[j]
    {
      PermutedGenomes(won, selOrder);
      GenesPermuted(won, selOrder, C);
      var sel := Permuted(won, selOrder);
      ghost var G := Permuted(C, selOrder);
      nextGen := Breed(parents, sel, crossDraws, mutDraws, gauss, G, F);
      PairsAreBrood(nextGen, G, F, crossDraws, mutDraws, gauss);
    }

    /** One turn of the loop over whole pairs: pair `pairs` is bred and every earlier pair is left alone. */
    static method BreedStep(parents: seq<Genome>, sel: seq<Genome>, crossDraws: seq<seq<real>>,
                            mutDraws: seq<seq<real>>, gauss: seq<seq<real>>,
                            ghost G: seq<seq<real>>, ghost F: seq<real>, pairs: nat)
      requires 2 * pairs + 1 < |sel| && |sel| == |parents|
      requires forall x, y :: x in parents && y in sel ==> x.genes != y.genes
      requires |crossDraws| >= |sel| && |mutDraws| >= 2 * |sel| && |gauss| >= 2 * |sel|
      requires forall r :: 0 <= r < |crossDraws| ==> |crossDraws[r]| >= GeneCount
      requires forall r :: 0 <= r < |mutDraws| ==> |mutDraws[r]| >= GeneCount
      requires forall r :: 0 <= r < |gauss| ==> |gauss[r]| >= GeneCount
      requires |G| == |sel|
      requires Newborn(sel) && DistinctGenes(sel)
      requires AllValid(parents) && parents[0].genes[..] == F
      requires forall p: nat :: p < pairs ==>
        && sel[2 * p].genes[..] == Kid(G, F, crossDraws, mutDraws, gauss, p, false)
        && sel[2 * p + 1].genes[..] == Kid(G, F, crossDraws, mutDraws, gauss, p, true)
      requires forall j :: 2 * pairs <= j < |sel| ==> sel[j].genes[..] == G[j]
      modifies sel[2 * pairs].genes, sel[2 * pairs + 1].genes
      ensures Newborn(sel)
      ensures AllValid(parents) && parents[0].genes[..] == F
      ensures forall p: nat :: p < pairs + 1 ==>
        && sel[2 * p].genes[..] == Kid(G, F, crossDraws, mutDraws, gauss, p, false)
        && sel[2 * p + 1].genes[..] == Kid(G, F, crossDraws, mutDraws, gauss, p, true)
      ensures forall j :: 2 * pairs + 2 <= j < |sel| ==> sel[j].genes[..] == G[j]
    {
      var taken := 2 * pairs;
      var a, b, next := BreedPair(parents, sel, taken, crossDraws[pairs], mutDraws[taken], gauss[taken],
                                  mutDraws[taken + 1], gauss[taken + 1]);
      assert a.genes[..] == Kid(G, F, crossDraws, mutDraws, gauss, pairs, false);
      assert b.genes[..] == Kid(G, F, crossDraws, mutDraws, gauss, pairs, true);
    }

    /**
     * One turn of the breeding loop: the genome at `taken` and the next one
     * (or, when the selection is used up, a copy of the first genome of the
     * population) are crossed and mutated in place.
     */
    static method BreedPair(parents: seq<Genome>, sel: seq<Genome>, taken: nat, cross: seq<real>,
                            drawsA: seq<real>, gaussA: seq<real>, drawsB: seq<real>, gaussB: seq<real>)
      returns (a: Genome, b: Genome, next: nat)
      requires taken < |sel| && |sel| == |parents| && AllValid(parents)
      requires Newborn(sel) && DistinctGenes(sel)
      requires forall x, y :: x in parents && y in sel ==> x.genes != y.genes
      requires |cross| >= GeneCount && |drawsA| >= GeneCount && |gaussA| >= GeneCount
      requires |drawsB| >= GeneCount && |gaussB| >= GeneCount
      modifies sel[taken].genes, sel[if taken + 1 < |sel| then taken + 1 else taken].genes
      ensures a == sel[taken]
      ensures next == if taken + 1 < |sel| then taken + 2 else |sel|
      ensures taken + 1 < |sel| ==> b == sel[taken + 1]
      ensures taken + 1 == |sel| ==> fresh(b) && fresh(b.genes)
      ensures a.Valid() && b.Valid() && a.fitness == 0.0 && b.fitness == 0.0
      ensures var x := old(sel[taken].genes[..]);
        var y := if taken + 1 < |sel| then old(sel[taken + 1].genes[..]) else parents[0].genes[..];
        && a.genes[..] == Child(x, y, cross, drawsA, gaussA)
        && b.genes[..] == Child(y, x, cross, drawsB, gaussB)
      ensures Newborn(sel)
      ensures forall j :: 0 <= j < |sel| && j != taken && j != taken + 1 ==>
        sel[j].genes[..] == old(sel[j].genes[..])
      ensures AllValid(parents) && (|parents| > 0 ==> parents[0].genes[..] == old(parents[0].genes[..]))
    {
      a := sel[taken];
      if taken + 1 < |sel| {
        b := sel[taken + 1];
        next := taken + 2;
      } else {
        b := new Genome.Clone(parents[0].genes[..]);
        assert b.Valid() by {
          assert parents[0].Valid();
          assert forall i :: 0 <= i < b.genes.Length ==> b.genes[i] == b.genes[..][i] == parents[0].genes[i];
        }
        next := |sel|;
        assert forall j :: 0 <= j < |sel| ==> sel[j].genes != b.genes;
      }
      assert forall j :: 0 <= j < taken ==> sel[j].genes != a.genes;
      assert forall j :: taken < j < |sel| ==> sel[j].genes != a.genes;
      if next == taken + 2 {
        assert forall j :: 0 <= j < taken + 1 ==> sel[j].genes != b.genes;
        assert forall j :: taken + 1 < j < |sel| ==> sel[j].genes != b.genes;
      }
      Offspring(a, b, cross, drawsA, gaussA, drawsB, gaussB);
    }

    /** One pair of parents turned in place into two children: crossed, then each mutated. */
    static method Offspring(a: Genome, b: Genome, cross: seq<real>, drawsA: seq<real>, gaussA: seq<real>,
                     drawsB: seq<real>, gaussB: seq<real>)
      requires a.Valid() && b.Valid() && a.genes != b.genes
      requires |cross| >= GeneCount && |drawsA| >= GeneCount && |gaussA| >= GeneCount
      requires |drawsB| >= GeneCount && |gaussB| >= GeneCount
      modifies a.genes, b.genes
      ensures a.Valid() && b.Valid()
      ensures a.genes[..] == Child(old(a.genes[..]), old(b.genes[..]), cross, drawsA, gaussA)
      ensures b.genes[..] == Child(old(b.genes[..]), old(a.genes[..]), cross, drawsB, gaussB)
    {
      ghost var x, y := a.genes[..], b.genes[..];
      Cross(a, b, cross);
      assert a.genes[..] == Crossed(x, y, cross);
      assert b.genes[..] == Crossed(y, x, cross);
      Mutate(a, drawsA, gaussA);
      Mutate(b, drawsB, gaussB);
      assert a.genes[..] == Mutated(Crossed(x, y, cross), drawsA, gaussA);
      assert b.genes[..] == Mutated(Crossed(y, x, cross), drawsB, gaussB);
    }

    /**
     * One generation step: a selection as large as the population is drawn by
     * tournament; the population and the selection are each put in a given
     * sort order (standing for the fitness sort); with EliteClones at 0 no
     * genome is copied unchanged; the selection is bred into the new
     * population, and the old population is kept as the last one.
     */
    method Evolve(picks: seq<seq<int>>, popOrder: seq<int>, selOrder: seq<int>,
                  crossDraws: seq<seq<real>>, mutDraws: seq<seq<real>>, gauss: seq<seq<real>>)
      requires Valid()
      requires |picks| == |pop|
      requires forall r :: 0 <= r < |picks| ==> |picks[r]| == TournSize
      requires forall r, k :: 0 <= r < |picks| && 0 <= k < |picks[r]| ==> 0 <= picks[r][k] < |pop|
      requires IsPermutation(popOrder, |pop|) && IsPermutation(selOrder, |pop|)
      requires |crossDraws| >= |pop| && |mutDraws| >= 2 * |pop| && |gauss| >= 2 * |pop|
      requires forall r :: 0 <= r < |crossDraws| ==> |crossDraws[r]| >= GeneCount
      requires forall r :: 0 <= r < |mutDraws| ==> |mutDraws[r]| >= GeneCount
      requires forall r :: 0 <= r < |gauss| ==> |gauss[r]| >= GeneCount
      modifies this
      ensures Valid()
      ensures lastPop == Some(Permuted(old(pop), popOrder))
      ensures |pop| == old(|pop|) + old(|pop|) % 2
      ensures forall g :: g in pop ==> fresh(g) && g.fitness == 0.0
      ensures nextCand == 0 && generation == old(generation) + 1
      ensures old(|pop|) > 0 ==>
        var B := Brood(Permuted(old(Champions(picks)), selOrder), old(pop[popOrder[0]].genes[..]),
                       crossDraws, mutDraws, gauss);
        forall j :: 0 <= j < |pop| ==> pop[j].genes[..] == B[j]
    {
      var parents, nextGen := NextGeneration(picks, popOrder, selOrder, crossDraws, mutDraws, gauss);
      Advance(parents, nextGen);
    }

    /**
     * Selection and breeding without touching the population: returns the
     * population in the given sort order and the bred generation that
     * replaces it.
     */
    method NextGeneration(picks: seq<seq<int>>, popOrder: seq<int>, selOrder: seq<int>,
                          crossDraws: seq<seq<real>>, mutDraws: seq<seq<real>>, gauss: seq<seq<real>>)
      returns (parents: seq<Genome>, nextGen: seq<Genome>)
      requires Valid()
      requires |picks| == |pop|
      requires forall r :: 0 <= r < |picks| ==> |picks[r]| == TournSize
      requires forall r, k :: 0 <= r < |picks| && 0 <= k < |picks[r]| ==> 0 <= picks[r][k] < |pop|
      requires IsPermutation(popOrder, |pop|) && IsPermutation(selOrder, |pop|)
      requires |crossDraws| >= |pop| && |mutDraws| >= 2 * |pop| && |gauss| >= 2 * |pop|
      requires forall r :: 0 <= r < |crossDraws| ==> |crossDraws[r]| >= GeneCount
      requires forall r :: 0 <= r < |mutDraws| ==> |mutDraws[r]| >= GeneCount
      requires forall r :: 0 <= r < |gauss| ==> |gauss[r]| >= GeneCount
      ensures parents == Permuted(pop, popOrder)
      ensures Newborn(nextGen) && |nextGen| == |pop| + |pop| % 2
      ensures forall g :: g in nextGen ==> fresh(g)
      ensures |pop| > 0 ==>
        var B := Brood(Permuted(old(Champions(picks)), selOrder), old(pop[popOrder[0]].genes[..]),
                       crossDraws, mutDraws, gauss);
        forall j :: 0 <= j < |nextGen| ==> nextGen[j].genes[..] == B[j]
    {
      var n := |pop|;
      ghost var C := old(Champions(picks));
      ghost var first := if n > 0 then old(pop[popOrder[0]].genes[..]) else [];
      var won: seq<Genome> := [];
      if n > 0 {
        won := Select(picks);
      }
      PermutedGenomes(pop, popOrder);
      parents := Permuted(pop, popOrder);
      nextGen := BreedInOrder(parents, won, selOrder, crossDraws, mutDraws, gauss, C, first);
    }

    /** The new generation replaces the population, which is kept as the last one. */
    method Advance(last: seq<Genome>, nextGen: seq<Genome>)
      requires Newborn(nextGen)
      modifies this
      ensures Valid() && Newborn(pop)
      ensures pop == nextGen && lastPop == Some(last)
      ensures nextCand == 0 && generation == old(generation) + 1
    {
      lastPop := Some(last);
      pop := nextGen;
      nextCand := 0;
      generation := generation + 1;
    }
  }
}
