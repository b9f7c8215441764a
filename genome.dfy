/**
 * A genome: the four tunable policy constants (fuel-return coefficient, cargo
 * capacity, maximum speed, territorial frontier) as normalised genes, plus the
 * fitness measured for it in live play.
 */
module Genomes {

  const GeneCount: nat := 4

  /** Positions of the named genes in the gene array. */
  const FuelCoef: nat := 0
  const CargoCapacity: nat := 1
  const MaxSpeed: nat := 2
  const Frontier: nat := 3

  predicate InUnit(x: real) {
    0.0 <= x <= 1.0
  }

  class Genome {
    const genes: array<real>
    var fitness: real

    /** Four genes, each normalised into [0,1]. */
    ghost predicate Valid()
      reads this, genes
    {
      genes.Length == GeneCount && forall i :: 0 <= i < genes.Length ==> InUnit(genes[i])
    }

    /** A random genome: each gene is one uniform draw from [0,1); fitness starts at 0. */
    constructor (draws: seq<real>)
      requires |draws| == GeneCount
      requires forall i :: 0 <= i < |draws| ==> 0.0 <= draws[i] < 1.0
      ensures fresh(genes) && genes[..] == draws && fitness == 0.0
      ensures Valid()
    {
      genes := new real[GeneCount](i => if 0 <= i < |draws| then draws[i] else 0.0);
      fitness := 0.0;
    }

    /** A genome built from a gene vector: the genes are copied, fitness starts at 0. */
    constructor Clone(source: seq<real>)
      ensures fresh(genes) && genes[..] == source && fitness == 0.0
    {
      genes := new real[|source|](i => if 0 <= i < |source| then source[i] else 0.0);
      fitness := 0.0;
    }

    function FuelCoefGene(): (r: real)
      reads this, genes
      requires Valid()
      ensures InUnit(r) && r == genes[FuelCoef]
    {
      genes[FuelCoef]
    }

    function CargoCapacityGene(): (r: real)
      reads this, genes
      requires Valid()
      ensures InUnit(r) && r == genes[CargoCapacity]
    {
      genes[CargoCapacity]
    }

    function MaxSpeedGene(): (r: real)
      reads this, genes
      requires Valid()
      ensures InUnit(r) && r == genes[MaxSpeed]
    {
      genes[MaxSpeed]
    }

    function FrontierGene(): (r: real)
      reads this, genes
      requires Valid()
      ensures InUnit(r) && r == genes[Frontier]
    {
      genes[Frontier]
    }

    function GetFitness(): real
      reads this
    {
      fitness
    }

    /** Records the fitness measured for this genome and changes nothing else. */
    method SetFitness(f: real)
      modifies this
      ensures GetFitness() == f
      ensures genes[..] == old(genes[..])
    {
      fitness := f;
    }
  }
}
