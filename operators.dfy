/** Random initialisation, extended intermediate crossover and clamped
    mutation. Every random draw is a parameter. */
module Operators {
  import opened FeedMix

  /** A non-negative width scaled by a unit fraction stays within the width. */
  lemma UnitScale(w: real, u: real)
    requires w >= 0.0 && 0.0 <= u <= 1.0
    ensures 0.0 <= w * u <= w
  {
    MulNonNegative(w, u);
    MulNonNegative(w, 1.0 - u);
  }

  /** Python's `random.uniform(a, b)`, which is `a + (b - a) * u` for a unit draw `u`. */
  function Uniform(a: real, b: real, u: real): (x: real)
    requires 0.0 <= u <= 1.0 && a <= b
    ensures a <= x <= b
  {
    var width := b - a;
    UnitScale(width, u);
    a + width * u
  }

  /** One uniform gene per feed, from one unit draw per feed. */
  function RandomChromosome(s: Settings, draws: seq<real>): (c: Chromosome)
    requires |draws| == |s.feeds| && s.genMin <= s.genMax
    requires forall i :: 0 <= i < |draws| ==> 0.0 <= draws[i] <= 1.0
    ensures InRange(s, c)
  {
    seq(|draws|, i requires 0 <= i < |draws| => Uniform(s.genMin, s.genMax, draws[i]))
  }

  /** The unclamped child gene, `alpha` of the way from `g1` towards `g2`. */
  function Lerp(g1: real, g2: real, alpha: real): real
  {
    g1 + alpha * (g2 - g1)
  }

  /** A child gene: the interpolated value, clamped into the bounds. */
  function BlendGene(lo: real, hi: real, g1: real, g2: real, alpha: real): real
  {
    Clamp(lo, hi, Lerp(g1, g2, alpha))
  }

  /** The child the crossover builds from `p1` towards `p2`; the other child
      is the blend with the parents swapped. */
  function Blend(lo: real, hi: real, p1: Chromosome, p2: Chromosome, alpha: real): (c: Chromosome)
    ensures |c| == Min(|p1|, |p2|)
    ensures lo <= hi ==> forall i :: 0 <= i < |c| ==> lo <= c[i] <= hi
  {
    seq(Min(|p1|, |p2|), i requires 0 <= i < Min(|p1|, |p2|) => BlendGene(lo, hi, p1[i], p2[i], alpha))
  }

  /** The crossover loop over `zip(p1, p2)`, appending one gene to each child. */
  method Crossover(lo: real, hi: real, p1: Chromosome, p2: Chromosome, alpha: real)
    returns (c1: Chromosome, c2: Chromosome)
    ensures c1 == Blend(lo, hi, p1, p2, alpha)
    ensures c2 == Blend(lo, hi, p2, p1, alpha)
  {
    c1, c2 := [], [];
    var n := Min(|p1|, |p2|);
    for i := 0 to n
      invariant |c1| == |c2| == i
      invariant forall j :: 0 <= j < i ==> c1[j] == BlendGene(lo, hi, p1[j], p2[j], alpha)
      invariant forall j :: 0 <= j < i ==> c2[j] == BlendGene(lo, hi, p2[j], p1[j], alpha)
    {
      var g1, g2 := p1[i], p2[i];
      var newG1 := Lerp(g1, g2, alpha);
      var newG2 := Lerp(g2, g1, alpha);
      newG1 := Clamp(lo, hi, newG1);
      newG2 := Clamp(lo, hi, newG2);
      c1 := c1 + [newG1];
      c2 := c2 + [newG2];
    }
  }

  lemma LerpTowards(g1: real, g2: real, alpha: real)
    requires 0.0 <= alpha <= 1.0 && g1 <= g2
    ensures g1 <= Lerp(g1, g2, alpha) <= g2
  {
    MulNonNegative(alpha, g2 - g1);
    MulNonNegative(1.0 - alpha, g2 - g1);
  }

  /** The two interpolations of a pair of genes move by opposite amounts. */
  lemma LerpSum(g1: real, g2: real, alpha: real)
    ensures Lerp(g1, g2, alpha) + Lerp(g2, g1, alpha) == g1 + g2
  {
    assert alpha * (g1 - g2) == -(alpha * (g2 - g1));
  }

  /** A convex combination of two in-range genes stays between them, so
      clamping leaves it alone. */
  lemma BlendGeneBetween(lo: real, hi: real, g1: real, g2: real, alpha: real)
    requires lo <= g1 <= hi && lo <= g2 <= hi && 0.0 <= alpha <= 1.0
    ensures g1 <= g2 ==> g1 <= BlendGene(lo, hi, g1, g2, alpha) <= g2
    ensures g2 <= g1 ==> g2 <= BlendGene(lo, hi, g1, g2, alpha) <= g1
    ensures BlendGene(lo, hi, g1, g2, alpha) + BlendGene(lo, hi, g2, g1, alpha) == g1 + g2
  {
    LerpSum(g1, g2, alpha);
    if g1 <= g2 {
      LerpTowards(g1, g2, alpha);
      assert Lerp(g2, g1, alpha) == g1 + g2 - Lerp(g1, g2, alpha);
    } else {
      LerpTowards(g2, g1, alpha);
      assert Lerp(g1, g2, alpha) == g1 + g2 - Lerp(g2, g1, alpha);
    }
  }

  /** With in-range parents of equal length and alpha in [0, 1], every child
      gene lies between the parents' genes and the two children's genes add
      up to the parents' genes. */
  lemma BlendIsIntermediate(lo: real, hi: real, p1: Chromosome, p2: Chromosome, alpha: real)
    requires |p1| == |p2| && 0.0 <= alpha <= 1.0
    requires forall i :: 0 <= i < |p1| ==> lo <= p1[i] <= hi && lo <= p2[i] <= hi
    ensures forall i :: 0 <= i < |p1| ==>
      var c := Blend(lo, hi, p1, p2, alpha)[i];
      (p1[i] <= p2[i] ==> p1[i] <= c <= p2[i]) && (p2[i] <= p1[i] ==> p2[i] <= c <= p1[i])
    ensures forall i :: 0 <= i < |p1| ==>
      Blend(lo, hi, p1, p2, alpha)[i] + Blend(lo, hi, p2, p1, alpha)[i] == p1[i] + p2[i]
  {
    forall i | 0 <= i < |p1|
      ensures var c := Blend(lo, hi, p1, p2, alpha)[i];
        (p1[i] <= p2[i] ==> p1[i] <= c <= p2[i]) && (p2[i] <= p1[i] ==> p2[i] <= c <= p1[i])
      ensures Blend(lo, hi, p1, p2, alpha)[i] + Blend(lo, hi, p2, p1, alpha)[i] == p1[i] + p2[i]
    {
      BlendGeneBetween(lo, hi, p1[i], p2[i], alpha);
    }
  }

  /** With in-range parents of equal length, alpha = 0 reproduces the parents
      and alpha = 1 swaps them. */
  lemma BlendEndpoints(lo: real, hi: real, p1: Chromosome, p2: Chromosome)
    requires |p1| == |p2|
    requires forall i :: 0 <= i < |p1| ==> lo <= p1[i] <= hi && lo <= p2[i] <= hi
    ensures Blend(lo, hi, p1, p2, 0.0) == p1 && Blend(lo, hi, p2, p1, 0.0) == p2
    ensures Blend(lo, hi, p1, p2, 1.0) == p2 && Blend(lo, hi, p2, p1, 1.0) == p1
  {
  }

  /** One gene after a mutation draw: perturbed by `offset * (hi - lo)` and
      clamped when the coin falls below the rate, unchanged otherwise. */
  function MutateGene(rate: real, lo: real, hi: real, g: real, coin: real, offset: real): real
  {
    if coin < rate then Clamp(lo, hi, Perturb(g, offset, hi - lo)) else g
  }

  /** The unclamped mutated gene: moved by `offset` times the bound width. */
  function Perturb(g: real, offset: real, width: real): real
  {
    g + offset * width
  }

  /** The mutant of `chrom` for one coin and one offset per gene. */
  function Mutant(rate: real, lo: real, hi: real, chrom: Chromosome, coins: seq<real>, offsets: seq<real>): (m: Chromosome)
    requires |coins| == |chrom| && |offsets| == |chrom|
    ensures |m| == |chrom|
  {
    seq(|chrom|, i requires 0 <= i < |chrom| => MutateGene(rate, lo, hi, chrom[i], coins[i], offsets[i]))
  }

  /** The mutation: a copy of the chromosome, updated gene by gene in place. */
  method Mutate(rate: real, lo: real, hi: real, chrom: Chromosome, coins: seq<real>, offsets: seq<real>)
    returns (mutant: Chromosome)
    requires |coins| == |chrom| && |offsets| == |chrom|
    ensures mutant == Mutant(rate, lo, hi, chrom, coins, offsets)
  {
    var copy := new real[|chrom|](i requires 0 <= i < |chrom| => chrom[i]);
    for i := 0 to copy.Length
      invariant forall j :: 0 <= j < i ==> copy[j] == MutateGene(rate, lo, hi, chrom[j], coins[j], offsets[j])
      invariant forall j :: i <= j < copy.Length ==> copy[j] == chrom[j]
    {
      if coins[i] < rate {
        var r := offsets[i];
        copy[i] := Perturb(copy[i], r, hi - lo);
        copy[i] := Clamp(lo, hi, copy[i]);
      }
    }
    mutant := copy[..];
  }

  lemma OffsetBound(r: real, w: real)
    requires -0.1 <= r <= 0.1 && w >= 0.0
    ensures -0.1 * w <= r * w <= 0.1 * w
  {
    MulNonNegative(0.1 - r, w);
    MulNonNegative(r + 0.1, w);
  }

  /** A mutant keeps every gene whose coin is not below the rate and puts
      every mutated gene within the bounds; so an in-range chromosome yields
      an in-range mutant. */
  lemma MutantProperties(rate: real, lo: real, hi: real, chrom: Chromosome, coins: seq<real>, offsets: seq<real>)
    requires |coins| == |chrom| && |offsets| == |chrom| && lo <= hi
    ensures var m := Mutant(rate, lo, hi, chrom, coins, offsets);
      && (forall i :: 0 <= i < |chrom| && coins[i] >= rate ==> m[i] == chrom[i])
      && (forall i :: 0 <= i < |chrom| && coins[i] < rate ==> lo <= m[i] <= hi)
      && ((forall i :: 0 <= i < |chrom| ==> lo <= chrom[i] <= hi) ==> forall i :: 0 <= i < |m| ==> lo <= m[i] <= hi)
  {
  }

  /** Clamping an in-range gene moved by at most `b` keeps it within `b` of where it was. */
  lemma ClampStep(lo: real, hi: real, g: real, d: real, b: real)
    requires lo <= g <= hi && -b <= d <= b
    ensures -b <= Clamp(lo, hi, g + d) - g <= b
  {
  }

  lemma PerturbStep(lo: real, hi: real, width: real, g: real, offset: real)
    requires lo <= g <= hi && -0.1 <= offset <= 0.1 && width == hi - lo
    ensures -0.1 * width <= Clamp(lo, hi, Perturb(g, offset, width)) - g <= 0.1 * width
  {
    OffsetBound(offset, width);
    ClampStep(lo, hi, g, offset * width, 0.1 * width);
  }

  /** With an in-range gene and an offset in [-0.1, 0.1], a mutation moves
      the gene by at most a tenth of the bound width. */
  lemma MutateGeneStep(rate: real, lo: real, hi: real, g: real, coin: real, offset: real)
    requires lo <= g <= hi && -0.1 <= offset <= 0.1
    ensures -0.1 * (hi - lo) <= MutateGene(rate, lo, hi, g, coin, offset) - g <= 0.1 * (hi - lo)
  {
    PerturbStep(lo, hi, hi - lo, g, offset);
  }

  /** With an in-range chromosome and offsets in [-0.1, 0.1], no gene of the
      mutant is more than a tenth of the bound width from the original. */
  lemma MutantStepBound(rate: real, lo: real, hi: real, chrom: Chromosome, coins: seq<real>, offsets: seq<real>)
    requires |coins| == |chrom| && |offsets| == |chrom|
    requires forall i :: 0 <= i < |chrom| ==> lo <= chrom[i] <= hi && -0.1 <= offsets[i] <= 0.1
    ensures var m := Mutant(rate, lo, hi, chrom, coins, offsets);
      forall i :: 0 <= i < |m| ==> -0.1 * (hi - lo) <= m[i] - chrom[i] <= 0.1 * (hi - lo)
  {
    forall i | 0 <= i < |chrom|
      ensures -0.1 * (hi - lo) <= MutateGene(rate, lo, hi, chrom[i], coins[i], offsets[i]) - chrom[i] <= 0.1 * (hi - lo)
    {
      MutateGeneStep(rate, lo, hi, chrom[i], coins[i], offsets[i]);
    }
  }
}
