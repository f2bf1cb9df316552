/** Decoding a chromosome into nutrient and cost totals, the penalised
    objective, and the fitness derived from it. */
module Evaluation {
  import opened FeedMix

  /** What `gene` kilograms of `feed` contribute to the totals. */
  function Contribution(gene: real, feed: Feed): Totals
  {
    Totals(gene * feed.prdd, gene * feed.mp, gene * feed.price)
  }

  function Plus(a: Totals, b: Totals): Totals
  {
    Totals(a.prdd + b.prdd, a.mp + b.mp, a.cost + b.cost)
  }

  function Scaled(k: real, a: Totals): Totals
  {
    Totals(k * a.prdd, k * a.mp, k * a.cost)
  }

  const ZERO: Totals := Totals(0.0, 0.0, 0.0)

  /** Number of pairs Python's `zip(chrom, feeds)` produces. */
  function ZipLength(chrom: Chromosome, feeds: seq<Feed>): nat
  {
    Min(|chrom|, |feeds|)
  }

  /** Totals over the first `n` zipped positions. */
  function PrefixTotals(chrom: Chromosome, feeds: seq<Feed>, n: nat): Totals
    requires n <= |chrom| && n <= |feeds|
  {
    if n == 0 then ZERO
    else Plus(PrefixTotals(chrom, feeds, n - 1), Contribution(chrom[n - 1], feeds[n - 1]))
  }

  /** The totals of a chromosome: one contribution per zipped pair. */
  function Decode(chrom: Chromosome, feeds: seq<Feed>): Totals
  {
    PrefixTotals(chrom, feeds, ZipLength(chrom, feeds))
  }

  /** The accumulator loop over `zip(chrom, feeds)`. */
  method DecodeChromosome(chrom: Chromosome, feeds: seq<Feed>) returns (totals: Totals)
    ensures totals == Decode(chrom, feeds)
  {
    var totalPrdd, totalMp, totalCost := 0.0, 0.0, 0.0;
    var n := ZipLength(chrom, feeds);
    for i := 0 to n
      invariant Totals(totalPrdd, totalMp, totalCost) == PrefixTotals(chrom, feeds, i)
    {
      var c := Contribution(chrom[i], feeds[i]);
      totalPrdd := totalPrdd + c.prdd;
      totalMp := totalMp + c.mp;
      totalCost := totalCost + c.cost;
    }
    totals := Totals(totalPrdd, totalMp, totalCost);
  }

  lemma {:induction false} PrefixTotalsOnlyReadsPrefix(c: Chromosome, f: seq<Feed>, c': Chromosome, f': seq<Feed>, n: nat)
    requires n <= |c| && n <= |f| && n <= |c'| && n <= |f'|
    requires c[..n] == c'[..n] && f[..n] == f'[..n]
    ensures PrefixTotals(c, f, n) == PrefixTotals(c', f', n)
  {
    if n > 0 {
      assert c[..n - 1] == c'[..n - 1] && f[..n - 1] == f'[..n - 1] by {
        assert c[..n - 1] == c[..n][..n - 1] && c'[..n - 1] == c'[..n][..n - 1];
        assert f[..n - 1] == f[..n][..n - 1] && f'[..n - 1] == f'[..n][..n - 1];
      }
      assert c[n - 1] == c[..n][n - 1] && f[n - 1] == f[..n][n - 1];
      PrefixTotalsOnlyReadsPrefix(c, f, c', f', n - 1);
    }
  }

  /** Decoding ignores the genes or feeds beyond the shorter of the two lists. */
  lemma DecodeTruncates(chrom: Chromosome, feeds: seq<Feed>)
    ensures var n := ZipLength(chrom, feeds);
      Decode(chrom, feeds) == Decode(chrom[..n], feeds[..n])
  {
    var n := ZipLength(chrom, feeds);
    assert chrom[..n][..n] == chrom[..n] && feeds[..n][..n] == feeds[..n];
    PrefixTotalsOnlyReadsPrefix(chrom, feeds, chrom[..n], feeds[..n], n);
  }

  /** Gene-wise scaling of a chromosome. */
  function Scale(k: real, chrom: Chromosome): (r: Chromosome)
    ensures |r| == |chrom|
  {
    seq(|chrom|, i requires 0 <= i < |chrom| => k * chrom[i])
  }

  /** Gene-wise sum of two chromosomes of the same length. */
  function Add(a: Chromosome, b: Chromosome): (r: Chromosome)
    requires |a| == |b|
    ensures |r| == |a|
  {
    seq(|a|, i requires 0 <= i < |a| => a[i] + b[i])
  }

  lemma ScaledPlus(k: real, a: Totals, b: Totals)
    ensures Scaled(k, Plus(a, b)) == Plus(Scaled(k, a), Scaled(k, b))
  {
    assert k * (a.prdd + b.prdd) == k * a.prdd + k * b.prdd;
    assert k * (a.mp + b.mp) == k * a.mp + k * b.mp;
    assert k * (a.cost + b.cost) == k * a.cost + k * b.cost;
  }

  lemma ScaledContribution(k: real, g: real, f: Feed)
    ensures Contribution(k * g, f) == Scaled(k, Contribution(g, f))
  {
    assert (k * g) * f.prdd == k * (g * f.prdd);
    assert (k * g) * f.mp == k * (g * f.mp);
    assert (k * g) * f.price == k * (g * f.price);
  }

  /** Adding two scaled totals is scaling their sum. */
  lemma ScaledSum(k: real, x: Totals, y: Totals, a: Totals, b: Totals)
    requires x == Scaled(k, a) && y == Scaled(k, b)
    ensures Plus(x, y) == Scaled(k, Plus(a, b))
  {
    ScaledPlus(k, a, b);
  }

  lemma {:induction false} PrefixTotalsScale(k: real, chrom: Chromosome, feeds: seq<Feed>, n: nat)
    requires n <= |chrom| && n <= |feeds|
    ensures PrefixTotals(Scale(k, chrom), feeds, n) == Scaled(k, PrefixTotals(chrom, feeds, n))
  {
    if n > 0 {
      var g, f := chrom[n - 1], feeds[n - 1];
      var x := PrefixTotals(Scale(k, chrom), feeds, n - 1);
      var y := Contribution(Scale(k, chrom)[n - 1], f);
      assert x == Scaled(k, PrefixTotals(chrom, feeds, n - 1)) by {
        PrefixTotalsScale(k, chrom, feeds, n - 1);
      }
      assert y == Scaled(k, Contribution(g, f)) by {
        assert Scale(k, chrom)[n - 1] == k * g;
        ScaledContribution(k, g, f);
      }
      ScaledSum(k, x, y, PrefixTotals(chrom, feeds, n - 1), Contribution(g, f));
    }
  }

  /** Decoding is homogeneous: scaling every gene by k scales every total by k. */
  lemma DecodeScales(k: real, chrom: Chromosome, feeds: seq<Feed>)
    ensures Decode(Scale(k, chrom), feeds) == Scaled(k, Decode(chrom, feeds))
  {
    PrefixTotalsScale(k, chrom, feeds, ZipLength(chrom, feeds));
  }

  lemma AddedContribution(x: real, y: real, f: Feed)
    ensures Contribution(x + y, f) == Plus(Contribution(x, f), Contribution(y, f))
  {
    assert (x + y) * f.prdd == x * f.prdd + y * f.prdd;
    assert (x + y) * f.mp == x * f.mp + y * f.mp;
    assert (x + y) * f.price == x * f.price + y * f.price;
  }

  lemma PlusInterchange(a: Totals, b: Totals, c: Totals, d: Totals)
    ensures Plus(Plus(a, b), Plus(c, d)) == Plus(Plus(a, c), Plus(b, d))
  {
  }

  lemma {:induction false} PrefixTotalsAdd(a: Chromosome, b: Chromosome, feeds: seq<Feed>, n: nat)
    requires |a| == |b| && n <= |a| && n <= |feeds|
    ensures PrefixTotals(Add(a, b), feeds, n) == Plus(PrefixTotals(a, feeds, n), PrefixTotals(b, feeds, n))
  {
    if n > 0 {
      var f := feeds[n - 1];
      var pa, pb := PrefixTotals(a, feeds, n - 1), PrefixTotals(b, feeds, n - 1);
      var ca, cb := Contribution(a[n - 1], f), Contribution(b[n - 1], f);
      assert PrefixTotals(Add(a, b), feeds, n - 1) == Plus(pa, pb) by {
        PrefixTotalsAdd(a, b, feeds, n - 1);
      }
      assert Contribution(Add(a, b)[n - 1], f) == Plus(ca, cb) by {
        assert Add(a, b)[n - 1] == a[n - 1] + b[n - 1];
        AddedContribution(a[n - 1], b[n - 1], f);
      }
      PlusInterchange(pa, pb, ca, cb);
    }
  }

  /** Decoding is additive: the totals of a gene-wise sum are the sums of the totals. */
  lemma DecodeAdds(a: Chromosome, b: Chromosome, feeds: seq<Feed>)
    requires |a| == |b|
    ensures Decode(Add(a, b), feeds) == Plus(Decode(a, feeds), Decode(b, feeds))
  {
    PrefixTotalsAdd(a, b, feeds, ZipLength(a, feeds));
  }

  lemma {:induction false} PrefixCostNonNegative(chrom: Chromosome, feeds: seq<Feed>, n: nat)
    requires n <= |chrom| && n <= |feeds|
    requires NonNegativePrices(feeds)
    requires forall i :: 0 <= i < |chrom| ==> chrom[i] >= 0.0
    ensures PrefixTotals(chrom, feeds, n).cost >= 0.0
  {
    if n > 0 {
      PrefixCostNonNegative(chrom, feeds, n - 1);
      assert chrom[n - 1] * feeds[n - 1].price >= 0.0;
    }
  }

  /** With non-negative genes and prices the cost of a mix is non-negative. */
  lemma CostNonNegative(chrom: Chromosome, feeds: seq<Feed>)
    requires NonNegativePrices(feeds)
    requires forall i :: 0 <= i < |chrom| ==> chrom[i] >= 0.0
    ensures Decode(chrom, feeds).cost >= 0.0
  {
    PrefixCostNonNegative(chrom, feeds, ZipLength(chrom, feeds));
  }

  /** Python's `max(0.0, required - actual)`. */
  function Deficit(required: real, actual: real): (d: real)
    ensures d >= 0.0
    ensures d == 0.0 <==> actual >= required
    ensures d > 0.0 ==> actual + d == required
  {
    if required - actual > 0.0 then required - actual else 0.0
  }

  /** Both nutrient totals reach their requirement. */
  predicate Meets(s: Settings, t: Totals)
  {
    t.prdd >= s.requiredPrdd && t.mp >= s.requiredMp
  }

  /** The objective of a totals record: the cost, plus the penalty
      coefficient times the summed deficit when the deficit is positive. */
  function Penalised(s: Settings, t: Totals): (obj: real)
    ensures obj == t.cost + s.penaltyCoeff * (Deficit(s.requiredPrdd, t.prdd) + Deficit(s.requiredMp, t.mp))
    ensures Meets(s, t) ==> obj == t.cost
    ensures s.penaltyCoeff >= 0.0 ==> obj >= t.cost
    ensures s.penaltyCoeff > 0.0 ==> (obj == t.cost <==> Meets(s, t))
  {
    var deficit := Deficit(s.requiredPrdd, t.prdd) + Deficit(s.requiredMp, t.mp);
    if deficit > 0.0 then t.cost + s.penaltyCoeff * deficit else t.cost
  }

  function Objective(s: Settings, chrom: Chromosome): real
  {
    Penalised(s, Decode(chrom, s.feeds))
  }

  /** Under admissible settings an in-range chromosome has a non-negative objective. */
  lemma ObjectiveNonNegative(s: Settings, chrom: Chromosome)
    requires Admissible(s) && InRange(s, chrom)
    ensures Objective(s, chrom) >= Decode(chrom, s.feeds).cost >= 0.0
  {
    CostNonNegative(chrom, s.feeds);
  }

  /** `1 / (1 + objective)`; Python raises on a zero denominator. */
  function FitnessOf(obj: real): (f: real)
    requires obj != -1.0
    ensures obj >= 0.0 ==> 0.0 < f <= 1.0
    ensures f == 1.0 <==> obj == 0.0
  {
    1.0 / (1.0 + obj)
  }

  function Fitness(s: Settings, chrom: Chromosome): real
    requires Objective(s, chrom) != -1.0
  {
    FitnessOf(Objective(s, chrom))
  }

  /** Every in-range chromosome under admissible settings has fitness in (0, 1]. */
  lemma FitnessBounds(s: Settings, chrom: Chromosome)
    requires Admissible(s) && InRange(s, chrom)
    ensures Objective(s, chrom) >= 0.0
    ensures 0.0 < Fitness(s, chrom) <= 1.0
  {
    ObjectiveNonNegative(s, chrom);
  }

  /** A product with a positive factor is positive only if the other factor is. */
  lemma PositiveFactor(x: real, c: real)
    requires c > 0.0 && x * c > 0.0
    ensures x > 0.0
  {
  }

  /** For non-negative objectives, a strictly smaller objective gives a strictly larger fitness. */
  lemma FitnessDecreasing(o1: real, o2: real)
    requires 0.0 <= o1 < o2
    ensures FitnessOf(o1) > FitnessOf(o2)
  {
    var f1, f2 := FitnessOf(o1), FitnessOf(o2);
    assert f1 * (1.0 + o1) == 1.0 && f2 * (1.0 + o2) == 1.0;
    assert f1 * (1.0 + o2) > f1 * (1.0 + o1);
    assert (f1 - f2) * (1.0 + o2) == f1 * (1.0 + o2) - f2 * (1.0 + o2);
    assert (f1 - f2) * (1.0 + o2) > 0.0;
    PositiveFactor(f1 - f2, 1.0 + o2);
  }

  /** Fitness reverses the order of non-negative objectives, in both directions. */
  lemma FitnessReversesObjective(o1: real, o2: real)
    requires o1 >= 0.0 && o2 >= 0.0
    ensures o1 < o2 <==> FitnessOf(o1) > FitnessOf(o2)
    ensures o1 == o2 <==> FitnessOf(o1) == FitnessOf(o2)
  {
    if o1 < o2 {
      FitnessDecreasing(o1, o2);
    } else if o2 < o1 {
      FitnessDecreasing(o2, o1);
    }
  }

  /** A feasible chromosome's fitness depends only on its cost. */
  lemma FeasibleFitness(s: Settings, chrom: Chromosome)
    requires Meets(s, Decode(chrom, s.feeds)) && Decode(chrom, s.feeds).cost != -1.0
    ensures Objective(s, chrom) == Decode(chrom, s.feeds).cost
    ensures Fitness(s, chrom) == 1.0 / (1.0 + Decode(chrom, s.feeds).cost)
  {
  }

  /** Objectives of a population are all non-negative under admissible settings. */
  lemma AllObjectivesNonNegative(s: Settings, pop: seq<Chromosome>)
    requires Admissible(s) && AllInRange(s, pop)
    ensures forall k :: 0 <= k < |pop| ==> Objective(s, pop[k]) >= 0.0
  {
    forall k | 0 <= k < |pop| ensures Objective(s, pop[k]) >= 0.0 {
      ObjectiveNonNegative(s, pop[k]);
    }
  }
}
