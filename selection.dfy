/** The list builtins the optimiser relies on: scoring a population,
    Python's stable descending sort by fitness, truncation to the best
    `n`, the first index of the maximum, the minimum and the mean. */
module Selection {
  import opened FeedMix
  import opened Evaluation

  /** A chromosome paired with its fitness, as in `(ind, fitness(ind))`. */
  datatype Scored = Scored(chrom: Chromosome, fit: real)

  /** Every member has a defined fitness. */
  predicate Scorable(s: Settings, pop: seq<Chromosome>)
  {
    forall k :: 0 <= k < |pop| ==> Objective(s, pop[k]) != -1.0
  }

  lemma InRangeScorable(s: Settings, pop: seq<Chromosome>)
    requires Admissible(s) && AllInRange(s, pop)
    ensures Scorable(s, pop)
    ensures forall k :: 0 <= k < |pop| ==> 0.0 < Fitness(s, pop[k]) <= 1.0
  {
    forall k | 0 <= k < |pop|
      ensures Objective(s, pop[k]) >= 0.0 && 0.0 < Fitness(s, pop[k]) <= 1.0
    {
      FitnessBounds(s, pop[k]);
    }
  }

  /** `[fitness(ind) for ind in pop]` */
  function Fits(s: Settings, pop: seq<Chromosome>): (fits: seq<real>)
    requires Scorable(s, pop)
    ensures |fits| == |pop|
    ensures forall k :: 0 <= k < |pop| ==> fits[k] == Fitness(s, pop[k])
  {
    seq(|pop|, k requires 0 <= k < |pop| && Scorable(s, pop) => Fitness(s, pop[k]))
  }

  /** `[(ind, fitness(ind)) for ind in pop]` */
  function Scores(s: Settings, pop: seq<Chromosome>): (t: seq<Scored>)
    requires Scorable(s, pop)
    ensures |t| == |pop|
    ensures forall k :: 0 <= k < |pop| ==> t[k] == Scored(pop[k], Fitness(s, pop[k]))
  {
    seq(|pop|, k requires 0 <= k < |pop| && Scorable(s, pop) => Scored(pop[k], Fitness(s, pop[k])))
  }

  predicate SortedDesc(t: seq<Scored>)
  {
    forall i, j :: 0 <= i < j < |t| ==> t[i].fit >= t[j].fit
  }

  /** Inserts `x` in front of the first element that is not fitter than it,
      so that `x`, which came first in the input, stays ahead of its equals. */
  function InsertDesc(x: Scored, t: seq<Scored>): (r: seq<Scored>)
    ensures |r| == |t| + 1
    ensures multiset(r) == multiset(t) + multiset{x}
  {
    if t == [] || x.fit >= t[0].fit then [x] + t
    else
      assert t == [t[0]] + t[1..];
      [t[0]] + InsertDesc(x, t[1..])
  }

  lemma {:induction false} InsertDescSorted(x: Scored, t: seq<Scored>)
    requires SortedDesc(t)
    ensures SortedDesc(InsertDesc(x, t))
  {
    if t != [] && x.fit < t[0].fit {
      var tail := t[1..];
      var rest := InsertDesc(x, tail);
      assert SortedDesc(tail);
      InsertDescSorted(x, tail);
      forall j | 0 <= j < |rest|
        ensures t[0].fit >= rest[j].fit
      {
        assert rest[j] in multiset(tail) + multiset{x};
        if rest[j] != x {
          var k :| 0 <= k < |tail| && tail[k] == rest[j];
          assert t[k + 1] == rest[j];
        }
      }
      assert InsertDesc(x, t) == [t[0]] + rest;
    }
  }

  /** Python's `sort(key=fitness, reverse=True)`: a stable sort by
      non-increasing fitness. */
  function SortDesc(t: seq<Scored>): (r: seq<Scored>)
    ensures |r| == |t|
    ensures multiset(r) == multiset(t)
    ensures SortedDesc(r)
  {
    if t == [] then []
    else
      assert t == [t[0]] + t[1..];
      InsertDescSorted(t[0], SortDesc(t[1..]));
      InsertDesc(t[0], SortDesc(t[1..]))
  }

  /** Sorting a list that is already in non-increasing order changes nothing. */
  lemma {:induction false} SortDescOfSorted(t: seq<Scored>)
    requires SortedDesc(t)
    ensures SortDesc(t) == t
  {
    if t != [] {
      SortDescOfSorted(t[1..]);
      assert t == [t[0]] + t[1..];
    }
  }

  /** The entries of `t` whose fitness is `v`, in their order in `t`. */
  function WithFitness(t: seq<Scored>, v: real): (r: seq<Scored>)
    ensures |r| <= |t|
  {
    if t == [] then []
    else (if t[0].fit == v then [t[0]] else []) + WithFitness(t[1..], v)
  }

  /** Inserting `x` puts it ahead of every entry of equal fitness and keeps
      the order of the others. */
  lemma {:induction false} InsertDescStable(x: Scored, t: seq<Scored>, v: real)
    ensures WithFitness(InsertDesc(x, t), v) == (if x.fit == v then [x] else []) + WithFitness(t, v)
  {
    if t != [] && x.fit < t[0].fit {
      InsertDescStable(x, t[1..], v);
      assert InsertDesc(x, t)[1..] == InsertDesc(x, t[1..]);
    } else {
      assert ([x] + t)[1..] == t;
    }
  }

  /** The sort is stable: entries of equal fitness keep their input order. */
  lemma {:induction false} SortDescStable(t: seq<Scored>, v: real)
    ensures WithFitness(SortDesc(t), v) == WithFitness(t, v)
  {
    if t != [] {
      SortDescStable(t[1..], v);
      InsertDescStable(t[0], SortDesc(t[1..]), v);
    }
  }

  /** The chromosomes of a scored list, in order. */
  function Chroms(t: seq<Scored>): (cs: seq<Chromosome>)
    ensures |cs| == |t|
    ensures forall i :: 0 <= i < |t| ==> cs[i] == t[i].chrom
  {
    seq(|t|, i requires 0 <= i < |t| => t[i].chrom)
  }

  /** `[ind for (ind, fit) in sorted(scores)[:n]]`: the (mu + lambda)
      truncation selection. */
  function Survivors(s: Settings, combined: seq<Chromosome>, n: nat): seq<Chromosome>
    requires Scorable(s, combined)
  {
    var ranked := SortDesc(Scores(s, combined));
    Chroms(ranked[..Min(n, |ranked|)])
  }

  /** Every ranked entry is a scored member of the input, and every member
      of the input occurs in the ranking. */
  lemma RankedFacts(s: Settings, combined: seq<Chromosome>)
    requires Scorable(s, combined)
    ensures var ranked := SortDesc(Scores(s, combined));
      && (forall i :: 0 <= i < |ranked| ==> ranked[i].chrom in combined && ranked[i].fit == Fitness(s, ranked[i].chrom))
      && (forall m :: 0 <= m < |combined| ==> exists p :: 0 <= p < |ranked| && ranked[p] == Scored(combined[m], Fitness(s, combined[m])))
  {
    var t := Scores(s, combined);
    var ranked := SortDesc(t);
    forall i | 0 <= i < |ranked|
      ensures ranked[i].chrom in combined && ranked[i].fit == Fitness(s, ranked[i].chrom)
    {
      assert ranked[i] in multiset(t);
      var m :| 0 <= m < |t| && t[m] == ranked[i];
    }
    forall m | 0 <= m < |combined|
      ensures exists p :: 0 <= p < |ranked| && ranked[p] == Scored(combined[m], Fitness(s, combined[m]))
    {
      assert t[m] in multiset(ranked);
      var p :| 0 <= p < |ranked| && ranked[p] == t[m];
    }
  }

  /** The survivors are the chromosomes of the first min(n, |combined|)
      ranked entries, each a member of the input carrying its own fitness. */
  lemma SurvivorsAreRanked(s: Settings, combined: seq<Chromosome>, n: nat)
    requires Scorable(s, combined)
    ensures var ranked := SortDesc(Scores(s, combined));
      var r := Survivors(s, combined, n);
      && |r| == Min(n, |ranked|)
      && forall i :: 0 <= i < |r| ==> r[i] == ranked[i].chrom && r[i] in combined && Fitness(s, r[i]) == ranked[i].fit
  {
    var ranked := SortDesc(Scores(s, combined));
    var r := Survivors(s, combined, n);
    RankedFacts(s, combined);
    assert r == Chroms(ranked[..Min(n, |ranked|)]);
  }

  /** Truncation selection keeps min(n, |combined|) members of the input in
      non-increasing fitness order; the first is at least as fit as every
      member of the input, and any member fitter than the last survivor
      is itself a survivor. */
  lemma SurvivorsSpec(s: Settings, combined: seq<Chromosome>, n: nat)
    requires Scorable(s, combined)
    ensures var r := Survivors(s, combined, n);
      && |r| == Min(n, |combined|)
      && (forall i :: 0 <= i < |r| ==> r[i] in combined)
      && (forall i, j :: 0 <= i < j < |r| ==> Fitness(s, r[i]) >= Fitness(s, r[j]))
      && (forall c :: c in combined && |r| > 0 ==> Fitness(s, c) <= Fitness(s, r[0]))
      && (forall c :: c in combined && |r| > 0 && Fitness(s, c) > Fitness(s, r[|r| - 1]) ==> c in r)
  {
    var ranked := SortDesc(Scores(s, combined));
    var r := Survivors(s, combined, n);
    SurvivorsAreRanked(s, combined, n);
    forall i, j | 0 <= i < j < |r|
      ensures Fitness(s, r[i]) >= Fitness(s, r[j])
    {
      assert ranked[i].fit >= ranked[j].fit;
    }
    forall c | c in combined && |r| > 0
      ensures Fitness(s, c) <= Fitness(s, r[0])
      ensures Fitness(s, c) > Fitness(s, r[|r| - 1]) ==> c in r
    {
      SurvivorDominates(s, combined, n, c);
    }
  }

  /** One member of the input against the survivors: it is no fitter than
      the first, and it survives when it is fitter than the last. */
  lemma SurvivorDominates(s: Settings, combined: seq<Chromosome>, n: nat, c: Chromosome)
    requires Scorable(s, combined) && c in combined && Survivors(s, combined, n) != []
    ensures var r := Survivors(s, combined, n);
      && r[0] in combined && r[|r| - 1] in combined
      && Fitness(s, c) <= Fitness(s, r[0])
      && (Fitness(s, c) > Fitness(s, r[|r| - 1]) ==> c in r)
  {
    var ranked := SortDesc(Scores(s, combined));
    var r := Survivors(s, combined, n);
    SurvivorsAreRanked(s, combined, n);
    var k := |r|;
    var p := RankOf(s, combined, c);
    assert ranked[0].fit >= ranked[p].fit;
    if p >= k {
      assert ranked[k - 1].fit >= ranked[p].fit;
    } else {
      assert r[p] == c;
    }
  }

  /** Every member of the input has a position in the ranking. */
  lemma RankOf(s: Settings, combined: seq<Chromosome>, c: Chromosome) returns (p: nat)
    requires Scorable(s, combined) && c in combined
    ensures var ranked := SortDesc(Scores(s, combined));
      p < |ranked| && ranked[p] == Scored(c, Fitness(s, c))
  {
    var t := Scores(s, combined);
    var m :| 0 <= m < |combined| && combined[m] == c;
    assert t[m] in multiset(SortDesc(t));
    p :| 0 <= p < |SortDesc(t)| && SortDesc(t)[p] == t[m];
  }

  /** Truncation selection from an in-range list keeps `n` in-range
      members, and the first is at least as fit as every member of the list. */
  lemma SurvivorsInRange(s: Settings, combined: seq<Chromosome>, n: nat)
    requires Admissible(s) && AllInRange(s, combined) && n <= |combined|
    ensures Scorable(s, combined)
    ensures var next := Survivors(s, combined, n);
      && |next| == n
      && AllInRange(s, next)
      && Scorable(s, next)
      && (forall i, j :: 0 <= i < j < n ==> Fitness(s, next[i]) >= Fitness(s, next[j]))
      && (n > 0 ==> forall k :: 0 <= k < |combined| ==> Fitness(s, combined[k]) <= Fitness(s, next[0]))
  {
    InRangeScorable(s, combined);
    SurvivorsSpec(s, combined, n);
    var next := Survivors(s, combined, n);
    forall i | 0 <= i < |next|
      ensures InRange(s, next[i])
    {
      var m :| 0 <= m < |combined| && combined[m] == next[i];
    }
    InRangeScorable(s, next);
  }

  /** Python's `max(range(len(fits)), key=lambda i: fits[i])`: the first
      index holding the maximum. */
  function FirstArgMax(fits: seq<real>): (k: nat)
    requires |fits| > 0
    ensures k < |fits|
    ensures forall j :: 0 <= j < |fits| ==> fits[j] <= fits[k]
    ensures forall j :: 0 <= j < k ==> fits[j] < fits[k]
  {
    if |fits| == 1 then 0
    else
      var k := FirstArgMax(fits[..|fits| - 1]);
      if fits[|fits| - 1] > fits[k] then |fits| - 1 else k
  }

  /** Python's `min(fits)`. */
  function MinOf(xs: seq<real>): (m: real)
    requires |xs| > 0
    ensures m in xs
    ensures forall j :: 0 <= j < |xs| ==> m <= xs[j]
  {
    if |xs| == 1 then xs[0]
    else
      var m := MinOf(xs[..|xs| - 1]);
      assert forall j :: 0 <= j < |xs| - 1 ==> xs[..|xs| - 1][j] == xs[j];
      if xs[|xs| - 1] < m then xs[|xs| - 1] else m
  }

  lemma MulSucc(k: real, x: real)
    ensures (k + 1.0) * x == k * x + x
  {
  }

  /** One more value within [lo, hi] keeps a sum of k values within
      [k * lo, k * hi] in step. */
  lemma SumStep(n: real, k: real, lo: real, hi: real, total: real, last: real)
    requires n == k + 1.0 && k * lo <= total <= k * hi && lo <= last <= hi
    ensures n * lo <= total + last <= n * hi
  {
    MulSucc(k, lo);
    MulSucc(k, hi);
  }

  /** A sum of values all within [lo, hi] lies within [n * lo, n * hi]. */
  lemma {:induction false} SumBounds(xs: seq<real>, lo: real, hi: real)
    requires forall i :: 0 <= i < |xs| ==> lo <= xs[i] <= hi
    ensures (|xs| as real) * lo <= Sum(xs) <= (|xs| as real) * hi
  {
    if xs != [] {
      var init := xs[..|xs| - 1];
      assert forall i :: 0 <= i < |init| ==> init[i] == xs[i];
      SumBounds(init, lo, hi);
      assert Sum(xs) == Sum(init) + xs[|xs| - 1];
      SumStep(|xs| as real, |init| as real, lo, hi, Sum(init), xs[|xs| - 1]);
    }
  }

  /** Dividing out a positive factor keeps an inequality. */
  lemma CancelPositive(a: real, b: real, n: real)
    requires n > 0.0 && a * n >= b * n
    ensures a >= b
  {
  }

  lemma MeanBounds(total: real, n: real, lo: real, hi: real)
    requires n > 0.0 && n * lo <= total <= n * hi
    ensures lo <= total / n <= hi
  {
    var mean := total / n;
    assert mean * n == total;
    CancelPositive(mean, lo, n);
    CancelPositive(hi, mean, n);
  }

  /** The mean of a non-empty list of values within [lo, hi] lies within
      [lo, hi]. */
  lemma MeanWithin(xs: seq<real>, lo: real, hi: real)
    requires |xs| > 0
    requires forall i :: 0 <= i < |xs| ==> lo <= xs[i] <= hi
    ensures lo <= Sum(xs) / (|xs| as real) <= hi
  {
    SumBounds(xs, lo, hi);
    MeanBounds(Sum(xs), |xs| as real, lo, hi);
  }

  /** The mean of a non-empty list lies between its minimum and its maximum. */
  lemma MeanBetweenExtremes(xs: seq<real>)
    requires |xs| > 0
    ensures MinOf(xs) <= Sum(xs) / (|xs| as real) <= xs[FirstArgMax(xs)]
  {
    MeanWithin(xs, MinOf(xs), xs[FirstArgMax(xs)]);
  }
}
