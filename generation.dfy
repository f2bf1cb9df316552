/** One generation of the (mu + lambda) scheme shared by both optimiser
    variants: the offspring counts, the offspring built from explicit random
    draws, and the truncation of parents plus offspring to the best. */
module Generation {
  import opened FeedMix
  import opened Evaluation
  import opened Operators
  import opened Selection

  /** The draws behind one crossover: the indices `random.choice` picked
      for both parents and the blend factor `alpha`. */
  datatype Pairing = Pairing(first: nat, second: nat, alpha: real)

  /** The draws behind one mutation: the parent index, and one coin
      (`random.random()`) and one offset (`uniform(-0.1, 0.1)`) per gene. */
  datatype MutationDraw = MutationDraw(parent: nat, coins: seq<real>, offsets: seq<real>)

  /** All random draws one generation consumes. */
  datatype Draws = Draws(pairings: seq<Pairing>, mutations: seq<MutationDraw>)

  /** Python's `int(x)` on a float: truncation toward zero. */
  function Trunc(x: real): (n: int)
    ensures 0.0 <= x ==> 0 <= n && n as real <= x < n as real + 1.0
    ensures x < 0.0 ==> n <= 0 && n as real - 1.0 < x <= n as real
  {
    if x >= 0.0 then x.Floor else -((-x).Floor)
  }

  /** The number of crossovers: `int(rate * pop_size)` rounded up to an even
      number, halved, and `range` of a negative count being empty. */
  function PairCount(rate: real, popSize: int): (pairs: nat)
    ensures var n := Trunc(rate * popSize as real);
      && (n <= 0 ==> pairs == 0)
      && (n > 0 ==> n <= 2 * pairs <= n + 1)
  {
    var n := Trunc(rate * popSize as real);
    var even := if n % 2 == 1 then n + 1 else n;
    if even / 2 > 0 then even / 2 else 0
  }

  /** The number of mutants: `int(rate * pop_size)`, none when negative. */
  function MutantCount(rate: real, popSize: int): (count: nat)
    ensures count as real <= if rate * popSize as real > 0.0 then rate * popSize as real else 0.0
    ensures rate * popSize as real >= 0.0 ==> rate * popSize as real < count as real + 1.0
  {
    var n := Trunc(rate * popSize as real);
    if n > 0 then n else 0
  }

  /** The draws fit a population of `popSize` chromosomes of `genes` genes
      and the offspring counts, with every draw in its documented range. */
  predicate DrawsFit(genes: nat, popSize: nat, pairs: nat, mutants: nat, d: Draws)
  {
    && |d.pairings| == pairs
    && (forall k :: 0 <= k < pairs ==>
          d.pairings[k].first < popSize && d.pairings[k].second < popSize && 0.0 <= d.pairings[k].alpha <= 1.0)
    && |d.mutations| == mutants
    && (forall k :: 0 <= k < mutants ==>
          var m := d.mutations[k];
          && m.parent < popSize && |m.coins| == genes && |m.offsets| == genes
          && (forall i :: 0 <= i < genes ==> 0.0 <= m.coins[i] < 1.0 && -0.1 <= m.offsets[i] <= 0.1))
  }

  predicate PairingsFit(pop: seq<Chromosome>, ps: seq<Pairing>)
  {
    forall k :: 0 <= k < |ps| ==> ps[k].first < |pop| && ps[k].second < |pop|
  }

  predicate MutationsFit(pop: seq<Chromosome>, ms: seq<MutationDraw>)
  {
    forall k :: 0 <= k < |ms| ==>
      ms[k].parent < |pop| && |ms[k].coins| == |pop[ms[k].parent]| && |ms[k].offsets| == |pop[ms[k].parent]|
  }

  /** The crossover offspring: two blended children per pairing, in order. */
  function Children(s: Settings, pop: seq<Chromosome>, ps: seq<Pairing>): (cs: seq<Chromosome>)
    requires PairingsFit(pop, ps)
    ensures |cs| == 2 * |ps|
  {
    if ps == [] then []
    else
      var p := ps[|ps| - 1];
      Children(s, pop, ps[..|ps| - 1])
        + [Blend(s.genMin, s.genMax, pop[p.first], pop[p.second], p.alpha),
           Blend(s.genMin, s.genMax, pop[p.second], pop[p.first], p.alpha)]
  }

  /** The mutation offspring: one mutant per draw, in order. */
  function Mutants(s: Settings, pop: seq<Chromosome>, ms: seq<MutationDraw>): (cs: seq<Chromosome>)
    requires MutationsFit(pop, ms)
    ensures |cs| == |ms|
  {
    seq(|ms|, k requires 0 <= k < |ms| && MutationsFit(pop, ms) =>
      Mutant(s.mutationRate, s.genMin, s.genMax, pop[ms[k].parent], ms[k].coins, ms[k].offsets))
  }

  /** The offspring of one generation: the crossover children, then the mutants. */
  function Offspring(s: Settings, pop: seq<Chromosome>, d: Draws): (os: seq<Chromosome>)
    requires PairingsFit(pop, d.pairings) && MutationsFit(pop, d.mutations)
    ensures |os| == 2 * |d.pairings| + |d.mutations|
  {
    Children(s, pop, d.pairings) + Mutants(s, pop, d.mutations)
  }

  /** The offspring list: crossover children appended pair by pair, then
      mutants appended one by one. */
  method Breed(s: Settings, pop: seq<Chromosome>, d: Draws) returns (offspring: seq<Chromosome>)
    requires PairingsFit(pop, d.pairings) && MutationsFit(pop, d.mutations)
    ensures offspring == Offspring(s, pop, d)
  {
    offspring := [];
    for k := 0 to |d.pairings|
      invariant offspring == Children(s, pop, d.pairings[..k])
    {
      var p := d.pairings[k];
      var c1, c2 := Crossover(s.genMin, s.genMax, pop[p.first], pop[p.second], p.alpha);
      offspring := offspring + [c1];
      offspring := offspring + [c2];
      assert d.pairings[..k + 1][..k] == d.pairings[..k];
    }
    assert d.pairings[..|d.pairings|] == d.pairings;
    ghost var children := offspring;
    for k := 0 to |d.mutations|
      invariant offspring == children + Mutants(s, pop, d.mutations[..k])
    {
      var m := d.mutations[k];
      var child := Mutate(s.mutationRate, s.genMin, s.genMax, pop[m.parent], m.coins, m.offsets);
      offspring := offspring + [child];
    }
    assert d.mutations[..|d.mutations|] == d.mutations;
  }

  lemma {:induction false} ChildrenInRange(s: Settings, pop: seq<Chromosome>, ps: seq<Pairing>)
    requires s.genMin <= s.genMax && AllInRange(s, pop) && PairingsFit(pop, ps)
    ensures AllInRange(s, Children(s, pop, ps))
  {
    if ps != [] {
      ChildrenInRange(s, pop, ps[..|ps| - 1]);
    }
  }

  /** Every offspring of in-range parents is in range: a crossover child or
      a mutant has one gene per feed, each within the gene bounds. */
  lemma OffspringInRange(s: Settings, pop: seq<Chromosome>, d: Draws)
    requires s.genMin <= s.genMax && AllInRange(s, pop)
    requires PairingsFit(pop, d.pairings) && MutationsFit(pop, d.mutations)
    ensures AllInRange(s, Offspring(s, pop, d))
  {
    ChildrenInRange(s, pop, d.pairings);
    var ms := Mutants(s, pop, d.mutations);
    forall k | 0 <= k < |ms|
      ensures InRange(s, ms[k])
    {
      var m := d.mutations[k];
      MutantProperties(s.mutationRate, s.genMin, s.genMax, pop[m.parent], m.coins, m.offsets);
    }
  }

  lemma AllInRangeConcat(s: Settings, a: seq<Chromosome>, b: seq<Chromosome>)
    requires AllInRange(s, a) && AllInRange(s, b)
    ensures AllInRange(s, a + b)
  {
    forall k | 0 <= k < |a + b|
      ensures InRange(s, (a + b)[k])
    {
      if k >= |a| {
        assert (a + b)[k] == b[k - |a|];
      }
    }
  }

  /** Draws that fit the population size also fit the population. */
  lemma DrawsFitPopulation(s: Settings, pop: seq<Chromosome>, pairs: nat, mutants: nat, d: Draws)
    requires AllInRange(s, pop) && DrawsFit(|s.feeds|, |pop|, pairs, mutants, d)
    ensures PairingsFit(pop, d.pairings) && MutationsFit(pop, d.mutations)
  {
  }

  /** One generation: breed the offspring, then keep the `popSize` fittest
      of parents followed by offspring. */
  method NextPopulation(s: Settings, pop: seq<Chromosome>, d: Draws, popSize: nat) returns (next: seq<Chromosome>)
    requires Admissible(s) && AllInRange(s, pop) && popSize <= |pop|
    requires PairingsFit(pop, d.pairings) && MutationsFit(pop, d.mutations)
    ensures Scorable(s, pop) && Scorable(s, pop + Offspring(s, pop, d))
    ensures next == Survivors(s, pop + Offspring(s, pop, d), popSize)
    ensures Successor(s, pop, d, popSize, next)
    ensures |next| == popSize && AllInRange(s, next) && Scorable(s, next)
    ensures forall i, j :: 0 <= i < j < popSize ==> Fitness(s, next[i]) >= Fitness(s, next[j])
    ensures popSize > 0 ==> forall k :: 0 <= k < |pop| ==> Fitness(s, pop[k]) <= Fitness(s, next[0])
  {
    var offspring := Breed(s, pop, d);
    OffspringInRange(s, pop, d);
    SelectionKeepsBest(s, pop, offspring, popSize);
    next := Survivors(s, pop + offspring, popSize);
  }

  /** The selection step of a generation: from in-range parents and
      offspring, the next population has `popSize` in-range members in
      non-increasing fitness order, and its first member is at least as fit
      as every parent (the scheme is elitist). */
  lemma SelectionKeepsBest(s: Settings, pop: seq<Chromosome>, offspring: seq<Chromosome>, popSize: nat)
    requires Admissible(s) && AllInRange(s, pop) && AllInRange(s, offspring) && popSize <= |pop|
    ensures Scorable(s, pop) && Scorable(s, pop + offspring)
    ensures var next := Survivors(s, pop + offspring, popSize);
      && |next| == popSize
      && AllInRange(s, next)
      && Scorable(s, next)
      && (forall i, j :: 0 <= i < j < popSize ==> Fitness(s, next[i]) >= Fitness(s, next[j]))
      && (popSize > 0 ==> forall k :: 0 <= k < |pop| ==> Fitness(s, pop[k]) <= Fitness(s, next[0]))
  {
    var combined := pop + offspring;
    AllInRangeConcat(s, pop, offspring);
    InRangeScorable(s, pop);
    SurvivorsInRange(s, combined, popSize);
    forall k | 0 <= k < |pop|
      ensures combined[k] == pop[k]
    {
    }
  }

  /** `range(n)` yields nothing for a negative `n`. */
  function Nat(n: int): nat
  {
    if n > 0 then n else 0
  }

  /** One unit draw per gene of every initial chromosome. */
  predicate SeedsFit(genes: nat, seeds: seq<seq<real>>)
  {
    forall k :: 0 <= k < |seeds| ==>
      |seeds[k]| == genes && forall i :: 0 <= i < genes ==> 0.0 <= seeds[k][i] <= 1.0
  }

  /** `[random_chromosome() for _ in range(pop_size)]` */
  function InitialPopulation(s: Settings, seeds: seq<seq<real>>): (pop: seq<Chromosome>)
    requires s.genMin <= s.genMax && SeedsFit(|s.feeds|, seeds)
    ensures |pop| == |seeds| && AllInRange(s, pop)
  {
    seq(|seeds|, k requires 0 <= k < |seeds| && s.genMin <= s.genMax && SeedsFit(|s.feeds|, seeds) =>
      RandomChromosome(s, seeds[k]))
  }

  /** Why a run raises instead of returning: with no generation there is no
      best chromosome to decode; with an empty population `max` has nothing
      to choose from; the command-line run's gene diversity divides by the
      number of feeds, which fails for an empty feed table. */
  datatype RunError = NoBestChromosome | EmptyPopulation | NoFeeds

  /** The member `max(range(len(pop)), key=...)` picks: the first fittest. */
  function GenerationBest(s: Settings, pop: seq<Chromosome>): (c: Chromosome)
    requires |pop| > 0 && Scorable(s, pop)
    ensures c in pop && Objective(s, c) != -1.0
    ensures forall k :: 0 <= k < |pop| ==> Fitness(s, pop[k]) <= Fitness(s, c)
  {
    pop[FirstArgMax(Fits(s, pop))]
  }

  /** `best` and `avg` are the statistics of `pop`: the fitness at the first
      index of the maximum, and `sum(fits) / len(fits)`. */
  predicate StatsOf(s: Settings, pop: seq<Chromosome>, best: real, avg: real)
  {
    && |pop| > 0 && Scorable(s, pop)
    && best == Fitness(s, pop[FirstArgMax(Fits(s, pop))])
    && avg == Sum(Fits(s, pop)) / (|pop| as real)
  }

  /** `next` is the population that follows `pop` under the draws `d`: the
      `popSize` fittest of the parents followed by their offspring. */
  predicate Successor(s: Settings, pop: seq<Chromosome>, d: Draws, popSize: nat, next: seq<Chromosome>)
  {
    && PairingsFit(pop, d.pairings) && MutationsFit(pop, d.mutations)
    && Scorable(s, pop + Offspring(s, pop, d))
    && next == Survivors(s, pop + Offspring(s, pop, d), popSize)
  }

  /** The statistics of one population: the first index of the best
      fitness and the mean fitness, which lies between the worst and the
      best fitness. */
  method Statistics(s: Settings, pop: seq<Chromosome>) returns (bestIdx: nat, avg: real)
    requires Admissible(s) && AllInRange(s, pop) && |pop| > 0
    ensures Scorable(s, pop)
    ensures bestIdx < |pop|
    ensures forall k :: 0 <= k < |pop| ==> Fitness(s, pop[k]) <= Fitness(s, pop[bestIdx])
    ensures forall k :: 0 <= k < bestIdx ==> Fitness(s, pop[k]) < Fitness(s, pop[bestIdx])
    ensures avg == Sum(Fits(s, pop)) / (|pop| as real)
    ensures 0.0 < MinOf(Fits(s, pop)) <= avg <= Fitness(s, pop[bestIdx]) <= 1.0
    ensures StatsOf(s, pop, Fitness(s, pop[bestIdx]), avg)
    ensures pop[bestIdx] == GenerationBest(s, pop)
  {
    InRangeScorable(s, pop);
    var fits := Fits(s, pop);
    bestIdx := FirstArgMax(fits);
    avg := Sum(fits) / (|fits| as real);
    MeanBetweenExtremes(fits);
  }

}
