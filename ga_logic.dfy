/** The web optimiser: the same engine held in a `GeneticOptimizer` object
    whose settings are fixed at construction, with a 1-based history that
    records the best objective, and a top-5 list of the final population. */
module GaLogic {
  import opened FeedMix
  import opened Evaluation
  import Operators
  import opened Selection
  import opened Generation

  /** One history entry; `bestCost` is the objective of the generation's
      fittest member, penalty included. */
  datatype HistoryEntry = HistoryEntry(generation: nat, bestFitness: real, avgFitness: real, bestCost: real)

  /** One entry of the top-5 list. */
  datatype TopSolution = TopSolution(rank: nat, chromosome: Chromosome, fitness: real, totals: Totals, cost: real)

  datatype RunResult = RunResult(
    bestChrom: Chromosome,
    totals: Totals,
    bestFit: real,
    history: seq<HistoryEntry>,
    topSolutions: seq<TopSolution>)

  /** An entry is consistent: the mean fitness lies in (0, best], the best
      fitness is in (0, 1] and is the fitness of the recorded (non-negative)
      objective. */
  predicate EntrySound(h: HistoryEntry)
  {
    && h.bestCost >= 0.0
    && h.bestFitness == FitnessOf(h.bestCost)
    && 0.0 < h.avgFitness <= h.bestFitness <= 1.0
  }

  /** Entries are numbered from 1, each is consistent, and the best
      fitness never decreases. */
  predicate HistorySound(history: seq<HistoryEntry>)
  {
    && (forall k :: 0 <= k < |history| ==> history[k].generation == k + 1 && EntrySound(history[k]))
    && (forall i, j :: 0 <= i < j < |history| ==> history[i].bestFitness <= history[j].bestFitness)
  }

  lemma HistoryExtends(history: seq<HistoryEntry>, h: HistoryEntry)
    requires HistorySound(history) && EntrySound(h) && h.generation == |history| + 1
    requires |history| > 0 ==> history[|history| - 1].bestFitness <= h.bestFitness
    ensures HistorySound(history + [h])
  {
    var ext := history + [h];
    forall i, j | 0 <= i < j < |ext|
      ensures ext[i].bestFitness <= ext[j].bestFitness
    {
      if j == |history| && i < |history| - 1 {
        assert history[i].bestFitness <= history[|history| - 1].bestFitness;
      }
    }
  }

  /** The entry of a generation holds the statistics of the population
      evaluated in it: the best fitness, the mean, and the objective of the
      first fittest member. */
  predicate EntryOf(s: Settings, pop: seq<Chromosome>, h: HistoryEntry)
  {
    && StatsOf(s, pop, h.bestFitness, h.avgFitness)
    && h.bestCost == Objective(s, pop[FirstArgMax(Fits(s, pop))])
  }

  /** Generation `g` of a run: `history[g]` records the statistics of
      `trace[g]`, and `trace[g + 1]` follows it under the draws `draws[g]`. */
  predicate GenerationSound(s: Settings, size: nat, draws: seq<Draws>,
                            trace: seq<seq<Chromosome>>, history: seq<HistoryEntry>, g: int)
  {
    && 0 <= g < |history| && g < |draws| && g + 1 < |trace|
    && EntryOf(s, trace[g], history[g])
    && Successor(s, trace[g], draws[g], size, trace[g + 1])
  }

  /** The populations of a run: `trace[0]` is the initial population,
      `trace[g]` is the one evaluated in generation `g` and recorded in
      `history[g]`, and `trace[g + 1]` follows it under the draws of that
      generation. */
  predicate TraceSound(s: Settings, size: nat, seeds: seq<seq<real>>, draws: seq<Draws>,
                       trace: seq<seq<Chromosome>>, history: seq<HistoryEntry>)
  {
    && |trace| == |history| + 1 && |history| <= |draws|
    && s.genMin <= s.genMax && SeedsFit(|s.feeds|, seeds)
    && trace[0] == InitialPopulation(s, seeds)
    && forall g :: 0 <= g < |history| ==> GenerationSound(s, size, draws, trace, history, g)
  }

  /** A generation that records the statistics of the last population of a
      sound trace and breeds its successor extends the trace. */
  lemma TraceExtends(s: Settings, size: nat, seeds: seq<seq<real>>, draws: seq<Draws>,
                     trace: seq<seq<Chromosome>>, history: seq<HistoryEntry>, gen: nat, pop: seq<Chromosome>,
                     next: seq<Chromosome>, history': seq<HistoryEntry>)
    requires TraceSound(s, size, seeds, draws, trace, history) && gen == |history| < |draws| && trace[gen] == pop
    requires |history'| == gen + 1 && history'[..gen] == history
    requires EntryOf(s, pop, history'[gen])
    requires Successor(s, pop, draws[gen], size, next)
    ensures TraceSound(s, size, seeds, draws, trace + [next], history')
  {
    var trace' := trace + [next];
    forall g | 0 <= g < |history'|
      ensures GenerationSound(s, size, draws, trace', history', g)
    {
      if g < gen {
        assert GenerationSound(s, size, draws, trace, history, g);
        assert history'[g] == history[g];
        assert trace'[g] == trace[g] && trace'[g + 1] == trace[g + 1];
      } else {
        assert trace'[gen] == pop && trace'[gen + 1] == next;
      }
    }
  }

  /** Entry `g` is the first of the first `n` entries whose best fitness
      equals that of entry `n - 1`: every earlier entry has a strictly lower
      one. */
  predicate FirstToReach(history: seq<HistoryEntry>, n: nat, g: int)
  {
    && 0 <= g < n <= |history|
    && history[g].bestFitness == history[n - 1].bestFitness
    && forall k :: 0 <= k < g ==> history[k].bestFitness < history[g].bestFitness
  }

  /** `best` is the first fittest member of the population of generation
      `g`, the first generation that reached the final best fitness. */
  predicate OriginAt(s: Settings, trace: seq<seq<Chromosome>>, history: seq<HistoryEntry>, best: Chromosome, g: int)
  {
    && FirstToReach(history, |history|, g)
    && g < |trace| && |trace[g]| > 0 && Scorable(s, trace[g])
    && best == GenerationBest(s, trace[g])
  }

  /** `best` is the first fittest member of the population of the first
      generation that reached the final best fitness. */
  ghost predicate BestOrigin(s: Settings, trace: seq<seq<Chromosome>>, history: seq<HistoryEntry>, best: Chromosome)
  {
    exists g :: OriginAt(s, trace, history, best, g)
  }

  /** One more generation keeps the origin of the best: the best is
      replaced by the first fittest member of the new population exactly
      in generation 0 or when that member is strictly fitter, and then
      comes from the new generation; otherwise the new generation's best
      fitness equals the old best's, so the generation it came from is
      still the first to reach it. */
  lemma BestOriginExtends(s: Settings, trace: seq<seq<Chromosome>>, history: seq<HistoryEntry>, gen: nat,
                          pop: seq<Chromosome>, next: seq<Chromosome>, history': seq<HistoryEntry>,
                          best: Option<Chromosome>, bestFit: real, best': Option<Chromosome>, origin: int)
    returns (origin': nat)
    requires |trace| == gen + 1 && gen == |history| && trace[gen] == pop
    requires |history'| == gen + 1 && history'[..gen] == history
    requires forall i, j :: 0 <= i < j < |history'| ==> history'[i].bestFitness <= history'[j].bestFitness
    requires best.None? <==> gen == 0
    requires gen > 0 ==> OriginAt(s, trace, history, best.value, origin) && bestFit == history[gen - 1].bestFitness
    requires |pop| > 0 && Scorable(s, pop)
    requires history'[gen].bestFitness == Fitness(s, GenerationBest(s, pop))
    requires best' == if best.None? || Fitness(s, GenerationBest(s, pop)) > bestFit then Some(GenerationBest(s, pop)) else best
    ensures best'.Some? && OriginAt(s, trace + [next], history', best'.value, origin')
    ensures origin' == if best.None? || Fitness(s, GenerationBest(s, pop)) > bestFit then gen else origin
  {
    var trace' := trace + [next];
    assert trace'[gen] == pop;
    if best.None? || Fitness(s, GenerationBest(s, pop)) > bestFit {
      OriginReplaced(history', gen);
      origin' := gen;
    } else {
      assert history'[gen - 1].bestFitness <= history'[gen].bestFitness;
      OriginKept(history, history', origin);
      assert trace'[origin] == trace[origin];
      origin' := origin;
    }
  }

  /** An entry whose best fitness is strictly above the previous one is
      the first to reach it. */
  lemma OriginReplaced(history: seq<HistoryEntry>, g: nat)
    requires g < |history|
    requires forall i, j :: 0 <= i < j < |history| ==> history[i].bestFitness <= history[j].bestFitness
    requires g > 0 ==> history[g - 1].bestFitness < history[g].bestFitness
    ensures FirstToReach(history, g + 1, g)
  {
    forall k | 0 <= k < g
      ensures history[k].bestFitness < history[g].bestFitness
    {
      assert history[k].bestFitness <= history[g - 1].bestFitness;
    }
  }

  /** An entry whose best fitness equals the previous one leaves the first
      entry to reach that fitness unchanged. */
  lemma OriginKept(history: seq<HistoryEntry>, history': seq<HistoryEntry>, g: int)
    requires FirstToReach(history, |history|, g)
    requires |history'| == |history| + 1 && history'[..|history|] == history
    requires history'[|history|].bestFitness == history[|history| - 1].bestFitness
    ensures FirstToReach(history', |history'|, g)
  {
    assert history'[g] == history[g];
    forall k | 0 <= k < g
      ensures history'[k].bestFitness < history'[g].bestFitness
    {
      assert history'[k] == history[k];
    }
  }

  /** The entries of the first `n` members of a ranking, ranked from 1. */
  function TopPrefix(s: Settings, ranked: seq<Scored>, n: nat): (top: seq<TopSolution>)
    requires n <= |ranked|
    ensures |top| == n
  {
    seq(n, k requires 0 <= k < n <= |ranked| =>
      TopSolution(k + 1, ranked[k].chrom, ranked[k].fit, Decode(ranked[k].chrom, s.feeds), Objective(s, ranked[k].chrom)))
  }

  /** `top` is the top-5 list of `pop`. */
  predicate IsTopList(s: Settings, pop: seq<Chromosome>, top: seq<TopSolution>)
    requires Scorable(s, pop)
  {
    var ranked := SortDesc(Scores(s, pop));
    top == TopPrefix(s, ranked, Min(5, |ranked|))
  }

  /** The top-5 list has min(5, |pop|) entries ranked 1..k in non-increasing
      fitness order, each a member of the population with its fitness,
      totals and objective. */
  lemma TopListEntries(s: Settings, pop: seq<Chromosome>, top: seq<TopSolution>)
    requires Admissible(s) && AllInRange(s, pop)
    requires Scorable(s, pop) && IsTopList(s, pop, top)
    ensures |top| == Min(5, |pop|)
    ensures forall i :: 0 <= i < |top| ==>
      && top[i].rank == i + 1
      && top[i].chromosome in pop
      && InRange(s, top[i].chromosome)
      && Objective(s, top[i].chromosome) >= 0.0
      && top[i].fitness == Fitness(s, top[i].chromosome)
      && top[i].totals == Decode(top[i].chromosome, s.feeds)
      && top[i].cost == Objective(s, top[i].chromosome)
    ensures forall i, j :: 0 <= i < j < |top| ==> top[i].fitness >= top[j].fitness
  {
    var ranked := SortDesc(Scores(s, pop));
    RankedFacts(s, pop);
    forall i | 0 <= i < |top|
      ensures top[i].chromosome in pop && InRange(s, top[i].chromosome) && Objective(s, top[i].chromosome) >= 0.0
      ensures top[i].fitness == Fitness(s, top[i].chromosome)
    {
      assert top[i].chromosome == ranked[i].chrom && top[i].fitness == ranked[i].fit;
      var m :| 0 <= m < |pop| && pop[m] == ranked[i].chrom;
      ObjectiveNonNegative(s, pop[m]);
    }
    forall i, j | 0 <= i < j < |top|
      ensures top[i].fitness >= top[j].fitness
    {
      assert top[i].fitness == ranked[i].fit && top[j].fitness == ranked[j].fit;
    }
  }

  /** The first entry of the top-5 list is at least as fit as every member
      of the population, and any member fitter than the last entry is
      listed. */
  lemma TopListDominates(s: Settings, pop: seq<Chromosome>, top: seq<TopSolution>)
    requires Scorable(s, pop) && IsTopList(s, pop, top)
    ensures |top| > 0 ==> forall k :: 0 <= k < |pop| ==> Fitness(s, pop[k]) <= top[0].fitness
    ensures forall c :: c in pop && |top| > 0 && Fitness(s, c) > top[|top| - 1].fitness ==>
      exists i :: 0 <= i < |top| && top[i].chromosome == c
  {
    var ranked := SortDesc(Scores(s, pop));
    RankedFacts(s, pop);
    SurvivorsSpec(s, pop, 5);
    var survivors := Survivors(s, pop, 5);
    assert |top| == |survivors|;
    forall i | 0 <= i < |top|
      ensures top[i].chromosome == survivors[i] && top[i].fitness == Fitness(s, survivors[i])
    {
      assert top[i].chromosome == ranked[i].chrom && top[i].fitness == ranked[i].fit;
    }
    forall c | c in pop && |top| > 0 && Fitness(s, c) > top[|top| - 1].fitness
      ensures exists i :: 0 <= i < |top| && top[i].chromosome == c
    {
      var i :| 0 <= i < |survivors| && survivors[i] == c;
      assert top[i].chromosome == c;
    }
  }

  /** In a sound history the last entry has the highest best fitness. */
  lemma LastIsBest(history: seq<HistoryEntry>)
    requires HistorySound(history) && |history| > 0
    ensures forall k :: 0 <= k < |history| ==> history[k].bestFitness <= history[|history| - 1].bestFitness
  {
    forall k | 0 <= k < |history| - 1
      ensures history[k].bestFitness <= history[|history| - 1].bestFitness
    {
    }
  }

  /** What holds between generations after `gen` generations: the
      population has its fixed size and is in range, the history has one
      sound entry per generation, a best chromosome exists once a generation
      has run, is in range and has the last entry's best fitness, and the
      head of the population is at least as fit as it (elitism). */
  predicate RunState(s: Settings, size: nat, gen: nat, pop: seq<Chromosome>,
                     best: Option<Chromosome>, bestFit: real, history: seq<HistoryEntry>)
  {
    && |pop| == size && AllInRange(s, pop)
    && |history| == gen && HistorySound(history)
    && (best.None? <==> gen == 0)
    && (gen > 0 ==>
          && size > 0
          && InRange(s, best.value)
          && Objective(s, best.value) >= 0.0
          && Fitness(s, best.value) == bestFit
          && bestFit == history[gen - 1].bestFitness
          && Objective(s, pop[0]) >= 0.0
          && Fitness(s, pop[0]) >= bestFit)
  }

  /** The generation loop after `gen` generations: the run state, the
      populations it went through, and, once a generation has run, the
      generation `origin` the best comes from. */
  predicate LoopState(s: Settings, size: nat, seeds: seq<seq<real>>, draws: seq<Draws>, gen: nat,
                      pop: seq<Chromosome>, best: Option<Chromosome>, bestFit: real, history: seq<HistoryEntry>,
                      trace: seq<seq<Chromosome>>, origin: int)
  {
    && RunState(s, size, gen, pop, best, bestFit, history)
    && TraceSound(s, size, seeds, draws, trace, history) && trace[gen] == pop
    && (gen > 0 ==> forall g :: g == origin ==> OriginAt(s, trace, history, best.value, g))
  }

  /** A successful run has one sound history entry per generation; the
      returned best is an in-range chromosome whose fitness is the last
      (and highest) best fitness and whose totals are returned with it; and
      the top-5 list is ranked 1..k in non-increasing fitness order, each
      entry an in-range chromosome with its own fitness, totals and
      objective, led by a solution at least as fit as the returned best. */
  predicate ResultSound(s: Settings, maxGen: int, popSize: int, out: RunResult)
  {
    && |out.history| == maxGen > 0
    && HistorySound(out.history)
    && out.bestFit == out.history[maxGen - 1].bestFitness
    && (forall k :: 0 <= k < maxGen ==> out.history[k].bestFitness <= out.bestFit)
    && InRange(s, out.bestChrom)
    && Objective(s, out.bestChrom) >= 0.0
    && Fitness(s, out.bestChrom) == out.bestFit
    && out.totals == Decode(out.bestChrom, s.feeds)
    && |out.topSolutions| == Min(5, popSize) > 0
    && (forall i :: 0 <= i < |out.topSolutions| ==>
          var e := out.topSolutions[i];
          && e.rank == i + 1
          && InRange(s, e.chromosome)
          && Objective(s, e.chromosome) >= 0.0
          && e.fitness == Fitness(s, e.chromosome)
          && e.totals == Decode(e.chromosome, s.feeds)
          && e.cost == Objective(s, e.chromosome))
    && (forall i, j :: 0 <= i < j < |out.topSolutions| ==>
          out.topSolutions[i].fitness >= out.topSolutions[j].fitness)
    && out.topSolutions[0].fitness >= out.bestFit
  }

  /** The state after the last generation, with the top list of the final
      population and the decoded best, makes a sound result. */
  lemma FinalResult(s: Settings, maxGen: int, popSize: int, pop: seq<Chromosome>, best: Chromosome,
                    bestFit: real, history: seq<HistoryEntry>, top: seq<TopSolution>, totals: Totals)
    requires Admissible(s) && maxGen > 0 && popSize > 0
    requires RunState(s, popSize, maxGen, pop, Some(best), bestFit, history)
    requires Scorable(s, pop) && IsTopList(s, pop, top)
    requires totals == Decode(best, s.feeds)
    ensures ResultSound(s, maxGen, popSize, RunResult(best, totals, bestFit, history, top))
  {
    TopListEntries(s, pop, top);
    TopListDominates(s, pop, top);
    LastIsBest(history);
  }

  class GeneticOptimizer {
    const feeds: seq<Feed>
    const requiredPrdd: real
    const requiredMp: real
    const popSize: int
    const maxGen: int
    const crossoverRate: real
    const mutationRate: real
    const genMin: real
    const genMax: real
    const nutritionPenaltyCoeff: real := 1000000.0

    constructor (feeds: seq<Feed>, requiredPrdd: real, requiredMp: real,
                 popSize: int := 100, maxGen: int := 200,
                 crossoverRate: real := 0.3, mutationRate: real := 0.3,
                 genMin: real := 0.0, genMax: real := 10.0)
      ensures this.feeds == feeds && this.requiredPrdd == requiredPrdd && this.requiredMp == requiredMp
      ensures this.popSize == popSize && this.maxGen == maxGen
      ensures this.crossoverRate == crossoverRate && this.mutationRate == mutationRate
      ensures this.genMin == genMin && this.genMax == genMax
    {
      this.feeds := feeds;
      this.requiredPrdd := requiredPrdd;
      this.requiredMp := requiredMp;
      this.popSize := popSize;
      this.maxGen := maxGen;
      this.crossoverRate := crossoverRate;
      this.mutationRate := mutationRate;
      this.genMin := genMin;
      this.genMax := genMax;
    }

    /** The settings every operation of this object reads. */
    function OptimizerSettings(): Settings
    {
      Settings(feeds, requiredPrdd, requiredMp, nutritionPenaltyCoeff, genMin, genMax, mutationRate)
    }

    method DecodeChromosome(chrom: Chromosome) returns (totals: Totals)
      ensures totals == Decode(chrom, feeds)
    {
      totals := Evaluation.DecodeChromosome(chrom, feeds);
    }

    /** The objective under this object's requirements and the 1e6
        coefficient: the raw cost exactly when both requirements are met,
        and otherwise the cost plus the penalised deficit. */
    function ObjectiveFunction(chrom: Chromosome): (obj: real)
      ensures var t := Decode(chrom, feeds);
        && (t.prdd >= requiredPrdd && t.mp >= requiredMp <==> obj == t.cost)
        && obj == t.cost + 1000000.0 * (Deficit(requiredPrdd, t.prdd) + Deficit(requiredMp, t.mp))
    {
      Objective(OptimizerSettings(), chrom)
    }

    /** `1 / (1 + objective)`: in (0, 1] when the objective is non-negative,
        and 1 exactly for a zero objective. */
    function Fitness(chrom: Chromosome): (f: real)
      requires ObjectiveFunction(chrom) != -1.0
      ensures ObjectiveFunction(chrom) >= 0.0 ==> 0.0 < f <= 1.0
      ensures f == 1.0 <==> ObjectiveFunction(chrom) == 0.0
    {
      FitnessOf(ObjectiveFunction(chrom))
    }

    /** `[random.uniform(gen_min, gen_max) for _ in feeds]` from unit draws. */
    function RandomChromosome(draws: seq<real>): (c: Chromosome)
      requires |draws| == |feeds| && genMin <= genMax
      requires forall i :: 0 <= i < |draws| ==> 0.0 <= draws[i] <= 1.0
      ensures |c| == |feeds| && forall i :: 0 <= i < |c| ==> genMin <= c[i] <= genMax
    {
      Operators.RandomChromosome(OptimizerSettings(), draws)
    }

    method ExtendedIntermediateCrossover(p1: Chromosome, p2: Chromosome, alpha: real) returns (c1: Chromosome, c2: Chromosome)
      ensures c1 == Operators.Blend(genMin, genMax, p1, p2, alpha)
      ensures c2 == Operators.Blend(genMin, genMax, p2, p1, alpha)
    {
      c1, c2 := Operators.Crossover(genMin, genMax, p1, p2, alpha);
    }

    method Mutate(chrom: Chromosome, coins: seq<real>, offsets: seq<real>) returns (mutant: Chromosome)
      requires |coins| == |chrom| && |offsets| == |chrom|
      ensures mutant == Operators.Mutant(mutationRate, genMin, genMax, chrom, coins, offsets)
    {
      mutant := Operators.Mutate(mutationRate, genMin, genMax, chrom, coins, offsets);
    }

    /** The top-5 list: the first min(5, |pop|) members of the population
        sorted by non-increasing fitness, ranked from 1, each with its
        fitness, totals and objective; duplicates are kept. */
    method TopSolutions(pop: seq<Chromosome>) returns (top: seq<TopSolution>)
      requires Admissible(OptimizerSettings()) && AllInRange(OptimizerSettings(), pop)
      ensures Scorable(OptimizerSettings(), pop) && IsTopList(OptimizerSettings(), pop, top)
    {
      var s := OptimizerSettings();
      InRangeScorable(s, pop);
      var ranked := SortDesc(Scores(s, pop));
      top := [];
      for i := 0 to Min(5, |ranked|)
        invariant top == TopPrefix(s, ranked, i)
      {
        var entry := ranked[i];
        var totals := Evaluation.DecodeChromosome(entry.chrom, feeds);
        top := top + [TopSolution(i + 1, entry.chrom, entry.fit, totals, Objective(s, entry.chrom))];
      }
    }

    /** The body of the generation loop: evaluate, update the best, record
        the history entry, breed and select. */
    method Evolve(size: nat, gen: nat, pop: seq<Chromosome>,
                  best: Option<Chromosome>, bestFit: real, history: seq<HistoryEntry>, d: Draws)
      returns (pop': seq<Chromosome>, best': Option<Chromosome>, bestFit': real, history': seq<HistoryEntry>)
      requires Admissible(OptimizerSettings()) && size > 0
      requires RunState(OptimizerSettings(), size, gen, pop, best, bestFit, history)
      requires DrawsFit(|feeds|, size, PairCount(crossoverRate, popSize), MutantCount(mutationRate, popSize), d)
      ensures RunState(OptimizerSettings(), size, gen + 1, pop', best', bestFit', history')
      ensures history'[..gen] == history
      ensures EntryOf(OptimizerSettings(), pop, history'[gen])
      ensures var s := OptimizerSettings();
        && |pop| > 0 && Scorable(s, pop)
        && history'[gen].bestFitness == Evaluation.Fitness(s, GenerationBest(s, pop))
        && best' == if best.None? || Evaluation.Fitness(s, GenerationBest(s, pop)) > bestFit then Some(GenerationBest(s, pop)) else best
      ensures Successor(OptimizerSettings(), pop, d, size, pop')
    {
      var s := OptimizerSettings();
      var bestIdx, avg := Statistics(s, pop);
      var genBestChrom, genBestFit := pop[bestIdx], Evaluation.Fitness(s, pop[bestIdx]);
      var genBestCost := Objective(s, pop[bestIdx]);
      ObjectiveNonNegative(s, genBestChrom);
      best', bestFit' := best, bestFit;
      if best.None? || genBestFit > bestFit {
        bestFit' := genBestFit;
        best' := Some(genBestChrom);
      }
      var entry := HistoryEntry(gen + 1, genBestFit, avg, genBestCost);
      HistoryExtends(history, entry);
      history' := history + [entry];

      DrawsFitPopulation(s, pop, PairCount(crossoverRate, popSize), MutantCount(mutationRate, popSize), d);
      pop' := NextPopulation(s, pop, d, size);
      assert bestFit' == genBestFit <= Evaluation.Fitness(s, pop'[0]);
      ObjectiveNonNegative(s, pop'[0]);
    }

    /** One pass of the generation loop, extending the trace of populations. */
    method Advance(size: nat, gen: nat, pop: seq<Chromosome>,
                   best: Option<Chromosome>, bestFit: real, history: seq<HistoryEntry>,
                   seeds: seq<seq<real>>, draws: seq<Draws>, ghost trace: seq<seq<Chromosome>>, ghost origin: int)
      returns (pop': seq<Chromosome>, best': Option<Chromosome>, bestFit': real, history': seq<HistoryEntry>,
               ghost trace': seq<seq<Chromosome>>, ghost origin': nat)
      requires Admissible(OptimizerSettings()) && size > 0 && gen < |draws|
      requires LoopState(OptimizerSettings(), size, seeds, draws, gen, pop, best, bestFit, history, trace, origin)
      requires DrawsFit(|feeds|, size, PairCount(crossoverRate, popSize), MutantCount(mutationRate, popSize), draws[gen])
      ensures LoopState(OptimizerSettings(), size, seeds, draws, gen + 1, pop', best', bestFit', history', trace', origin')
    {
      pop', best', bestFit', history' := Evolve(size, gen, pop, best, bestFit, history, draws[gen]);
      TraceExtends(OptimizerSettings(), size, seeds, draws, trace, history, gen, pop, pop', history');
      origin' := BestOriginExtends(OptimizerSettings(), trace, history, gen, pop, pop', history', best, bestFit, best', origin);
      trace' := trace + [pop'];
    }

    /** The generation loop, from the initial population of the seeds;
        `trace` is the sequence of populations it went through. */
    method Generations(size: nat, seeds: seq<seq<real>>, draws: seq<Draws>)
      returns (pop: seq<Chromosome>, best: Option<Chromosome>, bestFit: real, history: seq<HistoryEntry>,
               ghost trace: seq<seq<Chromosome>>, ghost origin: int)
      requires Admissible(OptimizerSettings()) && (|draws| > 0 ==> size > 0)
      requires |seeds| == size && SeedsFit(|feeds|, seeds)
      requires forall g :: 0 <= g < |draws| ==>
        DrawsFit(|feeds|, size, PairCount(crossoverRate, popSize), MutantCount(mutationRate, popSize), draws[g])
      ensures LoopState(OptimizerSettings(), size, seeds, draws, |draws|, pop, best, bestFit, history, trace, origin)
    {
      pop := InitialPopulation(OptimizerSettings(), seeds);
      best, bestFit, history := None, 0.0, [];
      trace := [pop];
      origin := 0;
      for gen := 0 to |draws|
        invariant LoopState(OptimizerSettings(), size, seeds, draws, gen, pop, best, bestFit, history, trace, origin)
      {
        pop, best, bestFit, history, trace, origin :=
          Advance(size, gen, pop, best, bestFit, history, seeds, draws, trace, origin);
      }
    }

    /** The run: evolve for `maxGen` generations, recording one history
        entry per generation, then list the top 5 of the final population;
        `trace` is the sequence of populations it went through. */
    method Run(seeds: seq<seq<real>>, draws: seq<Draws>)
      returns (r: Result<RunResult, RunError>, ghost trace: seq<seq<Chromosome>>)
      requires Admissible(OptimizerSettings())
      requires |seeds| == Nat(popSize) && SeedsFit(|feeds|, seeds)
      requires |draws| == Nat(maxGen)
      requires forall g :: 0 <= g < |draws| ==>
        DrawsFit(|feeds|, Nat(popSize), PairCount(crossoverRate, popSize), MutantCount(mutationRate, popSize), draws[g])
      ensures r.Failure? <==> maxGen <= 0 || popSize <= 0
      ensures r.Failure? ==> r.error == if maxGen <= 0 then NoBestChromosome else EmptyPopulation
      ensures r.Success? ==> ResultSound(OptimizerSettings(), maxGen, popSize, r.value)
      ensures r.Success? ==>
        && TraceSound(OptimizerSettings(), Nat(popSize), seeds, draws, trace, r.value.history)
        && Scorable(OptimizerSettings(), trace[maxGen])
        && IsTopList(OptimizerSettings(), trace[maxGen], r.value.topSolutions)
      ensures r.Success? ==> BestOrigin(OptimizerSettings(), trace, r.value.history, r.value.bestChrom)
    {
      var s := OptimizerSettings();
      var size := Nat(popSize);
      // `max` over the indices of an empty population fails in generation 0,
      // before anything is recorded.
      if maxGen > 0 && size == 0 {
        return Failure(EmptyPopulation), [InitialPopulation(s, seeds)];
      }
      var pop, best, bestFit, history;
      ghost var origin;
      pop, best, bestFit, history, trace, origin := Generations(size, seeds, draws);
      var top := TopSolutions(pop);
      if best.None? {
        return Failure(NoBestChromosome), trace;
      }
      var totals := DecodeChromosome(best.value);
      FinalResult(s, maxGen, popSize, pop, best.value, bestFit, history, top, totals);
      assert OriginAt(s, trace, history, best.value, origin);
      r := Success(RunResult(best.value, totals, bestFit, history, top));
    }
  }
}
