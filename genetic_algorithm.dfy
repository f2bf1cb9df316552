/** The command-line optimiser: the module-level run that evolves a
    population for a number of generations and records per-generation
    statistics, and the formatting of its result. */
module GeneticAlgorithm {
  import opened FeedMix
  import Config
  import opened Evaluation
  import opened Operators
  import opened Selection
  import opened Generation

  /** The settings the module-level operators read. Only the feed table can
      be replaced per run; the requirements, gene bounds and per-gene
      mutation probability always come from the configuration. */
  function ModuleSettings(feeds: seq<Feed>): (s: Settings)
    ensures s.feeds == feeds
    ensures NonNegativePrices(feeds) ==> Admissible(s)
  {
    Settings(feeds, Config.REQUIRED_PRDD, Config.REQUIRED_MP, Config.NUTRITION_PENALTY_COEFF,
             Config.GEN_MIN, Config.GEN_MAX, Config.MUTATION_RATE)
  }

  /** The optional keyword arguments of a run; `None` selects the default. */
  datatype Overrides = Overrides(
    feeds: Option<seq<Feed>>,
    requiredPrdd: Option<real>,
    requiredMp: Option<real>,
    popSize: Option<int>,
    maxGen: Option<int>,
    crossoverRate: Option<real>,
    mutationRate: Option<real>)

  /** The parameters of a run once every default is filled in. */
  datatype RunParams = RunParams(
    feeds: seq<Feed>,
    requiredPrdd: real,
    requiredMp: real,
    popSize: int,
    maxGen: int,
    crossoverRate: real,
    mutationRate: real)

  /** Fills in the defaults of a run: a keyword argument that is given is
      taken as given, and an omitted one takes the configuration's value. */
  function Resolve(o: Overrides): (p: RunParams)
    ensures p.feeds == if o.feeds.Some? then o.feeds.value else Config.FEEDS
    ensures p.requiredPrdd == if o.requiredPrdd.Some? then o.requiredPrdd.value else Config.REQUIRED_PRDD
    ensures p.requiredMp == if o.requiredMp.Some? then o.requiredMp.value else Config.REQUIRED_MP
    ensures p.popSize == if o.popSize.Some? then o.popSize.value else Config.POP_SIZE
    ensures p.maxGen == if o.maxGen.Some? then o.maxGen.value else Config.MAX_GEN
    ensures p.crossoverRate == if o.crossoverRate.Some? then o.crossoverRate.value else Config.CROSSOVER_RATE
    ensures p.mutationRate == if o.mutationRate.Some? then o.mutationRate.value else Config.MUTATION_RATE
  {
    RunParams(
      OrElse(o.feeds, Config.FEEDS),
      OrElse(o.requiredPrdd, Config.REQUIRED_PRDD),
      OrElse(o.requiredMp, Config.REQUIRED_MP),
      OrElse(o.popSize, Config.POP_SIZE),
      OrElse(o.maxGen, Config.MAX_GEN),
      OrElse(o.crossoverRate, Config.CROSSOVER_RATE),
      OrElse(o.mutationRate, Config.MUTATION_RATE))
  }

  /** The random draws of a whole run fit its parameters: the feed prices are
      non-negative, there is one seed per initial chromosome and one set of
      generation draws per generation. */
  predicate InputsFit(p: RunParams, seeds: seq<seq<real>>, draws: seq<Draws>)
  {
    && NonNegativePrices(p.feeds)
    && |seeds| == Nat(p.popSize) && SeedsFit(|p.feeds|, seeds)
    && |draws| == Nat(p.maxGen)
    && forall g :: 0 <= g < |draws| ==>
         DrawsFit(|p.feeds|, Nat(p.popSize), PairCount(p.crossoverRate, p.popSize),
                  MutantCount(p.mutationRate, p.popSize), draws[g])
  }

  /** The record kept for one generation. */
  datatype GenDetail = GenDetail(
    gen: nat,
    bestFitness: real,
    avgFitness: real,
    worstFitness: real,
    totals: Totals,
    composition: Chromosome)

  datatype Outcome = Outcome(bestChrom: Chromosome, bestTotals: Totals, bestFit: real, history: seq<GenDetail>)

  /** A generation record is consistent: the worst, mean and best fitness are
      ordered within (0, 1], and the recorded composition is an in-range
      chromosome whose fitness is the recorded best and whose totals are the
      recorded totals. */
  predicate RecordSound(s: Settings, h: GenDetail)
  {
    && 0.0 < h.worstFitness <= h.avgFitness <= h.bestFitness <= 1.0
    && InRange(s, h.composition)
    && Objective(s, h.composition) >= 0.0
    && Fitness(s, h.composition) == h.bestFitness
    && h.totals == Decode(h.composition, s.feeds)
  }

  /** Records are numbered from 0, each is consistent, and the best fitness
      never decreases from one generation to the next. */
  predicate HistorySound(s: Settings, history: seq<GenDetail>)
  {
    && (forall k :: 0 <= k < |history| ==> history[k].gen == k && RecordSound(s, history[k]))
    && (forall i, j :: 0 <= i < j < |history| ==> history[i].bestFitness <= history[j].bestFitness)
  }

  /** A successful run has one record per generation; the returned best is
      the last record's composition, fitness and totals, and no record has
      a higher best fitness. */
  predicate OutcomeSound(s: Settings, maxGen: int, out: Outcome)
  {
    && |out.history| == maxGen > 0
    && HistorySound(s, out.history)
    && out.bestChrom == out.history[maxGen - 1].composition
    && out.bestFit == out.history[maxGen - 1].bestFitness
    && out.bestTotals == Decode(out.bestChrom, s.feeds)
    && forall k :: 0 <= k < maxGen ==> out.history[k].bestFitness <= out.bestFit
  }

  /** Appending a consistent record whose best fitness is not below the
      last one keeps a history sound. */
  lemma HistoryExtends(s: Settings, history: seq<GenDetail>, h: GenDetail)
    requires HistorySound(s, history) && RecordSound(s, h) && h.gen == |history|
    requires |history| > 0 ==> history[|history| - 1].bestFitness <= h.bestFitness
    ensures HistorySound(s, history + [h])
  {
    var ext := history + [h];
    forall i, j | 0 <= i < j < |ext|
      ensures ext[i].bestFitness <= ext[j].bestFitness
    {
      if j == |history| && i < |history| - 1 {
        assert history[i].bestFitness <= history[|history| - 1].bestFitness;
      }
    }
  }

  /** The record of a generation holds the statistics of the population
      evaluated in it: the best fitness, the mean and `min(fits)`. */
  predicate RecordOf(s: Settings, pop: seq<Chromosome>, h: GenDetail)
  {
    && StatsOf(s, pop, h.bestFitness, h.avgFitness)
    && h.worstFitness == MinOf(Fits(s, pop))
  }

  /** Record `g` keeps the best so far, given the candidate `c` of its
      generation: the candidate in generation 0 and whenever the record's
      best fitness is strictly above the previous one, and otherwise the
      previous record's composition. */
  predicate Keeps(history: seq<GenDetail>, g: int, c: Chromosome)
  {
    && 0 <= g < |history|
    && history[g].composition ==
         (if g == 0 || history[g].bestFitness > history[g - 1].bestFitness then c else history[g - 1].composition)
  }

  /** The composition recorded in generation `g` is the best so far, the
      candidate of a generation being the first fittest member of its
      population. */
  predicate KeepsBest(s: Settings, trace: seq<seq<Chromosome>>, history: seq<GenDetail>, g: int)
  {
    && 0 <= g < |history| && g < |trace| && |trace[g]| > 0 && Scorable(s, trace[g])
    && Keeps(history, g, GenerationBest(s, trace[g]))
  }

  /** Generation `g` of a run: `history[g]` records the statistics of
      `trace[g]` and keeps the best so far, and `trace[g + 1]` follows
      `trace[g]` under the draws `draws[g]`. */
  predicate GenerationSound(s: Settings, popSize: nat, draws: seq<Draws>,
                            trace: seq<seq<Chromosome>>, history: seq<GenDetail>, g: int)
  {
    && 0 <= g < |history| && g < |draws| && g + 1 < |trace|
    && RecordOf(s, trace[g], history[g])
    && KeepsBest(s, trace, history, g)
    && Successor(s, trace[g], draws[g], popSize, trace[g + 1])
  }

  /** Every generation of a sound trace keeps the best so far. */
  lemma TraceKeepsBest(s: Settings, popSize: nat, seeds: seq<seq<real>>, draws: seq<Draws>,
                       trace: seq<seq<Chromosome>>, history: seq<GenDetail>)
    requires TraceSound(s, popSize, seeds, draws, trace, history)
    ensures forall g :: 0 <= g < |history| ==> KeepsBest(s, trace, history, g)
  {
    forall g | 0 <= g < |history|
      ensures KeepsBest(s, trace, history, g)
    {
      assert GenerationSound(s, popSize, draws, trace, history, g);
    }
  }

  /** The populations of a run: `trace[0]` is the initial population,
      `trace[g]` is the one evaluated in generation `g` and recorded in
      `history[g]`, and `trace[g + 1]` follows it under the draws of that
      generation. */
  predicate TraceSound(s: Settings, popSize: nat, seeds: seq<seq<real>>, draws: seq<Draws>,
                       trace: seq<seq<Chromosome>>, history: seq<GenDetail>)
  {
    && |trace| == |history| + 1 && |history| <= |draws|
    && s.genMin <= s.genMax && SeedsFit(|s.feeds|, seeds)
    && trace[0] == InitialPopulation(s, seeds)
    && forall g :: 0 <= g < |history| ==> GenerationSound(s, popSize, draws, trace, history, g)
  }

  /** Record `g` is the first of the first `n` records whose best fitness
      equals that of record `n - 1`: every earlier record has a strictly
      lower one. */
  predicate FirstToReach(history: seq<GenDetail>, n: nat, g: int)
  {
    && 0 <= g < n <= |history|
    && history[g].bestFitness == history[n - 1].bestFitness
    && forall k :: 0 <= k < g ==> history[k].bestFitness < history[g].bestFitness
  }

  /** In records that keep the best so far and whose best fitness never
      decreases, the composition of record `n - 1` is the candidate of the
      first record that reached its best fitness: a candidate only replaces
      the composition when it is strictly fitter. */
  lemma {:induction false} FirstKept(history: seq<GenDetail>, cands: seq<Chromosome>, n: nat)
    requires |cands| == |history| && forall g :: 0 <= g < |history| ==> Keeps(history, g, cands[g])
    requires forall i, j :: 0 <= i < j < |history| ==> history[i].bestFitness <= history[j].bestFitness
    requires 0 < n <= |history|
    ensures exists g :: FirstToReach(history, n, g) && history[n - 1].composition == cands[g]
  {
    assert Keeps(history, n - 1, cands[n - 1]);
    if n == 1 {
      assert FirstToReach(history, n, 0);
    } else {
      FirstKept(history, cands, n - 1);
      var g :| FirstToReach(history, n - 1, g) && history[n - 2].composition == cands[g];
      if history[n - 1].bestFitness > history[n - 2].bestFitness {
        forall k | 0 <= k < n - 1
          ensures history[k].bestFitness < history[n - 1].bestFitness
        {
          assert history[k].bestFitness <= history[n - 2].bestFitness;
        }
        assert FirstToReach(history, n, n - 1);
      } else {
        assert history[n - 2].bestFitness <= history[n - 1].bestFitness;
        assert FirstToReach(history, n, g);
      }
    }
  }

  /** `best` is the first fittest member of the population of the first
      generation that reached the final best fitness. */
  ghost predicate BestOrigin(s: Settings, trace: seq<seq<Chromosome>>, history: seq<GenDetail>, best: Chromosome)
  {
    exists g :: && FirstToReach(history, |history|, g)
                && g < |trace| && |trace[g]| > 0 && Scorable(s, trace[g])
                && best == GenerationBest(s, trace[g])
  }

  /** The composition of the last record of a run is the first fittest
      member of the first generation that reached the final best fitness. */
  lemma RecordOrigin(s: Settings, popSize: nat, seeds: seq<seq<real>>, draws: seq<Draws>,
                     trace: seq<seq<Chromosome>>, history: seq<GenDetail>)
    requires TraceSound(s, popSize, seeds, draws, trace, history) && HistorySound(s, history)
    requires |history| > 0
    ensures BestOrigin(s, trace, history, history[|history| - 1].composition)
  {
    TraceKeepsBest(s, popSize, seeds, draws, trace, history);
    var cands := seq(|history|, g =>
      if 0 <= g < |trace| && |trace[g]| > 0 && Scorable(s, trace[g]) then GenerationBest(s, trace[g]) else []);
    forall g | 0 <= g < |history|
      ensures Keeps(history, g, cands[g])
    {
      assert KeepsBest(s, trace, history, g);
    }
    FirstKept(history, cands, |history|);
    var g :| FirstToReach(history, |history|, g) && history[|history| - 1].composition == cands[g];
    assert KeepsBest(s, trace, history, g);
  }

  /** What holds between generations of the module-level run after `gen`
      generations: the population has its fixed size and is in range, the
      history has one sound record per generation, a best chromosome exists
      once a generation has run and is the last record's composition, and
      the head of the population is at least as fit as that best (elitism). */
  predicate RunState(s: Settings, popSize: nat, gen: nat, pop: seq<Chromosome>,
                     best: Option<Chromosome>, bestFit: real, history: seq<GenDetail>)
  {
    && |pop| == popSize && AllInRange(s, pop)
    && |history| == gen && HistorySound(s, history)
    && (best.None? <==> gen == 0)
    && (gen > 0 ==>
          && popSize > 0
          && best.value == history[gen - 1].composition
          && bestFit == history[gen - 1].bestFitness
          && Objective(s, pop[0]) >= 0.0
          && Fitness(s, pop[0]) >= bestFit)
  }

  /** The body of the generation loop: evaluate, update the best, record,
      breed and select. */
  method Evolve(s: Settings, popSize: nat, gen: nat, pop: seq<Chromosome>,
                best: Option<Chromosome>, bestFit: real, history: seq<GenDetail>,
                pairs: nat, mutants: nat, d: Draws)
    returns (pop': seq<Chromosome>, best': Option<Chromosome>, bestFit': real, history': seq<GenDetail>)
    requires Admissible(s) && popSize > 0
    requires RunState(s, popSize, gen, pop, best, bestFit, history)
    requires DrawsFit(|s.feeds|, popSize, pairs, mutants, d)
    ensures RunState(s, popSize, gen + 1, pop', best', bestFit', history')
    ensures history'[..gen] == history
    ensures RecordOf(s, pop, history'[gen])
    ensures best' == if best.None? || Fitness(s, GenerationBest(s, pop)) > bestFit then Some(GenerationBest(s, pop)) else best
    ensures history'[gen].composition ==
      if gen == 0 || history'[gen].bestFitness > history'[gen - 1].bestFitness then GenerationBest(s, pop)
      else history'[gen - 1].composition
    ensures Successor(s, pop, d, popSize, pop')
  {
    var bestIdx, avg := Statistics(s, pop);
    var worst := MinOf(Fits(s, pop));
    var genBestChrom, genBestFit := pop[bestIdx], Fitness(s, pop[bestIdx]);
    best', bestFit' := best, bestFit;
    if best.None? || genBestFit > bestFit {
      bestFit' := genBestFit;
      best' := Some(genBestChrom);
      ObjectiveNonNegative(s, genBestChrom);
    }
    var totals := DecodeChromosome(best'.value, s.feeds);
    var record := GenDetail(gen, genBestFit, avg, worst, totals, best'.value);
    assert RecordSound(s, record);
    HistoryExtends(s, history, record);
    history' := history + [record];

    DrawsFitPopulation(s, pop, pairs, mutants, d);
    pop' := NextPopulation(s, pop, d, popSize);
    assert bestFit' == genBestFit <= Fitness(s, pop'[0]);
    ObjectiveNonNegative(s, pop'[0]);
  }

  /** The generation loop of the module-level run, from the initial
      population of the seeds: it stops at the first generation when the
      population is empty or, with more than one member, the feed table is
      empty; otherwise it runs every generation and `trace` is the sequence
      of populations it went through. */
  method Generations(s: Settings, popSize: nat, maxGen: nat, pairs: nat, mutants: nat,
                     seeds: seq<seq<real>>, draws: seq<Draws>)
    returns (err: Option<RunError>, pop: seq<Chromosome>, best: Option<Chromosome>, bestFit: real,
             history: seq<GenDetail>, ghost trace: seq<seq<Chromosome>>)
    requires Admissible(s) && |seeds| == popSize && SeedsFit(|s.feeds|, seeds) && |draws| == maxGen
    requires forall g :: 0 <= g < maxGen ==> DrawsFit(|s.feeds|, popSize, pairs, mutants, draws[g])
    ensures err.Some? <==> maxGen > 0 && (popSize == 0 || (popSize > 1 && s.feeds == []))
    ensures err.Some? ==> err.value == if popSize == 0 then EmptyPopulation else NoFeeds
    ensures err.None? ==> RunState(s, popSize, maxGen, pop, best, bestFit, history)
    ensures err.None? ==> TraceSound(s, popSize, seeds, draws, trace, history) && trace[maxGen] == pop
  {
    pop := InitialPopulation(s, seeds);
    best, bestFit, history := None, 0.0, [];
    trace := [pop];
    // Both failures happen in generation 0, before anything is recorded:
    // `max` over the indices of an empty population, and the gene diversity
    // divided by `len(FEEDS)`.
    if maxGen > 0 && popSize == 0 {
      return Some(EmptyPopulation), pop, best, bestFit, history, trace;
    }
    if maxGen > 0 && popSize > 1 && s.feeds == [] {
      return Some(NoFeeds), pop, best, bestFit, history, trace;
    }
    for gen := 0 to maxGen
      invariant RunState(s, popSize, gen, pop, best, bestFit, history)
      invariant TraceSound(s, popSize, seeds, draws, trace, history) && trace[gen] == pop
    {
      pop, best, bestFit, history, trace :=
        Advance(s, popSize, gen, pop, best, bestFit, history, pairs, mutants, seeds, draws, trace);
    }
    err := None;
  }

  /** The module-level run; `trace` is the sequence of populations it went
      through. */
  method Run(o: Overrides, seeds: seq<seq<real>>, draws: seq<Draws>)
    returns (r: Result<Outcome, RunError>, ghost trace: seq<seq<Chromosome>>)
    requires InputsFit(Resolve(o), seeds, draws)
    ensures r.Failure? <==>
      Resolve(o).maxGen <= 0 || Resolve(o).popSize <= 0 || (Resolve(o).popSize > 1 && Resolve(o).feeds == [])
    ensures r.Failure? ==>
      r.error == (if Resolve(o).maxGen <= 0 then NoBestChromosome
                  else if Resolve(o).popSize <= 0 then EmptyPopulation
                  else NoFeeds)
    ensures r.Success? ==> OutcomeSound(ModuleSettings(Resolve(o).feeds), Resolve(o).maxGen, r.value)
    ensures r.Success? ==>
      TraceSound(ModuleSettings(Resolve(o).feeds), Nat(Resolve(o).popSize), seeds, draws, trace, r.value.history)
    ensures r.Success? ==> BestOrigin(ModuleSettings(Resolve(o).feeds), trace, r.value.history, r.value.bestChrom)
  {
    var p := Resolve(o);
    var s := ModuleSettings(p.feeds);
    var err, pop, best, bestFit, history;
    err, pop, best, bestFit, history, trace :=
      Generations(s, Nat(p.popSize), Nat(p.maxGen), PairCount(p.crossoverRate, p.popSize),
                  MutantCount(p.mutationRate, p.popSize), seeds, draws);
    if err.Some? {
      return Failure(err.value), trace;
    }
    if best.None? {
      return Failure(NoBestChromosome), trace;
    }
    var bestTotals := DecodeChromosome(best.value, s.feeds);
    r := Success(Outcome(best.value, bestTotals, bestFit, history));
    RecordOrigin(s, Nat(p.popSize), seeds, draws, trace, history);
  }

  /** One pass of the generation loop, extending the trace of populations. */
  method Advance(s: Settings, popSize: nat, gen: nat, pop: seq<Chromosome>,
                 best: Option<Chromosome>, bestFit: real, history: seq<GenDetail>,
                 pairs: nat, mutants: nat, seeds: seq<seq<real>>, draws: seq<Draws>, ghost trace: seq<seq<Chromosome>>)
    returns (pop': seq<Chromosome>, best': Option<Chromosome>, bestFit': real, history': seq<GenDetail>,
             ghost trace': seq<seq<Chromosome>>)
    requires Admissible(s) && popSize > 0 && gen < |draws|
    requires RunState(s, popSize, gen, pop, best, bestFit, history)
    requires TraceSound(s, popSize, seeds, draws, trace, history) && trace[gen] == pop
    requires DrawsFit(|s.feeds|, popSize, pairs, mutants, draws[gen])
    ensures RunState(s, popSize, gen + 1, pop', best', bestFit', history')
    ensures TraceSound(s, popSize, seeds, draws, trace', history') && trace'[gen + 1] == pop'
  {
    pop', best', bestFit', history' := Evolve(s, popSize, gen, pop, best, bestFit, history, pairs, mutants, draws[gen]);
    TraceExtends(s, popSize, seeds, draws, trace, history, gen, pop, pop', history');
    trace' := trace + [pop'];
  }

  /** A generation that records the statistics of the last population of a
      sound trace and breeds its successor extends the trace. */
  lemma TraceExtends(s: Settings, popSize: nat, seeds: seq<seq<real>>, draws: seq<Draws>,
                     trace: seq<seq<Chromosome>>, history: seq<GenDetail>, gen: nat, pop: seq<Chromosome>,
                     next: seq<Chromosome>, history': seq<GenDetail>)
    requires TraceSound(s, popSize, seeds, draws, trace, history) && gen == |history| < |draws| && trace[gen] == pop
    requires |history'| == gen + 1 && history'[..gen] == history
    requires RecordOf(s, pop, history'[gen])
    requires history'[gen].composition ==
      if gen == 0 || history'[gen].bestFitness > history'[gen - 1].bestFitness then GenerationBest(s, pop)
      else history'[gen - 1].composition
    requires Successor(s, pop, draws[gen], popSize, next)
    ensures TraceSound(s, popSize, seeds, draws, trace + [next], history')
  {
    var trace' := trace + [next];
    forall g | 0 <= g < |history'|
      ensures GenerationSound(s, popSize, draws, trace', history', g)
    {
      if g < gen {
        assert GenerationSound(s, popSize, draws, trace, history, g);
        assert history'[g] == history[g];
        assert g > 0 ==> history'[g - 1] == history[g - 1];
        assert trace'[g] == trace[g] && trace'[g + 1] == trace[g + 1];
      } else {
        assert trace'[gen] == pop && trace'[gen + 1] == next;
      }
    }
  }

  /** One line of the formatted composition. */
  datatype Ingredient = Ingredient(
    name: string,
    weight: real,
    price: real,
    prdd: real,
    mp: real,
    totalCost: real,
    totalPrdd: real,
    totalMp: real)

  /** The formatted result. */
  datatype Report = Report(
    composition: seq<Ingredient>,
    totals: Totals,
    requiredPrdd: real,
    requiredMp: real,
    fitness: real)

  function IngredientOf(gene: real, feed: Feed): Ingredient
  {
    Ingredient(feed.name, gene, feed.price, feed.prdd, feed.mp, gene * feed.price, gene * feed.prdd, gene * feed.mp)
  }

  /** One line per pair of `zip(chrom, feeds)`. */
  function Composition(chrom: Chromosome, feeds: seq<Feed>): (lines: seq<Ingredient>)
    ensures |lines| == ZipLength(chrom, feeds)
  {
    seq(ZipLength(chrom, feeds), i requires 0 <= i < ZipLength(chrom, feeds) => IngredientOf(chrom[i], feeds[i]))
  }

  /** The formatted result: the composition over the given feeds (the
      module's feed table when none are given), the totals and fitness as
      passed, and the configured requirements. */
  method FormatResult(chrom: Chromosome, totals: Totals, bestFit: real, feeds: Option<seq<Feed>>) returns (report: Report)
    ensures report == Report(Composition(chrom, OrElse(feeds, Config.FEEDS)), totals,
                             Config.REQUIRED_PRDD, Config.REQUIRED_MP, bestFit)
  {
    var fs := OrElse(feeds, Config.FEEDS);
    var composition: seq<Ingredient> := [];
    for i := 0 to ZipLength(chrom, fs)
      invariant composition == Composition(chrom, fs)[..i]
    {
      composition := composition + [IngredientOf(chrom[i], fs[i])];
    }
    report := Report(composition, totals, Config.REQUIRED_PRDD, Config.REQUIRED_MP, bestFit);
  }

  /** The column sums of a composition. */
  function LineTotals(lines: seq<Ingredient>): Totals
  {
    if lines == [] then ZERO
    else
      var last := lines[|lines| - 1];
      Plus(LineTotals(lines[..|lines| - 1]), Totals(last.totalPrdd, last.totalMp, last.totalCost))
  }

  lemma {:induction false} PrefixLineTotals(chrom: Chromosome, feeds: seq<Feed>, n: nat)
    requires n <= ZipLength(chrom, feeds)
    ensures LineTotals(Composition(chrom, feeds)[..n]) == PrefixTotals(chrom, feeds, n)
  {
    if n > 0 {
      var lines := Composition(chrom, feeds)[..n];
      var last := lines[n - 1];
      var c := Contribution(chrom[n - 1], feeds[n - 1]);
      assert last == IngredientOf(chrom[n - 1], feeds[n - 1]);
      assert Totals(last.totalPrdd, last.totalMp, last.totalCost) == c;
      assert LineTotals(lines[..n - 1]) == PrefixTotals(chrom, feeds, n - 1) by {
        assert lines[..n - 1] == Composition(chrom, feeds)[..n - 1];
        PrefixLineTotals(chrom, feeds, n - 1);
      }
      assert LineTotals(lines) == Plus(LineTotals(lines[..n - 1]), c);
    }
  }

  /** The per-ingredient cost, PRDD and MP columns of a composition add up
      to the decoded totals of the chromosome. */
  lemma CompositionAddsUp(chrom: Chromosome, feeds: seq<Feed>)
    ensures LineTotals(Composition(chrom, feeds)) == Decode(chrom, feeds)
  {
    var lines := Composition(chrom, feeds);
    PrefixLineTotals(chrom, feeds, |lines|);
    assert lines[..|lines|] == lines;
  }
}
