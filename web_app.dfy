/** The `optimize` request handler: fill in the request defaults, run a
    `GeneticOptimizer`, and turn its result into the response tables. */
module WebApp {
  import opened FeedMix
  import Config
  import opened Evaluation
  import opened Selection
  import opened Generation
  import opened GaLogic

  /** The handler's own default feed table; the contract of `Parse` states
      that it coincides with the configuration's. */
  const DEFAULT_FEEDS: seq<Feed> := [
    Feed("Alang-alang", 500.0, 0.04, 0.45),
    Feed("Kacang panjang", 2500.0, 0.16, 0.60),
    Feed("Ampas tahu", 1500.0, 0.20, 0.70),
    Feed("Bungkil kelapa", 3000.0, 0.22, 0.70)
  ]

  /** The fields of the request body; `None` for a missing field. */
  datatype Request = Request(
    feeds: Option<seq<Feed>>,
    requiredPrdd: Option<real>,
    requiredMp: Option<real>,
    popSize: Option<int>,
    maxGen: Option<int>,
    crossoverRate: Option<real>,
    mutationRate: Option<real>)

  /** The request with every default filled in. */
  datatype Params = Params(
    feeds: seq<Feed>,
    requiredPrdd: real,
    requiredMp: real,
    popSize: int,
    maxGen: int,
    crossoverRate: real,
    mutationRate: real)

  /** Fills in the defaults of the handler: they coincide with the values of
      the configuration module, and a field present in the request is taken
      as given. */
  function Parse(req: Request): (p: Params)
    ensures p.feeds == if req.feeds.Some? then req.feeds.value else Config.FEEDS
    ensures p.requiredPrdd == if req.requiredPrdd.Some? then req.requiredPrdd.value else Config.REQUIRED_PRDD
    ensures p.requiredMp == if req.requiredMp.Some? then req.requiredMp.value else Config.REQUIRED_MP
    ensures p.popSize == if req.popSize.Some? then req.popSize.value else Config.POP_SIZE
    ensures p.maxGen == if req.maxGen.Some? then req.maxGen.value else Config.MAX_GEN
    ensures p.crossoverRate == if req.crossoverRate.Some? then req.crossoverRate.value else Config.CROSSOVER_RATE
    ensures p.mutationRate == if req.mutationRate.Some? then req.mutationRate.value else Config.MUTATION_RATE
  {
    Params(
      OrElse(req.feeds, DEFAULT_FEEDS),
      OrElse(req.requiredPrdd, 1.036),
      OrElse(req.requiredMp, 7.5),
      OrElse(req.popSize, 100),
      OrElse(req.maxGen, 200),
      OrElse(req.crossoverRate, 0.3),
      OrElse(req.mutationRate, 0.3))
  }

  /** One line of the best composition; the two percentages are added by
      a second pass. */
  datatype CompositionItem = CompositionItem(
    name: string,
    amount: real,
    price: real,
    cost: real,
    prddContribution: real,
    mpContribution: real,
    weightPercentage: Option<real>,
    costPercentage: Option<real>)

  function ItemOf(amount: real, feed: Feed): CompositionItem
  {
    CompositionItem(feed.name, amount, feed.price, amount * feed.price, amount * feed.prdd, amount * feed.mp, None, None)
  }

  /** `part / total * 100`, or 0 when the total is not positive. */
  function Percentage(part: real, total: real): real
  {
    if total > 0.0 then part / total * 100.0 else 0.0
  }

  /** One line of a top solution's composition. */
  datatype Line = Line(name: string, amount: real, cost: real)

  datatype FormattedTop = FormattedTop(rank: nat, composition: seq<Line>, totals: Totals, fitness: real)

  datatype ResponseTotals = ResponseTotals(prdd: real, mp: real, cost: real, weight: real)

  datatype Response = Response(
    composition: seq<CompositionItem>,
    totals: ResponseTotals,
    fitness: real,
    history: seq<HistoryEntry>,
    topSolutions: seq<FormattedTop>,
    requiredPrdd: real,
    requiredMp: real)

  /** The amount column of a composition. */
  function Amounts(items: seq<CompositionItem>): (amounts: seq<real>)
    ensures |amounts| == |items|
    ensures forall i :: 0 <= i < |items| ==> amounts[i] == items[i].amount
  {
    seq(|items|, i requires 0 <= i < |items| => items[i].amount)
  }

  /** The cost column of a composition. */
  function Costs(items: seq<CompositionItem>): (costs: seq<real>)
    ensures |costs| == |items|
    ensures forall i :: 0 <= i < |items| ==> costs[i] == items[i].cost
  {
    seq(|items|, i requires 0 <= i < |items| => items[i].cost)
  }

  /** The amount column of a top solution's composition. Kept apart from
      `Amounts`, which reads the same column of the best composition's
      items: a top solution's lines are `Line` records, a different type. */
  function LineAmounts(lines: seq<Line>): (amounts: seq<real>)
    ensures |amounts| == |lines|
    ensures forall i :: 0 <= i < |lines| ==> amounts[i] == lines[i].amount
  {
    seq(|lines|, i requires 0 <= i < |lines| => lines[i].amount)
  }

  /** The composition loop: one item per feed, in feed order, with the
      amount taken from the chromosome, while the total weight accumulates
      the amounts. */
  method BuildComposition(feeds: seq<Feed>, chrom: Chromosome) returns (items: array<CompositionItem>, totalWeight: real)
    requires |feeds| <= |chrom|
    ensures fresh(items) && items.Length == |feeds|
    ensures forall i :: 0 <= i < |feeds| ==> items[i] == ItemOf(chrom[i], feeds[i])
    ensures totalWeight == Sum(chrom[..|feeds|])
  {
    items := new CompositionItem[|feeds|];
    totalWeight := 0.0;
    for i := 0 to |feeds|
      invariant forall k :: 0 <= k < i ==> items[k] == ItemOf(chrom[k], feeds[k])
      invariant totalWeight == Sum(chrom[..i])
    {
      var amount := chrom[i];
      assert chrom[..i + 1][..i] == chrom[..i];
      totalWeight := totalWeight + amount;
      items[i] := ItemOf(amount, feeds[i]);
    }
  }

  /** The percentage pass: every item gains its share of the total weight
      and of the total cost, in place. */
  method AddPercentages(items: array<CompositionItem>, totalWeight: real, totalCost: real)
    modifies items
    ensures forall i :: 0 <= i < items.Length ==>
      items[i] == old(items[i]).(weightPercentage := Some(Percentage(old(items[i]).amount, totalWeight)),
                                 costPercentage := Some(Percentage(old(items[i]).cost, totalCost)))
  {
    for i := 0 to items.Length
      invariant forall k :: 0 <= k < i ==>
        items[k] == old(items[k]).(weightPercentage := Some(Percentage(old(items[k]).amount, totalWeight)),
                                   costPercentage := Some(Percentage(old(items[k]).cost, totalCost)))
      invariant forall k :: i <= k < items.Length ==> items[k] == old(items[k])
    {
      var item := items[i];
      items[i] := item.(weightPercentage := Some(Percentage(item.amount, totalWeight)));
      items[i] := items[i].(costPercentage := Some(Percentage(item.cost, totalCost)));
    }
  }

  /** Each part's percentage of a positive total. */
  function Shares(parts: seq<real>, total: real): (shares: seq<real>)
    ensures |shares| == |parts|
  {
    seq(|parts|, i requires 0 <= i < |parts| => Percentage(parts[i], total))
  }

  lemma DivAdd(x: real, y: real, w: real)
    requires w > 0.0
    ensures x / w * 100.0 + y / w * 100.0 == (x + y) / w * 100.0
  {
    assert (x + y) / w == x / w + y / w;
  }

  lemma WholeIsHundred(w: real)
    requires w > 0.0
    ensures w / w * 100.0 == 100.0
  {
    assert w / w == 1.0;
  }

  lemma {:induction false} SharesSum(parts: seq<real>, total: real)
    requires total > 0.0
    ensures Sum(Shares(parts, total)) == Sum(parts) / total * 100.0
  {
    if parts != [] {
      var init, last := parts[..|parts| - 1], parts[|parts| - 1];
      assert Shares(parts, total)[..|parts| - 1] == Shares(init, total);
      assert Sum(Shares(parts, total)) == Sum(Shares(init, total)) + last / total * 100.0;
      assert Sum(Shares(init, total)) == Sum(init) / total * 100.0 by {
        SharesSum(init, total);
      }
      DivAdd(Sum(init), last, total);
      assert Sum(parts) == Sum(init) + last;
    }
  }

  /** The percentages of parts that make up a positive total add up to 100. */
  lemma PercentagesAddUp(parts: seq<real>, total: real)
    requires total == Sum(parts) && total > 0.0
    ensures Sum(Shares(parts, total)) == 100.0
  {
    SharesSum(parts, total);
    WholeIsHundred(total);
  }

  /** The cost column of items whose costs are gene times price sums to
      the decoded cost over those genes. */
  lemma {:induction false} CostColumnIsCost(items: seq<CompositionItem>, feeds: seq<Feed>, chrom: Chromosome)
    requires |items| <= |feeds| && |items| <= |chrom|
    requires forall i :: 0 <= i < |items| ==> items[i].cost == chrom[i] * feeds[i].price
    ensures Sum(Costs(items)) == PrefixTotals(chrom, feeds, |items|).cost
  {
    if items != [] {
      var n := |items|;
      CostColumnIsCost(items[..n - 1], feeds, chrom);
      assert Costs(items)[..n - 1] == Costs(items[..n - 1]);
    }
  }

  /** Each top solution's composition: one line per feed. */
  method SolutionLines(feeds: seq<Feed>, chrom: Chromosome) returns (lines: seq<Line>)
    requires |feeds| <= |chrom|
    ensures |lines| == |feeds|
    ensures forall i :: 0 <= i < |feeds| ==>
      lines[i] == Line(feeds[i].name, chrom[i], chrom[i] * feeds[i].price)
  {
    lines := [];
    for i := 0 to |feeds|
      invariant |lines| == i
      invariant forall k :: 0 <= k < i ==> lines[k] == Line(feeds[k].name, chrom[k], chrom[k] * feeds[k].price)
    {
      lines := lines + [Line(feeds[i].name, chrom[i], chrom[i] * feeds[i].price)];
    }
  }

  /** The top solutions in the optimiser's order, with their ranks, totals
      and fitness, and one composition line per feed. */
  method FormatTopSolutions(feeds: seq<Feed>, top: seq<TopSolution>) returns (formatted: seq<FormattedTop>)
    requires forall k :: 0 <= k < |top| ==> |feeds| <= |top[k].chromosome|
    ensures TopsOf(feeds, top, formatted)
  {
    formatted := [];
    for k := 0 to |top|
      invariant |formatted| == k
      invariant forall j :: 0 <= j < k ==>
        && formatted[j].rank == top[j].rank
        && formatted[j].totals == top[j].totals
        && formatted[j].fitness == top[j].fitness
        && |formatted[j].composition| == |feeds|
        && forall i :: 0 <= i < |feeds| ==>
             formatted[j].composition[i] == Line(feeds[i].name, top[j].chromosome[i], top[j].chromosome[i] * feeds[i].price)
    {
      var sol := top[k];
      var lines := SolutionLines(feeds, sol.chromosome);
      formatted := formatted + [FormattedTop(sol.rank, lines, sol.totals, sol.fitness)];
    }
  }

  /** The history table: one row per optimiser entry, same numbers, same order. */
  method FormatHistory(history: seq<HistoryEntry>) returns (formatted: seq<HistoryEntry>)
    ensures |formatted| == |history|
    ensures forall k :: 0 <= k < |history| ==> formatted[k] == history[k]
  {
    formatted := [];
    for k := 0 to |history|
      invariant formatted == history[..k]
    {
      var h := history[k];
      formatted := formatted + [HistoryEntry(h.generation, h.bestFitness, h.avgFitness, h.bestCost)];
    }
  }

  /** The composition table of a response: one item per feed in feed
      order, with the feed's name and price, an amount within [0, 10], its
      cost, and its shares of the total weight and of the total cost; the
      weight is the sum of the amounts, the cost the sum of the item costs,
      and the PRDD, MP and cost totals are the decoded totals of the
      amounts. */
  predicate CompositionSound(feeds: seq<Feed>, items: seq<CompositionItem>, totals: ResponseTotals)
  {
    && |items| == |feeds|
    && (forall i :: 0 <= i < |items| ==>
          && items[i].name == feeds[i].name
          && items[i].price == feeds[i].price
          && 0.0 <= items[i].amount <= 10.0
          && items[i].cost == items[i].amount * feeds[i].price
          && items[i].weightPercentage == Some(Percentage(items[i].amount, totals.weight))
          && items[i].costPercentage == Some(Percentage(items[i].cost, totals.cost)))
    && totals.weight == Sum(Amounts(items))
    && Totals(totals.prdd, totals.mp, totals.cost) == Decode(Amounts(items), feeds)
    && totals.cost == Sum(Costs(items))
  }

  /** What a successful response promises: a sound composition table
      whose amounts have the response's fitness under the handler's
      settings; the history of a sound run, one entry per generation, whose
      last entry has the response's fitness and no entry a higher one; a
      top-5 list ranked 1..k in
      non-increasing fitness order, each entry one line per feed whose
      amounts have the entry's fitness and totals, led by an entry at least
      as fit as the response; and the requirements echoed from the
      request. */
  predicate ResponseSound(p: Params, resp: Response)
  {
    var s := HandlerSettings(p);
    && CompositionSound(p.feeds, resp.composition, resp.totals)
    && Objective(s, Amounts(resp.composition)) >= 0.0
    && resp.fitness == Fitness(s, Amounts(resp.composition))
    && 0.0 < resp.fitness <= 1.0
    && |resp.history| == p.maxGen > 0
    && GaLogic.HistorySound(resp.history)
    && resp.fitness == resp.history[p.maxGen - 1].bestFitness
    && (forall k :: 0 <= k < p.maxGen ==> resp.history[k].bestFitness <= resp.fitness)
    && TopListSound(p, resp.topSolutions, resp.fitness)
    && resp.requiredPrdd == p.requiredPrdd && resp.requiredMp == p.requiredMp
  }

  /** A response's top-5 list: min(5, pop_size) sound entries in
      non-increasing fitness order, led by one at least as fit as `fitness`. */
  predicate TopListSound(p: Params, tops: seq<FormattedTop>, fitness: real)
  {
    && |tops| == Min(5, p.popSize) > 0
    && (forall k :: 0 <= k < |tops| ==> TopEntrySound(p, k, tops[k]))
    && (forall k, j :: 0 <= k < j < |tops| ==> tops[k].fitness >= tops[j].fitness)
    && tops[0].fitness >= fitness
  }

  /** The entry at index `k` of a response's top-5 list: rank `k + 1`, one
      line per feed with the feed's name and the amount's cost, and the
      fitness and totals of its amounts under the handler's settings. */
  predicate TopEntrySound(p: Params, k: nat, t: FormattedTop)
  {
    var s := HandlerSettings(p);
    && t.rank == k + 1
    && |t.composition| == |p.feeds|
    && (forall i :: 0 <= i < |p.feeds| ==>
          t.composition[i].name == p.feeds[i].name
          && t.composition[i].cost == t.composition[i].amount * p.feeds[i].price)
    && Objective(s, LineAmounts(t.composition)) >= 0.0
    && t.fitness == Fitness(s, LineAmounts(t.composition))
    && t.totals == Decode(LineAmounts(t.composition), p.feeds)
  }

  /** The weight percentages and, when the best cost is positive, the cost
      percentages of a sound response each add up to 100. */
  lemma ResponsePercentages(p: Params, resp: Response)
    requires ResponseSound(p, resp)
    ensures resp.totals.weight > 0.0 ==> Sum(Shares(Amounts(resp.composition), resp.totals.weight)) == 100.0
    ensures resp.totals.cost > 0.0 ==> Sum(Shares(Costs(resp.composition), resp.totals.cost)) == 100.0
  {
    if resp.totals.weight > 0.0 {
      PercentagesAddUp(Amounts(resp.composition), resp.totals.weight);
    }
    if resp.totals.cost > 0.0 {
      PercentagesAddUp(Costs(resp.composition), resp.totals.cost);
    }
  }

  /** The handler. The random draws of the run are parameters; `trace` is
      the sequence of populations the run went through and `tops` the top-5
      list of its final population, before formatting. */
  method Optimize(req: Request, seeds: seq<seq<real>>, draws: seq<Draws>)
    returns (r: Result<Response, RunError>, ghost trace: seq<seq<Chromosome>>, ghost tops: seq<TopSolution>)
    requires var p := Parse(req);
      && NonNegativePrices(p.feeds)
      && |seeds| == Nat(p.popSize) && SeedsFit(|p.feeds|, seeds)
      && |draws| == Nat(p.maxGen)
      && forall g :: 0 <= g < |draws| ==>
           DrawsFit(|p.feeds|, Nat(p.popSize), PairCount(p.crossoverRate, p.popSize),
                    MutantCount(p.mutationRate, p.popSize), draws[g])
    ensures r.Failure? <==> Parse(req).maxGen <= 0 || Parse(req).popSize <= 0
    ensures r.Failure? ==> r.error == if Parse(req).maxGen <= 0 then NoBestChromosome else EmptyPopulation
    ensures r.Success? ==> ResponseSound(Parse(req), r.value)
    ensures r.Success? ==>
      && GaLogic.TraceSound(HandlerSettings(Parse(req)), Nat(Parse(req).popSize), seeds, draws, trace, r.value.history)
      && |trace| == Parse(req).maxGen + 1
      && Scorable(HandlerSettings(Parse(req)), trace[Parse(req).maxGen])
      && IsTopList(HandlerSettings(Parse(req)), trace[Parse(req).maxGen], tops)
      && (forall k :: 0 <= k < |tops| ==> |tops[k].chromosome| == |Parse(req).feeds|)
      && TopsOf(Parse(req).feeds, tops, r.value.topSolutions)
    ensures r.Success? ==>
      GaLogic.BestOrigin(HandlerSettings(Parse(req)), trace, r.value.history, Amounts(r.value.composition))
  {
    var p := Parse(req);
    var optimizer := new GeneticOptimizer(p.feeds, p.requiredPrdd, p.requiredMp, p.popSize, p.maxGen,
                                          p.crossoverRate, p.mutationRate);
    var run;
    run, trace := optimizer.Run(seeds, draws);
    if run.Failure? {
      return Failure(run.error), trace, [];
    }
    tops := run.value.topSolutions;
    ghost var s := HandlerSettings(p);
    assert optimizer.OptimizerSettings() == s;
    assert TraceSound(s, Nat(p.popSize), seeds, draws, trace, run.value.history);
    assert IsTopList(s, trace[p.maxGen], tops);
    assert forall k :: 0 <= k < |tops| ==> |tops[k].chromosome| == |p.feeds|;
    var response := Respond(p, run.value);
    r := Success(response);
  }

  /** The settings of the optimiser the handler constructs: its requirements,
      the 1e6 coefficient and the default gene bounds [0, 10]. */
  function HandlerSettings(p: Params): Settings
  {
    Settings(p.feeds, p.requiredPrdd, p.requiredMp, 1000000.0, 0.0, 10.0, p.mutationRate)
  }

  /** The composition items of a chromosome over the feeds, percentages
      included, as the two passes leave them. */
  predicate ItemsOf(feeds: seq<Feed>, chrom: Chromosome, totalWeight: real, totalCost: real, items: seq<CompositionItem>)
  {
    && |items| == |feeds| <= |chrom|
    && forall i :: 0 <= i < |items| ==>
         && items[i].name == feeds[i].name
         && items[i].amount == chrom[i]
         && items[i].price == feeds[i].price
         && items[i].cost == chrom[i] * feeds[i].price
         && items[i].prddContribution == chrom[i] * feeds[i].prdd
         && items[i].mpContribution == chrom[i] * feeds[i].mp
         && items[i].weightPercentage == Some(Percentage(items[i].amount, totalWeight))
         && items[i].costPercentage == Some(Percentage(items[i].cost, totalCost))
  }

  /** The formatted top list of a run's top list: same ranks, totals and
      fitness, and one line per feed with the entry's amount and its cost. */
  predicate TopsOf(feeds: seq<Feed>, top: seq<TopSolution>, formatted: seq<FormattedTop>)
    requires forall k :: 0 <= k < |top| ==> |feeds| <= |top[k].chromosome|
  {
    && |formatted| == |top|
    && forall k :: 0 <= k < |top| ==>
         && formatted[k].rank == top[k].rank
         && formatted[k].totals == top[k].totals
         && formatted[k].fitness == top[k].fitness
         && |formatted[k].composition| == |feeds|
         && forall i :: 0 <= i < |feeds| ==>
              formatted[k].composition[i] == Line(feeds[i].name, top[k].chromosome[i], top[k].chromosome[i] * feeds[i].price)
  }

  /** A formatted entry of a sound top-list entry is sound: its line
      amounts are the entry's chromosome. */
  lemma FormattedEntrySound(p: Params, k: nat, e: TopSolution, f: FormattedTop)
    requires var s := HandlerSettings(p);
      && e.rank == k + 1 && InRange(s, e.chromosome)
      && Objective(s, e.chromosome) >= 0.0
      && e.fitness == Fitness(s, e.chromosome)
      && e.totals == Decode(e.chromosome, s.feeds)
    requires f.rank == e.rank && f.totals == e.totals && f.fitness == e.fitness
    requires |f.composition| == |p.feeds|
    requires forall i :: 0 <= i < |p.feeds| ==>
      f.composition[i] == Line(p.feeds[i].name, e.chromosome[i], e.chromosome[i] * p.feeds[i].price)
    ensures TopEntrySound(p, k, f)
  {
    assert LineAmounts(f.composition) == e.chromosome;
  }

  /** The items the two passes build from an in-range chromosome, with
      its decoded totals, make a sound composition table. */
  lemma CompositionFromChromosome(feeds: seq<Feed>, chrom: Chromosome, totals: Totals, totalWeight: real,
                                  items: seq<CompositionItem>)
    requires |chrom| == |feeds| && forall i :: 0 <= i < |chrom| ==> 0.0 <= chrom[i] <= 10.0
    requires totals == Decode(chrom, feeds)
    requires ItemsOf(feeds, chrom, totalWeight, totals.cost, items)
    requires totalWeight == Sum(chrom[..|feeds|])
    ensures CompositionSound(feeds, items, ResponseTotals(totals.prdd, totals.mp, totals.cost, totalWeight))
  {
    var rt := ResponseTotals(totals.prdd, totals.mp, totals.cost, totalWeight);
    assert Amounts(items) == chrom;
    assert rt.weight == Sum(Amounts(items)) by {
      assert chrom[..|feeds|] == chrom;
    }
    assert rt.cost == Sum(Costs(items)) by {
      CostColumnIsCost(items, feeds, chrom);
    }
  }

  /** The formatted top list of a sound run's top list is sound. */
  lemma FormattedTops(p: Params, result: RunResult, formatted: seq<FormattedTop>)
    requires ResultSound(HandlerSettings(p), p.maxGen, p.popSize, result)
    requires TopsOf(p.feeds, result.topSolutions, formatted)
    ensures TopListSound(p, formatted, result.bestFit)
  {
    var top := result.topSolutions;
    forall k | 0 <= k < |formatted|
      ensures TopEntrySound(p, k, formatted[k])
    {
      FormattedEntrySound(p, k, top[k], formatted[k]);
    }
    assert formatted[0].fitness == top[0].fitness;
    forall k, j | 0 <= k < j < |formatted|
      ensures formatted[k].fitness >= formatted[j].fitness
    {
      assert formatted[k].fitness == top[k].fitness && formatted[j].fitness == top[j].fitness;
    }
  }

  /** The parts the handler builds from a sound run make a sound response,
      whose amounts are the run's best chromosome. */
  lemma Assemble(p: Params, result: RunResult, composition: seq<CompositionItem>, totalWeight: real,
                 formatted: seq<FormattedTop>)
    requires ResultSound(HandlerSettings(p), p.maxGen, p.popSize, result)
    requires ItemsOf(p.feeds, result.bestChrom, totalWeight, result.totals.cost, composition)
    requires totalWeight == Sum(result.bestChrom[..|p.feeds|])
    requires TopsOf(p.feeds, result.topSolutions, formatted)
    ensures Amounts(composition) == result.bestChrom
    ensures totalWeight == Sum(result.bestChrom)
    ensures ResponseSound(p, Response(
      composition,
      ResponseTotals(result.totals.prdd, result.totals.mp, result.totals.cost, totalWeight),
      result.bestFit, result.history, formatted, p.requiredPrdd, p.requiredMp))
  {
    CompositionFromChromosome(p.feeds, result.bestChrom, result.totals, totalWeight, composition);
    assert Amounts(composition) == result.bestChrom;
    assert result.bestChrom[..|p.feeds|] == result.bestChrom;
    FormattedTops(p, result, formatted);
  }

  /** The composition table of a chromosome: the item pass, then the
      percentage pass against the total weight and the given total cost. */
  method CompositionTable(feeds: seq<Feed>, chrom: Chromosome, totalCost: real)
    returns (composition: seq<CompositionItem>, totalWeight: real)
    requires |feeds| <= |chrom|
    ensures ItemsOf(feeds, chrom, totalWeight, totalCost, composition)
    ensures totalWeight == Sum(chrom[..|feeds|])
  {
    var items;
    items, totalWeight := BuildComposition(feeds, chrom);
    AddPercentages(items, totalWeight, totalCost);
    composition := items[..];
  }

  /** The response built from a run: the composition table of the run's
      best chromosome with the run's totals, and the run's fitness, history
      and top list, formatted. */
  method Respond(p: Params, result: RunResult) returns (response: Response)
    requires ResultSound(HandlerSettings(p), p.maxGen, p.popSize, result)
    ensures ResponseSound(p, response)
    ensures Amounts(response.composition) == result.bestChrom
    ensures response.totals ==
      ResponseTotals(result.totals.prdd, result.totals.mp, result.totals.cost, Sum(result.bestChrom))
    ensures response.fitness == result.bestFit
    ensures response.history == result.history
    ensures TopsOf(p.feeds, result.topSolutions, response.topSolutions)
  {
    var composition, totalWeight := CompositionTable(p.feeds, result.bestChrom, result.totals.cost);
    var top := FormatTopSolutions(p.feeds, result.topSolutions);
    var history := FormatHistory(result.history);
    assert history == result.history;
    Assemble(p, result, composition, totalWeight, top);
    response := Response(
      composition,
      ResponseTotals(result.totals.prdd, result.totals.mp, result.totals.cost, totalWeight),
      result.bestFit,
      history,
      top,
      p.requiredPrdd,
      p.requiredMp);
  }
}
