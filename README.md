# Least-cost cattle-feed mix by genetic algorithm — Dafny model

The system looks for the cheapest daily feed mix for one dairy cow. A mix
is a chromosome: one weight in kilograms for each feed. Each weight lies
between `GEN_MIN` (0) and `GEN_MAX` (10). The mix must supply at least the
required PRDD (protein, 1.036 kg) and MP (7.5 kg).

Evaluating a mix:
- Its **objective** is its cost plus 10^6 times the total nutrient
  shortfall.
- Its **fitness** is `1 / (1 + objective)`.

A generation of the algorithm does this:
- It evaluates the population and records statistics.
- It breeds offspring. Extended intermediate crossover produces pairs of
  children; mutation produces single mutants.
- It keeps the fittest `pop_size` members of parents and offspring
  together.

There are two variants of the engine:
- `genetic_algorithm.py` has module-level functions reading the
  configuration module.
- `web/ga_logic.py` has a `GeneticOptimizer` class holding its own
  parameters.

The `optimize` handler of `web/app.py` fills in the request defaults, runs
a `GeneticOptimizer`, and formats the result.

Modules of the model:

- `FeedMix` holds the data model shared by both variants: feeds,
  chromosomes, nutrient totals, `Settings` and the range predicates.
- `Config` holds the configuration constants.
- `Evaluation` holds decoding, the penalised objective and fitness.
- `Operators` holds uniform gene draws, crossover and mutation.
- `Selection` holds:
  - fitness scoring;
  - the stable descending sort that Python's `list.sort(reverse=True)`
    performs;
  - truncation selection;
  - first-maximum search;
  - minimum and mean.
- `Generation` holds:
  - the offspring counts;
  - breeding from explicit random draws;
  - one selection step;
  - the initial population;
  - the per-generation statistics.
- `GeneticAlgorithm` models `genetic_algorithm(...)` and `format_result`.
- `GaLogic` models the class `GeneticOptimizer`, with its top-5 list.
- `WebApp` models the `optimize` handler.

How the source's behaviour is represented:

- **Randomness is an input.**
  - `random.uniform(a, b)` is written `a + (b - a) * u` for a unit draw
    `u`.
  - A crossover is a `Pairing`: two parent indices and `alpha`.
  - A mutation is a `MutationDraw`: a parent index, one coin per gene
    (`random.random()`) and one offset per gene in [-0.1, 0.1].
  - The draws of a generation are one `Draws` value.
- **Errors are results.**
  - A run returns `Failure(NoBestChromosome)` when `max_gen <= 0`, because
    decoding `None` raises.
  - It returns `Failure(EmptyPopulation)` when `pop_size <= 0` and
    `max_gen > 0`, because `max` over an empty range raises.
  - The module-level run also returns `Failure(NoFeeds)` when `max_gen > 0`,
    `pop_size > 1` and the feed table is empty, because the gene diversity
    is divided by `len(FEEDS)`.
  - Both generation-0 failures depend only on the parameters and happen
    before anything is recorded, so the model checks them once before the
    generation loop.
- **A run's populations are a ghost output.** Each run also returns the
  sequence of populations it went through. Its contract ties every history
  record to the population evaluated in that generation (best, mean and
  worst fitness) and each population to the survivors of its predecessor
  and that generation's offspring. It also says which chromosome the
  returned best is: the first fittest member of the population of the
  first generation that reached the final best fitness. The best is only
  replaced on a strict improvement (`gen_best_fit > best_fit`), so later
  generations that merely tie keep it.
- **Python's own semantics are written out.**
  - `int()` of a float truncates toward zero.
  - `max(range(n), key=...)` returns the first index of the maximum.
  - `range` of a negative number is empty.
  - The sort is stable and descending.
  - `best_fit = -inf` becomes an `Option` holding the best chromosome.
- **`genetic_algorithm.py` is modelled as written:**
  - Its objective reads the configuration's `REQUIRED_PRDD` and
    `REQUIRED_MP`, so the `required_prdd` and `required_mp` arguments
    change nothing.
  - `mutate` draws its per-gene coin against the configuration's
    `MUTATION_RATE`. The `mutation_rate` argument only sets the number of
    mutants.
  - `format_result` reports the configuration's requirements.
  - The feed table is passed explicitly instead of being swapped into the
    module-level `FEEDS` variable.
- **`GeneticOptimizer.run` is modelled as written:**
  - A history entry's `best_cost` is the objective (penalty included) of
    that generation's fittest member.
  - The top-5 list is the first five of the final population sorted by
    fitness, with no de-duplication.
  - The best-ever chromosome returned as `best_chrom` can be less fit than
    the head of that list, never fitter.
- **The key invariant is elitism.** Selection keeps the best parent, so the
  population's head is at least as fit as everything seen so far. It
  follows that:
  - each run's history has non-decreasing best fitness;
  - the returned best is the last record;
  - the top-5 head is at least as fit as the returned best.

## Model

| member | source | states |
|---|---|---|
| Evaluation.DecodeChromosome | genetic_algorithm.py:16-39 | The accumulating loop computes exactly `Decode`: the sums of gene times PRDD, MP and price over the zipped genes and feeds |
| Evaluation.DecodeTruncates | genetic_algorithm.py:30 | Decoding reads only the zipped prefix; extra genes or extra feeds are ignored |
| Evaluation.PrefixTotalsOnlyReadsPrefix | genetic_algorithm.py:30-33 | The running totals after n genes depend only on the first n genes and feeds |
| Evaluation.DecodeScales | genetic_algorithm.py:16-39 | Decoding is homogeneous: scaling every gene by k scales PRDD, MP and cost by k |
| Evaluation.PrefixTotalsScale | genetic_algorithm.py:30-33 | Homogeneity of the running totals, by induction on the prefix |
| Evaluation.DecodeAdds | genetic_algorithm.py:16-39 | Decoding is additive: the totals of a gene-wise sum are the sums of the totals |
| Evaluation.PrefixTotalsAdd | genetic_algorithm.py:30-33 | Additivity of the running totals, by induction on the prefix |
| Evaluation.CostNonNegative | genetic_algorithm.py:33 | Non-negative genes and prices give a non-negative cost |
| Evaluation.PrefixCostNonNegative | genetic_algorithm.py:33 | The running cost stays non-negative, by induction |
| Evaluation.Deficit | genetic_algorithm.py:57-58 | `max(0, required - actual)` is non-negative, zero exactly when the requirement is met, and otherwise closes the gap |
| Evaluation.Penalised | genetic_algorithm.py:57-64 | The objective is cost plus coefficient times total deficit; it equals the cost for a feasible mix; it is never below the cost; with a positive coefficient it equals the cost exactly when both requirements are met |
| Evaluation.ObjectiveNonNegative | genetic_algorithm.py:42-64 | For in-range genes and non-negative prices the objective is at least the cost, which is at least 0 |
| Evaluation.FitnessOf | genetic_algorithm.py:78-79 | `1 / (1 + obj)` lies in (0, 1] for a non-negative objective, and is 1 exactly for a zero objective |
| Evaluation.FitnessBounds | genetic_algorithm.py:67-79 | Every in-range chromosome has fitness in (0, 1] |
| Evaluation.FitnessDecreasing | genetic_algorithm.py:79 | A strictly smaller non-negative objective gives a strictly larger fitness |
| Evaluation.FitnessReversesObjective | genetic_algorithm.py:79 | On non-negative objectives, fitness order is the reverse of objective order, and equal fitness means equal objective (both directions) |
| Evaluation.FeasibleFitness | genetic_algorithm.py:61-64 | A mix meeting both requirements has objective equal to its cost and fitness `1 / (1 + cost)` |
| Evaluation.AllObjectivesNonNegative | genetic_algorithm.py:194 | Every member of an in-range population has a non-negative objective, so evaluating it never divides by zero |
| Operators.Uniform | genetic_algorithm.py:82-84 | `random.uniform(a, b)` from a unit draw lies in [a, b] |
| Operators.RandomChromosome | genetic_algorithm.py:87-89 | A random chromosome has one gene per feed, each within [GEN_MIN, GEN_MAX] |
| Operators.Blend | genetic_algorithm.py:110-122 | A child has one gene per zipped parent pair, each clamped into [lo, hi] |
| Operators.Crossover | genetic_algorithm.py:97-122 | The two-list loop builds exactly `Blend(p1, p2)` and `Blend(p2, p1)` |
| Operators.BlendGeneBetween | genetic_algorithm.py:113-117 | For in-range parents and alpha in [0, 1], each child gene lies between its parents' genes, and the two children's genes sum to the parents' |
| Operators.BlendIsIntermediate | genetic_algorithm.py:112-120 | The intermediate and conserved-sum properties hold gene by gene for whole chromosomes |
| Operators.BlendEndpoints | genetic_algorithm.py:113-114 | With alpha 0 the children are copies of the parents; with alpha 1 they are swapped |
| Operators.Mutant | genetic_algorithm.py:135-141 | Mutation preserves the length |
| Operators.Mutate | genetic_algorithm.py:125-141 | The in-place loop over a copied array yields exactly `Mutant` |
| Operators.MutantProperties | genetic_algorithm.py:137-140 | A gene whose coin is at least the rate is unchanged; a mutated gene lies in [lo, hi]; an in-range chromosome stays in range |
| Operators.MutantStepBound | genetic_algorithm.py:138-140 | No gene moves by more than a tenth of the gene range |
| Operators.MutateGeneStep | genetic_algorithm.py:137-140 | The one-gene step bound, mutated or not |
| Selection.InRangeScorable | genetic_algorithm.py:194 | In an in-range population under admissible settings, every fitness is defined and in (0, 1] |
| Selection.Fits | genetic_algorithm.py:194 | The fitness list is pointwise the fitness of each member |
| Selection.Scores | genetic_algorithm.py:263 | The (member, fitness) pairs are pointwise those of the combined list |
| Selection.InsertDesc | genetic_algorithm.py:264 | Stable insertion adds exactly one element (multiset) |
| Selection.InsertDescSorted | genetic_algorithm.py:264 | Insertion into a non-increasing list keeps it non-increasing |
| Selection.SortDesc | genetic_algorithm.py:264 | `sort(key=fitness, reverse=True)` returns a non-increasing permutation of its input |
| Selection.SortDescOfSorted | genetic_algorithm.py:264 | Sorting an already sorted list leaves it unchanged |
| Selection.InsertDescStable | genetic_algorithm.py:264 | Insertion puts the new entry ahead of every entry of equal fitness and keeps the order of those entries |
| Selection.SortDescStable | genetic_algorithm.py:264 | The sort is stable: for every fitness value, the entries with that fitness appear in the output in their input order |
| Selection.SurvivorsSpec | genetic_algorithm.py:262-266 | The survivors are the first `min(n, len(combined))` of the ranking. Each comes from the combined list, in non-increasing fitness. The head is the fittest of all. Anything fitter than the last survivor survives |
| Selection.SurvivorDominates | genetic_algorithm.py:262-266 | A single member of the combined list is no fitter than the first survivor, and survives when it is fitter than the last |
| Selection.SurvivorsInRange | genetic_algorithm.py:262-266 | From an in-range combined list with at least n members: exactly n in-range survivors, sorted, with the head dominating the combined list |
| Selection.FirstArgMax | genetic_algorithm.py:195 | `max(range(n), key=...)` returns an index of a maximum, and the first such index |
| Selection.MinOf | genetic_algorithm.py:201 | `min` returns a member no greater than any member |
| Selection.MeanWithin | genetic_algorithm.py:200 | The mean of values bounded by [lo, hi] is in [lo, hi] |
| Selection.MeanBetweenExtremes | genetic_algorithm.py:200-201 | `min(fits) <= sum(fits) / len(fits) <= max(fits)` |
| Selection.SumBounds | genetic_algorithm.py:200 | n values in [lo, hi] sum to between n·lo and n·hi |
| Generation.Trunc | genetic_algorithm.py:243 | `int()` of a float truncates toward zero |
| Generation.PairCount | genetic_algorithm.py:243-247 | The number of crossover pairs is half the truncated count rounded up to even: 0 for a non-positive count, otherwise `n <= 2·pairs <= n + 1` |
| Generation.MutantCount | genetic_algorithm.py:255-256 | The number of mutants is the truncated `rate · pop_size`, or 0 when that is negative |
| Generation.Children | genetic_algorithm.py:247-252 | Each pairing contributes two children |
| Generation.Offspring | genetic_algorithm.py:240-259 | The offspring are the crossover children then the mutants, `2·pairs + mutants` of them |
| Generation.Breed | genetic_algorithm.py:240-259 | The two appending loops build exactly `Offspring` |
| Generation.ChildrenInRange | genetic_algorithm.py:247-252 | Children of in-range parents are in range, by induction on the pairings |
| Generation.OffspringInRange | genetic_algorithm.py:240-259 | All offspring of an in-range population are in range |
| Generation.DrawsFitPopulation | genetic_algorithm.py:248-249 | Draws shaped for a population of this size pick valid parents |
| Generation.NextPopulation | genetic_algorithm.py:240-266 | One breeding and selection step gives exactly the survivors of parents plus offspring. They number `pop_size`, are in range and are sorted, and the head is at least as fit as every parent (elitism) |
| Generation.SelectionKeepsBest | genetic_algorithm.py:262-266 | Elitism of truncation selection over parents plus any in-range offspring |
| Generation.InitialPopulation | genetic_algorithm.py:186 | The initial population has one chromosome per seed, all in range |
| Generation.Statistics | genetic_algorithm.py:194-201 | The index is the first fittest member, the average is `sum(fits) / len(fits)`, and `0 < worst <= average <= best <= 1` |
| Generation.GenerationBest | genetic_algorithm.py:195-196 | The member `max(range(len(pop)), key=...)` picks is a member of the population, with a defined objective, at least as fit as every member |
| GeneticAlgorithm.Resolve | genetic_algorithm.py:174-181 | Each run parameter is the keyword argument when it is given, and otherwise the configuration's value |
| GeneticAlgorithm.ModuleSettings | genetic_algorithm.py:42-64 | Evaluation uses the given feed table with the configuration's requirements and mutation rate; non-negative prices make it admissible |
| GeneticAlgorithm.HistoryExtends | genetic_algorithm.py:222-233 | Appending a consistent record whose best fitness is not lower keeps the history sound |
| GeneticAlgorithm.Evolve | genetic_algorithm.py:193-266 | One pass of the generation loop keeps the run invariant. The population keeps its size and stays in range. One sound record is appended and the earlier records are unchanged. The new record holds the best fitness, the mean `sum(fits) / len(fits)` and `min(fits)` of the evaluated population. The best is replaced by the first fittest member exactly when there was none or that member is strictly fitter (`gen_best_fit > best_fit`), and is otherwise kept. The new record's composition is that best. The new population is the survivors of parents plus offspring, and its head is at least as fit as the best |
| GeneticAlgorithm.TraceExtends | genetic_algorithm.py:193-266 | A generation that records the last population's statistics, keeps the best so far, and breeds its successor extends a sound trace of populations |
| GeneticAlgorithm.TraceKeepsBest | genetic_algorithm.py:214-230 | In a sound trace every record's composition is the best so far: the generation's first fittest member when strictly fitter than the previous record, otherwise the previous composition |
| GeneticAlgorithm.FirstKept | genetic_algorithm.py:214-230 | By induction: when each composition is replaced by its generation's candidate only on a strict improvement, and best fitness never decreases, the last composition is the candidate of the first record that reached the final best fitness |
| GeneticAlgorithm.RecordOrigin | genetic_algorithm.py:192-230 | The last record's composition is the first fittest member of the population of the first generation whose best fitness equals the final one |
| GeneticAlgorithm.Advance | genetic_algorithm.py:193-266 | One pass of the loop keeps both the run invariant and the trace of populations |
| GeneticAlgorithm.Generations | genetic_algorithm.py:186-266 | The loop fails in generation 0 exactly when the population is empty (`EmptyPopulation`), or has more than one member while the feed table is empty (`NoFeeds`). Otherwise it runs every generation, keeps the run invariant, and its trace starts at the initial population |
| GeneticAlgorithm.Run | genetic_algorithm.py:144-273 | It fails exactly when `max_gen <= 0` (`NoBestChromosome`), or `pop_size <= 0` (`EmptyPopulation`), or `pop_size > 1` with an empty feed table (`NoFeeds`), checked in that order. Otherwise:<br>- It returns one record per generation, numbered from 0.<br>- Record g holds the best fitness, `sum(fits) / len(fits)` and `min(fits)` of population g of the trace. Population 0 is the initial population, and population g + 1 is the survivors of population g plus its offspring.<br>- Each record has the decoded totals of its composition.<br>- The best fitness never decreases.<br>- The returned best is the last record and is at least as fit as every record.<br>- The returned best is the first fittest member of the population of the first generation that reached the final best fitness. |
| GeneticAlgorithm.Composition | genetic_algorithm.py:293-303 | One ingredient line per zipped gene and feed |
| GeneticAlgorithm.FormatResult | genetic_algorithm.py:277-317 | The loop builds the composition lines, the given totals and fitness, and the configuration's requirements |
| GeneticAlgorithm.CompositionAddsUp | genetic_algorithm.py:293-310 | The line totals of the composition add up to the decoded PRDD, MP and cost |
| GeneticAlgorithm.PrefixLineTotals | genetic_algorithm.py:293-303 | The prefix form of the adding-up property, by induction |
| GaLogic.HistoryExtends | web/ga_logic.py:110-116 | Appending a consistent entry (generation k + 1, best fitness the fitness of the recorded non-negative cost, mean in (0, best]) with no lower best keeps the history sound |
| GaLogic.TopListEntries | web/ga_logic.py:143-160 | The top list has `min(5, len(pop))` entries ranked 1, 2, …. Each entry is a member of the population, in range, with its own fitness, decoded totals and objective, in non-increasing fitness order |
| GaLogic.TopListDominates | web/ga_logic.py:143-160 | The first entry is at least as fit as the whole population, and any member fitter than the last entry is listed |
| GaLogic.LastIsBest | web/ga_logic.py:105-116 | In a sound history the last entry has the highest best fitness |
| GaLogic.FinalResult | web/ga_logic.py:143-169 | After the last generation, the history, the best chromosome with its decoded totals, and the top list of the final population make a sound result. Each top entry is in range and carries its own chromosome's fitness, decoded totals and objective |
| GaLogic.TraceExtends | web/ga_logic.py:96-141 | A generation that records the last population's statistics and breeds its successor extends a sound trace of populations |
| GaLogic.BestOriginExtends | web/ga_logic.py:100-107 | One more generation keeps the best's origin: the best comes from the new generation exactly when it was replaced (generation 0, or a strictly fitter first fittest member), and otherwise it still comes from the first generation that reached the best fitness |
| GaLogic.OriginReplaced | web/ga_logic.py:105-107 | A generation whose best fitness is strictly above the previous one's is the first to reach it |
| GaLogic.OriginKept | web/ga_logic.py:105-107 | A generation whose best fitness equals the previous one's leaves the first generation to reach it unchanged |
| GaLogic.GeneticOptimizer.constructor | web/ga_logic.py:5-15 | The fields hold the arguments, with defaults 100, 200, 0.3, 0.3, 0.0 and 10.0 and a penalty coefficient of 10^6 |
| GaLogic.GeneticOptimizer.DecodeChromosome | web/ga_logic.py:17-31 | The totals are `Decode` over the optimizer's feeds |
| GaLogic.GeneticOptimizer.ObjectiveFunction | web/ga_logic.py:33-46 | The objective equals the cost exactly when both of the optimizer's requirements are met; otherwise it is cost plus 10^6 times the deficit |
| GaLogic.GeneticOptimizer.Fitness | web/ga_logic.py:48-50 | The fitness is in (0, 1] for a non-negative objective, and 1 exactly when the objective is 0 |
| GaLogic.GeneticOptimizer.RandomChromosome | web/ga_logic.py:52-56 | One gene per feed, each within the optimizer's [gen_min, gen_max] |
| GaLogic.GeneticOptimizer.ExtendedIntermediateCrossover | web/ga_logic.py:61-76 | The children are the two clamped blends with the optimizer's bounds |
| GaLogic.GeneticOptimizer.Mutate | web/ga_logic.py:78-85 | The mutant uses the optimizer's own mutation rate and bounds |
| GaLogic.GeneticOptimizer.TopSolutions | web/ga_logic.py:143-160 | The list is the first `min(5, len(pop))` of the stably fitness-sorted final population, with rank, fitness, totals and objective |
| GaLogic.GeneticOptimizer.Evolve | web/ga_logic.py:96-141 | One pass of the generation loop keeps the run invariant. The population keeps its size and stays in range. One sound entry numbered gen + 1 is appended and earlier entries are unchanged. The entry holds the best fitness, the mean `sum(fits) / len(fits)`, and the objective of the first fittest member of the evaluated population. The best is replaced by the first fittest member exactly when there was none or that member is strictly fitter (`gen_best_fit > best_fit`), and is otherwise kept; it is in range with the last entry's fitness. The new population is the survivors of parents plus offspring, and its head is at least as fit as the best |
| GaLogic.GeneticOptimizer.Advance | web/ga_logic.py:96-141 | One pass of the loop keeps the run invariant, the trace of populations and the origin of the best |
| GaLogic.GeneticOptimizer.Generations | web/ga_logic.py:87-141 | From the initial population, every generation runs. The run invariant and the trace hold at the end, and once a generation has run the best is the first fittest member of the first generation that reached the final best fitness |
| GaLogic.GeneticOptimizer.Run | web/ga_logic.py:87-169 | It fails exactly when `max_gen <= 0` or `pop_size <= 0`, with the matching error. Otherwise:<br>- There is one history entry per generation, numbered from 1, and best fitness never decreases.<br>- Entry g holds the best fitness, the mean and the best objective of population g of the trace. Population 0 is the initial population, and population g + 1 is the survivors of population g plus its offspring.<br>- The returned best is in range, has the last entry's fitness and its own decoded totals.<br>- The top list is the top-5 list of the final population. It is ranked and sorted, each entry carries its chromosome's fitness, totals and objective, and its head is at least as fit as the returned best.<br>- The returned best is the first fittest member of the population of the first generation that reached the final best fitness. |
| WebApp.Parse | web/app.py:19-30 | A missing request field takes the handler's default, and those defaults coincide with the configuration's; a present field is used as given |
| WebApp.BuildComposition | web/app.py:45-57 | One item per feed with amount, price, cost and contributions, and the total weight is the sum of the amounts |
| WebApp.AddPercentages | web/app.py:60-62 | Each item gains its share of the total weight and of the total cost, 0 when the total is not positive; nothing else changes |
| WebApp.PercentagesAddUp | web/app.py:61-62 | Percentages of parts over their positive sum add up to 100 |
| WebApp.SharesSum | web/app.py:61-62 | The sum of shares is the sum of the parts over the total, times 100 |
| WebApp.CostColumnIsCost | web/app.py:54 | The item costs add up to the decoded cost of the mix |
| WebApp.SolutionLines | web/app.py:67-74 | One line per feed with name, amount and cost |
| WebApp.FormatTopSolutions | web/app.py:65-85 | Each top solution keeps its rank, totals and fitness and gets one line per feed, holding the feed's name, the entry's amount and its cost |
| WebApp.FormattedEntrySound | web/app.py:65-85 | A formatted entry of a sound top-list entry has line amounts equal to the entry's chromosome, so its fitness and totals are those of its amounts |
| WebApp.FormattedTops | web/app.py:65-85 | The formatted top list of a sound run is ranked, sorted and non-empty, each entry's fitness and totals are those of its line amounts, and its head is at least as fit as the run's best |
| WebApp.FormatHistory | web/app.py:88-95 | The formatted history has the same entries in order |
| WebApp.ResponsePercentages | web/app.py:60-62 | In a sound response the weight percentages add up to 100, and so do the cost percentages when the cost is positive |
| WebApp.CompositionFromChromosome | web/app.py:45-62 | The items built from an in-range chromosome form a sound composition table. Names and prices are copied and amounts are within [0, 10]. Each item has its cost and both percentages. The weight and cost columns sum to the totals, and the totals are the decoded totals of the amounts |
| WebApp.CompositionTable | web/app.py:45-62 | The two passes give one item per feed from the chromosome, with both percentages, and the total weight is the sum of the amounts |
| WebApp.Assemble | web/app.py:44-112 | The parts built from a sound run form a sound response, whose amounts are the run's best chromosome and whose fitness is the last history entry's best fitness, the highest in the history |
| WebApp.Respond | web/app.py:44-112 | The response is built from the run:<br>- Its amounts are the run's best chromosome, listed per feed in order.<br>- Its totals are the run's totals, and the weight is the sum of the amounts.<br>- Its fitness and history are the run's.<br>- Its top list is the run's top list, formatted.<br>It is also a sound response: the items carry percentages, the fitness is that of the amounts and equals the last history entry's best fitness, no entry has a higher one, and each top entry's fitness and totals are those of its amounts. The requirements echo the request |
| WebApp.Optimize | web/app.py:19-114 | With the request defaults filled in, it fails exactly when the run fails, and otherwise returns a sound response. The response fitness is the fitness of its own amounts under the handler's settings and the last history entry's best fitness, which no entry exceeds. Each top entry's fitness and totals are those of its amounts. The response is that of the run on the given seeds and draws: its history is tied to the run's trace of populations, generation by generation (population 0 is the initial population of the seeds, population g + 1 the successor of population g under draws g, entry g the statistics of population g), and its top list is the top-5 list of the final population of that trace, formatted one line per feed. The amounts are the first fittest member of the population of the first generation in that trace that reached the final best fitness |

## Left out

- The random number generator itself is left out. Every draw is an input, and each run requires its draws to have the documented ranges: unit draws in [0, 1], coins in [0, 1), offsets in [-0.1, 0.1], and parent indices within the population.
- Floats are modelled as exact reals. Rounding error and overflow are not modelled.
- `round()` is left out. The model reports the exact values that the source rounds for display. The source computes the weight and cost percentages from rounded amounts and costs; the model uses the exact ones.
- The population-diversity statistic in `genetic_algorithm.py` needs a square root, so its value is omitted from the generation record. Its division by `len(FEEDS)` is modelled: an empty feed table with more than one chromosome is the `NoFeeds` failure.
- The `progress_callback` of `genetic_algorithm.py` is left out.
- The swap and restore of the module-level `FEEDS` variable is left out; the feed table is passed explicitly. The global therefore cannot stay swapped when a run raises.
- Each run requires non-negative feed prices, and `GeneticOptimizer` requires `0 <= gen_min <= gen_max`. These keep every objective non-negative, so `1 / (1 + obj)` never divides by zero. Negative prices or genes are not modelled.
- `float()` and `int()` conversions of JSON request values are left out: the request holds already-typed values. Malformed JSON, feed dictionaries with missing keys and `jsonify` are left out too.
- `initialize_population` in `genetic_algorithm.py` is not used by `genetic_algorithm(...)` and is left out. The run builds its population inline, modelled as `Generation.InitialPopulation`.
- `get_default_config` in `config.py`, the Flask routing, the `index` page, the development server and the JavaScript front end are not part of this model.
