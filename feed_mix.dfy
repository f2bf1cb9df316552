/** The data model shared by both optimiser variants: feeds, chromosomes,
    nutrient totals, the settings an evaluation reads, and small wrappers. */
module FeedMix {

  datatype Option<T> = None | Some(value: T)

  datatype Result<T, E> = Success(value: T) | Failure(error: E)

  /** The value of an optional argument, or the default when it is absent. */
  function OrElse<T>(o: Option<T>, default: T): T
  {
    if o.Some? then o.value else default
  }

  /** One feed ingredient with its price, PRDD and MP content per kilogram. */
  datatype Feed = Feed(name: string, price: real, prdd: real, mp: real)

  /** A candidate mix: kilograms of each feed, in feed order. */
  type Chromosome = seq<real>

  /** Nutrient and cost totals of a mix. */
  datatype Totals = Totals(prdd: real, mp: real, cost: real)

  /** What evaluating and varying a chromosome depends on: the feed table,
      the two nutrient requirements, the penalty coefficient, the gene
      bounds and the per-gene mutation probability. */
  datatype Settings = Settings(
    feeds: seq<Feed>,
    requiredPrdd: real,
    requiredMp: real,
    penaltyCoeff: real,
    genMin: real,
    genMax: real,
    mutationRate: real)

  function Min(a: int, b: int): int
  {
    if a <= b then a else b
  }

  /** Python's `max(lo, min(hi, x))`. */
  function Clamp(lo: real, hi: real, x: real): (r: real)
    ensures lo <= hi ==> lo <= r <= hi
  {
    var m := if x < hi then x else hi;
    if m > lo then m else lo
  }

  /** Every feed has a non-negative price. */
  predicate NonNegativePrices(feeds: seq<Feed>)
  {
    forall i :: 0 <= i < |feeds| ==> feeds[i].price >= 0.0
  }

  /** Settings under which every reachable chromosome has a non-negative
      objective, so that the fitness division is always defined. */
  predicate Admissible(s: Settings)
  {
    && 0.0 <= s.genMin <= s.genMax
    && s.penaltyCoeff >= 0.0
    && NonNegativePrices(s.feeds)
  }

  /** A chromosome with one gene per feed, every gene within the bounds. */
  predicate InRange(s: Settings, c: Chromosome)
  {
    |c| == |s.feeds| && forall i :: 0 <= i < |c| ==> s.genMin <= c[i] <= s.genMax
  }

  predicate AllInRange(s: Settings, pop: seq<Chromosome>)
  {
    forall k :: 0 <= k < |pop| ==> InRange(s, pop[k])
  }

  /** The product of two non-negative reals is non-negative. */
  lemma MulNonNegative(x: real, y: real)
    requires x >= 0.0 && y >= 0.0
    ensures x * y >= 0.0
  {
  }

  /** Python's `sum` over a list of floats. */
  function Sum(xs: seq<real>): real
  {
    if xs == [] then 0.0 else Sum(xs[..|xs| - 1]) + xs[|xs| - 1]
  }
}
