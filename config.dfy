/** The configuration constants of the optimiser. */
module Config {
  import opened FeedMix

  /** The default feed table. */
  const FEEDS: seq<Feed> := [
    Feed("Alang-alang", 500.0, 0.04, 0.45),
    Feed("Kacang panjang", 2500.0, 0.16, 0.60),
    Feed("Ampas tahu", 1500.0, 0.20, 0.70),
    Feed("Bungkil kelapa", 3000.0, 0.22, 0.70)
  ]

  /** Daily PRDD (protein) and MP requirement of one dairy cow, in kg. */
  const REQUIRED_PRDD: real := 1.036
  const REQUIRED_MP: real := 7.5

  /** Bounds of every gene, in kg. */
  const GEN_MIN: real := 0.0
  const GEN_MAX: real := 10.0

  const NUTRITION_PENALTY_COEFF: real := 1000000.0

  const POP_SIZE: nat := 100
  const MAX_GEN: nat := 200
  const CROSSOVER_RATE: real := 0.3
  const MUTATION_RATE: real := 0.3
}
