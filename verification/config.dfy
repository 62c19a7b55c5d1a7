/** The simulation's configured capacities, ranges and prices
    (src/o1150174.h:9-25), and the facts about them the rest of the model
    relies on. */
module Config {

  // Pool capacities.
  const N_TEL: nat := 3
  const N_COOK: nat := 2
  const N_OVEN: nat := 10
  const N_DELIVERER: nat := 7

  // Inter-arrival time range, in seconds.
  const T_ORDERLOW: nat := 1
  const T_ORDERHIGH: nat := 5

  // Order size range, in pizzas.
  const N_ORDERLOW: nat := 1
  const N_ORDERHIGH: nat := 5

  // Payment time range, in seconds.
  const T_PAYMENTLOW: nat := 1
  const T_PAYMENTHIGH: nat := 2

  // Price of one pizza.
  const C_PIZZA: nat := 10

  // Payment failure probability, in percent.
  const P_FAIL: nat := 5

  // Per-pizza preparation, baking and packaging times, in seconds.
  const T_PREP: nat := 1
  const T_BAKE: nat := 10
  const T_PACK: nat := 2

  // Delivery time range, in seconds.
  const T_DELLOW: nat := 5
  const T_DELHIGH: nat := 15

  /** The largest order size the size draw can produce. */
  const MAX_ORDER_SIZE: nat := N_ORDERLOW + N_ORDERHIGH - 1

  /** Every pool starts with at least one unit, and the largest order fits in
      the oven pool, so an oven request made against a full pool never waits
      forever for capacity that does not exist. */
  lemma CapacitiesAdmitEveryRequest()
    ensures N_TEL > 0 && N_COOK > 0 && N_OVEN > 0 && N_DELIVERER > 0
    ensures 0 < N_ORDERLOW <= MAX_ORDER_SIZE <= N_OVEN
  {
  }

  /** Every configured range is non-empty. */
  lemma RangesNonEmpty()
    ensures T_ORDERLOW <= T_ORDERHIGH
    ensures N_ORDERLOW <= N_ORDERHIGH
    ensures T_PAYMENTLOW <= T_PAYMENTHIGH
    ensures T_DELLOW <= T_DELHIGH
    ensures P_FAIL <= 100
  {
  }
}
