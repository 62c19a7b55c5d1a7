/** The dispatcher in `main`: one worker per customer, each given a
    sequential id and a generator seed derived from the dispatcher's own
    generator state, with a random pause between calls (src/o1150174.c:294-310); and the final report read after every
    worker has finished (src/o1150174.c:355-392). */
module Dispatcher {
  import opened Config
  import D = Draws
  import Z = Pizzeria
  import R = Report

  /** Values of an `unsigned int` wrap around modulo 2^32. */
  const UINT_MODULUS: nat := 0x1_0000_0000

  /** The per-worker record of `main` (src/o1150174.h:31-34). */
  datatype ThreadInfo = ThreadInfo(orderId: nat, seed: nat)

  /** The dispatcher's generator state before its `i`-th draw: the seed
      argument before the first draw, then the state each draw left behind. */
  function StateBefore(seed: nat, advanced: seq<nat>, i: nat): nat
    requires i <= |advanced|
  {
    if i == 0 then seed else advanced[i - 1]
  }

  /** Prepares the workers for `customers` calls. The dispatcher's generator
      state `seed` is advanced by every inter-arrival draw
      (src/o1150174.c:308): `draws[i]` is the value of the `i`-th draw and
      `advanced[i]` the state it leaves behind. Worker `i` gets order id
      `i + 1` and, as seed, the current state plus `i + 1`, wrapped to an
      unsigned value (src/o1150174.c:295-297). The first worker's seed
      depends only on the seed argument. Ids are distinct and positive, and
      every pause lies in the inter-arrival range. */
  method Dispatch(customers: nat, seed: nat, draws: seq<nat>, advanced: seq<nat>)
      returns (infos: seq<ThreadInfo>, pauses: seq<nat>)
    requires |draws| == customers && |advanced| == customers
    ensures |infos| == customers && |pauses| == customers
    ensures forall i :: 0 <= i < customers ==> infos[i].orderId == i + 1
    ensures forall i, j :: 0 <= i < j < customers ==> infos[i].orderId < infos[j].orderId
    ensures forall i :: 0 <= i < customers ==>
      infos[i].seed < UINT_MODULUS && infos[i].seed == (StateBefore(seed, advanced, i) + i + 1) % UINT_MODULUS
    ensures customers > 0 ==> infos[0].seed == (seed + 1) % UINT_MODULUS
    ensures forall i :: 0 <= i < customers ==>
      T_ORDERLOW <= pauses[i] <= T_ORDERLOW + T_ORDERHIGH - 1
  {
    infos, pauses := [], [];
    var state := seed;
    var i := 0;
    while i < customers
      invariant i <= customers && |infos| == i && |pauses| == i
      invariant state == StateBefore(seed, advanced, i)
      invariant forall k :: 0 <= k < i ==>
        infos[k] == ThreadInfo(k + 1, (StateBefore(seed, advanced, k) + k + 1) % UINT_MODULUS)
      invariant forall k :: 0 <= k < i ==> T_ORDERLOW <= pauses[k] <= T_ORDERLOW + T_ORDERHIGH - 1
    {
      infos := infos + [ThreadInfo(i + 1, (state + i + 1) % UINT_MODULUS)];
      pauses := pauses + [D.ArrivalWait(draws[i])];
      state := advanced[i];
      i := i + 1;
    }
  }

  /** After any schedule that ends with every order terminated: every pool
      is full again, the report's failed count is the number of failed
      orders, and the program ends with status 0 rather than 66 whenever
      somebody called. */
  lemma ReportAfterJoin(es: seq<Z.Event>)
    requires Z.Run(Z.Init(), es).Some?
    requires Z.AllTerminated(Z.Run(Z.Init(), es).value)
    ensures var z := Z.Run(Z.Init(), es).value;
      && R.MakeReport(z.stats).failed == Z.CountFailed(z.orders)
      && R.MakeReport(z.stats).revenue == C_PIZZA * Z.Total(z.orders, Z.CompletedPizzas)
      && (R.ExitStatus(R.MakeReport(z.stats)) == 0 <==> |z.orders| > 0)
  {
    Z.InitSatisfiesInv();
    Z.RunPreservesInv(Z.Init(), es);
    Z.AfterAllOrdersFinish(Z.Run(Z.Init(), es).value);
  }
}
