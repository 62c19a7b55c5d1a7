/** The whole simulation as one state: the shared pools, every order that
    has called so far, and the daily statistics. The threads of the program
    become a nondeterministic choice of which order takes its next action;
    clock readings and random draws are inputs of that choice
    (src/o1150174.c:116-249, 294-310). */
module Pizzeria {
  import opened Wrappers
  import opened Config
  import opened Resources
  import opened Pipeline
  import S = Stats

  /** One order: its stage and the clock readings it has taken. A reading
      not yet taken is 0. */
  datatype Order = Order(stage: Stage, calledAt: int, answeredAt: int, cookedAt: int, deliveredAt: int)
  {
    /** What the order reports to the statistics when it completes
        (src/o1150174.c:226-243): its size, the wait from the call to the
        answer, the time from the call to the delivery, and the time the
        pizzas were getting cold from baking to delivery. The door time is
        the cold time plus the time from the call until baking was done. */
    function Completion(): (c: S.Completion)
      ensures stage.Completed? ==> c.size == stage.size
      ensures c.callWait == answeredAt - calledAt
      ensures c.doorTime == deliveredAt - calledAt
      ensures c.coldTime == deliveredAt - cookedAt
      ensures c.doorTime == c.coldTime + (cookedAt - calledAt)
    {
      S.Completion(
        if stage.Calling? || stage.Answered? || stage.Failed? then 0 else stage.size,
        answeredAt - calledAt,
        deliveredAt - calledAt,
        deliveredAt - cookedAt)
    }
  }

  datatype State = State(pools: Pools, orders: seq<Order>, stats: S.DayStats)

  /** The events of the simulation: a new customer calls, or the order at
      position `index` of `orders` takes its next action, reading the clock
      as `now` if that action reads it and consulting `rnd` if it draws.
      Positions count from 0; the program numbers its orders from 1
      (src/o1150174.c:295), so the order at `index` has id `index + 1`. */
  datatype Event = Call(now: int) | Advance(index: nat, now: int, rnd: Randomness)

  /** The state before the first call: full pools, no orders, zero
      statistics. */
  function Init(): State
  {
    State(Initial(), [], S.Zero)
  }

  /** Takes the clock readings of a transition: the answer time when a
      phone line is obtained (src/o1150174.c:136), the baking-done time when
      the packager is obtained (read in the code just before the lock is
      requested, src/o1150174.c:178), the delivery time
      when the deliverer is released (taken in the code between the two
      legs, src/o1150174.c:211). Each reading is taken on exactly one
      transition; the call time is never changed. */
  function Stamp(o: Order, next: Stage, now: int): (r: Order)
    ensures r.stage == next && r.calledAt == o.calledAt
    ensures r.answeredAt == (if o.stage.Calling? then now else o.answeredAt)
    ensures r.cookedAt == (if o.stage.Baking? then now else o.cookedAt)
    ensures r.deliveredAt == (if o.stage.Delivering? then now else o.deliveredAt)
  {
    match o.stage
    case Calling => o.(stage := next, answeredAt := now)
    case Baking(_) => o.(stage := next, cookedAt := now)
    case Delivering(_) => o.(stage := next, deliveredAt := now)
    case _ => o.(stage := next)
  }

  /** One step of the simulation; `None` when the event is not enabled: the
      order does not exist or has terminated, or its action is an acquire
      that has to wait. A call counts itself before anything else
      (src/o1150174.c:125-129); an order's action changes only the pool it
      names, and only recording a completion changes the statistics. */
  function Step(z: State, e: Event): (r: Option<State>)
    ensures e.Call? ==> r.Some? && r.value.pools == z.pools
    ensures e.Call? ==> r.value.stats == S.RecordCall(z.stats) && |r.value.orders| == |z.orders| + 1
    ensures e.Advance? && r.Some? ==>
      && e.index < |z.orders| && !z.orders[e.index].stage.Terminal()
      && |r.value.orders| == |z.orders|
      && (forall k :: 0 <= k < |z.orders| && k != e.index ==> r.value.orders[k] == z.orders[k])
      && (forall res :: !NextOp(z.orders[e.index].stage).Touches(res) ==> r.value.pools.Get(res) == z.pools.Get(res))
      && (r.value.stats != z.stats ==> NextOp(z.orders[e.index].stage).RecordCompletion?)
  {
    match e
    case Call(now) =>
      Some(State(z.pools, z.orders + [Order(Calling, now, 0, 0, 0)], S.RecordCall(z.stats)))
    case Advance(i, now, rnd) =>
      if i >= |z.orders| || z.orders[i].stage.Terminal() then None
      else
        var o := z.orders[i];
        var op := NextOp(o.stage);
        match Apply(z.pools, op)
        case None => None
        case Some(ps) =>
          var stats := if op.RecordCompletion? then S.RecordCompletion(z.stats, o.Completion()) else z.stats;
          Some(State(ps, z.orders[i := Stamp(o, NextStage(o.stage, rnd), now)], stats))
  }

  /** What each order contributes to the quantities the invariant sums. */
  datatype Measure = HeldOf(res: Resource) | CompletedOrders | CompletedPizzas | LatencyOf(l: S.Latency)

  function Contribution(o: Order, m: Measure): int
  {
    match m
    case HeldOf(res) => o.stage.Held(res)
    case CompletedOrders => if o.stage.Completed? then 1 else 0
    case CompletedPizzas => if o.stage.Completed? then o.stage.size else 0
    case LatencyOf(l) => if o.stage.Completed? then o.Completion().Of(l) else 0
  }

  function Total(os: seq<Order>, m: Measure): int
  {
    if |os| == 0 then 0 else Total(os[..|os| - 1], m) + Contribution(os[|os| - 1], m)
  }

  /** Replacing one order changes a total by the change of that order's
      contribution. */
  lemma {:induction false} TotalUpdate(os: seq<Order>, i: nat, o: Order, m: Measure)
    requires i < |os|
    ensures Total(os[i := o], m) == Total(os, m) - Contribution(os[i], m) + Contribution(o, m)
  {
    var last := |os| - 1;
    if i < last {
      TotalUpdate(os[..last], i, o, m);
      assert os[i := o][..last] == os[..last][i := o];
    } else {
      assert os[i := o][..last] == os[..last];
    }
  }

  /** Held units and completed orders are never negative in total, and at
      most one order is counted per order. */
  lemma {:induction false} TotalBounds(os: seq<Order>, res: Resource)
    ensures 0 <= Total(os, HeldOf(res))
    ensures 0 <= Total(os, CompletedOrders) <= |os|
  {
    if |os| > 0 {
      TotalBounds(os[..|os| - 1], res);
    }
  }

  /** The invariant of every reachable state.
      - Pool conservation: for each pool, the available units plus the units
        held by all orders equal the capacity, and the counter is never
        negative.
      - Every order that has drawn a size drew one the size draw can produce.
      - Every call was counted, exactly once.
      - The success counter, revenue and latency totals are the sums over
        the completed orders, and each maximum is at least zero and at least
        every completed order's latency. */
  ghost predicate Inv(z: State)
  {
    && (forall res :: z.pools.Get(res).capacity == Capacity(res))
    && (forall res :: 0 <= z.pools.Get(res).available)
    && (forall res :: z.pools.Get(res).available + Total(z.orders, HeldOf(res)) == Capacity(res))
    && (forall k :: 0 <= k < |z.orders| ==> z.orders[k].stage.SizeOk())
    && z.stats.totalCalls == |z.orders|
    && z.stats.successfulOrders == Total(z.orders, CompletedOrders)
    && z.stats.revenue == C_PIZZA * Total(z.orders, CompletedPizzas)
    && (forall l :: z.stats.Total(l) == Total(z.orders, LatencyOf(l)))
    && (forall l :: z.stats.Max(l) >= 0)
    && (forall l, k :: 0 <= k < |z.orders| && z.orders[k].stage.Completed? ==>
          z.stats.Max(l) >= z.orders[k].Completion().Of(l))
  }

  lemma InitSatisfiesInv()
    ensures Inv(Init())
  {
  }

  lemma CallPreservesInv(z: State, now: int)
    requires Inv(z)
    ensures Inv(Step(z, Call(now)).value)
  {
  }

  lemma AdvancePreservesInv(z: State, i: nat, now: int, rnd: Randomness)
    requires Inv(z)
    requires Step(z, Advance(i, now, rnd)).Some?
    ensures Inv(Step(z, Advance(i, now, rnd)).value)
  {
    var z' := Step(z, Advance(i, now, rnd)).value;
    var o := z.orders[i];
    var op := NextOp(o.stage);
    var o' := z'.orders[i];
    TransitionAccounts(o.stage, rnd);
    assert o'.stage == NextStage(o.stage, rnd);
    forall m: Measure
      ensures Total(z'.orders, m) == Total(z.orders, m) - Contribution(o, m) + Contribution(o', m)
    {
      TotalUpdate(z.orders, i, o', m);
    }
    forall res
      ensures 0 <= z'.pools.Get(res).available
      ensures z'.pools.Get(res).available + Total(z'.orders, HeldOf(res)) == Capacity(res)
    {
      assert Contribution(o', HeldOf(res)) == Contribution(o, HeldOf(res)) + op.Gain(res);
      if op.Release? && op.res == res {
        TotalBounds(z.orders, res);
      }
    }
    if op.RecordCompletion? {
      assert o' == o.(stage := o'.stage);
      assert o'.Completion() == o.Completion();
    }
    forall l, k | 0 <= k < |z'.orders| && z'.orders[k].stage.Completed?
      ensures z'.stats.Max(l) >= z'.orders[k].Completion().Of(l)
    {
      if k != i {
        assert z'.orders[k] == z.orders[k];
      }
    }
  }

  /** Every enabled step keeps the invariant. */
  lemma StepPreservesInv(z: State, e: Event)
    requires Inv(z) && Step(z, e).Some?
    ensures Inv(Step(z, e).value)
  {
    match e
    case Call(now) => CallPreservesInv(z, now);
    case Advance(i, now, rnd) => AdvancePreservesInv(z, i, now, rnd);
  }

  /** Runs a schedule of events; `None` if one of them is not enabled. */
  function Run(z: State, es: seq<Event>): Option<State>
    decreases |es|
  {
    if |es| == 0 then Some(z)
    else
      match Step(z, es[0])
      case None => None
      case Some(z') => Run(z', es[1..])
  }

  /** Every interleaving of calls and order actions keeps the invariant. */
  lemma {:induction false} RunPreservesInv(z: State, es: seq<Event>)
    requires Inv(z) && Run(z, es).Some?
    ensures Inv(Run(z, es).value)
    decreases |es|
  {
    if |es| > 0 {
      StepPreservesInv(z, es[0]);
      RunPreservesInv(Step(z, es[0]).value, es[1..]);
    }
  }

  /** In every state reached from the start, each pool's counter stays
      within [0, capacity], and the orders together never hold more units of
      a pool than it has. */
  lemma PoolsStayWithinCapacity(es: seq<Event>)
    requires Run(Init(), es).Some?
    ensures forall res :: 0 <= Run(Init(), es).value.pools.Get(res).available <= Capacity(res)
    ensures forall res :: Total(Run(Init(), es).value.orders, HeldOf(res)) <= Capacity(res)
  {
    InitSatisfiesInv();
    RunPreservesInv(Init(), es);
    var z := Run(Init(), es).value;
    forall res
      ensures z.pools.Get(res).available <= Capacity(res)
    {
      TotalBounds(z.orders, res);
    }
  }

  function CountFailed(os: seq<Order>): nat
  {
    if |os| == 0 then 0 else CountFailed(os[..|os| - 1]) + (if os[|os| - 1].stage.Failed? then 1 else 0)
  }

  predicate AllTerminated(z: State)
  {
    forall k :: 0 <= k < |z.orders| ==> z.orders[k].stage.Terminal()
  }

  lemma {:induction false} TerminatedOrdersSplit(os: seq<Order>, res: Resource)
    requires forall k :: 0 <= k < |os| ==> os[k].stage.Terminal()
    ensures |os| == Total(os, CompletedOrders) + CountFailed(os)
    ensures Total(os, HeldOf(res)) == 0
  {
    if |os| > 0 {
      TerminatedOrdersSplit(os[..|os| - 1], res);
    }
  }

  /** Once every order has terminated: every pool is full again, and the
      calls that did not succeed are exactly the failed orders, so the call
      counter is at least the success counter. */
  lemma AfterAllOrdersFinish(z: State)
    requires Inv(z) && AllTerminated(z)
    ensures forall res :: z.pools.Get(res) == Initial().Get(res)
    ensures z.stats.totalCalls == z.stats.successfulOrders + CountFailed(z.orders)
    ensures z.stats.successfulOrders <= z.stats.totalCalls
  {
    forall res
      ensures z.pools.Get(res) == Initial().Get(res)
    {
      TerminatedOrdersSplit(z.orders, res);
    }
    TerminatedOrdersSplit(z.orders, Tel);
  }

  /** Whenever the call counter is read, it is at least the success
      counter: a call is counted before its order can complete. */
  lemma CallsCoverSuccesses(z: State)
    requires Inv(z)
    ensures z.stats.successfulOrders <= z.stats.totalCalls
  {
    TotalBounds(z.orders, Tel);
  }
}
