/** The life of one order as a state machine (`pizza_order`,
    src/o1150174.c:116-249). Every transition is exactly one action on the
    shared state: an acquire or release on one pool, or recording the
    completion statistics. Sleeps and log lines between the actions are not
    modelled. The stage says which units the order holds. */
module Pipeline {
  import opened Wrappers
  import opened Config
  import opened Resources
  import D = Draws

  datatype Stage =
    | Calling                // call counted, waiting for a phone line
    | Answered               // holds a phone line while the payment is processed
    | Failed                 // payment failed; terminal
    | Paid(size: nat)        // size drawn and phone line released; waiting for a cook
    | Cooking(size: nat)     // holds a cook; waiting for `size` ovens
    | Loaded(size: nat)      // holds the cook and the ovens
    | Baking(size: nat)      // holds the ovens only; waiting for the packager
    | Packaging(size: nat)   // holds the ovens and the packager
    | Packed(size: nat)      // holds the packager only
    | Ready(size: nat)       // holds nothing; waiting for a deliverer
    | Delivering(size: nat)  // holds a deliverer
    | Delivered(size: nat)   // deliverer back; statistics not yet recorded
    | Completed(size: nat)   // statistics recorded; terminal
  {
    predicate Terminal()
    {
      Failed? || Completed?
    }

    /** Stages after the payment carry an order size the size draw can
        produce. */
    predicate SizeOk()
    {
      !(Calling? || Answered? || Failed?) ==> 0 < size <= MAX_ORDER_SIZE
    }

    /** Units of `res` held by an order in this stage; never more than the
        pool has. */
    function Held(res: Resource): (h: nat)
      ensures SizeOk() ==> h <= Capacity(res)
    {
      match (this, res)
      case (Answered, Tel) => 1
      case (Cooking(_), Cook) => 1
      case (Loaded(_), Cook) => 1
      case (Loaded(n), Oven) => n
      case (Baking(n), Oven) => n
      case (Packaging(n), Oven) => n
      case (Packaging(_), Packager) => 1
      case (Packed(_), Packager) => 1
      case (Delivering(_), Deliverer) => 1
      case _ => 0
    }

    /** Number of transitions left before the order terminates, at most. */
    function Remaining(): nat
    {
      match this
      case Calling => 12
      case Answered => 11
      case Failed => 0
      case Paid(_) => 10
      case Cooking(_) => 9
      case Loaded(_) => 8
      case Baking(_) => 7
      case Packaging(_) => 6
      case Packed(_) => 5
      case Ready(_) => 4
      case Delivering(_) => 3
      case Delivered(_) => 2
      case Completed(_) => 1
    }
  }

  /** The two raw draws an order's transitions consult: the failure test
      and the order size. */
  datatype Randomness = Randomness(failDraw: nat, sizeDraw: nat)

  /** The action an order performs to leave its stage. Only a delivered
      order records its completion. An order never requests a pool it
      already holds units of, and every release gives back all the units it
      holds of that pool. Every request or release is of at least one unit
      and at most the pool's capacity. */
  function NextOp(s: Stage): (op: Op)
    requires !s.Terminal()
    ensures op.RecordCompletion? <==> s.Delivered?
    ensures op.Acquire? ==> s.Held(op.res) == 0
    ensures op.Release? ==> s.Held(op.res) == op.n
    ensures s.SizeOk() && !op.RecordCompletion? ==> 0 < op.n <= Capacity(op.res)
  {
    match s
    case Calling => Acquire(Tel, 1)                  // src/o1150174.c:132
    case Answered => Release(Tel, 1)                 // src/o1150174.c:147 or 157
    case Paid(_) => Acquire(Cook, 1)                 // src/o1150174.c:162
    case Cooking(n) => Acquire(Oven, n)              // src/o1150174.c:168
    case Loaded(_) => Release(Cook, 1)               // src/o1150174.c:170
    case Baking(_) => Acquire(Packager, 1)           // src/o1150174.c:184
    case Packaging(n) => Release(Oven, n)            // src/o1150174.c:190
    case Packed(_) => Release(Packager, 1)           // src/o1150174.c:193
    case Ready(_) => Acquire(Deliverer, 1)           // src/o1150174.c:204
    case Delivering(_) => Release(Deliverer, 1)      // src/o1150174.c:218
    case Delivered(_) => RecordCompletion            // src/o1150174.c:223-246
  }

  /** The stage an order reaches by performing `NextOp`. The payment branch
      is the only one that consults the randomness, and the only way to
      fail: an answered order fails exactly when the failure test as the
      code writes it says so. Every later stage keeps the order size drawn
      at payment, and every transition moves toward termination. */
  function NextStage(s: Stage, rnd: Randomness): (t: Stage)
    requires !s.Terminal()
    ensures t.Remaining() < s.Remaining()
    ensures t.Failed? <==> s.Answered? && D.PaymentFailsAsWritten(rnd.failDraw)
    ensures s.Answered? && !t.Failed? ==> t.size == D.OrderSize(rnd.sizeDraw)
    ensures !s.Calling? && !s.Answered? ==> t.size == s.size
  {
    match s
    case Calling => Answered
    case Answered =>
      if D.PaymentFailsAsWritten(rnd.failDraw) then Failed else Paid(D.OrderSize(rnd.sizeDraw))
    case Paid(n) => Cooking(n)
    case Cooking(n) => Loaded(n)
    case Loaded(n) => Baking(n)
    case Baking(n) => Packaging(n)
    case Packaging(n) => Packed(n)
    case Packed(n) => Ready(n)
    case Ready(n) => Delivering(n)
    case Delivering(n) => Delivered(n)
    case Delivered(n) => Completed(n)
  }

  /** Each transition changes the units the order holds by exactly what its
      action acquires or releases, a release only returns units the order
      holds, the order size is kept, and only recording the statistics
      completes an order. */
  lemma TransitionAccounts(s: Stage, rnd: Randomness)
    requires !s.Terminal() && s.SizeOk()
    ensures forall res :: NextStage(s, rnd).Held(res) == s.Held(res) + NextOp(s).Gain(res)
    ensures NextOp(s).Release? ==> NextOp(s).n <= s.Held(NextOp(s).res)
    ensures NextStage(s, rnd).SizeOk()
    ensures NextStage(s, rnd).Completed? <==> NextOp(s).RecordCompletion?
    ensures NextStage(s, rnd).Completed? ==> NextStage(s, rnd).size == s.size
  {
  }

  /** The two double-hold handoffs. Ovens are requested while the cook is
      held, and the cook is given back only once the ovens are held; the
      ovens are given back only while the packager is held. */
  lemma Handoffs(s: Stage)
    requires !s.Terminal() && s.SizeOk()
    ensures NextOp(s).Acquire? && NextOp(s).res == Oven ==> s.Held(Cook) == 1
    ensures NextOp(s).Release? && NextOp(s).res == Cook ==> s.Held(Oven) > 0
    ensures NextOp(s).Release? && NextOp(s).res == Oven ==> s.Held(Packager) == 1
  {
  }

  /** The oven request of an order never exceeds the oven capacity, so it
      can always be met from a full oven pool. */
  lemma OvenRequestFitsFullPool(s: Stage)
    requires !s.Terminal() && s.SizeOk()
    requires NextOp(s).Acquire?
    ensures NextOp(s).n <= Capacity(NextOp(s).res)
  {
  }

  /** The actions an order performs from stage `s` until it terminates. */
  function Ops(s: Stage, rnd: Randomness): seq<Op>
    decreases s.Remaining()
  {
    if s.Terminal() then [] else [NextOp(s)] + Ops(NextStage(s, rnd), rnd)
  }

  /** The terminal stage an order reaches from stage `s`. */
  function Final(s: Stage, rnd: Randomness): Stage
    decreases s.Remaining()
  {
    if s.Terminal() then s else Final(NextStage(s, rnd), rnd)
  }

  /** Total change the actions make to the units held of `res`. */
  function NetGain(ops: seq<Op>, res: Resource): int
  {
    if |ops| == 0 then 0 else ops[0].Gain(res) + NetGain(ops[1..], res)
  }

  /** From any stage, the remaining actions give back exactly the units the
      order holds, of every pool. */
  lemma {:induction false} OpsReturnHeldUnits(s: Stage, rnd: Randomness, res: Resource)
    requires s.SizeOk()
    ensures NetGain(Ops(s, rnd), res) == -(s.Held(res) as int)
    decreases s.Remaining()
  {
    if !s.Terminal() {
      TransitionAccounts(s, rnd);
      OpsReturnHeldUnits(NextStage(s, rnd), rnd, res);
      var ops := Ops(s, rnd);
      assert ops[1..] == Ops(NextStage(s, rnd), rnd);
    }
  }

  /** A whole order, failed or completed, acquires and releases the same
      number of units of every pool. */
  lemma OrderBalancesEveryPool(rnd: Randomness, res: Resource)
    ensures NetGain(Ops(Calling, rnd), res) == 0
  {
    OpsReturnHeldUnits(Calling, rnd, res);
  }

  /** An order whose payment fails ends `Failed`; its only actions take and
      give back one phone line, and it never records a completion. */
  lemma FailurePathTouchesOnlyPhoneLines(rnd: Randomness)
    requires D.PaymentFailsAsWritten(rnd.failDraw)
    ensures Final(Calling, rnd) == Failed
    ensures Ops(Calling, rnd) == [Acquire(Tel, 1), Release(Tel, 1)]
    ensures forall op, res :: op in Ops(Calling, rnd) && op.Touches(res) ==> res == Tel
    ensures RecordCompletion !in Ops(Calling, rnd)
  {
  }

  /** From the moment an order has paid: the actions after its packager is
      taken, and the stage it ends in. */
  lemma {:induction false} OpsAfterPackaging(n: nat, rnd: Randomness)
    ensures Ops(Packaging(n), rnd) == [Release(Oven, n), Release(Packager, 1), Acquire(Deliverer, 1),
                                       Release(Deliverer, 1), RecordCompletion]
    ensures Final(Packaging(n), rnd) == Completed(n)
  {
    assert Ops(Delivered(n), rnd) == [RecordCompletion];
    assert Ops(Delivering(n), rnd) == [Release(Deliverer, 1), RecordCompletion];
    assert Ops(Ready(n), rnd) == [Acquire(Deliverer, 1), Release(Deliverer, 1), RecordCompletion];
    assert Ops(Packed(n), rnd) == [Release(Packager, 1)] + Ops(Ready(n), rnd);
    assert Final(Delivered(n), rnd) == Completed(n);
    assert Final(Delivering(n), rnd) == Completed(n);
    assert Final(Packed(n), rnd) == Completed(n);
  }

  /** The actions of a paid order until it completes, and the stage it ends
      in. */
  lemma {:induction false} OpsAfterPayment(n: nat, rnd: Randomness)
    ensures Ops(Paid(n), rnd) == [Acquire(Cook, 1), Acquire(Oven, n), Release(Cook, 1), Acquire(Packager, 1),
                                  Release(Oven, n), Release(Packager, 1), Acquire(Deliverer, 1),
                                  Release(Deliverer, 1), RecordCompletion]
    ensures Final(Paid(n), rnd) == Completed(n)
  {
    OpsAfterPackaging(n, rnd);
    assert Ops(Baking(n), rnd) == [Acquire(Packager, 1)] + Ops(Packaging(n), rnd);
    assert Ops(Loaded(n), rnd) == [Release(Cook, 1)] + Ops(Baking(n), rnd);
    assert Ops(Cooking(n), rnd) == [Acquire(Oven, n)] + Ops(Loaded(n), rnd);
    assert Ops(Paid(n), rnd) == [Acquire(Cook, 1)] + Ops(Cooking(n), rnd);
    assert Final(Baking(n), rnd) == Completed(n);
    assert Final(Cooking(n), rnd) == Completed(n);
  }

  /** An order whose payment succeeds ends `Completed` with the drawn size,
      and records its completion exactly once, as its last action. */
  lemma SuccessPathRecordsOnceAtTheEnd(rnd: Randomness)
    requires !D.PaymentFailsAsWritten(rnd.failDraw)
    ensures Final(Calling, rnd) == Completed(D.OrderSize(rnd.sizeDraw))
    ensures |Ops(Calling, rnd)| == 11
    ensures Ops(Calling, rnd)[10] == RecordCompletion
    ensures RecordCompletion !in Ops(Calling, rnd)[..10]
  {
    var n := D.OrderSize(rnd.sizeDraw);
    OpsAfterPayment(n, rnd);
    assert NextStage(Answered, rnd) == Paid(n);
    assert Ops(Calling, rnd) == [Acquire(Tel, 1), Release(Tel, 1)] + Ops(Paid(n), rnd);
  }

  /** Performs a sequence of actions on the pools, one after the other;
      `None` when one of them would wait. */
  function ApplyAll(ps: Pools, ops: seq<Op>): Option<Pools>
    decreases |ops|
  {
    if |ops| == 0 then Some(ps)
    else
      match Apply(ps, ops[0])
      case None => None
      case Some(q) => ApplyAll(q, ops[1..])
  }

  /** An order running alone, on pools that are full except for the units it
      holds itself, never waits and leaves every pool full. */
  lemma {:induction false} SoloOrderRunsToCompletion(ps: Pools, s: Stage, rnd: Randomness)
    requires s.SizeOk()
    requires forall res :: ps.Get(res).capacity == Capacity(res)
    requires forall res :: ps.Get(res).available == Capacity(res) - s.Held(res)
    ensures ApplyAll(ps, Ops(s, rnd)) == Some(Initial())
    decreases s.Remaining()
  {
    if s.Terminal() {
      PoolsExtensional(ps, Initial());
    } else {
      var op, t := NextOp(s), NextStage(s, rnd);
      TransitionAccounts(s, rnd);
      if op.Acquire? {
        assert t.Held(op.res) == s.Held(op.res) + op.n;
      }
      var q := Apply(ps, op).value;
      SoloOrderRunsToCompletion(q, t, rnd);
    }
  }
}
