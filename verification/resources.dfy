/** The five shared pools of the pizzeria: phone lines, cooks, ovens, the
    packager and deliverers (src/o1150174.c:8-29). The packager is a plain
    mutex in the code (src/o1150174.c:184-193); here it is a pool of capacity
    one, locked by acquiring its single unit and unlocked by releasing it. */
module Resources {
  import opened Wrappers
  import opened Config
  import P = Pool

  datatype Resource = Tel | Cook | Oven | Packager | Deliverer

  /** Capacity of each pool. */
  function Capacity(res: Resource): (c: nat)
    ensures c > 0
  {
    match res
    case Tel => N_TEL
    case Cook => N_COOK
    case Oven => N_OVEN
    case Packager => 1
    case Deliverer => N_DELIVERER
  }

  datatype Pools = Pools(tel: P.Pool, cook: P.Pool, oven: P.Pool, packager: P.Pool, deliverer: P.Pool)
  {
    function Get(res: Resource): P.Pool
    {
      match res
      case Tel => tel
      case Cook => cook
      case Oven => oven
      case Packager => packager
      case Deliverer => deliverer
    }

    /** Replaces one pool; every other pool is unchanged. */
    function Set(res: Resource, p: P.Pool): (r: Pools)
      ensures r.Get(res) == p
      ensures forall other :: other != res ==> r.Get(other) == Get(other)
    {
      match res
      case Tel => this.(tel := p)
      case Cook => this.(cook := p)
      case Oven => this.(oven := p)
      case Packager => this.(packager := p)
      case Deliverer => this.(deliverer := p)
    }
  }

  /** Two pool states that agree on every pool are equal. */
  lemma PoolsExtensional(a: Pools, b: Pools)
    requires forall res :: a.Get(res) == b.Get(res)
    ensures a == b
  {
    assert a.Get(Tel) == b.Get(Tel) && a.Get(Cook) == b.Get(Cook) && a.Get(Oven) == b.Get(Oven);
    assert a.Get(Packager) == b.Get(Packager) && a.Get(Deliverer) == b.Get(Deliverer);
  }

  /** The pools as the program starts them: every counter at its capacity. */
  function Initial(): (ps: Pools)
    ensures forall res :: ps.Get(res) == P.Full(Capacity(res))
  {
    Pools(P.Full(N_TEL), P.Full(N_COOK), P.Full(N_OVEN), P.Full(1), P.Full(N_DELIVERER))
  }

  /** One action of an order on the shared state: an acquire or release on a
      pool, or the update of the completion statistics, which touches no
      pool. */
  datatype Op = Acquire(res: Resource, n: nat) | Release(res: Resource, n: nat) | RecordCompletion
  {
    /** Change the action makes to the units the order holds of `r`. */
    function Gain(r: Resource): int
    {
      match this
      case Acquire(res, n) => if res == r then n else 0
      case Release(res, n) => if res == r then -(n as int) else 0
      case RecordCompletion => 0
    }

    predicate Touches(r: Resource)
    {
      (Acquire? || Release?) && res == r
    }
  }

  /** Performs an action on the pools; `None` when it is an acquire that has
      to wait. An acquire removes exactly its units, a release adds them back,
      and no other pool changes. */
  function Apply(ps: Pools, op: Op): (r: Option<Pools>)
    ensures r.None? <==> op.Acquire? && ps.Get(op.res).available < op.n
    ensures r.Some? ==> forall res ::
      && r.value.Get(res).capacity == ps.Get(res).capacity
      && r.value.Get(res).available == ps.Get(res).available - op.Gain(res)
  {
    match op
    case Acquire(res, n) =>
      (match P.Acquire(ps.Get(res), n)
       case None => None
       case Some(p) => Some(ps.Set(res, p)))
    case Release(res, n) => Some(ps.Set(res, P.Release(ps.Get(res), n)))
    case RecordCompletion => Some(ps)
  }
}
