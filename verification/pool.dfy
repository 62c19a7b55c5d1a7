/** One counting resource pool: the integer counter of available units that
    `operators_acquire` and `operators_release` guard with a mutex and a
    condition variable (src/o1150174.c:71-112). The wait on the condition
    variable is not modelled as a loop: an acquire that would wait is simply
    not enabled yet, which `Acquire` reports as `None`. */
module Pool {
  import opened Wrappers

  datatype Pool = Pool(capacity: nat, available: int)
  {
    /** The counter never leaves [0, capacity]. */
    predicate Valid()
    {
      0 <= available <= capacity
    }
  }

  /** A pool with all its units available. */
  function Full(capacity: nat): (p: Pool)
    ensures p.Valid() && p.capacity == capacity && p.available == capacity
  {
    Pool(capacity, capacity)
  }

  /** Takes `needed` units. The caller proceeds only once at least `needed`
      units are available; then exactly `needed` are subtracted. */
  function Acquire(p: Pool, needed: nat): (r: Option<Pool>)
    ensures r.Some? <==> needed <= p.available
    ensures r.Some? ==> r.value.capacity == p.capacity
    ensures r.Some? ==> r.value.available == p.available - needed
    ensures r.Some? && p.Valid() ==> r.value.Valid()
  {
    if p.available < needed then None
    else Some(p.(available := p.available - needed))
  }

  /** Gives back `released` units. Like the code, it does not check that the
      units were held; keeping the counter within its capacity is the
      caller's obligation (see `ReleaseKeepsValid`). */
  function Release(p: Pool, released: nat): (r: Pool)
    ensures r.capacity == p.capacity
    ensures r.available == p.available + released
    ensures p.Valid() ==> r.available >= released
  {
    p.(available := p.available + released)
  }

  /** Releasing units that were held keeps the counter within its bounds. */
  lemma ReleaseKeepsValid(p: Pool, released: nat)
    requires p.Valid() && released <= p.capacity - p.available
    ensures Release(p, released).Valid()
  {
  }

  /** Acquire followed by release of the same amount restores the pool. */
  lemma AcquireReleaseRoundTrip(p: Pool, n: nat)
    requires Acquire(p, n).Some?
    ensures Release(Acquire(p, n).value, n) == p
  {
  }

  /** Release followed by acquire of the same amount is enabled and restores
      the pool, whenever the counter was not negative. */
  lemma ReleaseAcquireRoundTrip(p: Pool, n: nat)
    requires 0 <= p.available
    ensures Acquire(Release(p, n), n) == Some(p)
  {
  }

  /** The blocking condition is monotone: a request that is enabled stays
      enabled after any release, and a smaller request is enabled whenever a
      larger one is. */
  lemma AcquireMonotone(p: Pool, n: nat, m: nat, k: nat)
    requires Acquire(p, n).Some?
    ensures Acquire(Release(p, k), n).Some?
    ensures m <= n ==> Acquire(p, m).Some?
  {
  }
}
