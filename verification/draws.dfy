/** The bounded random draws of an order and of the dispatcher. Each draw
    takes the raw value returned by the C library's reentrant generator as an
    arbitrary natural number; the generator itself is not modelled. All raw
    values are non-negative, so Dafny's `%` agrees with C's here. */
module Draws {
  import opened Config

  /** Seconds spent processing the payment (src/o1150174.c:140-142). */
  function PaymentWait(r: nat): (w: nat)
    ensures T_PAYMENTLOW <= w <= T_PAYMENTHIGH
  {
    T_PAYMENTLOW + r % (T_PAYMENTHIGH - T_PAYMENTLOW + 1)
  }

  /** Number of pizzas in an order (src/o1150174.c:155). The code takes the
      remainder by N_ORDERHIGH and adds N_ORDERLOW, so the upper end of the
      range is N_ORDERLOW + N_ORDERHIGH - 1. */
  function OrderSize(r: nat): (n: nat)
    ensures N_ORDERLOW <= n <= MAX_ORDER_SIZE
    ensures 0 < n <= N_OVEN
  {
    r % N_ORDERHIGH + N_ORDERLOW
  }

  /** Seconds of one delivery leg (src/o1150174.c:206-207). */
  function DeliveryWait(r: nat): (w: nat)
    ensures T_DELLOW <= w <= T_DELHIGH
  {
    T_DELLOW + r % (T_DELHIGH - T_DELLOW + 1)
  }

  /** Seconds between two incoming calls (src/o1150174.c:308). */
  function ArrivalWait(r: nat): (w: nat)
    ensures T_ORDERLOW <= w <= T_ORDERLOW + T_ORDERHIGH - 1
  {
    r % T_ORDERHIGH + T_ORDERLOW
  }

  /** Every value of each range is produced by some raw draw, so the ranges
      proved above are exact. */
  lemma DrawsCoverTheirRanges(v: nat)
    ensures T_PAYMENTLOW <= v <= T_PAYMENTHIGH ==> PaymentWait(v - T_PAYMENTLOW) == v
    ensures N_ORDERLOW <= v <= MAX_ORDER_SIZE ==> OrderSize(v - N_ORDERLOW) == v
    ensures T_DELLOW <= v <= T_DELHIGH ==> DeliveryWait(v - T_DELLOW) == v
    ensures T_ORDERLOW <= v <= T_ORDERLOW + T_ORDERHIGH - 1 ==> ArrivalWait(v - T_ORDERLOW) == v
  {
  }

  /** The payment failure test exactly as the code writes it
      (src/o1150174.c:146): a residue up to and including P_FAIL fails. */
  predicate PaymentFailsAsWritten(r: nat)
  {
    r % 100 <= P_FAIL
  }

  /** The payment failure test with the probability the code's comment
      states, P_FAIL percent: a residue strictly below P_FAIL fails. */
  predicate PaymentFails(r: nat)
  {
    r % 100 < P_FAIL
  }

  /** The as-written test looks only at the residue modulo 100, fails on
      every draw the corrected test fails, and differs from it exactly on
      the residue P_FAIL. */
  lemma AsWrittenTestByResidue(r: nat)
    ensures PaymentFailsAsWritten(r) <==> PaymentFailsAsWritten(r % 100)
    ensures PaymentFailsAsWritten(r) <==> PaymentFails(r) || r % 100 == P_FAIL
  {
  }

  /** Number of raw draws in [0, k) that the as-written test fails. */
  function AsWrittenFailuresBelow(k: nat): nat
  {
    if k == 0 then 0
    else AsWrittenFailuresBelow(k - 1) + (if PaymentFailsAsWritten(k - 1) then 1 else 0)
  }

  /** Number of raw draws in [0, k) that the corrected test fails. */
  function FailuresBelow(k: nat): nat
  {
    if k == 0 then 0
    else FailuresBelow(k - 1) + (if PaymentFails(k - 1) then 1 else 0)
  }

  function Min(a: nat, b: nat): nat
  {
    if a <= b then a else b
  }

  lemma {:induction false} AsWrittenFailuresPrefix(k: nat)
    requires k <= 100
    ensures AsWrittenFailuresBelow(k) == Min(k, P_FAIL + 1)
  {
    if k > 0 {
      AsWrittenFailuresPrefix(k - 1);
    }
  }

  lemma {:induction false} FailuresPrefix(k: nat)
    requires k <= 100
    ensures FailuresBelow(k) == Min(k, P_FAIL)
  {
    if k > 0 {
      FailuresPrefix(k - 1);
    }
  }

  /** The test as written fails on P_FAIL + 1 of the 100 residues, that is
      with probability 6% instead of the intended 5%; the raw draw 5 is one
      it fails although it should not. */
  lemma AsWrittenFailsOneResidueTooMany()
    ensures AsWrittenFailuresBelow(100) == P_FAIL + 1
    ensures PaymentFailsAsWritten(P_FAIL) && !PaymentFails(P_FAIL)
  {
    AsWrittenFailuresPrefix(100);
  }

  /** The corrected test fails on exactly P_FAIL of the 100 residues, and,
      since both tests look only at the residue, on exactly P_FAIL of every
      100 consecutive raw draws. */
  lemma FailureRateIsPFail(r: nat)
    ensures FailuresBelow(100) == P_FAIL
    ensures PaymentFails(r) <==> PaymentFails(r % 100)
    ensures PaymentFails(r) ==> PaymentFailsAsWritten(r)
  {
    FailuresPrefix(100);
  }
}
