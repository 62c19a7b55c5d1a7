/** The final report `main` prints once every worker has finished
    (src/o1150174.c:355-392). Only its arithmetic is modelled; the text and
    the printing are not. Divisions are C divisions on `long` values, which
    truncate toward zero; the latency totals may be negative because clock
    readings are not assumed to be monotonic. */
module Report {
  import opened Stats

  /** Bounds of Dafny's division of a non-negative number. */
  lemma DivBounds(a: int, b: int)
    requires b > 0
    ensures a >= 0 ==> 0 <= a / b && (a / b) * b <= a < (a / b) * b + b
  {
  }

  /** C integer division of `a` by a positive `b`: the quotient is truncated
      toward zero. */
  function CDiv(a: int, b: int): (q: int)
    requires b > 0
    ensures a >= 0 ==> 0 <= q && q * b <= a < q * b + b
    ensures a < 0 ==> q <= 0 && q * b - b < a <= q * b
  {
    DivBounds(a, b);
    DivBounds(-a, b);
    if a >= 0 then a / b else -((-a) / b)
  }

  /** C remainder of `a` by a positive `b`: together with the quotient it
      rebuilds `a`, it is smaller than `b` in size, and it has the sign of
      `a`. */
  function CMod(a: int, b: int): (m: int)
    requires b > 0
    ensures CDiv(a, b) * b + m == a
    ensures -b < m < b
    ensures a >= 0 ==> m >= 0
    ensures a <= 0 ==> m <= 0
  {
    a - CDiv(a, b) * b
  }

  datatype MinSec = MinSec(minutes: int, seconds: int)

  /** A number of seconds printed as minutes and seconds. */
  function Split(v: int): (t: MinSec)
    ensures t.minutes * 60 + t.seconds == v
    ensures -60 < t.seconds < 60
    ensures v >= 0 ==> t.minutes >= 0 && t.seconds >= 0
    ensures v <= 0 ==> t.minutes <= 0 && t.seconds <= 0
  {
    MinSec(CDiv(v, 60), CMod(v, 60))
  }

  /** The part printed only when at least one order succeeded. */
  datatype DeliverySummary =
    | NoSuccessfulOrders
    | Deliveries(doorMean: MinSec, doorMax: MinSec, coldMean: MinSec, coldMax: MinSec)

  /** The part printed only when at least one call was counted; `NoCalls`
      is the branch that ends the program with status 66. */
  datatype CallSummary =
    | NoCalls
    | Calls(callWaitMean: int, callWaitMax: int, deliveries: DeliverySummary)

  datatype Summary = Summary(revenue: nat, successful: nat, failed: int, calls: CallSummary)

  /** The program's exit status after printing the report. */
  function ExitStatus(r: Summary): (code: int)
    ensures code == 0 || code == 66
    ensures code == 66 <==> r.calls.NoCalls?
  {
    if r.calls.NoCalls? then 66 else 0
  }

  /** Builds the report from the statistics. A mean is computed only after
      the guard on its divisor: the call-wait mean needs a counted call, the
      delivery means a successful order. The failed count is the calls that
      did not succeed. Every value in seconds is split into whole minutes and
      the remaining seconds. */
  function MakeReport(s: DayStats): (r: Summary)
    ensures r.revenue == s.revenue && r.successful == s.successfulOrders
    ensures r.failed == s.totalCalls - s.successfulOrders
    ensures r.calls.NoCalls? <==> s.totalCalls == 0
    ensures r.calls.Calls? ==>
      && r.calls.callWaitMax == s.callWaitMax
      && r.calls.callWaitMean == CDiv(s.callWaitTotal, s.totalCalls)
      && (s.callWaitTotal >= 0 ==>
            r.calls.callWaitMean * s.totalCalls <= s.callWaitTotal
                < (r.calls.callWaitMean + 1) * s.totalCalls)
      && (r.calls.deliveries.Deliveries? <==> s.successfulOrders > 0)
    ensures r.calls.Calls? && r.calls.deliveries.Deliveries? ==>
      var d := r.calls.deliveries;
      && d.doorMax.minutes * 60 + d.doorMax.seconds == s.doorTimeMax
      && d.coldMax.minutes * 60 + d.coldMax.seconds == s.coldTimeMax
      && d.doorMean.minutes * 60 + d.doorMean.seconds == CDiv(s.doorTimeTotal, s.successfulOrders)
      && d.coldMean.minutes * 60 + d.coldMean.seconds == CDiv(s.coldTimeTotal, s.successfulOrders)
      && d.doorMean == Split(CDiv(s.doorTimeTotal, s.successfulOrders))
      && d.doorMax == Split(s.doorTimeMax)
      && d.coldMean == Split(CDiv(s.coldTimeTotal, s.successfulOrders))
      && d.coldMax == Split(s.coldTimeMax)
  {
    var calls :=
      if s.totalCalls == 0 then NoCalls
      else
        var deliveries :=
          if s.successfulOrders == 0 then NoSuccessfulOrders
          else Deliveries(
            Split(CDiv(s.doorTimeTotal, s.successfulOrders)),
            Split(s.doorTimeMax),
            Split(CDiv(s.coldTimeTotal, s.successfulOrders)),
            Split(s.coldTimeMax));
        Calls(CDiv(s.callWaitTotal, s.totalCalls), s.callWaitMax, deliveries);
    Summary(s.revenue, s.successfulOrders, s.totalCalls - s.successfulOrders, calls)
  }

  lemma MulMonotone(x: int, a: int, b: int)
    requires x >= 0 && a <= b
    ensures x * a <= x * b
  {
    assert x * b - x * a == x * (b - a);
  }

  /** A quotient by a larger divisor is no larger: if `m` fits `n` times
      into `t`, and `t` is below `k + 1` times a smaller `c`, then `m <= k`. */
  lemma QuotientAntitone(t: int, n: int, c: int, m: int, k: int)
    requires 0 < c <= n && 0 <= m
    requires m * n <= t < k * c + c
    ensures m <= k
  {
    MulMonotone(m, c, n);
    if m > k {
      MulMonotone(c, k + 1, m);
    }
  }

  /** The call-wait total is summed over successful orders only, but divided
      by the number of all calls; when some calls failed, the reported mean is
      therefore no larger than the mean over the successful orders. */
  lemma CallWaitMeanDilutedByFailedCalls(s: DayStats)
    requires 0 < s.successfulOrders <= s.totalCalls && s.callWaitTotal >= 0
    ensures MakeReport(s).calls.Calls?
    ensures MakeReport(s).calls.callWaitMean <= CDiv(s.callWaitTotal, s.successfulOrders)
  {
    var t, n, c := s.callWaitTotal, s.totalCalls, s.successfulOrders;
    QuotientAntitone(t, n, c, CDiv(t, n), CDiv(t, c));
  }
}
