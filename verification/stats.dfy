/** The daily statistics record (src/o1150174.h:36-46) and the two updates
    the order workers make to it: counting a call (src/o1150174.c:125-129)
    and recording a completed order (src/o1150174.c:221-246). The unsigned
    and `long` counters are unbounded here. */
module Stats {
  import opened Config

  /** The three latencies kept for each completed order. */
  datatype Latency = CallWait | DoorTime | ColdTime

  /** What a completed order reports: its size and its three latencies in
      seconds. The latencies are differences of clock readings and may be
      negative, since the clock is not assumed to be monotonic. */
  datatype Completion = Completion(size: nat, callWait: int, doorTime: int, coldTime: int)
  {
    function Of(l: Latency): int
    {
      match l
      case CallWait => callWait
      case DoorTime => doorTime
      case ColdTime => coldTime
    }
  }

  datatype DayStats = DayStats(
    revenue: nat,
    totalCalls: nat,
    successfulOrders: nat,
    callWaitTotal: int,
    callWaitMax: int,
    doorTimeTotal: int,
    doorTimeMax: int,
    coldTimeTotal: int,
    coldTimeMax: int)
  {
    function Total(l: Latency): int
    {
      match l
      case CallWait => callWaitTotal
      case DoorTime => doorTimeTotal
      case ColdTime => coldTimeTotal
    }

    function Max(l: Latency): int
    {
      match l
      case CallWait => callWaitMax
      case DoorTime => doorTimeMax
      case ColdTime => coldTimeMax
    }
  }

  /** The zero-initialised record the program starts with (src/o1150174.c:3). */
  const Zero: DayStats := DayStats(0, 0, 0, 0, 0, 0, 0, 0, 0)

  /** Counts one incoming call; nothing else changes. */
  function RecordCall(s: DayStats): (r: DayStats)
    ensures r.totalCalls == s.totalCalls + 1
    ensures r.(totalCalls := s.totalCalls) == s
    ensures forall l :: r.Total(l) == s.Total(l) && r.Max(l) == s.Max(l)
  {
    s.(totalCalls := s.totalCalls + 1)
  }

  /** The compare-and-set-if-greater update of a running maximum. */
  function RunningMax(m: int, v: int): (r: int)
    ensures r >= m && r >= v
    ensures r == m || r == v
  {
    if v > m then v else m
  }

  /** Records one completed order: revenue grows by the order's price, the
      success counter by one, each latency total by the latency, and each
      maximum becomes the larger of itself and the latency. The call counter
      is left alone; it was counted when the call came in. */
  function RecordCompletion(s: DayStats, c: Completion): (r: DayStats)
    ensures r.revenue == s.revenue + C_PIZZA * c.size
    ensures r.totalCalls == s.totalCalls
    ensures r.successfulOrders == s.successfulOrders + 1
    ensures forall l :: r.Total(l) == s.Total(l) + c.Of(l)
    ensures forall l :: r.Max(l) >= s.Max(l) && r.Max(l) >= c.Of(l)
    ensures forall l :: r.Max(l) == s.Max(l) || r.Max(l) == c.Of(l)
  {
    DayStats(
      s.revenue + C_PIZZA * c.size,
      s.totalCalls,
      s.successfulOrders + 1,
      s.callWaitTotal + c.callWait,
      RunningMax(s.callWaitMax, c.callWait),
      s.doorTimeTotal + c.doorTime,
      RunningMax(s.doorTimeMax, c.doorTime),
      s.coldTimeTotal + c.coldTime,
      RunningMax(s.coldTimeMax, c.coldTime))
  }

  /** Records a sequence of completions, in order. */
  function RecordAll(s: DayStats, cs: seq<Completion>): DayStats
  {
    if |cs| == 0 then s
    else RecordCompletion(RecordAll(s, cs[..|cs| - 1]), cs[|cs| - 1])
  }

  function Pizzas(cs: seq<Completion>): nat
  {
    if |cs| == 0 then 0 else Pizzas(cs[..|cs| - 1]) + cs[|cs| - 1].size
  }

  function Sum(cs: seq<Completion>, l: Latency): int
  {
    if |cs| == 0 then 0 else Sum(cs[..|cs| - 1], l) + cs[|cs| - 1].Of(l)
  }

  /** After any sequence of completions: the success counter grew by their
      number, the revenue by the price of all their pizzas, each total by the
      sum of its latencies, and each maximum is at least every recorded
      latency of its kind and is either the old maximum or one of them. */
  lemma {:induction false} RecordAllAccumulates(s: DayStats, cs: seq<Completion>)
    ensures RecordAll(s, cs).totalCalls == s.totalCalls
    ensures RecordAll(s, cs).successfulOrders == s.successfulOrders + |cs|
    ensures RecordAll(s, cs).revenue == s.revenue + C_PIZZA * Pizzas(cs)
    ensures forall l :: RecordAll(s, cs).Total(l) == s.Total(l) + Sum(cs, l)
    ensures forall l :: RecordAll(s, cs).Max(l) >= s.Max(l)
    ensures forall l, i :: 0 <= i < |cs| ==> RecordAll(s, cs).Max(l) >= cs[i].Of(l)
    ensures forall l :: RecordAll(s, cs).Max(l) == s.Max(l)
                        || exists i :: 0 <= i < |cs| && RecordAll(s, cs).Max(l) == cs[i].Of(l)
  {
    if |cs| > 0 {
      var front := cs[..|cs| - 1];
      RecordAllAccumulates(s, front);
      var r := RecordAll(s, cs);
      forall l
        ensures r.Max(l) == s.Max(l) || exists i :: 0 <= i < |cs| && r.Max(l) == cs[i].Of(l)
      {
        var prev := RecordAll(s, front);
        if r.Max(l) != cs[|cs| - 1].Of(l) {
          assert r.Max(l) == prev.Max(l);
          if prev.Max(l) != s.Max(l) {
            var i :| 0 <= i < |front| && prev.Max(l) == front[i].Of(l);
            assert cs[i] == front[i];
          }
        }
      }
      forall l, i | 0 <= i < |cs|
        ensures r.Max(l) >= cs[i].Of(l)
      {
        if i < |cs| - 1 {
          assert cs[i] == front[i];
        }
      }
    }
  }

  /** Starting from the zero record, the maxima are never negative: a
      negative latency never replaces the initial zero. */
  lemma {:induction false} MaximaNonNegativeFromZero(cs: seq<Completion>)
    ensures forall l :: RecordAll(Zero, cs).Max(l) >= 0
    ensures RecordAll(Zero, cs).successfulOrders == |cs|
  {
    RecordAllAccumulates(Zero, cs);
    assert forall l :: Zero.Max(l) == 0;
  }
}
