/** The key performance indicators (App.js `updateKPIs`). */
module Metrics {
  import opened Wrappers
  import opened Trains
  import TickEngine

  /** `averageDelay` is `None` where the source computes `NaN`. */
  datatype Kpis = Kpis(
    totalThroughput: int,
    averageDelay: Option<int>,
    conflictsAverted: int,
    efficiencyScore: int)

  const InitialKpis: Kpis := Kpis(0, Some(0), 0, 95)

  /** Floor efficiency score. */
  const EfficiencyFloor: int := 85

  /** `Math.round`: the nearest integer, halves rounded up. */
  function Round(x: real): (r: int)
    ensures r as real - 0.5 <= x < r as real + 0.5
  {
    (x + 0.5).Floor
  }

  /** Number of trains at or beyond their target. */
  function ArrivedCount(ts: seq<Train>): (n: nat)
    ensures n <= |ts|
    ensures n == |ts| <==> forall i :: 0 <= i < |ts| ==> Arrived(ts[i])
    ensures n == 0 <==> forall i :: 0 <= i < |ts| ==> !Arrived(ts[i])
  {
    if |ts| == 0 then 0
    else ArrivedCount(ts[..|ts| - 1]) + (if Arrived(ts[|ts| - 1]) then 1 else 0)
  }

  /** Total accumulated delay. */
  function DelaySum(ts: seq<Train>): (s: int)
    ensures (forall i :: 0 <= i < |ts| ==> ts[i].delay >= 0) ==> s >= 0
  {
    if |ts| == 0 then 0 else DelaySum(ts[..|ts| - 1]) + ts[|ts| - 1].delay
  }

  function Max(a: int, b: int): (m: int)
    ensures m >= a && m >= b && (m == a || m == b)
  {
    if a >= b then a else b
  }

  /** Recomputes throughput, average delay and efficiency from a snapshot of
      the trains; the conflicts-averted counter is carried over. */
  function UpdateKpis(prev: Kpis, ts: seq<Train>): (r: Kpis)
    ensures r.conflictsAverted == prev.conflictsAverted
    ensures r.totalThroughput == ArrivedCount(ts)
    ensures r.averageDelay.None? <==> |ts| == 0
    ensures r.averageDelay.Some? ==>
      r.averageDelay.value as real - 0.5 <= DelaySum(ts) as real / |ts| as real
                                          < r.averageDelay.value as real + 0.5
    ensures r.efficiencyScore >= EfficiencyFloor
    ensures r.efficiencyScore >= 100 - DelaySum(ts)
    ensures r.efficiencyScore == EfficiencyFloor || r.efficiencyScore == 100 - DelaySum(ts)
  {
    var total := DelaySum(ts);
    prev.(totalThroughput := ArrivedCount(ts),
          averageDelay := if |ts| == 0 then None else Some(Round(total as real / |ts| as real)),
          efficiencyScore := Max(EfficiencyFloor, 100 - total))
  }

  /** With well-formed trains every indicator stays in its display range. */
  lemma KpisInRange(prev: Kpis, ts: seq<Train>)
    requires forall i :: 0 <= i < |ts| ==> ts[i].delay >= 0
    ensures var r := UpdateKpis(prev, ts);
      && 0 <= r.totalThroughput <= |ts|
      && EfficiencyFloor <= r.efficiencyScore <= 100
      && (r.averageDelay.Some? ==> r.averageDelay.value >= 0)
  {
    if |ts| > 0 {
      QuotientNonNegative(DelaySum(ts) as real, |ts| as real);
    }
  }

  lemma QuotientNonNegative(a: real, b: real)
    requires a >= 0.0 && b > 0.0
    ensures a / b >= 0.0
  {
    assert (a / b) * b == a;
  }

  /** Throughput counts trains pointwise: if every train that had arrived in
      `a` has arrived in `b`, `b` counts at least as many. */
  lemma {:induction false} ArrivedCountMonotone(a: seq<Train>, b: seq<Train>)
    requires |a| == |b|
    requires forall i :: 0 <= i < |a| ==> Arrived(a[i]) ==> Arrived(b[i])
    ensures ArrivedCount(a) <= ArrivedCount(b)
  {
    if |a| > 0 {
      ArrivedCountMonotone(a[..|a| - 1], b[..|b| - 1]);
    }
  }

  /** A tick never lowers the throughput figure: arrived trains stay put. */
  lemma TickThroughputNonDecreasing(ts: seq<Train>)
    ensures ArrivedCount(ts) <= ArrivedCount(TickEngine.UpdateTrainPositions(ts))
  {
    ArrivedCountMonotone(ts, TickEngine.UpdateTrainPositions(ts));
  }

  /** Changing one train's delay changes the total by exactly that much. */
  lemma {:induction false} DelaySumUpdate(a: seq<Train>, b: seq<Train>, k: nat)
    requires |a| == |b| && k < |a|
    requires forall i :: 0 <= i < |a| && i != k ==> a[i].delay == b[i].delay
    ensures DelaySum(b) == DelaySum(a) + (b[k].delay - a[k].delay)
  {
    if k < |a| - 1 {
      DelaySumUpdate(a[..|a| - 1], b[..|b| - 1], k);
    } else {
      DelaySumSame(a[..|a| - 1], b[..|b| - 1]);
    }
  }

  /** Equal delays give equal totals. */
  lemma {:induction false} DelaySumSame(a: seq<Train>, b: seq<Train>)
    requires |a| == |b|
    requires forall i :: 0 <= i < |a| ==> a[i].delay == b[i].delay
    ensures DelaySum(a) == DelaySum(b)
  {
    if |a| > 0 {
      DelaySumSame(a[..|a| - 1], b[..|b| - 1]);
    }
  }
}
