/** Delay injection (App.js `createDisruption`). */
module Disruption {
  import opened Trains
  import Metrics
  import TickEngine

  /** With a non-empty id and a positive number of minutes, every train
      carrying that id gains the minutes and becomes delayed; anything else
      is a no-op. Position, speed and all other trains are left alone. */
  function CreateDisruption(ts: seq<Train>, trainId: string, minutes: int): (r: seq<Train>)
    ensures |r| == |ts|
    ensures trainId == "" || minutes <= 0 ==> r == ts
    ensures trainId !in Ids(ts) ==> r == ts
    ensures forall i :: 0 <= i < |ts| && ts[i].id != trainId ==> r[i] == ts[i]
    ensures trainId != "" && minutes > 0 ==>
      forall i :: 0 <= i < |ts| && ts[i].id == trainId ==>
        r[i] == ts[i].(delay := ts[i].delay + minutes, status := Delayed)
  {
    if trainId != "" && minutes > 0 then Delay(ts, trainId, minutes) else ts
  }

  /** The per-train update of a valid disruption, mapped over the list. */
  function Delay(ts: seq<Train>, trainId: string, minutes: int): (r: seq<Train>)
    ensures |r| == |ts|
    ensures forall i :: 0 <= i < |ts| ==>
      r[i] == if ts[i].id == trainId then ts[i].(delay := ts[i].delay + minutes, status := Delayed) else ts[i]
  {
    if |ts| == 0 then []
    else
      var t := ts[0];
      [if t.id == trainId then t.(delay := t.delay + minutes, status := Delayed) else t]
        + Delay(ts[1..], trainId, minutes)
  }

  /** A disruption keeps the invariant and only grows delays. */
  lemma DisruptionKeepsWellFormed(ts: seq<Train>, trainId: string, minutes: int)
    requires WellFormed(ts)
    ensures var r := CreateDisruption(ts, trainId, minutes);
      WellFormed(r) && Evolves(ts, r)
  {
  }

  /** With unique ids, disrupting a known train raises the network's total
      delay by exactly the injected minutes. */
  lemma DisruptionAddsExactly(ts: seq<Train>, k: nat, minutes: int)
    requires UniqueIds(ts) && k < |ts| && ts[k].id != "" && minutes > 0
    ensures Metrics.DelaySum(CreateDisruption(ts, ts[k].id, minutes)) == Metrics.DelaySum(ts) + minutes
  {
    var r := CreateDisruption(ts, ts[k].id, minutes);
    Metrics.DelaySumUpdate(ts, r, k);
  }

  /** The disrupted train is delayed, so however many ticks follow it
      stays exactly as the disruption left it. */
  lemma DisruptedTrainStops(ts: seq<Train>, k: nat, minutes: int, n: nat)
    requires k < |ts| && ts[k].id != "" && minutes > 0
    ensures var r := CreateDisruption(ts, ts[k].id, minutes);
      TickEngine.Ticks(r, n)[k] == r[k]
  {
    TickEngine.StoppedTrainStays(CreateDisruption(ts, ts[k].id, minutes), n, k);
  }
}
