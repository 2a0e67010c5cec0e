/** One simulation tick's movement of the trains (App.js
    `updateTrainPositions`). */
module TickEngine {
  import opened Trains

  /** `Math.min` on two positions. */
  function Min(a: real, b: real): (m: real)
    ensures m <= a && m <= b && (m == a || m == b)
  {
    if a <= b then a else b
  }

  /** A moving train short of its target advances by its speed, stopping at
      the target; every other train is returned as it is. */
  function StepTrain(t: Train): (r: Train)
    ensures r == t.(position := r.position)
    ensures t.status != Moving || Arrived(t) ==> r == t
    ensures t.status == Moving && !Arrived(t) ==>
      && r.position <= t.position + t.speed
      && r.position <= t.targetPosition
      && (r.position == t.position + t.speed || r.position == t.targetPosition)
    ensures t.position <= t.targetPosition ==> r.position <= t.targetPosition
    ensures t.speed >= 0.0 ==> t.position <= r.position
  {
    if t.status == Moving && t.position < t.targetPosition then
      t.(position := Min(t.position + t.speed, t.targetPosition))
    else
      t
  }

  /** The tick maps every train on its own, keeping length and order. */
  function UpdateTrainPositions(ts: seq<Train>): (r: seq<Train>)
    ensures |r| == |ts|
    ensures forall i :: 0 <= i < |ts| ==> r[i] == StepTrain(ts[i])
  {
    if |ts| == 0 then [] else [StepTrain(ts[0])] + UpdateTrainPositions(ts[1..])
  }

  /** A tick keeps the per-train invariant, the ids, and every field but
      position; positions never move backwards. */
  lemma TickKeepsWellFormed(ts: seq<Train>)
    requires WellFormed(ts)
    ensures var r := UpdateTrainPositions(ts);
      && WellFormed(r)
      && Evolves(ts, r)
      && forall i :: 0 <= i < |ts| ==>
           && ts[i].position <= r[i].position <= ts[i].targetPosition
           && r[i].delay == ts[i].delay
  {
  }

  /** `k` consecutive ticks. */
  function Ticks(ts: seq<Train>, k: nat): (r: seq<Train>)
    ensures |r| == |ts|
    ensures forall i :: 0 <= i < |ts| ==> r[i] == ts[i].(position := r[i].position)
  {
    if k == 0 then ts else UpdateTrainPositions(Ticks(ts, k - 1))
  }

  /** However many ticks pass, a train that starts within bounds with a
      non-negative speed only moves forward and never passes its target. */
  lemma {:induction false} TicksStayInBounds(ts: seq<Train>, k: nat, i: nat)
    requires i < |ts| && TrainOk(ts[i])
    ensures ts[i].position <= Ticks(ts, k)[i].position <= ts[i].targetPosition
  {
    if k > 0 {
      TicksStayInBounds(ts, k - 1, i);
      var before := Ticks(ts, k - 1);
      var prev := before[i];
      assert prev == ts[i].(position := prev.position);
      assert prev.speed >= 0.0 && prev.position <= prev.targetPosition;
      var next := StepTrain(prev);
      assert prev.position <= next.position <= prev.targetPosition;
      assert Ticks(ts, k) == UpdateTrainPositions(before);
      assert Ticks(ts, k)[i] == next;
    }
  }

  /** A halted or delayed train stays exactly where it is until some other
      operation changes its status. */
  lemma {:induction false} StoppedTrainStays(ts: seq<Train>, k: nat, i: nat)
    requires i < |ts| && ts[i].status != Moving
    ensures Ticks(ts, k)[i] == ts[i]
  {
    if k > 0 {
      StoppedTrainStays(ts, k - 1, i);
    }
  }
}
