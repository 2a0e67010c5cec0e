/** The train records the simulation works on, and the invariants the
    simulation keeps about them. */
module Trains {

  datatype Status = Moving | Halted | Delayed

  /** One train. Positions lie on a normalised track axis; `speed` is
      position units per tick; `delay` is accumulated minutes. The source's
      `type` and `color` fields are presentation only and are not modelled. */
  datatype Train = Train(
    id: string,
    name: string,
    priority: int,
    position: real,
    targetPosition: real,
    speed: real,
    delay: int,
    status: Status,
    track: int)

  /** The train stands at or beyond its target. */
  predicate Arrived(t: Train) {
    t.position >= t.targetPosition
  }

  /** The ids of a train list, in list order. */
  function Ids(ts: seq<Train>): (r: seq<string>)
    ensures |r| == |ts|
    ensures forall i :: 0 <= i < |ts| ==> r[i] == ts[i].id
  {
    if |ts| == 0 then [] else [ts[0].id] + Ids(ts[1..])
  }

  predicate UniqueIds(ts: seq<Train>) {
    forall i, j :: 0 <= i < j < |ts| ==> ts[i].id != ts[j].id
  }

  /** What every operation keeps true of a single train: speed and delay are
      never negative and the train never stands beyond its target. */
  predicate TrainOk(t: Train) {
    t.speed >= 0.0 && t.delay >= 0 && t.position <= t.targetPosition
  }

  predicate WellFormed(ts: seq<Train>) {
    UniqueIds(ts) && forall i :: 0 <= i < |ts| ==> TrainOk(ts[i])
  }

  /** `b` is `a` after any of the simulation's operations: the same trains in
      the same order, with identity, name, priority, target and track fixed,
      and no position or delay decreased. */
  predicate Evolves(a: seq<Train>, b: seq<Train>) {
    && |a| == |b|
    && forall i :: 0 <= i < |a| ==>
         && b[i].id == a[i].id
         && b[i].name == a[i].name
         && b[i].priority == a[i].priority
         && b[i].targetPosition == a[i].targetPosition
         && b[i].track == a[i].track
         && a[i].position <= b[i].position
         && a[i].delay <= b[i].delay
  }

  /** Replaying one step after another composes. */
  lemma EvolvesTransitive(a: seq<Train>, b: seq<Train>, c: seq<Train>)
    requires Evolves(a, b) && Evolves(b, c)
    ensures Evolves(a, c)
  {
  }

  /** The train list the component starts with. */
  function InitialTrains(): seq<Train> {
    [ Train("R101", "Rajdhani Express", 9, 10.0, 90.0, 2.0, 0, Moving, 1),
      Train("F205", "Freight Train", 3, 30.0, 85.0, 1.0, 5, Moving, 2),
      Train("P302", "Passenger Local", 6, 65.0, 95.0, 1.5, 2, Moving, 1),
      Train("E404", "Express Mail", 8, 45.0, 88.0, 2.2, 0, Moving, 2) ]
  }

  lemma InitialTrainsWellFormed()
    ensures WellFormed(InitialTrains())
  {
  }
}
