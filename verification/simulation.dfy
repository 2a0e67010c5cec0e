/** The component's state and the operator-visible transitions on it: the
    timer tick, requesting, accepting and rejecting a recommendation, and
    injecting a disruption. */
module Simulation {
  import opened Wrappers
  import opened Trains
  import TickEngine
  import Metrics
  import Arbitration
  import Disruption

  datatype State = State(
    time: nat,
    trains: seq<Train>,
    pending: Option<Arbitration.Recommendation>,
    kpis: Metrics.Kpis)

  /** The state once the initial train list has been loaded. */
  function Initial(): State {
    State(0, InitialTrains(), None, Metrics.InitialKpis)
  }

  /** What every transition keeps: well-formed trains, a non-negative
      counter of averted conflicts, and a throughput figure that matches the
      trains. */
  predicate Inv(s: State) {
    && WellFormed(s.trains)
    && s.kpis.conflictsAverted >= 0
    && s.kpis.totalThroughput == Metrics.ArrivedCount(s.trains)
  }

  /** Throughput depends on positions and targets only. */
  lemma SamePositionsSameThroughput(a: seq<Train>, b: seq<Train>)
    requires |a| == |b|
    requires forall i :: 0 <= i < |a| ==>
      a[i].position == b[i].position && a[i].targetPosition == b[i].targetPosition
    ensures Metrics.ArrivedCount(a) == Metrics.ArrivedCount(b)
  {
    Metrics.ArrivedCountMonotone(a, b);
    Metrics.ArrivedCountMonotone(b, a);
  }

  /** One timer tick: the clock advances, trains move, indicators are
      recomputed from the moved trains. Nothing else changes. */
  function Tick(s: State): (r: State)
    ensures r.time == s.time + 1
    ensures r.pending == s.pending
    ensures r.kpis.conflictsAverted == s.kpis.conflictsAverted
    ensures |r.trains| == |s.trains|
    ensures forall i :: 0 <= i < |s.trains| ==> r.trains[i] == s.trains[i].(position := r.trains[i].position)
    ensures r.kpis.totalThroughput == Metrics.ArrivedCount(r.trains) >= Metrics.ArrivedCount(s.trains)
    ensures r.trains == TickEngine.UpdateTrainPositions(s.trains)
    ensures r.kpis == Metrics.UpdateKpis(s.kpis, r.trains)
    ensures s.kpis.totalThroughput == Metrics.ArrivedCount(s.trains) ==>
      s.kpis.totalThroughput <= r.kpis.totalThroughput
  {
    var moved := TickEngine.UpdateTrainPositions(s.trains);
    Metrics.TickThroughputNonDecreasing(s.trains);
    s.(time := s.time + 1, trains := moved, kpis := Metrics.UpdateKpis(s.kpis, moved))
  }

  /** Requesting a recommendation: a no-op while one is pending or when the
      source would throw; otherwise the new recommendation becomes pending
      and nothing else changes. */
  function Generate(s: State, d: Arbitration.Draws): (r: State)
    requires Arbitration.ValidDraws(d)
    ensures s.pending.Some? || |s.trains| == 0 ==> r == s
    ensures s.pending.None? && |s.trains| > 0 ==>
      r == s.(pending := Some(Arbitration.GetOptimalRecommendation(s.trains, d).value))
  {
    if s.pending.Some? then s
    else
      match Arbitration.GetOptimalRecommendation(s.trains, d)
      case Ok(rec) => s.(pending := Some(rec))
      case Err(_) => s
  }

  /** Accepting the pending recommendation applies it, counts one more
      averted conflict (whichever branch produced it) and clears it. With
      nothing pending there is nothing to accept. */
  function Accept(s: State): (r: State)
    ensures s.pending.None? ==> r == s
    ensures s.pending.Some? ==>
      && r.pending.None?
      && r.kpis == s.kpis.(conflictsAverted := s.kpis.conflictsAverted + 1)
      && r.time == s.time
      && r.trains == Arbitration.ApplyRecommendation(s.trains, s.pending.value)
  {
    match s.pending
    case None => s
    case Some(rec) =>
      State(s.time, Arbitration.ApplyRecommendation(s.trains, rec), None,
            s.kpis.(conflictsAverted := s.kpis.conflictsAverted + 1))
  }

  /** Rejecting discards the pending recommendation and nothing else. */
  function Reject(s: State): (r: State)
    ensures r.pending.None?
    ensures r.(pending := s.pending) == s
  {
    s.(pending := None)
  }

  /** Injecting a disruption changes only the trains. */
  function Disrupt(s: State, trainId: string, minutes: int): (r: State)
    ensures r == s.(trains := r.trains)
    ensures r.trains == Disruption.CreateDisruption(s.trains, trainId, minutes)
  {
    s.(trains := Disruption.CreateDisruption(s.trains, trainId, minutes))
  }

  datatype Event =
    | TimerTick
    | RequestRecommendation(draws: Arbitration.Draws)
    | AcceptRecommendation
    | RejectRecommendation
    | InjectDisruption(trainId: string, minutes: int)

  predicate ValidEvent(e: Event) {
    e.RequestRecommendation? ==> Arbitration.ValidDraws(e.draws)
  }

  function Step(s: State, e: Event): State
    requires ValidEvent(e)
  {
    match e
    case TimerTick => Tick(s)
    case RequestRecommendation(d) => Generate(s, d)
    case AcceptRecommendation => Accept(s)
    case RejectRecommendation => Reject(s)
    case InjectDisruption(id, m) => Disrupt(s, id, m)
  }

  function Run(s: State, es: seq<Event>): State
    requires forall i :: 0 <= i < |es| ==> ValidEvent(es[i])
    decreases |es|
  {
    if |es| == 0 then s else Run(Step(s, es[0]), es[1..])
  }

  /** Every transition keeps the invariant, keeps the train roster, never
      lowers a delay, the clock or the averted-conflicts counter. */
  lemma StepKeepsInv(s: State, e: Event)
    requires ValidEvent(e) && Inv(s)
    ensures var r := Step(s, e);
      && Inv(r)
      && Evolves(s.trains, r.trains)
      && s.time <= r.time
      && s.kpis.conflictsAverted <= r.kpis.conflictsAverted
  {
    match e
    case TimerTick => TickEngine.TickKeepsWellFormed(s.trains);
    case RequestRecommendation(d) =>
    case AcceptRecommendation =>
      if s.pending.Some? {
        Arbitration.ApplyKeepsWellFormed(s.trains, s.pending.value);
        SamePositionsSameThroughput(s.trains, Step(s, e).trains);
      }
    case RejectRecommendation =>
    case InjectDisruption(id, m) =>
      Disruption.DisruptionKeepsWellFormed(s.trains, id, m);
      SamePositionsSameThroughput(s.trains, Step(s, e).trains);
  }

  /** The same holds along any sequence of operator and timer events. */
  lemma {:induction false} RunKeepsInv(s: State, es: seq<Event>)
    requires forall i :: 0 <= i < |es| ==> ValidEvent(es[i])
    requires Inv(s)
    ensures var r := Run(s, es);
      && Inv(r)
      && Evolves(s.trains, r.trains)
      && s.time <= r.time
      && s.kpis.conflictsAverted <= r.kpis.conflictsAverted
    decreases |es|
  {
    if |es| > 0 {
      var s' := Step(s, es[0]);
      StepKeepsInv(s, es[0]);
      RunKeepsInv(s', es[1..]);
      EvolvesTransitive(s.trains, s'.trains, Run(s', es[1..]).trains);
    }
  }

  /** Rejecting right after accepting changes nothing more. */
  lemma RejectAfterAccept(s: State)
    ensures Reject(Accept(s)) == Accept(s)
  {
  }

  /** The initial state satisfies the invariant, so every reachable state does. */
  lemma ReachableKeepsInv(es: seq<Event>)
    requires forall i :: 0 <= i < |es| ==> ValidEvent(es[i])
    ensures Inv(Run(Initial(), es))
  {
    InitialTrainsWellFormed();
    RunKeepsInv(Initial(), es);
  }
}
