/** Junction-conflict detection, the recommendation it produces, and how an
    accepted recommendation changes the trains (App.js
    `getOptimalRecommendation` and the train update of `acceptRecommendation`). */
module Arbitration {
  import opened Wrappers
  import opened Trains
  import Decimal
  import Metrics

  /** Trains to let through and trains to stop, with a rationale and
      estimates for display. */
  datatype Recommendation = Recommendation(
    proceed: seq<string>,
    halt: seq<string>,
    reason: string,
    projectedDelaySaved: int,
    confidence: real)

  /** The successive `Math.random()` results one request consumes, in call
      order; each lies in [0, 1). The conflict branch uses only the first. */
  datatype Draws = Draws(first: real, second: real, third: real)

  predicate ValidDraws(d: Draws) {
    && 0.0 <= d.first < 1.0
    && 0.0 <= d.second < 1.0
    && 0.0 <= d.third < 1.0
  }

  /** The source reads `trains[0].id` of an empty list here and throws. */
  datatype GenerateError = NoTrains

  const JunctionTrack: int := 1
  const JunctionLow: real := 70.0
  const JunctionHigh: real := 85.0
  const ConflictConfidence: real := 0.87
  const AdvisoryConfidence: real := 0.92

  /** On track 1, strictly inside the junction approach zone (70, 85). */
  predicate InJunctionZone(t: Train) {
    t.track == JunctionTrack && JunctionLow < t.position < JunctionHigh
  }

  /** The contention set: the trains in the junction zone, in list order. */
  function Contenders(ts: seq<Train>): (cs: seq<Train>)
    ensures |cs| <= |ts|
    ensures forall t :: t in cs <==> t in ts && InJunctionZone(t)
  {
    if |ts| == 0 then []
    else (if InJunctionZone(ts[0]) then [ts[0]] else []) + Contenders(ts[1..])
  }

  /** Detection distributes over concatenation, so it keeps list order. */
  lemma {:induction false} ContendersAppend(a: seq<Train>, b: seq<Train>)
    ensures Contenders(a + b) == Contenders(a) + Contenders(b)
  {
    if |a| == 0 {
      assert a + b == b;
    } else {
      assert (a + b)[0] == a[0];
      assert (a + b)[1..] == a[1..] + b;
      ContendersAppend(a[1..], b);
    }
  }

  /** Position of the winner chosen by a left fold over the contenders that
      keeps the accumulator only when its priority is strictly greater than
      the next contender's: a contender of maximal priority, and the last
      such contender in list order. */
  function WinnerIndex(cs: seq<Train>): (k: nat)
    requires |cs| > 0
    ensures k < |cs|
    ensures forall j :: 0 <= j < |cs| ==> cs[j].priority <= cs[k].priority
    ensures forall j :: k < j < |cs| ==> cs[j].priority < cs[k].priority
  {
    if |cs| == 1 then 0
    else
      var k := WinnerIndex(cs[..|cs| - 1]);
      if cs[k].priority > cs[|cs| - 1].priority then k else |cs| - 1
  }

  /** The winner is determined by its contract: the last maximal-priority
      contender and no other index. */
  lemma WinnerIsLastMaximal(cs: seq<Train>, k: nat)
    requires k < |cs|
    requires forall j :: 0 <= j < |cs| ==> cs[j].priority <= cs[k].priority
    requires forall j :: k < j < |cs| ==> cs[j].priority < cs[k].priority
    ensures k == WinnerIndex(cs)
  {
    var w := WinnerIndex(cs);
    assert cs[w].priority <= cs[k].priority && cs[k].priority <= cs[w].priority;
  }

  /** Ids of the contenders whose id differs from the winner's, in order. */
  function HaltIds(cs: seq<Train>, winner: string): (h: seq<string>)
    ensures |h| <= |cs|
    ensures forall x :: x in h <==> x in Ids(cs) && x != winner
  {
    if |cs| == 0 then []
    else (if cs[0].id != winner then [cs[0].id] else []) + HaltIds(cs[1..], winner)
  }

  /** With unique ids exactly one contender, the winner, is left out. */
  lemma {:induction false} HaltIdsCount(cs: seq<Train>, k: nat)
    requires UniqueIds(cs) && k < |cs|
    ensures |HaltIds(cs, cs[k].id)| == |cs| - 1
  {
    if k == 0 {
      assert cs[0].id !in Ids(cs[1..]);
      HaltIdsAll(cs[1..], cs[0].id);
    } else {
      assert cs[0].id != cs[k].id;
      assert cs[1..][k - 1] == cs[k];
      HaltIdsCount(cs[1..], k - 1);
    }
  }

  /** No contender carries the excluded id, so none is left out. */
  lemma {:induction false} HaltIdsAll(cs: seq<Train>, winner: string)
    requires winner !in Ids(cs)
    ensures |HaltIds(cs, winner)| == |cs|
  {
    if |cs| > 0 {
      assert Ids(cs)[0] == cs[0].id;
      assert Ids(cs[1..]) == Ids(cs)[1..];
      HaltIdsAll(cs[1..], winner);
    }
  }

  /** `Math.floor(u * n)`: a uniform pick of a list index. */
  function ChooseIndex(u: real, n: nat): (k: int)
    requires 0.0 <= u < 1.0 && n > 0
    ensures 0 <= k < n
  {
    var x := u * n as real;
    ScaledBelow(u, n as real);
    FloorBelow(x, n);
    x.Floor
  }

  /** Scaling by a factor in [0, 1) keeps a positive bound strict. */
  lemma ScaledBelow(u: real, m: real)
    requires 0.0 <= u < 1.0 && m > 0.0
    ensures 0.0 <= u * m < m
  {
    var v := 1.0 - u;
    assert v > 0.0;
    assert v * m > 0.0;
    assert m - u * m == v * m;
  }

  lemma FloorBelow(x: real, n: int)
    requires 0.0 <= x < n as real
    ensures 0 <= x.Floor < n
  {
  }

  /** `Math.round(u * 10 + 5)`: the conflict branch's delay-saved estimate. */
  function ConflictDelaySaved(u: real): (m: int)
    requires 0.0 <= u < 1.0
    ensures 5 <= m <= 15
  {
    Metrics.Round(u * 10.0 + 5.0)
  }

  /** `Math.round(u * 8 + 2)`: the advisory branch's delay-saved estimate. */
  function AdvisoryDelaySaved(u: real): (m: int)
    requires 0.0 <= u < 1.0
    ensures 2 <= m <= 10
  {
    Metrics.Round(u * 8.0 + 2.0)
  }

  function ConflictReason(w: Train): string {
    "Prioritizing " + w.name + " (Priority: " + Decimal.IntToString(w.priority)
      + ") to minimize junction congestion and reduce total network delay."
  }

  function AdvisoryReason(t: Train): string {
    "Current traffic flow is optimal. Suggested minor adjustment to " + t.name
      + " to maintain efficiency."
  }

  /** The conflict branch: the winner proceeds, the other contenders halt. */
  function ConflictRecommendation(cs: seq<Train>, u: real): (r: Recommendation)
    requires |cs| > 1 && 0.0 <= u < 1.0
    ensures r.proceed == [cs[WinnerIndex(cs)].id]
    ensures forall t :: t in cs ==> t.priority <= cs[WinnerIndex(cs)].priority
    ensures forall x :: x in r.halt <==> x in Ids(cs) && x != cs[WinnerIndex(cs)].id
    ensures r.confidence == ConflictConfidence
    ensures 5 <= r.projectedDelaySaved <= 15
  {
    var w := cs[WinnerIndex(cs)];
    Recommendation([w.id], HaltIds(cs, w.id), ConflictReason(w),
                   ConflictDelaySaved(u), ConflictConfidence)
  }

  /** The no-conflict branch: one drawn train is told to proceed or to halt. */
  function AdvisoryRecommendation(ts: seq<Train>, d: Draws): (r: Recommendation)
    requires |ts| > 0 && ValidDraws(d)
    ensures var t := ts[ChooseIndex(d.first, |ts|)];
      && (d.second > 0.5 ==> r.proceed == [t.id] && r.halt == [])
      && (d.second <= 0.5 ==> r.proceed == [] && r.halt == [t.id])
    ensures r.confidence == AdvisoryConfidence
    ensures 2 <= r.projectedDelaySaved <= 10
  {
    var t := ts[ChooseIndex(d.first, |ts|)];
    var proceed := d.second > 0.5;
    Recommendation(if proceed then [t.id] else [],
                   if proceed then [] else [t.id],
                   AdvisoryReason(t),
                   AdvisoryDelaySaved(d.third), AdvisoryConfidence)
  }

  /** Builds the recommendation. With two or more contenders the winner
      proceeds and every other contender halts; otherwise one train, picked
      by the first draw, is told to proceed (second draw above 0.5) or halt. */
  function GetOptimalRecommendation(ts: seq<Train>, d: Draws): (r: Result<Recommendation, GenerateError>)
    requires ValidDraws(d)
    ensures r.Err? <==> |ts| == 0
    ensures var cs := Contenders(ts);
      |cs| > 1 ==>
        && r.Ok?
        && r.value.proceed == [cs[WinnerIndex(cs)].id]
        && (forall t :: t in cs ==> t.priority <= cs[WinnerIndex(cs)].priority)
        && (forall x :: x in r.value.halt <==> x in Ids(cs) && x != cs[WinnerIndex(cs)].id)
        && r.value.confidence == ConflictConfidence
        && 5 <= r.value.projectedDelaySaved <= 15
    ensures |Contenders(ts)| <= 1 && |ts| > 0 ==>
      && r.Ok?
      && var t := ts[ChooseIndex(d.first, |ts|)];
         && (d.second > 0.5 ==> r.value.proceed == [t.id] && r.value.halt == [])
         && (d.second <= 0.5 ==> r.value.proceed == [] && r.value.halt == [t.id])
         && r.value.confidence == AdvisoryConfidence
         && 2 <= r.value.projectedDelaySaved <= 10
  {
    var cs := Contenders(ts);
    if |cs| > 1 then Ok(ConflictRecommendation(cs, d.first))
    else if |ts| == 0 then Err(NoTrains)
    else Ok(AdvisoryRecommendation(ts, d))
  }

  /** In a real conflict with unique ids the recommendation splits the
      contention set: one winner proceeds, the others halt, no id is on both
      lists, and together they are exactly the contenders' ids. */
  lemma ConflictPartition(ts: seq<Train>, d: Draws)
    requires ValidDraws(d) && UniqueIds(ts) && |Contenders(ts)| > 1
    ensures var cs := Contenders(ts);
      var r := GetOptimalRecommendation(ts, d).value;
      && |r.proceed| == 1
      && |r.halt| == |cs| - 1
      && (forall x :: x in r.proceed ==> x !in r.halt)
      && (forall x :: x in Ids(cs) <==> x in r.proceed || x in r.halt)
  {
    var cs := Contenders(ts);
    ContendersUnique(ts);
    HaltIdsCount(cs, WinnerIndex(cs));
  }

  /** Contenders are drawn from the trains, so they inherit unique ids. */
  lemma {:induction false} ContendersUnique(ts: seq<Train>)
    requires UniqueIds(ts)
    ensures UniqueIds(Contenders(ts))
  {
    if |ts| > 0 {
      ContendersUnique(ts[1..]);
      var rest := Contenders(ts[1..]);
      if InJunctionZone(ts[0]) {
        forall j | 0 <= j < |rest|
          ensures rest[j].id != ts[0].id
        {
          assert rest[j] in ts[1..];
        }
      }
    }
  }

  /** What accepting does to one train: a halted id stops it (halt is
      checked first), a proceed id sets it moving 20% faster, any other train
      is left alone. Only status and speed ever change. */
  function ApplyToTrain(t: Train, rec: Recommendation): (r: Train)
    ensures r == t.(status := r.status, speed := r.speed)
    ensures t.id in rec.halt ==> r.status == Halted && r.speed == 0.0
    ensures t.id !in rec.halt && t.id in rec.proceed ==>
      r.status == Moving && r.speed == t.speed * 1.2
    ensures t.id !in rec.halt && t.id !in rec.proceed ==> r == t
  {
    if t.id in rec.halt then t.(status := Halted, speed := 0.0)
    else if t.id in rec.proceed then t.(status := Moving, speed := t.speed * 1.2)
    else t
  }

  /** Accepting maps every train on its own, keeping length and order. */
  function ApplyRecommendation(ts: seq<Train>, rec: Recommendation): (r: seq<Train>)
    ensures |r| == |ts|
    ensures forall i :: 0 <= i < |ts| ==> r[i] == ApplyToTrain(ts[i], rec)
  {
    if |ts| == 0 then [] else [ApplyToTrain(ts[0], rec)] + ApplyRecommendation(ts[1..], rec)
  }

  /** Accepting keeps the invariant and touches only status and speed. */
  lemma ApplyKeepsWellFormed(ts: seq<Train>, rec: Recommendation)
    requires WellFormed(ts)
    ensures var r := ApplyRecommendation(ts, rec);
      && WellFormed(r)
      && Evolves(ts, r)
      && forall i :: 0 <= i < |ts| ==> r[i].position == ts[i].position && r[i].delay == ts[i].delay
  {
  }

  /** With unique ids a train's id is among the contenders' ids exactly
      when the train itself is in the junction zone. */
  lemma ContenderIds(ts: seq<Train>, i: nat)
    requires UniqueIds(ts) && i < |ts|
    ensures ts[i].id in Ids(Contenders(ts)) <==> InJunctionZone(ts[i])
  {
    var cs := Contenders(ts);
    if InJunctionZone(ts[i]) {
      assert ts[i] in cs;
      var j :| 0 <= j < |cs| && cs[j] == ts[i];
      assert Ids(cs)[j] == ts[i].id;
    }
    if ts[i].id in Ids(cs) {
      var j :| 0 <= j < |cs| && Ids(cs)[j] == ts[i].id;
      assert cs[j] in ts;
      var b :| 0 <= b < |ts| && ts[b] == cs[j];
      assert b == i;
    }
  }

  /** Accepting a conflict recommendation resolves the conflict: the
      winning contender moves, every other contender is halted with speed 0,
      and every train outside the junction zone is untouched. */
  lemma AcceptResolvesConflict(ts: seq<Train>, d: Draws, i: nat)
    requires ValidDraws(d) && UniqueIds(ts) && |Contenders(ts)| > 1 && i < |ts|
    ensures var cs := Contenders(ts);
      var w := cs[WinnerIndex(cs)];
      var r := ApplyRecommendation(ts, GetOptimalRecommendation(ts, d).value);
      && (ts[i] == w ==> r[i].status == Moving && r[i].speed == w.speed * 1.2)
      && (InJunctionZone(ts[i]) && ts[i] != w ==> r[i].status == Halted && r[i].speed == 0.0)
      && (!InJunctionZone(ts[i]) ==> r[i] == ts[i])
  {
    var cs := Contenders(ts);
    var w := cs[WinnerIndex(cs)];
    var rec := GetOptimalRecommendation(ts, d).value;
    var r := ApplyRecommendation(ts, rec);
    assert r[i] == ApplyToTrain(ts[i], rec);
    assert w in cs;
    ContenderIds(ts, i);
    if ts[i] == w {
      assert w.id !in rec.halt && w.id in rec.proceed;
    } else {
      var a :| 0 <= a < |ts| && ts[a] == w;
      assert a != i && ts[i].id != w.id;
      assert ts[i].id !in rec.proceed;
      if InJunctionZone(ts[i]) {
        assert ts[i].id in rec.halt;
      } else {
        assert ts[i].id !in rec.halt;
      }
    }
  }
}
