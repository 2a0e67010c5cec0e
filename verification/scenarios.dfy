/** Concrete runs of the arbitration and disruption rules on small train
    lists. */
module Scenarios {
  import opened Trains
  import Arbitration
  import Disruption

  /** Two trains inside the junction zone on track 1: the higher priority
      proceeds and the other halts, whatever the random draws. */
  lemma JunctionScenario(d: Arbitration.Draws)
    requires Arbitration.ValidDraws(d)
    ensures var a := Train("A", "Alpha", 9, 72.0, 90.0, 2.0, 0, Moving, 1);
      var b := Train("B", "Beta", 5, 78.0, 95.0, 1.0, 0, Moving, 1);
      var r := Arbitration.GetOptimalRecommendation([a, b], d);
      r.Ok? && r.value.proceed == ["A"] && r.value.halt == ["B"]
  {
    var a := Train("A", "Alpha", 9, 72.0, 90.0, 2.0, 0, Moving, 1);
    var b := Train("B", "Beta", 5, 78.0, 95.0, 1.0, 0, Moving, 1);
    assert [a, b][1..] == [b];
    assert Arbitration.Contenders([a, b]) == [a, b];
    assert Arbitration.WinnerIndex([a, b]) == 0;
    assert Arbitration.HaltIds([a, b], "A") == ["B"];
  }

  /** On equal priorities the later contender in list order proceeds. */
  lemma TieGoesToLater(d: Arbitration.Draws)
    requires Arbitration.ValidDraws(d)
    ensures var a := Train("A", "Alpha", 7, 72.0, 90.0, 2.0, 0, Moving, 1);
      var b := Train("B", "Beta", 7, 78.0, 95.0, 1.0, 0, Moving, 1);
      var r := Arbitration.GetOptimalRecommendation([a, b], d);
      r.Ok? && r.value.proceed == ["B"] && r.value.halt == ["A"]
  {
    var a := Train("A", "Alpha", 7, 72.0, 90.0, 2.0, 0, Moving, 1);
    var b := Train("B", "Beta", 7, 78.0, 95.0, 1.0, 0, Moving, 1);
    assert [a, b][1..] == [b];
    assert Arbitration.Contenders([a, b]) == [a, b];
    assert Arbitration.WinnerIndex([a, b]) == 1;
    assert Arbitration.HaltIds([a, b], "B") == ["A"];
  }

  /** Five minutes on the freight train take its delay from 5 to 10 and
      mark it delayed; a zero-minute disruption or an unknown id is a no-op. */
  lemma FreightDisruption()
    ensures var f := Train("F205", "Freight Train", 3, 30.0, 85.0, 1.0, 5, Moving, 2);
      var ts := Disruption.CreateDisruption([f], "F205", 5);
      && ts == [f.(delay := 10, status := Delayed)]
      && Disruption.CreateDisruption(ts, "F205", 0) == ts
      && Disruption.CreateDisruption(ts, "X999", 5) == ts
  {
    var f := Train("F205", "Freight Train", 3, 30.0, 85.0, 1.0, 5, Moving, 2);
    var ts := Disruption.CreateDisruption([f], "F205", 5);
    assert "X999" !in Ids(ts) by {
      assert Ids(ts) == ["F205"];
    }
  }
}
