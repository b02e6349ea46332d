/** The personal-record details screen: derived figures over one exercise's
    record history, oldest point first. */
module PRDetails {
  import opened Types
  import Seqs
  import Catalog

  /** `Math.max(...weights, 0)`: the best weight in the history, never below 0. */
  function MaxPR(history: seq<PRPoint>): (r: real)
    ensures r >= 0.0
    ensures forall i :: 0 <= i < |history| ==> history[i].weight <= r
    ensures r == 0.0 || exists i :: 0 <= i < |history| && history[i].weight == r
    decreases |history|
  {
    if |history| == 0 then 0.0
    else
      var n := |history| - 1;
      var best := MaxPR(history[..n]);
      assert forall i :: 0 <= i < n ==> history[..n][i] == history[i];
      if history[n].weight > best then history[n].weight else best
  }

  /** Appending a point raises the maximum to that point's weight at most. */
  lemma MaxPRSnoc(history: seq<PRPoint>, p: PRPoint)
    ensures MaxPR(history + [p]) == if p.weight > MaxPR(history) then p.weight else MaxPR(history)
  {
    assert (history + [p])[..|history|] == history;
  }

  /** The first recorded weight, or 0 for an empty history. */
  function StartPR(history: seq<PRPoint>): (r: real)
    ensures |history| > 0 ==> r == history[0].weight
    ensures |history| == 0 ==> r == 0.0
  {
    if |history| > 0 then history[0].weight else 0.0
  }

  /** The total gain shown on the screen; it is never negative. */
  function Gain(history: seq<PRPoint>): (r: real)
    ensures r >= 0.0
    ensures r == 0.0 <==> MaxPR(history) == StartPR(history)
  {
    MaxPR(history) - StartPR(history)
  }

  /** The percentage increase, dividing by the start weight, or by 1 when
      the start weight is 0 (`startPR || 1`). */
  function GainPercent(history: seq<PRPoint>): (r: real)
    ensures r == 0.0 <==> Gain(history) == 0.0
    ensures StartPR(history) >= 0.0 ==> r >= 0.0
    ensures StartPR(history) == 0.0 ==> r == Gain(history) * 100.0
    ensures StartPR(history) != 0.0 ==> r * StartPR(history) == Gain(history) * 100.0
  {
    var start := StartPR(history);
    Gain(history) / (if start == 0.0 then 1.0 else start) * 100.0
  }

  /** The progression chart is drawn only from two points on. */
  predicate ShowsChart(history: seq<PRPoint>)
    ensures ShowsChart(history) <==> |Breakdown(history)| >= 2
  {
    |history| > 1
  }

  /** The session breakdown lists the history newest first. */
  function Breakdown(history: seq<PRPoint>): (r: seq<PRPoint>)
    ensures |r| == |history|
    ensures forall i :: 0 <= i < |history| ==> r[i] == history[|history| - 1 - i]
    ensures |history| > 0 ==> r[0] == history[|history| - 1] && r[|r| - 1] == history[0]
  {
    Seqs.Reverse(history)
  }

  /** Reading the breakdown back to front gives the history in its stored order. */
  lemma BreakdownReversible(history: seq<PRPoint>)
    ensures Seqs.Reverse(Breakdown(history)) == history
  {
    Seqs.ReverseInvolution(history);
  }

  /** The heading: the catalog name of the exercise, or a fixed title when the
      id is unknown or its name is empty. */
  function Title(exerciseId: string): (r: string)
    ensures (forall i :: 0 <= i < |Catalog.Exercises| ==> Catalog.Exercises[i].id != exerciseId) ==>
              r == "Exercise Details"
    ensures Catalog.Find(Catalog.Exercises, exerciseId).Some? && Catalog.Find(Catalog.Exercises, exerciseId).value.name != "" ==>
              r == Catalog.Find(Catalog.Exercises, exerciseId).value.name
    ensures r != ""
  {
    match Catalog.Find(Catalog.Exercises, exerciseId)
    case Some(e) => if e.name != "" then e.name else "Exercise Details"
    case None => "Exercise Details"
  }
}
