/** The dashboard's derived figures: the volume chart over the latest
    sessions, the record cards, and the streak counter. The day label of a
    chart point is a locale formatting of the session date and is a
    parameter. */
module Dashboard {
  import opened Types
  import Catalog

  /** The summed weight times reps of some sets. */
  function SetsVolume(sets: seq<SetEntry>): (r: real)
    ensures |sets| == 1 ==> r == sets[0].weight * sets[0].reps
  {
    if |sets| == 0 then 0.0 else sets[0].weight * sets[0].reps + SetsVolume(sets[1..])
  }

  /** The summed volume of some logs. */
  function LogsVolume(logs: seq<WorkoutLog>): (r: real)
    ensures |logs| == 1 ==> r == SetsVolume(logs[0].sets)
  {
    if |logs| == 0 then 0.0 else SetsVolume(logs[0].sets) + LogsVolume(logs[1..])
  }

  /** The volume of sets taken together is the sum of their volumes. */
  lemma {:induction false} SetsVolumeAppend(a: seq<SetEntry>, b: seq<SetEntry>)
    ensures SetsVolume(a + b) == SetsVolume(a) + SetsVolume(b)
    decreases |a|
  {
    if |a| > 0 {
      assert (a + b)[0] == a[0] && (a + b)[1..] == a[1..] + b;
      SetsVolumeAppend(a[1..], b);
    } else {
      assert a + b == b;
    }
  }

  /** The same for logs: a session's volume adds up log by log. */
  lemma {:induction false} LogsVolumeAppend(a: seq<WorkoutLog>, b: seq<WorkoutLog>)
    ensures LogsVolume(a + b) == LogsVolume(a) + LogsVolume(b)
    decreases |a|
  {
    if |a| > 0 {
      assert (a + b)[1..] == a[1..] + b;
      LogsVolumeAppend(a[1..], b);
    } else {
      assert a + b == b;
    }
  }

  /** Sets with no negative weight or reps lift a volume of at least 0. */
  lemma {:induction false} SetsVolumeNonNegative(sets: seq<SetEntry>)
    requires forall i :: 0 <= i < |sets| ==> sets[i].weight >= 0.0 && sets[i].reps >= 0.0
    ensures SetsVolume(sets) >= 0.0
    decreases |sets|
  {
    if |sets| > 0 {
      SetsVolumeNonNegative(sets[1..]);
    }
  }

  datatype ChartPoint = ChartPoint(name: string, duration: int, volume: real)

  function PointOf(w: WorkoutSession, dayName: string -> string): ChartPoint
  {
    ChartPoint(dayName(w.date), w.duration, LogsVolume(w.logs))
  }

  /** `chartData`: the seven newest sessions (the list is kept newest first),
      oldest of them first. */
  function ChartData(workouts: seq<WorkoutSession>, dayName: string -> string): (r: seq<ChartPoint>)
    ensures |r| == if |workouts| < 7 then |workouts| else 7
    ensures forall i :: 0 <= i < |r| ==> r[i] == PointOf(workouts[|r| - 1 - i], dayName)
    ensures |r| > 0 ==> r[|r| - 1] == PointOf(workouts[0], dayName)
  {
    var n := if |workouts| < 7 then |workouts| else 7;
    seq(n, i requires 0 <= i < n => PointOf(workouts[n - 1 - i], dayName))
  }

  /** Saving a session moves it to the right end of the chart and drops the
      oldest point once seven are shown. */
  lemma ChartAfterSave(workouts: seq<WorkoutSession>, session: WorkoutSession, dayName: string -> string)
    ensures var before := ChartData(workouts, dayName);
            var after := ChartData([session] + workouts, dayName);
            after == (if |before| < 7 then before else before[1..]) + [PointOf(session, dayName)]
  {
    var before := ChartData(workouts, dayName);
    var after := ChartData([session] + workouts, dayName);
    var expected := (if |before| < 7 then before else before[1..]) + [PointOf(session, dayName)];
    assert |after| == |expected|;
    forall i | 0 <= i < |after|
      ensures after[i] == expected[i]
    {
      if i < |after| - 1 {
        ChartShift(workouts, session, dayName, i);
      }
    }
  }

  /** After a save, every point but the last is a point of the chart before:
      the same one while fewer than seven were shown, else the next one. */
  lemma ChartShift(workouts: seq<WorkoutSession>, session: WorkoutSession, dayName: string -> string, i: nat)
    requires i + 1 < |ChartData([session] + workouts, dayName)|
    ensures var before := ChartData(workouts, dayName);
            ChartData([session] + workouts, dayName)[i] == before[if |before| < 7 then i else i + 1]
  {
    if |workouts| < 7 {
      ChartShiftShort(workouts, session, dayName, i);
    } else {
      ChartShiftFull(workouts, session, dayName, i);
    }
  }

  lemma ChartShiftShort(workouts: seq<WorkoutSession>, session: WorkoutSession, dayName: string -> string, i: nat)
    requires |workouts| < 7 && i < |workouts|
    ensures ChartData([session] + workouts, dayName)[i] == ChartData(workouts, dayName)[i]
  {
    var all := [session] + workouts;
    assert all[|workouts| - i] == workouts[|workouts| - 1 - i];
  }

  lemma ChartShiftFull(workouts: seq<WorkoutSession>, session: WorkoutSession, dayName: string -> string, i: nat)
    requires |workouts| >= 7 && i < 6
    ensures ChartData([session] + workouts, dayName)[i] == ChartData(workouts, dayName)[i + 1]
  {
    var all := [session] + workouts;
    assert all[6 - i] == workouts[5 - i];
  }

  /** The label of a record card: the catalog name when it is not empty,
      else `Exercise #<id>`. */
  function DisplayName(id: string): (r: string)
    ensures Catalog.Find(Catalog.Exercises, id).None? ==> r == "Exercise #" + id
    ensures Catalog.Find(Catalog.Exercises, id).Some? && Catalog.Find(Catalog.Exercises, id).value.name != "" ==>
              r == Catalog.Find(Catalog.Exercises, id).value.name
    ensures r != ""
  {
    match Catalog.Find(Catalog.Exercises, id)
    case Some(e) => if e.name != "" then e.name else "Exercise #" + id
    case None => "Exercise #" + id
  }

  datatype RecordCard = RecordCard(id: string, weight: real, name: string)

  /** `order` lists the keys of `records` once each, in the order
      `Object.entries` yields them. */
  ghost predicate IsEntryOrder(records: map<string, real>, order: seq<string>)
  {
    && (forall k :: k in records <==> k in order)
    && (forall i, j :: 0 <= i < j < |order| ==> order[i] != order[j])
  }

  /** `recentPRs`: the first three records in entry order, as cards. */
  function RecentPRs(records: map<string, real>, order: seq<string>): (r: seq<RecordCard>)
    requires IsEntryOrder(records, order)
    ensures |r| == if |order| < 3 then |order| else 3
    ensures forall i :: 0 <= i < |r| ==>
              r[i].id in records && r[i].weight == records[r[i].id] && r[i].name == DisplayName(r[i].id)
    ensures forall i, j :: 0 <= i < j < |r| ==> r[i].id != r[j].id
    ensures forall i :: 0 <= i < |r| ==> r[i].id == order[i]
  {
    var n := if |order| < 3 then |order| else 3;
    seq(n, i requires 0 <= i < n => RecordCard(order[i], records[order[i]], DisplayName(order[i])))
  }

  /** With at most three records, every record has its card. */
  lemma RecentPRsComplete(records: map<string, real>, order: seq<string>)
    requires IsEntryOrder(records, order)
    requires |order| <= 3
    ensures forall k :: k in records ==>
              exists i :: 0 <= i < |RecentPRs(records, order)| && RecentPRs(records, order)[i].id == k
  {
    var r := RecentPRs(records, order);
    forall k | k in records
      ensures exists i :: 0 <= i < |r| && r[i].id == k
    {
      var i :| 0 <= i < |order| && order[i] == k;
      assert r[i].id == k;
    }
  }

  /** `stats?.streak || 0`: the counter shown, and the number the quote is
      requested for; 0 when no stats are loaded. */
  function ShownStreak(stats: Option<UserStats>): (r: int)
    ensures stats.None? ==> r == 0
    ensures stats.Some? ==> r == stats.value.streak
  {
    match stats
    case None => 0
    case Some(s) => s.streak
  }
}
