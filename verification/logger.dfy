/** The session builder: the logs of the session being recorded, the elapsed
    seconds and the rest timer. Ids that the source draws from the clock or
    from a random generator are parameters. One `Tick` is one second of the
    source's one-second intervals. */
module Logger {
  import opened Types
  import Seqs
  import Text

  /** The rest countdown, in seconds, and whether it is running. */
  datatype RestTimer = RestTimer(remaining: int, running: bool)

  datatype Builder = Builder(name: string, logs: seq<WorkoutLog>, elapsed: nat, timer: RestTimer)

  const RestSeconds: int := 90

  /** A fresh builder with the given session name. */
  function Initial(name: string): Builder
  {
    Builder(name, [], 0, RestTimer(0, false))
  }

  /** `addExercise`: appends a log for `ex` with one empty set and no notes. */
  function AddExercise(logs: seq<WorkoutLog>, ex: Exercise, logId: string): (r: seq<WorkoutLog>)
    ensures |r| == |logs| + 1 && r[..|logs|] == logs
    ensures r[|logs|].id == logId && r[|logs|].exerciseId == ex.id && r[|logs|].exerciseName == ex.name
    ensures r[|logs|].sets == [SetEntry("1", 0.0, 0.0, false)] && r[|logs|].notes == ""
  {
    logs + [WorkoutLog(logId, ex.id, ex.name, [SetEntry("1", 0.0, 0.0, false)], "")]
  }

  /** The fields an edit of one set may carry (`Partial<Set>`). */
  datatype SetUpdate = SetUpdate(weight: Option<real>, reps: Option<real>, completed: Option<bool>)

  /** `{ ...s, ...updates }`. */
  function Merge(s: SetEntry, u: SetUpdate): (r: SetEntry)
    ensures r.id == s.id
    ensures r.weight == (if u.weight.Some? then u.weight.value else s.weight)
    ensures r.reps == (if u.reps.Some? then u.reps.value else s.reps)
    ensures r.completed == (if u.completed.Some? then u.completed.value else s.completed)
  {
    SetEntry(
      s.id,
      match u.weight case Some(w) => w case None => s.weight,
      match u.reps case Some(n) => n case None => s.reps,
      match u.completed case Some(c) => c case None => s.completed)
  }

  function UpdateSets(sets: seq<SetEntry>, setId: string, u: SetUpdate): seq<SetEntry>
  {
    seq(|sets|, j requires 0 <= j < |sets| => if sets[j].id == setId then Merge(sets[j], u) else sets[j])
  }

  function UpdateLogs(logs: seq<WorkoutLog>, logId: string, setId: string, u: SetUpdate): seq<WorkoutLog>
  {
    seq(|logs|, i requires 0 <= i < |logs| =>
      if logs[i].id == logId then logs[i].(sets := UpdateSets(logs[i].sets, setId, u)) else logs[i])
  }

  /** The edit marks as completed a matching set that was not completed yet. */
  predicate StartsRest(logs: seq<WorkoutLog>, logId: string, setId: string, u: SetUpdate)
  {
    u.completed == Some(true) &&
    exists i, j :: 0 <= i < |logs| && 0 <= j < |logs[i].sets| &&
                   logs[i].id == logId && logs[i].sets[j].id == setId && !logs[i].sets[j].completed
  }

  /** `updateSet`: merges the edit into the sets with id `setId` of the logs
      with id `logId`, and starts a 90-second rest when it completes one of them. */
  function UpdateSet(b: Builder, logId: string, setId: string, u: SetUpdate): (r: Builder)
    ensures |r.logs| == |b.logs|
    ensures forall i :: 0 <= i < |b.logs| ==>
              && r.logs[i].id == b.logs[i].id
              && r.logs[i].exerciseId == b.logs[i].exerciseId
              && r.logs[i].notes == b.logs[i].notes
              && |r.logs[i].sets| == |b.logs[i].sets|
    ensures forall i :: 0 <= i < |b.logs| && b.logs[i].id != logId ==> r.logs[i] == b.logs[i]
    ensures forall i, j :: 0 <= i < |b.logs| && 0 <= j < |b.logs[i].sets| ==>
              r.logs[i].sets[j] ==
                if b.logs[i].id == logId && b.logs[i].sets[j].id == setId
                then Merge(b.logs[i].sets[j], u) else b.logs[i].sets[j]
    ensures StartsRest(b.logs, logId, setId, u) ==> r.timer == RestTimer(RestSeconds, true)
    ensures !StartsRest(b.logs, logId, setId, u) ==> r.timer == b.timer
    ensures r.name == b.name && r.elapsed == b.elapsed
  {
    b.(logs := UpdateLogs(b.logs, logId, setId, u),
       timer := if StartsRest(b.logs, logId, setId, u) then RestTimer(RestSeconds, true) else b.timer)
  }

  /** Set ids are distinct within each log. */
  predicate DistinctSetIds(logs: seq<WorkoutLog>)
  {
    forall i, j, k :: 0 <= i < |logs| && 0 <= j < k < |logs[i].sets| ==>
      logs[i].sets[j].id != logs[i].sets[k].id
  }

  /** The check button sends `{ completed: !set.completed }`; pressing it
      twice on the same set gives back the logs as they were, when log ids
      are distinct and set ids are distinct within each log. */
  lemma ToggleTwice(b: Builder, i: nat, j: nat)
    requires i < |b.logs| && j < |b.logs[i].sets|
    requires forall x :: 0 <= x < |b.logs| && x != i ==> b.logs[x].id != b.logs[i].id
    requires DistinctSetIds(b.logs)
    ensures var logId := b.logs[i].id;
            var setId := b.logs[i].sets[j].id;
            var once := UpdateSet(b, logId, setId, SetUpdate(None, None, Some(!b.logs[i].sets[j].completed)));
            var twice := UpdateSet(once, logId, setId, SetUpdate(None, None, Some(!once.logs[i].sets[j].completed)));
            twice.logs == b.logs
  {
    var logId := b.logs[i].id;
    var setId := b.logs[i].sets[j].id;
    var c := b.logs[i].sets[j].completed;
    var once := UpdateSet(b, logId, setId, SetUpdate(None, None, Some(!c)));
    assert once.logs[i].sets[j].completed == !c;
    var twice := UpdateSet(once, logId, setId, SetUpdate(None, None, Some(c)));
    forall x | 0 <= x < |b.logs|
      ensures twice.logs[x] == b.logs[x]
    {
      if b.logs[x].id == logId {
        forall y | 0 <= y < |b.logs[x].sets|
          ensures twice.logs[x].sets[y] == b.logs[x].sets[y]
        {
          assert x == i;
          if b.logs[x].sets[y].id == setId {
            assert y == j;
          }
        }
        assert twice.logs[x].sets == b.logs[x].sets;
      }
    }
  }

  /** The "new set" button: appends to each log with id `logId` a set that
      copies the last set's weight and reps (0 when there is none) and is
      not completed. */
  function AddSet(logs: seq<WorkoutLog>, logId: string, setId: string): (r: seq<WorkoutLog>)
    ensures |r| == |logs|
    ensures forall i :: 0 <= i < |logs| && logs[i].id != logId ==> r[i] == logs[i]
    ensures forall i :: 0 <= i < |logs| && logs[i].id == logId ==>
              var old_ := logs[i].sets;
              && r[i] == logs[i].(sets := r[i].sets)
              && |r[i].sets| == |old_| + 1
              && r[i].sets[..|old_|] == old_
              && r[i].sets[|old_|].id == setId
              && !r[i].sets[|old_|].completed
              && r[i].sets[|old_|].weight == (if |old_| > 0 then old_[|old_| - 1].weight else 0.0)
              && r[i].sets[|old_|].reps == (if |old_| > 0 then old_[|old_| - 1].reps else 0.0)
  {
    seq(|logs|, i requires 0 <= i < |logs| =>
      if logs[i].id == logId then logs[i].(sets := logs[i].sets + [NextSet(logs[i].sets, setId)]) else logs[i])
  }

  /** The set the "add set" button appends: a fresh, uncompleted set with
      the weight and reps of the last set, or blank when there is none. */
  function NextSet(sets: seq<SetEntry>, setId: string): (r: SetEntry)
    ensures r.id == setId && !r.completed
    ensures |sets| > 0 ==> r.weight == sets[|sets| - 1].weight && r.reps == sets[|sets| - 1].reps
    ensures |sets| == 0 ==> r.weight == 0.0 && r.reps == 0.0
  {
    if |sets| == 0 then SetEntry(setId, 0.0, 0.0, false)
    else SetEntry(setId, sets[|sets| - 1].weight, sets[|sets| - 1].reps, false)
  }

  /** The delete button of a log. */
  function RemoveLog(logs: seq<WorkoutLog>, logId: string): (r: seq<WorkoutLog>)
    ensures forall l :: l in r <==> l in logs && l.id != logId
    ensures Seqs.IsSubsequence(r, logs)
  {
    Seqs.Filter((l: WorkoutLog) => l.id != logId, logs)
  }

  /** Removing a log just added under a fresh id restores the logs. */
  lemma RemoveUndoesAdd(logs: seq<WorkoutLog>, ex: Exercise, logId: string)
    requires forall i :: 0 <= i < |logs| ==> logs[i].id != logId
    ensures RemoveLog(AddExercise(logs, ex, logId), logId) == logs
  {
    var keep := (l: WorkoutLog) => l.id != logId;
    Seqs.FilterAppend(keep, logs, [AddExercise(logs, ex, logId)[|logs|]]);
    assert AddExercise(logs, ex, logId) == logs + [AddExercise(logs, ex, logId)[|logs|]];
    Seqs.FilterKeepsAll(keep, logs);
  }

  /** The notes editor of a log. */
  function UpdateNotes(logs: seq<WorkoutLog>, logId: string, notes: string): (r: seq<WorkoutLog>)
    ensures |r| == |logs|
    ensures forall i :: 0 <= i < |logs| ==> r[i].(notes := logs[i].notes) == logs[i]
    ensures forall i :: 0 <= i < |logs| && logs[i].id == logId ==> r[i].notes == notes
    ensures forall i :: 0 <= i < |logs| && logs[i].id != logId ==> r[i] == logs[i]
  {
    seq(|logs|, i requires 0 <= i < |logs| => if logs[i].id == logId then logs[i].(notes := notes) else logs[i])
  }

  /** Of two edits of the same notes, the last one wins. */
  lemma UpdateNotesLastWins(logs: seq<WorkoutLog>, logId: string, first: string, second: string)
    ensures UpdateNotes(UpdateNotes(logs, logId, first), logId, second) == UpdateNotes(logs, logId, second)
  {
  }

  /** Writing back the notes a log held undoes an edit of them, when the id
      names that log alone. */
  lemma UpdateNotesUndo(logs: seq<WorkoutLog>, k: nat, notes: string)
    requires k < |logs|
    requires forall i :: 0 <= i < |logs| && i != k ==> logs[i].id != logs[k].id
    ensures UpdateNotes(UpdateNotes(logs, logs[k].id, notes), logs[k].id, logs[k].notes) == logs
  {
  }

  /** `handleSave`: nothing when no log was added; otherwise the session,
      with the elapsed time in whole minutes, rounded down. */
  function Save(b: Builder, id: string, date: string): (r: Option<WorkoutSession>)
    ensures r.None? <==> |b.logs| == 0
    ensures r.Some? ==> r.value.logs == b.logs && r.value.name == b.name && r.value.notes == ""
    ensures r.Some? ==> r.value.id == id && r.value.date == date
    ensures r.Some? ==> r.value.duration >= 0 &&
                        r.value.duration * 60 <= b.elapsed < (r.value.duration + 1) * 60
  {
    if |b.logs| == 0 then None
    else Some(WorkoutSession(id, date, b.name, b.logs, "", b.elapsed / 60))
  }

  /** `formatTime`: minutes, a colon, and the seconds padded to two digits. */
  function FormatTime(seconds: nat): (r: string)
    ensures |r| >= 4 && r[|r| - 3] == ':'
    ensures Text.AllDigits(r[..|r| - 3]) && Text.AllDigits(r[|r| - 2..])
    ensures Text.ParseDigits(r[..|r| - 3]) == seconds / 60
    ensures Text.ParseDigits(r[|r| - 2..]) == seconds % 60
  {
    ClockParts(seconds / 60, seconds % 60);
    Text.NatToString(seconds / 60) + ":" + Text.Pad2(seconds % 60)
  }

  /** The minutes and the seconds sit on either side of the colon. */
  lemma ClockParts(m: nat, s: nat)
    requires s < 60
    ensures var r := Text.NatToString(m) + ":" + Text.Pad2(s);
            && |r| >= 4 && r[|r| - 3] == ':'
            && r[..|r| - 3] == Text.NatToString(m) && r[|r| - 2..] == Text.Pad2(s)
            && Text.ParseDigits(r[..|r| - 3]) == m
  {
    var r := Text.NatToString(m) + ":" + Text.Pad2(s);
    assert r[..|r| - 3] == Text.NatToString(m);
    assert r[|r| - 2..] == Text.Pad2(s);
    Text.NatToStringRoundTrip(m);
  }

  /** Reads a `m:ss` display back into seconds. */
  function ParseTime(t: string): Option<nat>
  {
    if |t| >= 4 && t[|t| - 3] == ':' && Text.AllDigits(t[..|t| - 3]) && Text.AllDigits(t[|t| - 2..])
    then Some(Text.ParseDigits(t[..|t| - 3]) * 60 + Text.ParseDigits(t[|t| - 2..]))
    else None
  }

  /** The display loses nothing: minutes times 60 plus the padded seconds
      give back the seconds shown. */
  lemma FormatTimeRoundTrip(seconds: nat)
    ensures ParseTime(FormatTime(seconds)) == Some(seconds)
  {
    assert (seconds / 60) * 60 + seconds % 60 == seconds;
  }

  /** The timer effect: a countdown at 0 stops running. */
  function Settle(t: RestTimer): (r: RestTimer)
    ensures r.remaining == t.remaining
    ensures t.remaining >= 0 ==> ValidTimer(r)
    ensures t.remaining != 0 ==> r == t
  {
    if t.remaining == 0 then t.(running := false) else t
  }

  /** A countdown never below 0 that runs only while there is time left. */
  predicate ValidTimer(t: RestTimer)
  {
    t.remaining >= 0 && (t.remaining == 0 ==> !t.running)
  }

  /** One second of the rest interval: it counts down only while running
      with time left, and stops at 0. */
  function TimerTick(t: RestTimer): (r: RestTimer)
    requires ValidTimer(t)
    ensures ValidTimer(r)
    ensures t.running ==> r.remaining == t.remaining - 1 && (r.running <==> r.remaining > 0)
    ensures !t.running ==> r == t
  {
    if t.running && t.remaining > 0 then Settle(t.(remaining := t.remaining - 1)) else t
  }

  /** The skip button: sets the countdown to 0, which stops it. */
  function Skip(t: RestTimer): (r: RestTimer)
    ensures r == RestTimer(0, false)
  {
    Settle(t.(remaining := 0))
  }

  function Ticks(t: RestTimer, n: nat): RestTimer
    requires ValidTimer(t)
    decreases n
  {
    if n == 0 then t else Ticks(TimerTick(t), n - 1)
  }

  /** From a fresh start the rest countdown shows 90 - n after n seconds,
      reaches 0 after 90 seconds, stops there and stays there. */
  lemma {:induction false} RestCountdown(start: int, n: nat)
    requires start >= 0
    ensures ValidTimer(Settle(RestTimer(start, true)))
    ensures Ticks(Settle(RestTimer(start, true)), n) ==
              if n < start then RestTimer(start - n, true) else RestTimer(0, false)
    decreases n
  {
    if n > 0 && start > 0 {
      RestCountdown(start - 1, n - 1);
    } else if n > 0 {
      RestCountdown(0, n - 1);
    }
  }

  /** One second of the builder: the session clock and the rest countdown
      both advance. */
  function Tick(b: Builder): (r: Builder)
    requires ValidTimer(b.timer)
    ensures ValidTimer(r.timer)
    ensures r.elapsed == b.elapsed + 1 && r.logs == b.logs && r.name == b.name
    ensures r.timer == TimerTick(b.timer)
  {
    b.(elapsed := b.elapsed + 1, timer := TimerTick(b.timer))
  }

  function TickBuilder(b: Builder, n: nat): Builder
    requires ValidTimer(b.timer)
    decreases n
  {
    if n == 0 then b else TickBuilder(Tick(b), n - 1)
  }

  /** After n seconds of the builder the session clock is n further on, the
      rest countdown has taken n ticks and the logs are as they were. */
  lemma {:induction false} TickBuilderAdvances(b: Builder, n: nat)
    requires ValidTimer(b.timer)
    ensures TickBuilder(b, n).elapsed == b.elapsed + n
    ensures TickBuilder(b, n).timer == Ticks(b.timer, n)
    ensures TickBuilder(b, n).logs == b.logs && TickBuilder(b, n).name == b.name
    decreases n
  {
    if n > 0 {
      TickBuilderAdvances(Tick(b), n - 1);
    }
  }
}
