/** The workout-save aggregator of the application shell: it folds a saved
    session into the personal records, the record history and the counters,
    and reports the notifications it emits, in order. The fold is purely
    functional: each log sees the records as the previous logs left them. */
module Aggregator {
  import opened Types
  import Seqs

  /** `Math.max(...weights)` over a log's sets. An empty list has no maximum
      (JavaScript yields -Infinity, which is never positive). The completed
      flag of a set plays no part. */
  function MaxWeight(sets: seq<SetEntry>): (m: Option<real>)
    ensures m.None? <==> |sets| == 0
    ensures m.Some? ==> forall i :: 0 <= i < |sets| ==> sets[i].weight <= m.value
    ensures m.Some? ==> exists i :: 0 <= i < |sets| && sets[i].weight == m.value
  {
    if |sets| == 0 then None
    else
      var w := sets[0].weight;
      var rest := MaxWeight(sets[1..]);
      assert forall i :: 1 <= i < |sets| ==> sets[i] == sets[1..][i - 1];
      match rest
      case None => Some(w)
      case Some(t) => Some(if w >= t then w else t)
  }

  /** The weight a log brings to the records: its maximum set weight, when
      that is positive; otherwise the log is ignored. */
  function LoggedMax(log: WorkoutLog): (r: Option<real>)
    ensures r.Some? <==> exists i :: 0 <= i < |log.sets| && log.sets[i].weight > 0.0
    ensures r.Some? ==> r.value > 0.0 && r == MaxWeight(log.sets)
  {
    match MaxWeight(log.sets)
    case Some(m) => if m > 0.0 then Some(m) else None
    case None => None
  }

  function RecordMessage(exerciseName: string): Message
  {
    Message("New Personal Record: " + exerciseName + "!", Success)
  }

  const SavedMessage: Message := Message("Workout saved successfully!", Success)

  /** The records, the history and the notifications emitted so far while
      a session is being folded in. */
  datatype Tally = Tally(records: map<string, real>, history: map<string, seq<PRPoint>>, messages: seq<Message>)

  function HistoryOf(history: map<string, seq<PRPoint>>, id: string): seq<PRPoint>
  {
    if id in history then history[id] else []
  }

  /** The source's test `!newPRs[id] || maxWeight > newPRs[id]`: a missing
      record and a record of 0 are falsy, so both count as beaten. */
  predicate Beats(records: map<string, real>, id: string, m: real)
  {
    id !in records || records[id] == 0.0 || m > records[id]
  }

  /** Folds one log into the tally. */
  function Step(t: Tally, date: string, log: WorkoutLog): (r: Tally)
    ensures LoggedMax(log).None? ==> r == t
    ensures LoggedMax(log).Some? ==> log.exerciseId in r.records && log.exerciseId in r.history
  {
    match LoggedMax(log)
    case None => t
    case Some(m) =>
      var id := log.exerciseId;
      var isRecord := Beats(t.records, id, m);
      Tally(
        if isRecord then t.records[id := m] else t.records,
        t.history[id := HistoryOf(t.history, id) + [PRPoint(date, m)]],
        if isRecord then t.messages + [RecordMessage(log.exerciseName)] else t.messages)
  }

  /** What one log does to the tally: an ignored log changes nothing;
      otherwise its exercise gets a history point and, when the record is
      missing or beaten, a new record and one notification. The source's
      falsy test on a record of 0 coincides with `m > 0` here, as `m` is
      positive. */
  lemma StepSpec(t: Tally, date: string, log: WorkoutLog)
    ensures var r := Step(t, date, log);
      LoggedMax(log).Some? ==>
      var m := LoggedMax(log).value;
      var id := log.exerciseId;
      var improved := id !in t.records || m > t.records[id];
      && r.records.Keys == t.records.Keys + {id}
      && r.records[id] == (if improved then m else t.records[id])
      && (forall k :: k in t.records && k != id ==> r.records[k] == t.records[k])
      && r.history.Keys == t.history.Keys + {id}
      && r.history[id] == HistoryOf(t.history, id) + [PRPoint(date, m)]
      && (forall k :: k in t.history && k != id ==> r.history[k] == t.history[k])
      && r.messages == t.messages + (if improved then [RecordMessage(log.exerciseName)] else [])
  {
  }

  /** What a counted log does to its own exercise. */
  lemma StepOwnKey(t: Tally, date: string, log: WorkoutLog)
    requires LoggedMax(log).Some?
    ensures var r := Step(t, date, log);
            var m := LoggedMax(log).value;
            var id := log.exerciseId;
            && r.history[id] == HistoryOf(t.history, id) + [PRPoint(date, m)]
            && r.records[id] == (if id !in t.records || m > t.records[id] then m else t.records[id])
  {
    StepSpec(t, date, log);
  }

  /** `session.logs.forEach(...)`: the logs folded in, first log first. */
  function Fold(t: Tally, date: string, logs: seq<WorkoutLog>): (r: Tally)
    ensures t.records.Keys <= r.records.Keys && t.history.Keys <= r.history.Keys
    decreases |logs|
  {
    if |logs| == 0 then t
    else
      var n := |logs| - 1;
      var prev := Fold(t, date, logs[..n]);
      StepSpec(prev, date, logs[n]);
      Step(prev, date, logs[n])
  }

  /** The fold adds exactly the exercises the session brings a positive
      weight for, to both maps, and removes none. */
  lemma {:induction false} FoldKeys(t: Tally, date: string, logs: seq<WorkoutLog>)
    ensures var r := Fold(t, date, logs);
            && r.records.Keys == t.records.Keys + Touched(logs)
            && r.history.Keys == t.history.Keys + Touched(logs)
    decreases |logs|
  {
    if |logs| > 0 {
      var n := |logs| - 1;
      FoldKeys(t, date, logs[..n]);
      StepKeys(Fold(t, date, logs[..n]), date, logs[n]);
    }
  }

  lemma StepKeys(t: Tally, date: string, log: WorkoutLog)
    ensures var r := Step(t, date, log);
            r.records.Keys == t.records.Keys + LogKey(log) && r.history.Keys == t.history.Keys + LogKey(log)
  {
    StepSpec(t, date, log);
  }

  /** Records never decrease: every record present before the session is
      present after it, with a weight at least as high. */
  lemma {:induction false} FoldMonotone(t: Tally, date: string, logs: seq<WorkoutLog>)
    ensures var r := Fold(t, date, logs);
            forall k :: k in t.records ==> k in r.records && r.records[k] >= t.records[k]
    decreases |logs|
  {
    if |logs| > 0 {
      var n := |logs| - 1;
      FoldMonotone(t, date, logs[..n]);
      StepSpec(Fold(t, date, logs[..n]), date, logs[n]);
    }
  }

  /** The exercise a log brings a positive weight for, if any. */
  function LogKey(log: WorkoutLog): set<string>
  {
    if LoggedMax(log).Some? then {log.exerciseId} else {}
  }

  /** The exercises whose logs in `logs` have a positive maximum. */
  function Touched(logs: seq<WorkoutLog>): set<string>
    decreases |logs|
  {
    if |logs| == 0 then {} else Touched(logs[..|logs| - 1]) + LogKey(logs[|logs| - 1])
  }

  /** One of `logs` is a log of `k` with a positive maximum. */
  predicate HasPositiveLog(logs: seq<WorkoutLog>, k: string)
  {
    exists i :: 0 <= i < |logs| && LoggedMax(logs[i]).Some? && logs[i].exerciseId == k
  }

  /** An exercise is touched exactly when one of the logs of it has a
      positive maximum. */
  lemma {:induction false} TouchedIff(logs: seq<WorkoutLog>, k: string)
    ensures k in Touched(logs) <==> HasPositiveLog(logs, k)
    decreases |logs|
  {
    if |logs| > 0 {
      var n := |logs| - 1;
      TouchedIff(logs[..n], k);
      HasPositiveLogSnoc(logs, k);
    }
  }

  lemma HasPositiveLogSnoc(logs: seq<WorkoutLog>, k: string)
    requires |logs| > 0
    ensures var n := |logs| - 1;
            HasPositiveLog(logs, k) <==> HasPositiveLog(logs[..n], k) || k in LogKey(logs[n])
  {
    var n := |logs| - 1;
    if HasPositiveLog(logs[..n], k) {
      PositiveLogOfPrefix(logs, k);
    }
    if HasPositiveLog(logs, k) {
      PositiveLogSplit(logs, k);
    }
    if k in LogKey(logs[n]) {
      assert LoggedMax(logs[n]).Some? && logs[n].exerciseId == k;
    }
  }

  lemma PositiveLogOfPrefix(logs: seq<WorkoutLog>, k: string)
    requires |logs| > 0 && HasPositiveLog(logs[..|logs| - 1], k)
    ensures HasPositiveLog(logs, k)
  {
    var n := |logs| - 1;
    var i :| 0 <= i < n && LoggedMax(logs[..n][i]).Some? && logs[..n][i].exerciseId == k;
    assert logs[..n][i] == logs[i];
  }

  lemma PositiveLogSplit(logs: seq<WorkoutLog>, k: string)
    requires |logs| > 0 && HasPositiveLog(logs, k)
    ensures HasPositiveLog(logs[..|logs| - 1], k) || k in LogKey(logs[|logs| - 1])
  {
    var n := |logs| - 1;
    var i :| 0 <= i < |logs| && LoggedMax(logs[i]).Some? && logs[i].exerciseId == k;
    if i < n {
      assert logs[..n][i] == logs[i];
    }
  }

  /** An exercise none of the session's logs brings a positive weight for
      keeps its record and its history exactly. */
  lemma {:induction false} FoldUntouched(t: Tally, date: string, logs: seq<WorkoutLog>, k: string)
    requires k !in Touched(logs)
    ensures var r := Fold(t, date, logs);
            && (k in t.records ==> k in r.records && r.records[k] == t.records[k])
            && (k in t.history ==> k in r.history && r.history[k] == t.history[k])
    decreases |logs|
  {
    if |logs| > 0 {
      var n := |logs| - 1;
      FoldUntouched(t, date, logs[..n], k);
      StepSpec(Fold(t, date, logs[..n]), date, logs[n]);
    }
  }

  /** After the fold, every exercise's record is at least the maximum of
      each of its logs in the session. */
  lemma {:induction false} FoldAtLeastEachLog(t: Tally, date: string, logs: seq<WorkoutLog>)
    ensures var r := Fold(t, date, logs);
            forall i :: 0 <= i < |logs| && LoggedMax(logs[i]).Some? ==>
              logs[i].exerciseId in r.records && r.records[logs[i].exerciseId] >= LoggedMax(logs[i]).value
    decreases |logs|
  {
    if |logs| > 0 {
      var n := |logs| - 1;
      FoldAtLeastEachLog(t, date, logs[..n]);
      var p := Fold(t, date, logs[..n]);
      StepSpec(p, date, logs[n]);
      var r := Fold(t, date, logs);
      forall i | 0 <= i < |logs| && LoggedMax(logs[i]).Some?
        ensures logs[i].exerciseId in r.records && r.records[logs[i].exerciseId] >= LoggedMax(logs[i]).value
      {
        if i < n {
          assert logs[..n][i] == logs[i];
          var k := logs[i].exerciseId;
          assert k in p.records && p.records[k] >= LoggedMax(logs[i]).value;
          assert r.records[k] >= p.records[k];
        }
      }
    }
  }

  /** One of `logs` is a log of `k` whose maximum is `w`. */
  predicate Attains(logs: seq<WorkoutLog>, k: string, w: real)
  {
    exists i :: 0 <= i < |logs| && logs[i].exerciseId == k && LoggedMax(logs[i]) == Some(w)
  }

  /** Every record after the fold is either the record it had before or the
      maximum of one of the session's logs of that exercise: the fold never
      invents a weight. */
  lemma {:induction false} FoldAttained(t: Tally, date: string, logs: seq<WorkoutLog>)
    ensures var r := Fold(t, date, logs);
            forall k :: k in r.records ==>
              (k in t.records && r.records[k] == t.records[k]) || Attains(logs, k, r.records[k])
    decreases |logs|
  {
    if |logs| > 0 {
      var n := |logs| - 1;
      FoldAttained(t, date, logs[..n]);
      AttainedAfterStep(t, Fold(t, date, logs[..n]), date, logs);
    }
  }

  /** The inductive step of `FoldAttained`. */
  lemma AttainedAfterStep(t: Tally, p: Tally, date: string, logs: seq<WorkoutLog>)
    requires |logs| > 0
    requires forall k :: k in p.records ==>
               (k in t.records && p.records[k] == t.records[k]) || Attains(logs[..|logs| - 1], k, p.records[k])
    ensures var r := Step(p, date, logs[|logs| - 1]);
            forall k :: k in r.records ==>
              (k in t.records && r.records[k] == t.records[k]) || Attains(logs, k, r.records[k])
  {
    var n := |logs| - 1;
    var r := Step(p, date, logs[n]);
    forall k | k in r.records
      ensures (k in t.records && r.records[k] == t.records[k]) || Attains(logs, k, r.records[k])
    {
      StepAttained(p, date, logs[n], k);
      if k in p.records && r.records[k] == p.records[k] {
        if !(k in t.records && p.records[k] == t.records[k]) {
          AttainsPrefix(logs, k, p.records[k]);
        }
      } else {
        assert logs[n].exerciseId == k && LoggedMax(logs[n]) == Some(r.records[k]);
      }
    }
  }

  /** A record after one log is its old value or that log's maximum. */
  lemma StepAttained(t: Tally, date: string, log: WorkoutLog, k: string)
    requires k in Step(t, date, log).records
    ensures var r := Step(t, date, log);
            (k in t.records && r.records[k] == t.records[k]) ||
            (log.exerciseId == k && LoggedMax(log) == Some(r.records[k]))
  {
    StepSpec(t, date, log);
  }

  lemma AttainsPrefix(logs: seq<WorkoutLog>, k: string, w: real)
    requires |logs| > 0 && Attains(logs[..|logs| - 1], k, w)
    ensures Attains(logs, k, w)
  {
    var n := |logs| - 1;
    var i :| 0 <= i < n && logs[..n][i].exerciseId == k && LoggedMax(logs[..n][i]) == Some(w);
    assert logs[..n][i] == logs[i];
  }

  /** The history points the session adds for exercise `k`: one point
      `(date, max)` per log of `k` with a positive maximum, in log order,
      whether or not the log set a record. */
  function NewPoints(date: string, logs: seq<WorkoutLog>, k: string): seq<PRPoint>
    decreases |logs|
  {
    if |logs| == 0 then []
    else
      var n := |logs| - 1;
      NewPoints(date, logs[..n], k) + StepPoints(date, logs[n], k)
  }

  lemma {:induction false} FoldHistory(t: Tally, date: string, logs: seq<WorkoutLog>, k: string)
    ensures HistoryOf(Fold(t, date, logs).history, k) == HistoryOf(t.history, k) + NewPoints(date, logs, k)
    decreases |logs|
  {
    if |logs| > 0 {
      var n := |logs| - 1;
      var p := Fold(t, date, logs[..n]);
      var before := NewPoints(date, logs[..n], k);
      var added := StepPoints(date, logs[n], k);
      assert HistoryOf(p.history, k) == HistoryOf(t.history, k) + before by {
        FoldHistory(t, date, logs[..n], k);
      }
      assert HistoryOf(Fold(t, date, logs).history, k) == HistoryOf(p.history, k) + added by {
        StepHistory(p, date, logs[n], k);
      }
      assert NewPoints(date, logs, k) == before + added;
    }
  }

  /** The point one log adds to the history of `k`, if any. */
  function StepPoints(date: string, log: WorkoutLog, k: string): seq<PRPoint>
  {
    if log.exerciseId == k && LoggedMax(log).Some? then [PRPoint(date, LoggedMax(log).value)] else []
  }

  lemma StepHistory(t: Tally, date: string, log: WorkoutLog, k: string)
    ensures HistoryOf(Step(t, date, log).history, k) == HistoryOf(t.history, k) + StepPoints(date, log, k)
  {
    StepSpec(t, date, log);
  }

  /** The history of an exercise only grows: the old points stay in front. */
  lemma FoldHistoryAppendOnly(t: Tally, date: string, logs: seq<WorkoutLog>, k: string)
    ensures var h := HistoryOf(Fold(t, date, logs).history, k);
            |h| >= |HistoryOf(t.history, k)| && h[..|HistoryOf(t.history, k)|] == HistoryOf(t.history, k)
  {
    FoldHistory(t, date, logs, k);
  }

  /** `m` announces a record for one of the logs with a positive maximum. */
  predicate AnnouncesLog(logs: seq<WorkoutLog>, m: Message)
  {
    exists i :: 0 <= i < |logs| && LoggedMax(logs[i]).Some? && m == RecordMessage(logs[i].exerciseName)
  }

  /** The fold only appends notifications, at most one per log, and each one
      announces a record for one of the session's logs. */
  lemma {:induction false} FoldMessages(t: Tally, date: string, logs: seq<WorkoutLog>)
    ensures var r := Fold(t, date, logs);
            && |t.messages| <= |r.messages| <= |t.messages| + |logs|
            && r.messages[..|t.messages|] == t.messages
            && forall j :: |t.messages| <= j < |r.messages| ==> AnnouncesLog(logs, r.messages[j])
    decreases |logs|
  {
    if |logs| > 0 {
      var n := |logs| - 1;
      FoldMessages(t, date, logs[..n]);
      var p := Fold(t, date, logs[..n]);
      var r := Fold(t, date, logs);
      assert r == Step(p, date, logs[n]);
      StepSpec(p, date, logs[n]);
      assert r.messages[..|p.messages|] == p.messages;
      forall j | |t.messages| <= j < |r.messages|
        ensures AnnouncesLog(logs, r.messages[j])
      {
        if j < |p.messages| {
          assert r.messages[j] == p.messages[j];
          AnnouncesPrefix(logs, n, p.messages[j]);
        } else {
          assert r.messages[j] == RecordMessage(logs[n].exerciseName);
        }
      }
    }
  }

  /** A message announcing a log of a prefix announces a log of the whole. */
  lemma AnnouncesPrefix(logs: seq<WorkoutLog>, n: nat, m: Message)
    requires n <= |logs| && AnnouncesLog(logs[..n], m)
    ensures AnnouncesLog(logs, m)
  {
    var i :| 0 <= i < n && LoggedMax(logs[..n][i]).Some? && m == RecordMessage(logs[..n][i].exerciseName);
    assert logs[..n][i] == logs[i];
  }

  /** The result of saving: the new session list, the new stats and the
      notifications emitted, in order. */
  datatype Saved = Saved(workouts: seq<WorkoutSession>, stats: UserStats, messages: seq<Message>)

  /** `addWorkout`: prepends the session, folds its logs into the records
      and the history, and counts one more workout and one more streak day. */
  function AddWorkout(workouts: seq<WorkoutSession>, stats: UserStats, session: WorkoutSession): (r: Saved)
    ensures r.workouts == [session] + workouts
    ensures r.stats.totalWorkouts == stats.totalWorkouts + 1
    ensures r.stats.streak == stats.streak + 1
    ensures r.stats.profile == stats.profile && r.stats.weightHistory == stats.weightHistory
    ensures r.stats.badges == stats.badges && r.stats.activePlan == stats.activePlan
    ensures r.stats.healthSyncEnabled == stats.healthSyncEnabled
    ensures r.stats.personalRecords.Keys == stats.personalRecords.Keys + Touched(session.logs)
    ensures forall k :: k in stats.personalRecords ==>
              r.stats.personalRecords[k] >= stats.personalRecords[k]
    ensures |r.messages| >= 1 && r.messages[|r.messages| - 1] == SavedMessage
  {
    var start := Tally(stats.personalRecords, stats.prHistory, []);
    var t := Fold(start, session.date, session.logs);
    FoldKeys(start, session.date, session.logs);
    FoldMonotone(start, session.date, session.logs);
    FoldMessages(start, session.date, session.logs);
    Saved(
      [session] + workouts,
      stats.(personalRecords := t.records, prHistory := t.history,
             totalWorkouts := stats.totalWorkouts + 1, streak := stats.streak + 1),
      t.messages + [SavedMessage])
  }

  /** Saves the sessions one after another, oldest first. */
  function SaveAll(workouts: seq<WorkoutSession>, stats: UserStats, sessions: seq<WorkoutSession>): Saved
    decreases |sessions|
  {
    if |sessions| == 0 then Saved(workouts, stats, [])
    else
      var n := |sessions| - 1;
      var before := SaveAll(workouts, stats, sessions[..n]);
      var after := AddWorkout(before.workouts, before.stats, sessions[n]);
      Saved(after.workouts, after.stats, before.messages + after.messages)
  }

  /** Across any sequence of saves the workout counter and the streak go up
      by exactly the number of sessions, and the list holds them newest
      first. */
  lemma {:induction false} SaveAllCounts(workouts: seq<WorkoutSession>, stats: UserStats, sessions: seq<WorkoutSession>)
    ensures var r := SaveAll(workouts, stats, sessions);
            && r.stats.totalWorkouts == stats.totalWorkouts + |sessions|
            && r.stats.streak == stats.streak + |sessions|
            && r.workouts == Seqs.Reverse(sessions) + workouts
    decreases |sessions|
  {
    if |sessions| > 0 {
      var n := |sessions| - 1;
      var before := SaveAll(workouts, stats, sessions[..n]);
      assert before.workouts == Seqs.Reverse(sessions[..n]) + workouts &&
             before.stats.totalWorkouts == stats.totalWorkouts + n &&
             before.stats.streak == stats.streak + n by {
        SaveAllCounts(workouts, stats, sessions[..n]);
      }
      assert Seqs.Reverse(sessions) == [sessions[n]] + Seqs.Reverse(sessions[..n]) by {
        Seqs.ReverseSnoc(sessions);
      }
    }
  }

  /** No sequence of saves removes or lowers a record. */
  lemma {:induction false} SaveAllMonotone(workouts: seq<WorkoutSession>, stats: UserStats, sessions: seq<WorkoutSession>)
    ensures var r := SaveAll(workouts, stats, sessions);
            forall k :: k in stats.personalRecords ==>
              k in r.stats.personalRecords && r.stats.personalRecords[k] >= stats.personalRecords[k]
    decreases |sessions|
  {
    if |sessions| > 0 {
      var n := |sessions| - 1;
      SaveAllMonotone(workouts, stats, sessions[..n]);
    }
  }
}
