/** The application shell: the state it owns (sessions, stats, goals), its
    defaults, loading from storage, the handlers the screens call back, and
    the invariant that ties each personal record to its history. Storage is
    modelled as the three stored values after parsing, and JSON
    serialisation as the identity. */
module App {
  import opened Types
  import Aggregator
  import PRDetails
  import Dashboard
  import Profile
  import Seqs

  datatype AppState = AppState(workouts: seq<WorkoutSession>, stats: UserStats, goals: seq<Goal>)

  /** A handler's new state and the notifications it posts, in order. */
  datatype Outcome = Outcome(state: AppState, messages: seq<Message>)

  /** Every record is the best weight of its history, and every history is a
      non-empty list of positive weights: the record screen and the record
      cards always agree. */
  ghost predicate RecordsMatchHistory(records: map<string, real>, history: map<string, seq<PRPoint>>)
  {
    && records.Keys == history.Keys
    && forall k :: k in history ==>
         && |history[k]| > 0
         && (forall i :: 0 <= i < |history[k]| ==> history[k][i].weight > 0.0)
         && records[k] == PRDetails.MaxPR(history[k])
  }

  /** `DEFAULT_STATS`; `today` is the current date as `YYYY-MM-DD`. */
  function DefaultStats(today: string): (s: UserStats)
    ensures RecordsMatchHistory(s.personalRecords, s.prHistory)
    ensures s.personalRecords == map[] && s.streak == 0 && s.totalWorkouts == 0
  {
    UserStats(
      UserProfile("New User", 28.0, 75.0, 180.0, 18.0, "O+", "Other", "Moderate", None),
      [WeightEntry(today, 75.0)],
      map[], map[], 0, 0, ["first_workout"], None, false)
  }

  function Initial(today: string): AppState
  {
    AppState([], DefaultStats(today), [])
  }

  /** One log folded in keeps every record equal to the best of its history. */
  lemma StepKeepsRecords(t: Aggregator.Tally, date: string, log: WorkoutLog)
    requires RecordsMatchHistory(t.records, t.history)
    ensures var r := Aggregator.Step(t, date, log);
            RecordsMatchHistory(r.records, r.history)
  {
    var r := Aggregator.Step(t, date, log);
    if Aggregator.LoggedMax(log).Some? {
      var id := log.exerciseId;
      Aggregator.StepSpec(t, date, log);
      StepTouched(t, date, log);
      forall k | k in r.history
        ensures |r.history[k]| > 0
        ensures forall i :: 0 <= i < |r.history[k]| ==> r.history[k][i].weight > 0.0
        ensures r.records[k] == PRDetails.MaxPR(r.history[k])
      {
        if k != id {
          assert k in t.history && r.history[k] == t.history[k] && r.records[k] == t.records[k];
        }
      }
    }
  }

  /** The exercise of a counted log ends with a non-empty, all-positive
      history whose best weight is its record. */
  lemma StepTouched(t: Aggregator.Tally, date: string, log: WorkoutLog)
    requires RecordsMatchHistory(t.records, t.history)
    requires Aggregator.LoggedMax(log).Some?
    ensures var r := Aggregator.Step(t, date, log);
            var h := r.history[log.exerciseId];
            && |h| > 0
            && (forall i :: 0 <= i < |h| ==> h[i].weight > 0.0)
            && r.records[log.exerciseId] == PRDetails.MaxPR(h)
  {
    var r := Aggregator.Step(t, date, log);
    var m := Aggregator.LoggedMax(log).value;
    var id := log.exerciseId;
    var h := Aggregator.HistoryOf(t.history, id);
    var p := PRPoint(date, m);
    Aggregator.StepOwnKey(t, date, log);
    HistoryAt(t.records, t.history, id);
    BestAfterPoint(h, p, id in t.records, if id in t.records then t.records[id] else 0.0);
    PositiveSnoc(h, p);
  }

  /** What the invariant says of one exercise, present or not. */
  lemma HistoryAt(records: map<string, real>, history: map<string, seq<PRPoint>>, id: string)
    requires RecordsMatchHistory(records, history)
    ensures var h := Aggregator.HistoryOf(history, id);
            && (id in records ==> records[id] == PRDetails.MaxPR(h))
            && (id !in records ==> h == [])
            && forall i :: 0 <= i < |h| ==> h[i].weight > 0.0
  {
  }

  /** A new point's weight becomes the record when there was none or when it
      beats the record, which was the best of the history before it. */
  lemma BestAfterPoint(h: seq<PRPoint>, p: PRPoint, present: bool, record: real)
    requires p.weight > 0.0
    requires present ==> record == PRDetails.MaxPR(h)
    requires !present ==> h == []
    ensures (if !present || p.weight > record then p.weight else record) == PRDetails.MaxPR(h + [p])
  {
    PRDetails.MaxPRSnoc(h, p);
  }

  lemma PositiveSnoc(h: seq<PRPoint>, p: PRPoint)
    requires p.weight > 0.0 && forall i :: 0 <= i < |h| ==> h[i].weight > 0.0
    ensures forall i :: 0 <= i < |h + [p]| ==> (h + [p])[i].weight > 0.0
  {
    forall i | 0 <= i < |h + [p]|
      ensures (h + [p])[i].weight > 0.0
    {
      if i < |h| {
        assert (h + [p])[i] == h[i];
      }
    }
  }

  lemma {:induction false} FoldKeepsRecords(t: Aggregator.Tally, date: string, logs: seq<WorkoutLog>)
    requires RecordsMatchHistory(t.records, t.history)
    ensures var r := Aggregator.Fold(t, date, logs);
            RecordsMatchHistory(r.records, r.history)
    decreases |logs|
  {
    if |logs| > 0 {
      var n := |logs| - 1;
      FoldKeepsRecords(t, date, logs[..n]);
      StepKeepsRecords(Aggregator.Fold(t, date, logs[..n]), date, logs[n]);
    }
  }

  /** `addWorkout` through the shell. */
  function SaveWorkout(a: AppState, session: WorkoutSession): (r: Outcome)
    ensures r.state.goals == a.goals
    ensures r.state.workouts == [session] + a.workouts
    ensures r.state.stats.totalWorkouts == a.stats.totalWorkouts + 1
    ensures RecordsMatchHistory(a.stats.personalRecords, a.stats.prHistory) ==>
              RecordsMatchHistory(r.state.stats.personalRecords, r.state.stats.prHistory)
  {
    var saved := Aggregator.AddWorkout(a.workouts, a.stats, session);
    var start := Aggregator.Tally(a.stats.personalRecords, a.stats.prHistory, []);
    var t := Aggregator.Fold(start, session.date, session.logs);
    assert RecordsMatchHistory(start.records, start.history) ==> RecordsMatchHistory(t.records, t.history) by {
      if RecordsMatchHistory(start.records, start.history) {
        FoldKeepsRecords(start, session.date, session.logs);
      }
    }
    Outcome(AppState(saved.workouts, saved.stats, a.goals), saved.messages)
  }

  /** Saves the sessions one after another, oldest first. */
  function SaveSessions(a: AppState, sessions: seq<WorkoutSession>): AppState
    decreases |sessions|
  {
    if |sessions| == 0 then a
    else SaveWorkout(SaveSessions(a, sessions[..|sessions| - 1]), sessions[|sessions| - 1]).state
  }

  /** From a fresh start, after any saves, each record card shows the best
      weight of the history its details screen draws, and the streak counter
      shows the number of saved sessions. */
  lemma {:induction false} SavedSessionsAgree(today: string, sessions: seq<WorkoutSession>)
    ensures var s := SaveSessions(Initial(today), sessions).stats;
            && RecordsMatchHistory(s.personalRecords, s.prHistory)
            && Dashboard.ShownStreak(Some(s)) == |sessions|
            && s.totalWorkouts == |sessions|
    decreases |sessions|
  {
    if |sessions| > 0 {
      SavedSessionsAgree(today, sessions[..|sessions| - 1]);
    }
  }

  /** Every record card carries the best weight the details screen shows
      for that exercise. */
  lemma CardsMatchDetails(stats: UserStats, order: seq<string>)
    requires RecordsMatchHistory(stats.personalRecords, stats.prHistory)
    requires Dashboard.IsEntryOrder(stats.personalRecords, order)
    ensures forall c :: c in Dashboard.RecentPRs(stats.personalRecords, order) ==>
              c.weight == PRDetails.MaxPR(Aggregator.HistoryOf(stats.prHistory, c.id)) &&
              PRDetails.ShowsChart(Aggregator.HistoryOf(stats.prHistory, c.id)) ==
                (|stats.prHistory[c.id]| > 1)
  {
  }

  const ProfileMessage: Message := Message("Profile evolved.", Success)

  /** `handleProfileUpdate`: the new profile, the sync flag when one is
      given, nothing else. */
  function UpdateProfile(a: AppState, profile: UserProfile, sync: Option<bool>): (r: Outcome)
    ensures r.state.stats.profile == profile
    ensures sync.Some? ==> r.state.stats.healthSyncEnabled == sync.value
    ensures sync.None? ==> r.state.stats.healthSyncEnabled == a.stats.healthSyncEnabled
    ensures r.state.workouts == a.workouts && r.state.goals == a.goals
    ensures r.state.stats.(profile := a.stats.profile, healthSyncEnabled := a.stats.healthSyncEnabled) == a.stats
    ensures r.messages == [ProfileMessage]
  {
    var flag := match sync case Some(b) => b case None => a.stats.healthSyncEnabled;
    Outcome(a.(stats := a.stats.(profile := profile, healthSyncEnabled := flag)), [ProfileMessage])
  }

  /** Submitting the same form twice leaves the state of the first submit. */
  lemma UpdateProfileIdempotent(a: AppState, profile: UserProfile, sync: Option<bool>)
    ensures var once := UpdateProfile(a, profile, sync).state;
            UpdateProfile(once, profile, sync).state == once
  {
  }

  const PlanMessage: Message := Message("Routine activated!", Success)

  /** The planner's save callback: the plan becomes the active one. */
  function ActivatePlan(a: AppState, plan: WeeklyPlan): (r: Outcome)
    ensures r.state.stats.activePlan == Some(plan)
    ensures r.state.stats.(activePlan := a.stats.activePlan) == a.stats
    ensures r.state.workouts == a.workouts && r.state.goals == a.goals
    ensures r.messages == [PlanMessage]
  {
    Outcome(a.(stats := a.stats.(activePlan := Some(plan))), [PlanMessage])
  }

  /** A newer plan replaces the older one outright. */
  lemma ActivatePlanReplaces(a: AppState, older: WeeklyPlan, newer: WeeklyPlan)
    ensures ActivatePlan(ActivatePlan(a, older).state, newer).state == ActivatePlan(a, newer).state
  {
  }

  /** An imported file after parsing: each part present or not. */
  datatype ImportData = ImportData(workouts: Option<seq<WorkoutSession>>, stats: Option<UserStats>, goals: Option<seq<Goal>>)

  const ImportedMessage: Message := Message("Data imported successfully!", Success)
  const InvalidBackupMessage: Message := Message("Invalid backup file.", Error)

  /** `handleImport`: each part the file holds replaces the current one;
      stats are taken whole, not merged with the defaults. `None` is a value
      whose parts cannot be read (JavaScript `null`), which is reported and
      changes nothing. */
  function Import(a: AppState, data: Option<ImportData>): (r: Outcome)
    ensures data.None? ==> r == Outcome(a, [InvalidBackupMessage])
    ensures data.Some? ==> r.messages == [ImportedMessage]
    ensures data.Some? ==>
              && r.state.workouts == (if data.value.workouts.Some? then data.value.workouts.value else a.workouts)
              && r.state.stats == (if data.value.stats.Some? then data.value.stats.value else a.stats)
              && r.state.goals == (if data.value.goals.Some? then data.value.goals.value else a.goals)
  {
    match data
    case None => Outcome(a, [InvalidBackupMessage])
    case Some(d) =>
      var w := match d.workouts case Some(v) => v case None => a.workouts;
      var s := match d.stats case Some(v) => v case None => a.stats;
      var g := match d.goals case Some(v) => v case None => a.goals;
      Outcome(AppState(w, s, g), [ImportedMessage])
  }

  /** The parts of a backup as the import reads them. */
  function BackupData(b: Profile.Backup): ImportData
  {
    ImportData(Some(b.workouts), Some(b.stats), Some(b.goals))
  }

  /** Importing an exported backup, into any state, restores the state it
      was exported from. */
  lemma ExportImportRoundTrip(current: AppState, exported: AppState, nowIso: string)
    ensures var backup := Profile.MakeBackup(exported.workouts, exported.stats, exported.goals, nowIso);
            Import(current, Some(BackupData(backup))) == Outcome(exported, [ImportedMessage])
  {
  }

  /** A stored value: absent (or empty), unreadable, or parsed. */
  datatype Stored<T> = Absent | Unparsable | Parsed(value: T)

  /** Stored stats after parsing: the fields present in the stored object. */
  datatype PartialStats = PartialStats(
    profile: Option<UserProfile>,
    weightHistory: Option<seq<WeightEntry>>,
    personalRecords: Option<map<string, real>>,
    prHistory: Option<map<string, seq<PRPoint>>>,
    streak: Option<int>,
    totalWorkouts: Option<int>,
    badges: Option<seq<string>>,
    activePlan: Option<Option<WeeklyPlan>>,
    healthSyncEnabled: Option<bool>)

  function Pick<T>(stored: Option<T>, default: T): T
  {
    match stored case Some(v) => v case None => default
  }

  /** `{ ...DEFAULT_STATS, ...stored }`: each stored field overrides the default. */
  function MergeStats(defaults: UserStats, p: PartialStats): (r: UserStats)
    ensures r.profile == if p.profile.Some? then p.profile.value else defaults.profile
    ensures r.weightHistory == if p.weightHistory.Some? then p.weightHistory.value else defaults.weightHistory
    ensures r.personalRecords == if p.personalRecords.Some? then p.personalRecords.value else defaults.personalRecords
    ensures r.prHistory == if p.prHistory.Some? then p.prHistory.value else defaults.prHistory
    ensures r.streak == if p.streak.Some? then p.streak.value else defaults.streak
    ensures r.totalWorkouts == if p.totalWorkouts.Some? then p.totalWorkouts.value else defaults.totalWorkouts
    ensures r.badges == if p.badges.Some? then p.badges.value else defaults.badges
    ensures r.activePlan == if p.activePlan.Some? then p.activePlan.value else defaults.activePlan
    ensures r.healthSyncEnabled == if p.healthSyncEnabled.Some? then p.healthSyncEnabled.value else defaults.healthSyncEnabled
  {
    UserStats(
      Pick(p.profile, defaults.profile),
      Pick(p.weightHistory, defaults.weightHistory),
      Pick(p.personalRecords, defaults.personalRecords),
      Pick(p.prHistory, defaults.prHistory),
      Pick(p.streak, defaults.streak),
      Pick(p.totalWorkouts, defaults.totalWorkouts),
      Pick(p.badges, defaults.badges),
      Pick(p.activePlan, defaults.activePlan),
      Pick(p.healthSyncEnabled, defaults.healthSyncEnabled))
  }

  /** Stats written in full, as the persistence effect writes them. */
  function Whole(s: UserStats): PartialStats
  {
    PartialStats(Some(s.profile), Some(s.weightHistory), Some(s.personalRecords), Some(s.prHistory),
                 Some(s.streak), Some(s.totalWorkouts), Some(s.badges), Some(s.activePlan), Some(s.healthSyncEnabled))
  }

  const NoFields: PartialStats := PartialStats(None, None, None, None, None, None, None, None, None)

  /** Stats written in full come back unchanged whatever the defaults, and an
      empty stored object gives the defaults. */
  lemma MergeStatsRoundTrip(defaults: UserStats, s: UserStats)
    ensures MergeStats(defaults, Whole(s)) == s
    ensures MergeStats(defaults, NoFields) == defaults
  {
  }

  /** A stored object lacking the fields a newer version added keeps their
      defaults: records stored without a history load with an empty one. */
  lemma MergeKeepsMissingDefaults(today: string, p: PartialStats)
    requires p.prHistory.None? && p.activePlan.None?
    ensures MergeStats(DefaultStats(today), p).prHistory == map[]
    ensures MergeStats(DefaultStats(today), p).activePlan == None
  {
  }

  const LoadFailedMessage: Message := Message("Failed to load your local data. Starting fresh.", Error)

  /** The mount effect with every parse inside its `try`: starting from the
      defaults, sessions, stats and goals are read in that order; the first
      unreadable one stops the reading, keeps what was read before it and
      posts the failure. */
  function LoadCaught(today: string, w: Stored<seq<WorkoutSession>>, s: Stored<PartialStats>, g: Stored<seq<Goal>>): (r: Outcome)
    ensures r.messages == (if w.Unparsable? || s.Unparsable? || g.Unparsable? then [LoadFailedMessage] else [])
    ensures r.state.workouts == (if w.Parsed? then w.value else [])
    ensures r.state.stats == (if !w.Unparsable? && s.Parsed? then MergeStats(DefaultStats(today), s.value) else DefaultStats(today))
    ensures r.state.goals == (if !w.Unparsable? && !s.Unparsable? && g.Parsed? then g.value else [])
  {
    var a0 := Initial(today);
    if w.Unparsable? then Outcome(a0, [LoadFailedMessage])
    else
      var a1 := if w.Parsed? then a0.(workouts := w.value) else a0;
      if s.Unparsable? then Outcome(a1, [LoadFailedMessage])
      else
        var a2 := if s.Parsed? then a1.(stats := MergeStats(DefaultStats(today), s.value)) else a1;
        if g.Unparsable? then Outcome(a2, [LoadFailedMessage])
        else if g.Parsed? then Outcome(a2.(goals := g.value), [])
        else Outcome(a2, [])
  }

  /** How the start settles: the loaded state with the notifications posted,
      or a render that throws. */
  datatype Start = Started(outcome: Outcome) | RenderFails

  /** The mount effect as written. Sessions and goals are parsed inside the
      `try`, so an unreadable one is caught: the reading stops there and the
      failure is posted. The stats text, however, is parsed by the updater
      handed to `setStats`, which React calls while rendering, after the
      `try` has been left: an unreadable stats value is not caught, the goals
      are still read, nothing is posted, and the next render throws. */
  function Load(today: string, w: Stored<seq<WorkoutSession>>, s: Stored<PartialStats>, g: Stored<seq<Goal>>): (r: Start)
    ensures r.RenderFails? <==> !w.Unparsable? && s.Unparsable?
    ensures r.Started? ==> r.outcome == LoadCaught(today, w, s, g)
  {
    var a0 := Initial(today);
    if w.Unparsable? then Started(Outcome(a0, [LoadFailedMessage]))
    else
      var a1 := if w.Parsed? then a0.(workouts := w.value) else a0;
      var posted := if g.Unparsable? then [LoadFailedMessage] else [];
      var a2 := if g.Parsed? then a1.(goals := g.value) else a1;
      match s
      case Unparsable => RenderFails
      case Absent => Started(Outcome(a2, posted))
      case Parsed(p) => Started(Outcome(a2.(stats := MergeStats(DefaultStats(today), p)), posted))
  }

  /** What storage holds once the start has settled. The persistence effect
      runs on mount with the first render's state, the defaults, and again
      after each committed render; a render that throws commits nothing and,
      with no error boundary, takes the application down, so storage keeps
      the defaults written on mount. */
  function StoredAfter(today: string, r: Start): AppState
  {
    match r
    case Started(o) => o.state
    case RenderFails => Initial(today)
  }

  /** As written, an unreadable stats value, whatever sessions and goals are
      stored beside it, fails the render and leaves storage holding the
      defaults: the next start silently shows no sessions and no goals. */
  lemma CorruptStatsLosesData(today: string, ws: seq<WorkoutSession>, g: Stored<seq<Goal>>)
    ensures Load(today, Parsed(ws), Unparsable, g) == RenderFails
    ensures var next := StoredAfter(today, Load(today, Parsed(ws), Unparsable, g));
            && next.workouts == [] && next.goals == []
            && Load(today, Parsed(next.workouts), Parsed(Whole(next.stats)), Parsed(next.goals)) ==
                 Started(Outcome(Initial(today), []))
  {
    MergeStatsRoundTrip(DefaultStats(today), DefaultStats(today));
  }

  /** With the stats parse inside the `try`, the same storage is caught: the
      failure is posted and the sessions read before it are kept, also in
      what storage holds afterwards. */
  lemma CaughtStatsKeepSessions(today: string, ws: seq<WorkoutSession>, g: Stored<seq<Goal>>)
    ensures LoadCaught(today, Parsed(ws), Unparsable, g) == Outcome(Initial(today).(workouts := ws), [LoadFailedMessage])
    ensures StoredAfter(today, Started(LoadCaught(today, Parsed(ws), Unparsable, g))).workouts == ws
  {
  }

  /** What the persistence effect writes is what the next start reads. */
  lemma PersistThenLoad(today: string, a: AppState)
    ensures Load(today, Parsed(a.workouts), Parsed(Whole(a.stats)), Parsed(a.goals)) == Started(Outcome(a, []))
    ensures LoadCaught(today, Parsed(a.workouts), Parsed(Whole(a.stats)), Parsed(a.goals)) == Outcome(a, [])
  {
    MergeStatsRoundTrip(DefaultStats(today), a.stats);
  }

  /** With nothing stored the application starts from the defaults, silently. */
  lemma FirstStart(today: string)
    ensures Load(today, Absent, Absent, Absent) == Started(Outcome(Initial(today), []))
  {
  }
}
