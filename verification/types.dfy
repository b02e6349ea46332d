/** The records of the application's data model. Numbers that the source
    keeps as JavaScript numbers are `real` (weights, repetitions, body
    measures, goal values) or `int` (counters and minute durations). An
    array the source reads through `|| []` or `?.` is a sequence here; the
    missing and the empty array behave the same in every use the model
    covers. */
module Types {

  datatype Option<T> = None | Some(value: T)

  datatype Category = Strength | Cardio | Flexibility | Sports | Bodyweight

  datatype Difficulty = Beginner | Intermediate | Advanced

  datatype Exercise = Exercise(
    id: string,
    name: string,
    category: Category,
    muscleGroups: seq<string>,
    instructions: seq<string>,
    equipment: string,
    difficulty: Difficulty)

  /** One set of an exercise as it is being logged. */
  datatype SetEntry = SetEntry(id: string, weight: real, reps: real, completed: bool)

  datatype WorkoutLog = WorkoutLog(
    id: string,
    exerciseId: string,
    exerciseName: string,
    sets: seq<SetEntry>,
    notes: string)

  /** A saved session; `duration` is in whole minutes. */
  datatype WorkoutSession = WorkoutSession(
    id: string,
    date: string,
    name: string,
    logs: seq<WorkoutLog>,
    notes: string,
    duration: int)

  datatype GoalType = WeightGoal | StrengthGoal | FrequencyGoal | DurationGoal | BodyFatGoal

  datatype Goal = Goal(
    id: string,
    title: string,
    targetValue: real,
    currentValue: real,
    unit: string,
    deadline: string,
    kind: GoalType)

  /** One point of an exercise's personal-record history. */
  datatype PRPoint = PRPoint(date: string, weight: real)

  datatype WeightEntry = WeightEntry(date: string, value: real)

  datatype PlanExercise = PlanExercise(name: string, sets: int, reps: string, tips: string)

  datatype PlanDay = PlanDay(day: string, focus: string, exercises: seq<PlanExercise>)

  datatype WeeklyPlan = WeeklyPlan(routineName: string, weeklySchedule: seq<PlanDay>)

  datatype UserProfile = UserProfile(
    name: string,
    age: real,
    weight: real,
    height: real,
    bodyFatPercentage: real,
    bloodGroup: string,
    gender: string,
    activityLevel: string,
    avatarUrl: Option<string>)

  /** The aggregate root: profile, records and counters. */
  datatype UserStats = UserStats(
    profile: UserProfile,
    weightHistory: seq<WeightEntry>,
    personalRecords: map<string, real>,
    prHistory: map<string, seq<PRPoint>>,
    streak: int,
    totalWorkouts: int,
    badges: seq<string>,
    activePlan: Option<WeeklyPlan>,
    healthSyncEnabled: bool)

  datatype Severity = Success | Error | Info

  /** The text and severity of one notification, before it is queued. */
  datatype Message = Message(text: string, severity: Severity)
}
