/** The profile screen's derived figures and data handling: basal and daily
    energy estimates, the backup bundle and its file name, and the nutrition
    tips with their fallback text. */
module Profile {
  import opened Types
  import Text
  import Tips
  import Gemini

  /** `Math.round`: the nearest integer, halves rounded up. */
  function Round(x: real): (r: int)
    ensures r as real - 0.5 <= x < r as real + 0.5
  {
    (x + 0.5).Floor
  }

  /** The rounding is the only integer within half a unit below and strictly
      less than half a unit above. */
  lemma RoundUnique(x: real, n: int)
    requires n as real - 0.5 <= x < n as real + 0.5
    ensures Round(x) == n
  {
  }

  lemma RoundMonotone(x: real, y: real)
    requires x <= y
    ensures Round(x) <= Round(y)
  {
  }

  /** The activity levels offered, from the least to the most active. */
  const ActivityLevels: seq<string> := ["Sedentary", "Light", "Moderate", "Active", "Very Active"]

  /** The daily-energy multiplier of an activity level; 1.2 for any other text. */
  function Multiplier(level: string): (m: real)
    ensures 1.2 <= m <= 1.9
    ensures level !in ActivityLevels ==> m == 1.2
  {
    if level == "Sedentary" then 1.2
    else if level == "Light" then 1.375
    else if level == "Moderate" then 1.55
    else if level == "Active" then 1.725
    else if level == "Very Active" then 1.9
    else 1.2
  }

  /** Each listed level raises the multiplier over the one before it. */
  lemma MultiplierIncreases(i: nat, j: nat)
    requires i < j < |ActivityLevels|
    ensures Multiplier(ActivityLevels[i]) < Multiplier(ActivityLevels[j])
  {
  }

  /** The Mifflin-St Jeor estimate before rounding: +5 for "Male" and -161
      for every other gender text. */
  function BmrEstimate(p: UserProfile): real
  {
    var base := 10.0 * p.weight + 6.25 * p.height - 5.0 * p.age;
    if p.gender == "Male" then base + 5.0 else base - 161.0
  }

  datatype Biometrics = Biometrics(bmr: int, tdee: int)

  /** `biometrics`: both figures are rounded from the unrounded estimate, so
      each is within half a unit of its exact value, and a non-negative basal
      estimate gives a daily figure at least as large. */
  function ComputeBiometrics(p: UserProfile): (b: Biometrics)
    ensures b.bmr as real - 0.5 <= BmrEstimate(p) < b.bmr as real + 0.5
    ensures b.tdee as real - 0.5 <= BmrEstimate(p) * Multiplier(p.activityLevel) < b.tdee as real + 0.5
    ensures BmrEstimate(p) >= 0.0 ==> b.tdee >= b.bmr
  {
    var bmr := BmrEstimate(p);
    var m := Multiplier(p.activityLevel);
    assert bmr >= 0.0 ==> Round(bmr) <= Round(bmr * m) by {
      if bmr >= 0.0 {
        assert bmr * m - bmr == bmr * (m - 1.0) >= 0.0;
        RoundMonotone(bmr, bmr * m);
      }
    }
    Biometrics(Round(bmr), Round(bmr * m))
  }

  /** Two profiles that differ only in gender, one "Male", are 166 kcal apart
      before rounding. */
  lemma GenderGap(p: UserProfile, gender: string)
    requires p.gender == "Male" && gender != "Male"
    ensures BmrEstimate(p) - BmrEstimate(p.(gender := gender)) == 166.0
  {
  }

  /** The daily figure is not the rounded basal figure times the multiplier:
      a profile for which the two differ. */
  lemma DailyFromUnroundedBasal()
    ensures var p := UserProfile("A", 25.0, 40.04, 100.0, 18.0, "O+", "Male", "Active", None);
            var b := ComputeBiometrics(p);
            b.bmr == 905 && b.tdee == 1562 && Round(b.bmr as real * Multiplier(p.activityLevel)) == 1561
  {
    var p := UserProfile("A", 25.0, 40.04, 100.0, 18.0, "O+", "Male", "Active", None);
    assert BmrEstimate(p) == 905.4;
    RoundUnique(905.4, 905);
    RoundUnique(905.4 * 1.725, 1562);
    RoundUnique(905.0 * 1.725, 1561);
  }

  /** What `handleExport` serialises. */
  datatype Backup = Backup(workouts: seq<WorkoutSession>, stats: UserStats, goals: seq<Goal>, exportDate: string)

  /** The backup holds the three parts as they are and the export time. */
  function MakeBackup(workouts: seq<WorkoutSession>, stats: UserStats, goals: seq<Goal>, nowIso: string): (r: Backup)
    ensures r.workouts == workouts && r.stats == stats && r.goals == goals
    ensures r.exportDate == nowIso
  {
    Backup(workouts, stats, goals, nowIso)
  }

  const BackupPrefix: string := "flextrack_backup_"
  const BackupSuffix: string := ".json"

  /** The download name: the date part of the ISO timestamp, the text before
      its first 'T'. */
  function BackupFileName(nowIso: string): (r: string)
    ensures Text.StartsWith(r, BackupPrefix)
    ensures |r| >= |BackupPrefix| + |BackupSuffix| && r[|r| - |BackupSuffix|..] == BackupSuffix
    ensures 'T' !in r[|BackupPrefix|..|r| - |BackupSuffix|]
  {
    var day := Text.Split(nowIso, 'T')[0];
    var r := BackupPrefix + day + BackupSuffix;
    assert r[|BackupPrefix|..|r| - |BackupSuffix|] == day;
    r
  }

  /** For a timestamp `<day>T<time>`, the name carries exactly the day. */
  lemma BackupFileNameOfIso(day: string, time: string)
    requires 'T' !in day
    ensures BackupFileName(day + "T" + time) == BackupPrefix + day + BackupSuffix
  {
    Text.SplitPrefix(day, "T" + time, 'T');
    assert day + "T" + time == day + ("T" + time);
    var rest := Text.Split("T" + time, 'T');
    assert ("T" + time)[0] == 'T' && ("T" + time)[1..] == time;
    assert rest[0] == "";
    assert day + rest[0] == day;
  }

  /** The tips shown when the request fails, as three bullet lines. */
  const FallbackTipLines: seq<string> := [
    "\U{2022} Focus on high-quality protein (1.6g/kg).",
    "\U{2022} Stay hydrated (3L+ daily).",
    "\U{2022} Prioritize consistent sleep for recovery."
  ]

  const FallbackTips: string := Text.Join(FallbackTipLines, "\n")

  /** `fetchNutritionTips`: the text of the request, or the fallback lines
      when it throws after its retries. */
  function NutritionTips<E>(response: Gemini.Attempt<string, E>): string
  {
    match response
    case Returned(text) => text
    case Threw(_) => FallbackTips
  }

  /** A bullet line is neither blank nor numbered. */
  lemma BulletLine(line: string)
    requires |line| > 0 && line[0] == '\U{2022}'
    ensures Tips.NotBlank(line) && !Tips.IsNumbered(line)
  {
    assert !Text.IsWhitespace(line[0]);
    forall d | 1 <= d < |line|
      ensures !Text.AllDigits(line[..d])
    {
      assert line[..d][0] == line[0];
    }
  }

  /** A failed request still fills the three cards, with the fallback lines
      unchanged. */
  lemma FallbackFillsCards<E>(error: E)
    ensures Tips.DisplayTips(NutritionTips(Gemini.Threw(error))) == FallbackTipLines
  {
    var lines := FallbackTipLines;
    forall i | 0 <= i < |lines|
      ensures '\n' !in lines[i] && Tips.NotBlank(lines[i]) && !Tips.IsNumbered(lines[i])
    {
      FallbackLine(i);
    }
    Tips.DisplayTipsOfLines(lines);
    assert lines[..3] == lines;
  }

  lemma FallbackLine(i: nat)
    requires i < |FallbackTipLines|
    ensures var line := FallbackTipLines[i];
            '\n' !in line && Tips.NotBlank(line) && !Tips.IsNumbered(line)
  {
    BulletLine(FallbackTipLines[i]);
    FallbackSingleLines();
  }

  /** No fallback line holds a line feed (one lemma per literal keeps each
      proof small). */
  lemma FallbackSingleLines()
    ensures forall i :: 0 <= i < |FallbackTipLines| ==> '\n' !in FallbackTipLines[i]
  {
    FirstLine();
    SecondLine();
    ThirdLine();
  }

  lemma FirstLine() ensures '\n' !in FallbackTipLines[0] {}
  lemma SecondLine() ensures '\n' !in FallbackTipLines[1] {}
  lemma ThirdLine() ensures '\n' !in FallbackTipLines[2] {}
}
