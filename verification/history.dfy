/** The history screen's CSV export: a header line and one line per
    session, fields joined with commas, behind a `data:` URI prefix. The
    locale date rendering is a parameter. The exercises of a session are
    joined with ", " in the source, which adds a column per extra exercise;
    `Export` joins them with "; " instead, and `ExportAsWritten` keeps the
    source's separator so the two can be compared. */
module History {
  import opened Types
  import Text

  const Header: seq<string> := ["Date", "Session Name", "Duration(min)", "Exercises"]

  const UriPrefix: string := "data:text/csv;charset=utf-8,"

  /** The separator the source puts between the exercise names of a session. */
  const AsWrittenNameSeparator: string := ", "

  /** The separator the corrected export uses; it holds no comma. */
  const NameSeparator: string := "; "

  function ExerciseNames(logs: seq<WorkoutLog>): (r: seq<string>)
    ensures |r| == |logs|
    ensures forall i :: 0 <= i < |logs| ==> r[i] == logs[i].exerciseName
  {
    seq(|logs|, i requires 0 <= i < |logs| => logs[i].exerciseName)
  }

  /** The four fields of a session's line. */
  function Row(w: WorkoutSession, dateText: string -> string, nameSep: string): (r: seq<string>)
    ensures |r| == |Header|
    ensures r[0] == dateText(w.date) && r[1] == w.name && r[2] == Text.IntToString(w.duration)
    ensures |w.logs| == 0 ==> r[3] == ""
    ensures |w.logs| == 1 ==> r[3] == w.logs[0].exerciseName
  {
    [dateText(w.date), w.name, Text.IntToString(w.duration), Text.Join(ExerciseNames(w.logs), nameSep)]
  }

  function Line(fields: seq<string>): string
  {
    Text.Join(fields, ",")
  }

  /** One line per session, in list order. */
  function SessionLines(workouts: seq<WorkoutSession>, dateText: string -> string, nameSep: string): (r: seq<string>)
    ensures |r| == |workouts|
    ensures forall i :: 0 <= i < |workouts| ==> r[i] == Line(Row(workouts[i], dateText, nameSep))
  {
    seq(|workouts|, i requires 0 <= i < |workouts| => Line(Row(workouts[i], dateText, nameSep)))
  }

  function Lines(workouts: seq<WorkoutSession>, dateText: string -> string, nameSep: string): (r: seq<string>)
    ensures |r| == |workouts| + 1
    ensures r[0] == Line(Header)
    ensures forall i :: 0 <= i < |workouts| ==> r[i + 1] == Line(Row(workouts[i], dateText, nameSep))
  {
    [Line(Header)] + SessionLines(workouts, dateText, nameSep)
  }

  function Content(workouts: seq<WorkoutSession>, dateText: string -> string, nameSep: string): (r: string)
    ensures Text.StartsWith(r, UriPrefix)
  {
    UriPrefix + Text.Join(Lines(workouts, dateText, nameSep), "\n")
  }

  /** `exportCSV` as the source writes it. */
  function ExportAsWritten(workouts: seq<WorkoutSession>, dateText: string -> string): (r: string)
    ensures Text.StartsWith(r, UriPrefix)
    ensures SingleLine(workouts, dateText) ==>
              Text.Split(r[|UriPrefix|..], '\n') == Lines(workouts, dateText, AsWrittenNameSeparator)
  {
    if SingleLine(workouts, dateText) then
      ExportLines(workouts, dateText, AsWrittenNameSeparator);
      Content(workouts, dateText, AsWrittenNameSeparator)
    else
      Content(workouts, dateText, AsWrittenNameSeparator)
  }

  /** `exportCSV` with the exercise names kept in one column. */
  function Export(workouts: seq<WorkoutSession>, dateText: string -> string): (r: string)
    ensures Text.StartsWith(r, UriPrefix)
    ensures SingleLine(workouts, dateText) ==>
              Text.Split(r[|UriPrefix|..], '\n') == Lines(workouts, dateText, NameSeparator)
  {
    if SingleLine(workouts, dateText) then
      ExportLines(workouts, dateText, NameSeparator);
      Content(workouts, dateText, NameSeparator)
    else
      Content(workouts, dateText, NameSeparator)
  }

  /** The first line reads back as the four column names, and a session
      without logs has an empty exercises field. */
  lemma HeaderAndEmptyField(w: WorkoutSession, dateText: string -> string, nameSep: string)
    requires |w.logs| == 0
    ensures Fields(Line(Header)) == ["Date", "Session Name", "Duration(min)", "Exercises"]
    ensures Row(w, dateText, nameSep)[3] == ""
  {
    assert forall i :: 0 <= i < |Header| ==> ',' !in Header[i];
    Text.SplitJoin(Header, ',');
  }

  /** No line feed in any date, session name or exercise name. */
  predicate SingleLine(workouts: seq<WorkoutSession>, dateText: string -> string)
  {
    forall i :: 0 <= i < |workouts| ==>
      && '\n' !in dateText(workouts[i].date)
      && '\n' !in workouts[i].name
      && forall j :: 0 <= j < |workouts[i].logs| ==> '\n' !in workouts[i].logs[j].exerciseName
  }

  /** The export is the header line followed by one line per session, in
      list order. */
  lemma ExportLines(workouts: seq<WorkoutSession>, dateText: string -> string, nameSep: string)
    requires SingleLine(workouts, dateText)
    requires '\n' !in nameSep
    ensures var c := Content(workouts, dateText, nameSep);
            Text.Split(c[|UriPrefix|..], '\n') == Lines(workouts, dateText, nameSep)
  {
    var lines := Lines(workouts, dateText, nameSep);
    forall i | 0 <= i < |lines|
      ensures '\n' !in lines[i]
    {
      if i == 0 {
        HeaderSingle();
      } else {
        SessionLineSingle(workouts[i - 1], dateText, nameSep);
      }
    }
    Text.SplitJoin(lines, '\n');
    var c := Content(workouts, dateText, nameSep);
    assert c[|UriPrefix|..] == Text.Join(lines, "\n");
  }

  lemma HeaderSingle()
    ensures '\n' !in Line(Header)
  {
    assert forall i :: 0 <= i < |Header| ==> '\n' !in Header[i];
    Text.JoinAvoids(Header, ",", '\n');
  }

  lemma SessionLineSingle(w: WorkoutSession, dateText: string -> string, nameSep: string)
    requires '\n' !in dateText(w.date) && '\n' !in w.name && '\n' !in nameSep
    requires forall j :: 0 <= j < |w.logs| ==> '\n' !in w.logs[j].exerciseName
    ensures '\n' !in Line(Row(w, dateText, nameSep))
  {
    Text.JoinAvoids(ExerciseNames(w.logs), nameSep, '\n');
    Text.IntToStringAvoids(w.duration, '\n');
    Text.JoinAvoids(Row(w, dateText, nameSep), ",", '\n');
  }

  /** The line of four fields, with its commas. */
  lemma LineOfFour(row: seq<string>)
    requires |row| == 4
    ensures Line(row) == row[0] + "," + (row[1] + "," + (row[2] + "," + row[3]))
  {
    assert row[1..][1..] == row[2..] && row[2..][1..] == row[3..];
    assert Text.Join(row[3..], ",") == row[3];
    assert Text.Join(row[2..], ",") == row[2] + "," + row[3];
    assert Text.Join(row[1..], ",") == row[1] + "," + (row[2] + "," + row[3]);
  }

  /** No comma in the date, the session name or an exercise name. */
  predicate CommaFree(w: WorkoutSession, dateText: string -> string)
  {
    && ',' !in dateText(w.date)
    && ',' !in w.name
    && forall j :: 0 <= j < |w.logs| ==> ',' !in w.logs[j].exerciseName
  }

  /** A line read back as comma-separated fields, as a CSV reader without
      quoting sees it. */
  function Fields(line: string): seq<string>
  {
    Text.Split(line, ',')
  }

  /** As written, a session line has three fields and then one field per
      exercise (at least one), however comma-free the text: the line no longer
      matches the four header columns once a session holds two exercises. */
  lemma AsWrittenColumns(w: WorkoutSession, dateText: string -> string)
    requires CommaFree(w, dateText)
    ensures |Fields(Line(Row(w, dateText, AsWrittenNameSeparator)))| ==
              3 + (if |w.logs| == 0 then 1 else |w.logs|)
  {
    var row := Row(w, dateText, AsWrittenNameSeparator);
    var names := ExerciseNames(w.logs);
    var ex := row[3];
    Text.IntToStringAvoids(w.duration, ',');
    assert Text.Count(ex, ',') == (if |names| == 0 then 0 else |names| - 1) by {
      if |names| > 0 {
        assert Text.Count(AsWrittenNameSeparator, ',') == 1;
        Text.JoinCount(names, AsWrittenNameSeparator, ',');
      }
    }
    LineOfFour(row);
    CountLine(row[0], row[1], row[2], ex);
    Text.SplitCount(Line(row), ',');
  }

  lemma CountLine(a: string, b: string, c: string, d: string)
    requires ',' !in a && ',' !in b && ',' !in c
    ensures Text.Count(a + "," + (b + "," + (c + "," + d)), ',') == 3 + Text.Count(d, ',')
  {
    Text.CountAppend(c + ",", d, ',');
    Text.CountAppend(c, ",", ',');
    Text.CountAppend(b + ",", c + "," + d, ',');
    Text.CountAppend(b, ",", ',');
    Text.CountAppend(a + ",", b + "," + (c + "," + d), ',');
    Text.CountAppend(a, ",", ',');
  }

  /** The smallest case: a session of two exercises gives a five-field line
      under a four-column header. */
  lemma AsWrittenTwoExercises(dateText: string -> string)
    requires ',' !in dateText("2024-01-01")
    ensures var w := WorkoutSession("s", "2024-01-01", "Push",
                       [WorkoutLog("a", "1", "Bench Press", [], ""), WorkoutLog("b", "2", "Squat", [], "")], "", 45);
            |Fields(Line(Row(w, dateText, AsWrittenNameSeparator)))| == 5 &&
            |Header| == 4
  {
    var w := WorkoutSession("s", "2024-01-01", "Push",
               [WorkoutLog("a", "1", "Bench Press", [], ""), WorkoutLog("b", "2", "Squat", [], "")], "", 45);
    assert ',' !in "Bench Press" && ',' !in "Squat" && ',' !in "Push";
    AsWrittenColumns(w, dateText);
  }

  /** With the names joined by "; ", a comma-free session's line reads back
      as exactly its four fields, whatever number of exercises it holds. */
  lemma ExportColumns(w: WorkoutSession, dateText: string -> string)
    requires CommaFree(w, dateText)
    ensures Fields(Line(Row(w, dateText, NameSeparator))) == Row(w, dateText, NameSeparator)
    ensures |Fields(Line(Row(w, dateText, NameSeparator)))| == |Header|
  {
    var row := Row(w, dateText, NameSeparator);
    Text.IntToStringAvoids(w.duration, ',');
    assert ',' !in NameSeparator;
    Text.JoinAvoids(ExerciseNames(w.logs), NameSeparator, ',');
    Text.SplitJoin(row, ',');
  }
}
