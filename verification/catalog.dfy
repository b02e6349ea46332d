/** The static exercise catalog and the lookup `EXERCISES.find(e => e.id === id)`. */
module Catalog {
  import opened Types

  const Exercises: seq<Exercise> := [
    Exercise("1", "Bench Press", Strength, ["Chest", "Triceps", "Shoulders"],
             ["Lie on the bench", "Grip bar shoulder-width", "Lower to chest", "Push up"],
             "Barbell", Intermediate),
    Exercise("2", "Squat", Strength, ["Quads", "Glutes", "Hamstrings"],
             ["Feet shoulder-width apart", "Bar across upper back", "Lower hips", "Stand back up"],
             "Barbell", Intermediate),
    Exercise("3", "Deadlift", Strength, ["Back", "Glutes", "Hamstrings"],
             ["Feet hip-width", "Bend at hips", "Grip bar", "Lift using legs and back"],
             "Barbell", Advanced),
    Exercise("4", "Running", Cardio, ["Legs", "Heart"],
             ["Maintain steady pace", "Focus on breathing", "Good posture"],
             "None", Beginner),
    Exercise("5", "Yoga Flow", Flexibility, ["Full Body"],
             ["Flow through poses", "Deep breathing", "Hold stretches"],
             "Yoga Mat", Beginner)
  ]

  /** The first exercise of `catalog` with the given id, if any. */
  function Find(catalog: seq<Exercise>, id: string): (r: Option<Exercise>)
    ensures r.None? <==> forall i :: 0 <= i < |catalog| ==> catalog[i].id != id
    ensures r.Some? ==> r.value in catalog && r.value.id == id
    ensures r.Some? ==> exists i :: 0 <= i < |catalog| && catalog[i] == r.value &&
                                    forall j :: 0 <= j < i ==> catalog[j].id != id
  {
    if |catalog| == 0 then None
    else if catalog[0].id == id then Some(catalog[0])
    else
      var r := Find(catalog[1..], id);
      assert forall i :: 1 <= i < |catalog| ==> catalog[i] == catalog[1..][i - 1];
      r
  }
}
