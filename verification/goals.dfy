/** The goals screen: the progress percentage of a goal, the add form with
    its validation, and deletion. */
module Goals {
  import opened Types
  import Seqs

  /** Weight and body-fat goals are met by going down; the others by going up. */
  predicate IsDescending(kind: GoalType)
  {
    kind == WeightGoal || kind == BodyFatGoal
  }

  function Min(a: real, b: real): real
  {
    if a <= b then a else b
  }

  function Max(a: real, b: real): real
  {
    if a >= b then a else b
  }

  /** The unclamped percentage: for a descending goal the share of the
      current value still above the target (`current || 1` as divisor), for
      an ascending one current over target. */
  function RawProgress(g: Goal): (r: real)
    requires IsDescending(g.kind) || g.targetValue != 0.0
    ensures !IsDescending(g.kind) ==> r * g.targetValue == g.currentValue * 100.0
    ensures IsDescending(g.kind) && g.currentValue != 0.0 ==> r * g.currentValue == (g.currentValue - g.targetValue) * 100.0
    ensures IsDescending(g.kind) && g.currentValue == 0.0 ==> r == -g.targetValue * 100.0
  {
    if IsDescending(g.kind) then
      (g.currentValue - g.targetValue) / (if g.currentValue == 0.0 then 1.0 else g.currentValue) * 100.0
    else
      g.currentValue / g.targetValue * 100.0
  }

  /** The displayed progress. A descending goal measures the share of the
      current value still above the target, clamped to [0, 100], dividing by
      1 when the current value is 0. An ascending goal is current over target,
      capped at 100 but not clamped below. `None` stands for the non-finite
      values JavaScript produces for an ascending goal with target 0 and a
      current value that is not positive (NaN or -Infinity); a positive value
      over target 0 gives +Infinity, which the cap turns into 100. */
  function Progress(g: Goal): (p: Option<real>)
    ensures IsDescending(g.kind) ==> p.Some? && 0.0 <= p.value <= 100.0
    ensures !IsDescending(g.kind) ==> (p.None? <==> g.targetValue == 0.0 && g.currentValue <= 0.0)
    ensures p.Some? ==> p.value <= 100.0
    ensures !IsDescending(g.kind) && g.targetValue != 0.0 ==>
              && (RawProgress(g) < 100.0 ==> p == Some(RawProgress(g)))
              && (RawProgress(g) >= 100.0 ==> p == Some(100.0))
    ensures !IsDescending(g.kind) && g.targetValue == 0.0 && g.currentValue > 0.0 ==> p == Some(100.0)
    ensures IsDescending(g.kind) ==>
              && (RawProgress(g) <= 0.0 ==> p == Some(0.0))
              && (0.0 <= RawProgress(g) <= 100.0 ==> p == Some(RawProgress(g)))
              && (RawProgress(g) >= 100.0 ==> p == Some(100.0))
  {
    if IsDescending(g.kind) then
      Some(Max(0.0, Min(100.0, RawProgress(g))))
    else if g.targetValue == 0.0 then
      if g.currentValue > 0.0 then Some(100.0) else None
    else
      Some(Min(RawProgress(g), 100.0))
  }

  /** The "target secured" state: progress of at least 100. */
  predicate IsComplete(g: Goal)
    ensures IsComplete(g) <==> Progress(g) == Some(100.0)
  {
    Progress(g).Some? && Progress(g).value >= 100.0
  }

  /** An ascending goal with a positive target is complete exactly when the
      current value has reached the target. */
  lemma AscendingCompletion(g: Goal)
    requires !IsDescending(g.kind) && g.targetValue > 0.0
    ensures IsComplete(g) <==> g.currentValue >= g.targetValue
  {
    ScaledAtLeast(RawProgress(g), g.targetValue, g.currentValue);
  }

  /** With `r * t == c * 100` and `t` positive, `r` reaches 100 exactly when
      `c` reaches `t`. */
  lemma ScaledAtLeast(r: real, t: real, c: real)
    requires t > 0.0 && r * t == c * 100.0
    ensures r >= 100.0 <==> c >= t
  {
    if r >= 100.0 {
      assert r * t >= 100.0 * t;
    } else {
      assert r * t < 100.0 * t;
    }
  }

  /** A descending goal with a positive current value is complete exactly
      when its target is at most 0: reaching a positive target weight never
      shows as complete, because the formula measures the share of the
      current value above the target. */
  lemma DescendingCompletion(g: Goal)
    requires IsDescending(g.kind) && g.currentValue > 0.0
    ensures IsComplete(g) <==> g.targetValue <= 0.0
  {
    var c := g.currentValue;
    assert RawProgress(g) == (c - g.targetValue) / c * 100.0;
    if g.targetValue <= 0.0 {
      assert (c - g.targetValue) / c >= 1.0;
    } else {
      assert (c - g.targetValue) / c < 1.0;
    }
  }

  /** Worked examples. The first shows that the ascending formula has no
      lower clamp: a negative current value shows a negative percentage. */
  lemma ProgressExamples()
    ensures Progress(Goal("g", "t", 100.0, -50.0, "kg", "", StrengthGoal)) == Some(-50.0)
    ensures Progress(Goal("g", "t", 75.0, 80.0, "kg", "", WeightGoal)) == Some(6.25)
    ensures Progress(Goal("g", "t", 100.0, 50.0, "kg", "", StrengthGoal)) == Some(50.0)
    ensures Progress(Goal("g", "t", 100.0, 120.0, "kg", "", StrengthGoal)) == Some(100.0)
  {
  }

  /** The add form's state. */
  datatype Draft = Draft(title: string, targetValue: real, currentValue: real, unit: string, kind: GoalType, deadline: string)

  /** The form's initial state; `today` is the current date as text. */
  function InitialDraft(today: string): (d: Draft)
    ensures d.title == "" && d.targetValue == 0.0 && d.currentValue == 0.0
    ensures d.unit == "kg" && d.kind == StrengthGoal && d.deadline == today
  {
    Draft("", 0.0, 0.0, "kg", StrengthGoal, today)
  }

  /** The edits the form offers; none of them touches the current value. */
  datatype DraftEdit =
    | EditTitle(title: string)
    | EditKind(kind: GoalType)
    | EditUnit(unit: string)
    | EditTarget(target: real)
    | EditDeadline(deadline: string)

  function ApplyEdit(d: Draft, e: DraftEdit): Draft
  {
    match e
    case EditTitle(t) => d.(title := t)
    case EditKind(k) => d.(kind := k)
    case EditUnit(u) => d.(unit := u)
    case EditTarget(v) => d.(targetValue := v)
    case EditDeadline(s) => d.(deadline := s)
  }

  function ApplyEdits(d: Draft, edits: seq<DraftEdit>): Draft
    decreases |edits|
  {
    if |edits| == 0 then d else ApplyEdits(ApplyEdit(d, edits[0]), edits[1..])
  }

  /** Whatever the user types, the form keeps the current value it started with. */
  lemma {:induction false} EditsKeepCurrent(d: Draft, edits: seq<DraftEdit>)
    ensures ApplyEdits(d, edits).currentValue == d.currentValue
    decreases |edits|
  {
    if |edits| > 0 {
      EditsKeepCurrent(ApplyEdit(d, edits[0]), edits[1..]);
    }
  }

  /** `handleAdd`'s guard: a non-empty title and a non-zero target. */
  predicate IsValid(d: Draft)
  {
    d.title != "" && d.targetValue != 0.0
  }

  function GoalOf(d: Draft, id: string): Goal
  {
    Goal(id, d.title, d.targetValue, d.currentValue, d.unit, d.deadline, d.kind)
  }

  /** `handleAdd`: appends the drafted goal under a fresh id, or does nothing
      when the draft fails the guard. */
  function Add(goals: seq<Goal>, d: Draft, id: string): (r: seq<Goal>)
    ensures |r| == |goals| + (if IsValid(d) then 1 else 0)
    ensures r[..|goals|] == goals
    ensures IsValid(d) ==> r[|goals|] == Goal(id, d.title, d.targetValue, d.currentValue, d.unit, d.deadline, d.kind)
  {
    if !IsValid(d) then goals else goals + [GoalOf(d, id)]
  }

  /** The delete button: drops the goals carrying `id`, keeping the order of the others. */
  function Delete(goals: seq<Goal>, id: string): (r: seq<Goal>)
    ensures forall g :: g in r <==> g in goals && g.id != id
    ensures Seqs.IsSubsequence(r, goals)
  {
    Seqs.Filter((g: Goal) => g.id != id, goals)
  }

  /** Deleting a goal just added under a fresh id restores the list. */
  lemma DeleteUndoesAdd(goals: seq<Goal>, d: Draft, id: string)
    requires forall i :: 0 <= i < |goals| ==> goals[i].id != id
    ensures Delete(Add(goals, d, id), id) == goals
  {
    var keep := (g: Goal) => g.id != id;
    if IsValid(d) {
      Seqs.FilterAppend(keep, goals, [GoalOf(d, id)]);
    }
    Seqs.FilterKeepsAll(keep, goals);
  }

  /** Every goal created through the form starts with current value 0, so
      with a positive target it shows 0% and is not complete, of any kind. */
  lemma FormGoalsStartAtZero(goals: seq<Goal>, today: string, edits: seq<DraftEdit>, id: string)
    requires IsValid(ApplyEdits(InitialDraft(today), edits))
    requires ApplyEdits(InitialDraft(today), edits).targetValue > 0.0
    ensures var added := Add(goals, ApplyEdits(InitialDraft(today), edits), id)[|goals|];
            added.currentValue == 0.0 && Progress(added) == Some(0.0) && !IsComplete(added)
  {
    EditsKeepCurrent(InitialDraft(today), edits);
  }
}
