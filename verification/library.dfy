/** The exercise library's search: a case-insensitive name search combined
    with a category filter. */
module Library {
  import opened Types
  import Seqs
  import Text

  /** The category tabs: every category, or one. */
  datatype CategoryFilter = All | Only(category: Category)

  predicate InCategory(ex: Exercise, filter: CategoryFilter)
  {
    filter.All? || ex.category == filter.category
  }

  /** The name contains the search term, ignoring ASCII case. */
  predicate NameMatches(ex: Exercise, term: string)
  {
    Text.Contains(Text.Lower(ex.name), Text.Lower(term))
  }

  /** `filteredExercises`: the exercises passing both tests, in catalog order. */
  function FilterExercises(exercises: seq<Exercise>, term: string, filter: CategoryFilter): (r: seq<Exercise>)
    ensures forall ex :: ex in r <==> ex in exercises && NameMatches(ex, term) && InCategory(ex, filter)
    ensures Seqs.IsSubsequence(r, exercises)
    ensures |r| <= |exercises|
  {
    Seqs.Filter((ex: Exercise) => NameMatches(ex, term) && InCategory(ex, filter), exercises)
  }

  /** With an empty search box on the "All" tab the whole list shows. */
  lemma ShowsAllInitially(exercises: seq<Exercise>)
    ensures FilterExercises(exercises, "", All) == exercises
  {
    forall i | 0 <= i < |exercises|
      ensures NameMatches(exercises[i], "")
    {
      assert Text.Lower("") == "";
      Text.ContainsEmpty(Text.Lower(exercises[i].name));
    }
    Seqs.FilterKeepsAll((ex: Exercise) => NameMatches(ex, "") && InCategory(ex, All), exercises);
  }

  /** Searching and then picking a category tab is the same as applying both
      tests at once. */
  lemma SearchThenCategory(exercises: seq<Exercise>, term: string, c: Category)
    ensures FilterExercises(FilterExercises(exercises, term, All), "", Only(c)) == FilterExercises(exercises, term, Only(c))
  {
    var searched := (ex: Exercise) => NameMatches(ex, term) && InCategory(ex, All);
    var tab := (ex: Exercise) => NameMatches(ex, "") && InCategory(ex, Only(c));
    var both := (ex: Exercise) => NameMatches(ex, term) && InCategory(ex, Only(c));
    forall i | 0 <= i < |exercises|
      ensures both(exercises[i]) == (searched(exercises[i]) && tab(exercises[i]))
    {
      assert Text.Lower("") == "";
      Text.ContainsEmpty(Text.Lower(exercises[i].name));
    }
    Seqs.FilterFilter(searched, tab, both, exercises);
  }

  /** Typing the term in lower or upper case finds the same exercises. */
  lemma SearchIgnoresCase(exercises: seq<Exercise>, term: string, filter: CategoryFilter)
    ensures FilterExercises(exercises, Text.Lower(term), filter) == FilterExercises(exercises, term, filter)
  {
    Text.LowerIdempotent(term);
    Seqs.FilterAgree((ex: Exercise) => NameMatches(ex, Text.Lower(term)) && InCategory(ex, filter),
                     (ex: Exercise) => NameMatches(ex, term) && InCategory(ex, filter), exercises);
  }

  /** Applying the same search and tab to the result changes nothing. */
  lemma FilterTwice(exercises: seq<Exercise>, term: string, filter: CategoryFilter)
    ensures FilterExercises(FilterExercises(exercises, term, filter), term, filter) == FilterExercises(exercises, term, filter)
  {
    Seqs.FilterIdempotent((ex: Exercise) => NameMatches(ex, term) && InCategory(ex, filter), exercises);
  }
}
