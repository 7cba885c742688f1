/** `useRecipeList(refresh)`: the recipe list, a loading flag and an error
    text, refetched every time the `refresh` token changes. One fetch is
    modelled as the synchronous start of the effect followed by the settling
    of the `getRecipes()` promise. */
module RecipeListHook {
  import opened Common
  import opened Types

  const FetchFailedMessage := "Failed to fetch recipes"

  datatype State = State(recipes: seq<Recipe>, loading: bool, error: Option<string>)

  /** The state before the first fetch settles: no recipes, loading, no error. */
  function Initial(): (s: State)
    ensures s.recipes == [] && s.loading && s.error.None?
  {
    State([], true, None)
  }

  /** React runs the effect on mount and whenever `refresh` differs from the
      value of the previous render. */
  predicate RefetchNeeded(previous: Option<int>, refresh: int)
  {
    previous.None? || previous.value != refresh
  }

  /** The effect's synchronous part: raise the loading flag, keep the list and
      the error of the previous fetch on screen. */
  function Start(s: State): (t: State)
    ensures t.loading
    ensures t.recipes == s.recipes && t.error == s.error
  {
    s.(loading := true)
  }

  /** The promise settles: the fetched rows and no error, or the failure text
      and an empty list; the loading flag drops either way. */
  function Settle(s: State, outcome: Settled<seq<Recipe>>): (t: State)
    ensures !t.loading
    ensures outcome.Resolved? ==> t.recipes == outcome.value && t.error.None?
    ensures outcome.Rejected? ==> t.recipes == [] && t.error == Some(FetchFailedMessage)
  {
    match outcome
    case Resolved(rows) => State(rows, false, None)
    case Rejected => State([], false, Some(FetchFailedMessage))
  }

  /** One complete run of the effect. */
  function Fetch(s: State, outcome: Settled<seq<Recipe>>): (t: State)
    ensures !t.loading
    ensures t.error.None? <==> outcome.Resolved?
    ensures t.recipes == (if outcome.Resolved? then outcome.value else [])
  {
    Settle(Start(s), outcome)
  }

  /** Consecutive refetches, one per change of the refresh token. */
  function Replay(s: State, outcomes: seq<Settled<seq<Recipe>>>): State
    decreases |outcomes|
  {
    if |outcomes| == 0 then s else Replay(Fetch(s, outcomes[0]), outcomes[1..])
  }

  /** A completed fetch leaves nothing of the state it started from. */
  lemma FetchForgets(s1: State, s2: State, outcome: Settled<seq<Recipe>>)
    ensures Fetch(s1, outcome) == Fetch(s2, outcome)
  {
  }

  /** After any non-empty run of fetches the state is what the last fetch
      alone produces from the initial state; in particular it is not loading,
      and an earlier failure leaves no trace once a later fetch succeeds. */
  lemma {:induction false} LastFetchWins(s: State, outcomes: seq<Settled<seq<Recipe>>>)
    requires |outcomes| > 0
    ensures Replay(s, outcomes) == Fetch(Initial(), outcomes[|outcomes| - 1])
    ensures !Replay(s, outcomes).loading
    decreases |outcomes|
  {
    if |outcomes| == 1 {
      FetchForgets(s, Initial(), outcomes[0]);
    } else {
      LastFetchWins(Fetch(s, outcomes[0]), outcomes[1..]);
    }
  }

  /** What the recipes page shows for a state: the loading text, the error,
      the empty-list text, or the table. The page tests the error for
      truthiness, so an empty error text counts as no error. */
  datatype View = LoadingView | ErrorView(message: string) | EmptyView | TableView(rows: seq<Recipe>)

  function ViewOf(s: State): (v: View)
    ensures v.TableView? ==> !s.loading && (s.error.None? || s.error.value == "") && v.rows == s.recipes && |v.rows| > 0
    ensures v.ErrorView? ==> !s.loading && s.error == Some(v.message) && v.message != ""
    ensures v.LoadingView? <==> s.loading
    ensures !s.loading && s.error.Some? && s.error.value != "" ==> v == ErrorView(s.error.value)
    ensures !s.loading && (s.error.None? || s.error.value == "") ==>
      v == (if |s.recipes| == 0 then EmptyView else TableView(s.recipes))
  {
    if s.loading then LoadingView
    else if s.error.Some? && s.error.value != "" then ErrorView(s.error.value)
    else if |s.recipes| == 0 then EmptyView
    else TableView(s.recipes)
  }

  /** After a fetch the page shows the failure text when the fetch failed,
      and otherwise the table of exactly the fetched rows, or the empty-list
      text when there were none. */
  lemma ViewAfterFetch(s: State, outcome: Settled<seq<Recipe>>)
    ensures outcome.Rejected? ==> ViewOf(Fetch(s, outcome)) == ErrorView(FetchFailedMessage)
    ensures outcome.Resolved? && |outcome.value| == 0 ==> ViewOf(Fetch(s, outcome)) == EmptyView
    ensures outcome.Resolved? && |outcome.value| > 0 ==> ViewOf(Fetch(s, outcome)) == TableView(outcome.value)
  {
  }
}
