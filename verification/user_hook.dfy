/** `useUser(id)`: the profile row of one user, fetched whenever the id
    changes, with a loading flag, an error text and `updateProfile`. The
    awaited service calls are parameters: how each promise settled. */
module UserHook {
  import opened Common
  import opened Types

  const FetchFailedMessage := "Failed to fetch user"
  const UpdateFailedMessage := "Failed to update user"

  datatype State = State(user: Option<User>, loading: bool, error: Option<string>)

  /** `!!id`: an id is present and non-empty. */
  predicate HasId(id: Option<string>)
  {
    id.Some? && id.value != ""
  }

  /** The first render: no user, no error, and loading exactly when there is
      an id to fetch. */
  function Initial(id: Option<string>): (s: State)
    ensures s.user.None? && s.error.None?
    ensures s.loading <==> HasId(id)
  {
    State(None, HasId(id), None)
  }

  /** The state after one run of the id effect, and the id it fetched. */
  datatype Effect = Effect(state: State, fetched: Option<string>)

  /** The id effect: without an id everything is cleared and nothing is
      fetched; otherwise `getUserById(id)` is awaited and its row (which the
      service reports as `null` when the row cannot be read) replaces the user,
      or a thrown error clears the user and sets the failure text. */
  function RunEffect(s: State, id: Option<string>, outcome: Settled<Option<User>>): (e: Effect)
    ensures !HasId(id) ==> e == Effect(State(None, false, None), None)
    ensures HasId(id) ==> e.fetched == Some(id.value) && !e.state.loading
    ensures HasId(id) && outcome.Resolved? ==> e.state.user == outcome.value && e.state.error.None?
    ensures HasId(id) && outcome.Rejected? ==> e.state.user.None? && e.state.error == Some(FetchFailedMessage)
  {
    if !HasId(id) then Effect(State(None, false, None), None)
    else
      var started := s.(loading := true);
      var settled := match outcome
        case Resolved(row) => started.(user := row, error := None)
        case Rejected => started.(error := Some(FetchFailedMessage), user := None);
      Effect(settled.(loading := false), Some(id.value))
  }

  /** The state after `updateProfile`, the value it returned, and the call it
      made to `updateUserProfile`. */
  datatype Updated = Updated(state: State, returned: Option<User>, call: Option<ProfileCall>)

  /** `updateProfile(first, last)`: without an id it returns `null` and
      touches nothing. Otherwise it sends the names for the hook's id; the row
      it gets back becomes the user and is returned, and a thrown error keeps
      the old user, sets the failure text and returns `null`. */
  function UpdateProfile(s: State, id: Option<string>, first: string, last: string,
                         outcome: Settled<Option<User>>): (u: Updated)
    ensures !HasId(id) ==> u == Updated(s, None, None)
    ensures HasId(id) ==> u.call == Some(ProfileCall(id.value, first, last)) && !u.state.loading
    ensures HasId(id) && outcome.Resolved? ==>
      u.state == State(outcome.value, false, None) && u.returned == outcome.value
    ensures HasId(id) && outcome.Rejected? ==>
      u.state == State(s.user, false, Some(UpdateFailedMessage)) && u.returned.None?
  {
    if !HasId(id) then Updated(s, None, None)
    else
      var call := Some(ProfileCall(id.value, first, last));
      var started := s.(loading := true, error := None);
      match outcome
      case Resolved(row) => Updated(started.(user := row).(loading := false), row, call)
      case Rejected => Updated(started.(error := Some(UpdateFailedMessage)).(loading := false), None, call)
  }

  /** What can happen to a mounted hook whose id does not change: the id
      effect runs, or `updateProfile` is called and settles. */
  datatype Event =
    | Mounted(fetch: Settled<Option<User>>)
    | ProfileUpdated(first: string, last: string, outcome: Settled<Option<User>>)

  function Step(s: State, id: Option<string>, e: Event): State
  {
    match e
    case Mounted(fetch) => RunEffect(s, id, fetch).state
    case ProfileUpdated(first, last, outcome) => UpdateProfile(s, id, first, last, outcome).state
  }

  function Replay(s: State, id: Option<string>, events: seq<Event>): State
    decreases |events|
  {
    if |events| == 0 then s else Replay(Step(s, id, events[0]), id, events[1..])
  }

  /** The error is one of the hook's two texts, and a failed fetch never
      leaves a user behind. */
  predicate Consistent(s: State)
  {
    && (s.error.None? || s.error == Some(FetchFailedMessage) || s.error == Some(UpdateFailedMessage))
    && (s.error == Some(FetchFailedMessage) ==> s.user.None?)
  }

  /** Every completed effect run and every completed update keeps the state
      consistent, and leaves it not loading unless nothing was started. */
  lemma StepConsistent(s: State, id: Option<string>, e: Event)
    requires Consistent(s)
    ensures Consistent(Step(s, id, e))
    ensures HasId(id) || !s.loading ==> !Step(s, id, e).loading
  {
  }

  /** Once the first event has completed the hook is consistent and no longer
      loading, whatever happens afterwards, and without an id it stays empty. */
  lemma {:induction false} ReplayConsistent(s: State, id: Option<string>, events: seq<Event>)
    requires Consistent(s)
    requires |events| > 0 || !s.loading
    requires HasId(id) || !s.loading
    ensures Consistent(Replay(s, id, events))
    ensures !Replay(s, id, events).loading
    ensures !HasId(id) && s.user.None? && s.error.None? ==> Replay(s, id, events) == State(None, false, None)
    decreases |events|
  {
    if |events| > 0 {
      StepConsistent(s, id, events[0]);
      ReplayConsistent(Step(s, id, events[0]), id, events[1..]);
    }
  }

  /** The hook's four documented scenarios: a successful fetch, a failed
      fetch, an update that succeeds and an update that fails. */
  lemma TestScenarios(row: User, renamed: User)
    ensures var e := RunEffect(Initial(Some("test-id")), Some("test-id"), Resolved(Some(row)));
      Initial(Some("test-id")).loading && e.fetched == Some("test-id")
      && e.state == State(Some(row), false, None)
    ensures RunEffect(Initial(Some("bad-id")), Some("bad-id"), Rejected).state
      == State(None, false, Some(FetchFailedMessage))
    ensures var u := UpdateProfile(State(Some(row), false, None), Some("test-id"), "Jane", "Smith", Resolved(Some(renamed)));
      u.returned == Some(renamed) && u.state.user == Some(renamed) && u.state.error.None?
    ensures var u := UpdateProfile(State(Some(row), false, None), Some("test-id"), "Jane", "Smith", Rejected);
      u.returned.None? && u.state.error == Some(UpdateFailedMessage)
  {
  }
}
