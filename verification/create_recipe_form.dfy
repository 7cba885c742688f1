/** The create-recipe form: title, description, editable lists of ingredients
    and steps, an image URL, and the submit handler that validates the form
    and calls `createRecipe`. */
module CreateRecipeForm {
  import opened Common
  import opened Strings
  import opened Types

  const RequiredMessage := "Title, description, ingredients, and steps are required."
  const CreateFailedMessage := "Failed to create recipe."

  datatype Form = Form(
    title: string,
    description: string,
    ingredients: seq<string>,
    steps: seq<string>,
    imageUrl: string,
    loading: bool,
    error: Option<string>,
    success: bool)

  /** The form as first rendered: empty fields and one empty row per list. */
  function Initial(): (f: Form)
    ensures f.ingredients == [""] && f.steps == [""]
    ensures f.title == "" && f.description == "" && f.imageUrl == ""
    ensures !f.loading && f.error.None? && !f.success
  {
    Form("", "", [""], [""], "", false, None, false)
  }

  /** `xs.map((x, i) => i === idx ? value : x)`: the element at `idx` is
      replaced; an index outside the list changes nothing. */
  function ReplaceAt(xs: seq<string>, idx: int, value: string): (r: seq<string>)
    ensures 0 <= idx < |xs| ==> r == xs[..idx] + [value] + xs[idx + 1..]
    ensures !(0 <= idx < |xs|) ==> r == xs
  {
    var r := seq(|xs|, i requires 0 <= i < |xs| => if i == idx then value else xs[i]);
    if 0 <= idx < |xs| then
      assert r == xs[..idx] + [value] + xs[idx + 1..];
      r
    else
      assert r == xs;
      r
  }

  /** `xs.filter((_, i) => i !== idx)`: the element at `idx` is dropped; an
      index outside the list changes nothing. */
  function RemoveAt(xs: seq<string>, idx: int): (r: seq<string>)
    ensures 0 <= idx < |xs| ==> r == xs[..idx] + xs[idx + 1..]
    ensures !(0 <= idx < |xs|) ==> r == xs
    decreases |xs|
  {
    if |xs| == 0 then []
    else if idx == 0 then xs[1..]
    else
      var rest := RemoveAt(xs[1..], idx - 1);
      assert [xs[0]] + xs[1..] == xs;
      [xs[0]] + rest
  }

  /** The edits the form's controls make. */
  datatype Edit =
    | SetTitle(title: string)
    | SetDescription(description: string)
    | SetImageUrl(url: string)
    | ChangeIngredient(idx: int, value: string)
    | AddIngredient
    | RemoveIngredient(idx: int)
    | ChangeStep(idx: int, value: string)
    | AddStep
    | RemoveStep(idx: int)

  function Apply(f: Form, e: Edit): (g: Form)
    ensures g.loading == f.loading && g.error == f.error && g.success == f.success
    ensures !e.SetTitle? ==> g.title == f.title
    ensures !e.SetDescription? ==> g.description == f.description
    ensures !e.SetImageUrl? ==> g.imageUrl == f.imageUrl
    ensures !(e.ChangeIngredient? || e.AddIngredient? || e.RemoveIngredient?) ==> g.ingredients == f.ingredients
    ensures !(e.ChangeStep? || e.AddStep? || e.RemoveStep?) ==> g.steps == f.steps
  {
    match e
    case SetTitle(t) => f.(title := t)
    case SetDescription(d) => f.(description := d)
    case SetImageUrl(u) => f.(imageUrl := u)
    case ChangeIngredient(idx, v) => f.(ingredients := ReplaceAt(f.ingredients, idx, v))
    case AddIngredient => f.(ingredients := f.ingredients + [""])
    case RemoveIngredient(idx) => f.(ingredients := RemoveAt(f.ingredients, idx))
    case ChangeStep(idx, v) => f.(steps := ReplaceAt(f.steps, idx, v))
    case AddStep => f.(steps := f.steps + [""])
    case RemoveStep(idx) => f.(steps := RemoveAt(f.steps, idx))
  }

  /** The control for an edit is on screen: every row has a text field, and a
      row has a remove button only while its list has more than one row. */
  predicate Offered(f: Form, e: Edit)
  {
    match e
    case ChangeIngredient(idx, _) => 0 <= idx < |f.ingredients|
    case RemoveIngredient(idx) => |f.ingredients| > 1 && 0 <= idx < |f.ingredients|
    case ChangeStep(idx, _) => 0 <= idx < |f.steps|
    case RemoveStep(idx) => |f.steps| > 1 && 0 <= idx < |f.steps|
    case _ => true
  }

  predicate ListsNonEmpty(f: Form)
  {
    |f.ingredients| > 0 && |f.steps| > 0
  }

  /** What an offered edit does to the lengths of the two lists: a change
      keeps them, an add appends one blank row after the unchanged rows, a
      remove shrinks one by one but never empties it. */
  lemma ApplyLengths(f: Form, e: Edit)
    requires Offered(f, e)
    ensures var g := Apply(f, e);
      && |g.ingredients| == |f.ingredients| + (if e.AddIngredient? then 1 else if e.RemoveIngredient? then -1 else 0)
      && |g.steps| == |f.steps| + (if e.AddStep? then 1 else if e.RemoveStep? then -1 else 0)
    ensures ListsNonEmpty(f) ==> ListsNonEmpty(Apply(f, e))
    ensures e.AddIngredient? ==> var g := Apply(f, e);
      g.ingredients[..|f.ingredients|] == f.ingredients && g.ingredients[|f.ingredients|] == ""
    ensures e.AddStep? ==> var g := Apply(f, e);
      g.steps[..|f.steps|] == f.steps && g.steps[|f.steps|] == ""
  {
  }

  function ApplyAll(f: Form, edits: seq<Edit>): Form
    decreases |edits|
  {
    if |edits| == 0 then f else ApplyAll(Apply(f, edits[0]), edits[1..])
  }

  /** Each edit of the sequence is offered by the form it is applied to. */
  predicate AllOffered(f: Form, edits: seq<Edit>)
    decreases |edits|
  {
    |edits| == 0 || (Offered(f, edits[0]) && AllOffered(Apply(f, edits[0]), edits[1..]))
  }

  /** Through any sequence of edits the user can make, neither list ever
      becomes empty. */
  lemma {:induction false} ReachableListsNonEmpty(f: Form, edits: seq<Edit>)
    requires ListsNonEmpty(f)
    requires AllOffered(f, edits)
    ensures ListsNonEmpty(ApplyAll(f, edits))
    decreases |edits|
  {
    if |edits| > 0 {
      ApplyLengths(f, edits[0]);
      ReachableListsNonEmpty(Apply(f, edits[0]), edits[1..]);
    }
  }

  /** Every field is filled in: title, description, and every ingredient and
      step row non-empty. */
  function Complete(f: Form): (ok: bool)
    ensures ok <==> f.title != "" && f.description != "" && "" !in f.ingredients && "" !in f.steps
    ensures ok ==> FilterNonEmpty(f.ingredients) == f.ingredients && FilterNonEmpty(f.steps) == f.steps
  {
    && f.title != "" && f.description != ""
    && (forall i :: 0 <= i < |f.ingredients| ==> f.ingredients[i] != "")
    && (forall i :: 0 <= i < |f.steps| ==> f.steps[i] != "")
  }

  /** The row handed to `createRecipe`. */
  datatype NewRecipe = NewRecipe(
    title: string,
    description: string,
    ingredients: seq<string>,
    steps: seq<string>,
    userId: string,
    imageUrl: string)

  /** The form after a submit, the row sent (if any), and whether the
      `onCreated` callback was called. */
  datatype Submitted = Submitted(form: Form, create: Option<NewRecipe>, notified: bool)

  /** `handleSubmit`: an incomplete form gets the required-fields message and
      nothing is sent. Otherwise the row is sent with the lists filtered of
      empty rows (which, the form being complete, leaves them as they are);
      a `null` reply keeps the form and sets the failure text, a created row
      resets the form, raises the success flag and calls `onCreated` when one
      was given. A thrown `createRecipe` escapes the handler after the loading
      flag was raised, so the form stays loading with no alert. */
  function HandleSubmit(f: Form, userId: string, reply: Settled<Option<Recipe>>, hasOnCreated: bool): (o: Submitted)
    ensures o.create.Some? <==> Complete(f)
    ensures o.create.Some? ==>
      o.create.value == NewRecipe(f.title, f.description, f.ingredients, f.steps, userId, f.imageUrl)
    ensures !Complete(f) ==>
      o.form == f.(error := Some(RequiredMessage), success := false) && !o.notified
    ensures Complete(f) && reply == Resolved(None) ==>
      o.form == f.(loading := false, error := Some(CreateFailedMessage), success := false) && !o.notified
    ensures Complete(f) && reply.Resolved? && reply.value.Some? ==>
      o.form == Initial().(success := true) && o.notified == hasOnCreated
    ensures Complete(f) && reply.Rejected? ==>
      o.form == f.(loading := true, error := None, success := false) && !o.notified
  {
    var cleared := f.(error := None, success := false);
    if !Complete(f) then
      Submitted(cleared.(error := Some(RequiredMessage)), None, false)
    else
      var row := NewRecipe(f.title, f.description, FilterNonEmpty(f.ingredients),
                           FilterNonEmpty(f.steps), userId, f.imageUrl);
      var waiting := cleared.(loading := true);
      match reply
      case Rejected => Submitted(waiting, Some(row), false)
      case Resolved(Some(_)) => Submitted(Initial().(success := true), Some(row), hasOnCreated)
      case Resolved(None) =>
        Submitted(waiting.(loading := false, error := Some(CreateFailedMessage)), Some(row), false)
  }

  /** The initial form is incomplete, so submitting it untouched sends
      nothing. */
  lemma InitialNotSubmitted(userId: string, reply: Settled<Option<Recipe>>, hasOnCreated: bool)
    ensures HandleSubmit(Initial(), userId, reply, hasOnCreated).create.None?
    ensures HandleSubmit(Initial(), userId, reply, hasOnCreated).form.error == Some(RequiredMessage)
  {
    assert !Complete(Initial());
  }

  /** After a successful creation the form is back to its initial contents
      (with the success notice shown), so an immediate second submit sends
      nothing. */
  lemma NoDoubleCreate(f: Form, userId: string, row: Recipe, hasOnCreated: bool,
                       reply2: Settled<Option<Recipe>>)
    requires Complete(f)
    ensures var o := HandleSubmit(f, userId, Resolved(Some(row)), hasOnCreated);
      HandleSubmit(o.form, userId, reply2, hasOnCreated).create.None?
  {
    assert !Complete(Initial().(success := true)) by {
      assert Initial().(success := true).title == "";
    }
  }

  /** Changing an offered ingredient row changes only that row. */
  lemma ChangeOnlyThatRow(f: Form, idx: int, value: string, j: int)
    requires 0 <= idx < |f.ingredients| && 0 <= j < |f.ingredients|
    ensures Apply(f, ChangeIngredient(idx, value)).ingredients[j] == (if j == idx then value else f.ingredients[j])
  {
  }
}
