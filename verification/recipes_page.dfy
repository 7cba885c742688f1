/** The recipes page: inline editing of one row at a time, deletion, and the
    create dialog. Every mutation bumps the `refresh` counter, which is the
    token the recipe-list hook refetches on. */
module RecipesPage {
  import opened Common
  import opened Types
  import opened RecipeDraft
  import RecipeListHook

  /** The page's own state: the refresh counter, the row being edited (if
      any), the four edit drafts, and whether the create dialog is open. */
  datatype Page = Page(
    refresh: int,
    editingId: Option<string>,
    editTitle: string,
    editDescription: string,
    editIngredients: string,
    editSteps: string,
    createOpen: bool)

  /** No row is being edited and every draft is empty. */
  predicate Idle(p: Page)
  {
    p.editingId.None? && p.editTitle == "" && p.editDescription == ""
    && p.editIngredients == "" && p.editSteps == ""
  }

  function Initial(): (p: Page)
    ensures Idle(p) && p.refresh == 0 && !p.createOpen
  {
    Page(0, None, "", "", "", "", false)
  }

  /** `handleEdit(recipe)`: the row becomes the edited one and the drafts are
      loaded from it, each list as its newline-joined draft. */
  function HandleEdit(p: Page, r: Recipe): (q: Page)
    ensures q.editingId == Some(r.id)
    ensures q.editTitle == r.title && q.editDescription == r.description
    ensures q.editIngredients == DraftOf(r.ingredients) && q.editSteps == DraftOf(r.steps)
    ensures q.refresh == p.refresh && q.createOpen == p.createOpen
  {
    p.(editingId := Some(r.id), editTitle := r.title, editDescription := r.description,
       editIngredients := DraftOf(r.ingredients), editSteps := DraftOf(r.steps))
  }

  /** `handleCancel`: back to no edited row with empty drafts; nothing else
      changes, and nothing is sent. */
  function HandleCancel(p: Page): (q: Page)
    ensures Idle(q)
    ensures q.refresh == p.refresh && q.createOpen == p.createOpen
  {
    p.(editingId := None, editTitle := "", editDescription := "", editIngredients := "", editSteps := "")
  }

  /** The partial row `handleSave` hands to `updateRecipe`. */
  datatype RecipeUpdate = RecipeUpdate(title: string, description: string, ingredients: seq<string>, steps: seq<string>)

  /** The page after a save, the id saved and the update sent for it. */
  datatype Saved = Saved(page: Page, id: string, update: RecipeUpdate)

  /** `handleSave(id)`: sends the drafts, the two lists normalised, then
      leaves edit mode and bumps the refresh counter. The update's result is
      not looked at, so the same happens whether or not it succeeded; the
      drafts themselves are left in place. */
  function HandleSave(p: Page, id: string): (o: Saved)
    ensures o.id == id
    ensures o.update.title == p.editTitle && o.update.description == p.editDescription
    ensures o.update.ingredients == Normalize(p.editIngredients)
    ensures o.update.steps == Normalize(p.editSteps)
    ensures o.page.editingId.None? && o.page.refresh == p.refresh + 1
    ensures o.page == p.(editingId := None, refresh := o.page.refresh)
  {
    var update := RecipeUpdate(p.editTitle, p.editDescription, Normalize(p.editIngredients), Normalize(p.editSteps));
    Saved(p.(editingId := None, refresh := p.refresh + 1), id, update)
  }

  /** `handleDelete(id)`: asks for the row to be deleted and bumps the
      refresh counter; the boolean result is not looked at. */
  datatype Deleted = Deleted(page: Page, id: string)

  function HandleDelete(p: Page, id: string): (o: Deleted)
    ensures o.id == id
    ensures o.page.refresh == p.refresh + 1
    ensures o.page == p.(refresh := o.page.refresh)
  {
    Deleted(p.(refresh := p.refresh + 1), id)
  }

  /** `handleCreated`, the form's `onCreated` callback: closes the dialog and
      bumps the refresh counter. */
  function HandleCreated(p: Page): (q: Page)
    ensures !q.createOpen && q.refresh == p.refresh + 1
    ensures q == p.(createOpen := false, refresh := q.refresh)
  {
    p.(createOpen := false, refresh := p.refresh + 1)
  }

  /** The "Create Recipe" button (open) and the dialog's close (closed). */
  function SetCreateOpen(p: Page, open: bool): (q: Page)
    ensures q.createOpen == open
    ensures q == p.(createOpen := q.createOpen)
  {
    p.(createOpen := open)
  }

  /** What a saved list field becomes once it has made the round trip through
      its draft. */
  function SavedList(f: ListField): seq<string>
  {
    match f
    case Items(items) => items
    case Text(t) => Normalize(t)
    case Absent => []
  }

  /** Edit followed by an untouched save writes back the row's own title and
      description, and each list as it was when its elements were already
      clean; a plain-text field comes back normalised, a missing one empty. */
  lemma EditThenSave(p: Page, r: Recipe)
    requires r.ingredients.Items? ==> forall i :: 0 <= i < |r.ingredients.items| ==> Clean(r.ingredients.items[i])
    requires r.steps.Items? ==> forall i :: 0 <= i < |r.steps.items| ==> Clean(r.steps.items[i])
    ensures HandleSave(HandleEdit(p, r), r.id).update
      == RecipeUpdate(r.title, r.description, SavedList(r.ingredients), SavedList(r.steps))
  {
    ListRoundTrip(r.ingredients);
    ListRoundTrip(r.steps);
  }

  /** One list field through draft and normalisation. */
  lemma ListRoundTrip(f: ListField)
    requires f.Items? ==> forall i :: 0 <= i < |f.items| ==> Clean(f.items[i])
    ensures Normalize(DraftOf(f)) == SavedList(f)
  {
    match f
    case Items(items) =>
      NormalizeRoundTrip(items);
    case Text(t) =>
    case Absent =>
      NormalizeEmpty();
  }

  /** Saving twice in a row sends the same lists: a saved list is a fixed
      point of the draft round trip. */
  lemma SaveIsStable(p: Page, id: string)
    ensures var u := HandleSave(p, id).update;
      Normalize(Strings.Join(u.ingredients, '\n')) == u.ingredients
      && Normalize(Strings.Join(u.steps, '\n')) == u.steps
  {
    NormalizeIdempotent(p.editIngredients);
    NormalizeIdempotent(p.editSteps);
  }

  /** Starting an edit and cancelling it is the same as cancelling: the drafts
      a cancelled edit loaded leave no trace. */
  lemma EditThenCancel(p: Page, r: Recipe)
    ensures HandleCancel(HandleEdit(p, r)) == HandleCancel(p)
  {
  }

  /** Saving, deleting and finishing a creation each change the refresh token,
      so the recipe list is fetched again; opening or closing the dialog,
      editing and cancelling do not. */
  lemma MutationsRefetch(p: Page, r: Recipe, id: string, open: bool)
    ensures RecipeListHook.RefetchNeeded(Some(p.refresh), HandleSave(p, id).page.refresh)
    ensures RecipeListHook.RefetchNeeded(Some(p.refresh), HandleDelete(p, id).page.refresh)
    ensures RecipeListHook.RefetchNeeded(Some(p.refresh), HandleCreated(p).refresh)
    ensures !RecipeListHook.RefetchNeeded(Some(p.refresh), HandleEdit(p, r).refresh)
    ensures !RecipeListHook.RefetchNeeded(Some(p.refresh), HandleCancel(p).refresh)
    ensures !RecipeListHook.RefetchNeeded(Some(p.refresh), SetCreateOpen(p, open).refresh)
  {
  }

  /** Whether row `id` is shown with text fields instead of its values. */
  predicate RowEditing(p: Page, id: string)
  {
    p.editingId == Some(id)
  }

  /** At most one row is in edit mode: after an edit it is exactly the chosen
      row, and after cancelling that edit no row is. */
  lemma OneRowEditing(p: Page, r: Recipe, other: string)
    ensures RowEditing(HandleEdit(p, r), r.id)
    ensures other != r.id ==> !RowEditing(HandleEdit(p, r), other)
    ensures !RowEditing(HandleCancel(HandleEdit(p, r)), other)
  {
  }
}
