# Recipe app: a Dafny model of its forms, pages and hooks

This project models the client-side behaviour of a small recipe web application. It covers:

- **Authentication forms.** The login form, the stand-alone login page and the registration page. The model covers their validation chains, the e-mail pattern, the sign-in and sign-up calls, the follow-up profile write, and the alerts and navigation that result.
- **Recipes page.** Inline editing of one row: a list is edited as newline-separated text and saved back split, trimmed and filtered. The page can also delete a row and open the create dialog. Every save, delete and creation bumps a refresh counter.
- **Create-recipe form.** Dynamic ingredient and step rows and the submit handler.
- **User avatar.** The initials the avatar shows.
- **`useRecipeList` and `useUser` hooks.** Loading, error and refetch behaviour.

Every handler is a pure function. React state setters become fields of a returned record. The backend call a handler makes is returned as a value (`Option<…>`). How the awaited promise settled is a parameter: `Settled<T>` distinguishes a resolved value from a thrown error, and `Option<…>` stands for a reply that may be `null`.

Modules, one per source file plus shared pieces:

- `Common`: `Option`, `Settled`.
- `Strings`: `split`, `join`, `trim`, `filter(Boolean)` and upper-casing, over `seq<char>`.
- `Types`: the recipe and user rows, and the auth error.
- `EmailPattern`: the pattern `^[\w-.]+@([\w-]+\.)+[\w-]{2,4}$`. It is read structurally by splitting on `@` and `.`. That reading is proved equal to a regex-shaped reference definition.
- `Validation`: ordered guards where the first failure decides the message.
- `LoginForm`, `LoginPage`, `RegisterPage`, `RecipeDraft`, `RecipesPage`, `CreateRecipeForm`, `UserAvatar`, `RecipeListHook`, `UserHook`.

On the registration page, the user id used for the profile write is the auth context's user as the submit handler sees it. That is the value captured when the page last rendered, not the account the sign-up has just created. So a visitor who was not signed in before submitting gets no profile write. The model takes that id as a parameter, `heldUserId`.

## Model

| member | source | states |
|---|---|---|
| Strings.Join | src/app/recipes/page.tsx:61 | `join` writes the separator between neighbouring pieces; `JoinSplit` and `SplitJoin` make it the inverse of `Split` |
| Strings.JoinSeparators | src/app/recipes/page.tsx:61 | joining n separator-free pieces writes exactly n − 1 separators (none for the empty list) |
| Strings.Split | src/app/recipes/page.tsx:78 | `split` on one character yields at least one piece and no piece contains the separator |
| Strings.JoinSplit | src/app/recipes/page.tsx:61-79 | joining the pieces of a split with the same separator restores the string |
| Strings.SplitJoin | src/app/recipes/page.tsx:61-79 | splitting the join of separator-free pieces restores the pieces (at least one piece) |
| Strings.SplitHead | src/components/LoginForm.tsx:26 | a split with two or more pieces is the first piece, the separator, and a remainder that splits into the other pieces; this is how an address is cut at its '@' |
| Strings.TrimStart | src/app/recipes/page.tsx:78 | the result is a suffix, starts with a non-space, and everything dropped is white space |
| Strings.TrimAll | src/app/recipes/page.tsx:78 | `map(s => s.trim())` keeps the length and trims each element in place |
| Strings.TrimEnd | src/app/recipes/page.tsx:78 | the result is a prefix, ends with a non-space, and everything dropped is white space |
| Strings.Trim | src/app/recipes/page.tsx:78 | `trim` leaves no white space at either end, only uses characters of the input, and leaves a trimmed string alone; the result is one contiguous slice of the input and everything cut off on either side is white space |
| Strings.FilterNonEmpty | src/components/CreateRecipeForm.tsx:52-53 | `filter(Boolean)` keeps exactly the non-empty elements, each element of the input that is non-empty survives, and a list without empty strings is returned unchanged |
| Strings.FilterAppend | src/components/CreateRecipeForm.tsx:52-53 | filtering a concatenation is the concatenation of the filtered parts, so survivors keep their order and their multiplicity |
| Strings.FilterOne | src/components/CreateRecipeForm.tsx:52-53 | a one-element list keeps its element iff it is non-empty |
| Strings.SplitConcat | src/app/recipes/page.tsx:78 | splitting two strings joined by the separator gives the pieces of the first followed by the pieces of the second |
| Strings.JoinAppend | src/app/recipes/page.tsx:61 | joining two non-empty lists one after the other puts exactly one separator between their joins |
| Strings.TrimAllAppend | src/app/recipes/page.tsx:78 | trimming every element of a concatenation trims each part in place |
| Strings.Upper | src/components/UserAvatar.tsx:18 | upper-casing keeps the length and maps every ASCII lower-case letter to its capital |
| Types.MessageOr | src/components/LoginForm.tsx:39 | `error.message \|\| fallback` is the message when it is non-empty and the fallback otherwise; never empty with a non-empty fallback |
| EmailPattern.IsValidEmail | src/components/LoginForm.tsx:26 | the `test` of the e-mail pattern, read structurally: `EmailParts` and `EmailCons` show it holds exactly for a `[\w-.]+` local part, one '@' and a dotted domain; `EmailIsRegex` equates it with the pattern |
| EmailPattern.EmailParts | src/components/LoginForm.tsx:26 | an accepted address has an '@' after a non-empty local part, with a valid domain after it |
| EmailPattern.EmailCons | src/components/LoginForm.tsx:26 | a valid local part, an '@' and a valid domain without '@' always make an accepted address |
| EmailPattern.EmailIsRegex | src/components/LoginForm.tsx:26 | the structural reading of the address (one '@', a `[\w-.]+` local part, dot-separated `[\w-]+` labels ending in a 2–4 character label) accepts exactly what the regular expression matches |
| EmailPattern.DomainIsGroups | src/components/LoginForm.tsx:26 | the domain split into labels is exactly the regex group `([\w-]+\.)+[\w-]{2,4}` |
| EmailPattern.DomainToGroups | src/components/LoginForm.tsx:26 | every structurally valid domain is matched by the regex group |
| EmailPattern.GroupsToDomain | src/components/LoginForm.tsx:26 | every string the regex group matches is a structurally valid domain |
| EmailPattern.RejectsWithoutAt | src/components/LoginForm.tsx:26 | an address without '@' is rejected |
| EmailPattern.UserExampleAccepted | src/pages/__tests__/login.test.tsx:78-83 | `user@example.com`, the address of the successful sign-in test, is accepted |
| EmailPattern.FailExampleAccepted | src/pages/__tests__/login.test.tsx:70-75 | `fail@example.com`, the address of the failed sign-in test, is accepted |
| EmailPattern.InvalidExampleRejected | src/pages/__tests__/login.test.tsx:55-57 | `invalid` is rejected |
| Validation.GuardedFormat | src/components/LoginForm.tsx:21-33 | a form's required-field guard followed by the e-mail and length guards yields the required message, then the e-mail message, then the length message, and nothing iff all three pass |
| Validation.FirstFailure | src/components/LoginForm.tsx:21-33 | guards are checked in order: no message iff every guard passes, otherwise the message of the first failing guard |
| Validation.ValidateLogin | src/components/LoginForm.tsx:21-33 | sign-in input is accepted iff both fields are filled, the address is valid and the password has at least 6 characters; otherwise "required", then "valid email", then "6 characters", in that priority |
| Validation.ValidateRegistration | src/app/register/page.tsx:22-34 | registration input is accepted iff all four fields are filled and the same two format rules hold; messages in the same priority with "All fields are required." first |
| Validation.ValidatorsAgree | src/app/register/page.tsx:22-34 | registration never accepts what sign-in rejects; with both names filled the two accept the same inputs, and with all four fields present they give the same message |
| Validation.PasswordIgnoredForBadEmail | src/pages/login.tsx:24-31 | with a non-empty address and a non-empty password, a malformed address gets the e-mail message whatever that password is |
| LoginForm.HandleSubmit | src/components/LoginForm.tsx:16-45 | `signIn` is called iff validation passes, with the typed credentials; a rejection shows its message or "Login failed."; acceptance raises success and navigates to `/recipes`, and navigation happens iff success; a thrown `signIn` leaves both alerts cleared and does not navigate |
| LoginForm.AlertsIgnorePrior | src/components/LoginForm.tsx:16-45 | the outcome of a submit does not depend on the alerts shown before it, because the handler clears them first |
| LoginForm.TestScenarios | src/pages/__tests__/login.test.tsx:35-83 | the empty form, a short password, the rejected and the accepted sign-in each give the alerts and calls the tests expect |
| LoginPage.HandleSubmit | src/pages/login.tsx:14-39 | same chain as the form: sign-in iff validation passes, message-or-fallback on rejection, success on acceptance, both alerts cleared when `signIn` throws |
| LoginPage.AgreesWithLoginForm | src/pages/login.tsx:14-39 | on every input the page and the form show the same alerts and make the same call; only the form navigates, exactly on success |
| RegisterPage.HandleSubmit | src/app/register/page.tsx:17-51 | sign-up iff validation passes, with e-mail and password only; a rejection shows its message or "Registration failed." and writes no profile; the profile write happens iff sign-up was accepted and a user id is held, with that id and the two names; only a thrown write withholds success; a thrown `signUp` leaves both alerts cleared and writes no profile |
| RegisterPage.SuccessExactly | src/app/register/page.tsx:36-50 | success is shown iff validation passed, sign-up was accepted and no profile write threw; a write resolving to `null` still reports success |
| RecipeDraft.DraftOf | src/app/recipes/page.tsx:61-62 | the edit draft of a list is its elements joined with '\n', of a string field the string, of a missing field the empty string |
| RecipeDraft.DraftSplitsBack | src/app/recipes/page.tsx:61-79 | the draft of a non-empty list of line-free items splits back into exactly those items |
| RecipeDraft.Normalize | src/app/recipes/page.tsx:78-79 | every saved element is non-empty, trimmed and line-free and is the trim of a draft line; every non-blank draft line contributes its trim |
| RecipeDraft.NormalizeLine | src/app/recipes/page.tsx:78-79 | a one-line draft saves as its trim, or as nothing when it is blank |
| RecipeDraft.NormalizeConcat | src/app/recipes/page.tsx:78-79 | the draft before a line break and the draft after it save independently, in order, so the saved list keeps the order and the count of the non-blank lines |
| RecipeDraft.NormalizeRoundTrip | src/app/recipes/page.tsx:61-79 | a list of clean elements survives edit-then-save unchanged, the empty list included |
| RecipeDraft.NormalizeEmpty | src/app/recipes/page.tsx:78-79 | the empty draft saves as the empty list |
| RecipeDraft.NormalizeIdempotent | src/app/recipes/page.tsx:78-79 | normalising the draft of a normalised list changes nothing |
| RecipeDraft.DisplayItems | src/app/recipes/page.tsx:195 | display mode lists an array element by element and shows anything else as a one-element list |
| RecipesPage.Initial | src/app/recipes/page.tsx:36-49 | the page starts with refresh 0, no edited row, empty drafts and the dialog closed |
| RecipesPage.HandleEdit | src/app/recipes/page.tsx:57-63 | edit mode for that row, drafts loaded from the row with lists as their drafts; refresh and dialog untouched |
| RecipesPage.HandleCancel | src/app/recipes/page.tsx:65-71 | cancelling leaves no edited row and empty drafts; refresh and dialog untouched |
| RecipesPage.HandleSave | src/app/recipes/page.tsx:73-83 | the update carries the title and description drafts and the normalised lists for that id; edit mode ends, refresh grows by one, nothing else changes |
| RecipesPage.HandleDelete | src/app/recipes/page.tsx:51-55 | the delete names that id and refresh grows by one, nothing else changes |
| RecipesPage.HandleCreated | src/app/recipes/page.tsx:91-94 | the dialog closes and refresh grows by one, nothing else changes |
| RecipesPage.SetCreateOpen | src/app/recipes/page.tsx:121 | opening or closing the dialog changes only the dialog flag |
| RecipesPage.EditThenSave | src/app/recipes/page.tsx:57-83 | edit followed by an untouched save sends back the row's title, description and clean lists unchanged; a text field comes back normalised, a missing one empty |
| RecipesPage.ListRoundTrip | src/app/recipes/page.tsx:61-79 | one list field through its draft and back |
| RecipesPage.SaveIsStable | src/app/recipes/page.tsx:78-79 | the lists a save sends are fixed points of the draft round trip |
| RecipesPage.EditThenCancel | src/app/recipes/page.tsx:57-71 | an edit followed by cancel is indistinguishable from cancel alone |
| RecipesPage.MutationsRefetch | src/app/recipes/page.tsx:36-94 | save, delete and creation change the refresh token and so refetch the list; edit, cancel and the dialog toggle do not |
| RecipesPage.OneRowEditing | src/app/recipes/page.tsx:156-158 | after an edit exactly the chosen row is in edit mode, and after cancelling that edit no row is |
| RecipeListHook.Initial | src/hooks/useRecipeList.ts:6-8 | the hook starts loading, with no recipes and no error |
| RecipeListHook.Start | src/hooks/useRecipeList.ts:11 | a refetch raises loading and keeps the previous list and error |
| RecipeListHook.Settle | src/hooks/useRecipeList.ts:13-21 | a resolved fetch stores the rows and clears the error; a failure stores "Failed to fetch recipes" and an empty list; loading ends either way |
| RecipeListHook.Fetch | src/hooks/useRecipeList.ts:10-22 | after a fetch loading is off, the error is absent iff the fetch succeeded, and the list is the fetched rows or empty |
| RecipeListHook.FetchForgets | src/hooks/useRecipeList.ts:10-22 | a completed fetch keeps nothing of the state it started from |
| RecipeListHook.LastFetchWins | src/hooks/useRecipeList.ts:10-22 | after any run of refetches the state is the last fetch's outcome alone, and not loading |
| RecipeListHook.ViewOf | src/app/recipes/page.tsx:130-143 | the page shows the loading text exactly while loading; when idle, the held error if there is a non-empty one (the page tests it for truthiness), otherwise the empty-list text for no rows and the table of exactly the held rows for some |
| RecipeListHook.ViewAfterFetch | src/app/recipes/page.tsx:130-143 | after a fetch the page shows the failure text, the empty-list text, or the table of exactly the fetched rows |
| CreateRecipeForm.Initial | src/components/CreateRecipeForm.tsx:16-23 | the form starts with empty fields, one empty row per list, no error, not loading |
| CreateRecipeForm.Apply | src/components/CreateRecipeForm.tsx:25-36 | every field edit, row change, add and remove touches only its own field or list and never the loading flag or the alerts; `ApplyLengths` and `ChangeOnlyThatRow` state what it does to that list |
| CreateRecipeForm.Complete | src/components/CreateRecipeForm.tsx:43 | the guard passes iff title and description are filled and no ingredient or step row is empty, and then `filter(Boolean)` leaves both lists unchanged |
| CreateRecipeForm.ReplaceAt | src/components/CreateRecipeForm.tsx:25-31 | changing row `idx` replaces exactly that row; an index outside the list changes nothing |
| CreateRecipeForm.RemoveAt | src/components/CreateRecipeForm.tsx:34-36 | removing row `idx` drops exactly that row; an index outside the list changes nothing |
| CreateRecipeForm.ApplyLengths | src/components/CreateRecipeForm.tsx:100-142 | an edit the form offers changes a list's length by +1 (add, a blank row after the unchanged rows), −1 (remove) or 0, and never empties a list |
| CreateRecipeForm.ReachableListsNonEmpty | src/components/CreateRecipeForm.tsx:109-113 | no sequence of offered edits empties the ingredient or step list |
| CreateRecipeForm.ChangeOnlyThatRow | src/components/CreateRecipeForm.tsx:25-27 | changing one ingredient row leaves every other row as it was |
| CreateRecipeForm.HandleSubmit | src/components/CreateRecipeForm.tsx:38-71 | a row is sent iff title, description and every list row are filled, with the lists unchanged and the user id and image URL; otherwise the required message; a `null` reply keeps the form with the failure text; a created row resets the form, shows success and calls `onCreated` iff given; a thrown `createRecipe` leaves the form loading with the alerts cleared and calls nothing back |
| CreateRecipeForm.InitialNotSubmitted | src/components/CreateRecipeForm.tsx:43-46 | submitting the untouched form sends nothing and asks for the required fields |
| CreateRecipeForm.NoDoubleCreate | src/components/CreateRecipeForm.tsx:60-67 | after a successful creation, an immediate second submit sends nothing |
| UserAvatar.FirstChars | src/components/UserAvatar.tsx:15-17 | at most one character per piece, and exactly the first character of each piece when no piece is empty |
| UserAvatar.FirstCharsIsLeading | src/components/UserAvatar.tsx:13-19 | splitting on ' ' and taking each piece's first character equals scanning for the non-space characters that start the name or follow a space |
| UserAvatar.Initials | src/components/UserAvatar.tsx:13-19 | an empty name shows '?'; otherwise the initials are the upper-cased word starts, contain no space and are no longer than the name |
| UserAvatar.SpacesOnlyIsBlank | src/components/UserAvatar.tsx:13-19 | a name of spaces only has no initials |
| UserAvatar.SpacesOnlyInitials | src/components/UserAvatar.tsx:13-19 | a non-empty name of spaces only shows blank initials rather than '?' |
| UserAvatar.OneWord | src/components/UserAvatar.tsx:13-19 | one word shows its first character, upper-cased |
| UserAvatar.TwoWords | src/components/UserAvatar.tsx:13-19 | two words separated by one space show their two first characters, upper-cased |
| UserAvatar.AvatarText | src/components/UserAvatar.tsx:33 | text is shown iff there is no image URL (missing or empty), and it is the initials |
| UserAvatar.TwoWordExample | src/components/__tests__/UserAvatar.test.tsx:6-11 | "John Doe" shows "JD" |
| UserAvatar.OneWordExample | src/components/__tests__/UserAvatar.test.tsx:13-23 | "Alice" shows "A", and a name with an image shows no text |
| UserHook.Initial | src/hooks/useUser.ts:6-8 | no user and no error at first; loading iff there is an id |
| UserHook.RunEffect | src/hooks/useUser.ts:10-28 | no id: everything cleared and nothing fetched; otherwise that id is fetched, a resolved row becomes the user with no error, a thrown error clears the user and sets "Failed to fetch user"; loading ends |
| UserHook.UpdateProfile | src/hooks/useUser.ts:30-47 | no id: returns `null`, changes nothing and calls nothing; otherwise the names are sent for the id, a returned row becomes the user and is returned, a thrown error keeps the user, sets "Failed to update user" and returns `null`; loading ends |
| UserHook.StepConsistent | src/hooks/useUser.ts:10-47 | every completed fetch or update keeps the error one of the two texts, never leaves a user after a failed fetch, and ends loading |
| UserHook.ReplayConsistent | src/hooks/useUser.ts:10-47 | after any run of fetches and updates the hook is consistent and not loading; without an id it stays empty |
| UserHook.TestScenarios | src/hooks/__tests__/useUser.test.tsx:22-96 | the successful fetch, the failed fetch, and the successful and failing updates give the states and return values the tests expect |

## Left out

- The services (`recipeService`, `userService`), the auth provider, the Supabase client, routing, and the meal-database search page and recipe card are not modelled. What `signIn`, `signUp`, `createRecipe`, `updateUserProfile` and the recipe and profile fetches return or throw is a parameter of the code that awaits them. The replies and errors of `updateRecipe` and `deleteRecipe` are not parameters (see `RecipesPage.HandleSave` below).
- The browser's constraint validation on the inputs (`required`, `type="email"`, `minLength: 6`) is left out. In a browser it can stop a submit before the handler runs. The model starts at the submit handler, which applies its own required-field, e-mail pattern and length guards.
- Concurrency is left out: overlapping submits, effects settling after unmount, and a fetch settling after a newer one started. Each awaited call is modelled as settling before the next event. The "Creating…" button that the form disables while loading is also left out.
- Rendering, styling, the logout button and debug logging are left out, apart from the choice of view (`RecipeListHook.ViewOf`, `RecipeDraft.DisplayItems`, `UserAvatar.AvatarText`).
- Validation.ValidateLogin and Validation.ValidateRegistration: JavaScript measures `password.length` in UTF-16 code units; the model counts characters, so a password with characters outside the Basic Multilingual Plane is measured shorter than in the browser.
- Strings.Upper: upper-casing is ASCII only; `toUpperCase` also maps non-ASCII letters (and can lengthen a string, as for 'ß').
- UserAvatar.Initials: `n[0]` is the first UTF-16 code unit of a piece; the model takes the first character.
- RecipesPage.HandleSave: the model ignores the reply of `updateRecipe` because the page ignores it. A thrown error, which would skip the edit-mode reset and the refresh, is not modelled. The same holds for `RecipesPage.HandleDelete` and `deleteRecipe`.
- RecipeDraft.DraftOf: only the three shapes the page distinguishes are modelled (array, string, missing). Other falsy values of the column (`0`, `false`) fall under "missing", and other non-array values are not modelled.
