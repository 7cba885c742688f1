/** The records the components exchange with the backend. */
module Types {
  import opened Common

  /** The `ingredients`/`steps` column of a recipe row. The declared type is a
      list of strings, but the recipes page accepts a row whose value is a
      plain string, or is missing altogether. */
  datatype ListField = Items(items: seq<string>) | Text(text: string) | Absent

  /** A persisted recipe row. */
  datatype Recipe = Recipe(
    id: string,
    title: string,
    description: string,
    ingredients: ListField,
    steps: ListField,
    userId: string,
    createdAt: string,
    imageUrl: Option<string>)

  /** A row of the `users` profile table. */
  datatype User = User(id: string, firstName: Option<string>, lastName: Option<string>)

  /** An error object returned by the authentication client. */
  datatype AuthError = AuthError(message: string)

  /** `error.message || fallback`: the message, or the fallback text when
      the message is empty. Never empty when the fallback is not. */
  function MessageOr(e: AuthError, fallback: string): (text: string)
    ensures e.message != "" ==> text == e.message
    ensures e.message == "" ==> text == fallback
    ensures fallback != "" ==> text != ""
  {
    if e.message != "" then e.message else fallback
  }

  /** The credentials handed to `signIn` / `signUp`. */
  datatype Credentials = Credentials(email: string, password: string)

  /** One call to `updateUserProfile(id, first_name, last_name)`. */
  datatype ProfileCall = ProfileCall(id: string, firstName: string, lastName: string)
}
