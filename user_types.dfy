/** The application's canonical records (src/types/user.ts) and the small
    value types the other modules share. */
module UserTypes {

  datatype Option<+T> = None | Some(value: T)

  /** A canonical user record, as the adapter hands it to the views. */
  datatype User = User(
    id: int,
    firstName: string,
    lastName: string,
    email: string,
    skills: seq<string>,
    registrationDate: string)

  /** The editable subset of a user that the form produces and the
      create/update requests carry. */
  datatype UserFormData = UserFormData(
    firstName: string,
    lastName: string,
    email: string,
    skills: seq<string>)

  datatype SortField = Id | FirstName | LastName | Email | RegistrationDate

  datatype SortDirection = Asc | Desc

  /** The one error shape the adapter raises: a JavaScript `Error` and its message. */
  datatype ApiError = ApiError(message: string)

  /** A settled promise: a value, or a rejection with an `Error`. */
  datatype Result<+T> = Ok(value: T) | Err(error: ApiError)

  /** Query-cache keys: `['users']` and `['user', id]`, where `id` is the
      route parameter exactly as the router delivered it. */
  datatype QueryKey = UsersKey | UserKey(routeId: Option<string>)

}
