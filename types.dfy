/** The entities of the user store: records, search criteria, the store's
    state and the closed union of actions the reducer accepts. */
module UserTypes {

  datatype Option<+T> = None | Some(value: T)

  /** The string tags of the action union. */
  datatype ActionType = FETCH_USERS | FETCH_USERS_SUCCESS | FETCH_USERS_ERROR | SEARCH_USERS | ADD_USER

  function Tag(t: ActionType): string
  {
    match t
    case FETCH_USERS => "FETCH_USERS"
    case FETCH_USERS_SUCCESS => "FETCH_USERS_SUCCESS"
    case FETCH_USERS_ERROR => "FETCH_USERS_ERROR"
    case SEARCH_USERS => "SEARCH_USERS"
    case ADD_USER => "ADD_USER"
  }

  /** A switch on the tag string reaches one case per action type: no two
      types share a tag. */
  lemma TagInjective(t1: ActionType, t2: ActionType)
    ensures Tag(t1) == Tag(t2) <==> t1 == t2
  {
  }

  /** A user record. `id` is the only numeric field. */
  datatype Customer = Customer(id: int, name: string, username: string, email: string, phone: string)

  /** Search criteria: the four string fields always present, followed by any
      further string-valued keys, in insertion order. */
  datatype SearchedCustomer = SearchedCustomer(
    name: string, username: string, email: string, phone: string,
    extra: seq<(string, string)>)

  const FixedKeys: seq<string> := ["name", "username", "email", "phone"]

  /** A JavaScript object holds each key once: the extra keys are distinct
      and none of them repeats one of the four fixed keys. */
  ghost predicate WellFormed(d: SearchedCustomer)
  {
    && (forall i :: 0 <= i < |d.extra| ==> d.extra[i].0 !in FixedKeys)
    && (forall i, j :: 0 <= i < j < |d.extra| ==> d.extra[i].0 != d.extra[j].0)
  }

  /** The state of the user slice. `users` is the visible list and
      `originalUsers` the list it is filtered from. */
  datatype UserState = UserState(users: seq<Customer>, loading: bool, error: Option<string>, originalUsers: seq<Customer>)

  /** The five actions; a Dafny datatype is closed, so no other action exists. */
  datatype UserAction =
    | FetchUsers
    | FetchUsersSuccess(customers: seq<Customer>)
    | FetchUsersError(message: string)
    | SearchUsers(pairs: seq<(string, string)>, allValuesEmpty: bool)
    | AddUser(customer: Customer)

  function TypeOf(a: UserAction): (t: ActionType)
    ensures t == FETCH_USERS <==> a.FetchUsers?
    ensures t == FETCH_USERS_SUCCESS <==> a.FetchUsersSuccess?
    ensures t == FETCH_USERS_ERROR <==> a.FetchUsersError?
    ensures t == SEARCH_USERS <==> a.SearchUsers?
    ensures t == ADD_USER <==> a.AddUser?
  {
    match a
    case FetchUsers => FETCH_USERS
    case FetchUsersSuccess(_) => FETCH_USERS_SUCCESS
    case FetchUsersError(_) => FETCH_USERS_ERROR
    case SearchUsers(_, _) => SEARCH_USERS
    case AddUser(_) => ADD_USER
  }

  /** Field lookup `el[key]` guarded by `typeof … === 'string'`: only the four
      text fields give a string; `id` is numeric and unknown keys are absent. */
  function FieldOf(c: Customer, key: string): (r: Option<string>)
    ensures r.Some? <==> key in FixedKeys
    ensures key == "id" ==> r == None
    ensures key == "name" ==> r == Some(c.name)
    ensures key == "username" ==> r == Some(c.username)
    ensures key == "email" ==> r == Some(c.email)
    ensures key == "phone" ==> r == Some(c.phone)
  {
    if key == "name" then Some(c.name)
    else if key == "username" then Some(c.username)
    else if key == "email" then Some(c.email)
    else if key == "phone" then Some(c.phone)
    else None
  }
}
