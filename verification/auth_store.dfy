/** The session slice of the global store: the signed-in user, their bearer token and
    two status fields, updated by six reducers. */
module AuthStore {
  import opened Base

  datatype Role = UserRole | AdminRole

  datatype User = User(
    id: string,
    email: string,
    firstname: string,
    lastname: string,
    role: Role,
    avatar: string,
    phoneNo: Option<string>,
    createdAt: string)

  /** A `Partial<User>`: each field is either absent from the payload or given a value. */
  datatype UserPatch = UserPatch(
    id: Option<string>,
    email: Option<string>,
    firstname: Option<string>,
    lastname: Option<string>,
    role: Option<Role>,
    avatar: Option<string>,
    phoneNo: Option<Option<string>>,
    createdAt: Option<string>)

  datatype AuthState = AuthState(
    user: Option<User>,
    token: Option<string>,
    isAuthenticated: bool,
    isLoading: bool,
    error: Option<string>)

  const Initial: AuthState := AuthState(None, None, false, false, None)

  /** A token is held exactly while the session counts as authenticated. */
  ghost predicate Valid(s: AuthState)
  {
    s.isAuthenticated <==> s.token.Some?
  }

  function SetUser(s: AuthState, user: Option<User>, token: string): (r: AuthState)
    ensures r.user == user && r.token == Some(token)
    ensures r.isAuthenticated && !r.isLoading
    ensures r.error == s.error
  {
    s.(user := user, token := Some(token), isAuthenticated := true, isLoading := false)
  }

  function ClearAuth(s: AuthState): (r: AuthState)
    ensures r.user.None? && r.token.None?
    ensures !r.isAuthenticated && !r.isLoading
    ensures r.error == s.error
  {
    s.(user := None, token := None, isAuthenticated := false, isLoading := false)
  }

  function SetLoading(s: AuthState, loading: bool): (r: AuthState)
    ensures r.isLoading == loading
    ensures r.user == s.user && r.token == s.token && r.isAuthenticated == s.isAuthenticated
    ensures r.error == s.error
  {
    s.(isLoading := loading)
  }

  function SetError(s: AuthState, error: string): (r: AuthState)
    ensures r.error == Some(error)
    ensures r.user == s.user && r.token == s.token
    ensures r.isAuthenticated == s.isAuthenticated && r.isLoading == s.isLoading
  {
    s.(error := Some(error))
  }

  function ClearError(s: AuthState): (r: AuthState)
    ensures r.error.None?
    ensures r.user == s.user && r.token == s.token
    ensures r.isAuthenticated == s.isAuthenticated && r.isLoading == s.isLoading
  {
    s.(error := None)
  }

  function Pick<T>(patched: Option<T>, current: T): T
  {
    match patched
    case Some(v) => v
    case None => current
  }

  /** `{ ...user, ...patch }`. */
  function ApplyPatch(u: User, p: UserPatch): User
  {
    User(
      Pick(p.id, u.id), Pick(p.email, u.email), Pick(p.firstname, u.firstname),
      Pick(p.lastname, u.lastname), Pick(p.role, u.role), Pick(p.avatar, u.avatar),
      Pick(p.phoneNo, u.phoneNo), Pick(p.createdAt, u.createdAt))
  }

  /** `updateProfile`: merges the patch into the stored user; nothing when no user is stored. */
  function UpdateProfile(s: AuthState, patch: UserPatch): (r: AuthState)
    ensures s.user.None? ==> r == s
    ensures s.user.Some? ==> r.user.Some?
    ensures r.token == s.token && r.isAuthenticated == s.isAuthenticated
    ensures r.isLoading == s.isLoading && r.error == s.error
  {
    match s.user
    case None => s
    case Some(u) => s.(user := Some(ApplyPatch(u, patch)))
  }

  /** A field absent from the patch keeps its value; a field present takes the patch's value. */
  lemma UpdateProfileFields(s: AuthState, patch: UserPatch)
    requires s.user.Some?
    ensures var u, v := s.user.value, UpdateProfile(s, patch).user.value;
      && (patch.id.None? ==> v.id == u.id) && (patch.id.Some? ==> v.id == patch.id.value)
      && (patch.email.None? ==> v.email == u.email) && (patch.email.Some? ==> v.email == patch.email.value)
      && (patch.firstname.None? ==> v.firstname == u.firstname)
      && (patch.firstname.Some? ==> v.firstname == patch.firstname.value)
      && (patch.lastname.None? ==> v.lastname == u.lastname)
      && (patch.lastname.Some? ==> v.lastname == patch.lastname.value)
      && (patch.role.None? ==> v.role == u.role) && (patch.role.Some? ==> v.role == patch.role.value)
      && (patch.avatar.None? ==> v.avatar == u.avatar) && (patch.avatar.Some? ==> v.avatar == patch.avatar.value)
      && (patch.phoneNo.None? ==> v.phoneNo == u.phoneNo)
      && (patch.phoneNo.Some? ==> v.phoneNo == patch.phoneNo.value)
      && (patch.createdAt.None? ==> v.createdAt == u.createdAt)
      && (patch.createdAt.Some? ==> v.createdAt == patch.createdAt.value)
  {
  }

  /** The empty patch changes nothing. */
  lemma EmptyPatchIsNoOp(s: AuthState)
    ensures UpdateProfile(s, UserPatch(None, None, None, None, None, None, None, None)) == s
  {
  }

  /** Signing in and then out restores the signed-out session, whatever the error field holds. */
  lemma SetUserThenClearAuth(s: AuthState, user: Option<User>, token: string)
    ensures ClearAuth(SetUser(s, user, token)) == Initial.(error := s.error)
  {
  }

  /** The reducers as one action type, for reasoning about any sequence of dispatches. */
  datatype Action =
    | SetUserAction(user: Option<User>, token: string)
    | ClearAuthAction
    | SetLoadingAction(loading: bool)
    | SetErrorAction(error: string)
    | UpdateProfileAction(patch: UserPatch)
    | ClearErrorAction

  /** One dispatch. Every reducer keeps the token present exactly while the session is
      authenticated, and only the two error reducers touch the error. */
  function Reduce(s: AuthState, a: Action): (r: AuthState)
    ensures Valid(s) ==> Valid(r)
    ensures !a.SetErrorAction? && !a.ClearErrorAction? ==> r.error == s.error
  {
    match a
    case SetUserAction(u, t) => SetUser(s, u, t)
    case ClearAuthAction => ClearAuth(s)
    case SetLoadingAction(b) => SetLoading(s, b)
    case SetErrorAction(e) => SetError(s, e)
    case UpdateProfileAction(p) => UpdateProfile(s, p)
    case ClearErrorAction => ClearError(s)
  }

  function ReduceAll(s: AuthState, actions: seq<Action>): AuthState
    decreases |actions|
  {
    if |actions| == 0 then s else ReduceAll(Reduce(s, actions[0]), actions[1..])
  }

  /** From the initial state, any sequence of dispatches keeps the token present exactly
      while the session is authenticated. */
  lemma {:induction false} ReduceAllKeepsValid(s: AuthState, actions: seq<Action>)
    requires Valid(s)
    ensures Valid(ReduceAll(s, actions))
    decreases |actions|
  {
    if |actions| > 0 {
      ReduceAllKeepsValid(Reduce(s, actions[0]), actions[1..]);
    }
  }

  lemma InitialIsValid()
    ensures Valid(Initial)
  {
  }
}
