/** The session hook (`useAuth.ts`): token, user, the derived flag, the two flows' errors and logout. */
module Session {
  import opened Wrappers
  import opened Types

  /** A cached task-list view is keyed by filter, page and limit. */
  datatype QueryKey = QueryKey(status: TaskStatus, page: int, limit: int)

  datatype State = State(
    token: Option<string>,
    user: Option<User>,
    isAuthenticated: bool,
    loginError: Option<string>,
    registerError: Option<string>,
    loginPending: bool,
    registerPending: bool,
    cache: map<QueryKey, TasksResponse>)

  /** `!!token && !!user`: a user record is an object, so present means truthy. */
  predicate SessionPresent(token: Option<string>, user: Option<User>) {
    Truthy(token) && user.Some?
  }

  /** The flag agrees with the token and user it is derived from. */
  predicate Consistent(s: State) {
    s.isAuthenticated == SessionPresent(s.token, s.user)
  }

  /** `isLoading`: either mutation is in flight. */
  predicate IsLoading(s: State) {
    s.loginPending || s.registerPending
  }

  /** The hook's first render, from the stored token and user. */
  function Init(token: Option<string>, user: Option<User>): (s: State)
    ensures Consistent(s) && !IsLoading(s)
    ensures s.loginError.None? && s.registerError.None?
  {
    State(token, user, SessionPresent(token, user), None, None, false, false, map[])
  }

  /** The fields of a failed mutation's error the message is taken from. */
  datatype MutationError = MutationError(serverMessage: Option<string>, message: Option<string>)

  const LoginFallback: string := "Erro ao fazer login. Verifique suas credenciais."
  const RegisterFallback: string := "Erro ao fazer cadastro"

  /** `error.response?.data?.message || error.message || fallback`: the first truthy candidate. */
  function ErrorMessage(err: MutationError, fallback: string): (m: string)
    requires fallback != ""
    ensures m != ""
    ensures m == err.serverMessage.GetOr("") || m == err.message.GetOr("") || m == fallback
    ensures Truthy(err.serverMessage) ==> m == err.serverMessage.value
    ensures !Truthy(err.serverMessage) && Truthy(err.message) ==> m == err.message.value
    ensures !Truthy(err.serverMessage) && !Truthy(err.message) ==> m == fallback
  {
    if Truthy(err.serverMessage) then err.serverMessage.value
    else if Truthy(err.message) then err.message.value
    else fallback
  }

  datatype Event =
    | LoginCalled
    | LoginSucceeded(response: AuthResponse)
    | LoginFailed(error: MutationError)
    | RegisterCalled
    | RegisterSucceeded(response: AuthResponse)
    | RegisterFailed(error: MutationError)
    | LoggedOut

  /** The state updates a handler makes itself, before any effect runs. */
  function Handle(s: State, e: Event): State {
    match e
    case LoginCalled => s.(loginError := None, loginPending := true)
    case LoginSucceeded(r) =>
      s.(loginError := None, token := Some(r.token), user := Some(r.user), isAuthenticated := true, loginPending := false)
    case LoginFailed(err) => s.(loginError := Some(ErrorMessage(err, LoginFallback)), loginPending := false)
    case RegisterCalled => s.(registerError := None, registerPending := true)
    case RegisterSucceeded(r) =>
      s.(registerError := None, token := Some(r.token), user := Some(r.user), isAuthenticated := true, registerPending := false)
    case RegisterFailed(err) => s.(registerError := Some(ErrorMessage(err, RegisterFallback)), registerPending := false)
    case LoggedOut => s.(token := None, user := None, isAuthenticated := false, cache := map[])
  }

  /** The effect on `[token, user]`: recompute the flag. */
  function Sync(s: State): State {
    s.(isAuthenticated := SessionPresent(s.token, s.user))
  }

  /** One transition: the handler, then the effect when the handler wrote the token and user. */
  function Step(s: State, e: Event): (r: State)
    ensures e.LoginCalled? ==> r == s.(loginError := None, loginPending := true) && IsLoading(r)
    ensures e.RegisterCalled? ==> r == s.(registerError := None, registerPending := true) && IsLoading(r)
    ensures e.LoginSucceeded? || e.RegisterSucceeded? ==>
              && r.token == Some(e.response.token) && r.user == Some(e.response.user)
              && (r.isAuthenticated <==> e.response.token != "")
              && r.cache == s.cache
    ensures e.LoginSucceeded? ==> r.loginError.None? && !r.loginPending && r.registerError == s.registerError
    ensures e.RegisterSucceeded? ==> r.registerError.None? && !r.registerPending && r.loginError == s.loginError
    ensures e.LoginFailed? ==>
              r == s.(loginError := Some(ErrorMessage(e.error, LoginFallback)), loginPending := false)
              && r.loginError.value != ""
    ensures e.RegisterFailed? ==>
              r == s.(registerError := Some(ErrorMessage(e.error, RegisterFallback)), registerPending := false)
              && r.registerError.value != ""
    ensures e.LoggedOut? ==>
              && r.token.None? && r.user.None? && !r.isAuthenticated && r.cache == map[]
              && r.loginError == s.loginError && r.registerError == s.registerError
  {
    var h := Handle(s, e);
    if e.LoginSucceeded? || e.RegisterSucceeded? || e.LoggedOut? then Sync(h) else h
  }

  /** Every transition keeps the flag equal to `!!token && !!user`. */
  lemma StepKeepsConsistent(s: State, e: Event)
    requires Consistent(s)
    ensures Consistent(Step(s, e))
  {
  }

  /** The login flow never touches the register error or flag, and the register flow never the login ones. */
  lemma FlowsIndependent(s: State, e: Event)
    ensures e.LoginCalled? || e.LoginSucceeded? || e.LoginFailed? ==>
              Step(s, e).registerError == s.registerError && Step(s, e).registerPending == s.registerPending
    ensures e.RegisterCalled? || e.RegisterSucceeded? || e.RegisterFailed? ==>
              Step(s, e).loginError == s.loginError && Step(s, e).loginPending == s.loginPending
  {
  }

  /** A failed attempt leaves the session exactly as it was. */
  lemma FailureKeepsSession(s: State, err: MutationError)
    ensures Step(s, LoginFailed(err)).token == s.token && Step(s, LoginFailed(err)).user == s.user
    ensures Step(s, LoginFailed(err)).isAuthenticated == s.isAuthenticated
    ensures Step(s, RegisterFailed(err)).token == s.token && Step(s, RegisterFailed(err)).user == s.user
    ensures Step(s, RegisterFailed(err)).isAuthenticated == s.isAuthenticated
  {
  }

  /**
   * The handler's own `setIsAuthenticated(true)` already agrees with the effect when the server's
   * token is non-empty; for an empty token the effect overrides it with false.
   */
  lemma SuccessFlagMatchesEffect(s: State, r: AuthResponse)
    ensures r.token != "" ==> Consistent(Handle(s, LoginSucceeded(r))) && Step(s, LoginSucceeded(r)) == Handle(s, LoginSucceeded(r))
    ensures r.token == "" ==> Handle(s, LoginSucceeded(r)).isAuthenticated && !Step(s, LoginSucceeded(r)).isAuthenticated
  {
  }

  /** Logging out twice is logging out once. */
  lemma LogoutIdempotent(s: State)
    ensures Step(Step(s, LoggedOut), LoggedOut) == Step(s, LoggedOut)
  {
  }

  /** Logging in from any state, starting the call and then succeeding with a token, authenticates. */
  lemma LoginAuthenticates(s: State, r: AuthResponse)
    requires r.token != ""
    ensures var t := Step(Step(s, LoginCalled), LoginSucceeded(r));
            t.isAuthenticated && t.loginError.None? && t.token == Some(r.token) && t.user == Some(r.user)
            && (IsLoading(t) <==> s.registerPending)
  {
  }

  /** `isLoading` is raised by starting either call and stays raised until both calls have settled. */
  lemma LoadingTracksMutations(s: State, e: Event)
    ensures e.LoginCalled? || e.RegisterCalled? ==> IsLoading(Step(s, e))
    ensures e.LoginSucceeded? || e.LoginFailed? ==> (IsLoading(Step(s, e)) <==> s.registerPending)
    ensures e.RegisterSucceeded? || e.RegisterFailed? ==> (IsLoading(Step(s, e)) <==> s.loginPending)
    ensures e.LoggedOut? ==> IsLoading(Step(s, e)) == IsLoading(s)
  {
  }
}
