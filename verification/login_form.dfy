/** The login form (`Login.tsx`): validation, submission, server-error placement and editing. */
module LoginForm {
  import opened Wrappers
  import opened Types
  import opened Text
  import opened EmailPattern
  import opened FormRules
  import RouteGuard

  datatype Field = Email | Password

  datatype Data = Data(email: string, password: string)

  /** The per-field messages; `None` is an absent key or one set to `undefined`. */
  datatype Errors = Errors(email: Option<string>, password: Option<string>)

  datatype Form = Form(data: Data, errors: Errors)

  const NoErrors: Errors := Errors(None, None)

  /** Keywords that send a server message to the password field; checked first. */
  const PasswordKeywords: seq<string> := ["senha", "password", "credenciais", "inválid", "incorret"]

  /** Keywords that send a server message to the email field. */
  const EmailKeywords: seq<string> := ["email", "usuário", "user", "não encontrado"]

  /** The lower-cased message mentions one of the keywords. */
  ghost predicate Mentions(message: string, keywords: seq<string>) {
    exists k | 0 <= k < |keywords| :: Contains(ToLower(message), keywords[k])
  }

  /** `validate`'s error record. */
  function Validate(d: Data): (e: Errors)
    ensures e.email == EmailError(d.email) && e.password == PasswordError(d.password)
    ensures e == NoErrors <==> d.email != "" && Test(d.email) && Utf16Length(d.password) >= MinPasswordLength
  {
    Errors(EmailError(d.email), PasswordError(d.password))
  }

  datatype SubmitResult = SubmitResult(form: Form, login: Option<LoginCredentials>)

  /** `handleSubmit`: the errors become `validate`'s, and `login` is called with the data only when there are none. */
  function Submit(f: Form): (r: SubmitResult)
    ensures r.form.data == f.data
    ensures r.form.errors == Validate(f.data)
    ensures r.login.Some? <==> f.data.email != "" && Test(f.data.email) && Utf16Length(f.data.password) >= MinPasswordLength
    ensures r.login.Some? ==> r.login.value == LoginCredentials(f.data.email, f.data.password)
  {
    var errors := Validate(f.data);
    var call := if errors == NoErrors then Some(LoginCredentials(f.data.email, f.data.password)) else None;
    SubmitResult(Form(f.data, errors), call)
  }

  /** The field a server message is shown under: password keywords win, then email keywords, else password. */
  function ClassifyServerError(message: string): (f: Field)
    ensures f == Email <==> !Mentions(message, PasswordKeywords) && Mentions(message, EmailKeywords)
  {
    var lower := ToLower(message);
    ContainsAnyIffSome(lower, PasswordKeywords);
    ContainsAnyIffSome(lower, EmailKeywords);
    if ContainsAny(lower, PasswordKeywords) then Password
    else if ContainsAny(lower, EmailKeywords) then Email
    else Password
  }

  /** The effect on `loginError`: a truthy message lands on exactly one field, the other keeps its error. */
  function ShowServerError(errors: Errors, loginError: Option<string>): (r: Errors)
    ensures !Truthy(loginError) ==> r == errors
    ensures Truthy(loginError) && ClassifyServerError(loginError.value) == Email ==>
              r.email == loginError && r.password == errors.password
    ensures Truthy(loginError) && ClassifyServerError(loginError.value) == Password ==>
              r.password == loginError && r.email == errors.email
  {
    if !Truthy(loginError) then errors
    else match ClassifyServerError(loginError.value)
      case Email => errors.(email := loginError)
      case Password => errors.(password := loginError)
  }

  /** A message mentioning a password keyword goes to the password field, whatever else it mentions. */
  lemma PasswordKeywordWins(message: string, k: int)
    requires 0 <= k < |PasswordKeywords| && Contains(ToLower(message), PasswordKeywords[k])
    ensures ClassifyServerError(message) == Password
  {
  }

  /** A server "Email inválido" is shown under the password field: `inválid` is a password keyword. */
  lemma InvalidEmailMessageGoesToPassword(message: string)
    requires message == "Email inválido"
    ensures ClassifyServerError(message) == Password
  {
    var lower := ToLower(message);
    assert lower[6..13] == "inválid" by {
      forall i | 6 <= i < 13 ensures lower[i] == message[i] {
        assert lower[i] == LowerChar(message[i]);
      }
    }
    assert OccursAt(lower, "inválid", 6);
    ContainsIffOccurs(lower, "inválid");
    PasswordKeywordWins(message, 3);
  }

  /** `handleInputChange`: the value is stored and that field's error, if truthy, is cleared. */
  function Edit(f: Form, field: Field, value: string): (r: Form)
    ensures field == Email ==> r.data == f.data.(email := value)
    ensures field == Password ==> r.data == f.data.(password := value)
    ensures field == Email ==> !Truthy(r.errors.email) && r.errors.password == f.errors.password
    ensures field == Password ==> !Truthy(r.errors.password) && r.errors.email == f.errors.email
    ensures r.errors != f.errors ==> r.errors == (if field == Email then f.errors.(email := None) else f.errors.(password := None))
  {
    match field
    case Email =>
      var errors := if Truthy(f.errors.email) then f.errors.(email := None) else f.errors;
      Form(f.data.(email := value), errors)
    case Password =>
      var errors := if Truthy(f.errors.password) then f.errors.(password := None) else f.errors;
      Form(f.data.(password := value), errors)
  }

  /** The mount-time check: go to `/tasks` when the store holds a token and a user. */
  predicate RedirectOnMount(storage: Storage) {
    TokenKey in storage && storage[TokenKey] != "" && UserKey in storage && storage[UserKey] != ""
  }

  /** The login page leaves for `/tasks` exactly when the route guard would let the user through. */
  lemma MountRedirectMatchesGuard<T>(storage: Storage, children: T)
    ensures RedirectOnMount(storage) <==> RouteGuard.Guard(RouteGuard.Readable(storage), children).Children?
  {
  }
}
