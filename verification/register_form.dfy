/** The registration form (`Register.tsx`): validation, submission, server-error placement and editing. */
module RegisterForm {
  import opened Wrappers
  import opened Types
  import opened Text
  import opened EmailPattern
  import opened FormRules
  import LoginForm

  datatype Field = Name | Email | Password | ConfirmPassword

  datatype Data = Data(name: string, email: string, password: string, confirmPassword: string)

  /** The per-field messages; `None` is an absent key or one set to `undefined`. */
  datatype Errors = Errors(name: Option<string>, email: Option<string>, password: Option<string>, confirmPassword: Option<string>)

  datatype Form = Form(data: Data, errors: Errors)

  const NoErrors: Errors := Errors(None, None, None, None)
  const NameRequired: string := "Nome é obrigatório"
  const PasswordMismatch: string := "As senhas não coincidem"

  /** Keywords checked in this order; a message matching none goes to the email field. */
  const EmailKeywords: seq<string> := ["email", "já existe", "already exists"]
  const PasswordKeywords: seq<string> := ["senha", "password"]
  const NameKeywords: seq<string> := ["nome", "name"]

  ghost predicate Mentions(message: string, keywords: seq<string>) {
    exists k | 0 <= k < |keywords| :: Contains(ToLower(message), keywords[k])
  }

  function FieldError(e: Errors, field: Field): Option<string> {
    match field
    case Name => e.name
    case Email => e.email
    case Password => e.password
    case ConfirmPassword => e.confirmPassword
  }

  function FieldValue(d: Data, field: Field): string {
    match field
    case Name => d.name
    case Email => d.email
    case Password => d.password
    case ConfirmPassword => d.confirmPassword
  }

  /** `validate`'s error record; the mismatch check is independent of the other three. */
  function Validate(d: Data): (e: Errors)
    ensures e.name == Some(NameRequired) <==> AllSpace(d.name)
    ensures e.name.None? <==> !AllSpace(d.name)
    ensures e.email == EmailError(d.email) && e.password == PasswordError(d.password)
    ensures e.confirmPassword == Some(PasswordMismatch) <==> d.password != d.confirmPassword
    ensures e.confirmPassword.None? <==> d.password == d.confirmPassword
  {
    TrimEmptyIffAllSpace(d.name);
    Errors(
      if Trim(d.name) == "" then Some(NameRequired) else None,
      EmailError(d.email),
      PasswordError(d.password),
      if d.password != d.confirmPassword then Some(PasswordMismatch) else None)
  }

  datatype SubmitResult = SubmitResult(form: Form, register: Option<RegisterData>)

  /** `handleSubmit`: `register` gets name, email and password, untrimmed, only when no field has an error. */
  function Submit(f: Form): (r: SubmitResult)
    ensures r.form == Form(f.data, Validate(f.data))
    ensures r.register.Some? <==>
              && !AllSpace(f.data.name)
              && f.data.email != "" && Test(f.data.email)
              && Utf16Length(f.data.password) >= MinPasswordLength
              && f.data.password == f.data.confirmPassword
    ensures r.register.Some? ==> r.register.value == RegisterData(f.data.name, f.data.email, f.data.password)
  {
    var errors := Validate(f.data);
    var call := if errors == NoErrors then Some(RegisterData(f.data.name, f.data.email, f.data.password)) else None;
    SubmitResult(Form(f.data, errors), call)
  }

  /** The field a server message is shown under: email keywords first, then password, then name, else email. */
  function ClassifyServerError(message: string): (f: Field)
    ensures f != ConfirmPassword
    ensures f == Password <==> !Mentions(message, EmailKeywords) && Mentions(message, PasswordKeywords)
    ensures f == Name <==>
              !Mentions(message, EmailKeywords) && !Mentions(message, PasswordKeywords) && Mentions(message, NameKeywords)
    ensures Mentions(message, EmailKeywords) ==> f == Email
  {
    var lower := ToLower(message);
    ContainsAnyIffSome(lower, EmailKeywords);
    ContainsAnyIffSome(lower, PasswordKeywords);
    ContainsAnyIffSome(lower, NameKeywords);
    if ContainsAny(lower, EmailKeywords) then Email
    else if ContainsAny(lower, PasswordKeywords) then Password
    else if ContainsAny(lower, NameKeywords) then Name
    else Email
  }

  /** The effect on `registerError`: a truthy message lands on the classified field, the others keep theirs. */
  function ShowServerError(errors: Errors, registerError: Option<string>): (r: Errors)
    ensures !Truthy(registerError) ==> r == errors
    ensures Truthy(registerError) ==>
              && FieldError(r, ClassifyServerError(registerError.value)) == registerError
              && forall g: Field | g != ClassifyServerError(registerError.value) :: FieldError(r, g) == FieldError(errors, g)
  {
    if !Truthy(registerError) then errors
    else match ClassifyServerError(registerError.value)
      case Email => errors.(email := registerError)
      case Password => errors.(password := registerError)
      case Name => errors.(name := registerError)
  }

  /** A message naming both `email` and `password` is placed differently by the two forms. */
  lemma FormsDisagreeOnEmailAndPassword(message: string)
    requires Contains(ToLower(message), "email") && Contains(ToLower(message), "password")
    ensures ClassifyServerError(message) == Email
    ensures LoginForm.ClassifyServerError(message) == LoginForm.Password
  {
    assert EmailKeywords[0] == "email";
    LoginForm.PasswordKeywordWins(message, 1);
  }

  // ---------------------------------------------------------------- handleInputChange

  function SetField(d: Data, field: Field, value: string): Data {
    match field
    case Name => d.(name := value)
    case Email => d.(email := value)
    case Password => d.(password := value)
    case ConfirmPassword => d.(confirmPassword := value)
  }

  /** The two passwords now agree, and the edited one is not empty. */
  predicate PasswordsNowMatch(updated: Data, field: Field) {
    && (field == Password || field == ConfirmPassword)
    && updated.password != "" && updated.password == updated.confirmPassword
  }

  /** The updater queued inside the form-data update: drop the mismatch message once the passwords agree. */
  function ClearMismatch(e: Errors, field: Field, updated: Data): Errors {
    if PasswordsNowMatch(updated, field) && e.confirmPassword == Some(PasswordMismatch) then
      e.(confirmPassword := None)
    else e
  }

  /** The updater queued after it: drop the edited field's error when it is truthy. */
  function ClearField(e: Errors, field: Field): Errors {
    if !Truthy(FieldError(e, field)) then e
    else match field
      case Name => e.(name := None)
      case Email => e.(email := None)
      case Password => e.(password := None)
      case ConfirmPassword => e.(confirmPassword := None)
  }

  /** The two error updaters commute, so the order React applies them in does not matter. */
  lemma ErrorUpdatersCommute(e: Errors, field: Field, updated: Data)
    ensures ClearField(ClearMismatch(e, field, updated), field) == ClearMismatch(ClearField(e, field), field, updated)
  {
  }

  /** `handleInputChange`. */
  function Edit(f: Form, field: Field, value: string): (r: Form)
    ensures FieldValue(r.data, field) == value
    ensures forall g: Field | g != field :: FieldValue(r.data, g) == FieldValue(f.data, g)
    ensures !Truthy(FieldError(r.errors, field))
    ensures forall g: Field | g != field && g != ConfirmPassword :: FieldError(r.errors, g) == FieldError(f.errors, g)
    ensures field != ConfirmPassword ==>
              (r.errors.confirmPassword != f.errors.confirmPassword <==>
                 && field == Password && value != "" && value == f.data.confirmPassword
                 && f.errors.confirmPassword == Some(PasswordMismatch))
    ensures r.errors.confirmPassword == f.errors.confirmPassword || r.errors.confirmPassword == None
  {
    var updated := SetField(f.data, field, value);
    Form(updated, ClearField(ClearMismatch(f.errors, field, updated), field))
  }
}
