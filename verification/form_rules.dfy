/** The field rules the login and register forms share: a required email of the right shape and a password of six UTF-16 code units or more. */
module FormRules {
  import opened Wrappers
  import opened EmailPattern
  import opened Text

  const EmailRequired: string := "Email é obrigatório"
  const EmailInvalid: string := "Email inválido"
  const PasswordRequired: string := "Senha é obrigatória"
  const PasswordTooShort: string := "Senha deve ter pelo menos 6 caracteres"
  const MinPasswordLength: nat := 6

  /** The email error: required first, then the pattern `\S+@\S+\.\S+` anywhere in the text. */
  function EmailError(email: string): (r: Option<string>)
    ensures r == Some(EmailRequired) <==> email == ""
    ensures r == Some(EmailInvalid) <==> email != "" && !Test(email)
    ensures r.None? <==> email != "" && Test(email)
  {
    FoundIffTest(email);
    if email == "" then Some(EmailRequired)
    else if !Found(email) then Some(EmailInvalid)
    else None
  }

  /** `password.length`: the password's length in UTF-16 code units. */
  function PasswordLength(password: string): nat {
    Utf16Length(password)
  }

  /** The password error: required first, then at least six UTF-16 code units (`password.length`). */
  function PasswordError(password: string): (r: Option<string>)
    ensures r == Some(PasswordRequired) <==> |password| == 0
    ensures r == Some(PasswordTooShort) <==> 0 < |password| && PasswordLength(password) < MinPasswordLength
    ensures r.None? <==> PasswordLength(password) >= MinPasswordLength
  {
    if password == "" then Some(PasswordRequired)
    else if PasswordLength(password) < MinPasswordLength then Some(PasswordTooShort)
    else None
  }

  /**
   * Three characters outside the Basic Multilingual Plane already make six code units, so such a
   * password passes the length rule although it has only three characters.
   */
  lemma AstralPasswordLength(password: string)
    requires |password| == 3 && forall i | 0 <= i < 3 :: Astral(password[i])
    ensures PasswordError(password).None?
  {
  }
}
