/** The login form (frontend/src/Login.js): `validate()` on the trimmed
    email and password, no request while it reports anything, and the reply
    mapped to the token kept or the error shown. */
module LoginForm {
  import opened Outcomes
  import opened Seqs
  import opened Strings
  import opened Validators

  const EMAIL_MISSING := "Please enter your email id"
  const EMAIL_INVALID := "Invalid email format"
  const PASSWORD_MISSING := "Please enter your password"
  const LOGIN_FAILED := "Login failed"

  /** `validate()`: a blank email is reported as missing and its format is
      not looked at; otherwise the untrimmed text must match the email
      pattern; a blank password is reported as missing. */
  function Validate(email: string, password: string): (errors: map<string, string>)
    ensures errors.Keys <= {"email", "password"}
    ensures IsBlank(email) ==> "email" in errors && errors["email"] == EMAIL_MISSING
    ensures !IsBlank(email) ==> ("email" in errors <==> !EmailPattern(email))
    ensures !IsBlank(email) && "email" in errors ==> errors["email"] == EMAIL_INVALID
    ensures "password" in errors <==> IsBlank(password)
    ensures "password" in errors ==> errors["password"] == PASSWORD_MISSING
  {
    TrimEmptyIffBlank(email);
    TrimEmptyIffBlank(password);
    EmailPatternIffIsEmail(email);
    var e0: map<string, string> := map[];
    var e1 :=
      if Trim(email) == "" then e0["email" := EMAIL_MISSING]
      else if !IsEmail(email) then e0["email" := EMAIL_INVALID]
      else e0;
    if Trim(password) == "" then e1["password" := PASSWORD_MISSING] else e1
  }

  /** An email the form lets through has no surrounding whitespace: the
      pattern admits no space character at all. */
  lemma AcceptedEmailIsTrimmed(email: string, password: string)
    requires "email" !in Validate(email, password)
    ensures IsTrimmed(email) && email != ""
  {
    assert EmailPattern(email);
    EmailPatternIsTrimmed(email);
  }

  /** What the POST /login request ended with. */
  datatype Reply = LoggedIn(token: string) | Rejected(status: int, message: string) | NoResponse

  datatype State = State(email: string, password: string, errors: map<string, string>, token: Option<string>)

  /** `handleSubmit`: no request while `validate()` reports anything; on
      success the token is stored and the fields and errors cleared; a 404
      or 401 shows the server's message; anything else shows the generic
      failure. The fields stay as typed on every failure. */
  function Submit(s: State, reply: Reply): (r: State)
    ensures var sent := Validate(s.email, s.password) == map[];
      && (!sent ==> r == s.(errors := Validate(s.email, s.password)))
      && (sent && reply.LoggedIn? ==> r == State("", "", map[], Some(reply.token)))
      && (sent && reply.Rejected? && (reply.status == NOT_FOUND || reply.status == UNAUTHORIZED) ==>
            r == s.(errors := map["server" := reply.message]))
      && (sent && !reply.LoggedIn? && !(reply.Rejected? && (reply.status == NOT_FOUND || reply.status == UNAUTHORIZED)) ==>
            r == s.(errors := map["server" := LOGIN_FAILED]))
    ensures r.token != s.token ==> reply.LoggedIn? && Validate(s.email, s.password) == map[]
  {
    var errors := Validate(s.email, s.password);
    if errors != map[] then s.(errors := errors)
    else
      match reply
      case LoggedIn(token) => State("", "", map[], Some(token))
      case Rejected(status, message) =>
        if status == NOT_FOUND || status == UNAUTHORIZED then s.(errors := map["server" := message])
        else s.(errors := map["server" := LOGIN_FAILED])
      case NoResponse => s.(errors := map["server" := LOGIN_FAILED])
  }
}
