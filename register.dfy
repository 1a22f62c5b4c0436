/** The registration form (frontend/src/Register.js): `validate()` fills an
    error map from five independent checks, the request goes out only when
    that map is empty, and the reply decides the errors shown next. */
module RegisterForm {
  import opened Outcomes
  import opened Strings
  import opened Validators

  datatype Fields = Fields(username: string, email: string, mobile: string, password: string, confirmPassword: string)

  const USERNAME_ERROR := "Username must be at least 6 characters long"
  const EMAIL_ERROR := "Invalid email format"
  const MOBILE_ERROR := "Mobile number must be exactly 10 digits"
  const PASSWORD_ERROR :=
    "Password must be at least 6 characters long and contain at least one lowercase letter, one uppercase letter, and one special character"
  const CONFIRM_ERROR := "Passwords do not match"
  const REGISTRATION_FAILED := "Registration failed"

  /** The keys of the `errors` object: one per input, and `server` for a
      failed request. */
  datatype ErrorKey = Username | Email | Mobile | Password | ConfirmPassword | ServerError

  const FIELD_KEYS: set<ErrorKey> := {Username, Email, Mobile, Password, ConfirmPassword}

  /** Whether `validate()` flags `key`: the five checks are independent. */
  predicate Flagged(f: Fields, key: ErrorKey) {
    match key
    case Username => JsLength(f.username) < MIN_LENGTH
    case Email => !IsEmail(f.email)
    case Mobile => !IsTenDigits(f.mobile)
    case Password => JsLength(f.password) < MIN_LENGTH || !PasswordPattern(f.password)
    case ConfirmPassword => f.password != f.confirmPassword
    case ServerError => false
  }

  function Message(key: ErrorKey): string {
    match key
    case Username => USERNAME_ERROR
    case Email => EMAIL_ERROR
    case Mobile => MOBILE_ERROR
    case Password => PASSWORD_ERROR
    case ConfirmPassword => CONFIRM_ERROR
    case ServerError => REGISTRATION_FAILED
  }

  /** `validate()`: one entry per failed check, keyed by the field, holding
      that check's message. */
  function Validate(f: Fields): (errors: map<ErrorKey, string>)
    ensures ServerError !in errors
    ensures Username in errors <==> JsLength(f.username) < MIN_LENGTH
    ensures Email in errors <==> !EmailPattern(f.email)
    ensures Mobile in errors <==> !IsTenDigits(f.mobile)
    ensures Password in errors <==> !PasswordAcceptable(f.password)
    ensures ConfirmPassword in errors <==> f.password != f.confirmPassword
    ensures Username in errors ==> errors[Username] == USERNAME_ERROR
    ensures Email in errors ==> errors[Email] == EMAIL_ERROR
    ensures Mobile in errors ==> errors[Mobile] == MOBILE_ERROR
    ensures Password in errors ==> errors[Password] == PASSWORD_ERROR
    ensures ConfirmPassword in errors ==> errors[ConfirmPassword] == CONFIRM_ERROR
  {
    EmailPatternIffIsEmail(f.email);
    map key | key in FIELD_KEYS && Flagged(f, key) :: Message(key)
  }

  /** A form that passes `validate()` describes a user the schema of
      backend/models/User.js accepts, with the confirmation equal to the
      password; and every such user passes. */
  lemma ValidateAgreesWithSchema(f: Fields)
    ensures Validate(f) == map[] <==>
      UserSchemaValid(f.username, f.email, f.mobile, f.password) && f.password == f.confirmPassword
  {
    var errors := Validate(f);
    if UserSchemaValid(f.username, f.email, f.mobile, f.password) && f.password == f.confirmPassword {
      assert errors.Keys == {};
    }
  }

  /** What the POST /register request ended with; a 409 names the field
      (`username` or `email`) it is about. */
  datatype Reply = Created | Conflict(field: ErrorKey, message: string) | Failed

  datatype Outcome = Outcome(sent: bool, fields: Fields, errors: map<ErrorKey, string>, toLogin: bool)

  const EMPTY_FIELDS := Fields("", "", "", "", "")

  /** `handleSubmit`: no request while `validate()` reports anything; on
      success every field and error is cleared and the page moves to the
      login; a 409 shows its message under the field the server named; any
      other failure shows the generic server error. */
  function Submit(f: Fields, reply: Reply): (r: Outcome)
    ensures r.sent <==> Validate(f) == map[]
    ensures !r.sent ==> r.fields == f && r.errors == Validate(f) && r.errors != map[]
    ensures r.toLogin <==> r.sent && reply.Created?
    ensures r.toLogin ==> r.fields == EMPTY_FIELDS && r.errors == map[]
    ensures r.sent && reply.Conflict? ==> r.fields == f && r.errors == map[reply.field := reply.message]
    ensures r.sent && reply.Failed? ==> r.fields == f && r.errors == map[ServerError := REGISTRATION_FAILED]
  {
    var errors := Validate(f);
    if errors != map[] then Outcome(false, f, errors, false)
    else
      match reply
      case Created => Outcome(true, EMPTY_FIELDS, map[], true)
      case Conflict(field, message) => Outcome(true, f, map[field := message], false)
      case Failed => Outcome(true, f, map[ServerError := REGISTRATION_FAILED], false)
  }
}
