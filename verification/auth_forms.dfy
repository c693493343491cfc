/**
 * The sign-in / sign-up page: the two forms' schemas, which report only their
 * first failure, and what a submission asks of the auth service, writes to the
 * role table, tells the user and leaves in the form. The auth service's and the
 * database's replies are parameters; so is zod's email test.
 */
module AuthForms {
  import opened Wrappers
  import opened Schema
  import opened Validation

  /** zod's `.email()` test, which this model does not spell out. */
  type EmailTest = string -> bool

  const InvalidEmail: string := "Invalid email address"

  // ---------------------------------------------------------------- sign up

  /** The sign-up form's state; the role select can only hold one of the two roles. */
  datatype SignUpForm = SignUpForm(fullName: string, email: string, password: string, role: AppRole)

  /** The form as the page opens it, and as a successful sign-up leaves it. */
  const InitialSignUp: SignUpForm := SignUpForm("", "", "", Student)

  /**
   * `signUpSchema`'s checks in key order. The role enum check cannot fail on a form
   * whose role is one of the two values, so it contributes no failing check.
   */
  function SignUpChecks(f: SignUpForm, isEmail: EmailTest): seq<Check> {
    [ MinLength(f.fullName, 2, "Name must be at least 2 characters"),
      Check(isEmail(f.email), InvalidEmail),
      MinLength(f.password, 6, "Password must be at least 6 characters") ]
  }

  /** The schema's verdict: no error exactly when every field is acceptable, else the first field's message. */
  function SignUpError(f: SignUpForm, isEmail: EmailTest): (e: Option<string>)
    ensures e.None? <==> |f.fullName| >= 2 && isEmail(f.email) && |f.password| >= 6
    ensures |f.fullName| < 2 ==> e == Some("Name must be at least 2 characters")
    ensures |f.fullName| >= 2 && !isEmail(f.email) ==> e == Some(InvalidEmail)
    ensures |f.fullName| >= 2 && isEmail(f.email) && |f.password| < 6 ==> e == Some("Password must be at least 6 characters")
  {
    var checks := SignUpChecks(f, isEmail);
    FirstErrorCons(checks);
    FirstErrorCons(checks[1..]);
    FirstErrorCons(checks[2..]);
    assert checks[3..] == [];
    FirstError(checks)
  }

  /** The auth service's answer to `signUp`: an error, or success with or without a user. */
  datatype SignUpReply = SignUpFailed(message: string) | SignedUp(user: Option<string>)

  /** A toast: success or error, with its text. */
  datatype Notice = Success(text: string) | Failure(text: string)

  /**
   * What one submission does: the credentials and name sent to the auth service (when
   * validation passes), the `user_roles` row written, the toast shown, and the form after.
   */
  datatype SignUpOutcome = SignUpOutcome(
    request: Option<SignUpForm>, roleRow: Option<(string, AppRole)>, notice: Notice, form: SignUpForm)

  const AccountCreated: string := "Account created! You can now sign in."
  const RoleAssignmentFailed: string := "Account created but role assignment failed"

  /** `handleSignUp` for one reply of the auth service and one of the role insert. */
  function SignUp(f: SignUpForm, isEmail: EmailTest, reply: SignUpReply, roleError: Option<string>): (o: SignUpOutcome)
    ensures o.request.Some? <==> SignUpError(f, isEmail).None?
    ensures o.request.Some? ==> o.request.value == f
    ensures o.roleRow.Some? <==> o.request.Some? && reply.SignedUp? && reply.user.Some?
    ensures o.roleRow.Some? ==> o.roleRow.value == (reply.user.value, f.role)
    ensures o.notice.Success? <==> o.request.Some? && reply.SignedUp? && (reply.user.None? || roleError.None?)
    ensures o.notice.Success? ==> o.notice.text == AccountCreated && o.form == InitialSignUp
    ensures o.notice.Failure? ==> o.form == f
  {
    match SignUpError(f, isEmail)
    case Some(message) => SignUpOutcome(None, None, Failure(message), f)
    case None =>
      match reply
      case SignUpFailed(message) => SignUpOutcome(Some(f), None, Failure(OrFallback(message, "Failed to sign up")), f)
      case SignedUp(None) => SignUpOutcome(Some(f), None, Success(AccountCreated), InitialSignUp)
      case SignedUp(Some(id)) =>
        if roleError.Some? then SignUpOutcome(Some(f), Some((id, f.role)), Failure(RoleAssignmentFailed), f)
        else SignUpOutcome(Some(f), Some((id, f.role)), Success(AccountCreated), InitialSignUp)
  }

  /**
   * A failed role insert after the account was created shows only the role error: the
   * success toast never appears and the form keeps what was typed.
   */
  lemma RoleFailureSuppressesSuccess(f: SignUpForm, isEmail: EmailTest, id: string, roleError: string)
    requires SignUpError(f, isEmail).None?
    ensures SignUp(f, isEmail, SignedUp(Some(id)), Some(roleError)).notice == Failure(RoleAssignmentFailed)
    ensures SignUp(f, isEmail, SignedUp(Some(id)), Some(roleError)).roleRow == Some((id, f.role))
    ensures SignUp(f, isEmail, SignedUp(Some(id)), Some(roleError)).form == f
  {
  }

  /** A submission the schema rejects sends nothing, so neither reply can matter. */
  lemma InvalidSignUpSendsNothing(f: SignUpForm, isEmail: EmailTest, reply: SignUpReply, roleError: Option<string>)
    requires SignUpError(f, isEmail).Some?
    ensures SignUp(f, isEmail, reply, roleError) == SignUpOutcome(None, None, Failure(SignUpError(f, isEmail).value), f)
  {
  }

  /** The empty starting form is always refused for its name, whatever else holds. */
  lemma InitialSignUpIsRefused(isEmail: EmailTest)
    ensures SignUpError(InitialSignUp, isEmail) == Some("Name must be at least 2 characters")
    ensures InitialSignUp.role == Student
  {
  }

  /** Resetting after success returns the form to where it started, so a second success changes nothing more. */
  lemma SuccessResetIsTheStartingForm(f: SignUpForm, isEmail: EmailTest, reply: SignUpReply, roleError: Option<string>)
    requires SignUp(f, isEmail, reply, roleError).notice.Success?
    ensures SignUp(f, isEmail, reply, roleError).form == InitialSignUp
    ensures SignUp(SignUp(f, isEmail, reply, roleError).form, isEmail, reply, roleError).form == InitialSignUp
  {
    InitialSignUpIsRefused(isEmail);
  }

  // ---------------------------------------------------------------- sign in

  datatype SignInForm = SignInForm(email: string, password: string)

  const InitialSignIn: SignInForm := SignInForm("", "")

  /** `signInSchema`: a valid email, then a password of at least one character. */
  function SignInError(f: SignInForm, isEmail: EmailTest): (e: Option<string>)
    ensures e.None? <==> isEmail(f.email) && f.password != ""
    ensures !isEmail(f.email) ==> e == Some(InvalidEmail)
    ensures isEmail(f.email) && f.password == "" ==> e == Some("Password is required")
  {
    var checks := [Check(isEmail(f.email), InvalidEmail), MinLength(f.password, 1, "Password is required")];
    FirstErrorCons(checks);
    FirstErrorCons(checks[1..]);
    assert checks[2..] == [];
    FirstError(checks)
  }

  /** What a sign-in submission does: whether it asks the auth service, the toast, and whether it goes home. */
  datatype SignInOutcome = SignInOutcome(requested: bool, notice: Notice, goHome: bool)

  /** `handleSignIn` for one reply of the auth service (an error message or none). */
  function SignIn(f: SignInForm, isEmail: EmailTest, authError: Option<string>): (o: SignInOutcome)
    ensures o.requested <==> SignInError(f, isEmail).None?
    ensures o.goHome <==> o.requested && authError.None?
    ensures o.goHome <==> o.notice.Success?
    ensures o.notice.Success? ==> o.notice.text == "Signed in successfully!"
    ensures o.requested && authError.Some? ==> o.notice.text == OrFallback(authError.value, "Failed to sign in")
  {
    match SignInError(f, isEmail)
    case Some(message) => SignInOutcome(false, Failure(message), false)
    case None =>
      match authError
      case Some(message) => SignInOutcome(true, Failure(OrFallback(message, "Failed to sign in")), false)
      case None => SignInOutcome(true, Success("Signed in successfully!"), true)
  }

  /**
   * The sign-in schema is weaker than the sign-up one: every sign-up the schema accepts
   * would also pass the sign-in schema with the same email and password.
   */
  lemma SignUpCredentialsPassSignIn(f: SignUpForm, isEmail: EmailTest)
    requires SignUpError(f, isEmail).None?
    ensures SignInError(SignInForm(f.email, f.password), isEmail).None?
  {
  }
}
