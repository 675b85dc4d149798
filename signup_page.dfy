/** The admin signup page (src/app/admin/signup/page.tsx): validation of the
    trimmed fields, the trimmed request data, and the error message shown
    when signup fails. */
module SignupPage {
  import opened Wrappers
  import opened Text
  import opened Types
  import opened Validation
  import opened AuthAction

  /** The page's inputs as typed. */
  datatype SignupFields = SignupFields(
    name: string,
    location: string,
    email: string,
    phoneNumber: string,
    password: string,
    image: Option<FileRef>)

  /** The checks of `validateForm`, in order: a text field that is empty
      after `trim` is missing. */
  function PageChecks(f: SignupFields): seq<Check> {
    [Check(Trim(f.name) != "", "Name is required"),
     Check(Trim(f.location) != "", "Location is required"),
     Check(Trim(f.email) != "", "Email is required"),
     Check(Trim(f.phoneNumber) != "", "Phone Number is required"),
     Check(Trim(f.password) != "", "Password is required"),
     Check(f.image.Some?, "Profile Image is required")]
  }

  /** `validateForm`: `None` when the form may be submitted, otherwise the
      first failing check's message. */
  function ValidateSignup(f: SignupFields): Option<string> {
    FirstFailure(PageChecks(f))
  }

  /** `signupData`: every text field trimmed, the image as the file. */
  function SignUpData(f: SignupFields): (d: SignUpDTO)
    ensures d.name == Trim(f.name) && d.location == Trim(f.location) && d.email == Trim(f.email)
    ensures d.phoneNumber == Trim(f.phoneNumber) && d.password == Trim(f.password)
    ensures d.file == f.image
  {
    SignUpDTO(Trim(f.name), Trim(f.location), Trim(f.email), Trim(f.phoneNumber), Trim(f.password), f.image)
  }

  /** The page's checks are the action's checks applied to the trimmed data,
      so the page reports what the action would, and a whitespace-only field
      counts as missing. */
  lemma PageChecksAreActionChecks(f: SignupFields)
    ensures PageChecks(f) == SignupChecks(SignUpData(f))
    ensures ValidateSignup(f) == SignupGuard(SignUpData(f))
  {
  }

  /** Validation passes exactly when every trimmed text field is non-empty
      and an image is chosen; then the action's own guard never fires. */
  lemma ValidateSignupOutcomes(f: SignupFields)
    ensures ValidateSignup(f).None? <==>
      Trim(f.name) != "" && Trim(f.location) != "" && Trim(f.email) != "" &&
      Trim(f.phoneNumber) != "" && Trim(f.password) != "" && f.image.Some?
    ensures ValidateSignup(f).None? ==> SignupGuard(SignUpData(f)).None?
    ensures Trim(f.name) == "" ==> ValidateSignup(f) == Some("Name is required")
    ensures Trim(f.name) != "" && Trim(f.location) == "" ==> ValidateSignup(f) == Some("Location is required")
    ensures (forall i :: 0 <= i < |f.name| ==> IsWhitespace(f.name[i])) ==>
      ValidateSignup(f) == Some("Name is required")
    ensures (forall i :: 0 <= i < |f.password| ==> IsWhitespace(f.password[i])) ==> ValidateSignup(f).Some?
  {
    TrimEmptyIffBlank(f.name);
    TrimEmptyIffBlank(f.password);
    PageChecksAreActionChecks(f);
    SignupGuardOutcomes(SignUpData(f));
  }

  /** How a failed signup call ended: the server's message, if any, and the
      exception's message, if any. */
  datatype SignupFailure = SignupFailure(serverMessage: Option<string>, exceptionMessage: Option<string>)

  /** The message shown after a failure: the server's message, then the
      exception's message, then a default text; an empty message is
      skipped. */
  function SignupErrorMessage(e: SignupFailure): (m: string)
    ensures IsPresent(e.serverMessage) ==> m == e.serverMessage.value
    ensures !IsPresent(e.serverMessage) && IsPresent(e.exceptionMessage) ==> m == e.exceptionMessage.value
    ensures !IsPresent(e.serverMessage) && !IsPresent(e.exceptionMessage) ==>
      m == "An unexpected error occurred during signup"
    ensures m != ""
  {
    if IsPresent(e.serverMessage) then e.serverMessage.value
    else if IsPresent(e.exceptionMessage) then e.exceptionMessage.value
    else "An unexpected error occurred during signup"
  }

  datatype SignupOutcome = ShowError(message: string) | GoToLogin

  /** `handleSubmit`. The first component says whether the action was
      called; `reply` is how the request would end (`None` for success). */
  function HandleSignup(f: SignupFields, reply: Option<SignupFailure>): (r: (bool, SignupOutcome))
    ensures r.0 <==> ValidateSignup(f).None?
    ensures !r.0 ==> ValidateSignup(f).Some? && r.1 == ShowError(ValidateSignup(f).value)
    ensures r.0 ==> (r.1 == GoToLogin <==> reply.None?)
    ensures r.0 && reply.Some? ==> r.1 == ShowError(SignupErrorMessage(reply.value))
  {
    match ValidateSignup(f)
    case Some(message) => (false, ShowError(message))
    case None =>
      (true, match reply
             case None => GoToLogin
             case Some(failure) => ShowError(SignupErrorMessage(failure)))
  }
}
