/** The admin login page (src/app/admin/login/page.tsx): client-side
    validation and the mapping of sign-in error codes to messages. */
module LoginPage {
  import opened Wrappers
  import opened Text
  import opened Types
  import opened Validation

  /** No whitespace in `s[a..b]`. */
  predicate NonSpace(s: string, a: int, b: int)
    requires 0 <= a <= b <= |s|
  {
    forall t :: a <= t < b ==> !IsWhitespace(s[t])
  }

  /** `s[i..e]` is a match of `\S+@\S+\.\S+` with the `@` at `k` and the
      `.` at `l`. */
  ghost predicate MatchesAt(s: string, i: int, k: int, l: int, e: int) {
    0 <= i < k && k + 1 < l && l + 1 < e <= |s| &&
    s[k] == '@' && s[l] == '.' &&
    NonSpace(s, i, k) && NonSpace(s, k + 1, l) && NonSpace(s, l + 1, e)
  }

  /** The unanchored pattern `\S+@\S+\.\S+` matches somewhere in `s`. */
  ghost predicate EmailPatternMatches(s: string) {
    exists i, k, l, e :: MatchesAt(s, i, k, l, e)
  }

  /** The email check as it can be decided: an `@` with a visible character
      before it, then a non-empty run without whitespace, a `.`, and a
      visible character after it. */
  predicate LooksLikeEmail(s: string) {
    exists k, l :: 0 <= k < l < |s| && EmailAt(s, k, l)
  }

  /** The `@` at `k` and the `.` at `l` are framed as the pattern needs. */
  predicate EmailAt(s: string, k: int, l: int) {
    1 <= k && k + 1 < l < |s| - 1 && s[k] == '@' && s[l] == '.' &&
    !IsWhitespace(s[k - 1]) && NonSpace(s, k + 1, l) && !IsWhitespace(s[l + 1])
  }

  /** Every string the decidable check accepts has a match of the
      pattern. */
  lemma LooksLikeEmailIsMatch(s: string)
    requires LooksLikeEmail(s)
    ensures EmailPatternMatches(s)
  {
    var k, l :| 0 <= k < l < |s| && EmailAt(s, k, l);
    assert NonSpace(s, k - 1, k) && NonSpace(s, l + 1, l + 2);
    assert MatchesAt(s, k - 1, k, l, l + 2);
  }

  /** Every match of the pattern can be shrunk to one visible character on
      each outer side, which the decidable check finds. */
  lemma MatchLooksLikeEmail(s: string, i: int, k: int, l: int, e: int)
    requires MatchesAt(s, i, k, l, e)
    ensures LooksLikeEmail(s)
  {
    assert !IsWhitespace(s[k - 1]) && !IsWhitespace(s[l + 1]);
    assert EmailAt(s, k, l);
  }

  /** The decidable check accepts exactly the strings the unanchored pattern
      matches somewhere. */
  lemma LooksLikeEmailIffPattern(s: string)
    ensures LooksLikeEmail(s) <==> EmailPatternMatches(s)
  {
    if LooksLikeEmail(s) {
      LooksLikeEmailIsMatch(s);
    }
    if EmailPatternMatches(s) {
      var i, k, l, e :| MatchesAt(s, i, k, l, e);
      MatchLooksLikeEmail(s, i, k, l, e);
    }
  }

  /** An address inside other text passes, since the pattern is not
      anchored; a missing dot after the `@` fails. */
  lemma EmailExamples()
    ensures LooksLikeEmail("chef@dine.in")
    ensures LooksLikeEmail("see: a@b.c!")
    ensures !LooksLikeEmail("a@b")
  {
    assert EmailAt("chef@dine.in", 4, 9);
    assert EmailAt("see: a@b.c!", 6, 8);
  }

  /** The four checks of `validateForm`, in order. */
  function LoginChecks(email: string, password: string): seq<Check> {
    [Check(email != "", "Email is required"),
     Check(LooksLikeEmail(email), "Email address is invalid"),
     Check(password != "", "Password is required"),
     Check(Utf16Length(password) >= 8, "Password must be at least 8 characters long")]
  }

  /** `validateForm`: `None` when the form may be submitted, otherwise the
      message of the first failing check. */
  function ValidateLogin(email: string, password: string): Option<string> {
    FirstFailure(LoginChecks(email, password))
  }

  /** The checks run in order and the first failure is reported; the form is
      accepted exactly when the email looks like an address and the password
      is at least 8 UTF-16 code units long. */
  lemma ValidateLoginOutcomes(email: string, password: string)
    ensures ValidateLogin(email, password).None? <==> LooksLikeEmail(email) && Utf16Length(password) >= 8
    ensures email == "" ==> ValidateLogin(email, password) == Some("Email is required")
    ensures email != "" && !LooksLikeEmail(email) ==>
      ValidateLogin(email, password) == Some("Email address is invalid")
    ensures LooksLikeEmail(email) && password == "" ==>
      ValidateLogin(email, password) == Some("Password is required")
    ensures LooksLikeEmail(email) && 0 < Utf16Length(password) < 8 ==>
      ValidateLogin(email, password) == Some("Password must be at least 8 characters long")
  {
    var checks := LoginChecks(email, password);
    if email == "" {
      FirstFailureAt(checks, 0);
    } else if !LooksLikeEmail(email) {
      FirstFailureAt(checks, 1);
    } else if password == "" {
      assert checks[..2] == [checks[0], checks[1]];
      FirstFailureAt(checks, 2);
    } else if Utf16Length(password) < 8 {
      assert checks[..3] == [checks[0], checks[1], checks[2]];
      FirstFailureAt(checks, 3);
    } else {
      assert LooksLikeEmail(email) ==> email != "";
    }
  }

  /** The length check counts UTF-16 code units, as `password.length` does:
      four emoji pass it, although they are only four characters. */
  lemma FourEmojiPasswordAccepted()
    ensures ValidateLogin("chef@dine.in", "\U{1F600}\U{1F600}\U{1F600}\U{1F600}").None?
  {
    AstralCountsTwice();
    EmailExamples();
    ValidateLoginOutcomes("chef@dine.in", "\U{1F600}\U{1F600}\U{1F600}\U{1F600}");
  }

  /** The message shown for a sign-in error code: the two known codes have
      their own text, every other code the generic one. */
  function SignInErrorMessage(code: string): (m: string)
    ensures code == "CredentialsSignin" ==> m == "Invalid email or password. Please try again."
    ensures code == "UserNotFound" ==> m == "No account found with this email. Please sign up."
    ensures code !in {"CredentialsSignin", "UserNotFound"} ==>
      m == "An unexpected error occurred. Please try again later."
  {
    var errorMap := map["CredentialsSignin" := "Invalid email or password. Please try again.",
                        "UserNotFound" := "No account found with this email. Please sign up."];
    if code in errorMap then errorMap[code] else "An unexpected error occurred. Please try again later."
  }

  /** What `signIn` reported: an error code (`None` or "" meaning none), or
      a thrown exception. */
  datatype SignInReply = Reply(error: Option<string>) | Thrown

  datatype LoginOutcome = ShowError(message: string) | GoToDashboard

  /** `handleSubmit`. The first component says whether `signIn` was called;
      `reply` is what it would report. */
  function HandleLogin(email: string, password: string, reply: SignInReply): (r: (bool, LoginOutcome))
    ensures r.0 <==> LooksLikeEmail(email) && Utf16Length(password) >= 8
    ensures !r.0 ==>
      ValidateLogin(email, password).Some? && r.1 == ShowError(ValidateLogin(email, password).value)
    ensures r.0 ==> (r.1 == GoToDashboard <==> reply.Reply? && !IsPresent(reply.error))
    ensures r.0 && reply.Reply? && IsPresent(reply.error) ==>
      r.1 == ShowError(SignInErrorMessage(reply.error.value))
    ensures r.0 && reply.Thrown? ==>
      r.1 == ShowError("Network error. Please check your connection and try again.")
  {
    ValidateLoginOutcomes(email, password);
    match ValidateLogin(email, password)
    case Some(message) => (false, ShowError(message))
    case None =>
      (true,
       match reply
       case Thrown => ShowError("Network error. Please check your connection and try again.")
       case Reply(error) =>
         if IsPresent(error) then ShowError(SignInErrorMessage(error.value)) else GoToDashboard)
  }
}
