/** The signup request (src/action/auth/index.ts): a guard over the six
    fields, then a multipart form built by six appends. */
module AuthAction {
  import opened Wrappers
  import opened Types
  import opened Validation

  /** What the signup page hands to the action. The file is optional here
      because the action checks for it. */
  datatype SignUpDTO = SignUpDTO(
    name: string,
    location: string,
    email: string,
    phoneNumber: string,
    password: string,
    file: Option<FileRef>)

  /** The action's checks, in order; an empty string is missing. */
  function SignupChecks(data: SignUpDTO): seq<Check> {
    [Check(data.name != "", "Name is required"),
     Check(data.location != "", "Location is required"),
     Check(data.email != "", "Email is required"),
     Check(data.phoneNumber != "", "Phone Number is required"),
     Check(data.password != "", "Password is required"),
     Check(data.file.Some?, "Profile Image is required")]
  }

  /** The error the action throws before sending anything, if any. */
  function SignupGuard(data: SignUpDTO): Option<string> {
    FirstFailure(SignupChecks(data))
  }

  /** The guard lets a request through exactly when all six fields are
      present, and otherwise names the first missing one. */
  lemma SignupGuardOutcomes(data: SignUpDTO)
    ensures SignupGuard(data).None? <==>
      data.name != "" && data.location != "" && data.email != "" &&
      data.phoneNumber != "" && data.password != "" && data.file.Some?
    ensures data.name == "" ==> SignupGuard(data) == Some("Name is required")
    ensures data.name != "" && data.location == "" ==> SignupGuard(data) == Some("Location is required")
    ensures data.name != "" && data.location != "" && data.email == "" ==>
      SignupGuard(data) == Some("Email is required")
    ensures data.name != "" && data.location != "" && data.email != "" && data.phoneNumber == "" ==>
      SignupGuard(data) == Some("Phone Number is required")
    ensures (data.name != "" && data.location != "" && data.email != "" && data.phoneNumber != "" &&
             data.password == "") ==> SignupGuard(data) == Some("Password is required")
    ensures (data.name != "" && data.location != "" && data.email != "" && data.phoneNumber != "" &&
             data.password != "" && data.file.None?) ==> SignupGuard(data) == Some("Profile Image is required")
  {
    var checks := SignupChecks(data);
    if data.name == "" {
      FirstFailureAt(checks, 0);
    } else if data.location == "" {
      FirstFailureAt(checks, 1);
    } else if data.email == "" {
      assert checks[..2] == [checks[0], checks[1]];
      FirstFailureAt(checks, 2);
    } else if data.phoneNumber == "" {
      assert checks[..3] == [checks[0], checks[1], checks[2]];
      FirstFailureAt(checks, 3);
    } else if data.password == "" {
      assert checks[..4] == [checks[0], checks[1], checks[2], checks[3]];
      FirstFailureAt(checks, 4);
    } else if data.file.None? {
      assert checks[..5] == [checks[0], checks[1], checks[2], checks[3], checks[4]];
      FirstFailureAt(checks, 5);
    }
  }

  /** `signup`: `Failure` with the guard's message when a field is missing,
      in which case nothing is sent; otherwise the form that is posted to
      `/auth/signup`: exactly six entries, in order, each holding its field
      unchanged. The server's reply is not part of this model. */
  method Signup(data: SignUpDTO) returns (r: Result<Form>)
    ensures r.Failure? <==> SignupGuard(data).Some?
    ensures r.Failure? ==> r.error == SignupGuard(data).value
    ensures r.Success? ==>
      Keys(r.value) == ["name", "location", "email", "phoneNumber", "password", "file"] &&
      r.value[0].value == Text(data.name) && r.value[1].value == Text(data.location) &&
      r.value[2].value == Text(data.email) && r.value[3].value == Text(data.phoneNumber) &&
      r.value[4].value == Text(data.password) && data.file.Some? && r.value[5].value == Blob(data.file.value)
  {
    SignupGuardOutcomes(data);
    var guard := SignupGuard(data);
    if guard.Some? {
      return Failure(guard.value);
    }
    var formData: Form := [];
    formData := formData + [FormEntry("name", Text(data.name))];
    formData := formData + [FormEntry("location", Text(data.location))];
    formData := formData + [FormEntry("email", Text(data.email))];
    formData := formData + [FormEntry("phoneNumber", Text(data.phoneNumber))];
    formData := formData + [FormEntry("password", Text(data.password))];
    formData := formData + [FormEntry("file", Blob(data.file.value))];
    return Success(formData);
  }
}
