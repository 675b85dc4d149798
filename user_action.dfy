/** The profile update request (src/action/user/index.ts): the session
    guard, the multipart form built from the changed fields and the optional
    file, and the user record read back from the reply. */
module UserAction {
  import opened Wrappers
  import opened Types

  /** One entry of the partial user object: its key and its value, `None`
      standing for `undefined` or `null`. */
  datatype Field = Field(key: string, value: Option<string>)

  /** The form entries of the fields that have a value, in field order. */
  function NonNullEntries(fields: seq<Field>): Form {
    if |fields| == 0 then []
    else
      var last := fields[|fields| - 1];
      NonNullEntries(fields[..|fields| - 1]) +
      (if last.value.Some? then [FormEntry(last.key, Text(last.value.value))] else [])
  }

  /** Splitting the fields splits the entries: the order of the fields is
      kept. */
  lemma {:induction false} NonNullEntriesAppend(a: seq<Field>, b: seq<Field>)
    ensures NonNullEntries(a + b) == NonNullEntries(a) + NonNullEntries(b)
    decreases |b|
  {
    if |b| == 0 {
      assert a + b == a;
    } else {
      assert (a + b)[..|a + b| - 1] == a + b[..|b| - 1];
      NonNullEntriesAppend(a, b[..|b| - 1]);
    }
  }

  /** Exactly the fields with a value become entries, each with its key and
      its text unchanged; fields without a value are left out. */
  lemma {:induction false} NonNullEntriesExactly(fields: seq<Field>)
    ensures forall e :: e in NonNullEntries(fields) ==>
      exists f :: f in fields && f.value.Some? && e == FormEntry(f.key, Text(f.value.value))
    ensures forall f :: f in fields && f.value.Some? ==>
      FormEntry(f.key, Text(f.value.value)) in NonNullEntries(fields)
  {
    if |fields| > 0 {
      var init := fields[..|fields| - 1];
      NonNullEntriesExactly(init);
      forall f | f in fields && f.value.Some?
        ensures FormEntry(f.key, Text(f.value.value)) in NonNullEntries(fields)
      {
        if f != fields[|fields| - 1] {
          var i :| 0 <= i < |fields| && fields[i] == f;
          assert init[i] == f;
        }
      }
      forall e | e in NonNullEntries(fields)
        ensures exists f :: f in fields && f.value.Some? && e == FormEntry(f.key, Text(f.value.value))
      {
        if e in NonNullEntries(init) {
          var f :| f in init && f.value.Some? && e == FormEntry(f.key, Text(f.value.value));
          assert f in fields;
        } else {
          assert fields[|fields| - 1] in fields;
        }
      }
    }
  }

  /** The request to send: the path and the form. */
  datatype ProfileRequest = ProfileRequest(path: string, form: Form)

  /** `updateUserProfile` up to the request: "User not authenticated" when
      the session has no user id (absent or empty), and nothing is built;
      otherwise one entry per field with a value, in field order, then the
      file when one is given, put to `users/<id>`. */
  method UpdateUserProfile(userId: Option<string>, fields: seq<Field>, file: Option<FileRef>)
    returns (r: Result<ProfileRequest>)
    ensures r.Failure? <==> !IsPresent(userId)
    ensures r.Failure? ==> r.error == "User not authenticated"
    ensures r.Success? ==> r.value.path == "users/" + userId.value
    ensures r.Success? ==>
      r.value.form == NonNullEntries(fields) + (if file.Some? then [FormEntry("file", Blob(file.value))] else [])
  {
    if !IsPresent(userId) {
      return Failure("User not authenticated");
    }
    var formData: Form := [];
    var i := 0;
    while i < |fields|
      invariant 0 <= i <= |fields|
      invariant formData == NonNullEntries(fields[..i])
    {
      var field := fields[i];
      if field.value.Some? {
        formData := formData + [FormEntry(field.key, Text(field.value.value))];
      }
      assert fields[..i + 1][..i] == fields[..i];
      i := i + 1;
    }
    assert fields[..i] == fields;
    if file.Some? {
      formData := formData + [FormEntry("file", Blob(file.value))];
    }
    return Success(ProfileRequest("users/" + userId.value, formData));
  }

  /** The user record in the reply, with the API's `_id`. */
  datatype UserRecord = UserRecord(recordId: string, name: string, email: string, image: string,
                                   location: string, phoneNumber: string)

  /** The returned `User`: `_id` becomes `id`, the other five fields are
      copied. */
  function ToUser(data: UserRecord): (u: User)
    ensures u.id == data.recordId && u.name == data.name && u.email == data.email
    ensures u.image == data.image && u.location == data.location && u.phoneNumber == data.phoneNumber
  {
    User(data.recordId, data.name, data.email, data.phoneNumber, data.location, data.image)
  }
}
