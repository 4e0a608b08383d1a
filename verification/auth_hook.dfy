/** The `useAuth` hook: the zod schemas for registration and login, the
    reduction of zod's issues into a field-to-message map, and the
    `register`/`login` control flow with its loading and error bookkeeping. */
module AuthHook {
  import opened Common

  /** The values `register` is called with. `age` is already a number. */
  datatype RegisterValues = RegisterValues(
    email: string, name: string, password: string, gender: string,
    age: int, role: string, phoneNumber: string, address: string)

  datatype LoginValues = LoginValues(email: string, password: string)

  /** A zod issue: the path of the failing field and its message. */
  datatype Issue = Issue(path: seq<string>, message: string)

  const EmailMessage: string := "Please enter a valid email"
  const NameMessage: string := "Name is required"
  const PasswordMessage: string := "Password must be at least 6 characters"
  const GenderMessage: string := "Please select a valid gender (M, F, or O)"
  const AgeMessage: string := "Age must be a positive number"
  const RoleMessage: string := "Please select a valid role (A or U)"
  const PhoneMessage: string := "Phone number is required"
  const AddressMessage: string := "Address is required"
  const LoginPasswordMessage: string := "Password is required"

  const ValidationFailedMessage: string := "Validation failed. Please check your inputs."
  const InvalidDataMessage: string := "Invalid data provided"
  const RegistrationFailedMessage: string := "Registration failed"
  const LoginFailedMessage: string := "Login failed"

  /** The register schema's keys, in declaration order; zod reports issues
      in this order. */
  const RegisterFields: seq<string> := ["email", "name", "password", "gender", "age", "role", "phone_number", "address"]
  const LoginFields: seq<string> := ["email", "password"]

  /** The register schema, field by field: `None` when the field passes,
      otherwise its message. `isEmail` stands for zod's `.email()` check. */
  function RegisterCheck(d: RegisterValues, isEmail: string -> bool, field: string): (r: Option<string>)
    ensures r.Some? ==> field in RegisterFields
  {
    if field == "email" then (if isEmail(d.email) then None else Some(EmailMessage))
    else if field == "name" then (if |d.name| >= 1 then None else Some(NameMessage))
    else if field == "password" then (if |d.password| >= 6 then None else Some(PasswordMessage))
    else if field == "gender" then (if d.gender in {"M", "F", "O"} then None else Some(GenderMessage))
    else if field == "age" then (if d.age > 0 then None else Some(AgeMessage))
    else if field == "role" then (if d.role in {"A", "E"} then None else Some(RoleMessage))
    else if field == "phone_number" then (if |d.phoneNumber| >= 1 then None else Some(PhoneMessage))
    else if field == "address" then (if |d.address| >= 1 then None else Some(AddressMessage))
    else None
  }

  /** Everything the register schema demands, stated directly. */
  predicate RegisterAcceptable(d: RegisterValues, isEmail: string -> bool)
  {
    && isEmail(d.email)
    && |d.name| >= 1
    && |d.password| >= 6
    && d.gender in {"M", "F", "O"}
    && d.age > 0
    && d.role in {"A", "E"}
    && |d.phoneNumber| >= 1
    && |d.address| >= 1
  }

  /** The field-by-field checks pass together exactly when the schema's
      demands hold. */
  lemma RegisterChecksAllPass(d: RegisterValues, isEmail: string -> bool)
    ensures (forall f :: f in RegisterFields ==> RegisterCheck(d, isEmail, f).None?) <==> RegisterAcceptable(d, isEmail)
  {
    if forall f :: f in RegisterFields ==> RegisterCheck(d, isEmail, f).None? {
      assert RegisterCheck(d, isEmail, RegisterFields[0]).None?;
      assert RegisterCheck(d, isEmail, RegisterFields[1]).None?;
      assert RegisterCheck(d, isEmail, RegisterFields[2]).None?;
      assert RegisterCheck(d, isEmail, RegisterFields[3]).None?;
      assert RegisterCheck(d, isEmail, RegisterFields[4]).None?;
      assert RegisterCheck(d, isEmail, RegisterFields[5]).None?;
      assert RegisterCheck(d, isEmail, RegisterFields[6]).None?;
      assert RegisterCheck(d, isEmail, RegisterFields[7]).None?;
    }
    if RegisterAcceptable(d, isEmail) {
      forall f | f in RegisterFields
        ensures RegisterCheck(d, isEmail, f).None?
      {
      }
    }
  }

  /** The login schema: a zod email and a non-empty password. */
  function LoginCheck(d: LoginValues, isEmail: string -> bool, field: string): (r: Option<string>)
    ensures r.Some? ==> field in LoginFields
    ensures field == "email" ==> (r.None? <==> isEmail(d.email))
    ensures field == "password" ==> (r.None? <==> |d.password| >= 1)
  {
    if field == "email" then (if isEmail(d.email) then None else Some(EmailMessage))
    else if field == "password" then (if |d.password| >= 1 then None else Some(LoginPasswordMessage))
    else None
  }

  /** The issues zod reports for the given fields, in order. */
  function IssuesFor(check: string -> Option<string>, fields: seq<string>): (r: seq<Issue>)
    ensures |r| <= |fields|
    ensures forall i :: 0 <= i < |r| ==> |r[i].path| == 1 && r[i].path[0] in fields
    decreases |fields|
  {
    if fields == [] then []
    else
      var last := fields[|fields| - 1];
      var earlier := IssuesFor(check, fields[..|fields| - 1]);
      match check(last)
      case None => earlier
      case Some(m) => earlier + [Issue([last], m)]
  }

  /** No two issues name the same error-map key. */
  predicate DistinctKeys(issues: seq<Issue>)
  {
    forall i, j :: 0 <= i < j < |issues| ==> ErrorKey(issues[i].path) != ErrorKey(issues[j].path)
  }

  /** For a schema whose keys are distinct, zod reports at most one issue per
      field: no two issues name the same field. */
  lemma {:induction false} IssuesForOnePerField(check: string -> Option<string>, fields: seq<string>)
    requires forall i, j :: 0 <= i < j < |fields| ==> fields[i] != fields[j]
    ensures DistinctKeys(IssuesFor(check, fields))
    decreases |fields|
  {
    if fields != [] {
      var n := |fields| - 1;
      var front := fields[..n];
      forall i, j | 0 <= i < j < |front|
        ensures front[i] != front[j]
      {
        assert front[i] == fields[i] && front[j] == fields[j];
      }
      IssuesForOnePerField(check, front);
      var earlier := IssuesFor(check, front);
      match check(fields[n])
      case None =>
        assert IssuesFor(check, fields) == earlier;
      case Some(m) =>
        var r := earlier + [Issue([fields[n]], m)];
        assert IssuesFor(check, fields) == r;
        forall i, j | 0 <= i < j < |r|
          ensures ErrorKey(r[i].path) != ErrorKey(r[j].path)
        {
          assert r[i] == earlier[i];
          if j < |earlier| {
            assert r[j] == earlier[j];
          } else {
            var k :| 0 <= k < |front| && front[k] == earlier[i].path[0];
            assert fields[k] == front[k];
          }
        }
    }
  }

  /** Both schemas have distinct keys, so each reports at most one issue
      per field. */
  lemma SchemaIssuesOnePerField(check: string -> Option<string>)
    ensures DistinctKeys(IssuesFor(check, RegisterFields))
    ensures DistinctKeys(IssuesFor(check, LoginFields))
  {
    IssuesForOnePerField(check, RegisterFields);
    IssuesForOnePerField(check, LoginFields);
  }

  /** The error-map key of an issue: its first path element, or the text
      "undefined" for an empty path, as a JavaScript property key. */
  function ErrorKey(path: seq<string>): string
  {
    if path == [] then "undefined" else path[0]
  }

  /** The `reduce` over zod's issues: each issue writes its message under
      its key, so a later message for the same key overwrites an earlier one. */
  function CollectErrors(issues: seq<Issue>): map<string, string>
    decreases |issues|
  {
    if issues == [] then map[]
    else
      var last := issues[|issues| - 1];
      CollectErrors(issues[..|issues| - 1])[ErrorKey(last.path) := last.message]
  }

  /** The error map has exactly one key per issue key. */
  lemma {:induction false} CollectErrorsKeys(issues: seq<Issue>)
    ensures CollectErrors(issues).Keys == set i | 0 <= i < |issues| :: ErrorKey(issues[i].path)
    decreases |issues|
  {
    if issues != [] {
      var n := |issues| - 1;
      var front := issues[..n];
      CollectErrorsKeys(front);
      var keysFront := set i | 0 <= i < |front| :: ErrorKey(front[i].path);
      var keysAll := set i | 0 <= i < |issues| :: ErrorKey(issues[i].path);
      assert keysAll == keysFront + {ErrorKey(issues[n].path)} by {
        forall k | k in keysAll
          ensures k in keysFront + {ErrorKey(issues[n].path)}
        {
          var i :| 0 <= i < |issues| && k == ErrorKey(issues[i].path);
          if i < n {
            assert front[i] == issues[i];
          }
        }
        forall k | k in keysFront
          ensures k in keysAll
        {
          var i :| 0 <= i < |front| && k == ErrorKey(front[i].path);
          assert front[i] == issues[i];
        }
      }
    }
  }

  /** The message kept for a key is that of the last issue with that key. */
  lemma {:induction false} CollectErrorsLastWins(issues: seq<Issue>, j: nat)
    requires j < |issues|
    requires forall k :: j < k < |issues| ==> ErrorKey(issues[k].path) != ErrorKey(issues[j].path)
    ensures ErrorKey(issues[j].path) in CollectErrors(issues)
    ensures CollectErrors(issues)[ErrorKey(issues[j].path)] == issues[j].message
    decreases |issues|
  {
    var n := |issues| - 1;
    if j < n {
      var front := issues[..n];
      assert front[j] == issues[j];
      forall k | j < k < |front|
        ensures ErrorKey(front[k].path) != ErrorKey(front[j].path)
      {
        assert front[k] == issues[k];
      }
      CollectErrorsLastWins(front, j);
    }
  }

  /** The failing fields, each with its message. */
  function FieldErrors(check: string -> Option<string>, fields: seq<string>): map<string, string>
  {
    map f | f in fields && check(f).Some? :: check(f).value
  }

  /** Reducing the issues of a schema gives one entry per failing field,
      carrying that field's message. */
  lemma {:induction false} CollectErrorsOfFields(check: string -> Option<string>, fields: seq<string>)
    ensures CollectErrors(IssuesFor(check, fields)) == FieldErrors(check, fields)
    decreases |fields|
  {
    if fields != [] {
      var n := |fields| - 1;
      var last := fields[n];
      var front := fields[..n];
      CollectErrorsOfFields(check, front);
      assert fields == front + [last];
      var earlier := IssuesFor(check, front);
      match check(last)
      case None =>
        assert FieldErrors(check, fields) == FieldErrors(check, front);
      case Some(m) =>
        var all := earlier + [Issue([last], m)];
        assert all[..|all| - 1] == earlier;
        assert CollectErrors(all) == FieldErrors(check, front)[last := m];
        assert FieldErrors(check, fields) == FieldErrors(check, front)[last := m];
    }
  }

  /** No issue at all exactly when every field passes. */
  lemma {:induction false} IssuesForEmpty(check: string -> Option<string>, fields: seq<string>)
    ensures IssuesFor(check, fields) == [] <==> forall f :: f in fields ==> check(f).None?
    decreases |fields|
  {
    if fields != [] {
      var n := |fields| - 1;
      IssuesForEmpty(check, fields[..n]);
      assert fields == fields[..n] + [fields[n]];
      forall f | f in fields
        ensures f in fields[..n] || f == fields[n]
      {
      }
    }
  }

  /** What `schema.parse` did: accepted, threw a `ZodError` with issues, or
      threw something else. */
  datatype ParseOutcome = Parsed | ZodFailed(issues: seq<Issue>) | OtherError

  datatype Validation = Validation(valid: bool, errors: Option<map<string, string>>)

  /** `validateRegisterData`/`validateLoginData` around a parse. */
  function ValidateFrom(p: ParseOutcome): (v: Validation)
    ensures v.valid <==> p.Parsed?
    ensures p.ZodFailed? ==> v.errors == Some(CollectErrors(p.issues))
    ensures p.OtherError? ==> v.errors == Some(map["form" := InvalidDataMessage])
  {
    match p
    case Parsed => Validation(true, None)
    case ZodFailed(issues) => Validation(false, Some(CollectErrors(issues)))
    case OtherError => Validation(false, Some(map["form" := InvalidDataMessage]))
  }

  function ParseWith(check: string -> Option<string>, fields: seq<string>): ParseOutcome
  {
    var issues := IssuesFor(check, fields);
    if issues == [] then Parsed else ZodFailed(issues)
  }

  /** `validateRegisterData`: valid exactly when the schema accepts the
      values; otherwise one entry per failing field with its message. */
  function ValidateRegister(d: RegisterValues, isEmail: string -> bool): (v: Validation)
    ensures v.valid <==> RegisterAcceptable(d, isEmail)
    ensures !v.valid ==> v.errors == Some(FieldErrors(f => RegisterCheck(d, isEmail, f), RegisterFields))
  {
    var check := f => RegisterCheck(d, isEmail, f);
    IssuesForEmpty(check, RegisterFields);
    CollectErrorsOfFields(check, RegisterFields);
    RegisterChecksAllPass(d, isEmail);
    ValidateFrom(ParseWith(check, RegisterFields))
  }

  /** `validateLoginData`: valid exactly when zod accepts the email and the
      password is not empty. */
  function ValidateLogin(d: LoginValues, isEmail: string -> bool): (v: Validation)
    ensures v.valid <==> isEmail(d.email) && |d.password| >= 1
    ensures !v.valid ==> v.errors == Some(FieldErrors(f => LoginCheck(d, isEmail, f), LoginFields))
  {
    var check := f => LoginCheck(d, isEmail, f);
    IssuesForEmpty(check, LoginFields);
    CollectErrorsOfFields(check, LoginFields);
    LoginChecksAllPass(d, isEmail);
    ValidateFrom(ParseWith(check, LoginFields))
  }

  /** The two login checks pass together exactly when the login schema's
      demands hold. */
  lemma LoginChecksAllPass(d: LoginValues, isEmail: string -> bool)
    ensures (forall f :: f in LoginFields ==> LoginCheck(d, isEmail, f).None?) <==> isEmail(d.email) && |d.password| >= 1
  {
    assert LoginFields == ["email", "password"];
    if forall f :: f in LoginFields ==> LoginCheck(d, isEmail, f).None? {
      assert LoginCheck(d, isEmail, LoginFields[0]).None?;
      assert LoginCheck(d, isEmail, LoginFields[1]).None?;
    }
    if isEmail(d.email) && |d.password| >= 1 {
      forall f | f in LoginFields
        ensures LoginCheck(d, isEmail, f).None?
      {
        assert f == "email" || f == "password";
      }
    }
  }

  /** How the awaited authApi call ended: resolved, or rejected with the
      server's `response.data.message` when there is one. */
  datatype ApiCall = Resolves | RejectsWith(serverMessage: Option<string>)

  datatype SubmitResult = SubmitResult(success: bool, errors: Option<map<string, string>>)

  /** The hook's state after a call, what the call returned, the navigations
      it issued and whether the API was called at all. */
  datatype HookRun = HookRun(loading: bool, error: Option<string>, result: SubmitResult, navigation: seq<Route>, apiCalled: bool)

  /** The shared shape of `register` and `login`: validate, call the API,
      navigate on success, and report the server message or a fallback. */
  function Submit(v: Validation, api: ApiCall, onSuccess: Route, fallback: string): (r: HookRun)
    ensures !r.loading
    ensures r.apiCalled <==> v.valid
    ensures r.result.success <==> r.navigation == [onSuccess]
    ensures !r.result.success ==> r.navigation == []
  {
    if !v.valid then
      HookRun(false, Some(ValidationFailedMessage), SubmitResult(false, v.errors), [], false)
    else
      match api
      case Resolves => HookRun(false, None, SubmitResult(true, None), [onSuccess], true)
      case RejectsWith(m) =>
        var message := OrElse(UndefinedToEmpty(m), fallback);
        HookRun(false, Some(message), SubmitResult(false, Some(map["form" := message])), [], true)
  }

  /** `register`: invalid input returns the field errors and sets the
      generic validation message without calling the API; a resolved call
      navigates to `/panel`; a rejected call reports the server message, or
      "Registration failed" when there is none. `loading` ends false. */
  function Register(d: RegisterValues, isEmail: string -> bool, api: ApiCall): (r: HookRun)
    ensures !r.loading
    ensures r.apiCalled <==> RegisterAcceptable(d, isEmail)
    ensures !RegisterAcceptable(d, isEmail) ==>
              && r.result == SubmitResult(false, Some(FieldErrors(f => RegisterCheck(d, isEmail, f), RegisterFields)))
              && r.error == Some(ValidationFailedMessage)
              && r.navigation == []
    ensures r.result.success <==> RegisterAcceptable(d, isEmail) && api.Resolves?
    ensures r.result.success ==> r.navigation == [Panel] && r.error.None?
    ensures RegisterAcceptable(d, isEmail) && api.RejectsWith? ==>
              var message := if api.serverMessage.Some? && api.serverMessage.value != "" then api.serverMessage.value else RegistrationFailedMessage;
              r.result == SubmitResult(false, Some(map["form" := message])) && r.error == Some(message)
  {
    Submit(ValidateRegister(d, isEmail), api, Panel, RegistrationFailedMessage)
  }

  /** `login`: the same shape; success navigates to `/dashboard/panel` and
      the fallback message is "Login failed". */
  function Login(d: LoginValues, isEmail: string -> bool, api: ApiCall): (r: HookRun)
    ensures !r.loading
    ensures r.apiCalled <==> isEmail(d.email) && |d.password| >= 1
    ensures !r.apiCalled ==>
              && r.result == SubmitResult(false, Some(FieldErrors(f => LoginCheck(d, isEmail, f), LoginFields)))
              && r.error == Some(ValidationFailedMessage)
    ensures r.result.success <==> r.apiCalled && api.Resolves?
    ensures r.result.success ==> r.navigation == [DashboardPanel]
    ensures r.apiCalled && api.RejectsWith? ==>
              var message := if api.serverMessage.Some? && api.serverMessage.value != "" then api.serverMessage.value else LoginFailedMessage;
              r.result == SubmitResult(false, Some(map["form" := message])) && r.error == Some(message)
  {
    Submit(ValidateLogin(d, isEmail), api, DashboardPanel, LoginFailedMessage)
  }

  /** A role outside {A, E} is reported under "role" with the schema's
      message, and the API is never called. */
  lemma RoleOutsideEnumRejected(d: RegisterValues, isEmail: string -> bool, api: ApiCall)
    requires d.role !in {"A", "E"}
    ensures var r := Register(d, isEmail, api);
            && !r.apiCalled
            && r.result.errors.Some?
            && "role" in r.result.errors.value
            && r.result.errors.value["role"] == RoleMessage
  {
    assert "role" in RegisterFields;
  }
}
