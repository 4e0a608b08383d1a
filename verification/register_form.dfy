/** The registration screen: its default values, the per-field rules the
    form enforces before submitting (including the `/^\S+@\S+$/i` email
    pattern), the digit filter on the age input, and `onSubmit`, which hands
    the values to the `useAuth` hook and keeps the errors it reports. */
module RegisterForm {
  import opened Common
  import opened Numbers
  import AuthHook

  /** JavaScript's `\s`: the ASCII blanks and the Unicode space separators,
      line and paragraph separators and the byte-order mark. */
  predicate IsWhitespace(c: char)
  {
    || c == ' ' || c == '\t' || c == '\n' || c == '\U{000B}' || c == '\U{000C}' || c == '\r'
    || c == '\U{00A0}' || c == '\U{1680}' || ('\U{2000}' <= c <= '\U{200A}')
    || c == '\U{2028}' || c == '\U{2029}' || c == '\U{202F}' || c == '\U{205F}'
    || c == '\U{3000}' || c == '\U{FEFF}'
  }

  predicate NoWhitespace(s: string)
  {
    forall i :: 0 <= i < |s| ==> !IsWhitespace(s[i])
  }

  /** What the email pattern `^\S+@\S+$` matches, read as a regular
      expression: a non-empty run of non-blanks, an '@', and another
      non-empty run of non-blanks, covering the whole string. */
  predicate EmailRegexMatches(s: string)
  {
    exists i :: 1 <= i < |s| - 1 && s[i] == '@' && NoWhitespace(s[..i]) && NoWhitespace(s[i + 1..])
  }

  /** The same rule in plain terms: no whitespace anywhere, and an '@' that
      is neither the first nor the last character. */
  predicate EmailRule(s: string)
  {
    NoWhitespace(s) && exists i :: 0 < i < |s| - 1 && s[i] == '@'
  }

  /** The regular expression accepts exactly the strings the plain rule
      describes, since '@' is itself not whitespace. */
  lemma EmailRegexIsRule(s: string)
    ensures EmailRegexMatches(s) <==> EmailRule(s)
  {
    if EmailRegexMatches(s) {
      var i :| 1 <= i < |s| - 1 && s[i] == '@' && NoWhitespace(s[..i]) && NoWhitespace(s[i + 1..]);
      forall j | 0 <= j < |s|
        ensures !IsWhitespace(s[j])
      {
        if j < i {
          assert s[j] == s[..i][j];
        } else if j > i {
          assert s[j] == s[i + 1..][j - i - 1];
        }
      }
    }
    if EmailRule(s) {
      var i :| 0 < i < |s| - 1 && s[i] == '@';
      assert NoWhitespace(s[..i]);
      assert NoWhitespace(s[i + 1..]);
    }
  }

  /** One left-to-right scan deciding the email rule. */
  method MatchesEmailRule(s: string) returns (ok: bool)
    ensures ok <==> EmailRule(s)
  {
    var blank := false;
    var innerAt := false;
    var i := 0;
    while i < |s|
      invariant 0 <= i <= |s|
      invariant blank <==> exists j :: 0 <= j < i && IsWhitespace(s[j])
      invariant innerAt <==> exists j :: 0 < j < i && j < |s| - 1 && s[j] == '@'
    {
      if IsWhitespace(s[i]) {
        blank := true;
      }
      if 0 < i < |s| - 1 && s[i] == '@' {
        innerAt := true;
      }
      i := i + 1;
    }
    ok := !blank && innerAt;
  }

  /** The age input's `text.replace(/[^0-9]/g, '')`. */
  function KeepDigits(s: string): (r: string)
    ensures AllDigits(r)
    ensures |r| <= |s|
  {
    if s == [] then []
    else (if IsDigit(s[0]) then [s[0]] else []) + KeepDigits(s[1..])
  }

  /** Digit-only text passes through unchanged. */
  lemma {:induction false} KeepDigitsOfDigits(s: string)
    requires AllDigits(s)
    ensures KeepDigits(s) == s
  {
    if s != [] {
      assert AllDigits(s[1..]) by {
        forall i | 0 <= i < |s[1..]|
          ensures IsDigit(s[1..][i])
        {
          assert s[1..][i] == s[i + 1];
        }
      }
      KeepDigitsOfDigits(s[1..]);
      assert s == [s[0]] + s[1..];
    }
  }

  /** Filtering twice is filtering once. */
  lemma KeepDigitsIdempotent(s: string)
    ensures KeepDigits(KeepDigits(s)) == KeepDigits(s)
  {
    KeepDigitsOfDigits(KeepDigits(s));
  }

  /** The filter works piece by piece, so the digits keep their order. */
  lemma {:induction false} KeepDigitsAppend(a: string, b: string)
    ensures KeepDigits(a + b) == KeepDigits(a) + KeepDigits(b)
    decreases |a|
  {
    if a != [] {
      assert (a + b)[0] == a[0];
      assert (a + b)[1..] == a[1..] + b;
      KeepDigitsAppend(a[1..], b);
    } else {
      assert a + b == b;
    }
  }

  /** Every digit is kept as often as it occurs and nothing else is. */
  lemma {:induction false} KeepDigitsCounts(s: string, c: char)
    ensures multiset(KeepDigits(s))[c] == (if IsDigit(c) then multiset(s)[c] else 0)
    decreases |s|
  {
    if s != [] {
      KeepDigitsCounts(s[1..], c);
      assert s == [s[0]] + s[1..];
      assert multiset(s) == multiset{s[0]} + multiset(s[1..]);
    }
  }

  /** The form's fields. `age` holds the text of the age input, which only
      ever receives filtered text or the default. */
  datatype Form = Form(
    email: string, name: string, password: string, gender: string,
    age: string, role: string, phoneNumber: string, address: string)

  /** `defaultValues`: gender 'M', age 18, role 'U', everything else empty. */
  const Defaults: Form := Form("", "", "", "M", "18", "U", "", "")

  /** Typing into the age input stores only its digits. */
  function EditAge(f: Form, typed: string): (r: Form)
    ensures AllDigits(r.age)
    ensures r == f.(age := r.age)
  {
    f.(age := KeepDigits(typed))
  }

  /** The rules `handleSubmit` enforces before `onSubmit` runs: required
      name, email, password, age, phone number and address; the email
      pattern; a password of at least 6 characters; an age of at least 1. */
  predicate RulesPass(f: Form)
    requires AllDigits(f.age)
  {
    && f.name != ""
    && f.email != "" && EmailRule(f.email)
    && f.password != "" && |f.password| >= 6
    && f.age != "" && DecimalValue(f.age) >= 1
    && f.phoneNumber != ""
    && f.address != ""
  }

  /** `{ ...data, age: Number(data.age) }`. */
  function ToValues(f: Form): (v: AuthHook.RegisterValues)
    requires AllDigits(f.age)
  {
    AuthHook.RegisterValues(f.email, f.name, f.password, f.gender, DecimalValue(f.age), f.role, f.phoneNumber, f.address)
  }

  /** Typing a number's decimal text into the age input hands that number
      to the hook, and every other field reaches it as it was. */
  lemma AgeRoundTrip(f: Form, n: nat)
    ensures var edited := EditAge(f, NatToString(n));
            var v := ToValues(edited);
            && v.age == n
            && v.email == f.email && v.name == f.name && v.password == f.password
            && v.gender == f.gender && v.role == f.role
            && v.phoneNumber == f.phoneNumber && v.address == f.address
  {
    KeepDigitsOfDigits(NatToString(n));
    DecimalValueOfToString(n);
  }

  /** A submit press: the hook run, when the rules let `onSubmit` run, and
      the server errors the screen shows afterwards. */
  datatype Submission = Submission(run: Option<AuthHook.HookRun>, serverErrors: Option<map<string, string>>)

  /** `handleSubmit(onSubmit)`: nothing happens unless the rules pass; then
      the converted values go to the hook's `register`, and its errors are
      kept when it reports failure with errors. */
  function Submit(f: Form, serverErrors: Option<map<string, string>>, isEmail: string -> bool, api: AuthHook.ApiCall): (r: Submission)
    requires AllDigits(f.age)
    ensures r.run.Some? <==> RulesPass(f)
    ensures r.run.None? ==> r.serverErrors == serverErrors
    ensures r.run.Some? ==> r.run.value == AuthHook.Register(ToValues(f), isEmail, api)
    ensures r.run.Some? && !r.run.value.result.success ==> r.serverErrors == r.run.value.result.errors
    ensures r.run.Some? && r.run.value.result.success ==> r.serverErrors == serverErrors
  {
    if !RulesPass(f) then Submission(None, serverErrors)
    else
      var run := AuthHook.Register(ToValues(f), isEmail, api);
      if !run.result.success && run.result.errors.Some? then Submission(Some(run), run.result.errors)
      else Submission(Some(run), serverErrors)
  }

  /** Values that pass the form's rules meet every demand of the hook's
      schema except, possibly, zod's email check, the gender and the role. */
  lemma RulesCoverHookLengths(f: Form)
    requires AllDigits(f.age)
    requires RulesPass(f)
    ensures var v := ToValues(f);
            |v.name| >= 1 && |v.password| >= 6 && v.age > 0 && |v.phoneNumber| >= 1 && |v.address| >= 1
  {
  }

  /** The default role 'U' (the "User" choice) is outside the hook's role
      enum {A, E}: such a form never reaches the API, and the screen shows
      the role message. */
  lemma UserRoleNeverRegisters(f: Form, serverErrors: Option<map<string, string>>, isEmail: string -> bool, api: AuthHook.ApiCall)
    requires AllDigits(f.age)
    requires RulesPass(f)
    requires f.role == "U"
    ensures var r := Submit(f, serverErrors, isEmail, api);
            && r.run.Some? && !r.run.value.apiCalled
            && r.serverErrors.Some?
            && "role" in r.serverErrors.value
            && r.serverErrors.value["role"] == AuthHook.RoleMessage
  {
    AuthHook.RoleOutsideEnumRejected(ToValues(f), isEmail, api);
  }

  /** The default form is not submittable: the name is required. Once
      filled in, it keeps the default role, which the hook rejects. */
  lemma DefaultsRejected()
    ensures AllDigits(Defaults.age) && DecimalValue(Defaults.age) == 18
    ensures !RulesPass(Defaults)
    ensures Defaults.role !in {"A", "E"}
  {
    assert DecimalValue("1") == 1;
    assert "18"[..1] == "1";
  }
}
