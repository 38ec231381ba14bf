/**
 * backend/forms.py: the registration and login forms, with the WTForms
 * validators they declare.  Submitted data is a map from field name to text;
 * a missing field reads as the empty string.
 */
module Forms {

  /** The errors the validators report. */
  datatype FieldError =
    | DataRequiredError
    | LengthError(min: int, max: int)
    | EmailError
    | EqualToError(other: string)
    | UsernameTaken
    | CsrfError

  /** The validators forms.py uses; `UniqueUsername` is `validate_username`. */
  datatype Validator =
    | DataRequired
    | Length(min: int, max: int)   // -1 means "no bound", as in WTForms
    | Email
    | EqualTo(other: string)
    | UniqueUsername

  /** What one validator does: pass, raise ValidationError, or raise StopValidation. */
  datatype Verdict = Pass | Fail(error: FieldError) | Stop(error: FieldError)

  type FormData = map<string, string>

  /** The environment the validators consult. */
  datatype Env = Env(users: set<string>, isEmail: string -> bool)

  /** `field.data`. */
  function FieldData(form: FormData, name: string): string
  {
    if name in form then form[name] else ""
  }

  /** The characters Python's `str.strip()` removes. */
  predicate IsSpace(c: char)
  {
    var n := c as int;
    (0x09 <= n <= 0x0D) || (0x1C <= n <= 0x20) || n == 0x85 || n == 0xA0 || n == 0x1680 ||
    (0x2000 <= n <= 0x200A) || n == 0x2028 || n == 0x2029 || n == 0x202F || n == 0x205F || n == 0x3000
  }

  /** `not s.strip()`. */
  predicate IsBlank(s: string)
  {
    forall i :: 0 <= i < |s| ==> IsSpace(s[i])
  }

  /** One validator applied to one field. */
  function Apply(v: Validator, data: string, form: FormData, env: Env): Verdict
  {
    match v
    case DataRequired => if IsBlank(data) then Stop(DataRequiredError) else Pass
    case Length(min, max) =>
      if |data| < min || (max != -1 && |data| > max) then Fail(LengthError(min, max)) else Pass
    case Email => if env.isEmail(data) then Pass else Fail(EmailError)
    case EqualTo(other) => if data != FieldData(form, other) then Fail(EqualToError(other)) else Pass
    case UniqueUsername => if data in env.users then Fail(UsernameTaken) else Pass
  }

  /**
   * WTForms' validation chain: a ValidationError is recorded and the chain
   * goes on; StopValidation (raised by DataRequired after clearing the
   * field's errors) records its message and ends the chain.
   */
  function RunChain(vs: seq<Validator>, data: string, form: FormData, env: Env, errors: seq<FieldError>): seq<FieldError>
  {
    if vs == [] then errors
    else match Apply(vs[0], data, form, env)
      case Pass => RunChain(vs[1..], data, form, env, errors)
      case Fail(e) => RunChain(vs[1..], data, form, env, errors + [e])
      case Stop(e) => [e]
  }

  /** A form class: its fields in declaration order, each with its validators. */
  type FormClass = seq<(string, seq<Validator>)>

  /** `RegistrationForm`, with `validate_username` run after the username's validators. */
  const REGISTRATION: FormClass := [
    ("username", [DataRequired, Length(2, 20), UniqueUsername]),
    ("full_name", [Length(-1, 120)]),
    ("email", [DataRequired, Email]),
    ("phone_number", [Length(-1, 20)]),
    ("password", [DataRequired]),
    ("confirm_password", [DataRequired, EqualTo("password")])
  ]

  /** `LoginForm`. */
  const LOGIN: FormClass := [
    ("username", [DataRequired, Length(2, 20)]),
    ("password", [DataRequired])
  ]

  /**
   * `form.errors` after `validate()`: the fields with errors.  `csrfValid`
   * is Flask-WTF's check of the hidden `csrf_token` field.
   */
  function Errors(fields: FormClass, form: FormData, env: Env, csrfValid: bool): map<string, seq<FieldError>>
  {
    if fields == [] then (if csrfValid then map[] else map["csrf_token" := [CsrfError]])
    else
      var (name, vs) := fields[0];
      var errs := RunChain(vs, FieldData(form, name), form, env, []);
      var rest := Errors(fields[1..], form, env, csrfValid);
      if errs == [] then rest else rest[name := errs]
  }

  /** `form.validate_on_submit()` on a POST. */
  predicate Validates(fields: FormClass, form: FormData, env: Env, csrfValid: bool)
  {
    Errors(fields, form, env, csrfValid) == map[]
  }

  /** The registration rules, stated field by field. */
  predicate RegistrationAcceptable(form: FormData, env: Env, csrfValid: bool)
  {
    var username := FieldData(form, "username");
    var email := FieldData(form, "email");
    var password := FieldData(form, "password");
    var confirm := FieldData(form, "confirm_password");
    && csrfValid
    && !IsBlank(username) && 2 <= |username| <= 20 && username !in env.users
    && |FieldData(form, "full_name")| <= 120
    && !IsBlank(email) && env.isEmail(email)
    && |FieldData(form, "phone_number")| <= 20
    && !IsBlank(password)
    && !IsBlank(confirm) && confirm == password
  }

  /** The login rules, stated field by field. */
  predicate LoginAcceptable(form: FormData, csrfValid: bool)
  {
    var username := FieldData(form, "username");
    && csrfValid
    && !IsBlank(username) && 2 <= |username| <= 20
    && !IsBlank(FieldData(form, "password"))
  }

  /** Every validator of the field passes on its data. */
  predicate FieldPasses(field: (string, seq<Validator>), form: FormData, env: Env)
  {
    forall k :: 0 <= k < |field.1| ==> Apply(field.1[k], FieldData(form, field.0), form, env).Pass?
  }

  /** A chain reports nothing exactly when every one of its validators passes. */
  lemma {:induction false} ChainEmptyIff(vs: seq<Validator>, data: string, form: FormData, env: Env, errors: seq<FieldError>)
    ensures RunChain(vs, data, form, env, errors) == [] <==>
      errors == [] && forall k :: 0 <= k < |vs| ==> Apply(vs[k], data, form, env).Pass?
  {
    if vs != [] {
      match Apply(vs[0], data, form, env) {
        case Pass =>
          ChainEmptyIff(vs[1..], data, form, env, errors);
          if errors == [] && forall k :: 0 <= k < |vs[1..]| ==> Apply(vs[1..][k], data, form, env).Pass? {
            forall k | 0 <= k < |vs| ensures Apply(vs[k], data, form, env).Pass? {
              if k > 0 { assert vs[k] == vs[1..][k - 1]; }
            }
          }
        case Fail(e) =>
          ChainEmptyIff(vs[1..], data, form, env, errors + [e]);
        case Stop(e) =>
      }
    }
  }

  /** The form validates exactly when the CSRF token is valid and every field passes. */
  lemma {:induction false} ErrorsEmptyIff(fields: FormClass, form: FormData, env: Env, csrfValid: bool)
    ensures Errors(fields, form, env, csrfValid) == map[] <==>
      csrfValid && forall i :: 0 <= i < |fields| ==> FieldPasses(fields[i], form, env)
  {
    if fields != [] {
      ErrorsEmptyIff(fields[1..], form, env, csrfValid);
      var (name, vs) := fields[0];
      var errs := RunChain(vs, FieldData(form, name), form, env, []);
      ChainEmptyIff(vs, FieldData(form, name), form, env, []);
      assert errs == [] <==> FieldPasses(fields[0], form, env);
      if errs != [] {
        assert name in Errors(fields, form, env, csrfValid);
      }
      if errs == [] && csrfValid && forall i :: 0 <= i < |fields[1..]| ==> FieldPasses(fields[1..][i], form, env) {
        forall i | 0 <= i < |fields| ensures FieldPasses(fields[i], form, env) {
          if i > 0 { assert fields[i] == fields[1..][i - 1]; }
        }
      }
      if csrfValid && forall i :: 0 <= i < |fields| ==> FieldPasses(fields[i], form, env) {
        assert FieldPasses(fields[0], form, env);
        forall i | 0 <= i < |fields[1..]| ensures FieldPasses(fields[1..][i], form, env) {
          assert fields[1..][i] == fields[i + 1];
        }
      }
    } else if !csrfValid {
      assert "csrf_token" in Errors(fields, form, env, csrfValid);
    }
  }

  /** Registration validates exactly when every rule of the form holds. */
  lemma RegistrationValidIff(form: FormData, env: Env, csrfValid: bool)
    ensures Validates(REGISTRATION, form, env, csrfValid) <==> RegistrationAcceptable(form, env, csrfValid)
  {
    ErrorsEmptyIff(REGISTRATION, form, env, csrfValid);
    var r := REGISTRATION;
    assert r[0].1[0] == DataRequired && r[0].1[1] == Length(2, 20) && r[0].1[2] == UniqueUsername;
    assert r[2].1[0] == DataRequired && r[2].1[1] == Email;
    assert r[3].1[0] == Length(-1, 20);
    assert r[5].1[0] == DataRequired && r[5].1[1] == EqualTo("password");
    assert FieldPasses(r[0], form, env) <==>
      var u := FieldData(form, "username"); !IsBlank(u) && 2 <= |u| <= 20 && u !in env.users;
    assert FieldPasses(r[1], form, env) <==> |FieldData(form, "full_name")| <= 120;
    assert FieldPasses(r[2], form, env) <==>
      var e := FieldData(form, "email"); !IsBlank(e) && env.isEmail(e);
    assert FieldPasses(r[3], form, env) <==> |FieldData(form, "phone_number")| <= 20;
    assert FieldPasses(r[4], form, env) <==> !IsBlank(FieldData(form, "password"));
    assert FieldPasses(r[5], form, env) <==>
      var c := FieldData(form, "confirm_password"); !IsBlank(c) && c == FieldData(form, "password");
    assert (forall i :: 0 <= i < |r| ==> FieldPasses(r[i], form, env)) <==>
      FieldPasses(r[0], form, env) && FieldPasses(r[1], form, env) && FieldPasses(r[2], form, env) &&
      FieldPasses(r[3], form, env) && FieldPasses(r[4], form, env) && FieldPasses(r[5], form, env);
  }

  /** Login validates exactly when every rule of the form holds. */
  lemma LoginValidIff(form: FormData, env: Env, csrfValid: bool)
    ensures Validates(LOGIN, form, env, csrfValid) <==> LoginAcceptable(form, csrfValid)
  {
    ErrorsEmptyIff(LOGIN, form, env, csrfValid);
    var l := LOGIN;
    assert l[0].1[0] == DataRequired && l[0].1[1] == Length(2, 20);
    assert FieldPasses(l[0], form, env) <==>
      var u := FieldData(form, "username"); !IsBlank(u) && 2 <= |u| <= 20;
    assert FieldPasses(l[1], form, env) <==> !IsBlank(FieldData(form, "password"));
    assert (forall i :: 0 <= i < |l| ==> FieldPasses(l[i], form, env)) <==>
      FieldPasses(l[0], form, env) && FieldPasses(l[1], form, env);
  }

  /** A blank username is reported only as missing, whatever else is wrong with it. */
  lemma BlankUsernameStops(form: FormData, env: Env)
    requires IsBlank(FieldData(form, "username"))
    ensures RunChain(REGISTRATION[0].1, FieldData(form, "username"), form, env, []) == [DataRequiredError]
  {
  }
}
