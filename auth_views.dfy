/**
 * backend/views.py, the account endpoints `register` and `login`, over the
 * user table (usernames with their password hashes).  bcrypt's hashing and
 * checking are inputs; the session is the logged-in username.
 */
module AuthViews {
  import opened Wrappers
  import opened Forms

  /** The `user` table: username to `password_hash`. */
  type Users = map<string, string>

  datatype AuthReply =
    | Registered                                        // 'Registration successful'
    | LoggedIn                                          // 'Login successful'
    | BadCredentials                                    // 'Login Unsuccessful. ...'
    | Invalid(errors: map<string, seq<FieldError>>)     // `form.errors`
  {
    function Code(): int
    {
      match this
      case Registered => 201
      case LoggedIn => 200
      case BadCredentials => 401
      case Invalid(_) => 400
    }
  }

  /** The response, the user table afterwards and the logged-in user afterwards. */
  datatype AuthOutcome = AuthOutcome(reply: AuthReply, users: Users, session: Option<string>)

  /** `register()`. Only the username and the password hash are stored. */
  function Register(users: Users, session: Option<string>, form: FormData, isEmail: string -> bool,
                    csrfValid: bool, hash: string -> string): AuthOutcome
  {
    var env := Env(users.Keys, isEmail);
    if Validates(REGISTRATION, form, env, csrfValid) then
      var username := FieldData(form, "username");
      AuthOutcome(Registered, users[username := hash(FieldData(form, "password"))], Some(username))
    else
      AuthOutcome(Invalid(Errors(REGISTRATION, form, env, csrfValid)), users, session)
  }

  /** `login()`, with `checkPassword(hash, password)` standing for bcrypt's check. */
  function Login(users: Users, session: Option<string>, form: FormData, csrfValid: bool,
                 checkPassword: (string, string) -> bool): AuthOutcome
  {
    var env := Env(users.Keys, _ => true);
    if Validates(LOGIN, form, env, csrfValid) then
      var username := FieldData(form, "username");
      if username in users && checkPassword(users[username], FieldData(form, "password")) then
        AuthOutcome(LoggedIn, users, Some(username))
      else
        AuthOutcome(BadCredentials, users, session)
    else
      AuthOutcome(Invalid(Errors(LOGIN, form, env, csrfValid)), users, session)
  }

  /**
   * Registration succeeds exactly when the form's rules hold (so the username
   * is new); it then adds one user and logs them in, and otherwise changes
   * nothing.
   */
  lemma RegisterOutcome(users: Users, session: Option<string>, form: FormData, isEmail: string -> bool,
                        csrfValid: bool, hash: string -> string)
    ensures var o := Register(users, session, form, isEmail, csrfValid, hash);
      var username := FieldData(form, "username");
      && (o.reply == Registered <==> RegistrationAcceptable(form, Env(users.Keys, isEmail), csrfValid))
      && (o.reply == Registered ==>
            && username !in users
            && o.users == users[username := hash(FieldData(form, "password"))]
            && |o.users| == |users| + 1
            && o.session == Some(username))
      && (o.reply != Registered ==> o.reply.Invalid? && o.users == users && o.session == session)
      && (o.reply.Invalid? ==>
            o.reply.errors == Errors(REGISTRATION, form, Env(users.Keys, isEmail), csrfValid) && o.reply.errors != map[])
      && o.reply.Code() in {201, 400}
  {
    RegistrationValidIff(form, Env(users.Keys, isEmail), csrfValid);
  }

  /** A taken username is always refused. */
  lemma RegisterRefusesTakenName(users: Users, session: Option<string>, form: FormData, isEmail: string -> bool,
                                 csrfValid: bool, hash: string -> string)
    requires FieldData(form, "username") in users
    ensures Register(users, session, form, isEmail, csrfValid, hash).reply.Invalid?
    ensures Register(users, session, form, isEmail, csrfValid, hash).users == users
  {
    RegisterOutcome(users, session, form, isEmail, csrfValid, hash);
  }

  /**
   * A valid login form logs in exactly when the user exists and the password
   * checks against the stored hash; otherwise 401 and the session is kept.
   */
  lemma LoginOutcome(users: Users, session: Option<string>, form: FormData, csrfValid: bool,
                     checkPassword: (string, string) -> bool)
    ensures var o := Login(users, session, form, csrfValid, checkPassword);
      var username := FieldData(form, "username");
      var password := FieldData(form, "password");
      && o.users == users
      && (o.reply.Invalid? <==> !LoginAcceptable(form, csrfValid))
      && (o.reply.Invalid? ==>
            o.reply.errors == Errors(LOGIN, form, Env(users.Keys, _ => true), csrfValid) && o.reply.errors != map[])
      && (o.reply == LoggedIn <==>
            LoginAcceptable(form, csrfValid) && username in users && checkPassword(users[username], password))
      && (o.reply == BadCredentials <==>
            LoginAcceptable(form, csrfValid) && !(username in users && checkPassword(users[username], password)))
      && o.reply.Code() == (if o.reply.Invalid? then 400 else if o.reply == LoggedIn then 200 else 401)
      && (o.reply == LoggedIn ==> o.session == Some(username))
      && (o.reply != LoggedIn ==> o.session == session)
  {
    LoginValidIff(form, Env(users.Keys, _ => true), csrfValid);
  }

  /**
   * After a successful registration, logging in with the same username and
   * password succeeds, provided bcrypt accepts the password against its own
   * hash.
   */
  lemma RegisterThenLogin(users: Users, session: Option<string>, form: FormData, isEmail: string -> bool,
                          csrfValid: bool, hash: string -> string, checkPassword: (string, string) -> bool,
                          loginCsrfValid: bool)
    requires Register(users, session, form, isEmail, csrfValid, hash).reply == Registered
    requires checkPassword(hash(FieldData(form, "password")), FieldData(form, "password"))
    requires loginCsrfValid
    ensures var r := Register(users, session, form, isEmail, csrfValid, hash);
      var credentials := map["username" := FieldData(form, "username"), "password" := FieldData(form, "password")];
      Login(r.users, r.session, credentials, loginCsrfValid, checkPassword).reply == LoggedIn
  {
    var r := Register(users, session, form, isEmail, csrfValid, hash);
    var credentials := map["username" := FieldData(form, "username"), "password" := FieldData(form, "password")];
    RegisterOutcome(users, session, form, isEmail, csrfValid, hash);
    assert FieldData(credentials, "username") == FieldData(form, "username");
    assert FieldData(credentials, "password") == FieldData(form, "password");
    LoginOutcome(r.users, r.session, credentials, loginCsrfValid, checkPassword);
  }
}
