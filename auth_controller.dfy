/**
 * The `/api/auth` handlers: session login and logout, the `/me` report, and the
 * caller's own profile update, which collects every field error before answering.
 */
module AuthController {
  import opened Wrappers
  import opened Strings
  import opened Users

  /** The JSON bodies the handlers answer with. */
  datatype Body =
    | Error(error: string)                    // {"error": …}
    | Failure(error: string)                  // {"success": false, "error": …}
    | LoggedIn(user: PublicUser)              // {"success": true, "user": …}
    | LoggedOut                               // {"success": true}
    | Me(authenticated: bool, current: Option<PublicUser>)
    | Invalid(errors: map<string, string>)    // {"success": false, "errors": …}
    | Updated(message: string, user: PublicUser)

  datatype Response = Response(status: int, body: Body)

  /** A response and the session as the handler leaves it. */
  datatype SessionOutcome = SessionOutcome(response: Response, session: Session)

  const NotAuthenticated := Response(401, Error("Not authenticated"))
  const InvalidCredentials := Response(400, Failure("Invalid email or password"))
  const UserNotFound := Response(400, Failure("User not found"))

  // ---------------------------------------------------------------- email format

  predicate IsLetter(c: char) {
    'a' <= c <= 'z' || 'A' <= c <= 'Z'
  }

  predicate IsDigit(c: char) {
    '0' <= c <= '9'
  }

  /** The class `[a-zA-Z0-9._%+-]`. */
  predicate IsLocalChar(c: char) {
    IsLetter(c) || IsDigit(c) || c == '.' || c == '_' || c == '%' || c == '+' || c == '-'
  }

  /** The class `[a-zA-Z0-9.-]`. */
  predicate IsDomainChar(c: char) {
    IsLetter(c) || IsDigit(c) || c == '.' || c == '-'
  }

  predicate AllLocal(s: string) {
    forall i :: 0 <= i < |s| ==> IsLocalChar(s[i])
  }

  predicate AllDomain(s: string) {
    forall i :: 0 <= i < |s| ==> IsDomainChar(s[i])
  }

  predicate AllLetters(s: string) {
    forall i :: 0 <= i < |s| ==> IsLetter(s[i])
  }

  /**
   * `s` splits as local part, `@` at `at`, domain, `.` at `dot`, top-level part:
   * one way for `^[a-zA-Z0-9._%+-]+@[a-zA-Z0-9.-]+\.[a-zA-Z]{2,}$` to match all of `s`.
   */
  predicate EmailSplit(s: string, at: int, dot: int) {
    && 0 < at && at + 1 < dot && dot + 3 <= |s|
    && s[at] == '@' && s[dot] == '.'
    && AllLocal(s[..at]) && AllDomain(s[at + 1..dot]) && AllLetters(s[dot + 1..])
  }

  /** The regular expression of `isValidEmail` matches the whole of `s`. */
  ghost predicate MatchesEmailPattern(s: string) {
    exists at, dot :: EmailSplit(s, at, dot)
  }

  /**
   * `isValidEmail`: not blank, and the pattern matches. The pattern is decided by
   * splitting at the first `@` and at the last `.` after it.
   */
  predicate IsValidEmail(email: string)
    ensures IsValidEmail(email) ==> !IsBlank(email) && |email| >= 6 && '@' in email
  {
    if IsBlank(email) then false
    else match IndexOf(email, '@')
      case None => false
      case Some(at) =>
        var domain := email[at + 1..];
        match LastIndexOf(domain, '.')
        case None => false
        case Some(dot) => EmailSplit(email, at, at + 1 + dot)
  }

  /** The split-based decision agrees with the regular expression on every string. */
  lemma IsValidEmailIffPattern(s: string)
    ensures IsValidEmail(s) <==> MatchesEmailPattern(s)
  {
    if MatchesEmailPattern(s) {
      var at, dot :| EmailSplit(s, at, dot);
      PatternIsValid(s, at, dot);
    }
  }

  /** A split the pattern admits is the very split the decision finds. */
  lemma PatternIsValid(s: string, at: int, dot: int)
    requires EmailSplit(s, at, dot)
    ensures IsValidEmail(s)
  {
    NotBlank(s);
    OnlyAtSign(s, at);
    var domain := s[at + 1..];
    LastDot(domain, dot - at - 1);
    assert IsValidEmail(s) == EmailSplit(s, at, at + 1 + (dot - at - 1));
  }

  /** No character of the local part is `@`, so the first `@` is the one the split uses. */
  lemma OnlyAtSign(s: string, at: int)
    requires 0 <= at < |s| && s[at] == '@' && AllLocal(s[..at])
    ensures IndexOf(s, '@') == Some(at)
  {
    forall i | 0 <= i < at ensures s[i] != '@' {
      assert IsLocalChar(s[..at][i]);
    }
  }

  /** No letter is `.`, so the last `.` of the domain is the one before the top-level part. */
  lemma LastDot(domain: string, dot: int)
    requires 0 <= dot < |domain| && domain[dot] == '.' && AllLetters(domain[dot + 1..])
    ensures LastIndexOf(domain, '.') == Some(dot)
  {
    forall i | dot < i < |domain| ensures domain[i] != '.' {
      assert IsLetter(domain[dot + 1..][i - dot - 1]);
    }
  }

  // ---------------------------------------------------------------- login, logout, me

  /**
   * POST /login: the exact-email lookup must find a record whose hash the given password
   * matches; a missing password counts as not matching.
   */
  function Login(d: Directory, enc: PasswordEncoder, s: Session, email: Option<string>, password: Option<string>): (out: SessionOutcome)
    requires WellFormed(d)
    ensures out.response.status != 200 ==> out == SessionOutcome(InvalidCredentials, s)
    ensures out.response.status == 200 ==>
      exists id :: id in d.records && LoggedInAs(out, d.records[id], email, password, enc)
    ensures UniqueEmails(d) ==>
      (out.response.status == 200 <==>
        exists id :: id in d.records && email == Some(d.records[id].email) && CanLogIn(d.records[id], password, enc))
  {
    var found := if email.Some? then FindByEmail(d, email.value) else None;
    if found.Some? && CanLogIn(found.value, password, enc) then
      SessionOutcome(Response(200, LoggedIn(Public(found.value))), Session(found, true))
    else
      SessionOutcome(InvalidCredentials, s)
  }

  /** The password is given and matches the record's hash. */
  predicate CanLogIn(u: UserRecord, password: Option<string>, enc: PasswordEncoder) {
    password.Some? && enc.matches(password.value, u.password)
  }

  /** The outcome of a login that succeeded as `u`. */
  predicate LoggedInAs(out: SessionOutcome, u: UserRecord, email: Option<string>, password: Option<string>, enc: PasswordEncoder) {
    && email == Some(u.email) && CanLogIn(u, password, enc)
    && out.session == Session(Some(u), true)
    && out.response == Response(200, LoggedIn(Public(u)))
  }

  /** GET /me: reports the session as authenticated iff it holds a user and the flag is TRUE. */
  function GetCurrentUser(s: Session): (r: Response)
    ensures r.status == 200 && r.body.Me?
    ensures r.body.authenticated <==> IsAuthenticated(s)
    ensures r.body.current == if IsAuthenticated(s) then Some(Public(s.user.value)) else None
  {
    if s.user.Some? && s.authenticated then Response(200, Me(true, Some(Public(s.user.value))))
    else Response(200, Me(false, None))
  }

  /** POST /logout: the session is invalidated, after which `/me` reports no one. */
  function Logout(s: Session): (out: SessionOutcome)
    ensures out.response == Response(200, LoggedOut)
    ensures !IsAuthenticated(out.session)
    ensures GetCurrentUser(out.session) == Response(200, Me(false, None))
  {
    SessionOutcome(Response(200, LoggedOut), EmptySession)
  }

  /** After a successful login, `/me` reports that user. */
  lemma LoginThenMe(d: Directory, enc: PasswordEncoder, s: Session, email: Option<string>, password: Option<string>)
    requires WellFormed(d)
    requires Login(d, enc, s, email, password).response.status == 200
    ensures var out := Login(d, enc, s, email, password);
      GetCurrentUser(out.session) == Response(200, Me(true, Some(out.response.body.user)))
  {
  }

  // ---------------------------------------------------------------- profile update

  /** The body of PUT /update. */
  datatype ProfileRequest = ProfileRequest(name: Option<string>, email: Option<string>, password: Option<string>)

  const NameMissing := "Name is required and cannot be empty"
  const EmailMissing := "Email is required and cannot be empty"
  const EmailMalformed := "Please provide a valid email address"
  const EmailTaken := "Email already exists. Please choose a different email."
  const PasswordMissing := "Password is required and cannot be empty"
  const PasswordShort := "Password must be at least 6 characters long"

  /** The request's email is given and well-formed once trimmed, so the store is consulted. */
  predicate EmailUsable(req: ProfileRequest) {
    Present(req.email) && IsValidEmail(Trim(req.email.value))
  }

  /** The trimmed, lower-cased email belongs to a record other than the caller's. */
  predicate ProfileEmailTaken(d: Directory, actor: UserRecord, req: ProfileRequest)
    requires WellFormed(d) && EmailUsable(req)
  {
    EmailTakenByOther(d, NormalEmail(req.email.value), actor.id)
  }

  /** The name's error: missing or blank. */
  function NameError(req: ProfileRequest): Option<string> {
    if !Present(req.name) then Some(NameMissing) else None
  }

  /** The email's error: missing or blank, malformed once trimmed, or held by another record. */
  function EmailError(d: Directory, actor: UserRecord, req: ProfileRequest): Option<string>
    requires WellFormed(d)
  {
    if EmailFormatError(req).Some? then EmailFormatError(req)
    else if ProfileEmailTaken(d, actor, req) then Some(EmailTaken)
    else None
  }

  /** The password's error: missing or blank, or shorter than six characters once trimmed. */
  function PasswordError(req: ProfileRequest): Option<string> {
    if !Present(req.password) then Some(PasswordMissing)
    else if Utf16Length(Trim(req.password.value)) < 6 then Some(PasswordShort)
    else None
  }

  /** Three emoji pass the length check: Java counts them as six characters. */
  lemma EmojiPasswordLongEnough(name: Option<string>, email: Option<string>)
    ensures PasswordError(ProfileRequest(name, email, Some("\U{1F600}\U{1F600}\U{1F600}"))).None?
  {
    var p := "\U{1F600}\U{1F600}\U{1F600}";
    TrimNoop(p);
    NotBlank(p);
    Utf16LengthExample();
  }

  /** `m` with `k` mapped to the error, when there is one. */
  function WithError(m: map<string, string>, k: string, e: Option<string>): map<string, string> {
    if e.Some? then m[k := e.value] else m
  }

  /** Recording an error adds its key with its message, and leaves every other key as it was. */
  lemma WithErrorKeys(m: map<string, string>, k: string, e: Option<string>)
    ensures WithError(m, k, e).Keys == if e.Some? then m.Keys + {k} else m.Keys
    ensures k in WithError(m, k, e) ==> WithError(m, k, e)[k] == if e.Some? then e.value else m[k]
    ensures forall j :: j in m && j != k ==> WithError(m, k, e)[j] == m[j]
  {
  }

  /** The error map of a profile update: one message per bad field, under the field's name. */
  function ProfileErrors(d: Directory, actor: UserRecord, req: ProfileRequest): (errors: map<string, string>)
    requires WellFormed(d)
    ensures errors.Keys <= {"name", "email", "password"}
    ensures "name" in errors <==> NameError(req).Some?
    ensures "email" in errors <==> EmailError(d, actor, req).Some?
    ensures "password" in errors <==> PasswordError(req).Some?
    ensures "name" in errors ==> errors["name"] == NameError(req).value
    ensures "email" in errors ==> errors["email"] == EmailError(d, actor, req).value
    ensures "password" in errors ==> errors["password"] == PasswordError(req).value
    ensures errors == map[] <==> NameError(req).None? && EmailError(d, actor, req).None? && PasswordError(req).None?
  {
    var named := WithError(map[], "name", NameError(req));
    var emailed := WithError(named, "email", EmailError(d, actor, req));
    WithErrorKeys(map[], "name", NameError(req));
    WithErrorKeys(named, "email", EmailError(d, actor, req));
    WithErrorKeys(emailed, "password", PasswordError(req));
    assert "name" != "email" && "name" != "password" && "email" != "password";
    WithError(emailed, "password", PasswordError(req))
  }

  /** Blank name, malformed email and short password give exactly three errors, one per field. */
  lemma ThreeBadFields(d: Directory, actor: UserRecord, req: ProfileRequest)
    requires WellFormed(d)
    requires !Present(req.name)
    requires Present(req.email) && !IsValidEmail(Trim(req.email.value))
    requires Present(req.password) && Utf16Length(Trim(req.password.value)) < 6
    ensures ProfileErrors(d, actor, req) == map["name" := NameMissing, "email" := EmailMalformed, "password" := PasswordShort]
  {
    var errors := ProfileErrors(d, actor, req);
    var expected := map["name" := NameMissing, "email" := EmailMalformed, "password" := PasswordShort];
    assert errors.Keys == expected.Keys;
  }

  /** The email's error before the store is consulted: missing or blank, or malformed. */
  function EmailFormatError(req: ProfileRequest): Option<string> {
    if !Present(req.email) then Some(EmailMissing)
    else if !IsValidEmail(Trim(req.email.value)) then Some(EmailMalformed)
    else None
  }

  /** The format checks of the three fields, before the store is consulted. */
  function FormatErrors(req: ProfileRequest): map<string, string> {
    WithError(WithError(WithError(map[], "name", NameError(req)), "email", EmailFormatError(req)), "password", PasswordError(req))
  }

  /** The handler's field checks: the error map built one field after the other. */
  method ValidateFields(req: ProfileRequest) returns (errors: map<string, string>)
    ensures errors == FormatErrors(req)
  {
    errors := map[];
    if !Present(req.name) {
      errors := errors["name" := NameMissing];
    }
    ghost var m0 := errors;
    assert m0 == WithError(map[], "name", NameError(req));
    if !Present(req.email) {
      errors := errors["email" := EmailMissing];
    } else if !IsValidEmail(Trim(req.email.value)) {
      errors := errors["email" := EmailMalformed];
    }
    ghost var m1 := errors;
    assert m1 == WithError(m0, "email", EmailFormatError(req));
    if !Present(req.password) {
      errors := errors["password" := PasswordMissing];
    } else if Utf16Length(Trim(req.password.value)) < 6 {
      errors := errors["password" := PasswordShort];
    }
    assert errors == WithError(m1, "password", PasswordError(req));
  }

  /** The handler's validation: the field checks, then the lookup of a well-formed email. */
  method CollectErrors(d: Directory, sessionUser: UserRecord, req: ProfileRequest) returns (errors: map<string, string>)
    requires WellFormed(d)
    ensures errors == ProfileErrors(d, sessionUser, req)
  {
    errors := ValidateFields(req);
    if Present(req.email) && IsValidEmail(Trim(req.email.value)) {
      var existing := FindByEmail(d, ToLower(Trim(req.email.value)));
      if existing.Some? && existing.value.id != sessionUser.id {
        errors := errors["email" := EmailTaken];
      }
    }
    CollisionLast(WithError(map[], "name", NameError(req)), EmailFormatError(req), EmailError(d, sessionUser, req), PasswordError(req));
  }

  /** Setting the email's final error after the password's gives the same map as setting it before. */
  lemma CollisionLast(m0: map<string, string>, format: Option<string>, email: Option<string>, password: Option<string>)
    requires "email" !in m0 && "password" !in m0
    requires format.None? ==> email.None? || email == Some(EmailTaken)
    requires format.Some? ==> email == format
    ensures var m := WithError(WithError(m0, "email", format), "password", password);
      WithError(WithError(m0, "email", email), "password", password) ==
        if email == Some(EmailTaken) then m["email" := EmailTaken] else m
  {
  }

  /** A profile update's response, session and store. */
  datatype ProfileOutcome = ProfileOutcome(response: Response, session: Session, dir: Directory)

  /** The caller's record with the three new values, as the handler writes them. */
  function Profiled(u: UserRecord, enc: PasswordEncoder, req: ProfileRequest): UserRecord
    requires Present(req.name) && Present(req.email) && Present(req.password)
  {
    u.(name := Trim(req.name.value), email := ToLower(Trim(req.email.value)), password := enc.encode(Trim(req.password.value)))
  }

  /** A profile update that passed: the caller's stored record takes the three new values. */
  function ProfileSuccess(d: Directory, enc: PasswordEncoder, id: int, req: ProfileRequest): (out: ProfileOutcome)
    requires WellFormed(d) && id in d.records
    requires Present(req.name) && Present(req.email) && Present(req.password)
    ensures WellFormed(out.dir)
    ensures out.dir == Put(d, Profiled(d.records[id], enc, req))
    ensures var u := out.dir.records[id];
      && u.id == id && u.role == d.records[id].role
      && u.name == Trim(req.name.value) && u.email == ToLower(Trim(req.email.value))
      && u.password == enc.encode(Trim(req.password.value))
      && out.session == Session(Some(u), true)
      && out.response == Response(200, Updated("User updated successfully", Public(u)))
  {
    var u := Profiled(d.records[id], enc, req);
    ProfileOutcome(Response(200, Updated("User updated successfully", Public(u))), Session(Some(u), true), Put(d, u))
  }

  /** PUT /update: all three fields are written, or none. */
  function UpdateProfileOutcome(s: Session, d: Directory, enc: PasswordEncoder, req: ProfileRequest): (out: ProfileOutcome)
    requires WellFormed(d)
    ensures WellFormed(out.dir)
    ensures out.response.status != 200 ==> out.dir == d && out.session == s
    ensures !IsAuthenticated(s) ==> out.response == NotAuthenticated
    ensures IsAuthenticated(s) && ProfileErrors(d, s.user.value, req) != map[] ==>
      out.response == Response(400, Invalid(ProfileErrors(d, s.user.value, req)))
    ensures IsAuthenticated(s) && ProfileErrors(d, s.user.value, req) == map[] && s.user.value.id !in d.records ==>
      out.response == UserNotFound
    ensures out.response.status == 200 <==>
      IsAuthenticated(s) && ProfileErrors(d, s.user.value, req) == map[] && s.user.value.id in d.records
    ensures out.response.status == 200 ==>
      && Present(req.name) && Present(req.email) && Present(req.password)
      && out == ProfileSuccess(d, enc, s.user.value.id, req)
  {
    if !IsAuthenticated(s) then ProfileOutcome(NotAuthenticated, s, d)
    else
      var errors := ProfileErrors(d, s.user.value, req);
      if errors != map[] then ProfileOutcome(Response(400, Invalid(errors)), s, d)
      else if s.user.value.id !in d.records then ProfileOutcome(UserNotFound, s, d)
      else
        assert NameError(req).None? && EmailError(d, s.user.value, req).None? && PasswordError(req).None?;
        ProfileSuccess(d, enc, s.user.value.id, req)
  }

  /** PUT /update against the repository and the session. */
  method UpdateProfile(repo: UserRepository, enc: PasswordEncoder, s: Session, req: ProfileRequest) returns (r: Response, s': Session)
    requires repo.Valid()
    modifies repo
    ensures repo.Valid()
    ensures ProfileOutcome(r, s', repo.State()) == UpdateProfileOutcome(s, old(repo.State()), enc, req)
  {
    if !IsAuthenticated(s) {
      return NotAuthenticated, s;
    }
    var sessionUser := s.user.value;
    var errors := CollectErrors(repo.State(), sessionUser, req);
    if errors != map[] {
      return Response(400, Invalid(errors)), s;
    }
    assert NameError(req).None? && EmailError(repo.State(), sessionUser, req).None? && PasswordError(req).None?;
    var found := FindById(repo.State(), sessionUser.id);
    if found.Some? {
      var user := found.value;
      user := user.(name := Trim(req.name.value));
      user := user.(email := ToLower(Trim(req.email.value)));
      user := user.(password := enc.encode(Trim(req.password.value)));
      repo.SaveExisting(user);
      return Response(200, Updated("User updated successfully", Public(user))), Session(Some(user), s.authenticated);
    }
    return UserNotFound, s;
  }
}

/**
 * How the `/api/auth` handlers fit with each other and with the user store:
 * a profile update keeps emails unique and lower-case, and whoever was just
 * created or just updated their profile can log in with what they typed.
 */
module SessionProperties {
  import opened Wrappers
  import opened Strings
  import opened Users
  import opened AuthController
  import AppUserController

  /** A profile update stores the trimmed, lower-cased email, so stored emails stay lower-case. */
  lemma ProfileUpdateKeepsEmailsLowerCase(s: Session, d: Directory, enc: PasswordEncoder, req: ProfileRequest)
    requires WellFormed(d) && EmailsLowerCase(d)
    ensures EmailsLowerCase(UpdateProfileOutcome(s, d, enc, req).dir)
  {
    var out := UpdateProfileOutcome(s, d, enc, req);
    if out.response.status == 200 {
      ToLowerIsLowerCase(Trim(req.email.value));
    }
  }

  /** A profile update never gives the caller an email another record holds. */
  lemma ProfileUpdateKeepsEmailsUnique(s: Session, d: Directory, enc: PasswordEncoder, req: ProfileRequest)
    requires WellFormed(d) && UniqueEmails(d)
    ensures UniqueEmails(UpdateProfileOutcome(s, d, enc, req).dir)
  {
    var out := UpdateProfileOutcome(s, d, enc, req);
    if out.response.status == 200 {
      var id := s.user.value.id;
      var u := Profiled(d.records[id], enc, req);
      assert EmailError(d, s.user.value, req).None?;
      NoOtherHolder(d, u.email, id);
      PutKeepsEmailsUnique(d, u);
    }
  }

  /** After a successful profile update the caller logs in with the new email and trimmed password. */
  lemma ProfileUpdateThenLogin(s: Session, d: Directory, enc: PasswordEncoder, req: ProfileRequest, s2: Session)
    requires WellFormed(d) && UniqueEmails(d) && Sound(enc)
    requires UpdateProfileOutcome(s, d, enc, req).response.status == 200
    ensures var out := UpdateProfileOutcome(s, d, enc, req);
      Login(out.dir, enc, s2, Some(ToLower(Trim(req.email.value))), Some(Trim(req.password.value))).session == out.session
  {
    var out := UpdateProfileOutcome(s, d, enc, req);
    var id := s.user.value.id;
    ProfileUpdateKeepsEmailsUnique(s, d, enc, req);
    FindByEmailUnique(out.dir, ToLower(Trim(req.email.value)), id);
  }

  /** Whoever an admin creates under an address not yet in the store logs in with that address and password. */
  lemma CreateThenLogin(s: Session, d: Directory, enc: PasswordEncoder, req: AppUserController.CreateRequest, s2: Session)
    requires WellFormed(d) && Sound(enc)
    requires AppUserController.CreateOutcome(s, d, enc, req).response.status == 201
    requires FindByEmail(d, NormalEmail(req.email.value)).None?
    ensures var out := AppUserController.CreateOutcome(s, d, enc, req);
      var login := Login(out.dir, enc, s2, Some(NormalEmail(req.email.value)), Some(req.password.value));
      && login.response.status == 200
      && login.session == Session(Some(out.dir.records[d.nextId]), true)
  {
    var dir := AppUserController.CreateOutcome(s, d, enc, req).dir;
    var u := AppUserController.NewUser(req, enc);
    var e := NormalEmail(req.email.value);
    assert dir == Insert(d, u) && u.email == e;
    InsertThenFindByEmail(d, u);
    assert enc.matches(req.password.value, u.password);
    LoginFinds(dir, enc, s2, e, req.password.value, u.(id := d.nextId));
  }

  /** A login whose lookup finds a record the password matches logs that record in. */
  lemma LoginFinds(d: Directory, enc: PasswordEncoder, s: Session, e: string, p: string, u: UserRecord)
    requires WellFormed(d) && FindByEmail(d, e) == Some(u) && enc.matches(p, u.password)
    ensures Login(d, enc, s, Some(e), Some(p)) == SessionOutcome(Response(200, LoggedIn(Public(u))), Session(Some(u), true))
  {
  }
}
