/**
 * The `/api/users` handlers. Each runs the authentication gate, then its role or
 * ownership gate, then field checks in a fixed order, then at most one store write;
 * every error path leaves the store as it was.
 */
module AppUserController {
  import opened Wrappers
  import opened Strings
  import opened Users

  datatype SearchCriteria = SearchCriteria(email: string, name: string, role: string)

  /** The JSON bodies the handlers answer with (timestamps are not modelled). */
  datatype Body =
    | Error(error: string)                  // {"error": …}
    | Failure(error: string)                // {"success": false, "error": …}
    | UserList(users: seq<PublicUser>, totalCount: int)
    | SearchResult(users: seq<PublicUser>, totalCount: int, criteria: SearchCriteria)
    | Found(user: PublicUser)
    | Saved(message: string, user: PublicUser)
    | Deleted(message: string, deletedUser: PublicUser)

  datatype Response = Response(status: int, body: Body)

  const NotAuthenticated := Response(401, Error("Not authenticated"))
  const AdminRequired := Response(403, Error("Access denied. Admin privileges required."))
  const OwnProfileView := Response(403, Error("Access denied. You can only view your own profile."))
  const OwnProfileUpdate := Response(403, Error("Access denied. You can only update your own profile."))
  const UserNotFound := Response(404, Failure("User not found"))
  const EmailRequired := Response(400, Error("Email is required"))
  const PasswordRequired := Response(400, Error("Password is required"))
  const NameRequired := Response(400, Error("Name is required"))
  const RoleRequired := Response(400, Error("Role is required"))
  const InvalidRole := Response(400, Error("Role must be either USER or ADMIN"))
  const EmailExists := Response(400, Error("Email already exists"))
  const RoleChangeForbidden := Response(403, Error("Only admins can update user roles"))
  const NoFieldsToUpdate := Response(400, Error("No valid fields provided for update"))
  const CannotDeleteSelf := Response(400, Error("You cannot delete your own account"))

  /** A handler's response together with the store as the handler leaves it. */
  datatype Outcome = Outcome(response: Response, dir: Directory)

  /** The caller, once the authentication gate has let the request through. */
  function Actor(s: Session): UserRecord
    requires IsAuthenticated(s)
  {
    s.user.value
  }

  /** The projection applied to every listed record. */
  function Publics(us: seq<UserRecord>): (ps: seq<PublicUser>)
    ensures |ps| == |us| && forall i :: 0 <= i < |us| ==> ps[i] == Public(us[i])
  {
    seq(|us|, i requires 0 <= i < |us| => Public(us[i]))
  }

  // ---------------------------------------------------------------- list

  /** GET /list. There is no role check: any authenticated caller sees every record. */
  function ListUsers(s: Session, d: Directory): (r: Response)
    requires WellFormed(d)
    ensures !IsAuthenticated(s) ==> r == NotAuthenticated
    ensures IsAuthenticated(s) ==> r.status == 200 && r.body.UserList?
    ensures IsAuthenticated(s) ==> r.body.users == Publics(FindAll(d)) && r.body.totalCount == |d.records|
  {
    if !IsAuthenticated(s) then NotAuthenticated
    else
      var users := Publics(FindAll(d));
      FindAllCount(d);
      Response(200, UserList(users, |users|))
  }

  // ---------------------------------------------------------------- search

  /** An absent or blank filter imposes nothing; otherwise its trimmed, lower-cased text must occur in the lower-cased field. */
  predicate FilterMatches(field: string, filter: Option<string>) {
    !Present(filter) || Contains(ToLower(field), ToLower(Trim(filter.value)))
  }

  /** Every filter matches (the filters are combined with AND). */
  predicate MatchesAll(u: UserRecord, email: Option<string>, name: Option<string>, role: Option<string>) {
    FilterMatches(u.email, email) && FilterMatches(u.name, name) && FilterMatches(u.role, role)
  }

  /** `r` is `us` with some of its elements left out and the others in their original order. */
  predicate IsSubsequence(r: seq<UserRecord>, us: seq<UserRecord>)
    decreases |us|
  {
    if r == [] then true
    else if us == [] then false
    else (r[0] == us[0] && IsSubsequence(r[1..], us[1..])) || IsSubsequence(r, us[1..])
  }

  /** The stream `filter` of the search handler: the matching records, in their original order. */
  function Filter(us: seq<UserRecord>, email: Option<string>, name: Option<string>, role: Option<string>): (r: seq<UserRecord>)
    ensures |r| <= |us|
    ensures forall u :: u in r <==> u in us && MatchesAll(u, email, name, role)
    ensures IdsIncreasing(us) ==> IdsIncreasing(r)
  {
    if us == [] then []
    else
      var rest := Filter(us[1..], email, name, role);
      if MatchesAll(us[0], email, name, role) then
        if IdsIncreasing(us) then
          HeadIdBelowTail(us, rest);
          [us[0]] + rest
        else
          [us[0]] + rest
      else
        rest
  }

  /** Whatever the order of its input, the filter keeps the original order of what it keeps. */
  lemma {:induction false} FilterKeepsOrder(us: seq<UserRecord>, email: Option<string>, name: Option<string>, role: Option<string>)
    ensures IsSubsequence(Filter(us, email, name, role), us)
  {
    if us != [] {
      FilterKeepsOrder(us[1..], email, name, role);
      var rest := Filter(us[1..], email, name, role);
      if MatchesAll(us[0], email, name, role) {
        var r := [us[0]] + rest;
        assert r[1..] == rest;
      }
    }
  }

  /** The filter keeps every matching record as often as it occurs, and drops every other one. */
  lemma {:induction false} FilterKeepsCount(us: seq<UserRecord>, email: Option<string>, name: Option<string>, role: Option<string>)
    ensures forall u :: multiset(Filter(us, email, name, role))[u] == if MatchesAll(u, email, name, role) then multiset(us)[u] else 0
  {
    if us != [] {
      FilterKeepsCount(us[1..], email, name, role);
      assert us == [us[0]] + us[1..];
    }
  }

  lemma HeadIdBelowTail(us: seq<UserRecord>, rest: seq<UserRecord>)
    requires us != [] && IdsIncreasing(us) && IdsIncreasing(rest)
    requires forall u :: u in rest ==> u in us[1..]
    ensures IdsIncreasing([us[0]] + rest)
  {
    forall i, j | 0 <= i < j < |[us[0]] + rest| ensures ([us[0]] + rest)[i].id < ([us[0]] + rest)[j].id {
      if i == 0 {
        assert rest[j - 1] in us[1..];
        var k :| 0 <= k < |us[1..]| && us[1..][k] == rest[j - 1];
        assert us[k + 1] == rest[j - 1];
      }
    }
  }

  /** True when no filter is given (each is null or blank). */
  predicate NoFilters(email: Option<string>, name: Option<string>, role: Option<string>) {
    !Present(email) && !Present(name) && !Present(role)
  }

  /** The records a search returns: all of them without filters, the filtered stream otherwise. */
  function SearchMatches(d: Directory, email: Option<string>, name: Option<string>, role: Option<string>): (us: seq<UserRecord>)
    requires WellFormed(d)
    ensures forall id :: id in d.records ==> (d.records[id] in us <==> MatchesAll(d.records[id], email, name, role))
    ensures forall u :: u in us ==> u.id in d.records && d.records[u.id] == u
    ensures IdsIncreasing(us)
  {
    if NoFilters(email, name, role) then FindAll(d) else Filter(FindAll(d), email, name, role)
  }

  /** Filtering with no filters keeps everything: the handler's shortcut for that case changes nothing. */
  lemma {:induction false} FilterWithoutFilters(us: seq<UserRecord>, email: Option<string>, name: Option<string>, role: Option<string>)
    requires NoFilters(email, name, role)
    ensures Filter(us, email, name, role) == us
  {
    if us != [] {
      FilterWithoutFilters(us[1..], email, name, role);
      assert us == [us[0]] + us[1..];
    }
  }

  /** GET /search: ADMIN only; the matching records, in store order, with their count. */
  function SearchUsers(s: Session, d: Directory, email: Option<string>, name: Option<string>, role: Option<string>): (r: Response)
    requires WellFormed(d)
    ensures !IsAuthenticated(s) ==> r == NotAuthenticated
    ensures IsAuthenticated(s) && !IsAdmin(Actor(s)) ==> r == AdminRequired
    ensures IsAuthenticated(s) && IsAdmin(Actor(s)) ==>
      && r.status == 200
      && r.body.SearchResult?
      && r.body.users == Publics(SearchMatches(d, email, name, role))
      && r.body.totalCount == |r.body.users|
      && r.body.criteria == SearchCriteria(email.GetOr(""), name.GetOr(""), role.GetOr(""))
  {
    if !IsAuthenticated(s) then NotAuthenticated
    else if !IsAdmin(Actor(s)) then AdminRequired
    else
      var users := Publics(SearchMatches(d, email, name, role));
      Response(200, SearchResult(users, |users|, SearchCriteria(email.GetOr(""), name.GetOr(""), role.GetOr(""))))
  }

  /** A search without filters lists exactly what GET /list lists. */
  lemma SearchWithoutFiltersIsList(s: Session, d: Directory, email: Option<string>, name: Option<string>, role: Option<string>)
    requires WellFormed(d) && IsAuthenticated(s) && IsAdmin(Actor(s))
    requires NoFilters(email, name, role)
    ensures SearchUsers(s, d, email, name, role).body.users == ListUsers(s, d).body.users
    ensures SearchUsers(s, d, email, name, role).body.users == Publics(Filter(FindAll(d), email, name, role))
  {
    FilterWithoutFilters(FindAll(d), email, name, role);
  }

  // ---------------------------------------------------------------- get

  /** GET /get/{id}: the caller's own record, or any record for an ADMIN. */
  function GetUserById(s: Session, d: Directory, id: int): (r: Response)
    ensures !IsAuthenticated(s) ==> r == NotAuthenticated
    ensures IsAuthenticated(s) && !IsAdmin(Actor(s)) && Actor(s).id != id ==> r == OwnProfileView
    ensures IsAuthenticated(s) && (IsAdmin(Actor(s)) || Actor(s).id == id) && id !in d.records ==> r == UserNotFound
    ensures r.status == 200 <==> IsAuthenticated(s) && (IsAdmin(Actor(s)) || Actor(s).id == id) && id in d.records
    ensures r.status == 200 ==> r.body == Found(Public(d.records[id]))
  {
    if !IsAuthenticated(s) then NotAuthenticated
    else if !IsAdmin(Actor(s)) && Actor(s).id != id then OwnProfileView
    else match FindById(d, id)
      case Some(u) => Response(200, Found(Public(u)))
      case None => UserNotFound
  }

  // ---------------------------------------------------------------- create

  /** The body of POST /create; a key missing from the JSON map is `None`. */
  datatype CreateRequest = CreateRequest(email: Option<string>, password: Option<string>, name: Option<string>, role: Option<string>)

  /** The first failed field check of a create request, in the order the handler makes them. */
  function CreateFieldError(req: CreateRequest): (r: Option<Response>)
    ensures r.Some? ==> r.value.status == 400
    ensures !Present(req.email) ==> r == Some(EmailRequired)
    ensures Present(req.email) && !Present(req.password) ==> r == Some(PasswordRequired)
    ensures Present(req.email) && Present(req.password) && !Present(req.name) ==> r == Some(NameRequired)
    ensures Present(req.email) && Present(req.password) && Present(req.name) && !Present(req.role) ==> r == Some(RoleRequired)
    ensures Present(req.email) && Present(req.password) && Present(req.name) && Present(req.role) && !IsValidRole(req.role.value) ==>
      r == Some(InvalidRole)
    ensures r.None? <==>
      Present(req.email) && Present(req.password) && Present(req.name) && Present(req.role) && IsValidRole(req.role.value)
  {
    if !Present(req.email) then Some(EmailRequired)
    else if !Present(req.password) then Some(PasswordRequired)
    else if !Present(req.name) then Some(NameRequired)
    else if !Present(req.role) then Some(RoleRequired)
    else if !IsValidRole(req.role.value) then Some(InvalidRole)
    else None
  }

  /** The record a valid create request stores (the store then assigns its id). */
  function NewUser(req: CreateRequest, enc: PasswordEncoder): UserRecord
    requires CreateFieldError(req).None?
  {
    UserRecord(0, NormalEmail(req.email.value), Trim(req.name.value), enc.encode(req.password.value), ToUpper(Trim(req.role.value)))
  }

  /** A role that passed the exact check is stored unchanged by `trim().toUpperCase()`. */
  lemma ValidRoleNormalised(role: string)
    requires IsValidRole(role)
    ensures ToUpper(Trim(role)) == role
  {
    TrimNoop(role);
    ToUpperOfUpper(role);
  }

  /** POST /create: ADMIN only; fields checked in order, then the duplicate lookup on the trimmed (not lower-cased) email. */
  function CreateOutcome(s: Session, d: Directory, enc: PasswordEncoder, req: CreateRequest): (out: Outcome)
    requires WellFormed(d)
    ensures WellFormed(out.dir)
    ensures out.response.status != 201 ==> out.dir == d
    ensures !IsAuthenticated(s) ==> out.response == NotAuthenticated
    ensures IsAuthenticated(s) && !IsAdmin(Actor(s)) ==> out.response == AdminRequired
    ensures IsAuthenticated(s) && IsAdmin(Actor(s)) && CreateFieldError(req).Some? ==> out.response == CreateFieldError(req).value
    ensures IsAuthenticated(s) && IsAdmin(Actor(s)) && CreateFieldError(req).None? && FindByEmail(d, Trim(req.email.value)).Some? ==> out.response == EmailExists
    ensures out.response.status == 201 <==>
      IsAuthenticated(s) && IsAdmin(Actor(s)) && CreateFieldError(req).None? && FindByEmail(d, Trim(req.email.value)).None?
    ensures out.response.status == 201 ==>
      && NewUser(req, enc).email == NormalEmail(req.email.value)
      && NewUser(req, enc).role == req.role.value
      && out.dir == Insert(d, NewUser(req, enc))
      && out.response == Response(201, Saved("User created successfully", Public(NewUser(req, enc).(id := d.nextId))))
  {
    if !IsAuthenticated(s) then Outcome(NotAuthenticated, d)
    else if !IsAdmin(Actor(s)) then Outcome(AdminRequired, d)
    else if CreateFieldError(req).Some? then Outcome(CreateFieldError(req).value, d)
    else if FindByEmail(d, Trim(req.email.value)).Some? then Outcome(EmailExists, d)
    else
      ValidRoleNormalised(req.role.value);
      Outcome(Response(201, Saved("User created successfully", Public(NewUser(req, enc).(id := d.nextId)))), Insert(d, NewUser(req, enc)))
  }

  /** POST /create against the repository. */
  method CreateUser(repo: UserRepository, enc: PasswordEncoder, s: Session, req: CreateRequest) returns (r: Response)
    requires repo.Valid()
    modifies repo
    ensures repo.Valid()
    ensures Outcome(r, repo.State()) == CreateOutcome(s, old(repo.State()), enc, req)
  {
    if !IsAuthenticated(s) {
      return NotAuthenticated;
    }
    if !IsAdmin(s.user.value) {
      return AdminRequired;
    }
    if !Present(req.email) {
      return EmailRequired;
    }
    if !Present(req.password) {
      return PasswordRequired;
    }
    if !Present(req.name) {
      return NameRequired;
    }
    if !Present(req.role) {
      return RoleRequired;
    }
    var role := req.role.value;
    if role != UserRole && role != AdminRole {
      return InvalidRole;
    }
    if FindByEmail(repo.State(), Trim(req.email.value)).Some? {
      return EmailExists;
    }
    var newUser := UserRecord(0, ToLower(Trim(req.email.value)), Trim(req.name.value), enc.encode(req.password.value), ToUpper(Trim(role)));
    var saved := repo.SaveNew(newUser);
    r := Response(201, Saved("User created successfully", Public(saved)));
  }

  // ---------------------------------------------------------------- update

  /** The body of PUT /update/{id}; every field is optional. */
  datatype UpdateRequest = UpdateRequest(email: Option<string>, name: Option<string>, role: Option<string>, password: Option<string>)

  /** The error an update of an existing record stops at, in the handler's order; note the email collision comes before the role checks. */
  function UpdateFieldError(actor: UserRecord, d: Directory, id: int, req: UpdateRequest): (r: Option<Response>)
    requires WellFormed(d)
    ensures r.Some? ==> r.value.status == 400 || r.value.status == 403
    ensures Present(req.email) && EmailTakenByOther(d, NormalEmail(req.email.value), id) ==> r == Some(EmailExists)
    ensures !(Present(req.email) && EmailTakenByOther(d, NormalEmail(req.email.value), id)) && Present(req.role) && !IsAdmin(actor) ==>
      r == Some(RoleChangeForbidden)
    ensures !(Present(req.email) && EmailTakenByOther(d, NormalEmail(req.email.value), id)) && Present(req.role) && IsAdmin(actor) && !IsValidRole(req.role.value) ==>
      r == Some(InvalidRole)
    ensures !Present(req.email) && !Present(req.name) && !Present(req.role) && !Present(req.password) ==> r == Some(NoFieldsToUpdate)
    ensures r.None? <==>
      && (Present(req.email) || Present(req.name) || Present(req.role) || Present(req.password))
      && !(Present(req.email) && EmailTakenByOther(d, NormalEmail(req.email.value), id))
      && (Present(req.role) ==> IsAdmin(actor) && IsValidRole(req.role.value))
  {
    if Present(req.email) && EmailTakenByOther(d, NormalEmail(req.email.value), id) then Some(EmailExists)
    else if Present(req.role) && !IsAdmin(actor) then Some(RoleChangeForbidden)
    else if Present(req.role) && !IsValidRole(req.role.value) then Some(InvalidRole)
    else if !Present(req.email) && !Present(req.name) && !Present(req.role) && !Present(req.password) then Some(NoFieldsToUpdate)
    else None
  }

  /** The record with every given field applied, each normalised as the handler does. */
  function Applied(u: UserRecord, enc: PasswordEncoder, req: UpdateRequest): UserRecord {
    u.(email := if Present(req.email) then NormalEmail(req.email.value) else u.email,
       name := if Present(req.name) then Trim(req.name.value) else u.name,
       role := if Present(req.role) then ToUpper(Trim(req.role.value)) else u.role,
       password := if Present(req.password) then enc.encode(req.password.value) else u.password)
  }

  /** PUT /update/{id}: the caller's own record, or any record for an ADMIN; all given fields are written or none. */
  function UpdateOutcome(s: Session, d: Directory, enc: PasswordEncoder, id: int, req: UpdateRequest): (out: Outcome)
    requires WellFormed(d)
    ensures WellFormed(out.dir)
    ensures out.response.status != 200 ==> out.dir == d
    ensures !IsAuthenticated(s) ==> out.response == NotAuthenticated
    ensures IsAuthenticated(s) && !IsAdmin(Actor(s)) && Actor(s).id != id ==> out.response == OwnProfileUpdate
    ensures IsAuthenticated(s) && (IsAdmin(Actor(s)) || Actor(s).id == id) && id !in d.records ==> out.response == UserNotFound
    ensures IsAuthenticated(s) && (IsAdmin(Actor(s)) || Actor(s).id == id) && id in d.records && UpdateFieldError(Actor(s), d, id, req).Some? ==>
      out.response == UpdateFieldError(Actor(s), d, id, req).value
    ensures out.response.status == 200 <==>
      IsAuthenticated(s) && (IsAdmin(Actor(s)) || Actor(s).id == id) && id in d.records && UpdateFieldError(Actor(s), d, id, req).None?
    ensures out.response.status == 200 ==>
      && IsAuthenticated(s) && (IsAdmin(Actor(s)) || Actor(s).id == id) && id in d.records
      && UpdateFieldError(Actor(s), d, id, req).None?
      && out.dir == Put(d, Applied(d.records[id], enc, req))
      && out.response == Response(200, Saved("User updated successfully", Public(out.dir.records[id])))
    ensures out.response.status == 200 ==>
      && out.dir.records[id].id == id
      && (out.dir.records[id].role != d.records[id].role ==> IsAdmin(Actor(s)) && IsValidRole(out.dir.records[id].role))
  {
    if !IsAuthenticated(s) then Outcome(NotAuthenticated, d)
    else if !IsAdmin(Actor(s)) && Actor(s).id != id then Outcome(OwnProfileUpdate, d)
    else if id !in d.records then Outcome(UserNotFound, d)
    else match UpdateFieldError(Actor(s), d, id, req)
      case Some(err) => Outcome(err, d)
      case None =>
        if Present(req.role) then ValidRoleNormalised(req.role.value); UpdateSuccess(d, enc, id, req)
        else UpdateSuccess(d, enc, id, req)
  }

  function UpdateSuccess(d: Directory, enc: PasswordEncoder, id: int, req: UpdateRequest): Outcome
    requires WellFormed(d) && id in d.records
  {
    var u := Applied(d.records[id], enc, req);
    Outcome(Response(200, Saved("User updated successfully", Public(u))), Put(d, u))
  }

  /**
   * The body of the update handler once the record is fetched: the fetched record is
   * changed field by field and `isUpdated` records whether anything was set.
   */
  method ApplyUpdate(d: Directory, actor: UserRecord, userToUpdate: UserRecord, enc: PasswordEncoder, req: UpdateRequest)
    returns (err: Option<Response>, updated: UserRecord)
    requires WellFormed(d)
    ensures err == UpdateFieldError(actor, d, userToUpdate.id, req)
    ensures err.None? ==> updated == Applied(userToUpdate, enc, req)
  {
    var id := userToUpdate.id;
    updated := userToUpdate;
    var isUpdated := false;

    if Present(req.email) {
      var email := NormalEmail(req.email.value);
      var existing := FindByEmail(d, email);
      if existing.Some? && existing.value.id != id {
        return Some(EmailExists), updated;
      }
      updated := updated.(email := email);
      isUpdated := true;
    }
    assert !(Present(req.email) && EmailTakenByOther(d, NormalEmail(req.email.value), id));
    if Present(req.name) {
      updated := updated.(name := Trim(req.name.value));
      isUpdated := true;
    }
    if Present(req.role) {
      if !IsAdmin(actor) {
        return Some(RoleChangeForbidden), updated;
      }
      var role := req.role.value;
      if role != UserRole && role != AdminRole {
        return Some(InvalidRole), updated;
      }
      updated := updated.(role := ToUpper(Trim(role)));
      isUpdated := true;
    }
    if Present(req.password) {
      updated := updated.(password := enc.encode(req.password.value));
      isUpdated := true;
    }
    assert isUpdated <==> Present(req.email) || Present(req.name) || Present(req.role) || Present(req.password);
    if !isUpdated {
      return Some(NoFieldsToUpdate), updated;
    }
    err := None;
  }

  /** PUT /update/{id} against the repository: the record is saved only when every check passed. */
  method UpdateUser(repo: UserRepository, enc: PasswordEncoder, s: Session, id: int, req: UpdateRequest) returns (r: Response)
    requires repo.Valid()
    modifies repo
    ensures repo.Valid()
    ensures Outcome(r, repo.State()) == UpdateOutcome(s, old(repo.State()), enc, id, req)
  {
    if !IsAuthenticated(s) {
      return NotAuthenticated;
    }
    var actor := s.user.value;
    if !IsAdmin(actor) && actor.id != id {
      return OwnProfileUpdate;
    }
    var found := FindById(repo.State(), id);
    if found.None? {
      return UserNotFound;
    }
    var err, userToUpdate := ApplyUpdate(repo.State(), actor, found.value, enc, req);
    if err.Some? {
      return err.value;
    }
    ghost var d := repo.State();
    repo.SaveExisting(userToUpdate);
    r := Response(200, Saved("User updated successfully", Public(userToUpdate)));
    assert Outcome(r, repo.State()) == UpdateSuccess(d, enc, id, req);
  }

  // ---------------------------------------------------------------- delete

  /** DELETE /delete/{id}: ADMIN only, never the caller's own id (checked before existence). */
  function DeleteOutcome(s: Session, d: Directory, id: int): (out: Outcome)
    requires WellFormed(d)
    ensures WellFormed(out.dir)
    ensures out.response.status != 200 ==> out.dir == d
    ensures !IsAuthenticated(s) ==> out.response == NotAuthenticated
    ensures IsAuthenticated(s) && !IsAdmin(Actor(s)) ==> out.response == AdminRequired
    ensures IsAuthenticated(s) && IsAdmin(Actor(s)) && Actor(s).id == id ==> out.response == CannotDeleteSelf
    ensures IsAuthenticated(s) && IsAdmin(Actor(s)) && Actor(s).id != id && id !in d.records ==> out.response == UserNotFound
    ensures out.response.status == 200 <==> IsAuthenticated(s) && IsAdmin(Actor(s)) && Actor(s).id != id && id in d.records
    ensures out.response.status == 200 ==>
      && out.dir.records == d.records - {id}
      && |out.dir.records| == |d.records| - 1
      && out.response == Response(200, Deleted("User deleted successfully", Public(d.records[id])))
  {
    if !IsAuthenticated(s) then Outcome(NotAuthenticated, d)
    else if !IsAdmin(Actor(s)) then Outcome(AdminRequired, d)
    else if Actor(s).id == id then Outcome(CannotDeleteSelf, d)
    else match FindById(d, id)
      case None => Outcome(UserNotFound, d)
      case Some(u) => Outcome(Response(200, Deleted("User deleted successfully", Public(u))), Remove(d, id))
  }

  /** DELETE /delete/{id} against the repository. */
  method DeleteUser(repo: UserRepository, s: Session, id: int) returns (r: Response)
    requires repo.Valid()
    modifies repo
    ensures repo.Valid()
    ensures Outcome(r, repo.State()) == DeleteOutcome(s, old(repo.State()), id)
  {
    if !IsAuthenticated(s) {
      return NotAuthenticated;
    }
    var actor := s.user.value;
    if !IsAdmin(actor) {
      return AdminRequired;
    }
    if actor.id == id {
      return CannotDeleteSelf;
    }
    var found := FindById(repo.State(), id);
    if found.None? {
      return UserNotFound;
    }
    var userToDelete := found.value;
    var deletedUserInfo := Public(userToDelete);
    repo.Delete(userToDelete);
    r := Response(200, Deleted("User deleted successfully", deletedUserInfo));
  }
}

/**
 * What the `/api/users` writes keep true of the store: lower-case emails always,
 * and unique emails for updates (but not for the create handler as written).
 */
module UserStoreInvariants {
  import opened Wrappers
  import opened Strings
  import opened Users
  import opened AppUserController

  /** A USER who asks to change a role on their own record is refused with 403, and nothing is written. */
  lemma NonAdminRoleChangeForbidden(s: Session, d: Directory, enc: PasswordEncoder, req: UpdateRequest)
    requires WellFormed(d) && IsAuthenticated(s) && !IsAdmin(Actor(s)) && Actor(s).id in d.records
    requires Present(req.role) && !(Present(req.email) && EmailTakenByOther(d, NormalEmail(req.email.value), Actor(s).id))
    ensures UpdateOutcome(s, d, enc, Actor(s).id, req) == Outcome(RoleChangeForbidden, d)
  {
  }

  /**
   * An allowed update of an existing record that gives some field, no email held by another
   * record, and a role only from an ADMIN and only USER or ADMIN, is saved and answered 200.
   */
  lemma ValidUpdateSucceeds(s: Session, d: Directory, enc: PasswordEncoder, id: int, req: UpdateRequest)
    requires WellFormed(d) && IsAuthenticated(s) && (IsAdmin(Actor(s)) || Actor(s).id == id) && id in d.records
    requires Present(req.email) || Present(req.name) || Present(req.role) || Present(req.password)
    requires !(Present(req.email) && EmailTakenByOther(d, NormalEmail(req.email.value), id))
    requires Present(req.role) ==> IsAdmin(Actor(s)) && IsValidRole(req.role.value)
    ensures UpdateOutcome(s, d, enc, id, req).response.status == 200
    ensures UpdateOutcome(s, d, enc, id, req).dir == Put(d, Applied(d.records[id], enc, req))
  {
  }

  /** An update that gives no field is refused with 400, whoever asks, and nothing is written. */
  lemma EmptyUpdateRejected(s: Session, d: Directory, enc: PasswordEncoder, id: int)
    requires WellFormed(d) && IsAuthenticated(s) && (IsAdmin(Actor(s)) || Actor(s).id == id) && id in d.records
    ensures UpdateOutcome(s, d, enc, id, UpdateRequest(None, None, None, None)) == Outcome(NoFieldsToUpdate, d)
  {
  }

  /** Create stores the trimmed, lower-cased email, so stored emails stay lower-case. */
  lemma CreateKeepsEmailsLowerCase(s: Session, d: Directory, enc: PasswordEncoder, req: CreateRequest)
    requires WellFormed(d) && EmailsLowerCase(d)
    ensures EmailsLowerCase(CreateOutcome(s, d, enc, req).dir)
  {
    var out := CreateOutcome(s, d, enc, req);
    if out.response.status == 201 {
      ToLowerIsLowerCase(Trim(req.email.value));
    }
  }

  /** Update stores the trimmed, lower-cased email when one is given, so stored emails stay lower-case. */
  lemma UpdateKeepsEmailsLowerCase(s: Session, d: Directory, enc: PasswordEncoder, id: int, req: UpdateRequest)
    requires WellFormed(d) && EmailsLowerCase(d)
    ensures EmailsLowerCase(UpdateOutcome(s, d, enc, id, req).dir)
  {
    var out := UpdateOutcome(s, d, enc, id, req);
    if out.response.status == 200 && Present(req.email) {
      ToLowerIsLowerCase(Trim(req.email.value));
    }
  }

  /** An update never gives a second record an email already in use. */
  lemma UpdateKeepsEmailsUnique(s: Session, d: Directory, enc: PasswordEncoder, id: int, req: UpdateRequest)
    requires WellFormed(d) && UniqueEmails(d)
    ensures UniqueEmails(UpdateOutcome(s, d, enc, id, req).dir)
  {
    var out := UpdateOutcome(s, d, enc, id, req);
    if out.response.status == 200 {
      var u := Applied(d.records[id], enc, req);
      if Present(req.email) {
        assert !EmailTakenByOther(d, NormalEmail(req.email.value), id);
        NoOtherHolder(d, u.email, id);
      }
      PutKeepsEmailsUnique(d, u);
    }
  }

  /** Reusing one's own email, in any spacing or case, is never an email collision. */
  lemma OwnEmailIsNoCollision(d: Directory, id: int, email: string)
    requires WellFormed(d) && UniqueEmails(d)
    requires id in d.records && NormalEmail(email) == d.records[id].email
    ensures !EmailTakenByOther(d, NormalEmail(email), id)
  {
    FindByEmailUnique(d, NormalEmail(email), id);
  }

  /** After a successful delete the record is gone: reading it back answers 404. */
  lemma DeleteThenGetIsNotFound(s: Session, d: Directory, id: int)
    requires WellFormed(d)
    requires DeleteOutcome(s, d, id).response.status == 200
    ensures GetUserById(s, DeleteOutcome(s, d, id).dir, id) == UserNotFound
    ensures forall k :: k in d.records && k != id ==> FindById(DeleteOutcome(s, d, id).dir, k) == FindById(d, k)
  {
  }

  // ---- The create handler's duplicate check is case-sensitive.

  /**
   * As written: the lookup uses the trimmed email without lower-casing it, while every
   * stored email is lower-case, so an admin who types an existing email with an upper-case
   * letter (say "Admin@example.com" while "admin@example.com" is stored) creates a second
   * record under the same email. The 201 answer assumes the email column carries no
   * unique constraint; the entity class is not part of this model.
   */
  lemma CreateAdmitsCaseVariantDuplicate(s: Session, d: Directory, enc: PasswordEncoder, req: CreateRequest, id: int)
    requires WellFormed(d) && EmailsLowerCase(d)
    requires IsAuthenticated(s) && IsAdmin(Actor(s)) && CreateFieldError(req).None?
    requires id in d.records && NormalEmail(req.email.value) == d.records[id].email
    requires !IsLowerCase(Trim(req.email.value))
    ensures CreateOutcome(s, d, enc, req).response.status == 201
    ensures !UniqueEmails(CreateOutcome(s, d, enc, req).dir)
  {
    var typed := Trim(req.email.value);
    forall k | k in d.records
      ensures d.records[k].email != typed
    {
      LowerCaseDiffers(d.records[k].email, typed);
    }
    var out := CreateOutcome(s, d, enc, req);
    assert out.response.status == 201;
    var n := d.nextId;
    assert out.dir == Insert(d, NewUser(req, enc));
    assert out.dir.records[n].email == out.dir.records[id].email && n != id;
  }

  lemma LowerCaseDiffers(a: string, b: string)
    requires IsLowerCase(a) && !IsLowerCase(b)
    ensures a != b
  {
  }

  /** The example input: "Admin@example.com" normalises to the stored "admin@example.com" but is not lower-case. */
  lemma CaseVariantExample()
    ensures NormalEmail("Admin@example.com") == "admin@example.com"
    ensures !IsLowerCase(Trim("Admin@example.com"))
  {
    var typed := "Admin@example.com";
    TrimNoop(typed);
    assert ToLower(typed)[0] == 'a';
    assert forall i :: 1 <= i < |typed| ==> ToLower(typed)[i] == typed[i];
  }

  /** Inserting a record whose email no record holds keeps emails unique. */
  lemma InsertKeepsEmailsUnique(d: Directory, u: UserRecord)
    requires WellFormed(d) && UniqueEmails(d)
    requires forall id :: id in d.records ==> d.records[id].email != u.email
    ensures UniqueEmails(Insert(d, u))
  {
  }

  /** Corrected: the duplicate lookup also tries the normalised email the record will be stored under. */
  function CreateOutcomeCaseInsensitive(s: Session, d: Directory, enc: PasswordEncoder, req: CreateRequest): (out: Outcome)
    requires WellFormed(d)
    ensures WellFormed(out.dir)
    ensures out.response.status != 201 ==> out.dir == d
    ensures out.response.status == 201 ==> out == CreateOutcome(s, d, enc, req)
    ensures !(IsAuthenticated(s) && IsAdmin(Actor(s)) && CreateFieldError(req).None? && FindByEmail(d, NormalEmail(req.email.value)).Some?) ==>
      out == CreateOutcome(s, d, enc, req)
    ensures IsAuthenticated(s) && IsAdmin(Actor(s)) && CreateFieldError(req).None? && FindByEmail(d, NormalEmail(req.email.value)).Some? ==>
      out.response == EmailExists
  {
    if IsAuthenticated(s) && IsAdmin(Actor(s)) && CreateFieldError(req).None? && FindByEmail(d, NormalEmail(req.email.value)).Some? then
      Outcome(EmailExists, d)
    else
      CreateOutcome(s, d, enc, req)
  }

  /** With the corrected lookup a create can no longer introduce a duplicate email. */
  lemma CaseInsensitiveCreateKeepsEmailsUnique(s: Session, d: Directory, enc: PasswordEncoder, req: CreateRequest)
    requires WellFormed(d) && UniqueEmails(d)
    ensures UniqueEmails(CreateOutcomeCaseInsensitive(s, d, enc, req).dir)
  {
    var out := CreateOutcomeCaseInsensitive(s, d, enc, req);
    if out.response.status == 201 {
      var u := NewUser(req, enc);
      assert out.dir == Insert(d, u);
      assert FindByEmail(d, NormalEmail(req.email.value)).None?;
      InsertKeepsEmailsUnique(d, u);
    }
  }

}
