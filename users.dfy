/** User administration: every operation is for admins only. Admins create
    students and teachers (never admins), delete anyone but themselves, and
    list or read the user store. The identity store is a map from user id to
    record. */
module Users {
  import opened Common
  import opened PhpStrings

  /** One constructor per exception the operations throw. */
  datatype UserError =
    | NotAuthorized
    | AdminRequired
    | LoginTaken
    | MissingParams
    | BadRole
    | MissingUserId
    | SelfDelete
    | DeleteFailed

  // ---------------------------------------------------------------------
  // Guards

  /** checkAuth: the session's user id, which must be positive. */
  function CheckAuth(actor: Actor): (r: Result<int, UserError>)
    ensures r.Ok? <==> actor.id > 0
    ensures r.Ok? ==> r.value == actor.id
    ensures r.Err? ==> r.error == NotAuthorized
  {
    if actor.id <= 0 then Err(NotAuthorized) else Ok(actor.id)
  }

  /** checkAdmin: logged in, then a member of the admins group. */
  function CheckAdmin(actor: Actor): (r: Result<int, UserError>)
    ensures r.Ok? <==> CheckAuth(actor).Ok? && Admins in actor.groups
    ensures CheckAuth(actor).Ok? && r.Err? ==> r.error == AdminRequired
  {
    match CheckAuth(actor)
    case Err(e) => Err(e)
    case Ok(id) => if Admins in actor.groups then Ok(id) else Err(AdminRequired)
  }

  /** The admin check agrees with role resolution: whoever passes it
      resolves to the admin role. */
  lemma AdminCheckMeansAdminRole(actor: Actor)
    requires CheckAdmin(actor).Ok?
    ensures RoleOf(actor.groups) == Admin && actor.id > 0
  {
  }

  // ---------------------------------------------------------------------
  // Creating users

  datatype UserRequest = UserRequest(login: string, password: string, email: string, role: string)

  /** The role as the request gives it: trimmed and lowered. */
  function NormalizeRole(role: string): string
  {
    ToLower(Trim(role))
  }

  /** The group a role creates a user in: only students and teachers. */
  function RoleGroup(role: string): (r: Option<Group>)
    ensures r == Some(Students) <==> role == "student"
    ensures r == Some(Teachers) <==> role == "teacher"
    ensures r.None? <==> role != "student" && role != "teacher"
  {
    if role == "student" then Some(Students)
    else if role == "teacher" then Some(Teachers)
    else None
  }

  /** Some stored user has this login. */
  predicate LoginExists(users: map<int, UserRecord>, login: string)
  {
    exists id :: id in users && users[id].login == login
  }

  /** add's checks, in order: admin, a free login (checked before the
      required fields), the required fields, the role; and the record it
      creates under the id the store hands out. */
  function NewUser(actor: Actor, users: map<int, UserRecord>, req: UserRequest, id: int): (r: Result<UserRecord, UserError>)
    ensures r.Ok? <==>
      && CheckAdmin(actor).Ok?
      && !LoginExists(users, Trim(req.login))
      && !Falsy(Trim(req.login)) && !Falsy(Trim(req.password)) && !Falsy(Trim(req.email))
      && !Falsy(NormalizeRole(req.role))
      && RoleGroup(NormalizeRole(req.role)).Some?
    ensures CheckAdmin(actor).Ok? && LoginExists(users, Trim(req.login)) ==> r == Err(LoginTaken)
    ensures r.Ok? ==>
      && r.value.id == id
      && r.value.login == Trim(req.login)
      && r.value.password == Trim(req.password)
      && r.value.email == Trim(req.email)
      && r.value.active
      && (r.value.groups == {Students} || r.value.groups == {Teachers})
      && (r.value.groups == {Teachers} <==> NormalizeRole(req.role) == "teacher")
  {
    match CheckAdmin(actor)
    case Err(e) => Err(e)
    case Ok(_) =>
      var login := Trim(req.login);
      var password := Trim(req.password);
      var email := Trim(req.email);
      var role := NormalizeRole(req.role);
      if LoginExists(users, login) then Err(LoginTaken)
      else if Falsy(login) || Falsy(password) || Falsy(email) || Falsy(role) then Err(MissingParams)
      else
        match RoleGroup(role)
        case None => Err(BadRole)
        case Some(g) => Ok(UserRecord(id, login, password, email, "", "", "", {g}, true))
  }

  /** No request creates an admin, whatever its role field says. */
  lemma NoUserIsCreatedAdmin(actor: Actor, users: map<int, UserRecord>, req: UserRequest, id: int)
    requires NewUser(actor, users, req, id).Ok?
    ensures Admins !in NewUser(actor, users, req, id).value.groups
    ensures RoleOf(NewUser(actor, users, req, id).value.groups) != Admin
  {
    var g := NewUser(actor, users, req, id).value.groups;
    assert g == {Students} || g == {Teachers};
  }

  /** The role field is read without regard to surrounding blanks or case:
      any word padded with trim characters on either side is read as that
      word in lower case, and so selects the group the lower-case word does. */
  lemma PaddedRoleIsNormalized(p: string, w: string, q: string)
    requires AllTrimChars(p) && AllTrimChars(q)
    requires w != [] && !IsTrimChar(w[0]) && !IsTrimChar(w[|w| - 1])
    ensures NormalizeRole(p + w + q) == ToLower(w)
    ensures RoleGroup(NormalizeRole(p + w + q)) == RoleGroup(ToLower(w))
  {
    TrimPadded(p, w, q);
  }

  /** A role spelling "admin" in any mix of cases, with any padding, is
      refused. */
  lemma AdminRoleIsRefused(p: string, w: string, q: string)
    requires AllTrimChars(p) && AllTrimChars(q)
    requires ToLower(w) == "admin"
    ensures RoleGroup(NormalizeRole(p + w + q)).None?
  {
    var l := ToLower(w);
    assert l[0] == 'a' && l[4] == 'n';
    assert LowerChar(w[0]) == 'a' && LowerChar(w[|w| - 1]) == 'n';
    PaddedRoleIsNormalized(p, w, q);
  }


  // ---------------------------------------------------------------------
  // Deleting users

  /** delete's checks, in order: admin, an id, not the caller, and a record
      the store can delete. */
  function DeletePlan(actor: Actor, users: map<int, UserRecord>, id: int): (r: Result<int, UserError>)
    ensures r.Ok? <==> CheckAdmin(actor).Ok? && id != 0 && id != actor.id && id in users
    ensures CheckAdmin(actor).Ok? && id == actor.id ==> r == Err(SelfDelete)
    ensures r.Ok? ==> r.value == id
  {
    match CheckAdmin(actor)
    case Err(e) => Err(e)
    case Ok(self) =>
      if id == 0 then Err(MissingUserId)
      else if id == self then Err(SelfDelete)
      else if id !in users then Err(DeleteFailed)
      else Ok(id)
  }

  // ---------------------------------------------------------------------
  // Reading users

  /** getById: admin only; a missing record is a null result, not an error. */
  function GetById(actor: Actor, users: map<int, UserRecord>, id: int): (r: Result<Option<UserRecord>, UserError>)
    ensures r.Ok? <==> CheckAdmin(actor).Ok? && id != 0
    ensures r.Ok? ==> (r.value.Some? <==> id in users)
    ensures r.Ok? && r.value.Some? ==> r.value.value == users[id]
  {
    match CheckAdmin(actor)
    case Err(e) => Err(e)
    case Ok(_) =>
      if id == 0 then Err(MissingUserId)
      else if id in users then Ok(Some(users[id]))
      else Ok(None)
  }

  /** The filter of a list request: the request's own, or one group. */
  datatype UserFilter = RequestFilter | InGroup(group: Group)

  /** The identity store's list query: the requested page of the users that
      match a filter, and the number of all users that match it. */
  datatype UserEnv = UserEnv(page: UserFilter -> seq<UserRecord>, total: UserFilter -> int)

  /** A group filter returns only members of that group. */
  ghost predicate Honours(env: UserEnv)
  {
    forall g, k :: 0 <= k < |env.page(InGroup(g))| ==> g in env.page(InGroup(g))[k].groups
  }

  datatype UserListing = UserListing(count: int, total: int, items: seq<UserRecord>)

  /** Which list the caller asked for. */
  datatype ListKind = Everyone | TeachersOnly | StudentsOnly

  /** get keeps the request's filter; getTeachers and getStudents replace it
      with their group. */
  function KindFilter(kind: ListKind): (r: UserFilter)
    ensures kind == TeachersOnly <==> r == InGroup(Teachers)
    ensures kind == StudentsOnly <==> r == InGroup(Students)
    ensures kind == Everyone <==> r == RequestFilter
  {
    match kind
    case Everyone => RequestFilter
    case TeachersOnly => InGroup(Teachers)
    case StudentsOnly => InGroup(Students)
  }

  /** getList: every fetched record of the page, in order, the page size as
      count and the full match count as total. */
  method GetList(env: UserEnv, filter: UserFilter) returns (listing: UserListing)
    ensures listing.items == env.page(filter)
    ensures listing.count == |listing.items|
    ensures listing.total == env.total(filter)
  {
    var rows := env.page(filter);
    var items: seq<UserRecord> := [];
    var i := 0;
    while i < |rows|
      invariant 0 <= i <= |rows|
      invariant items == rows[..i]
    {
      items := items + [rows[i]];
      i := i + 1;
    }
    listing := UserListing(|items|, env.total(filter), items);
  }

  /** get, getTeachers and getStudents: admin only, then the list. */
  method List(actor: Actor, env: UserEnv, kind: ListKind) returns (r: Result<UserListing, UserError>)
    ensures r.Ok? <==> CheckAdmin(actor).Ok?
    ensures r.Err? ==> r.error == CheckAdmin(actor).error
    ensures r.Ok? ==> r.value.items == env.page(KindFilter(kind)) && r.value.count == |r.value.items|
    ensures r.Ok? ==> r.value.total == env.total(KindFilter(kind))
    ensures r.Ok? && Honours(env) && kind == TeachersOnly ==>
      forall k :: 0 <= k < |r.value.items| ==> Teachers in r.value.items[k].groups
    ensures r.Ok? && Honours(env) && kind == StudentsOnly ==>
      forall k :: 0 <= k < |r.value.items| ==> Students in r.value.items[k].groups
  {
    match CheckAdmin(actor)
    case Err(e) =>
      r := Err(e);
    case Ok(_) =>
      var listing := GetList(env, KindFilter(kind));
      r := Ok(listing);
  }

  /** Every operation of the user administration is refused to a caller
      who is not an admin. */
  lemma NonAdminIsRefused(actor: Actor, users: map<int, UserRecord>, req: UserRequest, id: int)
    requires Admins !in actor.groups
    ensures NewUser(actor, users, req, id).Err?
    ensures DeletePlan(actor, users, id).Err?
    ensures GetById(actor, users, id).Err?
  {
  }

  // ---------------------------------------------------------------------
  // The identity store

  /** No two stored users share a login. */
  ghost predicate UniqueLogins(users: map<int, UserRecord>)
  {
    forall a, b :: a in users && b in users && a != b ==> users[a].login != users[b].login
  }

  /** Storing a user whose login is free keeps logins unique. */
  lemma AddKeepsUniqueLogins(users: map<int, UserRecord>, id: int, u: UserRecord)
    requires UniqueLogins(users) && !LoginExists(users, u.login) && id !in users
    ensures UniqueLogins(users[id := u])
  {
    var after := users[id := u];
    forall a, b | a in after && b in after && a != b
      ensures after[a].login != after[b].login
    {
      if a == id {
        assert !(b in users && users[b].login == u.login);
      } else if b == id {
        assert !(a in users && users[a].login == u.login);
      }
    }
  }

  class UserStore {
    var users: map<int, UserRecord>
    var nextId: int

    ghost predicate Valid()
      reads this
    {
      && nextId > 0
      && KeyedById(users)
      && UniqueLogins(users)
      && forall id :: id in users ==> 0 < id < nextId
    }

    constructor ()
      ensures Valid() && users == map[]
    {
      users := map[];
      nextId := 1;
    }

    /** add: the checks, then the record stored under a fresh id. */
    method Add(actor: Actor, req: UserRequest) returns (r: Result<UserRecord, UserError>)
      requires Valid()
      modifies this
      ensures Valid()
      ensures NewUser(actor, old(users), req, old(nextId)).Err? ==>
        r == NewUser(actor, old(users), req, old(nextId)) && users == old(users) && nextId == old(nextId)
      ensures NewUser(actor, old(users), req, old(nextId)).Ok? ==>
        && r == NewUser(actor, old(users), req, old(nextId))
        && old(nextId) !in old(users)
        && users == old(users)[old(nextId) := r.value]
        && nextId == old(nextId) + 1
    {
      r := NewUser(actor, users, req, nextId);
      if r.Ok? {
        var u := r.value;
        AddKeepsUniqueLogins(users, nextId, u);
        users := users[nextId := u];
        nextId := nextId + 1;
      }
    }

    /** delete: the checks, then the record removed; the caller's own
      record is never removed. */
    method Delete(actor: Actor, id: int) returns (r: Result<bool, UserError>)
      requires Valid()
      modifies this
      ensures Valid() && nextId == old(nextId)
      ensures DeletePlan(actor, old(users), id).Err? ==>
        r == Err(DeletePlan(actor, old(users), id).error) && users == old(users)
      ensures DeletePlan(actor, old(users), id).Ok? ==> r == Ok(true) && users == old(users) - {id}
      ensures actor.id in old(users) ==> actor.id in users && users[actor.id] == old(users)[actor.id]
    {
      match DeletePlan(actor, users, id)
      case Err(e) =>
        r := Err(e);
      case Ok(_) =>
        users := users - {id};
        r := Ok(true);
    }
  }
}
