/** Courses: which courses a user sees and in which shape, course creation,
    and the enrollment list updates. The course store is a map from course id
    to its stored row; the user store is a map from user id to its record. */
module Courses {
  import opened Common
  import opened PhpStrings
  import Users

  /** A course as the store holds it. authorId 0 means no author is set;
      students is the stored list of enrolled user ids. */
  datatype CourseRow = CourseRow(
    id: int,
    name: string,
    description: string,
    code: string,
    authorId: int,
    students: seq<int>)

  /** The four user fields a restricted view keeps of a person. */
  datatype Brief = Brief(id: int, firstName: string, lastName: string, secondName: string)

  datatype AuthorView = FullAuthor(user: UserRecord) | BriefAuthor(brief: Brief)

  /** The course as the API returns it. students and studentsCount are null
      (None) in a restricted view. */
  datatype CourseView = CourseView(
    id: int,
    name: string,
    description: string,
    author: Option<AuthorView>,
    modulesCount: int,
    students: Option<seq<UserRecord>>,
    studentsCount: Option<int>)

  /** The list filters the course queries use. */
  datatype CourseFilter = AllCourses | ByAuthor(authorId: int) | ByStudent(studentId: int) | ById(id: int)

  /** What the course operations read but do not own: the user store, PHP's
      unserialize() reduced to "the TEXT entry of a serialized array, if
      any", and the paginated, ordered list query of the course store. */
  datatype CourseEnv = CourseEnv(
    users: map<int, UserRecord>,
    unserializeText: string -> Option<string>,
    query: CourseFilter -> seq<CourseRow>)

  datatype Listing = Listing(count: int, items: seq<CourseView>)

  /** One constructor per exception the operations throw. */
  datatype CourseError =
    | Unauthenticated
    | MissingCourseId
    | CourseNotFound
    | NotYourCourse
    | NotEnrolledStudent
    | AccessDenied
    | AdminRequired
    | MissingRoleId
    | AdminOrTeacherOnly
    | RequiredFields
    | AuthorNotFound
    | AuthorNotTeacher
    | MissingIds
    | StudentNotFound
    | AlreadyEnrolled
    | StudentNotInCourse
    | UserReadDenied

  predicate Matches(f: CourseFilter, row: CourseRow)
  {
    match f
    case AllCourses => true
    case ByAuthor(a) => row.authorId == a
    case ByStudent(s) => s in row.students
    case ById(i) => row.id == i
  }

  /** The list query returns only stored courses (positive ids) that match
      its filter. */
  ghost predicate Honours(env: CourseEnv)
  {
    forall f, k :: 0 <= k < |env.query(f)| ==> env.query(f)[k].id > 0 && Matches(f, env.query(f)[k])
  }

  // ---------------------------------------------------------------------
  // Projection

  /** The description as shown: empty for an empty (or "0") value, the TEXT
      entry when the value is a serialized array holding one, else the value
      itself. */
  function MapDescription(env: CourseEnv, description: string): (r: string)
    ensures Falsy(description) ==> r == ""
    ensures !Falsy(description) && env.unserializeText(description).Some? ==> r == env.unserializeText(description).value
    ensures !Falsy(description) && env.unserializeText(description).None? ==> r == description
  {
    if Falsy(description) then ""
    else match env.unserializeText(description)
      case Some(text) => text
      case None => description
  }

  /** A description that is plain text reads back as it was written: what
      course creation stores is what the course views show. */
  lemma PlainDescriptionRoundTrip(env: CourseEnv, description: string)
    requires !Falsy(description) && env.unserializeText(description).None?
    ensures MapDescription(env, MapDescription(env, description)) == description
  {
  }

  /** The user records of the enrolled ids, in roster order, skipping ids the
      user store does not know. */
  function ResolvedStudents(users: map<int, UserRecord>, ids: seq<int>): (r: seq<UserRecord>)
    ensures |r| <= |ids|
    ensures forall k :: 0 <= k < |r| ==> r[k] in users.Values
  {
    if ids == [] then []
    else
      var last := ids[|ids| - 1];
      ResolvedStudents(users, ids[..|ids| - 1]) + (if last in users then [users[last]] else [])
  }

  /** The ids of a list of user records, in order. */
  function StudentIds(us: seq<UserRecord>): (r: seq<int>)
    ensures |r| == |us|
  {
    if us == [] then [] else StudentIds(us[..|us| - 1]) + [us[|us| - 1].id]
  }

  /** The enrolled ids the user store knows, in roster order. */
  function KnownIds(users: map<int, UserRecord>, ids: seq<int>): (r: seq<int>)
    ensures |r| <= |ids|
  {
    if ids == [] then []
    else
      var last := ids[|ids| - 1];
      KnownIds(users, ids[..|ids| - 1]) + (if last in users then [last] else [])
  }

  /** The known ids are exactly the enrolled ids that have a user record. */
  lemma {:induction false} KnownIdsMembers(users: map<int, UserRecord>, ids: seq<int>)
    ensures forall x :: x in KnownIds(users, ids) <==> x in ids && x in users
  {
    if ids != [] {
      var init, last := ids[..|ids| - 1], ids[|ids| - 1];
      assert ids == init + [last];
      KnownIdsMembers(users, init);
    }
  }

  lemma StudentIdsAppend(us: seq<UserRecord>, vs: seq<UserRecord>)
    requires |vs| <= 1
    ensures StudentIds(us + vs) == StudentIds(us) + StudentIds(vs)
  {
    if |vs| == 1 {
      assert (us + vs)[..|us + vs| - 1] == us;
      assert vs[..0] == [];
      assert StudentIds(vs) == [vs[0].id];
    } else {
      assert us + vs == us;
    }
  }

  /** Reading a full view's roster back gives exactly the known enrolled ids. */
  lemma {:induction false} ResolvedIds(users: map<int, UserRecord>, ids: seq<int>)
    requires KeyedById(users)
    ensures StudentIds(ResolvedStudents(users, ids)) == KnownIds(users, ids)
  {
    if ids != [] {
      var init, last := ids[..|ids| - 1], ids[|ids| - 1];
      ResolvedIds(users, init);
      StudentIdsAppend(ResolvedStudents(users, init), if last in users then [users[last]] else []);
    }
  }

  /** When every enrolled id has a user record, nothing is skipped. */
  lemma {:induction false} KnownIdsAll(users: map<int, UserRecord>, ids: seq<int>)
    requires forall k :: 0 <= k < |ids| ==> ids[k] in users
    ensures KnownIds(users, ids) == ids
  {
    if ids != [] {
      KnownIdsAll(users, ids[..|ids| - 1]);
      assert ids == ids[..|ids| - 1] + [ids[|ids| - 1]];
    }
  }

  lemma {:induction false} KnownIdsNoDup(users: map<int, UserRecord>, ids: seq<int>)
    requires NoDup(ids)
    ensures NoDup(KnownIds(users, ids))
  {
    if ids != [] {
      var init, last := ids[..|ids| - 1], ids[|ids| - 1];
      assert ids == init + [last];
      NoDupAppend(init, last);
      KnownIdsNoDup(users, init);
      KnownIdsMembers(users, init);
      if last in users {
        NoDupAppend(KnownIds(users, init), last);
      } else {
        assert KnownIds(users, ids) == KnownIds(users, init);
      }
    }
  }

  /** The author as a view shows it: the whole record in a full view, the
      four brief fields in a restricted one (zero and empty when the record is
      missing), and null when the course has no author or, in a full view,
      when the record is missing. */
  function ProjectAuthor(env: CourseEnv, authorId: int, full: bool): Option<AuthorView>
  {
    if authorId == 0 then None
    else if full then
      if authorId in env.users then Some(FullAuthor(env.users[authorId])) else None
    else if authorId in env.users then
      var u := env.users[authorId];
      Some(BriefAuthor(Brief(u.id, u.firstName, u.lastName, u.secondName)))
    else Some(BriefAuthor(Brief(0, "", "", "")))
  }

  /** The course view: full views carry the resolved roster and its size;
      restricted views carry neither, and only a brief author. */
  function MapRow(env: CourseEnv, row: CourseRow, full: bool): (r: CourseView)
    ensures r.id == row.id && r.modulesCount == 0
    ensures full ==> r.students == Some(ResolvedStudents(env.users, row.students))
                     && r.studentsCount == Some(|r.students.value|)
    ensures !full ==> r.students.None? && r.studentsCount.None?
    ensures r.name == row.name && r.description == MapDescription(env, row.description)
    ensures r.author.Some? ==> (r.author.value.FullAuthor? <==> full)
    ensures r.author.None? <==> row.authorId == 0 || (full && row.authorId !in env.users)
    ensures (row.authorId != 0 && row.authorId in env.users && full) ==>
      r.author == Some(FullAuthor(env.users[row.authorId]))
    ensures (row.authorId != 0 && row.authorId in env.users && !full) ==>
      var u := env.users[row.authorId];
      r.author == Some(BriefAuthor(Brief(u.id, u.firstName, u.lastName, u.secondName)))
    ensures (row.authorId != 0 && row.authorId !in env.users && !full) ==>
      r.author == Some(BriefAuthor(Brief(0, "", "", "")))
  {
    var students := ResolvedStudents(env.users, row.students);
    CourseView(
      row.id,
      row.name,
      MapDescription(env, row.description),
      ProjectAuthor(env, row.authorId, full),
      0,
      if full then Some(students) else None,
      if full then Some(|students|) else None)
  }

  predicate IsRestricted(v: CourseView)
  {
    v.students.None? && v.studentsCount.None? && (v.author.Some? ==> v.author.value.BriefAuthor?)
  }

  /** mapRow over a list of rows, in order. */
  function MapAll(env: CourseEnv, rows: seq<CourseRow>, full: bool): (r: seq<CourseView>)
    ensures |r| == |rows|
    ensures forall k :: 0 <= k < |rows| ==> r[k] == MapRow(env, rows[k], full)
  {
    if rows == [] then [] else MapAll(env, rows[..|rows| - 1], full) + [MapRow(env, rows[|rows| - 1], full)]
  }

  /** Mapping one more fetched row extends the mapped prefix by its view. */
  lemma MapAllStep(env: CourseEnv, rows: seq<CourseRow>, i: int, full: bool)
    requires 0 <= i < |rows|
    ensures MapAll(env, rows[..i + 1], full) == MapAll(env, rows[..i], full) + [MapRow(env, rows[i], full)]
  {
    assert rows[..i + 1][..i] == rows[..i];
  }

  /** The fetch loop of the course list query followed by mapRow on each
      fetched row; count is the number of rows fetched. */
  method FetchAndMap(env: CourseEnv, filter: CourseFilter, full: bool) returns (listing: Listing)
    ensures listing.items == MapAll(env, env.query(filter), full)
    ensures listing.count == |listing.items| == |env.query(filter)|
  {
    var rows := env.query(filter);
    var items: seq<CourseView> := [];
    var i := 0;
    while i < |rows|
      invariant 0 <= i <= |rows|
      invariant items == MapAll(env, rows[..i], full)
    {
      MapAllStep(env, rows, i, full);
      items := items + [MapRow(env, rows[i], full)];
      i := i + 1;
    }
    assert rows[..|rows|] == rows;
    listing := Listing(|items|, items);
  }

  // ---------------------------------------------------------------------
  // Visibility

  /** The list filter and view shape of each role: everything and full for
      an admin, own courses and full for a teacher, enrolled courses and
      restricted for a student, and the filter id = 0 for anyone else. */
  function RoleScope(actorId: int, role: Role): (CourseFilter, bool)
  {
    match role
    case Admin => (AllCourses, true)
    case Teacher => (ByAuthor(actorId), true)
    case Student => (ByStudent(actorId), false)
    case NoRole => (ById(0), false)
  }

  /** The scope the course list uses, decided by group membership tested in
      the order admin, teacher, student. */
  function ListScope(actor: Actor): (r: Result<(CourseFilter, bool), CourseError>)
    ensures r.Err? <==> actor.id == 0
    ensures r.Err? ==> r.error == Unauthenticated
    ensures r.Ok? ==> r.value == RoleScope(actor.id, RoleOf(actor.groups))
  {
    if actor.id == 0 then Err(Unauthenticated)
    else if Admins in actor.groups then Ok((AllCourses, true))
    else if Teachers in actor.groups then Ok((ByAuthor(actor.id), true))
    else if Students in actor.groups then Ok((ByStudent(actor.id), false))
    else Ok((ById(0), false))
  }

  /** The course list of the current user. */
  method Get(actor: Actor, env: CourseEnv) returns (r: Result<Listing, CourseError>)
    ensures actor.id == 0 ==> r == Err(Unauthenticated)
    ensures actor.id != 0 ==>
      var scope := RoleScope(actor.id, RoleOf(actor.groups));
      r == Ok(Listing(|env.query(scope.0)|, MapAll(env, env.query(scope.0), scope.1)))
  {
    var scope := ListScope(actor);
    match scope
    case Err(e) =>
      r := Err(e);
    case Ok(s) =>
      var listing := FetchAndMap(env, s.0, s.1);
      r := Ok(listing);
  }

  /** Whether the single-course read lets a user see a course, by role. */
  predicate MayView(actor: Actor, row: CourseRow)
  {
    match RoleOf(actor.groups)
    case Admin => true
    case Teacher => row.authorId == actor.id
    case Student => actor.id in row.students
    case NoRole => false
  }

  /** Every course the list shows is one the single-course read would show
      the user, in the same shape: restricted exactly for students. */
  lemma {:induction false} ListedCoursesAreViewable(actor: Actor, courses: map<int, CourseRow>, env: CourseEnv, k: int)
    requires Honours(env) && actor.id != 0
    requires 0 <= k < |env.query(RoleScope(actor.id, RoleOf(actor.groups)).0)|
    requires var row := env.query(RoleScope(actor.id, RoleOf(actor.groups)).0)[k];
      row.id != 0 && row.id in courses && courses[row.id] == row
    ensures var scope := RoleScope(actor.id, RoleOf(actor.groups));
      var row := env.query(scope.0)[k];
      && MayView(actor, row)
      && GetById(actor, courses, env, row.id) == Ok(MapAll(env, env.query(scope.0), scope.1)[k])
      && (IsRestricted(MapAll(env, env.query(scope.0), scope.1)[k]) <==> RoleOf(actor.groups) == Student)
  {
    var scope := RoleScope(actor.id, RoleOf(actor.groups));
    var row := env.query(scope.0)[k];
    assert Matches(scope.0, row);
    var v := MapAll(env, env.query(scope.0), scope.1)[k];
    assert v == MapRow(env, row, scope.1);
  }


  /** A user in no known group is listed no course. */
  lemma NoRoleListsNothing(actor: Actor, env: CourseEnv)
    requires Honours(env) && RoleOf(actor.groups) == NoRole
    ensures env.query(RoleScope(actor.id, NoRole).0) == []
  {
    var q := env.query(ById(0));
    assert RoleScope(actor.id, NoRole).0 == ById(0);
    assert |q| > 0 ==> q[0].id > 0 && Matches(ById(0), q[0]);
  }

  /** One course by id. */
  function GetById(actor: Actor, courses: map<int, CourseRow>, env: CourseEnv, id: int): (r: Result<CourseView, CourseError>)
    ensures r.Ok? <==> id != 0 && actor.id != 0 && id in courses && MayView(actor, courses[id])
    ensures r.Ok? ==> r.value == MapRow(env, courses[id], RoleOf(actor.groups) != Student)
    ensures id == 0 ==> r == Err(MissingCourseId)
    ensures id != 0 && actor.id == 0 ==> r == Err(Unauthenticated)
    ensures id != 0 && actor.id != 0 && id !in courses ==> r == Err(CourseNotFound)
    ensures (id != 0 && actor.id != 0 && id in courses && RoleOf(actor.groups) == Teacher
             && courses[id].authorId != actor.id) ==> r == Err(NotYourCourse)
    ensures (id != 0 && actor.id != 0 && id in courses && RoleOf(actor.groups) == Student
             && actor.id !in courses[id].students) ==> r == Err(NotEnrolledStudent)
    ensures (id != 0 && actor.id != 0 && id in courses && RoleOf(actor.groups) == NoRole) ==> r == Err(AccessDenied)
  {
    if id == 0 then Err(MissingCourseId)
    else if actor.id == 0 then Err(Unauthenticated)
    else
      var full := Admins in actor.groups || Teachers in actor.groups;
      if id !in courses then Err(CourseNotFound)
      else
        var course := courses[id];
        if Admins in actor.groups then Ok(MapRow(env, course, full))
        else if Teachers in actor.groups then
          if course.authorId != actor.id then Err(NotYourCourse) else Ok(MapRow(env, course, full))
        else if Students in actor.groups then
          if actor.id !in course.students then Err(NotEnrolledStudent) else Ok(MapRow(env, course, false))
        else Err(AccessDenied)
  }

  /** The two admin listings: courses by author or by enrolled student. */
  datatype RoleProperty = AuthorProperty | StudentsProperty

  function RoleFilter(property: RoleProperty, id: int): CourseFilter
  {
    match property
    case AuthorProperty => ByAuthor(id)
    case StudentsProperty => ByStudent(id)
  }

  /** Courses of a given teacher or student, for admins only, in full views. */
  method GetByRole(actor: Actor, env: CourseEnv, property: RoleProperty, id: int) returns (r: Result<Listing, CourseError>)
    ensures Admins !in actor.groups ==> r == Err(AdminRequired)
    ensures Admins in actor.groups && id == 0 ==> r == Err(MissingRoleId)
    ensures Admins in actor.groups && id != 0 ==>
      var rows := env.query(RoleFilter(property, id));
      r == Ok(Listing(|rows|, MapAll(env, rows, true)))
  {
    if Admins !in actor.groups {
      r := Err(AdminRequired);
    } else if id == 0 {
      r := Err(MissingRoleId);
    } else {
      var listing := FetchAndMap(env, RoleFilter(property, id), true);
      r := Ok(listing);
    }
  }

  // ---------------------------------------------------------------------
  // Creation

  datatype CourseRequest = CourseRequest(name: string, description: string, code: string, authorId: Option<int>)

  /** The fields a new course is stored with. */
  datatype CourseDraft = CourseDraft(name: string, description: string, code: string, authorId: int)

  /** The author of a new course: a caller in the teachers group is always
      the author, even if also an admin; otherwise (an admin) the requested
      author, defaulting to the caller. */
  function ChosenAuthor(actor: Actor, requested: Option<int>): int
  {
    if Teachers in actor.groups then actor.id
    else if requested.Some? then requested.value
    else actor.id
  }

  /** The checks of course creation and the fields it stores. */
  function NewCourse(actor: Actor, env: CourseEnv, req: CourseRequest): (r: Result<CourseDraft, CourseError>)
    ensures r.Ok? <==>
      && actor.id != 0
      && (Admins in actor.groups || Teachers in actor.groups)
      && Trim(req.name) != "" && req.description != "" && Trim(req.code) != ""
      && ChosenAuthor(actor, req.authorId) in env.users
      && Teachers in env.users[ChosenAuthor(actor, req.authorId)].groups
    ensures r.Ok? ==> r.value.authorId in env.users && Teachers in env.users[r.value.authorId].groups
    ensures r.Ok? && Teachers in actor.groups ==> r.value.authorId == actor.id
    ensures r.Ok? && Teachers !in actor.groups ==>
      r.value.authorId == (if req.authorId.Some? then req.authorId.value else actor.id)
    ensures r.Ok? ==> r.value.name == Trim(req.name) && r.value.code == Trim(req.code)
                      && r.value.description == MapDescription(env, req.description)
  {
    if actor.id == 0 then Err(Unauthenticated)
    else if Admins !in actor.groups && Teachers !in actor.groups then Err(AdminOrTeacherOnly)
    else
      var name := Trim(req.name);
      var code := Trim(req.code);
      if name == "" || req.description == "" || code == "" then Err(RequiredFields)
      else
        var authorId := ChosenAuthor(actor, req.authorId);
        if authorId !in env.users then Err(AuthorNotFound)
        else if Teachers !in env.users[authorId].groups then Err(AuthorNotTeacher)
        else Ok(CourseDraft(name, MapDescription(env, req.description), code, authorId))
  }

  /** Course creation as written: the author record is fetched through the
      user administration's read by id, which is for admins only, so any
      refusal of that read ends the creation. */
  function NewCourseAsWritten(actor: Actor, env: CourseEnv, req: CourseRequest): (r: Result<CourseDraft, CourseError>)
    ensures r.Ok? ==> Admins in actor.groups
    ensures r.Ok? ==> r == NewCourse(actor, env, req)
  {
    if actor.id == 0 then Err(Unauthenticated)
    else if Admins !in actor.groups && Teachers !in actor.groups then Err(AdminOrTeacherOnly)
    else
      var name := Trim(req.name);
      var code := Trim(req.code);
      if name == "" || req.description == "" || code == "" then Err(RequiredFields)
      else
        var authorId := ChosenAuthor(actor, req.authorId);
        match Users.GetById(actor, env.users, authorId)
        case Err(_) => Err(UserReadDenied)
        case Ok(None) => Err(AuthorNotFound)
        case Ok(Some(author)) =>
          if Teachers !in author.groups then Err(AuthorNotTeacher)
          else Ok(CourseDraft(name, MapDescription(env, req.description), code, authorId))
  }

  /** The discrepancy: a teacher who is not an admin, with every field
      filled in and a teacher record of its own, is refused by the code as
      written and accepted by the intended check. */
  lemma TeacherCreationRefusedAsWritten(actor: Actor, env: CourseEnv, req: CourseRequest)
    requires actor.id > 0 && Teachers in actor.groups && Admins !in actor.groups
    requires Trim(req.name) != "" && req.description != "" && Trim(req.code) != ""
    requires actor.id in env.users && Teachers in env.users[actor.id].groups
    ensures NewCourseAsWritten(actor, env, req) == Err(UserReadDenied)
    ensures NewCourse(actor, env, req).Ok? && NewCourse(actor, env, req).value.authorId == actor.id
  {
  }

  // ---------------------------------------------------------------------
  // Enrollment

  /** The author id a full view exposes: the author record's id, or 0 when
      the view has no author (PHP reads that as null, which never equals a
      logged-in user's id). */
  function AuthorIdOf(view: CourseView): int
  {
    match view.author
    case Some(FullAuthor(u)) => u.id
    case Some(BriefAuthor(b)) => b.id
    case None => 0
  }

  /** The enrolled ids as read back from a view's roster. */
  function Roster(view: CourseView): seq<int>
  {
    if view.students.Some? then StudentIds(view.students.value) else []
  }

  /** The checks addStudent and removeStudent share: both ids given, an admin
      or teacher caller, the course readable by the caller, and, for a caller
      in the teachers group (admin or not), the caller is its author. */
  function ManagedCourse(actor: Actor, courses: map<int, CourseRow>, env: CourseEnv, courseId: int, studentId: int)
    : (r: Result<CourseView, CourseError>)
    requires KeyedById(env.users)
    ensures r.Ok? <==>
      && courseId != 0 && studentId != 0 && actor.id != 0
      && (Admins in actor.groups || Teachers in actor.groups)
      && courseId in courses
      && (Teachers in actor.groups ==> courses[courseId].authorId == actor.id && actor.id in env.users)
    ensures r.Ok? ==> r.value == MapRow(env, courses[courseId], true)
  {
    if courseId == 0 || studentId == 0 then Err(MissingIds)
    else if Admins !in actor.groups && Teachers !in actor.groups then Err(AdminOrTeacherOnly)
    else match GetById(actor, courses, env, courseId)
      case Err(e) => Err(e)
      case Ok(view) =>
        if Teachers in actor.groups && AuthorIdOf(view) != actor.id then Err(NotYourCourse)
        else Ok(view)
  }

  /** A caller in both the admins and the teachers group is held to the
      teacher's ownership rule, although the course read lets it through. */
  lemma AdminTeacherMustOwn(actor: Actor, courses: map<int, CourseRow>, env: CourseEnv, courseId: int, studentId: int)
    requires KeyedById(env.users)
    requires Admins in actor.groups && Teachers in actor.groups
    requires courseId != 0 && studentId != 0 && actor.id != 0 && courseId in courses
    requires courses[courseId].authorId != actor.id
    ensures GetById(actor, courses, env, courseId).Ok?
    ensures ManagedCourse(actor, courses, env, courseId, studentId) == Err(NotYourCourse)
  {
  }

  /** addStudent's decision: the new roster, or the error. */
  function AddStudentPlan(actor: Actor, courses: map<int, CourseRow>, env: CourseEnv, courseId: int, studentId: int)
    : (r: Result<seq<int>, CourseError>)
    requires KeyedById(env.users)
    ensures r.Ok? <==>
      && ManagedCourse(actor, courses, env, courseId, studentId).Ok?
      && studentId in env.users
      && studentId !in KnownIds(env.users, courses[courseId].students)
    ensures r.Ok? ==> r.value == KnownIds(env.users, courses[courseId].students) + [studentId]
    ensures (ManagedCourse(actor, courses, env, courseId, studentId).Ok? && studentId in env.users
             && studentId in courses[courseId].students) ==> r == Err(AlreadyEnrolled)
  {
    match ManagedCourse(actor, courses, env, courseId, studentId)
    case Err(e) => Err(e)
    case Ok(view) =>
      if studentId !in env.users then Err(StudentNotFound)
      else
        ResolvedIds(env.users, courses[courseId].students);
        KnownIdsMembers(env.users, courses[courseId].students);
        var students := Roster(view);
        if studentId in students then Err(AlreadyEnrolled)
        else Ok(students + [studentId])
  }

  /** The value written for the roster property: an empty list is written as
      "no value". */
  datatype RosterValue = RosterIds(ids: seq<int>) | NoValue

  /** The roster the store holds after a write. */
  function Stored(v: RosterValue): seq<int>
  {
    match v
    case RosterIds(ids) => ids
    case NoValue => []
  }

  /** The list without any occurrence of x, the rest in order. */
  function RemoveAll(s: seq<int>, x: int): (r: seq<int>)
    ensures |r| <= |s|
    ensures forall y :: y in r <==> y in s && y != x
    ensures x !in s ==> r == s
  {
    if s == [] then []
    else
      var last := s[|s| - 1];
      assert s == s[..|s| - 1] + [last];
      RemoveAll(s[..|s| - 1], x) + (if last == x then [] else [last])
  }

  /** Removal works piecewise, so the kept elements keep their order. */
  lemma {:induction false} RemoveAllAppend(a: seq<int>, b: seq<int>, x: int)
    ensures RemoveAll(a + b, x) == RemoveAll(a, x) + RemoveAll(b, x)
  {
    if b != [] {
      var init, last := b[..|b| - 1], b[|b| - 1];
      assert (a + b)[..|a + b| - 1] == a + init;
      assert (a + b)[|a + b| - 1] == last;
      var tail := if last == x then [] else [last];
      assert RemoveAll(a + b, x) == RemoveAll(a + init, x) + tail;
      assert RemoveAll(b, x) == RemoveAll(init, x) + tail;
      RemoveAllAppend(a, init, x);
    } else {
      assert a + b == a;
    }
  }

  lemma {:induction false} RemoveAllNoDup(s: seq<int>, x: int)
    requires NoDup(s)
    ensures NoDup(RemoveAll(s, x))
  {
    if s != [] {
      var init, last := s[..|s| - 1], s[|s| - 1];
      assert s == init + [last];
      NoDupAppend(init, last);
      RemoveAllNoDup(init, x);
      if last != x {
        NoDupAppend(RemoveAll(init, x), last);
      }
    }
  }

  /** removeStudent's decision: the roster value to write, or the error. */
  function RemoveStudentPlan(actor: Actor, courses: map<int, CourseRow>, env: CourseEnv, courseId: int, studentId: int)
    : (r: Result<RosterValue, CourseError>)
    requires KeyedById(env.users)
    ensures r.Ok? <==>
      && ManagedCourse(actor, courses, env, courseId, studentId).Ok?
      && studentId in KnownIds(env.users, courses[courseId].students)
    ensures r.Ok? ==> Stored(r.value) == RemoveAll(KnownIds(env.users, courses[courseId].students), studentId)
    ensures r.Ok? ==> (r.value == NoValue <==> Stored(r.value) == [])
    ensures (ManagedCourse(actor, courses, env, courseId, studentId).Ok?
             && studentId !in courses[courseId].students) ==> r == Err(StudentNotInCourse)
  {
    match ManagedCourse(actor, courses, env, courseId, studentId)
    case Err(e) => Err(e)
    case Ok(view) =>
      ResolvedIds(env.users, courses[courseId].students);
      KnownIdsMembers(env.users, courses[courseId].students);
      var students := Roster(view);
      if studentId !in students then Err(StudentNotInCourse)
      else
        var kept := RemoveAll(students, studentId);
        if kept == [] then Ok(NoValue) else Ok(RosterIds(kept))
  }

  /** The course store after the roster of courseId is replaced. */
  function WithRoster(courses: map<int, CourseRow>, courseId: int, students: seq<int>): map<int, CourseRow>
    requires courseId in courses
  {
    courses[courseId := courses[courseId].(students := students)]
  }

  /** Enrolling keeps a duplicate-free roster duplicate-free. */
  lemma AddStudentKeepsNoDup(actor: Actor, courses: map<int, CourseRow>, env: CourseEnv, courseId: int, studentId: int)
    requires KeyedById(env.users)
    requires AddStudentPlan(actor, courses, env, courseId, studentId).Ok?
    requires NoDup(courses[courseId].students)
    ensures NoDup(AddStudentPlan(actor, courses, env, courseId, studentId).value)
  {
    var known := KnownIds(env.users, courses[courseId].students);
    KnownIdsNoDup(env.users, courses[courseId].students);
    NoDupAppend(known, studentId);
  }

  /** Removing keeps a duplicate-free roster duplicate-free. */
  lemma RemoveStudentKeepsNoDup(actor: Actor, courses: map<int, CourseRow>, env: CourseEnv, courseId: int, studentId: int)
    requires KeyedById(env.users)
    requires RemoveStudentPlan(actor, courses, env, courseId, studentId).Ok?
    requires NoDup(courses[courseId].students)
    ensures NoDup(Stored(RemoveStudentPlan(actor, courses, env, courseId, studentId).value))
  {
    KnownIdsNoDup(env.users, courses[courseId].students);
    RemoveAllNoDup(KnownIds(env.users, courses[courseId].students), studentId);
  }

  /** Enrolling a student and then removing the same student restores the
      roster, provided every enrolled id has a user record. */
  lemma AddThenRemoveRestores(actor: Actor, courses: map<int, CourseRow>, env: CourseEnv, courseId: int, studentId: int)
    requires KeyedById(env.users)
    requires AddStudentPlan(actor, courses, env, courseId, studentId).Ok?
    requires forall k :: 0 <= k < |courses[courseId].students| ==> courses[courseId].students[k] in env.users
    ensures var after := WithRoster(courses, courseId, AddStudentPlan(actor, courses, env, courseId, studentId).value);
      var undo := RemoveStudentPlan(actor, after, env, courseId, studentId);
      undo.Ok? && Stored(undo.value) == courses[courseId].students
  {
    var before := courses[courseId].students;
    KnownIdsAll(env.users, before);
    var added := before + [studentId];
    assert AddStudentPlan(actor, courses, env, courseId, studentId).value == added;
    var after := WithRoster(courses, courseId, added);
    KnownIdsAll(env.users, added);
    RemoveAllAppend(before, [studentId], studentId);
    assert RemoveAll([studentId], studentId) == [];
    assert ManagedCourse(actor, after, env, courseId, studentId).Ok?;
  }

  /** The roster is read back through the user store, so enrolled ids that
      have no user record are dropped by the next enrollment write. */
  lemma AddStudentDropsUnknownIds(actor: Actor, courses: map<int, CourseRow>, env: CourseEnv, courseId: int, studentId: int, unknownId: int)
    requires KeyedById(env.users)
    requires AddStudentPlan(actor, courses, env, courseId, studentId).Ok?
    requires unknownId in courses[courseId].students && unknownId !in env.users
    ensures unknownId !in AddStudentPlan(actor, courses, env, courseId, studentId).value
  {
    KnownIdsMembers(env.users, courses[courseId].students);
  }

  /** A roster write leaves a managed course readable, in full, by the
      caller who managed it. */
  lemma ManagedStaysReadable(actor: Actor, courses: map<int, CourseRow>, env: CourseEnv, courseId: int, studentId: int, students: seq<int>)
    requires KeyedById(env.users)
    requires ManagedCourse(actor, courses, env, courseId, studentId).Ok?
    ensures var after := WithRoster(courses, courseId, students);
      GetById(actor, after, env, courseId) == Ok(MapRow(env, after[courseId], true))
  {
    var after := WithRoster(courses, courseId, students);
    assert after[courseId].authorId == courses[courseId].authorId;
    assert RoleOf(actor.groups) == Admin || RoleOf(actor.groups) == Teacher;
  }

  // ---------------------------------------------------------------------
  // The course store

  class CourseStore {
    var courses: map<int, CourseRow>
    var nextId: int

    /** Ids are positive, below the next id to hand out, and key their rows;
        no roster lists a student twice. */
    ghost predicate Valid()
      reads this
    {
      && nextId > 0
      && forall id :: id in courses ==> 0 < id < nextId && courses[id].id == id && NoDup(courses[id].students)
    }

    constructor ()
      ensures Valid() && courses == map[]
    {
      courses := map[];
      nextId := 1;
    }

    /** Course creation: the checks, then the insert with an empty roster,
        then the new course read back in full. */
    method Add(actor: Actor, env: CourseEnv, req: CourseRequest) returns (r: Result<CourseView, CourseError>)
      requires Valid()
      modifies this
      ensures Valid()
      ensures NewCourse(actor, env, req).Err? ==>
        r == Err(NewCourse(actor, env, req).error) && courses == old(courses) && nextId == old(nextId)
      ensures NewCourse(actor, env, req).Ok? ==>
        var d := NewCourse(actor, env, req).value;
        var row := CourseRow(old(nextId), d.name, d.description, d.code, d.authorId, []);
        && old(nextId) !in old(courses)
        && courses == old(courses)[old(nextId) := row]
        && nextId == old(nextId) + 1
        && r == Ok(MapRow(env, row, true))
    {
      match NewCourse(actor, env, req)
      case Err(e) =>
        r := Err(e);
      case Ok(d) =>
        var id := nextId;
        var row := CourseRow(id, d.name, d.description, d.code, d.authorId, []);
        courses := courses[id := row];
        nextId := nextId + 1;
        r := GetById(actor, courses, env, id);
    }

    /** addStudent: the checks, then the whole new roster written back, then
        the course read back. */
    method AddStudent(actor: Actor, env: CourseEnv, courseId: int, studentId: int) returns (r: Result<CourseView, CourseError>)
      requires Valid() && KeyedById(env.users)
      modifies this
      ensures Valid() && nextId == old(nextId)
      ensures AddStudentPlan(actor, old(courses), env, courseId, studentId).Err? ==>
        r == Err(AddStudentPlan(actor, old(courses), env, courseId, studentId).error) && courses == old(courses)
      ensures AddStudentPlan(actor, old(courses), env, courseId, studentId).Ok? ==>
        && courses == WithRoster(old(courses), courseId, AddStudentPlan(actor, old(courses), env, courseId, studentId).value)
        && r == Ok(MapRow(env, courses[courseId], true))
    {
      var plan := AddStudentPlan(actor, courses, env, courseId, studentId);
      if plan.Err? {
        r := Err(plan.error);
      } else {
        AddStudentKeepsNoDup(actor, courses, env, courseId, studentId);
        ManagedStaysReadable(actor, courses, env, courseId, studentId, plan.value);
        courses := WithRoster(courses, courseId, plan.value);
        r := GetById(actor, courses, env, courseId);
      }
    }

    /** removeStudent: the checks, then the filtered roster written back
        (an empty one as "no value"), then the course read back. */
    method RemoveStudent(actor: Actor, env: CourseEnv, courseId: int, studentId: int) returns (r: Result<CourseView, CourseError>)
      requires Valid() && KeyedById(env.users)
      modifies this
      ensures Valid() && nextId == old(nextId)
      ensures RemoveStudentPlan(actor, old(courses), env, courseId, studentId).Err? ==>
        r == Err(RemoveStudentPlan(actor, old(courses), env, courseId, studentId).error) && courses == old(courses)
      ensures RemoveStudentPlan(actor, old(courses), env, courseId, studentId).Ok? ==>
        && courses == WithRoster(old(courses), courseId, Stored(RemoveStudentPlan(actor, old(courses), env, courseId, studentId).value))
        && r == Ok(MapRow(env, courses[courseId], true))
    {
      var plan := RemoveStudentPlan(actor, courses, env, courseId, studentId);
      if plan.Err? {
        r := Err(plan.error);
      } else {
        var students := Stored(plan.value);
        RemoveStudentKeepsNoDup(actor, courses, env, courseId, studentId);
        ManagedStaysReadable(actor, courses, env, courseId, studentId, students);
        courses := WithRoster(courses, courseId, students);
        r := GetById(actor, courses, env, courseId);
      }
    }
  }
}
