/** Submissions: listing and reading a student's work under the ownership
    check, handing work in against a module, and one-shot grading. The
    submission store is a map from submission id to its row. */
module Submissions {
  import opened Common
  import opened PhpStrings

  /** The stored status values. */
  const SubmittedStatus := 1
  const GradedStatus := 2

  /** A submission as the store holds it. studentId or moduleId 0 means the
      field is empty; status 0 means no status is stored. */
  datatype Submission = Submission(
    id: int,
    studentId: int,
    moduleId: int,
    answer: string,
    link: string,
    status: int,
    score: Option<int>,
    reviewComment: Option<string>,
    dateSubmitted: int,
    files: seq<int>)

  /** A course module as the module catalog returns it: its type, optional
      deadline and maximum score (0 when none is set). */
  datatype Module = Module(id: int, kind: string, deadline: Option<int>, maxScore: int)

  datatype ModuleFilter = AnyModule | OneModule(moduleId: int) | ModuleIn(moduleIds: seq<int>)

  datatype SubmissionFilter = SubmissionFilter(modules: ModuleFilter, student: Option<int>)

  /** What the submission operations read but do not own, for the current
      user: the user store, the module catalog, the module access check
      (module id, user id), the ownership check on a row, the ids of the
      modules of the courses the user teaches, and the list query of the
      submission store. */
  datatype SubmissionEnv = SubmissionEnv(
    users: map<int, UserRecord>,
    modules: map<int, Module>,
    hasModuleAccess: (int, int) -> bool,
    owns: Submission -> bool,
    allowedModules: seq<int>,
    query: SubmissionFilter -> seq<Submission>)

  /** A submission as the API returns it, with its student and module looked up. */
  datatype SubmissionView = SubmissionView(
    id: int,
    student: Option<UserRecord>,
    moduleInfo: Option<Module>,
    score: Option<int>,
    status: int,
    answer: string,
    link: string,
    reviewComment: Option<string>,
    dateSubmitted: int,
    files: seq<int>)

  datatype Listing = Listing(count: int, items: seq<SubmissionView>)

  /** One constructor per exception the operations throw. */
  datatype SubmissionError =
    | NotAuthorized
    | StudentsOnly
    | TeachersOrAdminsOnly
    | MissingSubmissionId
    | SubmissionNotFound
    | NotOwner
    | MissingModuleOrAnswer
    | NoModuleAccess
    | ModuleNotFound
    | LessonNotSubmittable
    | DeadlinePassed
    | AlreadyGraded
    | ScoreAlreadySet
    | ScoreOutOfRange

  predicate Matches(f: SubmissionFilter, row: Submission)
  {
    && (match f.modules
        case AnyModule => true
        case OneModule(m) => row.moduleId == m
        case ModuleIn(ms) => row.moduleId in ms)
    && (f.student.Some? ==> row.studentId == f.student.value)
  }

  /** The list query returns only rows that match its filter. */
  ghost predicate Honours(env: SubmissionEnv)
  {
    forall f, k :: 0 <= k < |env.query(f)| ==> Matches(f, env.query(f)[k])
  }

  // ---------------------------------------------------------------------
  // Access guards

  /** The caller is logged in. */
  predicate Authenticated(actor: Actor)
  {
    actor.id > 0
  }

  /** Only students hand work in. */
  function AssertStudent(actor: Actor): Result<int, SubmissionError>
  {
    if !Authenticated(actor) then Err(NotAuthorized)
    else if RoleOf(actor.groups) != Student then Err(StudentsOnly)
    else Ok(actor.id)
  }

  /** Only teachers and admins grade. */
  function AssertTeacherOrAdmin(actor: Actor): Result<int, SubmissionError>
  {
    if !Authenticated(actor) then Err(NotAuthorized)
    else if RoleOf(actor.groups) != Teacher && RoleOf(actor.groups) != Admin then Err(TeachersOrAdminsOnly)
    else Ok(actor.id)
  }

  function RequireSubmissionId(id: int): Result<int, SubmissionError>
  {
    if id <= 0 then Err(MissingSubmissionId) else Ok(id)
  }

  // ---------------------------------------------------------------------
  // Reading

  /** The view of a row: its student and module looked up when set. */
  function MapSubmission(env: SubmissionEnv, row: Submission): (r: SubmissionView)
    ensures r.id == row.id && r.score == row.score && r.status == row.status
    ensures r.answer == row.answer && r.link == row.link && r.reviewComment == row.reviewComment
    ensures r.dateSubmitted == row.dateSubmitted && r.files == row.files
    ensures r.student.Some? <==> row.studentId != 0 && row.studentId in env.users
    ensures r.student.Some? ==> r.student.value == env.users[row.studentId]
    ensures r.moduleInfo.Some? <==> row.moduleId != 0 && row.moduleId in env.modules
    ensures r.moduleInfo.Some? ==> r.moduleInfo.value == env.modules[row.moduleId]
  {
    SubmissionView(
      row.id,
      if row.studentId != 0 && row.studentId in env.users then Some(env.users[row.studentId]) else None,
      if row.moduleId != 0 && row.moduleId in env.modules then Some(env.modules[row.moduleId]) else None,
      row.score,
      row.status,
      row.answer,
      row.link,
      row.reviewComment,
      row.dateSubmitted,
      row.files)
  }

  /** The views of a list of rows, in order. */
  function MapViews(env: SubmissionEnv, rows: seq<Submission>): (r: seq<SubmissionView>)
    ensures |r| == |rows|
    ensures forall k :: 0 <= k < |rows| ==> r[k] == MapSubmission(env, rows[k])
  {
    if rows == [] then [] else MapViews(env, rows[..|rows| - 1]) + [MapSubmission(env, rows[|rows| - 1])]
  }

  /** The rows that pass the ownership check, in query order. */
  function Visible(owns: Submission -> bool, rows: seq<Submission>): (r: seq<Submission>)
    ensures |r| <= |rows|
  {
    if rows == [] then []
    else
      var last := rows[|rows| - 1];
      Visible(owns, rows[..|rows| - 1]) + (if owns(last) then [last] else [])
  }

  /** The listed rows are exactly the queried rows that pass the check. */
  lemma {:induction false} VisibleMembers(owns: Submission -> bool, rows: seq<Submission>)
    ensures forall x :: x in Visible(owns, rows) <==> x in rows && owns(x)
  {
    if rows != [] {
      var init, last := rows[..|rows| - 1], rows[|rows| - 1];
      assert rows == init + [last];
      VisibleMembers(owns, init);
    }
  }

  /** The ownership filter works piecewise, so listed rows keep their order. */
  lemma {:induction false} VisibleAppend(owns: Submission -> bool, a: seq<Submission>, b: seq<Submission>)
    ensures Visible(owns, a + b) == Visible(owns, a) + Visible(owns, b)
  {
    if b == [] {
      assert a + b == a;
    } else {
      var init, last := b[..|b| - 1], b[|b| - 1];
      assert (a + b)[..|a + b| - 1] == a + init;
      assert (a + b)[|a + b| - 1] == last;
      var tail := if owns(last) then [last] else [];
      assert Visible(owns, a + b) == Visible(owns, a + init) + tail;
      assert Visible(owns, b) == Visible(owns, init) + tail;
      VisibleAppend(owns, a, init);
    }
  }

  /** A row that passes the check is listed as often as the query returns
      it; a row that fails it is not listed at all. */
  lemma {:induction false} VisibleCount(owns: Submission -> bool, rows: seq<Submission>, x: Submission)
    ensures multiset(Visible(owns, rows))[x] == if owns(x) then multiset(rows)[x] else 0
  {
    if rows != [] {
      var init, last := rows[..|rows| - 1], rows[|rows| - 1];
      assert rows == init + [last];
      VisibleCount(owns, init, x);
    }
  }

  /** The module filter a request asks for: a module id PHP's empty() treats
      as set, or no module filter at all (absent or 0). */
  function RequestedFilter(requestedModule: Option<int>): (r: ModuleFilter)
    ensures r == AnyModule <==> requestedModule.None? || requestedModule.value == 0
    ensures r != AnyModule ==> r == OneModule(requestedModule.value)
  {
    if requestedModule.Some? && requestedModule.value != 0 then OneModule(requestedModule.value) else AnyModule
  }

  /** The filter of the list: the requested module; for a student, the
      caller's own rows; for a teacher, the modules of the teacher's courses
      instead of the requested one, or nothing to query (None) when there are
      no such modules. */
  function ListPlan(actor: Actor, env: SubmissionEnv, requestedModule: Option<int>)
    : (r: Result<Option<SubmissionFilter>, SubmissionError>)
    ensures r.Err? <==> !Authenticated(actor)
    ensures r.Ok? && RoleOf(actor.groups) == Student ==>
      r.value.Some? && r.value.value.student == Some(actor.id)
    ensures r.Ok? && RoleOf(actor.groups) == Teacher ==>
      && (r.value.None? <==> env.allowedModules == [])
      && (r.value.Some? ==> r.value.value == SubmissionFilter(ModuleIn(env.allowedModules), None))
    ensures r.Ok? && RoleOf(actor.groups) != Teacher ==>
      && r.value.Some?
      && r.value.value.modules == RequestedFilter(requestedModule)
    ensures r.Ok? && RoleOf(actor.groups) != Student && r.value.Some? ==> r.value.value.student.None?
  {
    if !Authenticated(actor) then Err(NotAuthorized)
    else
      var role := RoleOf(actor.groups);
      var moduleFilter := RequestedFilter(requestedModule);
      var student := if role == Student then Some(actor.id) else None;
      if role == Teacher then
        if env.allowedModules == [] then Ok(None)
        else Ok(Some(SubmissionFilter(ModuleIn(env.allowedModules), student)))
      else Ok(Some(SubmissionFilter(moduleFilter, student)))
  }

  /** One more fetched row adds its view to the list exactly when it passes
      the ownership check. */
  lemma ListStep(env: SubmissionEnv, rows: seq<Submission>, i: int)
    requires 0 <= i < |rows|
    ensures MapViews(env, Visible(env.owns, rows[..i + 1])) ==
      MapViews(env, Visible(env.owns, rows[..i])) + (if env.owns(rows[i]) then [MapSubmission(env, rows[i])] else [])
  {
    assert rows[..i + 1][..i] == rows[..i];
    var kept := Visible(env.owns, rows[..i]);
    if env.owns(rows[i]) {
      assert Visible(env.owns, rows[..i + 1]) == kept + [rows[i]];
      assert MapViews(env, kept + [rows[i]]) == MapViews(env, kept) + [MapSubmission(env, rows[i])];
    } else {
      assert Visible(env.owns, rows[..i + 1]) == kept;
    }
  }

  /** The loop of get(): every fetched row that passes the ownership check
      is mapped, in query order; the others are skipped. */
  method CollectVisible(env: SubmissionEnv, rows: seq<Submission>) returns (items: seq<SubmissionView>)
    ensures items == MapViews(env, Visible(env.owns, rows))
  {
    items := [];
    var i := 0;
    while i < |rows|
      invariant 0 <= i <= |rows|
      invariant items == MapViews(env, Visible(env.owns, rows[..i]))
    {
      ListStep(env, rows, i);
      if env.owns(rows[i]) {
        items := items + [MapSubmission(env, rows[i])];
      }
      i := i + 1;
    }
    assert rows[..|rows|] == rows;
  }

  /** The submission list: the query, then each row that passes the
      ownership check mapped to its view; the rest are skipped silently. */
  method Get(actor: Actor, env: SubmissionEnv, requestedModule: Option<int>) returns (r: Result<Listing, SubmissionError>)
    ensures ListPlan(actor, env, requestedModule).Err? ==> r == Err(ListPlan(actor, env, requestedModule).error)
    ensures ListPlan(actor, env, requestedModule) == Ok(None) ==> r == Ok(Listing(0, []))
    ensures ListPlan(actor, env, requestedModule).Ok? && ListPlan(actor, env, requestedModule).value.Some? ==>
      var items := MapViews(env, Visible(env.owns, env.query(ListPlan(actor, env, requestedModule).value.value)));
      r == Ok(Listing(|items|, items))
  {
    var plan := ListPlan(actor, env, requestedModule);
    if plan.Err? {
      r := Err(plan.error);
    } else if plan.value.None? {
      r := Ok(Listing(0, []));
    } else {
      var items := CollectVisible(env, env.query(plan.value.value));
      r := Ok(Listing(|items|, items));
    }
  }

  /** What a student is listed is that student's own work. */
  lemma StudentListsOwnWork(actor: Actor, env: SubmissionEnv, requestedModule: Option<int>, row: Submission)
    requires Honours(env) && Authenticated(actor) && RoleOf(actor.groups) == Student
    ensures var filter := ListPlan(actor, env, requestedModule).value.value;
      row in Visible(env.owns, env.query(filter)) ==> row.studentId == actor.id
  {
    var filter := ListPlan(actor, env, requestedModule).value.value;
    var q := env.query(filter);
    VisibleMembers(env.owns, q);
    if row in Visible(env.owns, q) {
      var k :| 0 <= k < |q| && q[k] == row;
      assert Matches(filter, q[k]);
    }
  }

  /** What a teacher is listed belongs to the modules of the teacher's
      courses, whatever module the request named. */
  lemma TeacherListsAllowedModules(actor: Actor, env: SubmissionEnv, requestedModule: Option<int>, row: Submission)
    requires Honours(env) && Authenticated(actor) && RoleOf(actor.groups) == Teacher && env.allowedModules != []
    ensures var filter := ListPlan(actor, env, requestedModule).value.value;
      row in Visible(env.owns, env.query(filter)) ==> row.moduleId in env.allowedModules
  {
    var filter := ListPlan(actor, env, requestedModule).value.value;
    var q := env.query(filter);
    VisibleMembers(env.owns, q);
    if row in Visible(env.owns, q) {
      var k :| 0 <= k < |q| && q[k] == row;
      assert Matches(filter, q[k]);
    }
  }

  /** One submission by id, under the ownership check. */
  function GetById(env: SubmissionEnv, rows: map<int, Submission>, id: int): (r: Result<SubmissionView, SubmissionError>)
    ensures r.Ok? <==> id > 0 && id in rows && env.owns(rows[id])
    ensures r.Ok? ==> r.value == MapSubmission(env, rows[id])
    ensures id > 0 && id !in rows ==> r == Err(SubmissionNotFound)
  {
    match RequireSubmissionId(id)
    case Err(e) => Err(e)
    case Ok(_) =>
      if id !in rows then Err(SubmissionNotFound)
      else if !env.owns(rows[id]) then Err(NotOwner)
      else Ok(MapSubmission(env, rows[id]))
  }

  /** The list and the single read agree: a stored row the query returns is
      listed exactly when it can be read by id. */
  lemma ListedIffReadable(env: SubmissionEnv, rows: map<int, Submission>, queried: seq<Submission>, id: int)
    requires id > 0 && id in rows && rows[id] in queried
    ensures rows[id] in Visible(env.owns, queried) <==> GetById(env, rows, id).Ok?
  {
    VisibleMembers(env.owns, queried);
  }

  // ---------------------------------------------------------------------
  // Handing work in

  datatype SubmissionRequest = SubmissionRequest(moduleId: int, answer: string, link: string)

  /** The module type is "lesson", whatever its case. */
  predicate IsLesson(m: Module)
  {
    ToLower(m.kind) == "lesson"
  }

  /** The checks of handing work in, and the row it creates (with the id the
      store hands out) at time now. */
  function NewSubmission(actor: Actor, env: SubmissionEnv, req: SubmissionRequest, now: int, id: int)
    : (r: Result<Submission, SubmissionError>)
    ensures r.Ok? <==>
      && AssertStudent(actor).Ok?
      && req.moduleId != 0 && !Falsy(Trim(req.answer))
      && env.hasModuleAccess(req.moduleId, actor.id)
      && req.moduleId in env.modules
      && !IsLesson(env.modules[req.moduleId])
      && (env.modules[req.moduleId].deadline.Some? ==> now <= env.modules[req.moduleId].deadline.value)
    ensures req.moduleId in env.modules && IsLesson(env.modules[req.moduleId]) ==> r.Err?
    ensures r.Ok? ==>
      && r.value.id == id
      && r.value.status == SubmittedStatus
      && r.value.studentId == actor.id
      && r.value.moduleId == req.moduleId
      && r.value.answer == Trim(req.answer)
      && r.value.link == (if Falsy(Trim(req.link)) then Trim(req.answer) else Trim(req.link))
      && r.value.score.None? && r.value.reviewComment.None?
      && r.value.dateSubmitted == now
  {
    match AssertStudent(actor)
    case Err(e) => Err(e)
    case Ok(userId) =>
      var answer := Trim(req.answer);
      var link := Trim(req.link);
      if req.moduleId == 0 || Falsy(answer) then Err(MissingModuleOrAnswer)
      else if !env.hasModuleAccess(req.moduleId, userId) then Err(NoModuleAccess)
      else if req.moduleId !in env.modules then Err(ModuleNotFound)
      else
        var m := env.modules[req.moduleId];
        if IsLesson(m) then Err(LessonNotSubmittable)
        else if m.deadline.Some? && now > m.deadline.value then Err(DeadlinePassed)
        else Ok(Submission(id, userId, req.moduleId, answer, if Falsy(link) then answer else link,
                           SubmittedStatus, None, None, now, []))
  }

  /** Handing work in exactly at the deadline is accepted; one moment later
      it is refused. */
  lemma DeadlineIsInclusive(actor: Actor, env: SubmissionEnv, req: SubmissionRequest, id: int)
    requires NewSubmission(actor, env, req, 0, id).Ok? || NewSubmission(actor, env, req, 0, id) == Err(DeadlinePassed)
    requires env.modules[req.moduleId].deadline.Some?
    ensures var d := env.modules[req.moduleId].deadline.value;
      NewSubmission(actor, env, req, d, id).Ok? && NewSubmission(actor, env, req, d + 1, id) == Err(DeadlinePassed)
  {
  }

  // ---------------------------------------------------------------------
  // Grading

  datatype ReviewRequest = ReviewRequest(id: int, score: Option<int>, comment: Option<string>)

  /** The partial update a review writes: only the fields it sets. */
  datatype Patch = Patch(score: Option<int>, status: Option<int>, comment: Option<string>)

  function ApplyPatch(row: Submission, p: Patch): (r: Submission)
    ensures r.id == row.id && r.studentId == row.studentId && r.moduleId == row.moduleId
    ensures r.answer == row.answer && r.link == row.link
    ensures r.dateSubmitted == row.dateSubmitted && r.files == row.files
    ensures r.score == (if p.score.Some? then p.score else row.score)
    ensures r.status == (if p.status.Some? then p.status.value else row.status)
    ensures r.reviewComment == (if p.comment.Some? then p.comment else row.reviewComment)
  {
    row.(score := if p.score.Some? then p.score else row.score,
         status := if p.status.Some? then p.status.value else row.status,
         reviewComment := if p.comment.Some? then p.comment else row.reviewComment)
  }

  /** A stored score counts as set when PHP's empty() is false for it: a
      score of 0 does not. */
  predicate ScoreSet(score: Option<int>)
  {
    score.Some? && score.value != 0
  }

  /** A score passes when it is not negative and, if the module sets a
      positive maximum, not above it. */
  predicate ScoreInRange(score: int, maxScore: int)
  {
    score >= 0 && (maxScore > 0 ==> score <= maxScore)
  }

  /** The checks a row must pass before it can be reviewed, in order. */
  function ReviewTarget(actor: Actor, env: SubmissionEnv, rows: map<int, Submission>, id: int)
    : (r: Result<Submission, SubmissionError>)
    ensures r.Ok? <==>
      && AssertTeacherOrAdmin(actor).Ok?
      && id > 0 && id in rows && env.owns(rows[id])
      && rows[id].moduleId in env.modules
      && rows[id].status != GradedStatus && !ScoreSet(rows[id].score)
    ensures r.Ok? ==> r.value == rows[id]
    ensures AssertTeacherOrAdmin(actor).Err? ==> r == Err(AssertTeacherOrAdmin(actor).error)
    ensures (AssertTeacherOrAdmin(actor).Ok? && id > 0 && id in rows && env.owns(rows[id])
             && rows[id].moduleId in env.modules && rows[id].status == GradedStatus) ==> r == Err(AlreadyGraded)
    ensures (AssertTeacherOrAdmin(actor).Ok? && id > 0 && id in rows && env.owns(rows[id])
             && rows[id].moduleId in env.modules && rows[id].status != GradedStatus
             && ScoreSet(rows[id].score)) ==> r == Err(ScoreAlreadySet)
  {
    match AssertTeacherOrAdmin(actor)
    case Err(e) => Err(e)
    case Ok(_) =>
      match RequireSubmissionId(id)
      case Err(e) => Err(e)
      case Ok(_) =>
        if id !in rows then Err(SubmissionNotFound)
        else
          var row := rows[id];
          if !env.owns(row) then Err(NotOwner)
          else if row.moduleId !in env.modules then Err(ModuleNotFound)
          else if row.status == GradedStatus then Err(AlreadyGraded)
          else if ScoreSet(row.score) then Err(ScoreAlreadySet)
          else Ok(row)
  }

  /** review's decision: the partial update to write, or the error. */
  function ReviewPlan(actor: Actor, env: SubmissionEnv, rows: map<int, Submission>, req: ReviewRequest)
    : (r: Result<Patch, SubmissionError>)
    ensures r.Ok? ==> ReviewTarget(actor, env, rows, req.id).Ok?
    ensures r.Ok? && req.score.Some? ==>
      && ScoreInRange(req.score.value, env.modules[rows[req.id].moduleId].maxScore)
      && r.value.score == req.score
      && r.value.status == Some(if req.score.value > 0 then GradedStatus else SubmittedStatus)
    ensures r.Ok? && req.score.None? ==> r.value.score.None? && r.value.status.None?
    ensures r.Ok? ==> r.value.comment == (if req.comment.Some? then Some(Trim(req.comment.value)) else None)
    ensures (ReviewTarget(actor, env, rows, req.id).Ok? && req.score.Some?
             && !ScoreInRange(req.score.value, env.modules[rows[req.id].moduleId].maxScore)) ==> r == Err(ScoreOutOfRange)
    ensures (ReviewTarget(actor, env, rows, req.id).Ok?
             && (req.score.Some? ==> ScoreInRange(req.score.value, env.modules[rows[req.id].moduleId].maxScore))) ==> r.Ok?
  {
    match ReviewTarget(actor, env, rows, req.id)
    case Err(e) => Err(e)
    case Ok(row) =>
      var maxScore := env.modules[row.moduleId].maxScore;
      var comment := if req.comment.Some? then Some(Trim(req.comment.value)) else None;
      match req.score
      case None => Ok(Patch(None, None, comment))
      case Some(score) =>
        if score < 0 || (maxScore > 0 && score > maxScore) then Err(ScoreOutOfRange)
        else Ok(Patch(Some(score), Some(if score > 0 then GradedStatus else SubmittedStatus), comment))
  }

  /** The store after a patch is applied to row id. */
  function Patched(rows: map<int, Submission>, id: int, p: Patch): map<int, Submission>
    requires id in rows
  {
    rows[id := ApplyPatch(rows[id], p)]
  }

  /** Grading is one-shot: once a review has set a positive score, no later
      review of that submission succeeds, whoever asks and whatever it asks. */
  lemma GradingIsOneShot(actor: Actor, env: SubmissionEnv, rows: map<int, Submission>, req: ReviewRequest,
                         actor2: Actor, env2: SubmissionEnv, req2: ReviewRequest)
    requires ReviewPlan(actor, env, rows, req).Ok?
    requires req.score.Some? && req.score.value > 0
    requires req2.id == req.id
    ensures ReviewPlan(actor2, env2, Patched(rows, req.id, ReviewPlan(actor, env, rows, req).value), req2).Err?
  {
    var after := Patched(rows, req.id, ReviewPlan(actor, env, rows, req).value);
    assert after[req.id].status == GradedStatus;
  }

  /** The ownership check looks only at whose work a row is and for which
      module, not at its grading fields. */
  ghost predicate OwnershipByIdentity(env: SubmissionEnv)
  {
    forall a: Submission, b: Submission :: a.studentId == b.studentId && a.moduleId == b.moduleId ==> env.owns(a) == env.owns(b)
  }

  /** A review that records a score of 0 leaves the submission open: the
      same review passes the guards again. */
  lemma ZeroScoreStaysOpen(actor: Actor, env: SubmissionEnv, rows: map<int, Submission>, req: ReviewRequest)
    requires OwnershipByIdentity(env)
    requires ReviewPlan(actor, env, rows, req).Ok?
    requires req.score == Some(0)
    ensures ReviewPlan(actor, env, Patched(rows, req.id, ReviewPlan(actor, env, rows, req).value), req).Ok?
  {
    var after := Patched(rows, req.id, ReviewPlan(actor, env, rows, req).value);
    assert after[req.id].status == SubmittedStatus && after[req.id].score == Some(0);
    assert env.owns(after[req.id]) == env.owns(rows[req.id]);
    assert ReviewTarget(actor, env, after, req.id).Ok?;
  }

  // ---------------------------------------------------------------------
  // The submission store

  /** The status is Submitted or Graded, Graded exactly when a positive
      score is stored, and a stored score is never negative. */
  predicate Consistent(s: Submission)
  {
    && (s.status == SubmittedStatus || s.status == GradedStatus)
    && (s.status == GradedStatus <==> s.score.Some? && s.score.value > 0)
    && (s.score.Some? ==> s.score.value >= 0)
  }

  class SubmissionStore {
    var rows: map<int, Submission>
    var nextId: int

    ghost predicate Valid()
      reads this
    {
      && nextId > 0
      && forall id :: id in rows ==> 0 < id < nextId && rows[id].id == id && Consistent(rows[id])
    }

    constructor ()
      ensures Valid() && rows == map[]
    {
      rows := map[];
      nextId := 1;
    }

    /** Handing work in: the checks, then the insert under a fresh id. */
    method Add(actor: Actor, env: SubmissionEnv, req: SubmissionRequest, now: int) returns (r: Result<int, SubmissionError>)
      requires Valid()
      modifies this
      ensures Valid()
      ensures NewSubmission(actor, env, req, now, old(nextId)).Err? ==>
        r == Err(NewSubmission(actor, env, req, now, old(nextId)).error) && rows == old(rows) && nextId == old(nextId)
      ensures NewSubmission(actor, env, req, now, old(nextId)).Ok? ==>
        && r == Ok(old(nextId))
        && old(nextId) !in old(rows)
        && rows == old(rows)[old(nextId) := NewSubmission(actor, env, req, now, old(nextId)).value]
        && nextId == old(nextId) + 1
    {
      var plan := NewSubmission(actor, env, req, now, nextId);
      if plan.Err? {
        r := Err(plan.error);
      } else {
        assert Consistent(plan.value) && plan.value.id == nextId;
        rows := rows[nextId := plan.value];
        r := Ok(nextId);
        nextId := nextId + 1;
      }
    }

    /** Grading: the checks, then the partial update of the one row. */
    method Review(actor: Actor, env: SubmissionEnv, req: ReviewRequest) returns (r: Result<bool, SubmissionError>)
      requires Valid()
      modifies this
      ensures Valid() && nextId == old(nextId)
      ensures ReviewPlan(actor, env, old(rows), req).Err? ==>
        r == Err(ReviewPlan(actor, env, old(rows), req).error) && rows == old(rows)
      ensures ReviewPlan(actor, env, old(rows), req).Ok? ==>
        r == Ok(true) && rows == Patched(old(rows), req.id, ReviewPlan(actor, env, old(rows), req).value)
    {
      match ReviewPlan(actor, env, rows, req)
      case Err(e) =>
        r := Err(e);
      case Ok(p) =>
        rows := Patched(rows, req.id, p);
        r := Ok(true);
    }
  }
}
