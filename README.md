# Course, submission and user administration: a Dafny model

This project models the authorization policy and workflow logic of a
learning-management API. Users belong to groups (admins, teachers,
students). The model covers three parts:

- **Courses** (`courses.dfy`): which courses each role is listed and in which
  shape. A full view carries the author record and the resolved roster. A
  restricted view carries a brief author and no roster. The module also
  covers reading one course, the admin listings by teacher or student,
  course creation, and enrolling or removing a student. Group membership is
  tested in a different order per operation, and the model keeps each order
  as the code has it:
  - the course list tests admin, then teacher, then student;
  - creation picks the author by testing teacher before admin;
  - enrollment changes hold any caller in the teachers group to the
    ownership rule, even an admin.
- **Submissions** (`submissions.dfy`): the submission list, a role filter
  followed by an ownership check that silently drops rows. Also reading one
  submission, handing work in, and one-shot grading:
  - hand-in checks: role, required fields, module access, no lessons, an
    inclusive deadline;
  - grading: a score bounded by the module's maximum and a partial update of
    score, status and comment.
- **Users** (`users.dfy`): the admin-only user administration:
  - creating students and teachers, never admins, with a free login;
  - deleting anyone but oneself;
  - listing users, one group at a time or all of them.

`php_strings.dfy` models PHP's `trim()`, `strtolower()` and the truthiness of
strings. `common.dfy` holds the shared vocabulary: groups, role resolution
and user records.

State the code changes in place is a Dafny `class`: `Courses.CourseStore`,
`Submissions.SubmissionStore` and `Users.UserStore`. Each holds a map from id
to row. Each operation that changes a store is a method whose contract ties
the new map to a pure decision function (`AddStudentPlan`, `ReviewPlan`,
`NewUser`, …). Each class's `Valid()` states the invariant its methods
preserve:
- rosters hold no duplicates;
- a submission is graded exactly when a positive score is stored;
- no two users share a login.

The list queries of the stores, PHP's `unserialize()`, and the access helpers
the three classes call are parameters of the model. The clock is an integer
`now`.

Where the written behaviour differs from a plain reading of the API, the model
follows the code:
- "0" is a false string in PHP, so an answer or login of "0" is refused, and
  a link of "0" is replaced by the answer.
- Course creation tests the raw description with a strict `=== ''`, so a
  description of "0" is accepted.
- A stored score of 0 does not count as "already scored", so such a
  submission can be reviewed again.
- A maximum score of 0 means there is no upper bound.
- Rosters are read back through user lookups, so enrolled ids without a user
  record disappear at the next enrollment write.

## Model

| member | source | states |
|---|---|---|
| PhpStrings.TrimSpec | local/api/classes/Submissions.php:102-103 | trim() leaves a string that neither starts nor ends with a blank; the result is empty exactly when the input is all blanks; a string without blanks is unchanged |
| PhpStrings.TrimPadded | local/api/classes/User.php:36-39 | trim() of a word padded on both sides with trim characters is exactly that word |
| PhpStrings.TrimIdempotent | local/api/classes/Submissions.php:102-103 | trimming twice is trimming once |
| Courses.PlainDescriptionRoundTrip | local/api/classes/Courses.php:10-22 | a plain-text description is shown exactly as creation stored it (mapping twice gives the original) |
| Courses.MapRow | local/api/classes/Courses.php:24-64 | a view keeps the id and name, and its description is the mapped description; a full view carries the resolved roster and its size, a restricted view carries neither; in a full view the author is the stored user record, in a restricted view it is the id and the three name parts, or all-empty parts when the record is missing; there is no author exactly when none is set or, in a full view, the record is missing |
| Courses.MapDescription | local/api/classes/Courses.php:10-22 | an empty or "0" description becomes empty; otherwise the TEXT entry of its unserialized form is used when there is one, and the description itself when there is not |
| Courses.ResolvedIds | local/api/classes/Courses.php:40-52 | reading a full view's roster back gives exactly the enrolled ids that have user records, in roster order |
| Courses.KnownIdsMembers | local/api/classes/Courses.php:42-51 | the roster read back holds exactly the enrolled ids that have a user record |
| Courses.FetchAndMap | local/api/classes/Courses.php:66-92 | the fetch loop returns every row of the query in order, each mapped, with count equal to the number of rows |
| Courses.ListScope | local/api/classes/Courses.php:96-114 | unauthenticated callers are refused; otherwise the filter and shape follow the first of admin, teacher, student the caller belongs to, and a caller in no group gets the filter id = 0 |
| Courses.Get | local/api/classes/Courses.php:96-120 | the course list is the role-scoped query's rows mapped in the role's shape, with their count |
| Courses.ListedCoursesAreViewable | local/api/classes/Courses.php:105-155 | every listed course is one the single-course read admits for that caller, and its view is restricted exactly for students |
| Courses.NoRoleListsNothing | local/api/classes/Courses.php:112-114 | a caller in no known group is listed no course |
| Courses.GetById | local/api/classes/Courses.php:124-158 | reading a course succeeds exactly when an id is given, the caller is logged in, the course exists and the caller is an admin, its author or an enrolled student; students get a restricted view, admins and teachers a full one; a missing id, a missing session and a missing course each have their own error, and so do a teacher who is not the author, a student who is not enrolled and a caller with no role |
| Courses.GetByRole | local/api/classes/Courses.php:174-188 | only admins list courses by teacher or student, an id is required, and the rows come back in full views |
| Courses.NewCourse | local/api/classes/Courses.php:192-232 | creation succeeds exactly when the caller is an admin or teacher, name, description and code are non-empty and the chosen author is a stored teacher; a teacher caller is always the author, an admin-only caller gets the requested author or itself; trimmed name and code and the mapped description are stored |
| Courses.NewCourseAsWritten | local/api/classes/Courses.php:210-224 | creation as written, with the author read through the admin-only user read: it only ever succeeds for admins, and then agrees with the intended check |
| Courses.TeacherCreationRefusedAsWritten | local/api/classes/Courses.php:210-219 | a teacher who is not an admin, with valid fields and a teacher record, is refused as written but accepted, as author, by the intended check |
| Courses.ManagedCourse | local/api/classes/Courses.php:244-263 | enrollment changes need both ids, an admin or teacher caller, a readable course, and for any caller in the teachers group, ownership of the course |
| Courses.AdminTeacherMustOwn | local/api/classes/Courses.php:255-263 | a caller who is both admin and teacher can read a course it does not own but cannot change its roster |
| Courses.AddStudentPlan | local/api/classes/Courses.php:244-277 | enrolling succeeds exactly when the course is managed, the student exists and is not already listed; the written roster is the known roster plus the student; an enrolled student gives AlreadyEnrolled |
| Courses.RemoveAll | local/api/classes/Courses.php:311 | removal keeps exactly the other ids and leaves a roster without the id unchanged |
| Courses.RemoveAllAppend | local/api/classes/Courses.php:311 | removal works piecewise, so the kept ids keep their order |
| Courses.RemoveStudentPlan | local/api/classes/Courses.php:284-317 | removal succeeds exactly when the course is managed and the student is on the known roster; the written roster is the known roster without the student, written as "no value" exactly when empty |
| Courses.AddStudentKeepsNoDup | local/api/classes/Courses.php:268-277 | enrolling keeps a duplicate-free roster duplicate-free |
| Courses.RemoveStudentKeepsNoDup | local/api/classes/Courses.php:305-317 | removing keeps a duplicate-free roster duplicate-free |
| Courses.AddThenRemoveRestores | local/api/classes/Courses.php:244-317 | enrolling a student and then removing the same student restores the roster, when every enrolled id has a user record |
| Courses.AddStudentDropsUnknownIds | local/api/classes/Courses.php:265-277 | an enrolled id without a user record is not in the roster the next enrollment writes |
| Courses.CourseStore.Add | local/api/classes/Courses.php:192-240 | creation inserts the new course under a fresh id with an empty roster and returns it in full view, leaving the store unchanged on error |
| Courses.CourseStore.AddStudent | local/api/classes/Courses.php:244-280 | the store's roster becomes the planned one and the course is returned in full view; rosters stay duplicate-free |
| Courses.CourseStore.RemoveStudent | local/api/classes/Courses.php:284-320 | the store's roster becomes the filtered one and the course is returned in full view; rosters stay duplicate-free |
| Submissions.MapSubmission | local/api/classes/Submissions.php:14-39 | a view keeps the id, score, status, answer, link, review comment, hand-in date and files of its row; it has a student exactly when the row names one that is stored, and then it is that record; the same holds for the module |
| Submissions.VisibleMembers | local/api/classes/Submissions.php:66-74 | the listed rows are exactly the queried rows that pass the ownership check |
| Submissions.VisibleAppend | local/api/classes/Submissions.php:66-74 | the ownership filter works piecewise, so listed rows keep query order |
| Submissions.VisibleCount | local/api/classes/Submissions.php:66-74 | a passing row is listed as often as queried, a failing one never |
| Submissions.ListPlan | local/api/classes/Submissions.php:43-62 | unauthenticated callers are refused; a requested module id of 0 or none at all means no module filter; students are pinned to their own rows; teachers' module filter is replaced by their courses' modules, or nothing is queried when there are none; others keep the requested module |
| Submissions.RequestedFilter | local/api/classes/Submissions.php:50-52 | the module filter is absent exactly when no module id or a module id of 0 is given, and is that one module otherwise |
| Submissions.Get | local/api/classes/Submissions.php:43-80 | the list is the mapped visible rows of the planned query with their count, and an empty list for a teacher without modules |
| Submissions.CollectVisible | local/api/classes/Submissions.php:66-75 | the collected items are exactly the mapped rows that pass the ownership check, in query order |
| Submissions.StudentListsOwnWork | local/api/classes/Submissions.php:54-56 | a student is listed only the student's own submissions |
| Submissions.TeacherListsAllowedModules | local/api/classes/Submissions.php:58-62 | a teacher is listed only submissions of the teacher's courses' modules, whatever module was requested |
| Submissions.GetById | local/api/classes/Submissions.php:84-93 | reading a submission succeeds exactly when the id is positive, the row exists and passes the ownership check |
| Submissions.ListedIffReadable | local/api/classes/Submissions.php:69-90 | a queried row is listed exactly when it can be read by id |
| Submissions.NewSubmission | local/api/classes/Submissions.php:97-130 | handing in succeeds exactly when the caller is a student with a module, a non-false answer, access to an existing non-lesson module and the deadline not passed; a lesson is always refused; the row is submitted, by the caller, with trimmed answer and link, the link defaulting to the answer |
| Submissions.DeadlineIsInclusive | local/api/classes/Submissions.php:115-121 | work handed in at the deadline is accepted and one moment later refused |
| Submissions.ApplyPatch | local/api/classes/Submissions.php:161-176 | a review sets the score, status and comment it is given and keeps each one it is not given; every other field is unchanged |
| Submissions.ReviewTarget | local/api/classes/Submissions.php:145-159 | a row can be reviewed exactly when the caller is a teacher or admin, the id is positive, the row exists and is the caller's, its module exists, it is not graded and no non-zero score is stored; the result is that row; a graded row is refused as already graded and a scored one as already scored |
| Submissions.ReviewPlan | local/api/classes/Submissions.php:143-174 | a given score must lie in 0..maximum (no upper bound when the maximum is 0) and sets the status to graded exactly when positive; without a score neither changes; a given comment is stored trimmed |
| Submissions.GradingIsOneShot | local/api/classes/Submissions.php:158-169 | after a review that set a positive score, no later review of the submission succeeds |
| Submissions.ZeroScoreStaysOpen | local/api/classes/Submissions.php:159-169 | after a review that set a score of 0, the same review passes again |
| Submissions.SubmissionStore.Add | local/api/classes/Submissions.php:97-138 | handing in inserts the new row under a fresh id; every stored row stays consistent |
| Submissions.SubmissionStore.Review | local/api/classes/Submissions.php:143-181 | a review patches only the reviewed row; every stored row stays graded exactly when its score is positive |
| Users.CheckAuth | local/api/classes/User.php:9-18 | the session user passes exactly when its id is positive |
| Users.CheckAdmin | local/api/classes/User.php:20-27 | the admin check passes exactly when the caller is logged in and in the admins group |
| Users.AdminCheckMeansAdminRole | local/api/classes/User.php:20-27 | whoever passes the admin check resolves to the admin role |
| Users.RoleGroup | local/api/classes/User.php:49-60 | only "student" and "teacher" map to a group, each to its own |
| Users.NewUser | local/api/classes/User.php:32-70 | creation succeeds exactly when the caller is an admin, the login is free, login, password, email and role are non-false and the role is student or teacher; a taken login is reported before missing fields; the new user is active and in exactly one group, the teachers group exactly for the teacher role |
| Users.NoUserIsCreatedAdmin | local/api/classes/User.php:49-60 | no request creates an admin |
| Users.PaddedRoleIsNormalized | local/api/classes/User.php:39-56 | any word surrounded by trim characters is read as the lower-case word, and selects the same group as that word |
| Users.AdminRoleIsRefused | local/api/classes/User.php:39-60 | a role spelling "admin" in any case and with any padding is refused |
| Users.AddKeepsUniqueLogins | local/api/classes/User.php:41-43 | storing a user whose login is free keeps logins unique |
| Users.DeletePlan | local/api/classes/User.php:84-100 | deletion succeeds exactly when the caller is an admin and the id is given, not the caller's own and stored; self-deletion gives its own error |
| Users.GetById | local/api/classes/User.php:139-150 | reading a user needs an admin and an id; a missing record is a null result, a stored one is returned as is |
| Users.KindFilter | local/api/classes/User.php:154-168 | the teacher and student lists use their group as the filter, replacing the request's |
| Users.GetList | local/api/classes/User.php:105-126 | the list is the fetched page in order, its size as count and the store's match count as total |
| Users.List | local/api/classes/User.php:128-168 | every list is for admins only; the teacher and student lists hold only members of their group |
| Users.NonAdminIsRefused | local/api/classes/User.php:32-150 | creation, deletion and reading by id are all refused to a non-admin |
| Users.UserStore.Add | local/api/classes/User.php:32-79 | creation stores the new user under a fresh id; logins stay unique |
| Users.UserStore.Delete | local/api/classes/User.php:84-103 | deletion removes exactly the one record, and the caller's own record is never removed |

## Findings

| source | as written | input that shows it | evidently intended | confidence | as-written member | corrected member |
|---|---|---|---|---|---|---|
| local/api/classes/Courses.php:218 | creation fetches the author through `User::getById`, which calls the admin check first (local/api/classes/User.php:141) | a caller in the teachers group only, with name, description and code filled in | a teacher creates courses as their author | not executed | Courses.NewCourseAsWritten, Courses.TeacherCreationRefusedAsWritten | Courses.NewCourse |

The same admin-only read is reached from `mapRow` (local/api/classes/Courses.php:29, 43)
and `addStudent` (local/api/classes/Courses.php:265). Everywhere except the finding
above, the model treats those reads as plain lookups in the user store.

## Left out

- Request routing, the test block and the login endpoints are not part of this model.
- Pagination and ordering of the list queries are left to the query parameters. The `limit` and `page` values are not modelled.
- The iblock-module loading failure (local/api/classes/Courses.php:68-70, 216) is not modelled, because it depends on the platform installation.
- Users.UserStore.Add: does not model `CUser::Add` rejecting a record (password policy, e-mail format), because that validation belongs to the identity platform.
- Courses.CourseStore.Add, Submissions.SubmissionStore.Add and Submissions.SubmissionStore.Review: writes to the stores always succeed. The failure of `addCourse`, and the `success` flag of the update, are not modelled.
- Users.UserStore.Delete: the only failure of `CUser::Delete` modelled is a missing record.
- The access helpers of the submission and user access classes are not part of this model. The model stands in for them as follows:
  - the session check is an id greater than 0;
  - role resolution is the first of admin, teacher, student;
  - the student and teacher-or-admin guards are role tests;
  - a submission id of 0 or less is refused;
  - the ownership check, the module access check and the teacher's allowed modules are parameters.
- PHP's `unserialize()` is a parameter that returns the TEXT entry of a serialized array, if any.
- The clock is an integer `now`. Date parsing and time zones are not modelled.
- The user and submission mappers are identity projections. The normalisation of the stored file field (local/api/classes/Submissions.php:16-21) is not modelled: files are a list of ids.
- Request values are taken as already cast to integers. PHP's `(int)` conversion of strings is not modelled.
- Submissions.MapSubmission: mapping a row never fails. The source also skips rows whose mapping throws (local/api/classes/Submissions.php:68-73); the model skips only rows that fail the ownership check.
- Courses.GetById: a course is found by a map lookup. The query's `items[0]` over possibly several rows per course is not modelled.
- `mb_strtolower` is modelled as ASCII lowering. For the comparison with "lesson" the two agree.
- Concurrency between requests is not modelled.
