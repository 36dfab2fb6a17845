/** Vocabulary shared by the course, submission and user operations:
    optional values and results, user groups and the role they resolve to,
    the calling user, and the records of the identity store. */
module Common {

  datatype Option<T> = None | Some(value: T)

  /** The outcome of an operation: a value, or the exception it throws. */
  datatype Result<T, E> = Ok(value: T) | Err(error: E)

  /** A group of the identity store. The three groups the API knows about are
      named; any other group is kept by its id. */
  datatype Group = Admins | Teachers | Students | OtherGroup(id: int)

  datatype Role = Admin | Teacher | Student | NoRole

  /** Role resolution: the first of admin, teacher, student whose group the
      user is in; a user in none of them has no role. */
  function RoleOf(groups: set<Group>): Role
  {
    if Admins in groups then Admin
    else if Teachers in groups then Teacher
    else if Students in groups then Student
    else NoRole
  }

  /** The current user of a request: the session's user id (0 when nobody is
      logged in) and the groups the session reports for that user. */
  datatype Actor = Actor(id: int, groups: set<Group>)

  /** A user record of the identity store. */
  datatype UserRecord = UserRecord(
    id: int,
    login: string,
    password: string,
    email: string,
    firstName: string,
    lastName: string,
    secondName: string,
    groups: set<Group>,
    active: bool)

  /** A store keyed by user id returns the record with that id. */
  ghost predicate KeyedById(users: map<int, UserRecord>)
  {
    forall id :: id in users ==> users[id].id == id
  }

  /** A sequence without repeated elements. */
  ghost predicate NoDup<T>(s: seq<T>)
  {
    forall i, j :: 0 <= i < j < |s| ==> s[i] != s[j]
  }

  lemma NoDupAppend<T>(s: seq<T>, x: T)
    ensures NoDup(s + [x]) <==> NoDup(s) && x !in s
  {
    var t := s + [x];
    if NoDup(s) && x !in s {
      forall i, j | 0 <= i < j < |t| ensures t[i] != t[j] {
        if j == |s| {
          assert t[i] == s[i];
        } else {
          assert t[i] == s[i] && t[j] == s[j];
        }
      }
    }
    if NoDup(t) {
      forall i, j | 0 <= i < j < |s| ensures s[i] != s[j] {
        assert s[i] == t[i] && s[j] == t[j];
      }
      forall k | 0 <= k < |s| ensures s[k] != x {
        assert s[k] == t[k] && x == t[|s|];
      }
    }
  }
}
