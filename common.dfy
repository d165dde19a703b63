/**
 * Role and username resolution and the refresh-token cleanup rule
 * (backend/helper/common.go). The database lookups become a snapshot of the
 * rows each query can find.
 */
module Common {
  import opened Wrappers
  import opened Model
  import opened RefreshTokens

  /**
   * What the role queries can see: users with an admin row, a company row, a
   * student row (any approval status) or a Google OAuth row; the students
   * among them whose approval is accepted; user names; and the first and last
   * names stored with the OAuth rows.
   */
  datatype Directory = Directory(
    admins: set<string>,
    companies: set<string>,
    students: set<string>,
    acceptedStudents: set<string>,
    oauthUsers: set<string>,
    usernames: map<string, string>,
    oauthNames: map<string, (string, string)>)

  /** The user holds `role`, a student being anyone in `studentRows`. */
  predicate Holds(d: Directory, userId: string, role: Role, studentRows: set<string>) {
    match role
    case Admin => userId in d.admins
    case Company => userId in d.companies
    case Student => userId in studentRows
    case Viewer => userId in d.oauthUsers
    case Unknown => false
  }

  /** Precedence of the roles: admin over company over student over viewer. */
  function Rank(role: Role): nat {
    match role
    case Admin => 4
    case Company => 3
    case Student => 2
    case Viewer => 1
    case Unknown => 0
  }

  /** The first of admin, company, student (one of `studentRows`), OAuth viewer the user holds. */
  function FirstRole(d: Directory, userId: string, studentRows: set<string>): (role: Role)
    ensures userId == "" ==> role == Unknown
    ensures role != Unknown ==> Holds(d, userId, role, studentRows)
  {
    if userId == "" then Unknown
    else if userId in d.admins then Admin
    else if userId in d.companies then Company
    else if userId in studentRows then Student
    else if userId in d.oauthUsers then Viewer
    else Unknown
  }

  /**
   * `GetRole` as written. The student query passes the approval status in the
   * struct, but the lookup keys on the primary key `UserID` alone, so any
   * student row, pending or rejected too, makes the user a student.
   */
  function GetRole(d: Directory, userId: string): (role: Role)
    ensures userId == "" ==> role == Unknown
    ensures role != Unknown ==> Holds(d, userId, role, d.students)
    ensures role == Student <==>
              userId != "" && userId !in d.admins && userId !in d.companies && userId in d.students
  {
    FirstRole(d, userId, d.students)
  }

  /**
   * The resolved role outranks every role the user holds, so it is the
   * highest-priority one; Unknown means the user holds none.
   */
  lemma GetRoleIsHighest(d: Directory, userId: string, other: Role)
    requires userId != "" && Holds(d, userId, other, d.students)
    ensures Rank(other) <= Rank(GetRole(d, userId))
    ensures GetRole(d, userId) != Unknown
  {
  }

  /** The evidently intended `GetRole`: only an accepted student row makes a student. */
  function GetRoleAccepted(d: Directory, userId: string): (role: Role)
    ensures userId == "" ==> role == Unknown
    ensures role != Unknown ==> Holds(d, userId, role, d.acceptedStudents)
    ensures role == Student <==>
              userId != "" && userId !in d.admins && userId !in d.companies && userId in d.acceptedStudents
  {
    FirstRole(d, userId, d.acceptedStudents)
  }

  /** The intended role is the highest one held, counting accepted students only. */
  lemma GetRoleAcceptedIsHighest(d: Directory, userId: string, other: Role)
    requires userId != "" && Holds(d, userId, other, d.acceptedStudents)
    ensures Rank(other) <= Rank(GetRoleAccepted(d, userId))
    ensures GetRoleAccepted(d, userId) != Unknown
  {
  }

  /**
   * As written, a user with only a pending student row is a student, while the
   * intended lookup does not know the user.
   */
  lemma PendingStudentIsStudentAsWritten()
    ensures var d := Directory({}, {}, {"u"}, {}, {}, map[], map[]);
            GetRole(d, "u") == Student && GetRoleAccepted(d, "u") == Unknown
  {
  }

  /** The two lookups agree for every user whose student row, if any, is accepted. */
  lemma GetRolesAgreeOffUnapproved(d: Directory, userId: string)
    requires userId in d.students <==> userId in d.acceptedStudents
    ensures GetRole(d, userId) == GetRoleAccepted(d, userId)
  {
  }

  /** `GetUsername`: the account name for company and admin, "first last" for viewer and student. */
  function GetUsername(d: Directory, userId: string, role: Role): (name: string)
    ensures userId == "" ==> name == "unknown"
    ensures userId != "" && (role == Company || role == Admin) && userId in d.usernames ==>
              name == d.usernames[userId]
    ensures userId != "" && (role == Viewer || role == Student) && userId in d.oauthNames ==>
              name == d.oauthNames[userId].0 + " " + d.oauthNames[userId].1
    ensures role == Unknown ==> name == "unknown"
  {
    if userId == "" then "unknown"
    else if (role == Company || role == Admin) && userId in d.usernames then d.usernames[userId]
    else if (role == Viewer || role == Student) && userId in d.oauthNames then
      d.oauthNames[userId].0 + " " + d.oauthNames[userId].1
    else "unknown"
  }

  /** Revoked tokens are kept this long for reuse detection. */
  const REVOKED_RETENTION: int := 7 * SECONDS_PER_DAY

  /** The delete condition of `CleanupExpiredTokens`. */
  predicate CleanupDeletes(t: RefreshToken, now: Time) {
    (t.expiresAt < now && t.revokedAt.None?)
    || (t.revokedAt.Some? && t.revokedAt.value < now - REVOKED_RETENTION)
  }

  /** `CleanupExpiredTokens`: the table after the delete, in the same order. */
  function CleanupExpiredTokens(ts: seq<RefreshToken>, now: Time): (kept: seq<RefreshToken>)
    ensures forall t :: t in kept ==> t in ts && !CleanupDeletes(t, now)
    ensures forall t :: t in ts && !CleanupDeletes(t, now) ==> t in kept
    ensures |kept| <= |ts|
  {
    if ts == [] then []
    else (if CleanupDeletes(ts[0], now) then [] else [ts[0]]) + CleanupExpiredTokens(ts[1..], now)
  }

  /** Cleanup never removes a token some user can still refresh with. */
  lemma {:induction false} CleanupKeepsActive(ts: seq<RefreshToken>, userId: string, now: Time)
    ensures CountActive(CleanupExpiredTokens(ts, now), userId, now) == CountActive(ts, userId, now)
  {
    if ts != [] {
      CleanupKeepsActive(ts[1..], userId, now);
      var head := if CleanupDeletes(ts[0], now) then [] else [ts[0]];
      CountActiveConcat(head, CleanupExpiredTokens(ts[1..], now), userId, now);
    }
  }

  lemma {:induction false} CountActiveConcat(a: seq<RefreshToken>, b: seq<RefreshToken>, userId: string, now: Time)
    ensures CountActive(a + b, userId, now) == CountActive(a, userId, now) + CountActive(b, userId, now)
  {
    if a == [] {
      assert a + b == b;
    } else {
      assert (a + b)[1..] == a[1..] + b;
      CountActiveConcat(a[1..], b, userId, now);
    }
  }

  /** A token revoked within the last seven days survives cleanup, so its reuse is still detected. */
  lemma CleanupKeepsRecentlyRevoked(ts: seq<RefreshToken>, t: RefreshToken, now: Time)
    requires t in ts && t.revokedAt.Some? && t.revokedAt.value >= now - REVOKED_RETENTION
    ensures t in CleanupExpiredTokens(ts, now)
  {
  }
}
