/**
 * The application table (backend/repository/gorm/application_repository.go):
 * clearing a job's applications by status, updating one application's
 * status, and the three read paths with their joins, filters and orders.
 * Profile tables are those of the identity model; the database's ORDER BY
 * is modelled by an insertion sort on the same keys.
 */
module ApplicationRepository {
  import opened Wrappers
  import opened Text
  import opened Model
  import I = IdentityService
  import JobRepository

  // ---------------------------------------------------------------------
  // Clearing
  // ---------------------------------------------------------------------

  /** The caller's flags say which statuses are to be deleted. */
  predicate Included(s: ApplicationStatus, pending: bool, rejected: bool, accepted: bool) {
    match s
    case JobApplicationPending => pending
    case JobApplicationRejected => rejected
    case JobApplicationAccepted => accepted
  }

  predicate ClearedBy(a: JobApplication, jobId: nat, pending: bool, rejected: bool, accepted: bool) {
    a.jobId == jobId && Included(a.status, pending, rejected, accepted)
  }

  /** The applications left after `ClearJobApplications`, in table order. */
  function Remaining(apps: seq<JobApplication>, jobId: nat, pending: bool, rejected: bool, accepted: bool): (rest: seq<JobApplication>)
    ensures |rest| <= |apps|
    ensures forall a :: a in rest <==> a in apps && !ClearedBy(a, jobId, pending, rejected, accepted)
    decreases |apps|
  {
    if apps == [] then []
    else
      var last := apps[|apps| - 1];
      var init := Remaining(apps[..|apps| - 1], jobId, pending, rejected, accepted);
      assert apps == apps[..|apps| - 1] + [last];
      if ClearedBy(last, jobId, pending, rejected, accepted) then init else init + [last]
  }

  /** The applications to one job, in table order. */
  function OfJob(apps: seq<JobApplication>, jobId: nat): seq<JobApplication>
    decreases |apps|
  {
    if apps == [] then []
    else
      var last := apps[|apps| - 1];
      OfJob(apps[..|apps| - 1], jobId) + (if last.jobId == jobId then [last] else [])
  }

  /** Clearing one job leaves every other job's applications exactly as they were. */
  lemma {:induction false} ClearKeepsOtherJobs(apps: seq<JobApplication>, jobId: nat, other: nat, pending: bool, rejected: bool, accepted: bool)
    requires other != jobId
    ensures OfJob(Remaining(apps, jobId, pending, rejected, accepted), other) == OfJob(apps, other)
    decreases |apps|
  {
    if apps != [] {
      var init := apps[..|apps| - 1];
      var last := apps[|apps| - 1];
      ClearKeepsOtherJobs(init, jobId, other, pending, rejected, accepted);
      var rest := Remaining(init, jobId, pending, rejected, accepted);
      if !ClearedBy(last, jobId, pending, rejected, accepted) {
        assert (rest + [last])[..|rest + [last]| - 1] == rest;
      }
    }
  }

  /** With no status flag set, nothing is deleted. */
  lemma {:induction false} ClearNothing(apps: seq<JobApplication>, jobId: nat)
    ensures Remaining(apps, jobId, false, false, false) == apps
    decreases |apps|
  {
    if apps != [] {
      ClearNothing(apps[..|apps| - 1], jobId);
      assert apps == apps[..|apps| - 1] + [apps[|apps| - 1]];
    }
  }

  /** With every flag set, the job has no applications left. */
  lemma ClearEverything(apps: seq<JobApplication>, jobId: nat)
    ensures OfJob(Remaining(apps, jobId, true, true, true), jobId) == []
  {
    NoneOfJob(Remaining(apps, jobId, true, true, true), jobId);
  }

  lemma {:induction false} NoneOfJob(apps: seq<JobApplication>, jobId: nat)
    requires forall a :: a in apps ==> a.jobId != jobId
    ensures OfJob(apps, jobId) == []
    decreases |apps|
  {
    if apps != [] {
      assert apps[|apps| - 1] in apps;
      forall a | a in apps[..|apps| - 1] ensures a.jobId != jobId {
        assert a in apps;
      }
      NoneOfJob(apps[..|apps| - 1], jobId);
    }
  }

  /** (job, user) is the primary key: no two rows share it. */
  predicate KeysDistinct(apps: seq<JobApplication>) {
    forall i, j :: 0 <= i < j < |apps| ==> apps[i].jobId != apps[j].jobId || apps[i].userId != apps[j].userId
  }

  lemma {:induction false} RemainingKeysDistinct(apps: seq<JobApplication>, jobId: nat, pending: bool, rejected: bool, accepted: bool)
    requires KeysDistinct(apps)
    ensures KeysDistinct(Remaining(apps, jobId, pending, rejected, accepted))
    decreases |apps|
  {
    if apps != [] {
      var init := apps[..|apps| - 1];
      var last := apps[|apps| - 1];
      RemainingKeysDistinct(init, jobId, pending, rejected, accepted);
      var rest := Remaining(init, jobId, pending, rejected, accepted);
      if !ClearedBy(last, jobId, pending, rejected, accepted) {
        var r := rest + [last];
        forall i, j | 0 <= i < j < |r| ensures r[i].jobId != r[j].jobId || r[i].userId != r[j].userId {
          if j == |r| - 1 {
            assert r[i] in init;
            var k :| 0 <= k < |init| && init[k] == r[i];
            assert apps[k] == r[i] && apps[|apps| - 1] == r[j];
          }
        }
      }
    }
  }

  // ---------------------------------------------------------------------
  // Status update
  // ---------------------------------------------------------------------

  predicate IsKey(a: JobApplication, jobId: nat, userId: string) {
    a.jobId == jobId && a.userId == userId
  }

  predicate HasApplication(apps: seq<JobApplication>, jobId: nat, userId: string) {
    exists k :: 0 <= k < |apps| && IsKey(apps[k], jobId, userId)
  }

  function Updated(a: JobApplication, jobId: nat, userId: string, status: ApplicationStatus): (r: JobApplication)
    ensures r.jobId == a.jobId && r.userId == a.userId
  {
    if IsKey(a, jobId, userId) then a.(status := status) else a
  }

  /** The table after `UPDATE … SET status WHERE job_id AND user_id`. */
  function WithStatus(apps: seq<JobApplication>, jobId: nat, userId: string, status: ApplicationStatus): seq<JobApplication> {
    seq(|apps|, k requires 0 <= k < |apps| => Updated(apps[k], jobId, userId, status))
  }

  /** The addressed application gets the status; every other row is as it was. */
  lemma UpdateSetsStatus(apps: seq<JobApplication>, jobId: nat, userId: string, status: ApplicationStatus, k: nat)
    requires k < |apps|
    ensures |WithStatus(apps, jobId, userId, status)| == |apps|
    ensures IsKey(apps[k], jobId, userId) ==> WithStatus(apps, jobId, userId, status)[k] == apps[k].(status := status)
    ensures !IsKey(apps[k], jobId, userId) ==> WithStatus(apps, jobId, userId, status)[k] == apps[k]
  {
  }

  /** An update that matches no row changes nothing (and is reported as not found). */
  lemma UpdateMissingIsNoop(apps: seq<JobApplication>, jobId: nat, userId: string, status: ApplicationStatus)
    requires !HasApplication(apps, jobId, userId)
    ensures WithStatus(apps, jobId, userId, status) == apps
  {
  }

  /** Setting the same status twice is the same as setting it once. */
  lemma UpdateIdempotent(apps: seq<JobApplication>, jobId: nat, userId: string, status: ApplicationStatus)
    ensures WithStatus(WithStatus(apps, jobId, userId, status), jobId, userId, status) == WithStatus(apps, jobId, userId, status)
  {
  }

  /** The `job_applications` table. */
  class ApplicationStore {
    var applications: seq<JobApplication>

    ghost predicate Valid()
      reads this
    {
      KeysDistinct(applications)
    }

    constructor ()
      ensures Valid() && applications == []
    {
      applications := [];
    }

    /**
     * `ClearJobApplications`: deletes the job's applications whose status
     * is flagged and returns how many rows went.
     */
    method ClearJobApplications(jobId: nat, pending: bool, rejected: bool, accepted: bool) returns (deleted: nat)
      requires Valid()
      modifies this
      ensures Valid()
      ensures applications == Remaining(old(applications), jobId, pending, rejected, accepted)
      ensures deleted == |old(applications)| - |applications|
    {
      var kept: seq<JobApplication> := [];
      deleted := 0;
      var i := 0;
      while i < |applications|
        invariant 0 <= i <= |applications|
        invariant kept == Remaining(applications[..i], jobId, pending, rejected, accepted)
        invariant deleted == i - |kept|
      {
        assert applications[..i + 1][..i] == applications[..i];
        if ClearedBy(applications[i], jobId, pending, rejected, accepted) {
          deleted := deleted + 1;
        } else {
          kept := kept + [applications[i]];
        }
        i := i + 1;
      }
      assert applications[..i] == applications;
      RemainingKeysDistinct(applications, jobId, pending, rejected, accepted);
      applications := kept;
    }

    /** `UpdateApplicationStatus`: no matching row is `ErrRecordNotFound`. */
    method UpdateApplicationStatus(jobId: nat, userId: string, status: ApplicationStatus) returns (err: Option<JobRepository.RepoError>)
      requires Valid()
      modifies this
      ensures Valid()
      ensures applications == WithStatus(old(applications), jobId, userId, status)
      ensures err.None? <==> HasApplication(old(applications), jobId, userId)
      ensures err.Some? ==> err.value == JobRepository.RecordNotFound
    {
      var updated: seq<JobApplication> := [];
      var affected := 0;
      var i := 0;
      while i < |applications|
        invariant 0 <= i <= |applications|
        invariant |updated| == i
        invariant forall k :: 0 <= k < i ==> updated[k] == Updated(applications[k], jobId, userId, status)
        invariant affected > 0 <==> exists k :: 0 <= k < i && IsKey(applications[k], jobId, userId)
      {
        if IsKey(applications[i], jobId, userId) {
          affected := affected + 1;
        }
        updated := updated + [Updated(applications[i], jobId, userId, status)];
        i := i + 1;
      }
      assert updated == WithStatus(applications, jobId, userId, status);
      applications := updated;
      err := if affected == 0 then Some(JobRepository.RecordNotFound) else None;
    }
  }

  // ---------------------------------------------------------------------
  // Orders
  // ---------------------------------------------------------------------

  datatype Order = NewestFirst | OldestFirst | NameAscending | NameDescending

  /** The sort key of a listed row: when it was submitted and the name it is sorted by. */
  datatype SortKey = SortKey(createdAt: Time, name: string)

  /** `a` may come before `b` in order `o`. */
  predicate Before(o: Order, a: SortKey, b: SortKey) {
    match o
    case NewestFirst => a.createdAt >= b.createdAt
    case OldestFirst => a.createdAt <= b.createdAt
    case NameAscending => LexLe(a.name, b.name)
    case NameDescending => LexLe(b.name, a.name)
  }

  lemma BeforeTotal(o: Order, a: SortKey, b: SortKey)
    ensures Before(o, a, b) || Before(o, b, a)
  {
    LexTotal(a.name, b.name);
  }

  /** The order of a job's applicant list; anything unrecognised is newest first. */
  function JobApplicationsOrder(sortBy: string): (o: Order)
    ensures o == OldestFirst <==> sortBy == "oldest"
    ensures o == NameAscending <==> sortBy == "name_az"
    ensures o == NameDescending <==> sortBy == "name_za"
    ensures o == NewestFirst <==> sortBy !in {"oldest", "name_az", "name_za"}
  {
    match sortBy
    case "latest" => NewestFirst
    case "oldest" => OldestFirst
    case "name_az" => NameAscending
    case "name_za" => NameDescending
    case _ => NewestFirst
  }

  /** The order of a user's own list: by company name, oldest first, otherwise newest first. */
  function UserApplicationsOrder(sortBy: string): (o: Order)
    ensures o == NameAscending <==> sortBy == "name"
    ensures o == OldestFirst <==> sortBy == "date-asc"
    ensures o == NewestFirst <==> sortBy != "name" && sortBy != "date-asc"
  {
    match sortBy
    case "name" => NameAscending
    case "date-asc" => OldestFirst
    case _ => NewestFirst
  }

  predicate Sorted<T>(s: seq<T>, key: T -> SortKey, o: Order) {
    forall i :: 0 <= i < |s| - 1 ==> Before(o, key(s[i]), key(s[i + 1]))
  }

  function Insert<T>(x: T, s: seq<T>, key: T -> SortKey, o: Order): (r: seq<T>)
    requires Sorted(s, key, o)
    ensures multiset(r) == multiset(s) + multiset{x}
    ensures Sorted(r, key, o)
    ensures r[0] == x || (s != [] && r[0] == s[0])
    decreases |s|
  {
    if s == [] || Before(o, key(x), key(s[0])) then [x] + s
    else
      BeforeTotal(o, key(x), key(s[0]));
      var rest := Insert(x, s[1..], key, o);
      assert s == [s[0]] + s[1..];
      [s[0]] + rest
  }

  /** The database's ORDER BY: the same rows, ordered by their keys. */
  function SortRows<T>(s: seq<T>, key: T -> SortKey, o: Order): (r: seq<T>)
    ensures multiset(r) == multiset(s)
    ensures Sorted(r, key, o)
    decreases |s|
  {
    if s == [] then []
    else
      assert s == [s[0]] + s[1..];
      Insert(s[0], SortRows(s[1..], key, o), key, o)
  }

  /** OFFSET and LIMIT, each applied only when positive. */
  function Window<T>(s: seq<T>, offset: nat, limit: nat): (w: seq<T>)
    ensures offset >= |s| ==> w == []
    ensures offset < |s| && (limit == 0 || offset + limit > |s|) ==> w == s[offset..]
    ensures limit > 0 && offset + limit <= |s| ==> w == s[offset..offset + limit]
    ensures limit > 0 ==> |w| <= limit
    ensures limit == 0 ==> |w| == if offset < |s| then |s| - offset else 0
    ensures exists a, b :: 0 <= a <= b <= |s| && w == s[a..b]
  {
    if offset >= |s| then
      assert s[|s|..|s|] == [];
      []
    else if limit == 0 || offset + limit > |s| then
      assert s[offset..] == s[offset..|s|];
      s[offset..]
    else s[offset..offset + limit]
  }

  lemma SortedSlice<T>(s: seq<T>, key: T -> SortKey, o: Order, a: nat, b: nat)
    requires a <= b <= |s| && Sorted(s, key, o)
    ensures Sorted(s[a..b], key, o)
  {
    forall i | 0 <= i < b - a - 1 ensures Before(o, key(s[a..b][i]), key(s[a..b][i + 1])) {
      assert s[a..b][i] == s[a + i] && s[a..b][i + 1] == s[a + i + 1];
    }
  }

  /** A window of a sorted list is sorted. */
  lemma WindowSorted<T>(s: seq<T>, key: T -> SortKey, o: Order, offset: nat, limit: nat)
    requires Sorted(s, key, o)
    ensures Sorted(Window(s, offset, limit), key, o)
  {
    var a, b :| 0 <= a <= b <= |s| && Window(s, offset, limit) == s[a..b];
    SortedSlice(s, key, o, a, b);
  }

  // ---------------------------------------------------------------------
  // Applicants of one job
  // ---------------------------------------------------------------------

  const DEACTIVATED_USER := "Deactivated User"

  /** The three inner joins need the user, OAuth and student rows, deleted or not. */
  predicate Joinable(t: I.Tables, userId: string) {
    userId in t.users && userId in t.oauths && userId in t.students
  }

  datatype ApplicantRow = ApplicantRow(app: JobApplication, username: string, major: string, studentId: string)

  /** A deactivated applicant is shown as "Deactivated User", anyone else by first and last name. */
  function ApplicantName(t: I.Tables, userId: string): (name: string)
    requires Joinable(t, userId)
    ensures t.users[userId].deletedAt.Some? ==> name == DEACTIVATED_USER
    ensures t.users[userId].deletedAt.None? ==>
              name == t.oauths[userId].firstName + " " + t.oauths[userId].lastName
  {
    if t.users[userId].deletedAt.Some? then DEACTIVATED_USER
    else t.oauths[userId].firstName + " " + t.oauths[userId].lastName
  }

  function ApplicantRowOf(t: I.Tables, a: JobApplication): ApplicantRow
    requires Joinable(t, a.userId)
  {
    ApplicantRow(a, ApplicantName(t, a.userId), t.students[a.userId].major, t.students[a.userId].studentId)
  }

  /** An absent or empty status parameter filters nothing. */
  predicate StatusMatches(status: Option<string>, s: ApplicationStatus) {
    status.None? || status.value == "" || s.Name() == status.value
  }

  /** The rows of the listing query before ordering. */
  function Applicants(t: I.Tables, apps: seq<JobApplication>, jobId: nat, status: Option<string>): (rows: seq<ApplicantRow>)
    ensures forall r :: r in rows ==>
              r.app in apps && r.app.jobId == jobId && StatusMatches(status, r.app.status)
              && Joinable(t, r.app.userId) && r == ApplicantRowOf(t, r.app)
    ensures forall a :: a in apps && a.jobId == jobId && StatusMatches(status, a.status) && Joinable(t, a.userId) ==>
              ApplicantRowOf(t, a) in rows
    decreases |apps|
  {
    if apps == [] then []
    else
      var last := apps[|apps| - 1];
      var init := Applicants(t, apps[..|apps| - 1], jobId, status);
      assert apps == apps[..|apps| - 1] + [last];
      if last.jobId == jobId && StatusMatches(status, last.status) && Joinable(t, last.userId)
      then init + [ApplicantRowOf(t, last)]
      else init
  }

  function ApplicantKey(r: ApplicantRow): SortKey {
    SortKey(r.app.createdAt, r.username)
  }

  datatype ListParams = ListParams(status: Option<string>, offset: nat, limit: nat, sortBy: string)

  /** `GetApplicationsForJob` without the attached files. */
  function ApplicationsForJob(t: I.Tables, jobId: nat, p: ListParams): (rows: seq<ApplicantRow>)
    ensures exists sorted ::
              Sorted(sorted, ApplicantKey, JobApplicationsOrder(p.sortBy))
              && multiset(sorted) == multiset(Applicants(t, t.applications, jobId, p.status))
              && rows == Window(sorted, p.offset, p.limit)
    ensures Sorted(rows, ApplicantKey, JobApplicationsOrder(p.sortBy))
    ensures p.limit > 0 ==> |rows| <= p.limit
    ensures forall r :: r in rows ==>
              r.app in t.applications && r.app.jobId == jobId && StatusMatches(p.status, r.app.status)
    ensures forall r :: r in rows ==>
              r.app.userId in t.users && (t.users[r.app.userId].deletedAt.Some? ==> r.username == DEACTIVATED_USER)
  {
    var all := Applicants(t, t.applications, jobId, p.status);
    var sorted := SortRows(all, ApplicantKey, JobApplicationsOrder(p.sortBy));
    WindowSorted(sorted, ApplicantKey, JobApplicationsOrder(p.sortBy), p.offset, p.limit);
    forall r | r in Window(sorted, p.offset, p.limit) ensures r in all {
      var a, b :| 0 <= a <= b <= |sorted| && Window(sorted, p.offset, p.limit) == sorted[a..b];
      assert r in multiset(sorted);
    }
    Window(sorted, p.offset, p.limit)
  }

  /** With no paging, every matching joinable applicant is listed. */
  lemma EveryApplicantListed(t: I.Tables, jobId: nat, p: ListParams, a: JobApplication)
    requires p.offset == 0 && p.limit == 0
    requires a in t.applications && a.jobId == jobId && StatusMatches(p.status, a.status) && Joinable(t, a.userId)
    ensures ApplicantRowOf(t, a) in ApplicationsForJob(t, jobId, p)
  {
    var all := Applicants(t, t.applications, jobId, p.status);
    var sorted := SortRows(all, ApplicantKey, JobApplicationsOrder(p.sortBy));
    assert ApplicantRowOf(t, a) in multiset(all);
    assert Window(sorted, 0, 0) == sorted;
  }

  // ---------------------------------------------------------------------
  // One applicant by e-mail
  // ---------------------------------------------------------------------

  /** Deactivated and anonymised users are never shown in full. */
  predicate VisibleApplicant(t: I.Tables, userId: string) {
    userId in t.users && t.users[userId].deletedAt.None? && !StartsWith(t.users[userId].username, I.ANON_PREFIX)
  }

  predicate MatchesEmail(t: I.Tables, a: JobApplication, jobId: nat, email: string) {
    a.jobId == jobId && Joinable(t, a.userId) && t.oauths[a.userId].email == email && VisibleApplicant(t, a.userId)
  }

  /** `GetApplicationByJobAndEmail`: the first qualifying row, or not found. */
  function ApplicantByEmail(t: I.Tables, apps: seq<JobApplication>, jobId: nat, email: string): (r: Option<JobApplication>)
    ensures r.Some? ==> r.value in apps && MatchesEmail(t, r.value, jobId, email)
    ensures r.None? ==> forall a :: a in apps ==> !MatchesEmail(t, a, jobId, email)
    decreases |apps|
  {
    if apps == [] then None
    else if MatchesEmail(t, apps[0], jobId, email) then Some(apps[0])
    else
      assert apps == [apps[0]] + apps[1..];
      ApplicantByEmail(t, apps[1..], jobId, email)
  }

  /** Once an account is anonymised, its applications cannot be looked up by e-mail. */
  lemma AnonymizedApplicantHidden(t: I.Tables, id: string, digest: I.Digest, jobId: nat, email: string)
    requires id in t.users
    ensures var t2 := I.AnonymizeOne(t, id, I.GenerateAnonymousId(digest));
            var r := ApplicantByEmail(t2, t2.applications, jobId, email);
            r.Some? ==> r.value.userId != id
  {
    var anon := I.GenerateAnonymousId(digest);
    var t2 := I.AnonymizeOne(t, id, anon);
    assert t2.users[id] == I.AnonymizeUser(t.users[id], anon);
    assert StartsWith(t2.users[id].username, I.ANON_PREFIX);
  }

  // ---------------------------------------------------------------------
  // A user's own applications
  // ---------------------------------------------------------------------

  /** The scoped counts: a soft-deleted company or student row does not count. */
  predicate IsActiveCompany(t: I.Tables, userId: string) {
    userId in t.companies && !t.companies[userId].deleted
  }

  predicate IsActiveStudent(t: I.Tables, userId: string) {
    userId in t.students && !t.students[userId].deleted
  }

  datatype UserApplicationRow = UserApplicationRow(app: JobApplication, job: Job, companyName: string, companyLogoId: string)

  /** The job's company must have a company row and a user row (the joins are raw, so deleted rows count). */
  predicate JobJoinable(t: I.Tables, job: Job) {
    job.companyId in t.companies && job.companyId in t.users
  }

  /** Whose applications are listed: the company's jobs, or the student's own. */
  predicate Owned(t: I.Tables, a: JobApplication, job: Job, userId: string, isCompany: bool) {
    if isCompany then job.companyId == userId else a.userId == userId
  }

  /** The application's job, when the job exists. */
  function JobOf(t: I.Tables, a: JobApplication): Option<Job> {
    match JobRepository.FindJob(t.jobs, a.jobId)
    case None => None
    case Some(k) => Some(t.jobs[k])
  }

  /**
   * A row the count query counts: the job exists, its company has company
   * and user rows, the application is the caller's (or to the company's
   * job) and its status matches.
   */
  predicate Counted(t: I.Tables, a: JobApplication, userId: string, isCompany: bool, status: Option<string>) {
    JobOf(t, a).Some? && JobJoinable(t, JobOf(t, a).value)
    && Owned(t, a, JobOf(t, a).value, userId, isCompany) && StatusMatches(status, a.status)
  }

  /** A row the listing query returns: counted, and the applicant's user row exists too. */
  predicate Listed(t: I.Tables, a: JobApplication, userId: string, isCompany: bool, status: Option<string>) {
    Counted(t, a, userId, isCompany, status) && a.userId in t.users
  }

  /** The listed row of an application: its job and the company's name and logo. */
  function UserRowOf(t: I.Tables, a: JobApplication): UserApplicationRow
    requires JobOf(t, a).Some? && JobJoinable(t, JobOf(t, a).value)
  {
    var job := JobOf(t, a).value;
    UserApplicationRow(a, job, t.users[job.companyId].username, t.companies[job.companyId].photoId)
  }

  /** The count query's total: the counted applications. */
  function CountQuery(t: I.Tables, apps: seq<JobApplication>, userId: string, isCompany: bool, status: Option<string>): (n: nat)
    ensures n <= |apps|
    ensures n == 0 <==> forall a :: a in apps ==> !Counted(t, a, userId, isCompany, status)
    ensures n == |apps| <==> forall a :: a in apps ==> Counted(t, a, userId, isCompany, status)
    decreases |apps|
  {
    if apps == [] then 0
    else
      (if Counted(t, apps[|apps| - 1], userId, isCompany, status) then 1 else 0)
      + CountQuery(t, apps[..|apps| - 1], userId, isCompany, status)
  }

  /**
   * The rows of the listing query before ordering: exactly the listed
   * applications, each once per occurrence. The count query does not join
   * the applicant's user row, so its total can only be larger, and it is
   * equal when every counted applicant has a user row.
   */
  function UserRows(t: I.Tables, apps: seq<JobApplication>, userId: string, isCompany: bool, status: Option<string>)
    : (rows: seq<UserApplicationRow>)
    ensures forall row :: row in rows ==>
              row.app in apps && Listed(t, row.app, userId, isCompany, status) && row == UserRowOf(t, row.app)
    ensures forall a :: a in apps && Listed(t, a, userId, isCompany, status) ==> UserRowOf(t, a) in rows
    decreases |apps|
  {
    if apps == [] then []
    else
      var last := apps[|apps| - 1];
      var init := UserRows(t, apps[..|apps| - 1], userId, isCompany, status);
      assert apps == apps[..|apps| - 1] + [last];
      if Listed(t, last, userId, isCompany, status) then init + [UserRowOf(t, last)] else init
  }

  /**
   * The count query's total is never below the number of listed rows, and
   * equal to it when every counted applicant has a user row.
   */
  lemma {:induction false} TotalCoversRows(t: I.Tables, apps: seq<JobApplication>, userId: string, isCompany: bool, status: Option<string>)
    ensures |UserRows(t, apps, userId, isCompany, status)| <= CountQuery(t, apps, userId, isCompany, status)
    ensures (forall a :: a in apps && Counted(t, a, userId, isCompany, status) ==> a.userId in t.users) ==>
              |UserRows(t, apps, userId, isCompany, status)| == CountQuery(t, apps, userId, isCompany, status)
    decreases |apps|
  {
    if apps != [] {
      var init := apps[..|apps| - 1];
      TotalCoversRows(t, init, userId, isCompany, status);
      assert forall a :: a in init ==> a in apps;
    }
  }

  function UserRowKey(r: UserApplicationRow): SortKey {
    SortKey(r.app.createdAt, r.companyName)
  }

  /**
   * `GetAllApplicationsForUser` without the attached files: the page and the
   * total. A caller with an active company row sees the applications to the
   * company's jobs; otherwise a caller with an active student row sees its
   * own; anybody else gets nothing.
   */
  function AllApplicationsForUser(t: I.Tables, userId: string, p: ListParams): (r: (seq<UserApplicationRow>, nat))
    ensures !IsActiveCompany(t, userId) && !IsActiveStudent(t, userId) ==> r == ([], 0)
    ensures IsActiveCompany(t, userId) || IsActiveStudent(t, userId) ==>
              r.1 == CountQuery(t, t.applications, userId, IsActiveCompany(t, userId), p.status)
              && exists sorted ::
                   Sorted(sorted, UserRowKey, UserApplicationsOrder(p.sortBy))
                   && multiset(sorted) == multiset(UserRows(t, t.applications, userId, IsActiveCompany(t, userId), p.status))
                   && r.0 == Window(sorted, p.offset, p.limit)
    ensures (IsActiveCompany(t, userId) || IsActiveStudent(t, userId)) && p.offset == 0 && p.limit == 0 ==>
              forall a :: a in t.applications && Listed(t, a, userId, IsActiveCompany(t, userId), p.status) ==>
                UserRowOf(t, a) in r.0
    ensures IsActiveCompany(t, userId) ==> forall row :: row in r.0 ==> row.job.companyId == userId
    ensures !IsActiveCompany(t, userId) ==> forall row :: row in r.0 ==> row.app.userId == userId
    ensures forall row :: row in r.0 ==> row.app in t.applications && StatusMatches(p.status, row.app.status)
    ensures Sorted(r.0, UserRowKey, UserApplicationsOrder(p.sortBy))
    ensures p.offset == 0 && p.limit == 0 ==> |r.0| <= r.1
  {
    var isCompany := IsActiveCompany(t, userId);
    if !isCompany && !IsActiveStudent(t, userId) then ([], 0)
    else
      var all := UserRows(t, t.applications, userId, isCompany, p.status);
      var total := CountQuery(t, t.applications, userId, isCompany, p.status);
      var sorted := SortRows(all, UserRowKey, UserApplicationsOrder(p.sortBy));
      WindowSorted(sorted, UserRowKey, UserApplicationsOrder(p.sortBy), p.offset, p.limit);
      forall row | row in Window(sorted, p.offset, p.limit) ensures row in all {
        var a, b :| 0 <= a <= b <= |sorted| && Window(sorted, p.offset, p.limit) == sorted[a..b];
        assert row in multiset(sorted);
      }
      forall a | a in t.applications && Listed(t, a, userId, isCompany, p.status) && p.offset == 0 && p.limit == 0
        ensures UserRowOf(t, a) in Window(sorted, p.offset, p.limit)
      {
        assert UserRowOf(t, a) in multiset(all);
      }
      assert |sorted| == |multiset(sorted)| == |all|;
      TotalCoversRows(t, t.applications, userId, isCompany, p.status);
      (Window(sorted, p.offset, p.limit), total)
  }
}
