/**
 * Job queries and the approval transaction of
 * backend/repository/gorm/job_repository.go. A job row is joined with its
 * company's username; the listing is the conjunction of `applyFilters`'
 * conditions, counted before paging, and a company sees per-job application
 * counts merged in by job id.
 */
module JobRepository {
  import opened Wrappers
  import opened Text
  import opened Model

  datatype RepoError = RecordNotFound

  /** A row of the `audits` table. */
  datatype Audit = Audit(actorId: string, action: string, reason: string, objectName: string, objectId: string)

  /** The position of the job with the given id, if any. */
  function FindJob(jobs: seq<Job>, id: nat): (r: Option<nat>)
    ensures r.Some? ==> r.value < |jobs| && jobs[r.value].id == id
    ensures r.None? ==> forall i :: 0 <= i < |jobs| ==> jobs[i].id != id
  {
    if jobs == [] then None
    else if jobs[0].id == id then Some(0)
    else match FindJob(jobs[1..], id)
      case None => None
      case Some(k) => Some(k + 1)
  }

  predicate DistinctIds(jobs: seq<Job>) {
    forall i, j :: 0 <= i < j < |jobs| ==> jobs[i].id != jobs[j].id
  }

  /** The status an approval decision sets. */
  function ApprovalFor(approve: bool): (s: ApprovalStatus)
    ensures s == JobApprovalAccepted <==> approve
    ensures s == JobApprovalRejected <==> !approve
  {
    if approve then JobApprovalAccepted else JobApprovalRejected
  }

  /** The status named by a stored string, the inverse of `Name`. */
  function ParseApproval(name: string): (r: Option<ApprovalStatus>)
    ensures r.Some? ==> r.value.Name() == name
  {
    if name == "accepted" then Some(JobApprovalAccepted)
    else if name == "rejected" then Some(JobApprovalRejected)
    else if name == "pending" then Some(JobApprovalPending)
    else None
  }

  /** The audit record of a decision names the new status and the job's id, both recoverable. */
  lemma AuditRecordsDecision(approve: bool, jobId: nat)
    ensures ParseApproval(ApprovalFor(approve).Name()) == Some(ApprovalFor(approve))
    ensures ParseNat(NatToString(jobId)) == Some(jobId)
  {
    NatToStringRoundTrip(jobId);
  }

  /** The `jobs` and `audits` tables. */
  class JobStore {
    var jobs: seq<Job>
    var audits: seq<Audit>
    var nextId: nat

    ghost predicate Valid()
      reads this
    {
      DistinctIds(jobs) && forall i :: 0 <= i < |jobs| ==> jobs[i].id < nextId
    }

    constructor ()
      ensures Valid() && jobs == [] && audits == [] && nextId == 1
    {
      jobs := [];
      audits := [];
      nextId := 1;
    }

    /**
     * `ApproveOrRejectJob`: in one transaction, the status is set and an
     * audit row with the new status as its action is added.
     */
    method ApproveOrRejectJob(jobId: nat, approve: bool, actorId: string, reason: string) returns (err: Option<RepoError>)
      requires Valid()
      modifies this
      ensures Valid() && nextId == old(nextId)
      ensures FindJob(old(jobs), jobId).None? ==>
                err == Some(RecordNotFound) && jobs == old(jobs) && audits == old(audits)
      ensures FindJob(old(jobs), jobId).Some? ==>
                var k := FindJob(old(jobs), jobId).value;
                err.None?
                && jobs == old(jobs)[k := old(jobs)[k].(approvalStatus := ApprovalFor(approve))]
                && audits == old(audits) + [Audit(actorId, ApprovalFor(approve).Name(), reason, "Job", NatToString(jobId))]
    {
      var found := FindJob(jobs, jobId);
      if found.None? {
        return Some(RecordNotFound);
      }
      var k := found.value;
      var status := ApprovalFor(approve);
      jobs := jobs[k := jobs[k].(approvalStatus := status)];
      audits := audits + [Audit(actorId, status.Name(), reason, "Job", NatToString(jobs[k].id))];
      err := None;
    }
  }

  // ---------------------------------------------------------------------
  // Listing
  // ---------------------------------------------------------------------

  /** A job joined with its company's user row (the company name is the username). */
  datatype JobRow = JobRow(job: Job, companyName: string)

  /** The inner joins with `users` and `companies`: jobs without both rows drop out. */
  function Joined(jobs: seq<Job>, usernames: map<string, string>, companies: set<string>): (rows: seq<JobRow>)
    ensures forall r :: r in rows ==>
              (r.job in jobs && r.job.companyId in companies
               && r.job.companyId in usernames && r.companyName == usernames[r.job.companyId])
    ensures forall j :: j in jobs && j.companyId in usernames && j.companyId in companies ==>
              JobRow(j, usernames[j.companyId]) in rows
  {
    if jobs == [] then []
    else
      var rest := Joined(jobs[1..], usernames, companies);
      var j := jobs[0];
      if j.companyId in usernames && j.companyId in companies then [JobRow(j, usernames[j.companyId])] + rest
      else rest
  }

  datatype FetchJobsParams = FetchJobsParams(
    limit: nat, offset: nat, location: string, keyword: string,
    jobType: seq<string>, experience: seq<string>, minSalary: nat, maxSalary: nat,
    open: Option<bool>, companyId: string, jobId: Option<nat>, approvalStatus: Option<string>,
    role: Role, userId: string)

  /** `ILIKE '%w%'` on one column, read as case-insensitive containment. */
  predicate ContainsFolded(value: string, word: string) {
    Contains(ToLower(value), ToLower(word))
  }

  /** One keyword matches the name, description, position, duration or company name. */
  predicate KeywordMatches(r: JobRow, word: string) {
    ContainsFolded(r.job.name, word) || ContainsFolded(r.job.description, word)
    || ContainsFolded(r.job.position, word) || ContainsFolded(r.job.duration, word)
    || ContainsFolded(r.companyName, word)
  }

  /** Every whitespace-separated keyword must match some column. */
  predicate KeywordsMatch(r: JobRow, keyword: string) {
    var words := Fields(keyword);
    forall k :: 0 <= k < |words| ==> KeywordMatches(r, words[k])
  }

  /** The company restriction: a company sees its own jobs, whatever `companyId` says. */
  predicate CompanyFilter(r: JobRow, p: FetchJobsParams) {
    if p.role == Company then r.job.companyId == p.userId
    else p.companyId != "" ==> r.job.companyId == p.companyId
  }

  /** Companies and admins may filter on `open`; everybody else sees open jobs only. */
  predicate OpenFilter(r: JobRow, p: FetchJobsParams) {
    if (p.role == Company || p.role == Admin) && p.open.Some? then r.job.isOpen == p.open.value
    else if p.role == Viewer || p.role == Student || p.role == Unknown then r.job.isOpen
    else true
  }

  /** Companies and admins may filter on the status; everybody else sees accepted jobs only. */
  predicate ApprovalFilter(r: JobRow, p: FetchJobsParams) {
    if p.role == Admin || p.role == Company then
      p.approvalStatus.Some? && p.approvalStatus.value != "" ==> r.job.approvalStatus.Name() == p.approvalStatus.value
    else r.job.approvalStatus == JobApprovalAccepted
  }

  /**
   * `applyFilters`. A job id of 0 is a zero value in a struct condition and
   * filters nothing.
   */
  predicate Matches(r: JobRow, p: FetchJobsParams)
    ensures Matches(r, p) && p.role == Company ==> r.job.companyId == p.userId
    ensures Matches(r, p) && (p.role == Viewer || p.role == Student || p.role == Unknown) ==>
              r.job.isOpen && r.job.approvalStatus == JobApprovalAccepted
    ensures Matches(r, p) ==> p.minSalary <= r.job.minSalary && r.job.maxSalary <= p.maxSalary
  {
    (p.jobId.Some? && p.jobId.value != 0 ==> r.job.id == p.jobId.value)
    && (p.keyword != "" ==> KeywordsMatch(r, p.keyword))
    && r.job.minSalary >= p.minSalary && r.job.maxSalary <= p.maxSalary
    && CompanyFilter(r, p)
    && OpenFilter(r, p)
    && (p.location != "" ==> ToLower(r.job.location) == ToLower(p.location))
    && (|p.jobType| != 0 ==> r.job.jobType in p.jobType)
    && (|p.experience| != 0 ==> r.job.experience in p.experience)
    && ApprovalFilter(r, p)
  }

  /** The filtered rows, in table order. */
  function Filter(rows: seq<JobRow>, p: FetchJobsParams): (out: seq<JobRow>)
    ensures |out| <= |rows|
    ensures forall r :: r in out <==> r in rows && Matches(r, p)
  {
    if rows == [] then []
    else if Matches(rows[0], p) then [rows[0]] + Filter(rows[1..], p)
    else Filter(rows[1..], p)
  }

  /** `OFFSET offset LIMIT limit`. */
  function Page<T>(s: seq<T>, offset: nat, limit: nat): (page: seq<T>)
    ensures |page| <= limit
    ensures forall x :: x in page ==> x in s
    ensures offset + limit <= |s| ==> page == s[offset..offset + limit]
    ensures offset < |s| < offset + limit ==> page == s[offset..]
    ensures offset >= |s| ==> page == []
  {
    if offset >= |s| then []
    else if offset + limit <= |s| then s[offset..offset + limit]
    else s[offset..]
  }

  /** Application counts of one job. */
  datatype Stats = Stats(pending: nat, accepted: nat, rejected: nat)

  function CountStatus(apps: seq<JobApplication>, jobId: nat, status: ApplicationStatus): nat {
    if apps == [] then 0
    else (if apps[0].jobId == jobId && apps[0].status == status then 1 else 0) + CountStatus(apps[1..], jobId, status)
  }

  function StatsOf(apps: seq<JobApplication>, jobId: nat): Stats {
    Stats(CountStatus(apps, jobId, JobApplicationPending), CountStatus(apps, jobId, JobApplicationAccepted),
          CountStatus(apps, jobId, JobApplicationRejected))
  }

  predicate HasApplications(apps: seq<JobApplication>, jobId: nat) {
    exists i :: 0 <= i < |apps| && apps[i].jobId == jobId
  }

  /** A job nobody applied to has all three counts zero. */
  lemma {:induction false} NoApplicationsNoStats(apps: seq<JobApplication>, jobId: nat, status: ApplicationStatus)
    requires !HasApplications(apps, jobId)
    ensures CountStatus(apps, jobId, status) == 0
  {
    if apps != [] {
      assert !HasApplications(apps[1..], jobId) by {
        forall i | 0 <= i < |apps[1..]|
          ensures apps[1..][i].jobId != jobId
        {
          assert apps[1..][i] == apps[i + 1];
        }
      }
      NoApplicationsNoStats(apps[1..], jobId, status);
    }
  }

  /** A row of the grouped statistics query. */
  datatype StatRow = StatRow(jobId: nat, stats: Stats)

  /** `GROUP BY job_id` over the applications of the given jobs: only jobs with applications appear. */
  function StatRows(apps: seq<JobApplication>, ids: seq<nat>): (rows: seq<StatRow>)
    ensures forall k :: 0 <= k < |rows| ==> rows[k].stats == StatsOf(apps, rows[k].jobId)
    ensures forall id :: id in ids && HasApplications(apps, id) ==> StatRow(id, StatsOf(apps, id)) in rows
  {
    if ids == [] then []
    else
      var rest := StatRows(apps, ids[1..]);
      if HasApplications(apps, ids[0]) then [StatRow(ids[0], StatsOf(apps, ids[0]))] + rest else rest
  }

  /** An item of the listing; companies get the counts of their jobs. */
  datatype JobItem = JobItem(row: JobRow, stats: Option<Stats>)

  function Ids(rows: seq<JobRow>): (ids: seq<nat>)
    ensures |ids| == |rows| && forall i :: 0 <= i < |rows| ==> ids[i] == rows[i].job.id
  {
    seq(|rows|, i requires 0 <= i < |rows| => rows[i].job.id)
  }

  /** What `FetchJobs` returns for these rows: the page, with counts for a company. */
  function ItemsFor(page: seq<JobRow>, apps: seq<JobApplication>, role: Role): (items: seq<JobItem>)
    ensures |items| == |page|
  {
    seq(|page|, i requires 0 <= i < |page| =>
      JobItem(page[i], if role == Company then Some(StatsOf(apps, page[i].job.id)) else None))
  }

  /**
   * `FetchJobs`: the jobs are joined with their companies' user and company
   * rows, the total counts every matching row, the items are the requested
   * page of them, and a company's items carry the counts of their
   * applications (zero for jobs with none).
   */
  method FetchJobs(jobs: seq<Job>, usernames: map<string, string>, companies: set<string>,
                   apps: seq<JobApplication>, p: FetchJobsParams)
    returns (items: seq<JobItem>, total: nat)
    ensures total == |Filter(Joined(jobs, usernames, companies), p)|
    ensures items == ItemsFor(Page(Filter(Joined(jobs, usernames, companies), p), p.offset, p.limit), apps, p.role)
    ensures |items| <= p.limit
    ensures forall it :: it in items ==>
              it.row.job in jobs && it.row.job.companyId in companies && Matches(it.row, p)
  {
    var rows := Joined(jobs, usernames, companies);
    var filtered := Filter(rows, p);
    total := |filtered|;
    var page := Page(filtered, p.offset, p.limit);
    if p.role != Company {
      items := ItemsFor(page, apps, p.role);
      return;
    }
    var ids := Ids(page);
    var statRows := StatRows(apps, ids);
    var statsMap := IndexStats(apps, statRows);
    forall r | r in page && HasApplications(apps, r.job.id)
      ensures r.job.id in statsMap
    {
      var k :| 0 <= k < |page| && page[k] == r;
      assert ids[k] == r.job.id;
    }
    items := AttachStats(page, apps, statsMap);
  }

  /** The grouped statistics keyed by job id. */
  method IndexStats(apps: seq<JobApplication>, statRows: seq<StatRow>) returns (statsMap: map<nat, Stats>)
    requires forall k :: 0 <= k < |statRows| ==> statRows[k].stats == StatsOf(apps, statRows[k].jobId)
    ensures forall id :: id in statsMap ==> statsMap[id] == StatsOf(apps, id)
    ensures forall k :: 0 <= k < |statRows| ==> statRows[k].jobId in statsMap
  {
    statsMap := map[];
    var i := 0;
    while i < |statRows|
      invariant 0 <= i <= |statRows|
      invariant forall id :: id in statsMap ==> statsMap[id] == StatsOf(apps, id)
      invariant forall k :: 0 <= k < i ==> statRows[k].jobId in statsMap
    {
      statsMap := statsMap[statRows[i].jobId := statRows[i].stats];
      i := i + 1;
    }
  }

  /** A company's page with each job's counts: from the map, or zero for a job nobody applied to. */
  method AttachStats(page: seq<JobRow>, apps: seq<JobApplication>, statsMap: map<nat, Stats>) returns (items: seq<JobItem>)
    requires forall id :: id in statsMap ==> statsMap[id] == StatsOf(apps, id)
    requires forall r :: r in page && HasApplications(apps, r.job.id) ==> r.job.id in statsMap
    ensures items == ItemsFor(page, apps, Company)
  {
    items := [];
    var j := 0;
    while j < |page|
      invariant 0 <= j <= |page|
      invariant items == ItemsFor(page[..j], apps, Company)
    {
      var id := page[j].job.id;
      var s := if id in statsMap then statsMap[id] else Stats(0, 0, 0);
      if id !in statsMap {
        NoApplicationsNoStats(apps, id, JobApplicationPending);
        NoApplicationsNoStats(apps, id, JobApplicationAccepted);
        NoApplicationsNoStats(apps, id, JobApplicationRejected);
      }
      items := items + [JobItem(page[j], Some(s))];
      assert page[..j + 1] == page[..j] + [page[j]];
      j := j + 1;
    }
    assert page[..j] == page;
  }

  /** What a company lists is its own jobs only. */
  lemma CompanySeesOwnJobs(rows: seq<JobRow>, p: FetchJobsParams, r: JobRow)
    requires p.role == Company && r in Filter(rows, p)
    ensures r.job.companyId == p.userId
  {
  }

  /** Viewers, students and anonymous callers see open, accepted jobs only. */
  lemma PublicSeesOpenAccepted(rows: seq<JobRow>, p: FetchJobsParams, r: JobRow)
    requires p.role in {Viewer, Student, Unknown} && r in Filter(rows, p)
    ensures r.job.isOpen && r.job.approvalStatus == JobApprovalAccepted
  {
  }

  /** Everything listed lies in the salary window and matches every keyword somewhere. */
  lemma ListedMatchesQuery(rows: seq<JobRow>, p: FetchJobsParams, r: JobRow, k: nat)
    requires r in Filter(rows, p)
    requires p.keyword != "" && k < |Fields(p.keyword)|
    ensures p.minSalary <= r.job.minSalary && r.job.maxSalary <= p.maxSalary
    ensures KeywordMatches(r, Fields(p.keyword)[k])
  {
  }

  /** A job of a company that is not the caller is never shown to that company, whatever the id filter. */
  lemma CompanyFilterIgnoresCompanyId(r: JobRow, p: FetchJobsParams, other: string)
    requires p.role == Company
    ensures Matches(r, p) <==> Matches(r, p.(companyId := other))
  {
  }
}
