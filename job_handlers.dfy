/**
 * The job endpoints of backend/handlers/job.go that change jobs: creating a
 * posting, editing one, and an admin's approval decision. Request binding
 * is modelled by the declared binding rules; the outcome of the company
 * lookup is an input.
 */
module JobHandlers {
  import opened Wrappers
  import opened Text
  import opened Model
  import opened JobRepository

  const MAX_SHORT := 128
  const MAX_TEXT := 16384
  const MAX_UINT32 := 0xFFFF_FFFF

  const JOB_TYPES: set<string> := {"fulltime", "parttime", "contract", "casual", "internship"}
  const EXPERIENCES: set<string> := {"newgrad", "junior", "senior", "manager", "internship"}

  const STATUS_OK := 200
  const STATUS_BAD_REQUEST := 400
  const STATUS_FORBIDDEN := 403
  const STATUS_NOT_FOUND := 404
  const STATUS_INTERNAL := 500

  datatype CreateJobInput = CreateJobInput(
    name: string, position: string, duration: string, description: string, location: string,
    jobType: string, experience: string, minSalary: Option<nat>, maxSalary: Option<nat>,
    open: bool, notifyOnApplication: Option<bool>)

  predicate Short(s: string) { |s| <= MAX_SHORT }

  /** The binding rules of `CreateJobInput`: required, length limits, closed sets. */
  predicate BindsCreate(i: CreateJobInput) {
    i.name != "" && Short(i.name) && i.position != "" && Short(i.position)
    && i.duration != "" && Short(i.duration) && i.description != "" && |i.description| <= MAX_TEXT
    && i.location != "" && Short(i.location)
    && i.jobType in JOB_TYPES && i.experience in EXPERIENCES
    && i.minSalary.Some? && i.maxSalary.Some?
  }

  /** The new posting: always pending, notification on unless switched off. */
  function NewJob(id: nat, now: Time, companyId: string, i: CreateJobInput): (j: Job)
    requires i.minSalary.Some? && i.maxSalary.Some?
    ensures j.approvalStatus == JobApprovalPending && j.companyId == companyId && j.id == id
    ensures j.notifyOnApplication == (i.notifyOnApplication != Some(false))
    ensures j.isOpen == i.open
  {
    Job(id, now, companyId, i.name, i.position, i.duration, i.description, i.location,
        i.jobType, i.experience, i.minSalary.value, i.maxSalary.value, JobApprovalPending, i.open,
        if i.notifyOnApplication.None? then true else i.notifyOnApplication.value)
  }

  /** The status `CreateJobHandler` answers with. */
  function CreateStatus(i: CreateJobInput, companyExists: bool): (status: int)
    ensures status == STATUS_OK <==> BindsCreate(i) && i.minSalary.value <= i.maxSalary.value && companyExists
    ensures !BindsCreate(i) ==> status == STATUS_BAD_REQUEST
    ensures BindsCreate(i) && i.maxSalary.value < i.minSalary.value ==> status == STATUS_BAD_REQUEST
    ensures BindsCreate(i) && i.minSalary.value <= i.maxSalary.value && !companyExists ==> status == STATUS_INTERNAL
  {
    if !BindsCreate(i) then STATUS_BAD_REQUEST
    else if i.maxSalary.value < i.minSalary.value then STATUS_BAD_REQUEST
    else if !companyExists then STATUS_INTERNAL
    else STATUS_OK
  }

  datatype EditJobInput = EditJobInput(
    name: Option<string>, position: Option<string>, duration: Option<string>,
    description: Option<string>, location: Option<string>, jobType: Option<string>,
    experience: Option<string>, minSalary: Option<nat>, maxSalary: Option<nat>,
    open: Option<bool>, notifyOnApplication: Option<bool>)

  predicate ShortIfPresent(s: Option<string>) { s.Some? ==> Short(s.value) }

  /** The binding rules of `EditJobInput`: limits and closed sets on the fields present. */
  predicate BindsEdit(e: EditJobInput) {
    ShortIfPresent(e.name) && ShortIfPresent(e.position) && ShortIfPresent(e.duration)
    && (e.description.Some? ==> |e.description.value| <= MAX_TEXT) && ShortIfPresent(e.location)
    && (e.jobType.Some? ==> e.jobType.value in JOB_TYPES)
    && (e.experience.Some? ==> e.experience.value in EXPERIENCES)
  }

  /** A content field is present: the posting must be approved again. */
  predicate NeedReapproval(e: EditJobInput) {
    e.name.Some? || e.position.Some? || e.duration.Some? || e.description.Some? || e.location.Some?
    || e.jobType.Some? || e.experience.Some? || e.minSalary.Some? || e.maxSalary.Some?
  }

  /** Opening, closing or switching notifications alone keeps the approval. */
  lemma SwitchesDoNotNeedReapproval(open: Option<bool>, notify: Option<bool>)
    ensures !NeedReapproval(EditJobInput(None, None, None, None, None, None, None, None, None, open, notify))
  {
  }

  /** The merge step: every present field overwrites, every absent field stays. */
  function Merge(j: Job, e: EditJobInput): (r: Job)
    ensures r.id == j.id && r.createdAt == j.createdAt && r.companyId == j.companyId
    ensures r.approvalStatus == j.approvalStatus && r.notifyOnApplication == j.notifyOnApplication
    ensures Overwritten(e.name, j.name, r.name)
    ensures Overwritten(e.position, j.position, r.position)
    ensures Overwritten(e.duration, j.duration, r.duration)
    ensures Overwritten(e.description, j.description, r.description)
    ensures Overwritten(e.location, j.location, r.location)
    ensures Overwritten(e.jobType, j.jobType, r.jobType)
    ensures Overwritten(e.experience, j.experience, r.experience)
    ensures Overwritten(e.minSalary, j.minSalary, r.minSalary)
    ensures Overwritten(e.maxSalary, j.maxSalary, r.maxSalary)
    ensures Overwritten(e.open, j.isOpen, r.isOpen)
  {
    j.(name := OrElse(e.name, j.name), position := OrElse(e.position, j.position),
       duration := OrElse(e.duration, j.duration), description := OrElse(e.description, j.description),
       location := OrElse(e.location, j.location), jobType := OrElse(e.jobType, j.jobType),
       isOpen := OrElse(e.open, j.isOpen), experience := OrElse(e.experience, j.experience),
       minSalary := OrElse(e.minSalary, j.minSalary), maxSalary := OrElse(e.maxSalary, j.maxSalary))
  }

  /** The job as saved by a successful edit. */
  function Edited(j: Job, e: EditJobInput): (r: Job)
    ensures NeedReapproval(e) ==> r.approvalStatus == JobApprovalPending
    ensures !NeedReapproval(e) ==> r.approvalStatus == j.approvalStatus
  {
    var m := Merge(j, e);
    var m2 := m.(notifyOnApplication := OrElse(e.notifyOnApplication, m.notifyOnApplication));
    if NeedReapproval(e) then m2.(approvalStatus := JobApprovalPending) else m2
  }

  /** An empty edit saves the job unchanged. */
  lemma EmptyEditIsIdentity(j: Job)
    ensures Edited(j, EditJobInput(None, None, None, None, None, None, None, None, None, None, None)) == j
  {
  }

  /** An edit that only switches `open` changes that flag and nothing else. */
  lemma OpenOnlyEdit(j: Job, open: bool)
    ensures Edited(j, EditJobInput(None, None, None, None, None, None, None, None, None, Some(open), None)) == j.(isOpen := open)
  {
  }

  /** The path id: decimal digits, between 1 and the largest 32-bit value. */
  function ParseJobId(s: string): (r: Option<nat>)
    ensures r.Some? <==> ParseNat(s).Some? && 1 <= ParseNat(s).value <= MAX_UINT32
    ensures r.Some? ==> r.value == ParseNat(s).value
  {
    match ParseNat(s)
    case None => None
    case Some(n) => if n < 1 || n > MAX_UINT32 then None else Some(n)
  }

  /** Every valid id is accepted in its decimal form. */
  lemma ParseJobIdRoundTrip(id: nat)
    requires 1 <= id <= MAX_UINT32
    ensures ParseJobId(NatToString(id)) == Some(id)
  {
    NatToStringRoundTrip(id);
  }

  /** The status `EditJobHandler` answers with, in the order of its checks. */
  function EditStatus(jobs: seq<Job>, userId: string, idText: string, e: EditJobInput): (status: int)
    ensures status == STATUS_OK <==>
              BindsEdit(e) && ParseJobId(idText).Some? && FindJob(jobs, ParseJobId(idText).value).Some?
              && var j := jobs[FindJob(jobs, ParseJobId(idText).value).value];
                 j.companyId == userId && Merge(j, e).minSalary <= Merge(j, e).maxSalary
    ensures !BindsEdit(e) || ParseJobId(idText).None? ==> status == STATUS_BAD_REQUEST
    ensures BindsEdit(e) && ParseJobId(idText).Some? && FindJob(jobs, ParseJobId(idText).value).None? ==>
              status == STATUS_NOT_FOUND
    ensures BindsEdit(e) && ParseJobId(idText).Some? && FindJob(jobs, ParseJobId(idText).value).Some? ==>
              var j := jobs[FindJob(jobs, ParseJobId(idText).value).value];
              (j.companyId != userId ==> status == STATUS_FORBIDDEN)
              && (j.companyId == userId && Merge(j, e).minSalary > Merge(j, e).maxSalary ==> status == STATUS_BAD_REQUEST)
  {
    if !BindsEdit(e) then STATUS_BAD_REQUEST
    else match ParseJobId(idText)
      case None => STATUS_BAD_REQUEST
      case Some(id) =>
        match FindJob(jobs, id)
        case None => STATUS_NOT_FOUND
        case Some(k) =>
          if jobs[k].companyId != userId then STATUS_FORBIDDEN
          else if Merge(jobs[k], e).minSalary > Merge(jobs[k], e).maxSalary then STATUS_BAD_REQUEST
          else STATUS_OK
  }

  /** Only the owning company can edit: anybody else gets 403, whatever the edit. */
  lemma NonOwnerForbidden(jobs: seq<Job>, userId: string, id: nat, e: EditJobInput)
    requires BindsEdit(e) && 1 <= id <= MAX_UINT32
    requires FindJob(jobs, id).Some? && jobs[FindJob(jobs, id).value].companyId != userId
    ensures EditStatus(jobs, userId, NatToString(id), e) == STATUS_FORBIDDEN
  {
    ParseJobIdRoundTrip(id);
  }

  /** The status of `JobApprovalHandler`: a missing or malformed id is 404. */
  function ApprovalStatusCode(jobs: seq<Job>, idText: string, reason: string): (status: int)
    ensures status == STATUS_OK <==>
              |reason| <= MAX_TEXT && ParseNat(idText).Some? && FindJob(jobs, ParseNat(idText).value).Some?
  {
    if |reason| > MAX_TEXT then STATUS_BAD_REQUEST
    else match ParseNat(idText)
      case None => STATUS_NOT_FOUND
      case Some(id) => if FindJob(jobs, id).None? then STATUS_NOT_FOUND else STATUS_OK
  }

  /** The handlers over the job tables. */
  class JobHandlers {
    const store: JobStore

    constructor (store: JobStore)
      ensures this.store == store
    {
      this.store := store;
    }

    /** `CreateJobHandler`: a pending posting with the next id, or an error status. */
    method CreateJob(userId: string, i: CreateJobInput, companyExists: bool, now: Time) returns (status: int, id: Option<nat>)
      requires store.Valid()
      modifies store
      ensures store.Valid() && store.audits == old(store.audits)
      ensures status == CreateStatus(i, companyExists)
      ensures status != STATUS_OK ==> id.None? && store.jobs == old(store.jobs) && store.nextId == old(store.nextId)
      ensures status == STATUS_OK ==>
                id == Some(old(store.nextId)) && store.nextId == old(store.nextId) + 1
                && store.jobs == old(store.jobs) + [NewJob(old(store.nextId), now, userId, i)]
    {
      status := CreateStatus(i, companyExists);
      if status != STATUS_OK {
        return status, None;
      }
      var job := NewJob(store.nextId, now, userId, i);
      store.jobs := store.jobs + [job];
      id := Some(store.nextId);
      store.nextId := store.nextId + 1;
    }

    /** `EditJobHandler`: the merged job is saved only on success. */
    method EditJob(userId: string, idText: string, e: EditJobInput) returns (status: int)
      requires store.Valid()
      modifies store
      ensures store.Valid() && store.audits == old(store.audits) && store.nextId == old(store.nextId)
      ensures status == EditStatus(old(store.jobs), userId, idText, e)
      ensures status != STATUS_OK ==> store.jobs == old(store.jobs)
      ensures status == STATUS_OK ==>
                var k := FindJob(old(store.jobs), ParseJobId(idText).value).value;
                store.jobs == old(store.jobs)[k := Edited(old(store.jobs)[k], e)]
    {
      status := EditStatus(store.jobs, userId, idText, e);
      if status != STATUS_OK {
        return;
      }
      var k := FindJob(store.jobs, ParseJobId(idText).value).value;
      store.jobs := store.jobs[k := Edited(store.jobs[k], e)];
    }

    /**
     * `JobApprovalHandler`: `approve` accepts, anything else rejects, and
     * the audit row records the new status under the acting admin.
     */
    method ApproveJob(actorId: string, idText: string, approve: bool, reason: string) returns (status: int)
      requires store.Valid()
      modifies store
      ensures store.Valid() && store.nextId == old(store.nextId)
      ensures status == ApprovalStatusCode(old(store.jobs), idText, reason)
      ensures status != STATUS_OK ==> store.jobs == old(store.jobs) && store.audits == old(store.audits)
      ensures status == STATUS_OK ==>
                var id := ParseNat(idText).value;
                var k := FindJob(old(store.jobs), id).value;
                store.jobs == old(store.jobs)[k := old(store.jobs)[k].(approvalStatus := ApprovalFor(approve))]
                && store.audits == old(store.audits) + [Audit(actorId, ApprovalFor(approve).Name(), reason, "Job", NatToString(id))]
    {
      status := ApprovalStatusCode(store.jobs, idText, reason);
      if status != STATUS_OK {
        return;
      }
      var err := store.ApproveOrRejectJob(ParseNat(idText).value, approve, actorId, reason);
    }
  }
}
