/**
 * Entities of the backend's data model (backend/model) that more than one
 * core file works on. Instants are integers on one clock, in seconds.
 */
module Model {
  import opened Wrappers

  type Time = int

  const SECONDS_PER_DAY: int := 24 * 60 * 60

  /** The roles a user can hold (backend/helper/common.go). */
  datatype Role = Admin | Company | Student | Viewer | Unknown {
    function Name(): string {
      match this
      case Admin => "admin"
      case Company => "company"
      case Student => "student"
      case Viewer => "viewer"
      case Unknown => "unknown"
    }
  }

  /** Approval state of a job posting. */
  datatype ApprovalStatus = JobApprovalAccepted | JobApprovalRejected | JobApprovalPending {
    function Name(): string {
      match this
      case JobApprovalAccepted => "accepted"
      case JobApprovalRejected => "rejected"
      case JobApprovalPending => "pending"
    }
  }

  /** State of an application to a job. */
  datatype ApplicationStatus = JobApplicationAccepted | JobApplicationRejected | JobApplicationPending {
    function Name(): string {
      match this
      case JobApplicationAccepted => "accepted"
      case JobApplicationRejected => "rejected"
      case JobApplicationPending => "pending"
    }
  }

  /** A job posting; salaries are unsigned in the source. */
  datatype Job = Job(
    id: nat,
    createdAt: Time,
    companyId: string,
    name: string,
    position: string,
    duration: string,
    description: string,
    location: string,
    jobType: string,
    experience: string,
    minSalary: nat,
    maxSalary: nat,
    approvalStatus: ApprovalStatus,
    isOpen: bool,
    notifyOnApplication: bool)

  /** An application of one user to one job (the pair is the primary key). */
  datatype JobApplication = JobApplication(
    jobId: nat,
    userId: string,
    createdAt: Time,
    contactPhone: string,
    contactEmail: string,
    status: ApplicationStatus)

  /** A user account; `deletedAt` is set while the account is soft-deleted (deactivated). */
  datatype User = User(id: string, username: string, passwordHash: string, deletedAt: Option<Time>)

  /** The first row with the given id, soft-deleted or not (an unscoped lookup). */
  function FindUser(users: seq<User>, id: string): (r: Option<User>)
    ensures r.Some? ==> r.value in users && r.value.id == id
    ensures r.None? ==> forall u :: u in users ==> u.id != id
  {
    if users == [] then None
    else if users[0].id == id then Some(users[0])
    else FindUser(users[1..], id)
  }
}
