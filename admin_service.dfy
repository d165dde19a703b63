/** Paging limits of the admin log listings (backend/services/admin_service.go). */
module AdminService {

  const DEFAULT_LOG_LIMIT: nat := 32
  const MAX_LOG_LIMIT: nat := 64

  /** The page request passed on to the repository. */
  datatype PageRequest = PageRequest(offset: nat, limit: nat)

  /** A limit of 0 becomes 32; above 64 it becomes 64; otherwise it is kept. */
  function ClampLimit(limit: nat): (r: nat)
    ensures 1 <= r <= MAX_LOG_LIMIT
    ensures 1 <= limit <= MAX_LOG_LIMIT ==> r == limit
    ensures limit == 0 ==> r == DEFAULT_LOG_LIMIT
    ensures limit > MAX_LOG_LIMIT ==> r == MAX_LOG_LIMIT
  {
    if limit == 0 then DEFAULT_LOG_LIMIT
    else if limit > MAX_LOG_LIMIT then MAX_LOG_LIMIT
    else limit
  }

  /** `FetchAuditLog`: the offset is passed through, the limit clamped. */
  function FetchAuditLog(offset: nat, limit: nat): (req: PageRequest)
    ensures req.offset == offset && 1 <= req.limit <= MAX_LOG_LIMIT
    ensures req.limit == ClampLimit(limit)
  {
    PageRequest(offset, ClampLimit(limit))
  }

  /** `FetchMailLog`: the same clamp as the audit log. */
  function FetchMailLog(offset: nat, limit: nat): (req: PageRequest)
    ensures req == FetchAuditLog(offset, limit)
  {
    PageRequest(offset, ClampLimit(limit))
  }

  /** Clamping an already clamped limit changes nothing. */
  lemma ClampIdempotent(limit: nat)
    ensures ClampLimit(ClampLimit(limit)) == ClampLimit(limit)
  {
  }
}
