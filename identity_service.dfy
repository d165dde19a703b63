/**
 * Account lifecycle of backend/services/identity_service.go: deactivation
 * (a soft delete), reactivation within the grace period, anonymisation of
 * accounts whose grace period has run out, and the checks of a company
 * profile edit. The tables the identity repository reaches are the fields
 * of `IdentityStore`, keyed by user id; "scoped" lookups see only rows that
 * are not soft-deleted, "unscoped" ones see every row. The clock, the hash
 * behind anonymous ids and the address parser are inputs.
 */
module IdentityService {
  import opened Wrappers
  import opened Text
  import opened Model
  import Crypto

  datatype IdentityError =
    | UserNotFound
    | AlreadyDeactivated
    | NotDeactivated
    | GracePeriodExpired(deletedAt: Time, deadline: Time)
    | AnonymizationFailed
    | UsernameExists
    | CompanyNotFound
    | InvalidEmail
    | InvalidWebsite

  /** Profile rows; an empty string stands for a NULL column. */
  datatype Student = Student(
    userId: string, phone: string, photoId: string, birthDate: Time, aboutMe: string,
    gitHub: string, linkedIn: string, studentId: string, major: string,
    statusFileId: string, deleted: bool)

  datatype Company = Company(
    userId: string, email: string, website: string, phone: string, photoId: string,
    bannerId: string, aboutUs: string, address: string, city: string, country: string,
    deleted: bool)

  datatype OAuthDetails = OAuthDetails(
    userId: string, externalId: string, firstName: string, lastName: string, email: string,
    deleted: bool)

  /** The tables the service reads and writes. */
  datatype Tables = Tables(
    users: map<string, User>,
    students: map<string, Student>,
    companies: map<string, Company>,
    oauths: map<string, OAuthDetails>,
    applications: seq<JobApplication>,
    jobs: seq<Job>)

  function GraceSeconds(days: int): int {
    days * SECONDS_PER_DAY
  }

  // ---------------------------------------------------------------------
  // Deactivation
  // ---------------------------------------------------------------------

  /** A scoped lookup: soft-deleted users are invisible. */
  function ScopedUser(users: map<string, User>, id: string): (r: Option<User>)
    ensures r.Some? <==> id in users && users[id].deletedAt.None?
  {
    if id in users && users[id].deletedAt.None? then Some(users[id]) else None
  }

  /**
   * `IsUserDeactivated` as the repository writes it: a scoped lookup whose
   * "record not found" is read as "not deactivated".
   */
  function IsUserDeactivatedAsWritten(users: map<string, User>, id: string): (r: bool)
    ensures !r
  {
    match ScopedUser(users, id)
    case None => false
    case Some(u) => u.deletedAt.Some?
  }

  /** The checks `DeactivateAccount` makes as written: both lookups are scoped. */
  function DeactivateCheckAsWritten(users: map<string, User>, id: string): (r: Option<IdentityError>)
    ensures r == Some(UserNotFound) <==> !(id in users && users[id].deletedAt.None?)
    ensures r.None? <==> ScopedUser(users, id).Some?
  {
    if ScopedUser(users, id).None? then Some(UserNotFound)
    else if IsUserDeactivatedAsWritten(users, id) then Some(AlreadyDeactivated)
    else None
  }

  /**
   * As written, a deactivated account is reported as missing, and
   * "already deactivated" is never reported.
   */
  lemma AlreadyDeactivatedUnreachableAsWritten(users: map<string, User>, id: string)
    ensures DeactivateCheckAsWritten(users, id) != Some(AlreadyDeactivated)
    ensures id in users && users[id].deletedAt.Some? ==> DeactivateCheckAsWritten(users, id) == Some(UserNotFound)
  {
  }

  /** A concrete account that is deactivated and yet reported as not found. */
  lemma DeactivatedReportedMissingAsWritten()
    ensures DeactivateCheckAsWritten(map["u" := User("u", "alice", "", Some(0))], "u") == Some(UserNotFound)
  {
  }

  /** The intended checks: an unscoped lookup, then the soft-delete flag. */
  function DeactivateCheck(users: map<string, User>, id: string): (r: Option<IdentityError>)
    ensures r == Some(UserNotFound) <==> id !in users
    ensures r == Some(AlreadyDeactivated) <==> id in users && users[id].deletedAt.Some?
    ensures r.None? <==> ScopedUser(users, id).Some?
  {
    if id !in users then Some(UserNotFound)
    else if users[id].deletedAt.Some? then Some(AlreadyDeactivated)
    else None
  }

  /** The two checks agree on every account that is not deactivated. */
  lemma DeactivateChecksAgreeOnActive(users: map<string, User>, id: string)
    requires !(id in users && users[id].deletedAt.Some?)
    ensures DeactivateCheck(users, id) == DeactivateCheckAsWritten(users, id)
  {
  }

  /** `SoftDeleteUserByID`: the deletion instant is recorded. */
  function SoftDelete(users: map<string, User>, id: string, now: Time): (r: map<string, User>)
    requires id in users
    ensures r.Keys == users.Keys && r[id].deletedAt == Some(now)
  {
    users[id := users[id].(deletedAt := Some(now))]
  }

  /** `DisableCompanyJobPosts`: every open job of the company is closed. */
  function DisableJobPosts(jobs: seq<Job>, companyId: string): (r: seq<Job>)
    ensures |r| == |jobs|
    ensures forall i :: 0 <= i < |r| && r[i].companyId == companyId ==> !r[i].isOpen
    ensures forall i :: 0 <= i < |r| ==> r[i] == jobs[i] || (jobs[i].companyId == companyId && r[i] == jobs[i].(isOpen := false))
  {
    seq(|jobs|, i requires 0 <= i < |jobs| =>
      if jobs[i].companyId == companyId && jobs[i].isOpen then jobs[i].(isOpen := false) else jobs[i])
  }

  /** A scoped company lookup. */
  predicate HasActiveCompany(companies: map<string, Company>, id: string) {
    id in companies && !companies[id].deleted
  }

  // ---------------------------------------------------------------------
  // Reactivation
  // ---------------------------------------------------------------------

  /** The checks `ReactivateAccount` makes, on an unscoped lookup. */
  function ReactivateCheck(users: map<string, User>, id: string, graceDays: int, now: Time): (r: Option<IdentityError>)
    ensures r == Some(UserNotFound) <==> id !in users
    ensures r == Some(NotDeactivated) <==> id in users && users[id].deletedAt.None?
    ensures r.Some? && r.value.GracePeriodExpired? <==>
              id in users && users[id].deletedAt.Some? && now > users[id].deletedAt.value + GraceSeconds(graceDays)
    ensures r.Some? && r.value.GracePeriodExpired? ==>
              r.value.deadline == r.value.deletedAt + GraceSeconds(graceDays)
  {
    if id !in users then Some(UserNotFound)
    else match users[id].deletedAt
      case None => Some(NotDeactivated)
      case Some(deletedAt) =>
        var deadline := deletedAt + GraceSeconds(graceDays);
        if now > deadline then Some(GracePeriodExpired(deletedAt, deadline)) else None
  }

  /** `RestoreUserByID`. */
  function Restore(users: map<string, User>, id: string): map<string, User>
    requires id in users
  {
    users[id := users[id].(deletedAt := None)]
  }

  /**
   * Deactivating an active account and reactivating it before the deadline
   * (the deadline included) gives back exactly the original account, and the
   * intended check reports the account as already deactivated meanwhile.
   */
  lemma DeactivateThenReactivate(users: map<string, User>, id: string, graceDays: int, at: Time, later: Time)
    requires DeactivateCheck(users, id).None?
    requires at <= later <= at + GraceSeconds(graceDays)
    ensures DeactivateCheck(SoftDelete(users, id, at), id) == Some(AlreadyDeactivated)
    ensures ReactivateCheck(SoftDelete(users, id, at), id, graceDays, later).None?
    ensures Restore(SoftDelete(users, id, at), id) == users
  {
    assert users[id].(deletedAt := None) == users[id];
  }

  /** After the deadline a deactivated account can no longer come back. */
  lemma NoReactivationAfterDeadline(users: map<string, User>, id: string, graceDays: int, at: Time, later: Time)
    requires id in users
    requires later > at + GraceSeconds(graceDays)
    ensures ReactivateCheck(SoftDelete(users, id, at), id, graceDays, later)
            == Some(GracePeriodExpired(at, at + GraceSeconds(graceDays)))
  {
  }

  // ---------------------------------------------------------------------
  // Anonymous ids
  // ---------------------------------------------------------------------

  const ANON_PREFIX := "ANON-"
  const ANONYMIZED_DOMAIN := "@anonymized.local"
  const ANONYMIZED := "Anonymized"

  /** `CheckIfAnonymized`'s test on a username. */
  predicate IsAnonymized(username: string) {
    |username| > 5 && username[..5] == ANON_PREFIX
  }

  predicate IsLowerHex(c: char) {
    '0' <= c <= '9' || 'a' <= c <= 'f'
  }

  function HexDigit(n: int): (c: char)
    requires 0 <= n < 16
    ensures IsLowerHex(c)
  {
    if n < 10 then ('0' as int + n) as char else ('a' as int + n - 10) as char
  }

  /** `hex.EncodeToString`: two lower-case digits per byte, high nibble first. */
  function HexEncode(bytes: seq<Crypto.byte>): (s: string)
    ensures |s| == 2 * |bytes|
    ensures forall i :: 0 <= i < |s| ==> IsLowerHex(s[i])
  {
    if bytes == [] then ""
    else [HexDigit(bytes[0] as int / 16), HexDigit(bytes[0] as int % 16)] + HexEncode(bytes[1..])
  }

  /** A SHA-256 digest. */
  type Digest = d: seq<Crypto.byte> | |d| == 32 witness seq(32, _ => 0 as Crypto.byte)

  /**
   * `generateAnonymousID`: "ANON-" and the first twelve hex digits of the
   * digest (of the id and the current time, which the model takes as input).
   */
  function GenerateAnonymousId(digest: Digest): (anon: string)
    ensures |anon| == 17 && anon[..5] == ANON_PREFIX
    ensures forall i :: 5 <= i < 17 ==> IsLowerHex(anon[i])
    ensures IsAnonymized(anon)
  {
    ANON_PREFIX + HexEncode(digest)[..12]
  }

  /** `CheckIfAnonymized`: an unscoped lookup, then the username test. */
  function CheckIfAnonymized(users: map<string, User>, id: string): (r: Result<bool, IdentityError>)
    ensures r.Err? <==> id !in users
    ensures r.Ok? ==> (r.value <==> IsAnonymized(users[id].username))
  {
    if id !in users then Err(UserNotFound) else Ok(IsAnonymized(users[id].username))
  }

  // ---------------------------------------------------------------------
  // Anonymisation field maps
  // ---------------------------------------------------------------------

  function AnonymizedEmail(anon: string): string {
    anon + ANONYMIZED_DOMAIN
  }

  /** The user row keeps its id and deletion instant; name and password go. */
  function AnonymizeUser(u: User, anon: string): (r: User)
    ensures r.id == u.id && r.deletedAt == u.deletedAt
    ensures r.username == anon && r.passwordHash == ""
  {
    u.(username := anon, passwordHash := "")
  }

  /** `anonymizeStudentData`'s field map; birth dates become 1970-01-01. */
  function AnonymizeStudent(s: Student, anon: string): (r: Student)
    ensures r.major == ANONYMIZED && r.studentId == anon && r.userId == s.userId && r.deleted == s.deleted
  {
    s.(phone := "", photoId := "", birthDate := 0, aboutMe := "", gitHub := "", linkedIn := "",
       studentId := anon, major := ANONYMIZED, statusFileId := "")
  }

  /** `anonymizeCompanyData`'s field map. */
  function AnonymizeCompany(c: Company, anon: string): (r: Company)
    ensures r.email == AnonymizedEmail(anon) && r.city == ANONYMIZED && r.country == ANONYMIZED
    ensures r.userId == c.userId && r.deleted == c.deleted
  {
    c.(email := AnonymizedEmail(anon), website := "", phone := "", photoId := "", bannerId := "",
       aboutUs := "", address := "", city := ANONYMIZED, country := ANONYMIZED)
  }

  /** `anonymizeGoogleOAuthData`'s field map. */
  function AnonymizeOAuth(o: OAuthDetails, anon: string): (r: OAuthDetails)
    ensures r.externalId == anon && r.email == AnonymizedEmail(anon)
    ensures r.userId == o.userId && r.deleted == o.deleted
  {
    o.(externalId := anon, firstName := ANONYMIZED, lastName := "User", email := AnonymizedEmail(anon))
  }

  /** The contact fields of an application. */
  function AnonymizeApplication(a: JobApplication, anon: string): (r: JobApplication)
    ensures r.jobId == a.jobId && r.userId == a.userId && r.status == a.status
    ensures r.contactPhone == "" && r.contactEmail == AnonymizedEmail(anon)
  {
    a.(contactPhone := "", contactEmail := AnonymizedEmail(anon))
  }

  /**
   * Nothing personal survives: two rows that differ only in personal data
   * are equal once anonymised with the same id.
   */
  lemma AnonymizationForgetsPersonalData(
    u1: User, u2: User, s1: Student, s2: Student, c1: Company, c2: Company,
    o1: OAuthDetails, o2: OAuthDetails, a1: JobApplication, a2: JobApplication, anon: string)
    requires u1.id == u2.id && u1.deletedAt == u2.deletedAt
    requires s1.userId == s2.userId && s1.deleted == s2.deleted
    requires c1.userId == c2.userId && c1.deleted == c2.deleted
    requires o1.userId == o2.userId && o1.deleted == o2.deleted
    requires a1.(contactPhone := "", contactEmail := "") == a2.(contactPhone := "", contactEmail := "")
    ensures AnonymizeUser(u1, anon) == AnonymizeUser(u2, anon)
    ensures AnonymizeStudent(s1, anon) == AnonymizeStudent(s2, anon)
    ensures AnonymizeCompany(c1, anon) == AnonymizeCompany(c2, anon)
    ensures AnonymizeOAuth(o1, anon) == AnonymizeOAuth(o2, anon)
    ensures AnonymizeApplication(a1, anon) == AnonymizeApplication(a2, anon)
  {
  }

  /**
   * `AnonymizeAccount` for the accounts in `ids`, each with its own id
   * `anonOf(id)`: users, companies and OAuth rows; a student's row and its
   * applications only when the user has a student row.
   */
  function AnonymizeAll(t: Tables, ids: set<string>, anonOf: string -> string): (r: Tables)
    ensures r.users.Keys == t.users.Keys && r.students.Keys == t.students.Keys
    ensures r.companies.Keys == t.companies.Keys && r.oauths.Keys == t.oauths.Keys
    ensures |r.applications| == |t.applications| && r.jobs == t.jobs
  {
    Tables(
      AnonymizeUsers(t.users, ids, anonOf),
      map id | id in t.students :: if id in ids then AnonymizeStudent(t.students[id], anonOf(id)) else t.students[id],
      map id | id in t.companies :: if id in ids then AnonymizeCompany(t.companies[id], anonOf(id)) else t.companies[id],
      map id | id in t.oauths :: if id in ids then AnonymizeOAuth(t.oauths[id], anonOf(id)) else t.oauths[id],
      AnonymizeApplications(t.applications, t.students.Keys, ids, anonOf),
      t.jobs)
  }

  function AnonymizeUsers(users: map<string, User>, ids: set<string>, anonOf: string -> string): (r: map<string, User>)
    ensures r.Keys == users.Keys
  {
    map id | id in users :: if id in ids then AnonymizeUser(users[id], anonOf(id)) else users[id]
  }

  /** Applications of students in `ids` lose their contact details. */
  function AnonymizeApplications(apps: seq<JobApplication>, students: set<string>, ids: set<string>, anonOf: string -> string): (r: seq<JobApplication>)
    ensures |r| == |apps|
  {
    seq(|apps|, i requires 0 <= i < |apps| =>
      if apps[i].userId in ids && apps[i].userId in students then AnonymizeApplication(apps[i], anonOf(apps[i].userId)) else apps[i])
  }

  /** `AnonymizeAccount` for one account. */
  function AnonymizeOne(t: Tables, id: string, anon: string): Tables {
    AnonymizeAll(t, {id}, _ => anon)
  }

  /** Anonymising accounts one at a time composes into anonymising them together. */
  lemma AnonymizeStep(t: Tables, done: set<string>, id: string, anonOf: string -> string)
    requires id !in done
    ensures AnonymizeOne(AnonymizeAll(t, done, anonOf), id, anonOf(id)) == AnonymizeAll(t, done + {id}, anonOf)
  {
    var t1 := AnonymizeAll(t, done, anonOf);
    var lhs := AnonymizeOne(t1, id, anonOf(id));
    var rhs := AnonymizeAll(t, done + {id}, anonOf);
    assert lhs.users == rhs.users;
    assert lhs.students == rhs.students;
    assert lhs.companies == rhs.companies;
    assert lhs.oauths == rhs.oauths;
    assert lhs.applications == rhs.applications by {
      assert t1.students.Keys == t.students.Keys;
      forall i | 0 <= i < |lhs.applications|
        ensures lhs.applications[i] == rhs.applications[i]
      {
      }
    }
  }

  // ---------------------------------------------------------------------
  // The batch anonymiser
  // ---------------------------------------------------------------------

  /** `ListSoftDeletedUsersBefore`: deactivated strictly before the cutoff. */
  function Listed(users: map<string, User>, cutoff: Time): (r: set<string>)
    ensures forall id :: id in r <==> id in users && users[id].deletedAt.Some? && users[id].deletedAt.value < cutoff
  {
    set id | id in users && users[id].deletedAt.Some? && users[id].deletedAt.value < cutoff
  }

  /** The listed accounts the batch does not skip as already anonymised. */
  function Pending(users: map<string, User>, cutoff: Time): (r: set<string>)
    ensures r <= Listed(users, cutoff)
    ensures forall id :: id in r <==> id in Listed(users, cutoff) && !IsAnonymized(users[id].username)
  {
    set id | id in Listed(users, cutoff) && !IsAnonymized(users[id].username)
  }

  function Cutoff(now: Time, graceDays: int): Time {
    now - GraceSeconds(graceDays)
  }

  /** The anonymous id the batch gives an account. */
  function AnonFor(digestOf: string -> Digest): string -> string {
    id => GenerateAnonymousId(digestOf(id))
  }

  /**
   * After a pass, a second pass would touch only the accounts that failed in
   * the first: every other expired account now counts as anonymised.
   */
  lemma SecondPassTouchesOnlyFailures(t: Tables, cutoff: Time, digestOf: string -> Digest, failing: set<string>)
    ensures var after := AnonymizeAll(t, Pending(t.users, cutoff) - failing, AnonFor(digestOf));
            Pending(after.users, cutoff) == Pending(t.users, cutoff) * failing
  {
    var ids := Pending(t.users, cutoff) - failing;
    var after := AnonymizeAll(t, ids, AnonFor(digestOf));
    forall id | id in after.users
      ensures id in Pending(after.users, cutoff) <==> id in Pending(t.users, cutoff) * failing
    {
      if id in ids {
        assert after.users[id] == AnonymizeUser(t.users[id], GenerateAnonymousId(digestOf(id)));
        assert IsAnonymized(after.users[id].username);
      }
    }
  }

  /** Accounts outside the set keep their user row. */
  lemma Untouched(t: Tables, ids: set<string>, anonOf: string -> string, id: string)
    requires id !in ids && id in t.users
    ensures AnonymizeAll(t, ids, anonOf).users[id] == t.users[id]
  {
  }

  /** The pending accounts visited so far grow by the one visited now, if it is pending. */
  lemma DoneStep(listed: set<string>, remaining: set<string>, pending: set<string>, id: string)
    requires id in remaining && remaining <= listed
    ensures id in pending ==> (listed - (remaining - {id})) * pending == (listed - remaining) * pending + {id}
    ensures id !in pending ==> (listed - (remaining - {id})) * pending == (listed - remaining) * pending
    ensures id !in (listed - remaining) * pending
  {
  }

  /**
   * The tallies of the batch after visiting `listed - remaining`: the
   * pending accounts among them that were anonymised, and those that failed.
   */
  ghost predicate Tally(listed: set<string>, remaining: set<string>, pending: set<string>, failing: set<string>,
                        succeeded: set<string>, failed: set<string>)
  {
    succeeded == (listed - remaining) * pending - failing
    && failed == (listed - remaining) * pending * failing
  }

  /** Visiting one more account adds it to at most one tally, which grows by one. */
  lemma TallyStep(listed: set<string>, remaining: set<string>, pending: set<string>, failing: set<string>,
                  succeeded: set<string>, failed: set<string>, id: string)
    requires id in remaining && remaining <= listed && Tally(listed, remaining, pending, failing, succeeded, failed)
    ensures id !in succeeded && id !in failed
    ensures |succeeded + {id}| == |succeeded| + 1 && |failed + {id}| == |failed| + 1
    ensures Tally(listed, remaining - {id}, pending, failing,
                  if id in pending && id !in failing then succeeded + {id} else succeeded,
                  if id in pending && id in failing then failed + {id} else failed)
  {
    var visited := listed - remaining;
    var visited' := listed - (remaining - {id});
    assert visited' * pending == (if id in pending then visited * pending + {id} else visited * pending);
  }

  /** Once every listed account is visited, the tallies split the pending accounts by failure. */
  lemma TallyDone(listed: set<string>, pending: set<string>, failing: set<string>,
                  succeeded: set<string>, failed: set<string>)
    requires pending <= listed && Tally(listed, {}, pending, failing, succeeded, failed)
    ensures succeeded == pending - failing && failed == pending * failing
  {
    assert (listed - {}) * pending == pending;
  }

  /** A pass over accounts that are all anonymised already changes nothing. */
  lemma AnonymizeNoneIsIdentity(t: Tables, anonOf: string -> string)
    ensures AnonymizeAll(t, {}, anonOf) == t
  {
    assert AnonymizeAll(t, {}, anonOf).applications == t.applications;
  }

  /** The data model change a company profile edit asks for; every field optional. */
  datatype CompanyEdit = CompanyEdit(
    phone: Option<string>, email: Option<string>, website: Option<string>, address: Option<string>,
    city: Option<string>, country: Option<string>, aboutUs: Option<string>, username: Option<string>)

  /** The update map of `UpdateCompanyProfile`, applied to the company row. */
  function ApplyEdit(c: Company, e: CompanyEdit): (r: Company)
    ensures Overwritten(e.phone, c.phone, r.phone)
    ensures Overwritten(e.email, c.email, r.email)
    ensures Overwritten(e.website, c.website, r.website)
    ensures Overwritten(e.address, c.address, r.address)
    ensures Overwritten(e.city, c.city, r.city)
    ensures Overwritten(e.country, c.country, r.country)
    ensures Overwritten(e.aboutUs, c.aboutUs, r.aboutUs)
    ensures r.userId == c.userId && r.photoId == c.photoId && r.bannerId == c.bannerId && r.deleted == c.deleted
    ensures e == CompanyEdit(None, None, None, None, None, None, None, e.username) ==> r == c
  {
    c.(phone := OrElse(e.phone, c.phone), address := OrElse(e.address, c.address), city := OrElse(e.city, c.city),
       country := OrElse(e.country, c.country), aboutUs := OrElse(e.aboutUs, c.aboutUs),
       email := OrElse(e.email, c.email), website := OrElse(e.website, c.website))
  }

  /** `ExistsUsername`: a scoped count, so names of deactivated accounts are free. */
  predicate UsernameTaken(users: map<string, User>, name: string) {
    exists id :: id in users && users[id].deletedAt.None? && users[id].username == name
  }

  predicate IsAsciiLetter(c: char) {
    'a' <= c <= 'z' || 'A' <= c <= 'Z'
  }

  predicate IsSchemeChar(c: char) {
    IsAsciiLetter(c) || IsDigit(c) || c == '+' || c == '-' || c == '.'
  }

  /**
   * The scheme scan of Go's `url.Parse` from position `i`: letters, then
   * letters, digits, '+', '-' or '.', up to a ':'; a ':' in first position
   * is an error, any other character means "no scheme". The scheme is
   * lower-cased.
   */
  function SchemeScan(raw: string, i: nat): (r: Result<string, ()>)
    requires i <= |raw|
    ensures r.Ok? && r.value != "" ==>
              exists k :: i <= k < |raw| && 0 < k && raw[k] == ':' && r.value == ToLower(raw[..k])
    decreases |raw| - i
  {
    if i == |raw| then Ok("")
    else
      var c := raw[i];
      if IsAsciiLetter(c) then SchemeScan(raw, i + 1)
      else if IsDigit(c) || c == '+' || c == '-' || c == '.' then
        if i == 0 then Ok("") else SchemeScan(raw, i + 1)
      else if c == ':' then
        if i == 0 then Err(()) else Ok(ToLower(raw[..i]))
      else Ok("")
  }

  /** An ASCII control character: below space, or DEL. */
  predicate HasControlByte(s: string) {
    exists i :: 0 <= i < |s| && (s[i] < ' ' || s[i] as int == 127)
  }

  /**
   * The part `url.Parse` parses: it cuts the text at the first '#' and only
   * unescapes the fragment, so control characters after the '#' pass.
   */
  function BeforeFragment(w: string): (u: string)
    ensures '#' !in u && |u| <= |w| && u == w[..|u|]
    ensures |u| < |w| ==> w[|u|] == '#'
  {
    if w == [] || w[0] == '#' then [] else [w[0]] + BeforeFragment(w[1..])
  }

  /** Text without a '#' is kept whole in front of whatever follows it. */
  lemma {:induction false} BeforeFragmentAppend(p: string, rest: string)
    requires '#' !in p
    ensures BeforeFragment(p + rest) == p + BeforeFragment(rest)
  {
    if p == [] {
      assert p + rest == rest;
    } else {
      assert p == [p[0]] + p[1..];
      assert (p + rest)[1..] == p[1..] + rest;
      BeforeFragmentAppend(p[1..], rest);
    }
  }

  /** The website check: the text before the fragment parses and its scheme is http or https. */
  predicate WebsiteAccepted(w: string) {
    var u := BeforeFragment(w);
    !HasControlByte(u) && SchemeScan(u, 0) in {Ok("http"), Ok("https")}
  }

  /** The fragment plays no part in the check: whatever follows the '#', the verdict is that of the text before it. */
  lemma FragmentIsNotChecked(base: string, fragment: string)
    requires '#' !in base
    ensures WebsiteAccepted(base + "#" + fragment) == WebsiteAccepted(base)
  {
    BeforeFragmentAppend(base, "#" + fragment);
    BeforeFragmentAppend(base, []);
    assert base + "#" + fragment == base + ("#" + fragment);
    assert base + [] == base;
  }

  /**
   * An http address is accepted whatever its fragment holds, control
   * characters such as a tab included.
   */
  lemma ControlByteInFragmentAccepted(host: string, fragment: string)
    requires '#' !in host && !HasControlByte(host)
    ensures WebsiteAccepted("http://" + host + "#" + fragment)
  {
    var base := "http" + ":" + ("//" + host);
    HttpAddressAccepted(host);
    FragmentIsNotChecked(base, fragment);
    assert "http://" + host + "#" + fragment == base + "#" + fragment;
  }

  /** An http address without '#' or control characters is accepted. */
  lemma HttpAddressAccepted(host: string)
    requires '#' !in host && !HasControlByte(host)
    ensures var base := "http" + ":" + ("//" + host);
            '#' !in base && WebsiteAccepted(base)
  {
    var base := "http" + ":" + ("//" + host);
    assert '#' !in base && !HasControlByte(base) by {
      forall i | 7 <= i < |base| ensures base[i] == host[i - 7] { }
    }
    assert SchemeScan(base, 0) == Ok("http") by {
      SchemeScanOfPrefix("http", "//" + host, 0);
      assert ToLower("http") == "http";
    }
    BeforeFragmentAppend(base, []);
    assert base + [] == base;
  }

  /** The scan from inside a scheme reaches its ':' and returns it lower-cased. */
  lemma {:induction false} SchemeScanOfPrefix(scheme: string, rest: string, i: nat)
    requires |scheme| > 0 && IsAsciiLetter(scheme[0])
    requires forall j :: 0 <= j < |scheme| ==> IsSchemeChar(scheme[j])
    requires i <= |scheme|
    ensures SchemeScan(scheme + ":" + rest, i) == Ok(ToLower(scheme))
    decreases |scheme| - i
  {
    var raw := scheme + ":" + rest;
    if i == |scheme| {
      assert raw[i] == ':';
      assert raw[..i] == scheme;
    } else {
      assert raw[i] == scheme[i];
      SchemeScanOfPrefix(scheme, rest, i + 1);
    }
  }

  /**
   * A website whose text before the fragment has no control character is
   * accepted exactly when its scheme, in any case, is http or https.
   */
  lemma WebsiteSchemeRule(scheme: string, rest: string)
    requires |scheme| > 0 && IsAsciiLetter(scheme[0])
    requires forall j :: 0 <= j < |scheme| ==> IsSchemeChar(scheme[j])
    requires !HasControlByte(scheme + ":" + BeforeFragment(rest))
    ensures WebsiteAccepted(scheme + ":" + rest) <==> ToLower(scheme) in {"http", "https"}
  {
    assert '#' !in scheme + ":" by {
      forall j | 0 <= j < |scheme| ensures scheme[j] != '#' {
        assert IsSchemeChar(scheme[j]);
      }
    }
    BeforeFragmentAppend(scheme + ":", rest);
    SchemeScanOfPrefix(scheme, BeforeFragment(rest), 0);
  }

  /** Without a ':' ahead there is no scheme. */
  lemma {:induction false} SchemeScanNoColon(raw: string, i: nat)
    requires i <= |raw|
    requires forall k :: i <= k < |raw| ==> raw[k] != ':'
    ensures SchemeScan(raw, i) == Ok("")
    decreases |raw| - i
  {
    if i < |raw| && (IsAsciiLetter(raw[i]) || (i > 0 && (IsDigit(raw[i]) || raw[i] == '+' || raw[i] == '-' || raw[i] == '.'))) {
      SchemeScanNoColon(raw, i + 1);
    }
  }

  /** An address with no ':', such as a bare host name, has no scheme and is refused. */
  lemma BareHostRefused(host: string)
    requires ':' !in host
    ensures !WebsiteAccepted(host)
  {
    var u := BeforeFragment(host);
    assert forall k :: 0 <= k < |u| ==> u[k] == host[k];
    SchemeScanNoColon(u, 0);
  }

  /** What `UpdateCompanyProfile` reports, checked in the source's order. */
  function CompanyEditCheck(t: Tables, id: string, e: CompanyEdit, parseAddress: string -> bool): (r: Option<IdentityError>)
    ensures r == Some(UsernameExists) <==> e.username.Some? && UsernameTaken(t.users, e.username.value)
    ensures r.None? ==> HasActiveCompany(t.companies, id)
    ensures r.None? && e.website.Some? ==> WebsiteAccepted(e.website.value)
    ensures r.None? && e.email.Some? ==> parseAddress(e.email.value)
    ensures r.None? <==>
              !(e.username.Some? && UsernameTaken(t.users, e.username.value)) && HasActiveCompany(t.companies, id)
              && (e.email.Some? ==> parseAddress(e.email.value)) && (e.website.Some? ==> WebsiteAccepted(e.website.value))
  {
    if e.username.Some? && UsernameTaken(t.users, e.username.value) then Some(UsernameExists)
    else if !HasActiveCompany(t.companies, id) then Some(CompanyNotFound)
    else if e.email.Some? && !parseAddress(e.email.value) then Some(InvalidEmail)
    else if e.website.Some? && !WebsiteAccepted(e.website.value) then Some(InvalidWebsite)
    else None
  }

  /** The user table after the username step (an unscoped update). */
  function RenameUser(users: map<string, User>, id: string, e: CompanyEdit): map<string, User> {
    if e.username.Some? && !UsernameTaken(users, e.username.value) && id in users
    then users[id := users[id].(username := e.username.value)]
    else users
  }

  /** A rename never makes two active accounts share a name they did not share. */
  lemma RenameKeepsOtherNamesFree(users: map<string, User>, id: string, e: CompanyEdit, other: string)
    requires e.username.Some? && id in users && other in users && other != id
    requires users[other].deletedAt.None?
    requires !UsernameTaken(users, e.username.value)
    ensures RenameUser(users, id, e)[id].username == e.username.value
    ensures RenameUser(users, id, e)[other].username != e.username.value
  {
  }

  /** An active account asking for the name it already has is refused too. */
  lemma OwnNameCountsAsTaken(t: Tables, id: string, e: CompanyEdit, parseAddress: string -> bool)
    requires id in t.users && t.users[id].deletedAt.None? && e.username == Some(t.users[id].username)
    ensures CompanyEditCheck(t, id, e, parseAddress) == Some(UsernameExists)
  {
  }

  /** The tables behind `IdentityService`. */
  class IdentityStore {
    var db: Tables

    constructor (initial: Tables)
      ensures db == initial
    {
      db := initial;
    }

    /**
     * `DeactivateAccount` with the intended check: soft-deletes the user,
     * closes the jobs of an active company, and returns now + grace days.
     */
    method DeactivateAccount(id: string, graceDays: int, now: Time) returns (r: Result<Time, IdentityError>)
      modifies this
      ensures DeactivateCheck(old(db.users), id).Some? ==>
                r == Err(DeactivateCheck(old(db.users), id).value) && db == old(db)
      ensures DeactivateCheck(old(db.users), id).None? ==>
                r == Ok(now + GraceSeconds(graceDays))
                && db == old(db).(users := SoftDelete(old(db.users), id, now),
                                  jobs := if HasActiveCompany(old(db.companies), id)
                                          then DisableJobPosts(old(db.jobs), id) else old(db.jobs))
    {
      var check := DeactivateCheck(db.users, id);
      if check.Some? {
        return Err(check.value);
      }
      if HasActiveCompany(db.companies, id) {
        db := db.(jobs := DisableJobPosts(db.jobs, id));
      }
      db := db.(users := SoftDelete(db.users, id, now));
      r := Ok(now + GraceSeconds(graceDays));
    }

    /**
     * `ReactivateAccount`: restores the user and any soft-deleted student,
     * company or OAuth row of it.
     */
    method ReactivateAccount(id: string, graceDays: int, now: Time) returns (err: Option<IdentityError>)
      modifies this
      ensures err == ReactivateCheck(old(db.users), id, graceDays, now)
      ensures err.Some? ==> db == old(db)
      ensures err.None? ==>
                db.users == Restore(old(db.users), id) && db.applications == old(db.applications)
                && db.jobs == old(db.jobs)
                && db.students == (if id in old(db.students) then old(db.students)[id := old(db.students)[id].(deleted := false)] else old(db.students))
                && db.companies == (if id in old(db.companies) then old(db.companies)[id := old(db.companies)[id].(deleted := false)] else old(db.companies))
                && db.oauths == (if id in old(db.oauths) then old(db.oauths)[id := old(db.oauths)[id].(deleted := false)] else old(db.oauths))
    {
      err := ReactivateCheck(db.users, id, graceDays, now);
      if err.Some? {
        return;
      }
      db := db.(users := Restore(db.users, id));
      if id in db.students && db.students[id].deleted {
        db := db.(students := db.students[id := db.students[id].(deleted := false)]);
      }
      if id in db.companies && db.companies[id].deleted {
        db := db.(companies := db.companies[id := db.companies[id].(deleted := false)]);
      }
      if id in db.oauths && db.oauths[id].deleted {
        db := db.(oauths := db.oauths[id := db.oauths[id].(deleted := false)]);
      }
    }

    /**
     * `AnonymizeAccount`; `updateFails` is the outcome of the user-row
     * update, the first write.
     */
    method AnonymizeAccount(id: string, digest: Digest, updateFails: bool) returns (err: Option<IdentityError>)
      modifies this
      ensures err.Some? <==> id !in old(db.users) || updateFails
      ensures err.Some? ==> err.value == AnonymizationFailed && db == old(db)
      ensures err.None? ==> db == AnonymizeOne(old(db), id, GenerateAnonymousId(digest))
    {
      if id !in db.users || updateFails {
        return Some(AnonymizationFailed);
      }
      db := AnonymizeOne(db, id, GenerateAnonymousId(digest));
      err := None;
    }

    /**
     * One account of the batch: skipped when already anonymised, otherwise
     * `AnonymizeAccount`, whose failure is only counted.
     */
    method VisitExpired(ghost start: Tables, ghost succeeded: set<string>, id: string, digestOf: string -> Digest, failing: set<string>)
      returns (anonymizedNow: bool, failedNow: bool)
      requires id in start.users && id !in succeeded
      requires db == AnonymizeAll(start, succeeded, AnonFor(digestOf))
      modifies this
      ensures var visit := !IsAnonymized(start.users[id].username);
              anonymizedNow == (visit && id !in failing) && failedNow == (visit && id in failing)
      ensures db == AnonymizeAll(start, if anonymizedNow then succeeded + {id} else succeeded, AnonFor(digestOf))
    {
      Untouched(start, succeeded, AnonFor(digestOf), id);
      if IsAnonymized(db.users[id].username) {
        return false, false;
      }
      var err := AnonymizeAccount(id, digestOf(id), id in failing);
      if err.Some? {
        return false, true;
      }
      assert AnonFor(digestOf)(id) == GenerateAnonymousId(digestOf(id));
      AnonymizeStep(start, succeeded, id, AnonFor(digestOf));
      return true, false;
    }

    /**
     * `AnonymizeExpiredAccounts`: lists the accounts deactivated before the
     * cutoff, then anonymises them.
     */
    method AnonymizeExpiredAccounts(graceDays: int, now: Time, digestOf: string -> Digest, failing: set<string>)
      returns (anonymized: nat, errors: nat)
      modifies this
      ensures var pending := Pending(old(db.users), Cutoff(now, graceDays));
              db == AnonymizeAll(old(db), pending - failing, AnonFor(digestOf))
              && anonymized == |pending - failing| && errors == |pending * failing|
    {
      var cutoff := Cutoff(now, graceDays);
      anonymized, errors := AnonymizeListed(db, Listed(db.users, cutoff), Pending(db.users, cutoff), digestOf, failing);
    }

    /**
     * The loop of `AnonymizeExpiredAccounts`: visits every listed account,
     * in no particular order, skips those already anonymised, and counts
     * successes and failures; a failure never stops the pass. `failing`
     * holds the accounts whose update fails.
     */
    method AnonymizeListed(ghost start: Tables, listed: set<string>, ghost pending: set<string>,
                           digestOf: string -> Digest, failing: set<string>)
      returns (anonymized: nat, errors: nat)
      requires db == start && pending <= listed
      requires forall id :: id in listed ==>
                 id in start.users && (id in pending <==> !IsAnonymized(start.users[id].username))
      modifies this
      ensures db == AnonymizeAll(start, pending - failing, AnonFor(digestOf))
      ensures anonymized == |pending - failing| && errors == |pending * failing|
    {
      var remaining := listed;
      ghost var succeeded: set<string> := {};
      ghost var failed: set<string> := {};
      anonymized, errors := 0, 0;
      AnonymizeNoneIsIdentity(start, AnonFor(digestOf));
      while remaining != {}
        invariant remaining <= listed
        invariant Tally(listed, remaining, pending, failing, succeeded, failed)
        invariant db == AnonymizeAll(start, succeeded, AnonFor(digestOf))
        invariant anonymized == |succeeded| && errors == |failed|
        decreases remaining
      {
        var id :| id in remaining;
        TallyStep(listed, remaining, pending, failing, succeeded, failed, id);
        var anonymizedNow, failedNow := VisitExpired(start, succeeded, id, digestOf, failing);
        if failedNow {
          errors := errors + 1;
        } else if anonymizedNow {
          anonymized := anonymized + 1;
        }
        succeeded := if anonymizedNow then succeeded + {id} else succeeded;
        failed := if failedNow then failed + {id} else failed;
        remaining := remaining - {id};
      }
      TallyDone(listed, pending, failing, succeeded, failed);
    }

    /**
     * `UpdateCompanyProfile` without uploads: the username step is written
     * first and stays written when a later check fails.
     */
    method UpdateCompanyProfile(id: string, e: CompanyEdit, parseAddress: string -> bool) returns (err: Option<IdentityError>)
      modifies this
      ensures err == CompanyEditCheck(old(db), id, e, parseAddress)
      ensures err == Some(UsernameExists) ==> db == old(db)
      ensures err.Some? && err != Some(UsernameExists) ==>
                db == old(db).(users := RenameUser(old(db.users), id, e))
      ensures err.None? ==>
                db == old(db).(users := RenameUser(old(db.users), id, e),
                               companies := old(db.companies)[id := ApplyEdit(old(db.companies)[id], e)])
    {
      if e.username.Some? {
        if UsernameTaken(db.users, e.username.value) {
          return Some(UsernameExists);
        }
        if id in db.users {
          db := db.(users := db.users[id := db.users[id].(username := e.username.value)]);
        }
      }
      if !HasActiveCompany(db.companies, id) {
        return Some(CompanyNotFound);
      }
      if e.email.Some? && !parseAddress(e.email.value) {
        return Some(InvalidEmail);
      }
      if e.website.Some? && !WebsiteAccepted(e.website.value) {
        return Some(InvalidWebsite);
      }
      db := db.(companies := db.companies[id := ApplyEdit(db.companies[id], e)]);
      err := None;
    }
  }
}
