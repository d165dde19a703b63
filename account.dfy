/** Account helpers (backend/helper/account.go). */
module Account {
  import opened Wrappers
  import opened Text
  import opened Model

  const DEFAULT_GRACE_PERIOD_DAYS: nat := 30

  /**
   * `GetGracePeriodDays`: the value of `ACCOUNT_DELETION_GRACE_PERIOD_DAYS`
   * when it parses to a positive number, otherwise 30.
   */
  function GetGracePeriodDays(env: string): (days: nat)
    ensures days >= 1
    ensures Atoi(env).Some? && Atoi(env).value > 0 ==> days == Atoi(env).value
    ensures Atoi(env).None? || Atoi(env).value <= 0 ==> days == DEFAULT_GRACE_PERIOD_DAYS
  {
    if env == "" then DEFAULT_GRACE_PERIOD_DAYS
    else
      match Atoi(env)
      case None => DEFAULT_GRACE_PERIOD_DAYS
      case Some(days) => if days <= 0 then DEFAULT_GRACE_PERIOD_DAYS else days
  }

  /** Every positive setting written in decimal is used as is. */
  lemma GracePeriodHonoursSetting(days: int)
    requires 0 < days <= INT64_MAX
    ensures GetGracePeriodDays(IntToString(days)) == days
  {
    AtoiRoundTrip(days);
  }

  /** Every zero or negative setting written in decimal falls back to 30. */
  lemma GracePeriodRejectsNonPositive(days: int)
    requires INT64_MIN <= days <= 0
    ensures GetGracePeriodDays(IntToString(days)) == DEFAULT_GRACE_PERIOD_DAYS
  {
    AtoiRoundTrip(days);
  }

  /**
   * The row `First` reads when the primary key is empty: with no key
   * condition it takes the lowest id (for canonical lower-case uuids the
   * text order is the database's uuid order).
   */
  function LowestId(users: seq<User>): (r: Option<User>)
    ensures r.None? <==> users == []
    ensures r.Some? ==> r.value in users && forall u :: u in users ==> LexLe(r.value.id, u.id)
  {
    if users == [] then None
    else match LowestId(users[1..])
      case None =>
        LexTotal(users[0].id, users[0].id);
        Some(users[0])
      case Some(m) =>
        LexTotal(users[0].id, m.id);
        LexTotal(users[0].id, users[0].id);
        assert forall u :: u in users ==> u == users[0] || u in users[1..];
        if LexLe(users[0].id, m.id) then
          assert forall u :: u in users[1..] ==> LexLe(users[0].id, u.id) by {
            forall u | u in users[1..] ensures LexLe(users[0].id, u.id) {
              LexTrans(users[0].id, m.id, u.id);
            }
          }
          Some(users[0])
        else
          Some(m)
  }

  /**
   * `IsDeactivated`: an unscoped lookup by primary key; a missing user counts
   * as not deactivated. An empty id sets no key, so the lowest-id user of the
   * whole table is read.
   */
  function IsDeactivated(users: seq<User>, userId: string): (r: bool)
    ensures userId != "" ==>
              (r <==> exists u :: u in users && u.id == userId && u.deletedAt.Some? && FindUser(users, userId) == Some(u))
    ensures userId == "" ==> (r <==> LowestId(users).Some? && LowestId(users).value.deletedAt.Some?)
  {
    var found := if userId == "" then LowestId(users) else FindUser(users, userId);
    match found
    case None => false
    case Some(u) => u.deletedAt.Some?
  }
}
