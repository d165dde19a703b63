/**
 * The refresh-token table (backend/repository/gorm/refresh_token_repository.go)
 * as an in-memory sequence of rows kept in insertion order, which stands for
 * creation order. Queries are filters over the rows.
 */
module RefreshTokens {
  import opened Wrappers
  import opened Model

  /** One stored refresh token; `tokenHash` is the hashed validator. */
  datatype RefreshToken = RefreshToken(
    id: nat,
    userId: string,
    selector: string,
    tokenHash: string,
    createdAt: Time,
    expiresAt: Time,
    revokedAt: Option<Time>)

  /** The rows `CountActiveByUser` counts: the user's, not revoked, not yet expired. */
  predicate IsActive(t: RefreshToken, userId: string, now: Time) {
    t.userId == userId && t.revokedAt.None? && t.expiresAt > now
  }

  /** The rows `FindOldestActiveByUserLimit` selects: the user's, not revoked. */
  predicate IsUnrevoked(t: RefreshToken, userId: string) {
    t.userId == userId && t.revokedAt.None?
  }

  function CountActive(ts: seq<RefreshToken>, userId: string, now: Time): nat {
    if ts == [] then 0
    else (if IsActive(ts[0], userId, now) then 1 else 0) + CountActive(ts[1..], userId, now)
  }

  function IdsOf(ts: seq<RefreshToken>): set<nat> {
    set t | t in ts :: t.id
  }

  predicate DistinctIds(ts: seq<RefreshToken>) {
    forall i, j :: 0 <= i < j < |ts| ==> ts[i].id != ts[j].id
  }

  predicate DistinctSelectors(ts: seq<RefreshToken>) {
    forall i, j :: 0 <= i < j < |ts| ==> ts[i].selector != ts[j].selector
  }

  /** The user's tokens that are active at `now`, in table order. */
  function ActiveTokens(ts: seq<RefreshToken>, userId: string, now: Time): (r: seq<RefreshToken>)
    ensures |r| == CountActive(ts, userId, now)
    ensures forall t :: t in r <==> t in ts && IsActive(t, userId, now)
  {
    if ts == [] then []
    else (if IsActive(ts[0], userId, now) then [ts[0]] else []) + ActiveTokens(ts[1..], userId, now)
  }

  /** The user's unrevoked tokens, expired or not, in table order. */
  function UnrevokedTokens(ts: seq<RefreshToken>, userId: string): (r: seq<RefreshToken>)
    ensures |r| <= |ts|
    ensures forall t :: t in r <==> t in ts && IsUnrevoked(t, userId)
  {
    if ts == [] then []
    else (if IsUnrevoked(ts[0], userId) then [ts[0]] else []) + UnrevokedTokens(ts[1..], userId)
  }

  function Min(a: nat, b: nat): nat {
    if a <= b then a else b
  }

  /**
   * Ids of the `limit` oldest tokens of the user that are active at `now`:
   * the selection the session cap needs. Rows are in creation order, so the
   * first active rows are the oldest.
   */
  function OldestActiveIds(ts: seq<RefreshToken>, userId: string, now: Time, limit: nat): (ids: seq<nat>)
    ensures |ids| == Min(limit, CountActive(ts, userId, now))
    ensures forall k :: 0 <= k < |ids| ==> ids[k] == ActiveTokens(ts, userId, now)[k].id
    ensures forall x :: x in ids ==> x in IdsOf(ts)
  {
    if ts == [] || limit == 0 then []
    else if IsActive(ts[0], userId, now) then [ts[0].id] + OldestActiveIds(ts[1..], userId, now, limit - 1)
    else OldestActiveIds(ts[1..], userId, now, limit)
  }

  /**
   * Ids of the `limit` oldest unrevoked tokens of the user, expired or not:
   * the selection `FindOldestActiveByUserLimit` makes as written
   * (refresh_token_repository.go, lines 63-75).
   */
  function OldestUnrevokedIds(ts: seq<RefreshToken>, userId: string, limit: nat): (ids: seq<nat>)
    ensures |ids| == Min(limit, |UnrevokedTokens(ts, userId)|)
    ensures forall k :: 0 <= k < |ids| ==> ids[k] == UnrevokedTokens(ts, userId)[k].id
  {
    if ts == [] || limit == 0 then []
    else if IsUnrevoked(ts[0], userId) then [ts[0].id] + OldestUnrevokedIds(ts[1..], userId, limit - 1)
    else OldestUnrevokedIds(ts[1..], userId, limit)
  }

  /** `RevokeByIDs`: every row whose id is listed gets `revokedAt := at`. */
  function RevokeIds(ts: seq<RefreshToken>, ids: seq<nat>, at: Time): seq<RefreshToken> {
    if ts == [] then []
    else [if ts[0].id in ids then ts[0].(revokedAt := Some(at)) else ts[0]] + RevokeIds(ts[1..], ids, at)
  }

  /** `RevokeAllForUser`: every unrevoked row of the user gets `revokedAt := at`. */
  function RevokeAllOf(ts: seq<RefreshToken>, userId: string, at: Time): seq<RefreshToken> {
    seq(|ts|, i requires 0 <= i < |ts| =>
      if IsUnrevoked(ts[i], userId) then ts[i].(revokedAt := Some(at)) else ts[i])
  }

  /** The first row with the given selector, if any (`FindBySelector`). */
  function FindBySelector(ts: seq<RefreshToken>, selector: string): (r: Option<RefreshToken>)
    ensures r.Some? ==> r.value in ts && r.value.selector == selector
    ensures r.None? ==> forall t :: t in ts ==> t.selector != selector
  {
    if ts == [] then None
    else if ts[0].selector == selector then Some(ts[0])
    else FindBySelector(ts[1..], selector)
  }

  lemma {:induction false} RevokeIdsNone(ts: seq<RefreshToken>, at: Time)
    ensures RevokeIds(ts, [], at) == ts
  {
    if ts != [] {
      RevokeIdsNone(ts[1..], at);
    }
  }

  /** Two id lists that agree on the ids present in the rows revoke the same rows. */
  lemma {:induction false} RevokeIdsSameOn(ts: seq<RefreshToken>, a: seq<nat>, b: seq<nat>, at: Time)
    requires forall t :: t in ts ==> (t.id in a <==> t.id in b)
    ensures RevokeIds(ts, a, at) == RevokeIds(ts, b, at)
  {
    if ts != [] {
      RevokeIdsSameOn(ts[1..], a, b, at);
    }
  }

  lemma {:induction false} DistinctIdsTail(ts: seq<RefreshToken>)
    requires DistinctIds(ts) && ts != []
    ensures DistinctIds(ts[1..]) && ts[0].id !in IdsOf(ts[1..])
  {
    forall t | t in ts[1..]
      ensures t.id != ts[0].id
    {
      var k :| 0 <= k < |ts[1..]| && ts[1..][k] == t;
      assert ts[1..][k] == ts[k + 1];
    }
  }

  /**
   * Revoking the oldest `n` active tokens of a user lowers the user's active
   * count by exactly `n`, or to zero when fewer are active.
   */
  lemma {:induction false} RevokeOldestActiveCount(ts: seq<RefreshToken>, userId: string, now: Time, n: nat, at: Time)
    requires DistinctIds(ts)
    ensures CountActive(RevokeIds(ts, OldestActiveIds(ts, userId, now, n), at), userId, now) ==
              if n <= CountActive(ts, userId, now) then CountActive(ts, userId, now) - n else 0
  {
    var ids := OldestActiveIds(ts, userId, now, n);
    if ts == [] {
    } else if n == 0 {
      RevokeIdsNone(ts, at);
    } else {
      DistinctIdsTail(ts);
      var m := if IsActive(ts[0], userId, now) then n - 1 else n;
      var tail := OldestActiveIds(ts[1..], userId, now, m);
      RevokeOldestActiveCount(ts[1..], userId, now, m, at);
      assert forall x :: x in tail ==> x in IdsOf(ts[1..]);
      RevokeIdsSameOn(ts[1..], ids, tail, at);
    }
  }

  /** A revocation never touches rows whose ids are not listed. */
  lemma {:induction false} RevokeIdsKeepsOthers(ts: seq<RefreshToken>, ids: seq<nat>, at: Time, i: nat)
    requires i < |ts| && ts[i].id !in ids
    ensures |RevokeIds(ts, ids, at)| == |ts| && RevokeIds(ts, ids, at)[i] == ts[i]
  {
    if i > 0 {
      RevokeIdsKeepsOthers(ts[1..], ids, at, i - 1);
    } else {
      RevokeIdsLength(ts, ids, at);
    }
  }

  lemma {:induction false} RevokeIdsLength(ts: seq<RefreshToken>, ids: seq<nat>, at: Time)
    ensures |RevokeIds(ts, ids, at)| == |ts|
  {
    if ts != [] {
      RevokeIdsLength(ts[1..], ids, at);
    }
  }

  lemma {:induction false} CountActiveAppend(ts: seq<RefreshToken>, t: RefreshToken, userId: string, now: Time)
    ensures CountActive(ts + [t], userId, now) ==
            CountActive(ts, userId, now) + (if IsActive(t, userId, now) then 1 else 0)
  {
    if ts == [] {
      assert ts + [t] == [t];
    } else {
      assert (ts + [t])[1..] == ts[1..] + [t];
      CountActiveAppend(ts[1..], t, userId, now);
    }
  }

  /** Revoking every token of a user leaves the user no active token. */
  lemma {:induction false} RevokeAllLeavesNoneActive(ts: seq<RefreshToken>, userId: string, now: Time, at: Time)
    ensures CountActive(RevokeAllOf(ts, userId, at), userId, now) == 0
  {
    if ts != [] {
      assert RevokeAllOf(ts, userId, at)[1..] == RevokeAllOf(ts[1..], userId, at);
      RevokeAllLeavesNoneActive(ts[1..], userId, now, at);
    }
  }

  /**
   * The token table. Ids are unique and below `nextId`; selectors are unique
   * (the column carries a unique index).
   */
  class RefreshTokenRepository {
    var tokens: seq<RefreshToken>
    var nextId: nat

    ghost predicate Valid()
      reads this
    {
      DistinctIds(tokens) && DistinctSelectors(tokens)
      && forall i :: 0 <= i < |tokens| ==> tokens[i].id < nextId
    }

    constructor ()
      ensures Valid() && tokens == [] && nextId == 1
    {
      tokens := [];
      nextId := 1;
    }

    function CountActiveByUser(userId: string, now: Time): nat
      reads this
    {
      CountActive(tokens, userId, now)
    }

    /** Inserts a row; a selector already present violates the unique index. */
    method Create(userId: string, selector: string, tokenHash: string, createdAt: Time, expiresAt: Time)
      returns (ok: bool)
      requires Valid()
      modifies this
      ensures Valid()
      ensures ok <==> FindBySelector(old(tokens), selector).None?
      ensures ok ==> tokens == old(tokens) + [RefreshToken(old(nextId), userId, selector, tokenHash, createdAt, expiresAt, None)]
      ensures ok ==> nextId == old(nextId) + 1
      ensures !ok ==> tokens == old(tokens) && nextId == old(nextId)
    {
      if FindBySelector(tokens, selector).Some? {
        return false;
      }
      tokens := tokens + [RefreshToken(nextId, userId, selector, tokenHash, createdAt, expiresAt, None)];
      nextId := nextId + 1;
      ok := true;
    }

    method RevokeByIDs(ids: seq<nat>, at: Time)
      requires Valid()
      modifies this
      ensures Valid() && nextId == old(nextId)
      ensures tokens == RevokeIds(old(tokens), ids, at)
    {
      RevokeIdsPreserves(tokens, ids, at);
      tokens := RevokeIds(tokens, ids, at);
    }

    method RevokeAllForUser(userId: string, at: Time)
      requires Valid()
      modifies this
      ensures Valid() && nextId == old(nextId)
      ensures tokens == RevokeAllOf(old(tokens), userId, at)
    {
      tokens := RevokeAllOf(tokens, userId, at);
    }

    method UpdateRevokedAt(id: nat, at: Time)
      requires Valid()
      modifies this
      ensures Valid() && nextId == old(nextId)
      ensures tokens == RevokeIds(old(tokens), [id], at)
    {
      RevokeIdsPreserves(tokens, [id], at);
      tokens := RevokeIds(tokens, [id], at);
    }
  }

  /** A revocation changes no id and no selector. */
  lemma {:induction false} RevokeIdsPreserves(ts: seq<RefreshToken>, ids: seq<nat>, at: Time)
    ensures |RevokeIds(ts, ids, at)| == |ts|
    ensures forall i :: 0 <= i < |ts| ==>
      RevokeIds(ts, ids, at)[i].id == ts[i].id && RevokeIds(ts, ids, at)[i].selector == ts[i].selector
  {
    if ts != [] {
      RevokeIdsPreserves(ts[1..], ids, at);
    }
  }
}
