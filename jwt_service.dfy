/**
 * Refresh-token sessions (backend/services/jwt_service.go): hashing and
 * verification of the validator, the `selector:validator` token format, the
 * per-user session cap, and the decision flow of the refresh endpoint.
 * JWT signing, randomness and the clock are parameters.
 */
module JwtService {
  import opened Wrappers
  import opened Text
  import opened Model
  import opened Crypto
  import opened RefreshTokens

  datatype Error =
    | InvalidStoredHashFormat
    | InvalidBase64
    | InvalidRefreshTokenFormat
    | RefreshTokenNotFound
    | RefreshTokenValidationFailed
    | SigningFailed
    | StoreFailed

  /** argon2id cost used for refresh-token validators: 3 passes, 64 MiB, 1 lane, 32 bytes. */
  const TOKEN_ARGON2: Argon2Params := Argon2Params(3, 64 * 1024, 1, 32)
  const DEFAULT_MAX_SESSIONS: nat := 10
  const REFRESH_TOKEN_LIFETIME: int := 30 * SECONDS_PER_DAY

  /** Stored form of a validator: base64(salt) + "$" + base64(argon2id(validator, salt)). */
  function HashToken(p: Primitives, validator: string, salt: seq<byte>): string {
    p.encodeRawStd(salt) + "$" + p.encodeRawStd(p.argon2id(TOKEN_ARGON2, validator, salt))
  }

  /**
   * `verifyToken`: the stored hash must split on "$" into exactly two parts,
   * both valid base64; the validator matches iff its derived key equals the
   * stored one (`subtle.ConstantTimeCompare`).
   */
  function VerifyToken(p: Primitives, validator: string, stored: string): (r: Result<bool, Error>)
    ensures Count(stored, '$') != 1 <==> r == Err(InvalidStoredHashFormat)
  {
    var parts := Split(stored, '$');
    if |parts| != 2 then Err(InvalidStoredHashFormat)
    else
      match p.decodeRawStd(parts[0])
      case None => Err(InvalidBase64)
      case Some(salt) =>
        match p.decodeRawStd(parts[1])
        case None => Err(InvalidBase64)
        case Some(hash) => Ok(hash == p.argon2id(TOKEN_ARGON2, validator, salt))
  }

  /** A stored hash splits back into the two encoded halves it was built from. */
  lemma HashTokenSplits(p: Primitives, validator: string, salt: seq<byte>)
    requires WellBehaved(p)
    ensures Split(HashToken(p, validator, salt), '$') ==
            [p.encodeRawStd(salt), p.encodeRawStd(p.argon2id(TOKEN_ARGON2, validator, salt))]
  {
    var a := p.encodeRawStd(salt);
    var b := p.encodeRawStd(p.argon2id(TOKEN_ARGON2, validator, salt));
    StdEncodingHasNo(p, salt, '$');
    StdEncodingHasNo(p, p.argon2id(TOKEN_ARGON2, validator, salt), '$');
    SplitJoin(a, b, '$');
    SplitAbsent(a, '$');
    SplitAbsent(b, '$');
  }

  /**
   * Verification against a freshly hashed validator accepts exactly the
   * candidates whose derived key is the same; in particular the validator itself.
   */
  lemma VerifyTokenRoundTrip(p: Primitives, validator: string, candidate: string, salt: seq<byte>)
    requires WellBehaved(p)
    ensures VerifyToken(p, candidate, HashToken(p, validator, salt)) ==
            Ok(p.argon2id(TOKEN_ARGON2, candidate, salt) == p.argon2id(TOKEN_ARGON2, validator, salt))
    ensures VerifyToken(p, validator, HashToken(p, validator, salt)) == Ok(true)
  {
    HashTokenSplits(p, validator, salt);
  }

  /** `MAX_SESSIONS_PER_USER`: used only when it parses to a positive number, else 10. */
  function MaxSessions(env: string): (n: nat)
    ensures n >= 1
    ensures Atoi(env).Some? && Atoi(env).value > 0 ==> n == Atoi(env).value
    ensures !(Atoi(env).Some? && Atoi(env).value > 0) ==> n == DEFAULT_MAX_SESSIONS
  {
    if env != "" then
      match Atoi(env)
      case Some(k) => if k > 0 then k else DEFAULT_MAX_SESSIONS
      case None => DEFAULT_MAX_SESSIONS
    else DEFAULT_MAX_SESSIONS
  }

  /** Any positive setting written in decimal is honoured. */
  lemma MaxSessionsHonoursSetting(k: int)
    requires 0 < k <= INT64_MAX
    ensures MaxSessions(IntToString(k)) == k
  {
    AtoiRoundTrip(k);
  }

  /**
   * The revocations `GenerateTokens` makes before inserting a new token:
   * at or over the cap, the `active - (max - 1)` oldest active tokens of the
   * user are revoked at `now`.
   */
  function RevokeForCap(ts: seq<RefreshToken>, userId: string, now: Time, maxSessions: nat): (r: seq<RefreshToken>)
    requires maxSessions >= 1
    ensures |r| == |ts|
    ensures forall i :: 0 <= i < |ts| ==> r[i].id == ts[i].id && r[i].selector == ts[i].selector
    ensures CountActive(ts, userId, now) < maxSessions ==> r == ts
  {
    var active := CountActive(ts, userId, now);
    if active >= maxSessions then
      var toRevoke := active - (maxSessions - 1);
      var ids := OldestActiveIds(ts, userId, now, toRevoke);
      RevokeIdsPreserves(ts, ids, now);
      if |ids| > 0 then RevokeIds(ts, ids, now) else ts
    else ts
  }

  /** The same step with the selection the repository makes as written (unrevoked, expired or not). */
  function RevokeForCapAsWritten(ts: seq<RefreshToken>, userId: string, now: Time, maxSessions: nat): (r: seq<RefreshToken>)
    requires maxSessions >= 1
    ensures |r| == |ts|
    ensures forall i :: 0 <= i < |ts| ==> r[i].id == ts[i].id && r[i].selector == ts[i].selector
    ensures CountActive(ts, userId, now) < maxSessions ==> r == ts
  {
    var active := CountActive(ts, userId, now);
    if active >= maxSessions then
      var toRevoke := active - (maxSessions - 1);
      var ids := OldestUnrevokedIds(ts, userId, toRevoke);
      RevokeIdsPreserves(ts, ids, now);
      if |ids| > 0 then RevokeIds(ts, ids, now) else ts
    else ts
  }

  /** After the cap step the user has room for exactly one more active token. */
  lemma SessionCapLeavesRoom(ts: seq<RefreshToken>, userId: string, now: Time, maxSessions: nat)
    requires maxSessions >= 1 && DistinctIds(ts)
    ensures CountActive(RevokeForCap(ts, userId, now, maxSessions), userId, now) <= maxSessions - 1
  {
    var active := CountActive(ts, userId, now);
    if active >= maxSessions {
      var toRevoke := active - (maxSessions - 1);
      var ids := OldestActiveIds(ts, userId, now, toRevoke);
      RevokeOldestActiveCount(ts, userId, now, toRevoke, now);
      if |ids| == 0 {
        RevokeIdsNone(ts, now);
      }
    }
  }

  /**
   * With the selection as written, an expired but unrevoked old token is
   * "revoked" in place of an active one, and the cap is exceeded: two
   * sessions allowed, three active after a new login.
   */
  lemma SessionCapExceededAsWritten()
    ensures var ts := [RefreshToken(1, "u", "s1", "h1", 0, 10, None),
                       RefreshToken(2, "u", "s2", "h2", 20, 100, None),
                       RefreshToken(3, "u", "s3", "h3", 30, 100, None)];
            var after := RevokeForCapAsWritten(ts, "u", 50, 2) + [RefreshToken(4, "u", "s4", "h4", 50, 200, None)];
            CountActive(after, "u", 50) == 3
  {
    var ts := [RefreshToken(1, "u", "s1", "h1", 0, 10, None),
               RefreshToken(2, "u", "s2", "h2", 20, 100, None),
               RefreshToken(3, "u", "s3", "h3", 30, 100, None)];
    assert ts[1..] == [ts[1], ts[2]];
    assert ts[1..][1..] == [ts[2]];
    assert CountActive(ts, "u", 50) == 2;
    assert OldestUnrevokedIds(ts, "u", 1) == [1];
    var revoked := RevokeIds(ts, [1], 50);
    assert revoked == [ts[0].(revokedAt := Some(50)), ts[1], ts[2]];
    assert RevokeForCapAsWritten(ts, "u", 50, 2) == revoked;
    assert revoked[1..] == [ts[1], ts[2]];
    assert revoked[1..][1..] == [ts[2]];
    assert CountActive(revoked, "u", 50) == 2;
    var t4 := RefreshToken(4, "u", "s4", "h4", 50, 200, None);
    CountActiveAppend(revoked, t4, "u", 50);
  }

  /** The token handed to the client: the public selector and the secret validator. */
  datatype TokenPair = TokenPair(accessToken: string, refreshToken: string)

  /**
   * `VerifyRefreshToken`: split at the first ':', look the selector up, and
   * check the validator against the stored hash.
   */
  function VerifyRefreshToken(p: Primitives, ts: seq<RefreshToken>, combined: string): (r: Result<RefreshToken, Error>)
    ensures ':' !in combined ==> r == Err(InvalidRefreshTokenFormat)
    ensures ':' in combined && FindBySelector(ts, SplitOnce(combined, ':')[0]).None? ==> r == Err(RefreshTokenNotFound)
    ensures r.Ok? ==> r.value in ts && exists validator ::
              combined == r.value.selector + ":" + validator
              && VerifyToken(p, validator, r.value.tokenHash) == Ok(true)
  {
    var parts := SplitOnce(combined, ':');
    if |parts| != 2 then Err(InvalidRefreshTokenFormat)
    else
      match FindBySelector(ts, parts[0])
      case None => Err(RefreshTokenNotFound)
      case Some(stored) =>
        match VerifyToken(p, parts[1], stored.tokenHash)
        case Err(e) => Err(e)
        case Ok(matched) =>
          if !matched then Err(RefreshTokenValidationFailed)
          else
            var i := IndexOf(combined, ':');
            assert combined == parts[0] + ":" + parts[1] by {
              assert combined == combined[..i] + [':'] + combined[i + 1..];
            }
            Ok(stored)
  }

  /** A token built from a stored selector and its validator verifies to that row. */
  lemma VerifyRefreshTokenRoundTrip(p: Primitives, ts: seq<RefreshToken>, t: RefreshToken, validator: string, salt: seq<byte>)
    requires WellBehaved(p)
    requires ':' !in t.selector
    requires FindBySelector(ts, t.selector) == Some(t)
    requires t.tokenHash == HashToken(p, validator, salt)
    ensures VerifyRefreshToken(p, ts, t.selector + ":" + validator) == Ok(t)
  {
    SplitOnceJoin(t.selector, validator, ':');
    assert t.selector + ":" + validator == t.selector + [':'] + validator;
    VerifyTokenRoundTrip(p, validator, validator, salt);
  }

  /** A token appended under a fresh, url-encoded selector verifies from its combined form. */
  lemma IssuedTokenVerifies(p: Primitives, ts: seq<RefreshToken>, t: RefreshToken, selectorBytes: seq<byte>,
                            validator: string, salt: seq<byte>)
    requires WellBehaved(p)
    requires t.selector == p.encodeUrl(selectorBytes) && t.tokenHash == HashToken(p, validator, salt)
    requires FindBySelector(ts, t.selector).None?
    ensures VerifyRefreshToken(p, ts + [t], t.selector + ":" + validator) == Ok(t)
  {
    FindBySelectorAppend(ts, t);
    UrlEncodingHasNo(p, selectorBytes, ':');
    VerifyRefreshTokenRoundTrip(p, ts + [t], t, validator, salt);
  }

  lemma FindBySelectorAppend(ts: seq<RefreshToken>, t: RefreshToken)
    requires FindBySelector(ts, t.selector).None?
    ensures FindBySelector(ts + [t], t.selector) == Some(t)
  {
    if ts == [] {
    } else {
      assert (ts + [t])[1..] == ts[1..] + [t];
      FindBySelectorAppend(ts[1..], t);
    }
  }

  /** Role reported by the refresh endpoint: admin, then company, else unknown. */
  function RefreshRole(adminCount: Option<nat>, companyCount: Option<nat>): (role: Role)
    ensures role == Admin <==> adminCount.Some? && adminCount.value > 0
    ensures role == Company <==> !(adminCount.Some? && adminCount.value > 0) && companyCount.Some? && companyCount.value > 0
    ensures role != Student && role != Viewer
  {
    if adminCount.Some? && adminCount.value > 0 then Admin
    else if companyCount.Some? && companyCount.value > 0 then Company
    else Unknown
  }

  /** Username reported by the refresh endpoint: looked up for company and admin only. */
  function RefreshUsername(role: Role, stored: Option<string>): (name: string)
    ensures (role != Company && role != Admin) || stored.None? ==> name == "unknown"
    ensures (role == Company || role == Admin) && stored.Some? ==> name == stored.value
  {
    if (role == Company || role == Admin) && stored.Some? then stored.value else "unknown"
  }

  /** The combined token handed to the client: `selector:validator`, both url-encoded. */
  function Combined(p: Primitives, selectorBytes: seq<byte>, validatorBytes: seq<byte>): string {
    p.encodeUrl(selectorBytes) + ":" + p.encodeUrl(validatorBytes)
  }

  /** The row `GenerateTokens` inserts: unrevoked, expiring thirty days after `now`. */
  function IssuedRow(p: Primitives, id: nat, userId: string, now: Time,
                     selectorBytes: seq<byte>, validatorBytes: seq<byte>, salt: seq<byte>): RefreshToken {
    RefreshToken(id, userId, p.encodeUrl(selectorBytes), HashToken(p, p.encodeUrl(validatorBytes), salt),
                 now, now + REFRESH_TOKEN_LIFETIME, None)
  }

  datatype RefreshResponse =
    | Unauthorized(clearCookie: bool)
    | InternalError
    | Refreshed(accessToken: string, refreshToken: string, username: string, role: Role, userId: string)

  /**
   * The service: the token repository, the crypto primitives and the
   * `MAX_SESSIONS_PER_USER` setting.
   */
  class JwtTokenService {
    const repo: RefreshTokenRepository
    const crypto: Primitives
    const maxSessionsEnv: string

    ghost predicate Valid()
      reads this, repo
    {
      repo.Valid()
    }

    constructor (repo: RefreshTokenRepository, crypto: Primitives, maxSessionsEnv: string)
      requires repo.Valid()
      ensures Valid()
      ensures this.repo == repo && this.crypto == crypto && this.maxSessionsEnv == maxSessionsEnv
    {
      this.repo := repo;
      this.crypto := crypto;
      this.maxSessionsEnv := maxSessionsEnv;
    }

    /**
     * The insert at the end of `GenerateTokens`: a row for the hashed
     * validator under the url-encoded selector, expiring in thirty days.
     * A selector already present violates the unique index.
     */
    method StoreToken(userId: string, now: Time, signedJwt: string,
                      selectorBytes: seq<byte>, validatorBytes: seq<byte>, salt: seq<byte>)
      returns (r: Result<TokenPair, Error>)
      requires Valid()
      modifies repo
      ensures Valid()
      ensures FindBySelector(old(repo.tokens), crypto.encodeUrl(selectorBytes)).None? ==>
                r == Ok(TokenPair(signedJwt, Combined(crypto, selectorBytes, validatorBytes)))
                && repo.tokens == old(repo.tokens) + [IssuedRow(crypto, old(repo.nextId), userId, now, selectorBytes, validatorBytes, salt)]
      ensures FindBySelector(old(repo.tokens), crypto.encodeUrl(selectorBytes)).Some? ==>
                r == Err(StoreFailed) && repo.tokens == old(repo.tokens)
      ensures r.Ok? && WellBehaved(crypto) ==>
                VerifyRefreshToken(crypto, repo.tokens, r.value.refreshToken) == Ok(repo.tokens[|repo.tokens| - 1])
    {
      var selector := crypto.encodeUrl(selectorBytes);
      var validator := crypto.encodeUrl(validatorBytes);
      var hashed := HashToken(crypto, validator, salt);
      ghost var before := repo.tokens;
      var id := repo.nextId;
      var ok := repo.Create(userId, selector, hashed, now, now + REFRESH_TOKEN_LIFETIME);
      if !ok {
        return Err(StoreFailed);
      }
      var t := RefreshToken(id, userId, selector, hashed, now, now + REFRESH_TOKEN_LIFETIME, None);
      assert repo.tokens == before + [t];
      r := Ok(TokenPair(signedJwt, selector + ":" + validator));
      if WellBehaved(crypto) {
        IssuedTokenVerifies(crypto, before, t, selectorBytes, validator, salt);
      }
    }

    /**
     * `GenerateTokens`, as written. `signedJwt` is the signed access token
     * (None when signing fails); the byte strings stand for the random
     * selector, validator and salt. At or over the cap, the oldest unrevoked
     * tokens of the user are revoked, expired ones included, so the cap is
     * not promised (`SessionCapExceededAsWritten`). The revocations happen
     * before the insert, so they stay even when the insert fails.
     */
    method GenerateTokens(userId: string, now: Time, signedJwt: Option<string>,
                          selectorBytes: seq<byte>, validatorBytes: seq<byte>, salt: seq<byte>)
      returns (r: Result<TokenPair, Error>)
      requires Valid()
      modifies repo
      ensures Valid()
      ensures signedJwt.None? ==> r == Err(SigningFailed) && repo.tokens == old(repo.tokens)
      ensures signedJwt.Some? ==>
        var capped := RevokeForCapAsWritten(old(repo.tokens), userId, now, MaxSessions(maxSessionsEnv));
        if FindBySelector(capped, crypto.encodeUrl(selectorBytes)).None? then
          r == Ok(TokenPair(signedJwt.value, Combined(crypto, selectorBytes, validatorBytes)))
          && repo.tokens == capped + [IssuedRow(crypto, old(repo.nextId), userId, now, selectorBytes, validatorBytes, salt)]
        else r == Err(StoreFailed) && repo.tokens == capped
      ensures r.Ok? && WellBehaved(crypto) ==>
        VerifyRefreshToken(crypto, repo.tokens, r.value.refreshToken) == Ok(repo.tokens[|repo.tokens| - 1])
    {
      if signedJwt.None? {
        return Err(SigningFailed);
      }
      var maxSessions := MaxSessions(maxSessionsEnv);
      ghost var before := repo.tokens;
      var active := repo.CountActiveByUser(userId, now);
      if active >= maxSessions {
        var toRevoke := active - (maxSessions - 1);
        if toRevoke > 0 {
          var oldest := OldestUnrevokedIds(repo.tokens, userId, toRevoke);
          if |oldest| > 0 {
            repo.RevokeByIDs(oldest, now);
          }
        }
      }
      assert repo.tokens == RevokeForCapAsWritten(before, userId, now, maxSessions);
      r := StoreToken(userId, now, signedJwt.value, selectorBytes, validatorBytes, salt);
    }

    /**
     * `GenerateTokens` with the selection the cap needs: the oldest tokens
     * that are still active are revoked, so the user ends within the cap.
     */
    method GenerateTokensWithinCap(userId: string, now: Time, signedJwt: Option<string>,
                                   selectorBytes: seq<byte>, validatorBytes: seq<byte>, salt: seq<byte>)
      returns (r: Result<TokenPair, Error>)
      requires Valid()
      modifies repo
      ensures Valid()
      ensures signedJwt.None? ==> r == Err(SigningFailed) && repo.tokens == old(repo.tokens)
      ensures signedJwt.Some? ==>
        var capped := RevokeForCap(old(repo.tokens), userId, now, MaxSessions(maxSessionsEnv));
        if FindBySelector(capped, crypto.encodeUrl(selectorBytes)).None? then
          r == Ok(TokenPair(signedJwt.value, Combined(crypto, selectorBytes, validatorBytes)))
          && repo.tokens == capped + [IssuedRow(crypto, old(repo.nextId), userId, now, selectorBytes, validatorBytes, salt)]
        else r == Err(StoreFailed) && repo.tokens == capped
      ensures r.Ok? ==> CountActive(repo.tokens, userId, now) <= MaxSessions(maxSessionsEnv)
      ensures r.Ok? && WellBehaved(crypto) ==>
        VerifyRefreshToken(crypto, repo.tokens, r.value.refreshToken) == Ok(repo.tokens[|repo.tokens| - 1])
    {
      if signedJwt.None? {
        return Err(SigningFailed);
      }
      var maxSessions := MaxSessions(maxSessionsEnv);
      ghost var before := repo.tokens;
      var active := repo.CountActiveByUser(userId, now);
      if active >= maxSessions {
        var toRevoke := active - (maxSessions - 1);
        if toRevoke > 0 {
          var oldest := OldestActiveIds(repo.tokens, userId, now, toRevoke);
          if |oldest| > 0 {
            repo.RevokeByIDs(oldest, now);
          }
        }
      }
      assert repo.tokens == RevokeForCap(before, userId, now, maxSessions);
      SessionCapLeavesRoom(before, userId, now, maxSessions);
      ghost var capped := repo.tokens;
      r := StoreToken(userId, now, signedJwt.value, selectorBytes, validatorBytes, salt);
      if r.Ok? {
        CountActiveAppend(capped, repo.tokens[|repo.tokens| - 1], userId, now);
      }
    }

    /**
     * `RefreshTokenHandler`: the cookie value (None when absent), the role
     * counts (None when the query fails) and the stored username (None when
     * the lookup fails) are inputs; the rest feeds `GenerateTokens`.
     */
    method RefreshTokenHandler(cookie: Option<string>, now: Time,
                               adminCount: Option<nat>, companyCount: Option<nat>, storedUsername: Option<string>,
                               signedJwt: Option<string>, selectorBytes: seq<byte>, validatorBytes: seq<byte>, salt: seq<byte>)
      returns (resp: RefreshResponse)
      requires Valid()
      modifies repo
      ensures Valid()
      ensures cookie.None? || cookie == Some("") ==> resp == Unauthorized(false) && repo.tokens == old(repo.tokens)
      ensures cookie.Some? && cookie != Some("") && VerifyRefreshToken(crypto, old(repo.tokens), cookie.value).Err? ==>
                resp == Unauthorized(true) && repo.tokens == old(repo.tokens)
      ensures cookie.Some? && cookie != Some("") && VerifyRefreshToken(crypto, old(repo.tokens), cookie.value).Ok? ==>
                var rt := VerifyRefreshToken(crypto, old(repo.tokens), cookie.value).value;
                (rt.revokedAt.Some? ==>
                   resp == Unauthorized(true) && repo.tokens == RevokeAllOf(old(repo.tokens), rt.userId, now)
                   && CountActive(repo.tokens, rt.userId, now) == 0)
                && (rt.revokedAt.None? && rt.expiresAt < now ==>
                   resp == Unauthorized(true) && repo.tokens == RevokeIds(old(repo.tokens), [rt.id], now))
                && (rt.revokedAt.None? && rt.expiresAt >= now ==>
                   var capped := RevokeForCapAsWritten(old(repo.tokens), rt.userId, now, MaxSessions(maxSessionsEnv));
                   if signedJwt.Some? && FindBySelector(capped, crypto.encodeUrl(selectorBytes)).None? then
                     var role := RefreshRole(adminCount, companyCount);
                     resp == Refreshed(signedJwt.value, Combined(crypto, selectorBytes, validatorBytes),
                                       RefreshUsername(role, storedUsername), role, rt.userId)
                     && repo.tokens == capped + [IssuedRow(crypto, old(repo.nextId), rt.userId, now,
                                                           selectorBytes, validatorBytes, salt)]
                   else
                     resp == InternalError
                     && repo.tokens == if signedJwt.None? then old(repo.tokens) else capped)
      ensures resp.Refreshed? ==> signedJwt.Some? && resp.accessToken == signedJwt.value
    {
      if cookie.None? || cookie.value == "" {
        return Unauthorized(false);
      }
      var verified := VerifyRefreshToken(crypto, repo.tokens, cookie.value);
      if verified.Err? {
        return Unauthorized(true);
      }
      var rt := verified.value;
      if rt.revokedAt.Some? {
        repo.RevokeAllForUser(rt.userId, now);
        RevokeAllLeavesNoneActive(old(repo.tokens), rt.userId, now, now);
        return Unauthorized(true);
      }
      if rt.expiresAt < now {
        repo.UpdateRevokedAt(rt.id, now);
        return Unauthorized(true);
      }
      var generated := GenerateTokens(rt.userId, now, signedJwt, selectorBytes, validatorBytes, salt);
      if generated.Err? {
        return InternalError;
      }
      var role := RefreshRole(adminCount, companyCount);
      var username := RefreshUsername(role, storedUsername);
      resp := Refreshed(generated.value.accessToken, generated.value.refreshToken, username, role, rt.userId);
    }
  }
}
