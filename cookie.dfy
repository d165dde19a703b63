/**
 * Cookie naming (backend/helper/cookie.go): the `COOKIE_SECURE` switch, read
 * once, and the per-name cache of canonical cookie names. The environment
 * variable's value is a constant of the object; the mutex and `sync.Once`
 * become plain fields, one caller at a time.
 */
module Cookie {
  import opened Wrappers
  import opened Text

  /** `strconv.ParseBool`. */
  function ParseBool(s: string): (r: Option<bool>)
    ensures r == Some(true) <==> s in {"1", "t", "T", "TRUE", "true", "True"}
    ensures r == Some(false) <==> s in {"0", "f", "F", "FALSE", "false", "False"}
  {
    if s in {"1", "t", "T", "TRUE", "true", "True"} then Some(true)
    else if s in {"0", "f", "F", "FALSE", "false", "False"} then Some(false)
    else None
  }

  /** `strconv.FormatBool`. */
  function FormatBool(b: bool): string {
    if b then "true" else "false"
  }

  lemma ParseFormatBool(b: bool)
    ensures ParseBool(FormatBool(b)) == Some(b)
  {
  }

  /** `initCookieSecure`: unset, empty or unparsable values mean secure. */
  function SecureSetting(value: string): bool {
    if value == "" then true
    else match ParseBool(value)
      case None => true
      case Some(b) => b
  }

  /** Cookies lose the Secure flag only for an explicit false spelling. */
  lemma SecureUnlessExplicitlyFalse(value: string)
    ensures !SecureSetting(value) <==> value in {"0", "f", "F", "FALSE", "false", "False"}
  {
  }

  const SECURE_PREFIX := "__Secure-"

  /** The canonical name of a cookie: prefixed with `__Secure-` when cookies are secure. */
  function CanonicalName(base: string, secure: bool): string {
    if secure then SECURE_PREFIX + base else base
  }

  /** The canonical name keeps the base name recoverable: drop the prefix if secure. */
  lemma CanonicalNameInverse(base: string, secure: bool)
    ensures var n := CanonicalName(base, secure);
            (secure ==> StartsWith(n, SECURE_PREFIX) && n[|SECURE_PREFIX|..] == base)
            && (!secure ==> n == base)
  {
  }

  datatype CookieError = EmptyCookieName

  /** The process-wide state of cookie.go. */
  class CookieNames {
    const cookieSecureEnv: string
    var secureInitialized: bool
    var isCookieSecure: bool
    var cache: map<string, string>

    /** Once read, the switch is the setting's value; every cached name is canonical. */
    ghost predicate Valid()
      reads this
    {
      (secureInitialized ==> isCookieSecure == SecureSetting(cookieSecureEnv))
      && forall b :: b in cache ==> b != "" && cache[b] == CanonicalName(b, SecureSetting(cookieSecureEnv))
    }

    constructor (cookieSecureEnv: string)
      ensures Valid() && this.cookieSecureEnv == cookieSecureEnv
      ensures !secureInitialized && cache == map[]
    {
      this.cookieSecureEnv := cookieSecureEnv;
      secureInitialized := false;
      isCookieSecure := false;
      cache := map[];
    }

    /** `GetCookieSecure`: the setting is read on the first call only. */
    method GetCookieSecure() returns (secure: bool)
      requires Valid()
      modifies this
      ensures Valid() && secureInitialized && cache == old(cache)
      ensures secure == SecureSetting(cookieSecureEnv)
    {
      if !secureInitialized {
        isCookieSecure := SecureSetting(cookieSecureEnv);
        secureInitialized := true;
      }
      secure := isCookieSecure;
    }

    /** `GetCookieName`: an empty base is an error; otherwise the cached or freshly computed name. */
    method GetCookieName(base: string) returns (r: Result<string, CookieError>)
      requires Valid()
      modifies this
      ensures Valid()
      ensures base == "" ==> r == Err(EmptyCookieName) && cache == old(cache)
      ensures base != "" ==> r == Ok(CanonicalName(base, SecureSetting(cookieSecureEnv)))
                             && cache == old(cache)[base := r.value]
    {
      if base == "" {
        return Err(EmptyCookieName);
      }
      if base in cache {
        return Ok(cache[base]);
      }
      var secure := GetCookieSecure();
      var name := CanonicalName(base, secure);
      cache := cache[base := name];
      r := Ok(name);
    }

    /** `GetRefreshCookieName`: the name of the refresh-token cookie. */
    method GetRefreshCookieName() returns (name: string)
      requires Valid()
      modifies this
      ensures Valid()
      ensures name == CanonicalName("refresh_token", SecureSetting(cookieSecureEnv))
    {
      var r := GetCookieName("refresh_token");
      name := if r.Ok? then r.value else "";
    }
  }
}
