/**
 * Password hashing (backend/helper/password.go): the stored form
 * `$argon2id$<salt>$<hash>` and its verification. argon2id, base64 and the
 * random salt come from the `Crypto` primitives.
 */
module Password {
  import opened Wrappers
  import opened Text
  import opened Crypto

  const PASSWORD_ARGON2 := Argon2Params(3, 64 * 1024, 2, 32)
  const SALT_LEN := 16

  datatype PasswordError = SaltGenerationFailed | InvalidHashFormat | SaltDecodeFailed | HashDecodeFailed

  /** The stored form of a derived key and its salt. */
  function EncodeHash(p: Primitives, salt: seq<byte>, key: seq<byte>): string {
    "$argon2id$" + p.encodeRawStd(salt) + "$" + p.encodeRawStd(key)
  }

  /** `HashPassword`; `salt` is `None` when reading the random source failed. */
  function HashPassword(p: Primitives, password: string, salt: Option<seq<byte>>): (r: Result<string, PasswordError>)
    ensures salt.None? <==> r == Err(SaltGenerationFailed)
    ensures r.Ok? ==> StartsWith(r.value, "$argon2id$")
  {
    match salt
    case None => Err(SaltGenerationFailed)
    case Some(s) =>
      var h := EncodeHash(p, s, p.argon2id(PASSWORD_ARGON2, password, s));
      assert h[..10] == "$argon2id$";
      Ok(h)
  }

  /** The two encoded fields of a stored hash, or the format error. */
  function ParseHash(encoded: string): (r: Result<(string, string), PasswordError>)
    ensures r.Ok? <==> |Split(encoded, '$')| == 4 && Split(encoded, '$')[0] == "" && Split(encoded, '$')[1] == "argon2id"
    ensures r.Err? ==> r.error == InvalidHashFormat
  {
    var parts := Split(encoded, '$');
    if |parts| != 4 || parts[0] != "" || parts[1] != "argon2id" then Err(InvalidHashFormat)
    else Ok((parts[2], parts[3]))
  }

  /** The algorithm tag holds no separator. */
  lemma TagIsOnePart()
    ensures Split("argon2id", '$') == ["argon2id"]
  {
    assert '$' !in "argon2id";
    SplitAbsent("argon2id", '$');
  }

  /** The salt and key fields, joined by the separator, split back into the two. */
  lemma FieldsSplit(p: Primitives, salt: seq<byte>, key: seq<byte>)
    requires WellBehaved(p)
    ensures Split(p.encodeRawStd(salt) + ['$'] + p.encodeRawStd(key), '$') == [p.encodeRawStd(salt), p.encodeRawStd(key)]
  {
    StdEncodingHasNo(p, salt, '$');
    StdEncodingHasNo(p, key, '$');
    SplitJoin(p.encodeRawStd(salt), p.encodeRawStd(key), '$');
    SplitAbsent(p.encodeRawStd(salt), '$');
    SplitAbsent(p.encodeRawStd(key), '$');
  }

  /** A stored hash parses back into the two encodings it was built from. */
  lemma ParseEncodeHash(p: Primitives, salt: seq<byte>, key: seq<byte>)
    requires WellBehaved(p)
    ensures ParseHash(EncodeHash(p, salt, key)) == Ok((p.encodeRawStd(salt), p.encodeRawStd(key)))
  {
    var a := p.encodeRawStd(salt);
    var b := p.encodeRawStd(key);
    var tail := a + ['$'] + b;
    var mid := "argon2id" + ['$'] + tail;
    var encoded := EncodeHash(p, salt, key);
    assert encoded == "" + ['$'] + mid;
    FieldsSplit(p, salt, key);
    assert Split(mid, '$') == ["argon2id", a, b] by {
      SplitJoin("argon2id", tail, '$');
      TagIsOnePart();
    }
    assert Split(encoded, '$') == ["", "argon2id", a, b] by {
      SplitJoin("", mid, '$');
    }
  }

  /**
   * The comparison loop of `VerifyPassword`: every position is visited, no
   * early exit, and the flag ends true iff the two keys are equal.
   */
  method ConstantTimeEqual(stored: seq<byte>, computed: seq<byte>) returns (equal: bool)
    ensures equal <==> stored == computed
  {
    if |stored| != |computed| {
      return false;
    }
    equal := true;
    var i := 0;
    while i < |stored|
      invariant 0 <= i <= |stored|
      invariant equal <==> stored[..i] == computed[..i]
    {
      if stored[i] != computed[i] {
        equal := false;
      }
      assert stored[..i + 1] == stored[..i] + [stored[i]];
      assert computed[..i + 1] == computed[..i] + [computed[i]];
      i := i + 1;
    }
    assert stored[..i] == stored && computed[..i] == computed;
  }

  /** What `VerifyPassword` answers, as a function of the stored form. */
  function VerifyPasswordSpec(p: Primitives, password: string, encoded: string): Result<bool, PasswordError> {
    match ParseHash(encoded)
    case Err(e) => Err(e)
    case Ok((saltText, hashText)) =>
      match p.decodeRawStd(saltText)
      case None => Err(SaltDecodeFailed)
      case Some(salt) =>
        match p.decodeRawStd(hashText)
        case None => Err(HashDecodeFailed)
        case Some(hash) => Ok(hash == p.argon2id(PASSWORD_ARGON2, password, salt))
  }

  /** `VerifyPassword`. */
  method VerifyPassword(p: Primitives, password: string, encoded: string) returns (r: Result<bool, PasswordError>)
    ensures r == VerifyPasswordSpec(p, password, encoded)
    ensures ParseHash(encoded).Err? ==> r == Err(InvalidHashFormat)
  {
    var parsed := ParseHash(encoded);
    if parsed.Err? {
      return Err(parsed.error);
    }
    var (saltText, hashText) := parsed.value;
    var salt := p.decodeRawStd(saltText);
    if salt.None? {
      return Err(SaltDecodeFailed);
    }
    var hash := p.decodeRawStd(hashText);
    if hash.None? {
      return Err(HashDecodeFailed);
    }
    var computed := p.argon2id(PASSWORD_ARGON2, password, salt.value);
    var equal := ConstantTimeEqual(hash.value, computed);
    r := Ok(equal);
  }

  /**
   * A hash made by `HashPassword` accepts exactly the passwords whose derived
   * key under its salt is the same, the original password among them.
   */
  lemma HashThenVerify(p: Primitives, password: string, candidate: string, salt: seq<byte>)
    requires WellBehaved(p)
    ensures HashPassword(p, password, Some(salt)).Ok?
    ensures VerifyPasswordSpec(p, candidate, HashPassword(p, password, Some(salt)).value) ==
            Ok(p.argon2id(PASSWORD_ARGON2, candidate, salt) == p.argon2id(PASSWORD_ARGON2, password, salt))
    ensures VerifyPasswordSpec(p, password, HashPassword(p, password, Some(salt)).value) == Ok(true)
  {
    ParseEncodeHash(p, salt, p.argon2id(PASSWORD_ARGON2, password, salt));
  }

  /**
   * Only stored forms that begin with `$argon2id$` parse: any other scheme
   * name or layout is rejected before anything is decoded.
   */
  lemma ParsedHashHasPrefix(encoded: string)
    requires ParseHash(encoded).Ok?
    ensures StartsWith(encoded, "$argon2id$")
  {
    var parts := Split(encoded, '$');
    CountPositive(encoded, '$');
    SplitAtFirst(encoded, '$');
    var i := IndexOf(encoded, '$');
    assert i == 0 by { assert encoded[..i] == parts[0]; }
    var rest := encoded[1..];
    assert Split(rest, '$') == parts[1..];
    CountPositive(rest, '$');
    SplitAtFirst(rest, '$');
    var j := IndexOf(rest, '$');
    assert rest[..j] == "argon2id";
    assert encoded[..10] == "$" + rest[..j] + "$";
  }
}
